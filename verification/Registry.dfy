/**
The registry of connected agents and its four maps (pkg/agent/registry.go).

`idOf` derives an agent's id from its key name, as the daemon does before it
registers one; `profile` stands for the tools and skills.
*/
module Registry {
  import opened Ordering

  datatype Agent = Agent(id: string, name: string, keyName: string, profile: string, connectedAt: int)

  datatype Maps = Maps(
    agents: map<string, Agent>, byName: map<string, string>, byKeyName: map<string, string>,
    heartbeat: map<string, int>)

  const NoAgents := Maps(map[], map[], map[], map[])

  /** A registration request with its key name already normalised. */
  datatype Request = Request(name: string, keyName: string, profile: string)

  /** The live agent registered under a key name. */
  function Holder(m: Maps, keyName: string): Option<Agent> {
    if keyName in m.byKeyName && m.byKeyName[keyName] in m.agents then Some(m.agents[m.byKeyName[keyName]]) else None
  }

  /** A known agent asks for a name that another one has. */
  predicate RejectedRename(m: Maps, r: Request) {
    && Holder(m, r.keyName).Some?
    && var id := m.byKeyName[r.keyName];
       m.agents[id].name != r.name && r.name in m.byName && m.byName[r.name] != id
  }

  /** A new agent asks for the name of a live one. */
  predicate RejectedNew(m: Maps, r: Request) {
    Holder(m, r.keyName).None? && r.name in m.byName && m.byName[r.name] in m.agents
  }

  function Register(m: Maps, r: Request, id: string, now: int): Maps {
    if Holder(m, r.keyName).Some? then
      var held := m.byKeyName[r.keyName];
      var agent := m.agents[held];
      if agent.name == r.name then
        m.(agents := m.agents[held := agent.(keyName := r.keyName, profile := r.profile)],
            heartbeat := m.heartbeat[held := now])
      else
        var names := m.byName - {agent.name};
        if RejectedRename(m, r) then m.(byName := names)
        else m.(agents := m.agents[held := agent.(name := r.name, keyName := r.keyName, profile := r.profile)],
                byName := names[r.name := held], heartbeat := m.heartbeat[held := now])
    else
      var keys := m.byKeyName - {r.keyName};
      if RejectedNew(m, r) then m.(byKeyName := keys)
      else Maps(m.agents[id := Agent(id, r.name, r.keyName, r.profile, now)], m.byName[r.name := id],
          keys[r.keyName := id],
                m.heartbeat[id := now])
  }

  function Deregister(m: Maps, id: string): Maps {
    if id !in m.agents then m
    else Maps(m.agents - {id}, m.byName - {m.agents[id].name}, m.byKeyName - {m.agents[id].keyName}, m.heartbeat - {id})
  }

  function Heartbeat(m: Maps, id: string, now: int): Maps {
    if id !in m.agents then m else m.(heartbeat := m.heartbeat[id := now])
  }

  datatype Step = DoRegister(r: Request, now: int) | DoDeregister(id: string) | DoHeartbeat(id: string, now: int)

  function Next(idOf: string -> string, m: Maps, s: Step): Maps {
    match s
    case DoRegister(r, now) => Register(m, r, idOf(r.keyName), now)
    case DoDeregister(id) => Deregister(m, id)
    case DoHeartbeat(id, now) => Heartbeat(m, id, now)
  }

  function Run(idOf: string -> string, steps: seq<Step>): Maps {
    if steps == [] then NoAgents else Next(idOf, Run(idOf, steps[..|steps| - 1]), steps[|steps| - 1])
  }

  ghost predicate Injective(idOf: string -> string) {
    forall a: string, b: string :: idOf(a) == idOf(b) ==> a == b
  }

  // ---- What every run keeps -------------------------------------------------------------------

  /** Key names and live agents correspond one to one. */
  ghost predicate KeysMatch(m: Maps) {
    && (forall k :: k in m.byKeyName ==> m.byKeyName[k] in m.agents && m.agents[m.byKeyName[k]].keyName == k)
    && (forall id :: id in m.agents ==> m.agents[id].keyName in m.byKeyName && m.byKeyName[m.agents[id].keyName] == id)
  }

  /** Every indexed name belongs to a live agent of that name. */
  ghost predicate NamesSound(m: Maps) {
    forall n :: n in m.byName ==> m.byName[n] in m.agents && m.agents[m.byName[n]].name == n
  }

  /** Every live agent can be found by its name, so no two share one. */
  ghost predicate NamesComplete(m: Maps) {
    forall id :: id in m.agents ==> m.agents[id].name in m.byName && m.byName[m.agents[id].name] == id
  }

  ghost predicate Inv(idOf: string -> string, m: Maps) {
    && KeysMatch(m) && NamesSound(m) && m.heartbeat.Keys == m.agents.Keys
    && forall id :: id in m.agents ==> m.agents[id].id == id == idOf(m.agents[id].keyName)
  }

  lemma ReregisterKeeps(idOf: string -> string, m: Maps, r: Request, id: string, now: int)
    requires Inv(idOf, m) && Holder(m, r.keyName).Some? && m.agents[m.byKeyName[r.keyName]].name == r.name
    ensures Inv(idOf, Register(m, r, id, now))
  {}

  lemma RejectedRenameKeeps(idOf: string -> string, m: Maps, r: Request, id: string, now: int)
    requires Inv(idOf, m) && RejectedRename(m, r)
    ensures Inv(idOf, Register(m, r, id, now))
  {}

  lemma RenameKeeps(idOf: string -> string, m: Maps, r: Request, id: string, now: int)
    requires Inv(idOf, m) && Holder(m, r.keyName).Some? && m.agents[m.byKeyName[r.keyName]].name != r.name
      && !RejectedRename(m, r)
    ensures Inv(idOf, Register(m, r, id, now))
  {
    var held := m.byKeyName[r.keyName];
    var agent := m.agents[held].(name := r.name, keyName := r.keyName, profile := r.profile);
    var m' := Register(m, r, id, now);
    assert m' == Maps(m.agents[held := agent], (m.byName - {m.agents[held].name})[r.name := held], m.byKeyName,
        m.heartbeat[held := now]);
    assert r.name !in m.byName && m.agents[held].keyName == r.keyName;
    hide Register, Holder, RejectedRename;
    RenamedNames(m, held, agent, m');
    RenamedKeys(m, held, agent, m');
  }

  lemma RenamedKeys(m: Maps, held: string, agent: Agent, m': Maps)
    requires KeysMatch(m) && held in m.agents && agent.keyName == m.agents[held].keyName
    requires m'.agents == m.agents[held := agent] && m'.byKeyName == m.byKeyName
    ensures KeysMatch(m')
  {}

  /** Renaming one agent keeps the name index sound. */
  lemma RenamedNames(m: Maps, held: string, agent: Agent, m': Maps)
    requires NamesSound(m) && held in m.agents && (agent.name in m.byName ==> m.byName[agent.name] == held)
    requires m'.agents == m.agents[held := agent] && m'.byName == (m.byName - {m.agents[held].name})[agent.name := held]
    ensures NamesSound(m')
  {
    forall n | n in m'.byName ensures m'.byName[n] in m'.agents && m'.agents[m'.byName[n]].name == n {
      if n != agent.name { assert n in m.byName && n != m.agents[held].name; }
    }
  }

  lemma AddedKeeps(idOf: string -> string, m: Maps, r: Request, id: string, now: int)
    requires Inv(idOf, m) && id == idOf(r.keyName) && id !in m.agents && r.keyName !in m.byKeyName
      && r.name !in m.byName
    ensures Inv(idOf, Maps(m.agents[id := Agent(id, r.name, r.keyName, r.profile, now)], m.byName[r.name := id],
                           m.byKeyName[r.keyName := id], m.heartbeat[id := now]))
  {}

  lemma NewIsFresh(idOf: string -> string, m: Maps, keyName: string)
    requires Injective(idOf) && Inv(idOf, m) && Holder(m, keyName).None?
    ensures keyName !in m.byKeyName && idOf(keyName) !in m.agents && m.byKeyName - {keyName} == m.byKeyName
  {}

  lemma NewKeeps(idOf: string -> string, m: Maps, r: Request, now: int)
    requires Injective(idOf) && Inv(idOf, m) && Holder(m, r.keyName).None?
    ensures Inv(idOf, Register(m, r, idOf(r.keyName), now))
  {
    NewIsFresh(idOf, m, r.keyName);
    if !RejectedNew(m, r) {
      assert r.name !in m.byName;
      hide Inv, Injective;
      AddedKeeps(idOf, m, r, idOf(r.keyName), now);
    }
  }

  lemma RegisterKeeps(idOf: string -> string, m: Maps, r: Request, now: int)
    requires Injective(idOf) && Inv(idOf, m)
    ensures Inv(idOf, Register(m, r, idOf(r.keyName), now))
  {
    hide Register, Inv;
    if Holder(m, r.keyName).None? {
      NewKeeps(idOf, m, r, now);
    } else if m.agents[m.byKeyName[r.keyName]].name == r.name {
      ReregisterKeeps(idOf, m, r, idOf(r.keyName), now);
    } else if RejectedRename(m, r) {
      RejectedRenameKeeps(idOf, m, r, idOf(r.keyName), now);
    } else {
      RenameKeeps(idOf, m, r, idOf(r.keyName), now);
    }
  }

  lemma NextKeeps(idOf: string -> string, m: Maps, s: Step)
    requires Injective(idOf) && Inv(idOf, m)
    ensures Inv(idOf, Next(idOf, m, s))
  {
    match s
    case DoRegister(r, now) => RegisterKeeps(idOf, m, r, now);
    case DoDeregister(id) =>
    case DoHeartbeat(id, now) =>
  }

  /** In every run the maps agree with one another. */
  lemma {:induction false} MapsAgree(idOf: string -> string, steps: seq<Step>)
    requires Injective(idOf)
    ensures Inv(idOf, Run(idOf, steps))
  {
    if steps != [] {
      MapsAgree(idOf, steps[..|steps| - 1]);
      NextKeeps(idOf, Run(idOf, steps[..|steps| - 1]), steps[|steps| - 1]);
    }
  }

  // ---- What each operation does -------------------------------------------------------------------

  /** The requested name belongs to another live agent, and the caller does not have it. */
  predicate Taken(m: Maps, r: Request, id: string) {
    r.name in m.byName && m.byName[r.name] != id && (id in m.agents ==> m.agents[id].name != r.name)
  }

  /** A registration shows the agent as requested and nothing else changed, or is
      refused for a taken name and leaves agents and heartbeats alone. */
  lemma RegisterShows(idOf: string -> string, m: Maps, r: Request, now: int)
    requires Injective(idOf) && Inv(idOf, m)
    ensures var id := idOf(r.keyName); var m' := Register(m, r, id, now);
      if Taken(m, r, id) then m'.agents == m.agents && m'.heartbeat == m.heartbeat && m'.byKeyName == m.byKeyName
      else
        && m'.agents == m.agents[id := Agent(id, r.name, r.keyName, r.profile,
                                             if id in m.agents then m.agents[id].connectedAt else now)]
        && m'.heartbeat == m.heartbeat[id := now] && m'.byKeyName == m.byKeyName[r.keyName := id]
        && m'.byName == if id !in m.agents then m.byName[r.name := id]
                        else if m.agents[id].name == r.name then m.byName
                        else (m.byName - {m.agents[id].name})[r.name := id]
  {
    var id := idOf(r.keyName);
    if Holder(m, r.keyName).None? {
      NewIsFresh(idOf, m, r.keyName);
    } else {
      assert m.byKeyName[r.keyName] == id;
    }
  }

  /** An agent's removal takes its name from another agent exactly when that one took
      over the name after a rejected rename. */
  lemma DeregisterShows(idOf: string -> string, m: Maps, id: string)
    requires Inv(idOf, m)
    ensures id !in m.agents ==> Deregister(m, id) == m
    ensures id in m.agents ==> var m' := Deregister(m, id);
      && m'.agents == m.agents - {id} && m'.heartbeat == m.heartbeat - {id}
      && (forall k :: k in m'.byKeyName <==> k in m.byKeyName && m.byKeyName[k] != id)
      && (forall k :: k in m'.byKeyName ==> m'.byKeyName[k] == m.byKeyName[k])
      && (forall n :: n in m'.byName ==> n in m.byName && m'.byName[n] == m.byName[n] != id)
      && ((forall n :: n in m.byName && m.byName[n] != id ==> n in m'.byName) <==>
            !(m.agents[id].name in m.byName && m.byName[m.agents[id].name] != id))
  {}

  lemma HeartbeatShows(m: Maps, id: string, now: int)
    ensures var m' := Heartbeat(m, id, now);
      && m'.agents == m.agents && m'.byName == m.byName && m'.byKeyName == m.byKeyName
      && m'.heartbeat == if id in m.agents then m.heartbeat[id := now] else m.heartbeat
  {}

  // ---- When the name index is complete ------------------------------------------------------------

  lemma RegisterCompletes(idOf: string -> string, m: Maps, r: Request, now: int)
    requires Injective(idOf) && Inv(idOf, m) && NamesComplete(m) && !RejectedRename(m, r)
    ensures NamesComplete(Register(m, r, idOf(r.keyName), now))
  {
    if Holder(m, r.keyName).None? { NewIsFresh(idOf, m, r.keyName); }
    hide Injective;
  }

  lemma RejectedRenameLosesName(m: Maps, r: Request, id: string, now: int)
    requires RejectedRename(m, r)
    ensures !NamesComplete(Register(m, r, id, now))
  {
    var held, m' := m.byKeyName[r.keyName], Register(m, r, id, now);
    assert held in m'.agents && m'.agents[held].name !in m'.byName;
  }

  /** A step breaks a complete name index exactly when it is a rejected rename. */
  lemma CompleteUnlessRejectedRename(idOf: string -> string, m: Maps, s: Step)
    requires Injective(idOf) && Inv(idOf, m) && NamesComplete(m)
    ensures NamesComplete(Next(idOf, m, s)) <==> !(s.DoRegister? && RejectedRename(m, s.r))
  {
    match s
    case DoRegister(r, now) =>
      hide Register, Inv, Injective, NamesComplete;
      if RejectedRename(m, r) { RejectedRenameLosesName(m, r, idOf(r.keyName), now); }
      else { RegisterCompletes(idOf, m, r, now); }
    case DoDeregister(id) =>
    case DoHeartbeat(id, now) =>
  }

  ghost predicate NoRejectedRename(idOf: string -> string, steps: seq<Step>) {
    steps != [] ==>
      var n := |steps| - 1;
      NoRejectedRename(idOf, steps[..n]) && !(steps[n].DoRegister? && RejectedRename(Run(idOf, steps[..n]), steps[n].r))
  }

  /** Without a rejected rename every live agent is found under its name, and names
      are unique. */
  lemma {:induction false} NamesFindAgents(idOf: string -> string, steps: seq<Step>)
    requires Injective(idOf) && NoRejectedRename(idOf, steps)
    ensures NamesComplete(Run(idOf, steps))
    ensures var a := Run(idOf, steps).agents; forall x, y :: x in a && y in a && a[x].name == a[y].name ==> x == y
  {
    if steps != [] {
      var n := |steps| - 1;
      NamesFindAgents(idOf, steps[..n]);
      MapsAgree(idOf, steps[..n]);
      CompleteUnlessRejectedRename(idOf, Run(idOf, steps[..n]), steps[n]);
    }
  }

  /** A name lost to a rejected rename is not found again by registering under it. */
  lemma LostNameStaysLost(idOf: string -> string, m: Maps, r: Request, again: Request, now: int)
    requires Inv(idOf, m) && RejectedRename(m, r) && again.keyName == r.keyName
      && again.name == m.agents[m.byKeyName[r.keyName]].name
    ensures var m' := Register(Register(m, r, idOf(r.keyName), now), again, idOf(r.keyName), now);
      m'.byKeyName[r.keyName] in m'.agents && m'.agents[m'.byKeyName[r.keyName]].name == again.name
          && again.name !in m'.byName
  {}

  // ---- The registry object ---------------------------------------------------------------------------

  class AgentRegistry {
    var agents: map<string, Agent>
    var byName: map<string, string>
    var byKeyName: map<string, string>
    var lastHeartbeat: map<string, int>

    ghost function State(): Maps
      reads this
    {
      Maps(agents, byName, byKeyName, lastHeartbeat)
    }

    constructor ()
      ensures State() == NoAgents
    {
      agents, byName, byKeyName, lastHeartbeat := map[], map[], map[], map[];
    }

    /** None is the duplicate-name error. */
    method RegisterAgent(r: Request, agentId: string, now: int) returns (info: Option<Agent>)
      modifies this
      ensures State() == Register(old(State()), r, agentId, now)
      ensures info.None? <==> old(RejectedRename(State(), r) || RejectedNew(State(), r))
      ensures info.Some? ==>
          info.value in agents.Values && info.value.name == r.name && info.value.keyName == r.keyName
          && info.value.profile == r.profile
    {
      if r.keyName in byKeyName {
        var held := byKeyName[r.keyName];
        if held in agents {
          var agent := agents[held];
          if agent.name != r.name {
            byName := byName - {agent.name};
            if r.name in byName && byName[r.name] != held { return None; }
            byName := byName[r.name := held];
            agent := agent.(name := r.name);
          }
          agent := agent.(keyName := r.keyName, profile := r.profile);
          agents, lastHeartbeat := agents[held := agent], lastHeartbeat[held := now];
          assert agents[held] == agent;
          return Some(agent);
        }
        byKeyName := byKeyName - {r.keyName};
      } else {
        assert byKeyName - {r.keyName} == byKeyName;
      }
      if r.name in byName {
        if byName[r.name] in agents { return None; }
        assert (byName - {r.name})[r.name := agentId] == byName[r.name := agentId];
        byName := byName - {r.name};
      }
      var agent := Agent(agentId, r.name, r.keyName, r.profile, now);
      agents, byName := agents[agentId := agent], byName[r.name := agentId];
      byKeyName, lastHeartbeat := byKeyName[r.keyName := agentId], lastHeartbeat[agentId := now];
      assert agents[agentId] == agent;
      info := Some(agent);
    }

    method DeregisterAgent(id: string)
      modifies this
      ensures State() == Deregister(old(State()), id)
    {
      if id !in agents { return; }
      var agent := agents[id];
      agents, byName := agents - {id}, byName - {agent.name};
      byKeyName, lastHeartbeat := byKeyName - {agent.keyName}, lastHeartbeat - {id};
    }

    method RecordHeartbeat(id: string, now: int) returns (known: bool)
      modifies this`lastHeartbeat
      ensures State() == Heartbeat(old(State()), id, now) && known == (id in agents)
    {
      if id !in agents { return false; }
      lastHeartbeat := lastHeartbeat[id := now];
      known := true;
    }

    /** By id first, then by name; on agreeing maps a hit by name has that name. */
    method Resolve(nameOrId: string) returns (info: Option<Agent>)
      ensures nameOrId in agents ==> info == Some(agents[nameOrId])
      ensures nameOrId !in agents && NamesSound(State()) ==>
        (info.Some? <==> nameOrId in byName)
            && (info.Some? ==> info.value in agents.Values && info.value.name == nameOrId)
    {
      if nameOrId in agents { return Some(agents[nameOrId]); }
      if nameOrId !in byName || byName[nameOrId] !in agents { return None; }
      info := Some(agents[byName[nameOrId]]);
    }
  }
}
