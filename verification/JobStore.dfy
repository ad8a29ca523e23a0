/**
The job log and its lifecycle (pkg/agent/job_store.go, pkg/agent/job_rpc.go).

Each store operation is one step; a step whose write fails is one that did not
happen. A call is two steps, because it saves its job once before and once after
the message is sent, and other operations may run in between. Timestamps are
numbers and always well formed.
*/
module JobStore {
  import opened Ordering
  import opened Mailbox
  import opened LatestLog

  datatype WorkState =
    | Received | Accepted | Waiting | Running | InputRequired
    | Finished | Broken | Canceled | TimedOut | OtherWork(name: string)
  {
    predicate Known() { !OtherWork? }
    predicate Terminal() { Finished? || Broken? || Canceled? || TimedOut? }
  }

  datatype PaymentState =
    NoPayment | PaymentRequired | Authorized | Settled | PaymentFailed | Refunded | OtherPayment(name: string) {
    predicate Known() { !OtherPayment? }
  }

  /** What a job is about; set once by the call that created it. */
  datatype Terms = Terms(
    jobId: string, buyer: string, seller: string, agentId: string, agentName: string, tool: string, capability: string,
    bidId: string, payment: PaymentState, createdAt: int, outputDir: string, idempotencyKey: string,
    inputDigest: string)

  datatype Job = Job(
    terms: Terms, work: WorkState, progress: Option<real>, message: string, updatedAt: int,
    resultDigest: string, errorCode: string, lastError: string, cancelReason: string, messageId: string)
  {
    predicate Valid() {
      && !Blank(terms.jobId) && !Blank(terms.buyer) && !Blank(terms.seller) && !Blank(terms.tool)
      && work.Known() && terms.payment.Known() && ValidProgress(progress)
    }
  }

  predicate ValidProgress(p: Option<real>) { p.Some? ==> 0.0 <= p.value <= 1.0 }

  type Log = seq<Line<Job>>

  function NewJob(terms: Terms): Job {
    Job(terms, Received, None, "", terms.createdAt, "", "", "", "", "")
  }

  // ---- Steps -------------------------------------------------------------------------------

  datatype Store = Store(log: Log, inFlight: set<Job>)

  datatype Step =
    | Call(terms: Terms)
    | SendDone(job: Job, sent: bool, text: string, now: int)
    | Cancel(id: string, reason: string, now: int)
    | UpdateStatus(id: string, work: WorkState, message: string, progress: Option<real>, now: int)
    | Complete(id: string, digest: string, message: string, now: int)
    | Fail(id: string, message: string, code: string, now: int)

  function Save(s: Store, job: Job): Store {
    if job.Valid() then s.(log := s.log + [Saved(job.terms.jobId, job)]) else s
  }

  /** The job a lookup finds: ids are trimmed, blank ones find nothing. */
  function Get(s: Store, id: string): Option<Job> {
    var key := TrimSpace(id);
    if key != "" && key in Latest(s.log) then Some(Latest(s.log)[key]) else None
  }

  predicate SameKey(a: Terms, b: Terms) {
    a.buyer == b.buyer && a.seller == b.seller && a.tool == b.tool && a.idempotencyKey == b.idempotencyKey
  }

  ghost predicate AlreadyCalled(s: Store, terms: Terms) {
    terms.idempotencyKey != "" && exists id :: id in Latest(s.log) && SameKey(Latest(s.log)[id].terms, terms)
  }

  /** The job after an operation on it, or none if the operation is refused. */
  function Changed(job: Job, step: Step): Option<Job>
    requires !step.Call? && !step.SendDone?
  {
    if job.work.Terminal() then None
    else match step
      case Cancel(_, reason, now) =>
        Some(job.(work := Canceled, cancelReason := TrimSpace(reason), message := TrimSpace(reason), updatedAt := now))
      case UpdateStatus(_, work, message, progress, now) =>
        if !work.Known() || work.Terminal() || !ValidProgress(progress) then None
        else Some(job.(work := work, message := TrimSpace(message), progress := progress, updatedAt := now))
      case Complete(_, digest, message, now) =>
        Some(job.(work := Finished, message := TrimSpace(message), progress := Some(1.0),
            resultDigest := TrimSpace(digest), updatedAt := now))
      case Fail(_, message, code, now) =>
        if Blank(message) then None
        else Some(job.(work := Broken, message := TrimSpace(message), lastError := TrimSpace(message),
                       errorCode := if Blank(code) then "runtime_error" else TrimSpace(code), updatedAt := now))
  }

  /** The second save writes the call's own copy of the job. */
  function AfterSend(job: Job, sent: bool, text: string, now: int): Job {
    if sent then job.(work := Accepted, messageId := text, updatedAt := now)
    else job.(work := Broken, lastError := text, updatedAt := now)
  }

  ghost function Next(s: Store, step: Step): Store {
    match step
    case Call(terms) =>
      var job := NewJob(terms);
      if AlreadyCalled(s, terms) || terms.jobId in Latest(s.log) || TrimSpace(terms.jobId) != terms.jobId
          || !job.Valid()
         || TrimSpace(terms.idempotencyKey) != terms.idempotencyKey || !terms.payment.NoPayment? then s
      else Save(s, job).(inFlight := s.inFlight + {job})
    case SendDone(job, sent, text, now) =>
      if job !in s.inFlight then s
      else Save(s, AfterSend(job, sent, text, now)).(inFlight := s.inFlight - {job})
    case Cancel(id, _, _) => Operate(s, id, step)
    case UpdateStatus(id, _, _, _, _) => Operate(s, id, step)
    case Complete(id, _, _, _) => Operate(s, id, step)
    case Fail(id, _, _, _) => Operate(s, id, step)
  }

  function Operate(s: Store, id: string, step: Step): Store
    requires !step.Call? && !step.SendDone?
  {
    match Get(s, id)
    case None => s
    case Some(job) =>
      match Changed(job, step)
      case None => s
      case Some(next) => Save(s, next)
  }

  const Empty := Store([], {})

  ghost function Run(steps: seq<Step>): Store {
    if steps == [] then Empty else Next(Run(steps[..|steps| - 1]), steps[|steps| - 1])
  }

  // ---- What every reachable store satisfies ----------------------------------------------------

  ghost predicate JobOk(s: Store, id: string)
    requires id in Latest(s.log)
  {
    var job := Latest(s.log)[id];
    job.terms.jobId == id && TrimSpace(id) == id && job.Valid() && (job.work.Finished? ==> job.progress == Some(1.0))
  }

  ghost predicate FlightOk(s: Store, job: Job) {
    && job.terms.jobId in Latest(s.log) && Latest(s.log)[job.terms.jobId].terms == job.terms
    && job == NewJob(job.terms) && job.Valid()
  }

  ghost predicate OneJobPerKey(s: Store) {
    forall a, b :: a in Latest(s.log) && b in Latest(s.log) ==>
      var x, y := Latest(s.log)[a].terms, Latest(s.log)[b].terms;
      x.idempotencyKey != "" && SameKey(x, y) ==> a == b
  }

  ghost predicate Inv(s: Store) {
    && (forall id :: id in Latest(s.log) ==> JobOk(s, id))
    && (forall job :: job in s.inFlight ==> FlightOk(s, job))
    && OneJobPerKey(s)
  }

  /** Jobs stay, with their terms, and terminal ones stay as they are unless a
      call's second save is about to overwrite them. */
  ghost predicate Evolves(s: Store, s': Store, overwritten: set<string>) {
    forall id :: id in Latest(s.log) ==>
      && id in Latest(s'.log) && Latest(s'.log)[id].terms == Latest(s.log)[id].terms
      && (Latest(s.log)[id].work.Terminal() && id !in overwritten ==> Latest(s'.log)[id] == Latest(s.log)[id])
  }

  /** The ids whose terminal state a step would overwrite. */
  ghost function Overwrites(s: Store, step: Step): set<string> {
    if step.SendDone? && step.job in s.inFlight && step.job.terms.jobId in Latest(s.log)
       && Latest(s.log)[step.job.terms.jobId].work.Terminal()
    then {step.job.terms.jobId} else {}
  }

  lemma SaveShows(s: Store, job: Job)
    requires job.Valid()
    ensures Latest(Save(s, job).log) == Latest(s.log)[job.terms.jobId := job]
  {
    var log := Save(s, job).log;
    assert log[..|log| - 1] == s.log;
  }

  /** Saving a job with unchanged terms over itself. */
  lemma Resaved(s: Store, id: string, job: Job)
    requires Inv(s) && id in Latest(s.log) && job.Valid() && job.terms == Latest(s.log)[id].terms
    requires job.work.Finished? ==> job.progress == Some(1.0)
    ensures Inv(Save(s, job)) && Evolves(s, Save(s, job), if Latest(s.log)[id].work.Terminal() then {id} else {})
  {
    assert JobOk(s, id);
    assert job.terms.jobId == id;
    SaveShows(s, job);
    SaveKeepsFlights(s, job);
    hide Latest, Save, Job.Valid, TrimSpace, Inv, Evolves;
    Overwritten(s, Save(s, job), id, job);
  }

  lemma Overwritten(s: Store, s': Store, id: string, job: Job)
    requires Inv(s) && id in Latest(s.log) && job.Valid() && job.terms == Latest(s.log)[id].terms
    requires job.work.Finished? ==> job.progress == Some(1.0)
    requires Latest(s'.log) == Latest(s.log)[id := job] && s'.inFlight == s.inFlight
    ensures Inv(s') && Evolves(s, s', if Latest(s.log)[id].work.Terminal() then {id} else {})
  {
    hide Latest, Job.Valid, TrimSpace;
    assert JobOk(s, id);
    SameKeys(s, s', id, job);
    hide OneJobPerKey;
    forall x | x in Latest(s'.log) ensures JobOk(s', x) { if x != id { assert JobOk(s, x); } }
    forall j | j in s'.inFlight ensures FlightOk(s', j) { assert FlightOk(s, j); }
  }

  lemma SameKeys(s: Store, s': Store, id: string, job: Job)
    requires OneJobPerKey(s) && id in Latest(s.log) && job.terms == Latest(s.log)[id].terms
    requires Latest(s'.log) == Latest(s.log)[id := job]
    ensures OneJobPerKey(s')
  {
    hide Latest;
    assert forall x :: x in Latest(s'.log) ==> x in Latest(s.log) && Latest(s'.log)[x].terms == Latest(s.log)[x].terms;
  }

  lemma SaveKeepsFlights(s: Store, job: Job)
    ensures Save(s, job).inFlight == s.inFlight
  {}

  lemma OperateKeeps(s: Store, id: string, step: Step)
    requires Inv(s) && !step.Call? && !step.SendDone?
    ensures Inv(Operate(s, id, step)) && Evolves(s, Operate(s, id, step), {})
  {
    hide Latest, Save, OneJobPerKey, FlightOk;
    match Get(s, id)
    case None =>
    case Some(job) =>
      var key := TrimSpace(id);
      assert JobOk(s, key) && Latest(s.log)[key] == job;
      ChangedJob(job, step);
      match Changed(job, step) {
        case None =>
        case Some(next) =>
          hide Inv, Evolves, Job.Valid, Changed;
          Resaved(s, key, next);
      }
  }

  lemma CallKeeps(s: Store, terms: Terms)
    requires Inv(s)
    ensures Inv(Next(s, Call(terms))) && Evolves(s, Next(s, Call(terms)), {})
  {
    var s', job := Next(s, Call(terms)), NewJob(terms);
    if s' != s {
      CallShows(s, terms);
      hide Latest, Save, Next, Job.Valid, Inv;
      AddedJob(s, s', terms, job);
    }
  }

  lemma AddedJob(s: Store, s': Store, terms: Terms, job: Job)
    requires Inv(s) && job == NewJob(terms) && job.Valid() && TrimSpace(terms.jobId) == terms.jobId
    requires terms.jobId !in Latest(s.log) && !AlreadyCalled(s, terms)
    requires Latest(s'.log) == Latest(s.log)[terms.jobId := job] && s'.inFlight == s.inFlight + {job}
    ensures Inv(s') && Evolves(s, s', {})
  {
    hide Latest, Job.Valid, TrimSpace;
    KeysAfterCall(s, s', terms, job);
    hide OneJobPerKey, AlreadyCalled;
    forall x | x in Latest(s'.log) ensures JobOk(s', x) { if x != terms.jobId { assert JobOk(s, x); } }
    forall j | j in s'.inFlight ensures FlightOk(s', j) { if j != job { assert FlightOk(s, j); } }
  }

  lemma CallShows(s: Store, terms: Terms)
    requires Next(s, Call(terms)) != s
    ensures var s', job := Next(s, Call(terms)), NewJob(terms);
      && Latest(s'.log) == Latest(s.log)[terms.jobId := job] && s'.inFlight == s.inFlight + {job}
      && terms.jobId !in Latest(s.log) && !AlreadyCalled(s, terms) && job.Valid()
      && TrimSpace(terms.jobId) == terms.jobId
  {
    hide AlreadyCalled, Job.Valid;
    SaveShows(s, NewJob(terms));
  }

  /** A call makes a job unless a nonempty key repeats one already used by the same
      buyer for the same seller and tool, or the request is unsound: calls without a
      key always make a new job. */
  lemma CallIff(s: Store, terms: Terms)
    ensures Next(s, Call(terms)) != s <==>
      && (terms.idempotencyKey != "" ==> forall id :: id in Latest(s.log) ==>
            var t := Latest(s.log)[id].terms;
            !(t.buyer == terms.buyer && t.seller == terms.seller && t.tool == terms.tool
              && t.idempotencyKey == terms.idempotencyKey))
      && terms.jobId !in Latest(s.log) && TrimSpace(terms.jobId) == terms.jobId
      && TrimSpace(terms.idempotencyKey) == terms.idempotencyKey && terms.payment.NoPayment?
      && !Blank(terms.jobId) && !Blank(terms.buyer) && !Blank(terms.seller) && !Blank(terms.tool)
  {
    var job := NewJob(terms);
    assert job.Valid() <==>
      !Blank(terms.jobId) && !Blank(terms.buyer) && !Blank(terms.seller) && !Blank(terms.tool) && terms.payment.Known();
    hide Latest, Job.Valid, TrimSpace;
    assert Next(s, Call(terms)) != s ==> !AlreadyCalled(s, terms);
    if !AlreadyCalled(s, terms) && job.Valid() { assert |Save(s, job).log| == |s.log| + 1; }
  }

  lemma KeysAfterCall(s: Store, s': Store, terms: Terms, job: Job)
    requires OneJobPerKey(s) && !AlreadyCalled(s, terms) && terms.jobId !in Latest(s.log) && job.terms == terms
    requires Latest(s'.log) == Latest(s.log)[terms.jobId := job]
    ensures OneJobPerKey(s')
  {
    hide Latest;
    forall a, b | a in Latest(s'.log) && b in Latest(s'.log)
      ensures var x, y := Latest(s'.log)[a].terms, Latest(s'.log)[b].terms;
          x.idempotencyKey != "" && SameKey(x, y) ==> a == b
    {
      if a != terms.jobId { assert a in Latest(s.log); }
      if b != terms.jobId { assert b in Latest(s.log); }
    }
  }

  lemma SendDoneKeeps(s: Store, step: Step)
    requires Inv(s) && step.SendDone?
    ensures Inv(Next(s, step)) && Evolves(s, Next(s, step), Overwrites(s, step))
  {
    if step.job in s.inFlight {
      var job, id := step.job, step.job.terms.jobId;
      var after := AfterSend(job, step.sent, step.text, step.now);
      assert FlightOk(s, job);
      SentIsValid(job, step.sent, step.text, step.now);
      assert Next(s, step) == Landed(Save(s, after), job) by { SaveKeepsFlights(s, after); }
      assert Overwrites(s, step) == if Latest(s.log)[id].work.Terminal() then {id} else {};
      hide Next, Overwrites, Latest, Inv, Evolves, Save, AfterSend, Job.Valid;
      Resaved(s, id, after);
      LandedKeeps(Save(s, after), job);
      SameLogEvolves(s, Save(s, after), Landed(Save(s, after), job),
          if Latest(s.log)[id].work.Terminal() then {id} else {});
    }
  }

  /** The call is over. */
  function Landed(s: Store, job: Job): Store { s.(inFlight := s.inFlight - {job}) }

  lemma LandedKeeps(s: Store, job: Job)
    requires Inv(s)
    ensures Inv(Landed(s, job)) && Landed(s, job).log == s.log
  {
    hide Latest;
    var s' := Landed(s, job);
    forall id | id in Latest(s'.log) ensures JobOk(s', id) { assert JobOk(s, id); }
    forall j | j in s'.inFlight ensures FlightOk(s', j) { assert FlightOk(s, j); }
    assert OneJobPerKey(s');
  }

  lemma SameLogEvolves(s: Store, s': Store, s'': Store, overwritten: set<string>)
    requires Evolves(s, s', overwritten) && s''.log == s'.log
    ensures Evolves(s, s'', overwritten)
  {
    hide Latest;
  }

  lemma SentIsValid(job: Job, sent: bool, text: string, now: int)
    requires job.Valid()
    ensures var after := AfterSend(job, sent, text, now);
        after.Valid() && after.terms == job.terms && !after.work.Finished?
  {}

  lemma NextKeeps(s: Store, step: Step)
    requires Inv(s)
    ensures Inv(Next(s, step)) && Evolves(s, Next(s, step), Overwrites(s, step))
  {
    match step
    case Call(terms) => CallKeeps(s, terms);
    case SendDone(_, _, _, _) => SendDoneKeeps(s, step);
    case Cancel(id, _, _) => OperateKeeps(s, id, step);
    case UpdateStatus(id, _, _, _, _) => OperateKeeps(s, id, step);
    case Complete(id, _, _, _) => OperateKeeps(s, id, step);
    case Fail(id, _, _, _) => OperateKeeps(s, id, step);
  }

  lemma {:induction false} RunKeeps(steps: seq<Step>)
    ensures Inv(Run(steps))
  {
    if steps != [] {
      RunKeeps(steps[..|steps| - 1]);
      NextKeeps(Run(steps[..|steps| - 1]), steps[|steps| - 1]);
    }
  }

  // ---- Theorems -----------------------------------------------------------------------------------

  /** Whatever happens, a job keeps its identity, payment state and idempotency key. */
  lemma {:induction false} TermsNeverChange(steps: seq<Step>, more: seq<Step>, id: string)
    requires id in Latest(Run(steps).log)
    ensures id in Latest(Run(steps + more).log)
      && Latest(Run(steps + more).log)[id].terms == Latest(Run(steps).log)[id].terms
  {
    if more == [] {
      assert steps + more == steps;
    } else {
      var n := |more| - 1;
      assert (steps + more)[..|steps + more| - 1] == steps + more[..n];
      TermsNeverChange(steps, more[..n], id);
      RunKeeps(steps + more[..n]);
      NextKeeps(Run(steps + more[..n]), more[n]);
    }
  }

  /** A call for the job has not come back from its send yet. */
  predicate Sending(s: Store, id: string) {
    exists job :: job in s.inFlight && job.terms.jobId == id
  }

  lemma NoNewCall(s: Store, step: Step, id: string)
    requires Inv(s) && id in Latest(s.log) && !Sending(s, id)
    ensures !Sending(Next(s, step), id)
  {
    hide Latest, Job.Valid, AlreadyCalled, Inv, Changed;
  }

  ghost predicate Unchanged(steps: seq<Step>, more: seq<Step>, id: string)
    requires id in Latest(Run(steps).log)
  {
    id in Latest(Run(steps + more).log) && Latest(Run(steps + more).log)[id] == Latest(Run(steps).log)[id]
  }

  lemma {:induction false} TerminalStays(steps: seq<Step>, more: seq<Step>, id: string)
    requires id in Latest(Run(steps).log) && Latest(Run(steps).log)[id].work.Terminal() && !Sending(Run(steps), id)
    ensures Unchanged(steps, more, id) && !Sending(Run(steps + more), id)
  {
    if more == [] {
      assert steps + more == steps;
    } else {
      var n := |more| - 1;
      var before := steps + more[..n];
      assert (steps + more)[..|steps + more| - 1] == before;
      TerminalStays(steps, more[..n], id);
      RunKeeps(before);
      NextKeeps(Run(before), more[n]);
      NoNewCall(Run(before), more[n], id);
      assert id !in Overwrites(Run(before), more[n]);
      hide Latest, Next, Overwrites;
    }
  }

  /** The second save shows the call's own copy, whatever has happened to the job:
      accepted if the message was sent, failed if not, with no result or progress. */
  lemma SecondSaveShows(s: Store, job: Job, sent: bool, text: string, now: int)
    requires Inv(s) && job in s.inFlight
    ensures var id := job.terms.jobId; var after := Latest(Next(s, SendDone(job, sent, text, now)).log);
      && id in after && after == Latest(s.log)[id := after[id]]
      && after[id].work == (if sent then Accepted else Broken) && after[id].progress == None
          && after[id].resultDigest == "" && after[id].updatedAt == now && after[id].terms == job.terms
      && (if sent then after[id].messageId == text else after[id].lastError == text)
  {
    assert FlightOk(s, job);
    SentIsValid(job, sent, text, now);
    SaveShows(s, AfterSend(job, sent, text, now));
  }

  /** A terminal job stays exactly as it is in every continuation, exactly when no
      call for it is still being sent. */
  lemma TerminalAbsorbsIff(steps: seq<Step>, id: string)
    requires id in Latest(Run(steps).log) && Latest(Run(steps).log)[id].work.Terminal()
    ensures (forall more :: Unchanged(steps, more, id)) <==> !Sending(Run(steps), id)
  {
    if Sending(Run(steps), id) {
      var job :| job in Run(steps).inFlight && job.terms.jobId == id;
      var more := [SendDone(job, true, "", 0)];
      assert (steps + more)[..|steps|] == steps;
      RunKeeps(steps);
      SecondSaveShows(Run(steps), job, true, "", 0);
      assert !Unchanged(steps, more, id);
    } else {
      forall more ensures Unchanged(steps, more, id) { TerminalStays(steps, more, id); }
    }
  }

  /** Completing a job while its call is still being sent ends with the job accepted again. */
  lemma CompletedThenAccepted(terms: Terms, digest: string, text: string, now: int)
    requires NewJob(terms).Valid() && TrimSpace(terms.jobId) == terms.jobId
      && TrimSpace(terms.idempotencyKey) == terms.idempotencyKey
    requires terms.payment.NoPayment?
    ensures var s1 := Next(Empty, Call(terms)); var s2 := Next(s1, Complete(terms.jobId, digest, "", now));
      var s3 := Next(s2, SendDone(NewJob(terms), true, text, now));
      && terms.jobId in Latest(s2.log) && Latest(s2.log)[terms.jobId].work == Finished
      && terms.jobId in Latest(s3.log) && Latest(s3.log)[terms.jobId].work == Accepted
  {
    var job := NewJob(terms);
    var s1 := Next(Empty, Call(terms));
    SaveShows(Empty, job);
    assert s1 == Save(Empty, job).(inFlight := {job});
    var done := Changed(job, Complete(terms.jobId, digest, "", now)).value;
    SaveShows(s1, done);
    var s2 := Next(s1, Complete(terms.jobId, digest, "", now));
    assert s2 == Save(s1, done);
    SaveShows(s2, AfterSend(job, true, text, now));
  }

  predicate BadRequest(step: Step) {
    (step.UpdateStatus? &&
      (step.work.OtherWork? || step.work in {Finished, Broken, Canceled, TimedOut}
       || (step.progress.Some? && (step.progress.value < 0.0 || step.progress.value > 1.0))))
    || (step.Fail? && Blank(step.message))
  }

  /** What the operations set; a valid job stays valid. */
  lemma ChangedJob(job: Job, step: Step)
    requires job.Valid() && !step.Call? && !step.SendDone?
    ensures Changed(job, step).None? <==> job.work in {Finished, Broken, Canceled, TimedOut} || BadRequest(step)
    ensures Changed(job, step).Some? ==> var next := Changed(job, step).value;
      && next.Valid() && next.terms == job.terms && next.updatedAt == step.now && !job.work.Terminal()
      && (next.work.Finished? ==> next.progress == Some(1.0))
      && (step.Cancel? ==> next.work == Canceled && next.cancelReason == next.message == TrimSpace(step.reason))
      && (step.Complete? ==>
          next.work == Finished && next.progress == Some(1.0) && next.resultDigest == TrimSpace(step.digest)
          && next.message == TrimSpace(step.message))
      && (step.Fail? ==>
          next.work == Broken && next.lastError == next.message == TrimSpace(step.message)
          && next.errorCode == if Blank(step.code) then "runtime_error" else TrimSpace(step.code))
      && (step.UpdateStatus? ==>
          next.work == step.work && next.progress == step.progress && next.message == TrimSpace(step.message))
      && next.messageId == job.messageId
      && (!step.Cancel? ==> next.cancelReason == job.cancelReason)
      && (!step.Complete? ==> next.resultDigest == job.resultDigest)
      && (!step.Fail? ==> next.lastError == job.lastError && next.errorCode == job.errorCode)
      && (!step.Complete? && !step.UpdateStatus? ==> next.progress == job.progress)
  {}

  /** An operation is refused exactly when the job is missing or terminal or the
      request is bad; otherwise one line is written, which shows the changed job and
      leaves the others as they were. */
  lemma OperationShows(s: Store, id: string, step: Step)
    requires Inv(s) && !step.Call? && !step.SendDone?
    ensures var key := TrimSpace(id); var before, s' := Latest(s.log), Operate(s, id, step);
      && (s' == s <==>
            key !in before || before[key].work in {Finished, Broken, Canceled, TimedOut} || BadRequest(step))
      && (s' != s ==>
            && |s'.log| == |s.log| + 1 && s.log <= s'.log && s'.inFlight == s.inFlight
            && Changed(before[key], step).Some? && Latest(s'.log) == before[key := Changed(before[key], step).value])
  {
    var key := TrimSpace(id);
    if key in Latest(s.log) {
      assert JobOk(s, key);
      ChangedJob(Latest(s.log)[key], step);
      hide Inv, Changed, Job.Valid;
      var next := Changed(Latest(s.log)[key], step);
      if next.Some? { SaveShows(s, next.value); }
    }
  }

  /** Finished jobs report full progress, and a nonempty idempotency key belongs to
      one job per buyer, seller and tool. */
  lemma JobFacts(steps: seq<Step>, a: string, b: string)
    requires a in Latest(Run(steps).log) && b in Latest(Run(steps).log)
    ensures Latest(Run(steps).log)[a].work.Finished? ==> Latest(Run(steps).log)[a].progress == Some(1.0)
    ensures var x, y := Latest(Run(steps).log)[a].terms, Latest(Run(steps).log)[b].terms;
      x.idempotencyKey != "" && SameKey(x, y) ==> a == b
  {
    RunKeeps(steps);
    assert JobOk(Run(steps), a);
  }

  // ---- The store object ---------------------------------------------------------------------------

  class JobLog {
    var log: Log

    constructor ()
      ensures log == []
    {
      log := [];
    }

    /** Validates, then appends one line. */
    method SaveJob(job: Job) returns (ok: bool)
      modifies this
      ensures ok == job.Valid() && forall flights :: Store(log, flights) == Save(Store(old(log), flights), job)
    {
      ok := job.Valid();
      if ok { log := log + [Saved(job.terms.jobId, job)]; }
    }

    /** A linear search of the latest jobs. */
    method Find(id: string) returns (job: Option<Job>)
      requires forall k :: k in Latest(log) ==> Latest(log)[k].terms.jobId == k
      ensures job == Get(Store(log, {}), id)
    {
      var key := TrimSpace(id);
      hide TrimSpace, Lists, Latest;
      if key == "" { return None; }
      var jobs, ids := ListLatest(log);
      ListedAreLatest(log, ids, jobs);
      for i := 0 to |jobs|
        invariant forall k :: 0 <= k < i ==> ids[k] != key
      {
        if jobs[i].terms.jobId == key { return Some(jobs[i]); }
      }
      job := None;
    }

    method FindByIdempotency(terms: Terms) returns (job: Option<Job>)
      ensures job.Some? <==> AlreadyCalled(Store(log, {}), terms)
      ensures job.Some? ==> SameKey(job.value.terms, terms) && job.value in Latest(log).Values
    {
      if terms.idempotencyKey == "" { return None; }
      var jobs, ids := ListLatest(log);
      ListedAreLatest(log, ids, jobs);
      for i := 0 to |jobs|
        invariant forall k :: 0 <= k < i ==> !SameKey(jobs[k].terms, terms)
      {
        if SameKey(jobs[i].terms, terms) {
          assert ids[i] in Latest(log);
          return Some(jobs[i]);
        }
      }
      job := None;
    }

    /** Cancel, update, complete and fail: look the job up, refuse or save the change. */
    method Perform(step: Step, id: string) returns (ok: bool)
      requires !step.Call? && !step.SendDone?
      requires forall k :: k in Latest(log) ==> Latest(log)[k].terms.jobId == k
      modifies this
      ensures Store(log, {}) == Operate(Store(old(log), {}), id, step)
      ensures ok <==> log != old(log)
    {
      var found := Find(id);
      if found.None? { return false; }
      var next := Changed(found.value, step);
      if next.None? { return false; }
      ok := SaveJob(next.value);
    }
  }

  lemma ListedAreLatest(log: Log, ids: seq<string>, jobs: seq<Job>)
    requires Lists(log, ids, jobs)
    ensures forall k :: 0 <= k < |ids| ==> ids[k] in Latest(log) && jobs[k] == Latest(log)[ids[k]]
    ensures forall id :: id in Latest(log) ==> id in ids
  {
    forall k | 0 <= k < |ids| ensures ids[k] in Latest(log) && jobs[k] == Latest(log)[ids[k]] {
      LatestMeans(log, ids[k]);
      assert ids[k] in ids;
      var i :| LiveAt(log, ids[k], i);
    }
    forall id | id in Latest(log) ensures id in ids { LatestMeans(log, id); }
  }
}
