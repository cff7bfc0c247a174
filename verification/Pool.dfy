/**
 * The worker pool as a protocol: workers, detached retry goroutines and callers share a bounded
 * channel, a wait group and a table of records. Every channel operation, every handler call and
 * every write of a record is one atomic step, and steps interleave freely.
 */
module Pool {
  import opened Files
  import opened Sums

  datatype Status = Pending | Running | Retrying | Succeeded | Failed

  datatype Job = Job(id: nat, attempts: nat)

  /** Where a goroutine stands: a worker in its loop, or a retry waiting to send its job back. */
  datatype Phase =
    | Select
    | Received(job: Job)
    | Handling(job: Job)
    | Succeeding(job: Job)
    | Failing(job: Job)
    | MarkingRetry(job: Job)
    | Spawning(job: Job)
    | Waiting(job: Job)
    | Sending(job: Job)
    | Exited

  /** Where a call of Enqueue stands; its number is the job's ID. */
  datatype CallPhase = Ready | Sent | Recorded | Refused | RefusalRecorded

  /** A call, with the handler calls its job has had and how many of them failed. */
  datatype Call = Call(phase: CallPhase, calls: nat, failures: nat)

  datatype Outcome = Done | GaveUp | Dropped

  datatype Finished = Finished(job: Job, outcome: Outcome)

  datatype State = State(
    cap: nat,
    maxRetries: int,
    chan: seq<Job>,
    gs: seq<Phase>,
    wg: int,
    cancelled: bool,
    calls: seq<Call>,
    status: map<nat, Status>,
    finished: seq<Finished>,
    succeeded: nat,
    failed: nat,
    retried: nat)

  datatype Event =
    | Submit
    | Offer(c: nat)
    | Write(c: nat)
    | Enqueue
    | Receive(g: nat)
    | Quit(g: nat)
    | MarkRunning(g: nat)
    | ReturnOk(g: nat)
    | ReturnError(g: nat)
    | MarkEnd(g: nat)
    | MarkRetrying(g: nat)
    | Spawn(g: nat)
    | Fire(g: nat)
    | SendBack(g: nat)
    | GiveUp(g: nat)
    | Cancel
    | Prune(ids: set<nat>)

  predicate Terminal(st: Status) {
    st.Succeeded? || st.Failed?
  }

  /** The record table after one write. */
  function Marked(s: State, id: nat, st: Status): map<nat, Status> {
    s.status[id := st]
  }

  /** The table after pruning: only terminal records go. */
  function Pruned(status: map<nat, Status>, ids: set<nat>): map<nat, Status> {
    map id | id in status && !(id in ids && Terminal(status[id])) :: status[id]
  }

  predicate ByGoroutine(e: Event) {
    e.Receive? || e.Quit? || e.MarkRunning? || e.ReturnOk? || e.ReturnError? || e.MarkEnd? ||
    e.MarkRetrying? || e.Spawn? || e.Fire? || e.SendBack? || e.GiveUp?
  }

  function Apply(s: State, e: Event): Option<State> {
    if ByGoroutine(e) then (if e.g < |s.gs| then GoStep(s, e, s.gs[e.g]) else None)
    else EnvStep(s, e)
  }

  /** Steps of callers, of shutdown, and of the periodic clean-up. */
  function EnvStep(s: State, e: Event): Option<State>
    requires !ByGoroutine(e)
  {
    match e
    case Submit => Some(s.(calls := s.calls + [Call(Ready, 0, 0)]))
    case Offer(c) =>
      if c < |s.calls| && s.calls[c].phase.Ready? then
        if |s.chan| < s.cap then Some(s.(chan := s.chan + [Job(c, 0)], calls := s.calls[c := Call(Sent, s.calls[c].calls, s.calls[c].failures)]))
        else Some(s.(calls := s.calls[c := Call(Refused, s.calls[c].calls, s.calls[c].failures)]))
      else None
    case Write(c) =>
      if c < |s.calls| && s.calls[c].phase.Sent? then
        Some(s.(status := Marked(s, c, Pending), calls := s.calls[c := Call(Recorded, s.calls[c].calls, s.calls[c].failures)]))
      else if c < |s.calls| && s.calls[c].phase.Refused? then
        Some(s.(status := Marked(s, c, Failed), calls := s.calls[c := Call(RefusalRecorded, s.calls[c].calls, s.calls[c].failures)]))
      else None
    case Enqueue =>
      var c := |s.calls|;
      if |s.chan| < s.cap then
        Some(s.(chan := s.chan + [Job(c, 0)], status := Marked(s, c, Pending), calls := s.calls + [Call(Recorded, 0, 0)]))
      else
        Some(s.(status := Marked(s, c, Failed), calls := s.calls + [Call(RefusalRecorded, 0, 0)]))
    case Cancel => Some(s.(cancelled := true))
    case Prune(ids) => Some(s.(status := Pruned(s.status, ids)))
  }

  function Counted(s: State, id: nat, failed: nat): seq<Call> {
    if id < |s.calls| then
      s.calls[id := Call(s.calls[id].phase, s.calls[id].calls + 1, s.calls[id].failures + failed)]
    else s.calls
  }

  /** Steps of a goroutine in phase `p`. */
  function GoStep(s: State, e: Event, p: Phase): Option<State>
    requires ByGoroutine(e) && e.g < |s.gs| && s.gs[e.g] == p
  {
    var g := e.g;
    match (e, p)
    case (Receive(_), Select) =>
      if s.chan != [] then Some(s.(chan := s.chan[1..], gs := s.gs[g := Received(s.chan[0])])) else None
    case (Quit(_), Select) =>
      if s.cancelled then Some(s.(gs := s.gs[g := Exited], wg := s.wg - 1)) else None
    case (MarkRunning(_), Received(job)) =>
      Some(s.(status := Marked(s, job.id, Running), gs := s.gs[g := Handling(job)]))
    case (ReturnOk(_), Handling(job)) =>
      Some(s.(gs := s.gs[g := Succeeding(job)], calls := Counted(s, job.id, 0), succeeded := s.succeeded + 1))
    case (ReturnError(_), Handling(job)) =>
      var again := Job(job.id, job.attempts + 1);
      if again.attempts > s.maxRetries then
        Some(s.(gs := s.gs[g := Failing(again)], calls := Counted(s, job.id, 1), failed := s.failed + 1))
      else
        Some(s.(gs := s.gs[g := MarkingRetry(again)], calls := Counted(s, job.id, 1), retried := s.retried + 1))
    case (MarkEnd(_), Succeeding(job)) =>
      Some(s.(status := Marked(s, job.id, Succeeded), gs := s.gs[g := Select], finished := s.finished + [Finished(job, Done)]))
    case (MarkEnd(_), Failing(job)) =>
      Some(s.(status := Marked(s, job.id, Failed), gs := s.gs[g := Select], finished := s.finished + [Finished(job, GaveUp)]))
    case (MarkRetrying(_), MarkingRetry(job)) =>
      Some(s.(status := Marked(s, job.id, Retrying), gs := s.gs[g := Spawning(job)]))
    case (Spawn(_), Spawning(job)) =>
      Some(s.(gs := s.gs[g := Select] + [Waiting(job)], wg := s.wg + 1))
    case (Fire(_), Waiting(job)) =>
      Some(s.(gs := s.gs[g := Sending(job)]))
    case (SendBack(_), Sending(job)) =>
      if |s.chan| < s.cap then Some(s.(chan := s.chan + [job], gs := s.gs[g := Exited], wg := s.wg - 1)) else None
    case (GiveUp(_), Waiting(job)) =>
      if s.cancelled then Some(s.(gs := s.gs[g := Exited], wg := s.wg - 1, finished := s.finished + [Finished(job, Dropped)])) else None
    case (GiveUp(_), Sending(job)) =>
      if s.cancelled then Some(s.(gs := s.gs[g := Exited], wg := s.wg - 1, finished := s.finished + [Finished(job, Dropped)])) else None
    case _ => None
  }

  function Exec(s: State, es: seq<Event>): Option<State>
    decreases |es|
  {
    if es == [] then Some(s)
    else match Apply(s, es[0])
      case None => None
      case Some(next) => Exec(next, es[1..])
  }

  /** A started pool: every worker waits for a job, and nothing has been submitted. */
  function Started(cap: nat, maxRetries: int, workers: nat): State {
    State(cap, maxRetries, [], seq(workers, i => Select), workers, false, [], map[], [], 0, 0, 0)
  }

  ghost predicate Reachable(s: State, cap: nat, maxRetries: int, workers: nat, es: seq<Event>) {
    workers >= 1 && cap >= 1 && Exec(Started(cap, maxRetries, workers), es) == Some(s)
  }

  // ---------------------------------------------------------------- where jobs are

  predicate Holds(p: Phase) {
    !p.Select? && !p.Exited?
  }

  function HeldIs(id: nat): Phase -> nat {
    (p: Phase) => if Holds(p) && p.job.id == id then 1 else 0
  }

  function QueuedIs(id: nat): Job -> nat {
    (j: Job) => if j.id == id then 1 else 0
  }

  function FinishedIs(id: nat): Finished -> nat {
    (f: Finished) => if f.job.id == id then 1 else 0
  }

  /** In how many places the job is: the channel, a goroutine, or among the finished ones. */
  function Places(s: State, id: nat): nat {
    Sum(s.chan, QueuedIs(id)) + Sum(s.gs, HeldIs(id)) + Sum(s.finished, FinishedIs(id))
  }

  predicate Accepted(s: State, id: nat) {
    id < |s.calls| && (s.calls[id].phase.Sent? || s.calls[id].phase.Recorded?)
  }

  ghost predicate Conserved(s: State) {
    forall id :: Places(s, id) == if Accepted(s, id) then 1 else 0
  }

  /** What a goroutine's step does to a sum over goroutines. */
  lemma GoSum(s: State, e: Event, next: State, f: Phase -> nat)
    requires ByGoroutine(e) && Apply(s, e) == Some(next)
    ensures e.g < |next.gs|
    ensures Sum(next.gs, f) + f(s.gs[e.g]) ==
            Sum(s.gs, f) + f(next.gs[e.g]) + if e.Spawn? then f(Waiting(s.gs[e.g].job)) else 0
  {
    SumUpdate(s.gs, e.g, next.gs[e.g], f);
    if e.Spawn? {
      SumAppend(s.gs[e.g := Select], Waiting(s.gs[e.g].job), f);
    }
  }

  /** What it does to a sum over the channel, and over the finished jobs. */
  lemma ChanSum(s: State, e: Event, next: State, f: Job -> nat)
    requires ByGoroutine(e) && Apply(s, e) == Some(next)
    ensures e.Receive? ==> s.chan != [] && Sum(s.chan, f) == f(s.chan[0]) + Sum(next.chan, f)
    ensures e.SendBack? ==> Sum(next.chan, f) == Sum(s.chan, f) + f(s.gs[e.g].job)
    ensures !e.Receive? && !e.SendBack? ==> next.chan == s.chan
  {
    if e.SendBack? {
      SumAppend(s.chan, s.gs[e.g].job, f);
    }
  }

  predicate Ends(e: Event) {
    e.MarkEnd? || e.GiveUp?
  }

  lemma FinishedSum(s: State, e: Event, next: State, f: Finished -> nat)
    requires ByGoroutine(e) && Apply(s, e) == Some(next)
    ensures Ends(e) ==> |next.finished| > |s.finished| &&
                        Sum(next.finished, f) == Sum(s.finished, f) + f(next.finished[|s.finished|])
    ensures !Ends(e) ==> next.finished == s.finished
  {
    if Ends(e) {
      SumAppend(s.finished, next.finished[|s.finished|], f);
    }
  }

  /** The places a goroutine's step touches hold the same job before and after. */
  lemma JobMoves(s: State, e: Event, next: State, id: nat)
    requires ByGoroutine(e) && Apply(s, e) == Some(next)
    ensures e.g < |next.gs| && (e.Receive? ==> s.chan != []) && (Ends(e) ==> |next.finished| > |s.finished|)
    ensures HeldIs(id)(next.gs[e.g])
            + (if e.Spawn? then HeldIs(id)(Waiting(s.gs[e.g].job)) else 0)
            + (if e.SendBack? then QueuedIs(id)(s.gs[e.g].job) else 0)
            + (if Ends(e) then FinishedIs(id)(next.finished[|s.finished|]) else 0)
            == HeldIs(id)(s.gs[e.g]) + if e.Receive? then QueuedIs(id)(s.chan[0]) else 0
  {
  }

  lemma PlacesGo(s: State, e: Event, next: State, id: nat)
    requires ByGoroutine(e) && Apply(s, e) == Some(next)
    ensures Places(next, id) == Places(s, id)
  {
    JobMoves(s, e, next, id);
    GoSum(s, e, next, HeldIs(id));
    ChanSum(s, e, next, QueuedIs(id));
    FinishedSum(s, e, next, FinishedIs(id));
    hide Sum, Apply, HeldIs, QueuedIs, FinishedIs;
  }

  lemma AcceptedKept(s: State, e: Event, next: State, id: nat)
    requires ByGoroutine(e) && Apply(s, e) == Some(next)
    ensures Accepted(next, id) <==> Accepted(s, id)
  {
  }

  /** A caller's step accepts at most one job, the one it puts into the channel. */
  lemma CallerPuts(s: State, e: Event, next: State, id: nat)
    requires !ByGoroutine(e) && Apply(s, e) == Some(next)
    ensures next.gs == s.gs && next.finished == s.finished
    ensures if next.chan == s.chan then Accepted(next, id) <==> Accepted(s, id)
            else exists c :: next.chan == s.chan + [Job(c, 0)] &&
                             (Accepted(next, id) <==> Accepted(s, id) || id == c) && !Accepted(s, c)
  {
    if e.Offer? && |s.chan| < s.cap {
      assert next.chan == s.chan + [Job(e.c, 0)];
    }
    if e.Enqueue? && |s.chan| < s.cap {
      assert next.chan == s.chan + [Job(|s.calls|, 0)];
    }
  }

  lemma PlacesEnv(s: State, e: Event, next: State, id: nat)
    requires !ByGoroutine(e) && Apply(s, e) == Some(next)
    requires Places(s, id) == if Accepted(s, id) then 1 else 0
    ensures Places(next, id) == if Accepted(next, id) then 1 else 0
  {
    CallerPuts(s, e, next, id);
    hide Sum, Apply, Accepted;
    if next.chan != s.chan {
      var c :| next.chan == s.chan + [Job(c, 0)] &&
               (Accepted(next, id) <==> Accepted(s, id) || id == c) && !Accepted(s, c);
      SumAppend(s.chan, Job(c, 0), QueuedIs(id));
    }
  }

  lemma ConservedStep(s: State, e: Event, next: State, id: nat)
    requires Places(s, id) == (if Accepted(s, id) then 1 else 0)
    requires Apply(s, e) == Some(next)
    ensures Places(next, id) == if Accepted(next, id) then 1 else 0
  {
    if ByGoroutine(e) {
      PlacesGo(s, e, next, id);
      AcceptedKept(s, e, next, id);
      hide Places, Apply;
    } else {
      PlacesEnv(s, e, next, id);
    }
  }

  lemma {:induction false} ExecConserves(s: State, es: seq<Event>, id: nat)
    requires Exec(s, es).Some? && Places(s, id) == if Accepted(s, id) then 1 else 0
    ensures Places(Exec(s, es).value, id) == if Accepted(Exec(s, es).value, id) then 1 else 0
    decreases |es|
  {
    if es != [] {
      var next := Apply(s, es[0]).value;
      ConservedStep(s, es[0], next, id);
      hide Places, Accepted, Apply;
      ExecConserves(next, es[1..], id);
    }
  }

  lemma StartsIdle(cap: nat, maxRetries: int, workers: nat, f: Phase -> nat)
    ensures f(Select) == 0 ==> Sum(Started(cap, maxRetries, workers).gs, f) == 0
  {
    SumZeroIff(Started(cap, maxRetries, workers).gs, f);
  }

  /**
   * Conservation: an accepted job is always in exactly one place: the channel, a worker, a retry
   * goroutine, or among the finished ones, as succeeded, failed for good or dropped at shutdown.
   * A job that was not accepted is nowhere.
   */
  lemma JobsConserved(s: State, cap: nat, maxRetries: int, workers: nat, es: seq<Event>)
    requires Reachable(s, cap, maxRetries, workers, es)
    ensures Conserved(s)
  {
    forall id ensures Places(s, id) == if Accepted(s, id) then 1 else 0 {
      var start := Started(cap, maxRetries, workers);
      StartsIdle(cap, maxRetries, workers, HeldIs(id));
      ExecConserves(start, es, id);
    }
  }

  /** The channel never holds more than its capacity. */
  lemma {:induction false} ChannelBounded(s: State, es: seq<Event>)
    requires Exec(s, es).Some? && |s.chan| <= s.cap
    ensures var last := Exec(s, es).value; last.cap == s.cap && |last.chan| <= last.cap
    decreases |es|
  {
    if es != [] {
      ChannelBounded(Apply(s, es[0]).value, es[1..]);
    }
  }

  /** What one step puts into the channel, and what it takes out. */
  function SentBy(s: State, next: State): seq<Job> {
    if |next.chan| > |s.chan| then [next.chan[|next.chan| - 1]] else []
  }

  function TakenBy(e: Event, next: State): seq<Job> {
    if e.Receive? && e.g < |next.gs| && Holds(next.gs[e.g]) then [next.gs[e.g].job] else []
  }

  /** The jobs put into the channel in the course of a run, in order. */
  function Sends(s: State, es: seq<Event>): seq<Job>
    decreases |es|
  {
    if es == [] || Apply(s, es[0]).None? then []
    else SentBy(s, Apply(s, es[0]).value) + Sends(Apply(s, es[0]).value, es[1..])
  }

  /** The jobs workers took out of it, in order. */
  function Receives(s: State, es: seq<Event>): seq<Job>
    decreases |es|
  {
    if es == [] || Apply(s, es[0]).None? then []
    else TakenBy(es[0], Apply(s, es[0]).value) + Receives(Apply(s, es[0]).value, es[1..])
  }

  lemma ChanStep(s: State, e: Event, next: State)
    requires Apply(s, e) == Some(next)
    ensures s.chan + SentBy(s, next) == TakenBy(e, next) + next.chan
  {
    if e.Receive? {
      assert next.gs[e.g] == Received(s.chan[0]);
      assert s.chan == [s.chan[0]] + next.chan;
    }
  }

  lemma Shifted(a: seq<Job>, sent: seq<Job>, taken: seq<Job>, b: seq<Job>, sends: seq<Job>, receives: seq<Job>, c: seq<Job>)
    requires a + sent == taken + b && b + sends == receives + c
    ensures a + (sent + sends) == (taken + receives) + c
  {
    assert a + (sent + sends) == (a + sent) + sends == taken + (b + sends);
  }

  /** First in, first out: what was in the channel and was sent is what was received, in order, and what is left. */
  lemma {:induction false} FirstInFirstOut(s: State, es: seq<Event>)
    requires Exec(s, es).Some?
    ensures s.chan + Sends(s, es) == Receives(s, es) + Exec(s, es).value.chan
    decreases |es|
  {
    if es != [] {
      var next := Apply(s, es[0]).value;
      ChanStep(s, es[0], next);
      hide Apply, SentBy, TakenBy;
      FirstInFirstOut(next, es[1..]);
      Shifted(s.chan, SentBy(s, next), TakenBy(es[0], next), next.chan,
              Sends(next, es[1..]), Receives(next, es[1..]), Exec(next, es[1..]).value.chan);
    }
  }

  lemma ExecNext(s: State, e: Event, next: State, rest: seq<Event>)
    requires Apply(s, e) == Some(next)
    ensures Exec(s, [e] + rest) == Exec(next, rest)
  {
    assert ([e] + rest)[1..] == rest;
  }

  /** A job submitted while worker `g` waits gets to its handler. */
  lemma Handed(s: State, g: nat, rest: seq<Event>) returns (t: State)
    requires g < |s.gs| && s.gs[g].Select? && s.chan == [] && s.cap >= 1
    ensures Exec(s, [Submit, Offer(|s.calls|), Receive(g), MarkRunning(g)] + rest) == Exec(t, rest)
    ensures t.gs == s.gs[g := Handling(Job(|s.calls|, 0))] && t.chan == [] && t.cap == s.cap && |t.calls| == |s.calls| + 1
  {
    var c := |s.calls|;
    var s1 := s.(calls := s.calls + [Call(Ready, 0, 0)]);
    var s2 := s1.(chan := [Job(c, 0)], calls := s1.calls[c := Call(Sent, 0, 0)]);
    var s3 := s2.(chan := [], gs := s.gs[g := Received(Job(c, 0))]);
    t := s3.(status := Marked(s3, c, Running), gs := s3.gs[g := Handling(Job(c, 0))]);
    assert [] + [Job(c, 0)] == [Job(c, 0)] && [Job(c, 0)][1..] == [];
    assert Apply(s, Submit) == Some(s1) && Apply(s1, Offer(c)) == Some(s2);
    assert Apply(s2, Receive(g)) == Some(s3) && Apply(s3, MarkRunning(g)) == Some(t);
    hide Apply, Exec;
    var r3 := [MarkRunning(g)] + rest;
    var r2 := [Receive(g)] + r3;
    var r1 := [Offer(c)] + r2;
    ExecNext(s, Submit, s1, r1);
    ExecNext(s1, Offer(c), s2, r2);
    ExecNext(s2, Receive(g), s3, r3);
    ExecNext(s3, MarkRunning(g), t, rest);
    assert [Submit, Offer(c), Receive(g), MarkRunning(g)] + rest == [Submit] + r1;
  }

  /**
   * Two workers can be in the handler at the same time, each with a job of its own. No step looks at what
   * a job is for, so both may be for one repository.
   */
  lemma TwoHandlers(cap: nat, maxRetries: int, workers: nat) returns (s: State, es: seq<Event>)
    requires cap >= 1 && workers >= 2
    ensures Reachable(s, cap, maxRetries, workers, es)
    ensures |s.gs| >= 2 && s.gs[0] == Handling(Job(0, 0)) && s.gs[1] == Handling(Job(1, 0))
  {
    var start := Started(cap, maxRetries, workers);
    var second := [Submit, Offer(1), Receive(1), MarkRunning(1)];
    es := [Submit, Offer(0), Receive(0), MarkRunning(0)] + second;
    var m := Handed(start, 0, second);
    s := Handed(m, 1, []);
    assert second + [] == second;
    assert Exec(s, []) == Some(s);
  }
}
