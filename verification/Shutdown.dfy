/** Stopping the pool: after the cancellation all goroutines end, and the wait group counts them. */
module Shutdown {
  import opened Files
  import opened Sums
  import opened Pool

  function IsLive(): Phase -> nat {
    (p: Phase) => if p.Exited? then 0 else 1
  }

  /** How many goroutines, workers and retries, have not ended. */
  function Live(s: State): nat {
    Sum(s.gs, IsLive())
  }

  // ---------------------------------------------------------------- the wait group

  lemma LiveStep(s: State, e: Event, next: State)
    requires Apply(s, e) == Some(next)
    ensures next.wg - s.wg == Live(next) - Live(s)
  {
    if ByGoroutine(e) {
      GoSum(s, e, next, IsLive());
      hide Sum, Marked, Counted;
    }
  }

  lemma {:induction false} LiveExec(s: State, es: seq<Event>)
    requires Exec(s, es).Some? && s.wg == Live(s)
    ensures Exec(s, es).value.wg == Live(Exec(s, es).value)
    decreases |es|
  {
    if es != [] {
      var next := Apply(s, es[0]).value;
      LiveStep(s, es[0], next);
      hide Apply, Live;
      LiveExec(next, es[1..]);
    }
  }

  lemma {:induction false} AllLive(n: nat)
    ensures Sum(seq(n, i => Select), IsLive()) == n
  {
    if n > 0 {
      AllLive(n - 1);
      assert seq(n, i => Select)[1..] == seq(n - 1, i => Select);
    }
  }

  /**
   * The wait group counts the live workers and retries; a retry is only ever added while its worker
   * is counted; and once the count is zero it stays zero.
   */
  lemma WaitGroupCounts(s: State, cap: nat, maxRetries: int, workers: nat, es: seq<Event>, e: Event)
    requires Reachable(s, cap, maxRetries, workers, es)
    ensures s.wg == Live(s)
    ensures Apply(s, e).Some? && Apply(s, e).value.wg > s.wg ==> s.wg > 0
    ensures Apply(s, e).Some? && s.wg == 0 ==> Apply(s, e).value.wg == 0
  {
    AllLive(workers);
    LiveExec(Started(cap, maxRetries, workers), es);
    if Apply(s, e).Some? && ByGoroutine(e) {
      SumAtLeast(s.gs, e.g, IsLive());
    }
  }

  // ---------------------------------------------------------------- the measure

  /** How many more handler calls the job can have. */
  function Left(maxRetries: int, job: Job): nat {
    (if maxRetries > job.attempts then maxRetries - job.attempts else 0) + 1
  }

  function Weight(maxRetries: int): Phase -> nat {
    (p: Phase) =>
      match p
      case Exited => 0
      case Select => 1
      case Received(job) => 8 * Left(maxRetries, job)
      case Handling(job) => 8 * Left(maxRetries, job) - 1
      case Succeeding(_) => 2
      case Failing(_) => 2
      case MarkingRetry(job) => 8 * Left(maxRetries, job) + 5
      case Spawning(job) => 8 * Left(maxRetries, job) + 4
      case Waiting(job) => 8 * Left(maxRetries, job) + 2
      case Sending(job) => 8 * Left(maxRetries, job) + 1
  }

  function QueuedWeight(maxRetries: int): Job -> nat {
    (job: Job) => 8 * Left(maxRetries, job)
  }

  function CallWeight(maxRetries: int): Call -> nat {
    (c: Call) =>
      match c.phase
      case Ready => 8 * Left(maxRetries, Job(0, 0)) + 2
      case Sent => 1
      case Refused => 1
      case Recorded => 0
      case RefusalRecorded => 0
  }

  /** What is left to happen: the attempts, phases and goroutines that remain, and calls in flight. */
  function Measure(s: State): nat {
    Sum(s.chan, QueuedWeight(s.maxRetries)) + Sum(s.gs, Weight(s.maxRetries)) + Sum(s.calls, CallWeight(s.maxRetries))
  }

  /** Steps of goroutines and of calls in flight. */
  predicate Winding(e: Event) {
    ByGoroutine(e) || e.Offer? || e.Write?
  }

  lemma CountedKeepsWeight(s: State, id: nat, failed: nat)
    ensures Sum(Counted(s, id, failed), CallWeight(s.maxRetries)) == Sum(s.calls, CallWeight(s.maxRetries))
  {
    if id < |s.calls| {
      SumUpdate(s.calls, id, Counted(s, id, failed)[id], CallWeight(s.maxRetries));
    }
  }

  lemma CallsKeepWeight(s: State, e: Event, next: State)
    requires ByGoroutine(e) && Apply(s, e) == Some(next)
    ensures Sum(next.calls, CallWeight(s.maxRetries)) == Sum(s.calls, CallWeight(s.maxRetries))
  {
    if e.ReturnOk? || e.ReturnError? {
      CountedKeepsWeight(s, s.gs[e.g].job.id, if e.ReturnOk? then 0 else 1);
    }
  }

  /** The weights a goroutine's step touches. */
  lemma WeightDrops(s: State, e: Event, next: State)
    requires ByGoroutine(e) && Apply(s, e) == Some(next)
    ensures e.g < |next.gs| && next.maxRetries == s.maxRetries
    ensures e.Receive? ==> s.chan != []
    ensures var w, q := Weight(s.maxRetries), QueuedWeight(s.maxRetries);
            w(next.gs[e.g]) + (if e.Spawn? then w(Waiting(s.gs[e.g].job)) else 0) + (if e.SendBack? then q(s.gs[e.g].job) else 0)
            < w(s.gs[e.g]) + if e.Receive? then q(s.chan[0]) else 0
  {
  }

  lemma GoFalls(s: State, e: Event, next: State)
    requires ByGoroutine(e) && Apply(s, e) == Some(next)
    ensures Measure(next) < Measure(s) && next.maxRetries == s.maxRetries
  {
    WeightDrops(s, e, next);
    GoSum(s, e, next, Weight(s.maxRetries));
    ChanSum(s, e, next, QueuedWeight(s.maxRetries));
    CallsKeepWeight(s, e, next);
    hide Sum, Apply, Weight, QueuedWeight, CallWeight;
  }

  lemma CallDrops(s: State, e: Event, next: State)
    requires (e.Offer? || e.Write?) && Apply(s, e) == Some(next)
    ensures e.c < |s.calls| && next.calls == s.calls[e.c := next.calls[e.c]]
    ensures next.maxRetries == s.maxRetries && next.gs == s.gs
    ensures next.chan == s.chan || next.chan == s.chan + [Job(e.c, 0)]
    ensures var w := CallWeight(s.maxRetries);
            w(next.calls[e.c]) + (if next.chan != s.chan then QueuedWeight(s.maxRetries)(Job(e.c, 0)) else 0) < w(s.calls[e.c])
  {
  }

  lemma CallFalls(s: State, e: Event, next: State)
    requires (e.Offer? || e.Write?) && Apply(s, e) == Some(next)
    ensures Measure(next) < Measure(s) && next.maxRetries == s.maxRetries
  {
    CallDrops(s, e, next);
    SumUpdate(s.calls, e.c, next.calls[e.c], CallWeight(s.maxRetries));
    SumAppend(s.chan, Job(e.c, 0), QueuedWeight(s.maxRetries));
    hide Sum, Apply, CallWeight, QueuedWeight;
  }

  /** Any step of a goroutine or of a call in flight lowers the measure. */
  lemma MeasureFalls(s: State, e: Event, next: State)
    requires Winding(e) && Apply(s, e) == Some(next)
    ensures Measure(next) < Measure(s)
  {
    if ByGoroutine(e) {
      GoFalls(s, e, next);
    } else {
      CallFalls(s, e, next);
    }
  }

  /** The step a live goroutine can take once the pool is cancelled, whatever the others do. */
  function NextStep(s: State, g: nat): Event
    requires g < |s.gs| && !s.gs[g].Exited?
  {
    match s.gs[g]
    case Select => Quit(g)
    case Received(_) => MarkRunning(g)
    case Handling(_) => ReturnOk(g)
    case Succeeding(_) => MarkEnd(g)
    case Failing(_) => MarkEnd(g)
    case MarkingRetry(_) => MarkRetrying(g)
    case Spawning(_) => Spawn(g)
    case Waiting(_) => GiveUp(g)
    case Sending(_) => GiveUp(g)
  }

  lemma NeverStuck(s: State, g: nat)
    requires s.cancelled && g < |s.gs| && !s.gs[g].Exited?
    ensures ByGoroutine(NextStep(s, g)) && Apply(s, NextStep(s, g)).Some?
  {
  }

  /** How many steps of a run are of that kind. */
  function WindingSteps(es: seq<Event>): nat {
    if es == [] then 0 else (if Winding(es[0]) then 1 else 0) + WindingSteps(es[1..])
  }

  /** No new call of Enqueue; the clean-up and cancellations may come at any time. */
  ghost predicate NoSubmissions(es: seq<Event>) {
    forall i :: 0 <= i < |es| ==> !es[i].Submit? && !es[i].Enqueue?
  }

  /** The clean-up and the cancellation leave the measure alone. */
  lemma MeasureKept(s: State, e: Event, next: State)
    requires (e.Prune? || e.Cancel?) && Apply(s, e) == Some(next)
    ensures Measure(next) == Measure(s)
  {
  }

  lemma {:induction false} WindingDown(s: State, es: seq<Event>)
    requires Exec(s, es).Some? && NoSubmissions(es)
    ensures WindingSteps(es) + Measure(Exec(s, es).value) <= Measure(s)
    ensures s.cancelled ==> Exec(s, es).value.cancelled
    decreases |es|
  {
    if es != [] {
      var e := es[0];
      var next := Apply(s, e).value;
      if Winding(e) {
        MeasureFalls(s, e, next);
      } else {
        MeasureKept(s, e, next);
      }
      assert s.cancelled ==> next.cancelled;
      assert forall i :: 0 <= i < |es[1..]| ==> es[1..][i] == es[i + 1];
      hide Measure, Apply, Winding;
      WindingDown(next, es[1..]);
    }
  }

  /**
   * Stop terminates: once the pool is cancelled and Enqueue is not called any more, every run takes at
   * most as many steps of goroutines and of calls in flight as the measure says, however often the
   * clean-up runs; and a run after which no goroutine can take a step has ended all of them, so the wait
   * group is at zero and Stop returns.
   */
  lemma StopTerminates(s: State, cap: nat, maxRetries: int, workers: nat, before: seq<Event>, es: seq<Event>)
    requires Reachable(s, cap, maxRetries, workers, before) && s.cancelled
    requires Exec(s, es).Some? && NoSubmissions(es)
    ensures WindingSteps(es) <= Measure(s)
    ensures (forall e :: ByGoroutine(e) ==> Apply(Exec(s, es).value, e).None?) <==> Exec(s, es).value.wg == 0
  {
    var last := Exec(s, es).value;
    WindingDown(s, es);
    AllLive(workers);
    LiveExec(Started(cap, maxRetries, workers), before);
    LiveExec(s, es);
    NoStepsIff(last);
  }

  /** In a cancelled pool no goroutine can take a step exactly when none is left. */
  lemma NoStepsIff(last: State)
    requires last.cancelled && last.wg == Live(last)
    ensures (forall e :: ByGoroutine(e) ==> Apply(last, e).None?) <==> last.wg == 0
  {
    SumZeroIff(last.gs, IsLive());
    if last.wg != 0 {
      var g :| 0 <= g < |last.gs| && IsLive()(last.gs[g]) != 0;
      NeverStuck(last, g);
    }
    if last.wg == 0 {
      forall e | ByGoroutine(e) ensures Apply(last, e).None? {
        if e.g < |last.gs| {
          assert IsLive()(last.gs[e.g]) == 0;
        }
      }
    }
  }
}
