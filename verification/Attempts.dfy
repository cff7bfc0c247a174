/** How often a job is handled, and what the counters of the pool say about it. */
module Attempts {
  import opened Files
  import opened Sums
  import opened Pool

  // ---------------------------------------------------------------- a job is in one place only

  /** No other place holds a job with the ID of the one this goroutine holds. */
  ghost predicate OnlyAt(s: State, g: nat)
    requires g < |s.gs| && Holds(s.gs[g])
  {
    var id := s.gs[g].job.id;
    && (forall i :: 0 <= i < |s.gs| && i != g && Holds(s.gs[i]) ==> s.gs[i].job.id != id)
    && (forall i :: 0 <= i < |s.chan| ==> s.chan[i].id != id)
    && (forall i :: 0 <= i < |s.finished| ==> s.finished[i].job.id != id)
  }

  lemma HeldAlone(s: State, g: nat)
    requires Conserved(s) && g < |s.gs| && Holds(s.gs[g])
    ensures Accepted(s, s.gs[g].job.id) && OnlyAt(s, g)
  {
    var id := s.gs[g].job.id;
    assert Places(s, id) == if Accepted(s, id) then 1 else 0;
    SumAtLeast(s.gs, g, HeldIs(id));
    forall i | 0 <= i < |s.gs| && i != g && Holds(s.gs[i]) ensures s.gs[i].job.id != id {
      SumAtLeastTwo(s.gs, if i < g then i else g, if i < g then g else i, HeldIs(id));
    }
    SumZeroIff(s.chan, QueuedIs(id));
    assert forall i :: 0 <= i < |s.chan| ==> QueuedIs(id)(s.chan[i]) == 0;
    SumZeroIff(s.finished, FinishedIs(id));
    assert forall i :: 0 <= i < |s.finished| ==> FinishedIs(id)(s.finished[i]) == 0;
  }

  // ---------------------------------------------------------------- calls and failures

  /** The most handler calls a job can have. */
  function Most(maxRetries: int): nat {
    (if maxRetries > 0 then maxRetries else 0) + 1
  }

  ghost predicate History(calls: seq<Call>, id: nat, handled: nat, failures: nat) {
    id < |calls| && calls[id].calls == handled && calls[id].failures == failures
  }

  /** A job between handler calls: it has been called and has failed as often as its attempts say. */
  ghost predicate Between(calls: seq<Call>, maxRetries: int, job: Job) {
    History(calls, job.id, job.attempts, job.attempts) && job.attempts < Most(maxRetries)
  }

  ghost predicate AfterSuccess(calls: seq<Call>, maxRetries: int, job: Job) {
    History(calls, job.id, job.attempts + 1, job.attempts) && job.attempts < Most(maxRetries)
  }

  ghost predicate AfterLast(calls: seq<Call>, maxRetries: int, job: Job) {
    History(calls, job.id, job.attempts, job.attempts) && job.attempts == Most(maxRetries)
  }

  ghost predicate PhaseOk(calls: seq<Call>, maxRetries: int, p: Phase) {
    match p
    case Select => true
    case Exited => true
    case Succeeding(job) => AfterSuccess(calls, maxRetries, job)
    case Failing(job) => AfterLast(calls, maxRetries, job)
    case _ => Between(calls, maxRetries, p.job)
  }

  ghost predicate FinishedOk(calls: seq<Call>, maxRetries: int, f: Finished) {
    match f.outcome
    case Done => AfterSuccess(calls, maxRetries, f.job)
    case GaveUp => AfterLast(calls, maxRetries, f.job)
    case Dropped => Between(calls, maxRetries, f.job)
  }

  ghost predicate Attempted(s: State) {
    && (forall i :: 0 <= i < |s.chan| ==> Between(s.calls, s.maxRetries, s.chan[i]))
    && (forall i :: 0 <= i < |s.gs| ==> PhaseOk(s.calls, s.maxRetries, s.gs[i]))
    && (forall i :: 0 <= i < |s.finished| ==> FinishedOk(s.calls, s.maxRetries, s.finished[i]))
    && (forall id :: 0 <= id < |s.calls| && !Accepted(s, id) ==> History(s.calls, id, 0, 0))
  }

  /** Only the history of `id` differs, if any; new calls have none. */
  ghost predicate SameBut(calls: seq<Call>, next: seq<Call>, id: int) {
    && |calls| <= |next|
    && (forall i :: 0 <= i < |calls| && i != id ==> next[i].calls == calls[i].calls && next[i].failures == calls[i].failures)
    && (forall i :: |calls| <= i < |next| ==> next[i].calls == 0 && next[i].failures == 0)
  }

  lemma EnvCalls(s: State, e: Event, next: State)
    requires Attempted(s) && !ByGoroutine(e) && Apply(s, e) == Some(next)
    ensures SameBut(s.calls, next.calls, -1)
    ensures forall id :: 0 <= id < |next.calls| && !Accepted(next, id) ==> History(next.calls, id, 0, 0)
  {
    forall id | 0 <= id < |next.calls| && !Accepted(next, id) ensures History(next.calls, id, 0, 0) {
      assert id < |s.calls| ==> !Accepted(s, id);
    }
  }

  lemma EnvChan(s: State, e: Event, next: State)
    requires Attempted(s) && !ByGoroutine(e) && Apply(s, e) == Some(next)
    ensures next.gs == s.gs && next.finished == s.finished && next.maxRetries == s.maxRetries
    ensures next.chan == s.chan ||
            (next.chan == s.chan + [next.chan[|s.chan|]] && Between(next.calls, s.maxRetries, next.chan[|s.chan|]))
  {
    if e.Offer? {
      assert !Accepted(s, e.c);
    }
  }

  lemma AttemptedEnv(s: State, e: Event, next: State)
    requires Attempted(s) && !ByGoroutine(e) && Apply(s, e) == Some(next)
    ensures Attempted(next)
  {
    EnvCalls(s, e, next);
    EnvChan(s, e, next);
    hide Apply, Accepted;
    forall i | 0 <= i < |next.chan| ensures Between(next.calls, next.maxRetries, next.chan[i]) {
      assert i < |s.chan| ==> Between(s.calls, s.maxRetries, s.chan[i]);
    }
    forall i | 0 <= i < |next.gs| ensures PhaseOk(next.calls, next.maxRetries, next.gs[i]) {
      assert PhaseOk(s.calls, s.maxRetries, s.gs[i]);
    }
    forall i | 0 <= i < |next.finished| ensures FinishedOk(next.calls, next.maxRetries, next.finished[i]) {
      assert FinishedOk(s.calls, s.maxRetries, s.finished[i]);
    }
  }

  /** Only the stepping goroutine's job gets another call or failure. */
  lemma GoCalls(s: State, e: Event, next: State)
    requires ByGoroutine(e) && Apply(s, e) == Some(next)
    ensures next.maxRetries == s.maxRetries && |next.calls| == |s.calls|
    ensures forall id :: 0 <= id < |s.calls| ==> next.calls[id].phase == s.calls[id].phase
    ensures SameBut(s.calls, next.calls, if Holds(s.gs[e.g]) then s.gs[e.g].job.id else -1)
  {
  }

  /** What the stepping goroutine leaves behind is in order. */
  lemma OwnPhase(s: State, e: Event, next: State)
    requires ByGoroutine(e) && Apply(s, e) == Some(next)
    requires PhaseOk(s.calls, s.maxRetries, s.gs[e.g])
    requires e.Receive? ==> Between(s.calls, s.maxRetries, s.chan[0])
    ensures e.g < |next.gs| && PhaseOk(next.calls, next.maxRetries, next.gs[e.g])
  {
  }

  lemma OwnJob(s: State, e: Event, next: State)
    requires ByGoroutine(e) && Apply(s, e) == Some(next)
    requires PhaseOk(s.calls, s.maxRetries, s.gs[e.g])
    ensures e.Spawn? ==> |next.gs| == |s.gs| + 1 && PhaseOk(next.calls, next.maxRetries, next.gs[|s.gs|])
    ensures e.SendBack? ==> |next.chan| == |s.chan| + 1 && Between(next.calls, next.maxRetries, next.chan[|s.chan|])
    ensures Ends(e) ==> |next.finished| == |s.finished| + 1 && FinishedOk(next.calls, next.maxRetries, next.finished[|s.finished|])
  {
  }

  /** The rest of the next state is as it was. */
  lemma OtherPlaces(s: State, e: Event, next: State)
    requires ByGoroutine(e) && Apply(s, e) == Some(next)
    ensures |next.gs| == |s.gs| + (if e.Spawn? then 1 else 0)
    ensures forall i :: 0 <= i < |s.gs| && i != e.g ==> next.gs[i] == s.gs[i]
    ensures if e.Receive? then s.chan != [] && next.chan == s.chan[1..]
            else if e.SendBack? then next.chan == s.chan + [s.gs[e.g].job] else next.chan == s.chan
    ensures if Ends(e) then |next.finished| == |s.finished| + 1 && next.finished[..|s.finished|] == s.finished
            else next.finished == s.finished
  {
    assert Ends(e) ==> next.finished == s.finished + [next.finished[|s.finished|]];
  }

  lemma ChanKept(s: State, e: Event, next: State)
    requires Attempted(s) && ByGoroutine(e) && Apply(s, e) == Some(next)
    requires Holds(s.gs[e.g]) ==> OnlyAt(s, e.g)
    ensures forall i :: 0 <= i < |next.chan| ==> Between(next.calls, next.maxRetries, next.chan[i])
  {
    assert PhaseOk(s.calls, s.maxRetries, s.gs[e.g]);
    GoCalls(s, e, next);
    OwnJob(s, e, next);
    OtherPlaces(s, e, next);
    hide Apply, PhaseOk, FinishedOk;
    forall i | 0 <= i < |next.chan| ensures Between(next.calls, next.maxRetries, next.chan[i]) {
      if i < |s.chan| {
        assert Between(s.calls, s.maxRetries, s.chan[if e.Receive? then i + 1 else i]);
      }
    }
  }

  lemma FinishedKept(s: State, e: Event, next: State)
    requires Attempted(s) && ByGoroutine(e) && Apply(s, e) == Some(next)
    requires Holds(s.gs[e.g]) ==> OnlyAt(s, e.g)
    ensures forall i :: 0 <= i < |next.finished| ==> FinishedOk(next.calls, next.maxRetries, next.finished[i])
  {
    assert PhaseOk(s.calls, s.maxRetries, s.gs[e.g]);
    GoCalls(s, e, next);
    OwnJob(s, e, next);
    OtherPlaces(s, e, next);
    hide Apply, PhaseOk;
    forall i | 0 <= i < |next.finished| ensures FinishedOk(next.calls, next.maxRetries, next.finished[i]) {
      if i < |s.finished| {
        assert next.finished[i] == s.finished[i];
        assert FinishedOk(s.calls, s.maxRetries, s.finished[i]);
      }
    }
  }

  lemma PhasesKept(s: State, e: Event, next: State)
    requires Attempted(s) && ByGoroutine(e) && Apply(s, e) == Some(next)
    requires Holds(s.gs[e.g]) ==> OnlyAt(s, e.g)
    ensures forall i :: 0 <= i < |next.gs| ==> PhaseOk(next.calls, next.maxRetries, next.gs[i])
  {
    assert PhaseOk(s.calls, s.maxRetries, s.gs[e.g]);
    assert e.Receive? ==> Between(s.calls, s.maxRetries, s.chan[0]);
    GoCalls(s, e, next);
    OwnPhase(s, e, next);
    OwnJob(s, e, next);
    OtherPlaces(s, e, next);
    hide Apply, FinishedOk;
    forall i | 0 <= i < |next.gs| ensures PhaseOk(next.calls, next.maxRetries, next.gs[i]) {
      if i != e.g && i < |s.gs| {
        assert PhaseOk(s.calls, s.maxRetries, s.gs[i]);
      }
    }
  }

  lemma AttemptedGo(s: State, e: Event, next: State)
    requires Conserved(s) && Attempted(s) && ByGoroutine(e) && Apply(s, e) == Some(next)
    ensures Attempted(next)
  {
    GoCalls(s, e, next);
    if Holds(s.gs[e.g]) {
      HeldAlone(s, e.g);
    }
    ChanKept(s, e, next);
    PhasesKept(s, e, next);
    FinishedKept(s, e, next);
    hide Apply, Conserved, PhaseOk, FinishedOk, Between, OnlyAt;
    forall id | 0 <= id < |next.calls| && !Accepted(next, id) ensures History(next.calls, id, 0, 0) {
      assert !Accepted(s, id);
      assert History(s.calls, id, 0, 0);
    }
  }

  lemma {:induction false} AttemptedExec(s: State, es: seq<Event>)
    requires Conserved(s) && Attempted(s) && Exec(s, es).Some?
    ensures Attempted(Exec(s, es).value)
    decreases |es|
  {
    if es != [] {
      var next := Apply(s, es[0]).value;
      if ByGoroutine(es[0]) {
        AttemptedGo(s, es[0], next);
      } else {
        AttemptedEnv(s, es[0], next);
      }
      forall id ensures Places(next, id) == if Accepted(next, id) then 1 else 0 {
        ConservedStep(s, es[0], next, id);
      }
      hide Apply, Attempted, Places, Accepted;
      AttemptedExec(next, es[1..]);
    }
  }

  lemma ReachableAttempted(s: State, cap: nat, maxRetries: int, workers: nat, es: seq<Event>)
    requires Reachable(s, cap, maxRetries, workers, es)
    ensures Conserved(s) && Attempted(s)
  {
    var start := Started(cap, maxRetries, workers);
    JobsConserved(start, cap, maxRetries, workers, []);
    AttemptedExec(start, es);
    JobsConserved(s, cap, maxRetries, workers, es);
  }

  lemma {:induction false} SettingsKept(s: State, es: seq<Event>)
    requires Exec(s, es).Some?
    ensures Exec(s, es).value.maxRetries == s.maxRetries && Exec(s, es).value.cap == s.cap
    decreases |es|
  {
    if es != [] {
      SettingsKept(Apply(s, es[0]).value, es[1..]);
    }
  }

  /**
   * Attempts: a job's attempts are its failed handler calls; no job is called more than
   * `max(maxRetries, 0) + 1` times; and it fails for good exactly when it has failed that often.
   */
  lemma AttemptsAreFailures(s: State, cap: nat, maxRetries: int, workers: nat, es: seq<Event>)
    requires Reachable(s, cap, maxRetries, workers, es)
    ensures forall i :: 0 <= i < |s.gs| && Holds(s.gs[i]) ==>
              s.gs[i].job.id < |s.calls| && s.gs[i].job.attempts == s.calls[s.gs[i].job.id].failures
    ensures forall i :: 0 <= i < |s.chan| ==>
              s.chan[i].id < |s.calls| && s.chan[i].attempts == s.calls[s.chan[i].id].failures
    ensures forall id :: 0 <= id < |s.calls| ==> s.calls[id].calls <= (if maxRetries > 0 then maxRetries else 0) + 1
    ensures forall f :: f in s.finished ==>
              && f.job.id < |s.calls|
              && var c := s.calls[f.job.id];
                 match f.outcome
                 case Done => c.calls == c.failures + 1
                 case GaveUp => c.calls == c.failures == (if maxRetries > 0 then maxRetries else 0) + 1
                 case Dropped => c.calls == c.failures < (if maxRetries > 0 then maxRetries else 0) + 1
  {
    ReachableAttempted(s, cap, maxRetries, workers, es);
    SettingsKept(Started(cap, maxRetries, workers), es);
    forall id | 0 <= id < |s.calls| ensures s.calls[id].calls <= Most(maxRetries) {
      CallsBounded(s, id);
    }
    forall i | 0 <= i < |s.gs| && Holds(s.gs[i])
      ensures s.gs[i].job.id < |s.calls| && s.gs[i].job.attempts == s.calls[s.gs[i].job.id].failures {
      assert PhaseOk(s.calls, s.maxRetries, s.gs[i]);
    }
    forall i | 0 <= i < |s.chan|
      ensures s.chan[i].id < |s.calls| && s.chan[i].attempts == s.calls[s.chan[i].id].failures {
      assert Between(s.calls, s.maxRetries, s.chan[i]);
    }
    forall f | f in s.finished
      ensures && f.job.id < |s.calls|
              && var c := s.calls[f.job.id];
                 match f.outcome
                 case Done => c.calls == c.failures + 1
                 case GaveUp => c.calls == c.failures == (if maxRetries > 0 then maxRetries else 0) + 1
                 case Dropped => c.calls == c.failures < (if maxRetries > 0 then maxRetries else 0) + 1 {
      var i :| 0 <= i < |s.finished| && s.finished[i] == f;
      assert FinishedOk(s.calls, s.maxRetries, s.finished[i]);
    }
  }

  lemma CallsBounded(s: State, id: nat)
    requires Conserved(s) && Attempted(s) && id < |s.calls|
    ensures s.calls[id].calls <= Most(s.maxRetries)
  {
    if !Accepted(s, id) {
      assert History(s.calls, id, 0, 0);
    } else {
      assert Places(s, id) == 1;
      SumZeroIff(s.chan, QueuedIs(id));
      SumZeroIff(s.gs, HeldIs(id));
      SumZeroIff(s.finished, FinishedIs(id));
      if i :| 0 <= i < |s.chan| && QueuedIs(id)(s.chan[i]) != 0 {
        assert Between(s.calls, s.maxRetries, s.chan[i]);
      } else if i :| 0 <= i < |s.gs| && HeldIs(id)(s.gs[i]) != 0 {
        assert PhaseOk(s.calls, s.maxRetries, s.gs[i]);
      } else {
        var i :| 0 <= i < |s.finished| && FinishedIs(id)(s.finished[i]) != 0;
        assert FinishedOk(s.calls, s.maxRetries, s.finished[i]);
      }
    }
  }

  // ---------------------------------------------------------------- the counters

  function CallsMade(): Call -> nat {
    (c: Call) => c.calls
  }

  function FailuresSeen(): Call -> nat {
    (c: Call) => c.failures
  }

  function EndsAs(outcome: Outcome): Finished -> nat {
    (f: Finished) => if f.outcome == outcome then 1 else 0
  }

  function IsSucceeding(): Phase -> nat {
    (p: Phase) => if p.Succeeding? then 1 else 0
  }

  function IsFailing(): Phase -> nat {
    (p: Phase) => if p.Failing? then 1 else 0
  }

  /** The counters of finished jobs and retries agree with what has happened. */
  ghost predicate CountersAgree(s: State) {
    && s.succeeded == Sum(s.finished, EndsAs(Done)) + Sum(s.gs, IsSucceeding())
    && s.failed == Sum(s.finished, EndsAs(GaveUp)) + Sum(s.gs, IsFailing())
    && s.retried + s.failed == Sum(s.calls, FailuresSeen())
    && s.succeeded + s.retried + s.failed == Sum(s.calls, CallsMade())
  }

  lemma CallSums(s: State, e: Event, next: State)
    requires Apply(s, e) == Some(next)
    requires ByGoroutine(e) && Holds(s.gs[e.g]) ==> s.gs[e.g].job.id < |s.calls|
    ensures Sum(next.calls, CallsMade()) == Sum(s.calls, CallsMade()) + if e.ReturnOk? || e.ReturnError? then 1 else 0
    ensures Sum(next.calls, FailuresSeen()) == Sum(s.calls, FailuresSeen()) + if e.ReturnError? then 1 else 0
  {
    if e.ReturnOk? || e.ReturnError? {
      var id := s.gs[e.g].job.id;
      SumUpdate(s.calls, id, next.calls[id], CallsMade());
      SumUpdate(s.calls, id, next.calls[id], FailuresSeen());
    } else if e.Offer? || e.Write? {
      SumUpdate(s.calls, e.c, next.calls[e.c], CallsMade());
      SumUpdate(s.calls, e.c, next.calls[e.c], FailuresSeen());
    } else if e.Submit? || e.Enqueue? {
      SumAppend(s.calls, next.calls[|s.calls|], CallsMade());
      SumAppend(s.calls, next.calls[|s.calls|], FailuresSeen());
    }
  }

  lemma SucceededGo(s: State, e: Event, next: State)
    requires ByGoroutine(e) && Apply(s, e) == Some(next)
    requires s.succeeded == Sum(s.finished, EndsAs(Done)) + Sum(s.gs, IsSucceeding())
    ensures next.succeeded == Sum(next.finished, EndsAs(Done)) + Sum(next.gs, IsSucceeding())
  {
    GoSum(s, e, next, IsSucceeding());
    FinishedSum(s, e, next, EndsAs(Done));
    hide Sum, Counted, Marked;
  }

  lemma FailedGo(s: State, e: Event, next: State)
    requires ByGoroutine(e) && Apply(s, e) == Some(next)
    requires s.failed == Sum(s.finished, EndsAs(GaveUp)) + Sum(s.gs, IsFailing())
    ensures next.failed == Sum(next.finished, EndsAs(GaveUp)) + Sum(next.gs, IsFailing())
  {
    GoSum(s, e, next, IsFailing());
    FinishedSum(s, e, next, EndsAs(GaveUp));
    hide Sum, Counted, Marked;
  }

  lemma CountersGo(s: State, e: Event, next: State)
    requires Apply(s, e) == Some(next)
    ensures next.succeeded == s.succeeded + if e.ReturnOk? then 1 else 0
    ensures next.failed + next.retried == s.failed + s.retried + if e.ReturnError? then 1 else 0
    ensures !ByGoroutine(e) ==> next.gs == s.gs && next.finished == s.finished && next.failed == s.failed
  {
  }

  lemma CountersStep(s: State, e: Event, next: State)
    requires Conserved(s) && CountersAgree(s) && Apply(s, e) == Some(next)
    ensures CountersAgree(next)
  {
    if ByGoroutine(e) {
      if Holds(s.gs[e.g]) {
        HeldAlone(s, e.g);
      }
      SucceededGo(s, e, next);
      FailedGo(s, e, next);
    }
    hide Sum, Conserved, Apply;
    CallSums(s, e, next);
    CountersGo(s, e, next);
  }

  lemma {:induction false} CountersExec(s: State, es: seq<Event>)
    requires Conserved(s) && CountersAgree(s) && Exec(s, es).Some?
    ensures CountersAgree(Exec(s, es).value)
    decreases |es|
  {
    if es != [] {
      var next := Apply(s, es[0]).value;
      CountersStep(s, es[0], next);
      forall id ensures Places(next, id) == if Accepted(next, id) then 1 else 0 {
        ConservedStep(s, es[0], next, id);
      }
      hide Apply, CountersAgree, Places, Accepted;
      CountersExec(next, es[1..]);
    }
  }

  /**
   * Counters: successes and permanent failures are counted once per job, when its last call returns;
   * retries count the failed calls that were not the last.
   */
  lemma CountersMatch(s: State, cap: nat, maxRetries: int, workers: nat, es: seq<Event>)
    requires Reachable(s, cap, maxRetries, workers, es)
    ensures CountersAgree(s)
  {
    var start := Started(cap, maxRetries, workers);
    JobsConserved(start, cap, maxRetries, workers, []);
    StartsIdle(cap, maxRetries, workers, IsSucceeding());
    StartsIdle(cap, maxRetries, workers, IsFailing());
    CountersExec(start, es);
  }
}
