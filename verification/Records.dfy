/**
 * What the record of a job says, compared with where the job is. `late` tells the two protocols
 * apart: without it, sending a job and writing its pending record are one step; with it they are two,
 * and a worker can get in between.
 */
module Records {
  import opened Files
  import opened Pool
  import opened Attempts

  function QueuedAs(job: Job): Status {
    if job.attempts == 0 then Pending else Retrying
  }

  function HeldAs(p: Phase): Status
    requires Holds(p)
  {
    match p
    case Received(job) => QueuedAs(job)
    case Spawning(_) => Retrying
    case Waiting(_) => Retrying
    case Sending(_) => Retrying
    case _ => Running
  }

  function FinishedAs(f: Finished): Status {
    match f.outcome
    case Done => Succeeded
    case GaveUp => Failed
    case Dropped => Retrying
  }

  /**
   * The record of an accepted job. It says what is expected, except that the late pending write may
   * have replaced it, or has not happened and nothing else has been written.
   */
  ghost predicate RecordOk(status: map<nat, Status>, calls: seq<Call>, id: nat, expected: Status, late: bool) {
    && id < |calls|
    && match calls[id].phase
       case Sent => late && if expected == Pending then id !in status else id in status && status[id] == expected
       case Recorded => id in status && (status[id] == expected || (late && status[id] == Pending))
       case _ => false
  }

  ghost predicate PhaseRecord(status: map<nat, Status>, calls: seq<Call>, p: Phase, late: bool) {
    Holds(p) ==>
      && RecordOk(status, calls, p.job.id, HeldAs(p), late)
      && (p.MarkingRetry? || p.Spawning? || p.Waiting? || p.Sending? ==> p.job.attempts > 0)
  }

  ghost predicate InFlight(calls: seq<Call>, id: nat, late: bool) {
    id < |calls| && (calls[id].phase.Recorded? || (late && calls[id].phase.Sent?))
  }

  /** A job that has succeeded or failed may have been pruned. */
  ghost predicate FinishedRecord(status: map<nat, Status>, calls: seq<Call>, f: Finished, late: bool) {
    || (!f.outcome.Dropped? && f.job.id !in status && InFlight(calls, f.job.id, late))
    || RecordOk(status, calls, f.job.id, FinishedAs(f), late)
  }

  ghost predicate KnownIds(s: State, late: bool) {
    && (forall id :: id in s.status ==> id < |s.calls| && !s.calls[id].phase.Ready? && !s.calls[id].phase.Refused?)
    && (!late ==> forall c :: 0 <= c < |s.calls| ==> !s.calls[c].phase.Sent?)
  }

  ghost predicate Agrees(s: State, late: bool) {
    && KnownIds(s, late)
    && (forall i :: 0 <= i < |s.chan| ==> RecordOk(s.status, s.calls, s.chan[i].id, QueuedAs(s.chan[i]), late))
    && (forall i :: 0 <= i < |s.gs| ==> PhaseRecord(s.status, s.calls, s.gs[i], late))
    && (forall i :: 0 <= i < |s.finished| ==> FinishedRecord(s.status, s.calls, s.finished[i], late))
  }

  // ---------------------------------------------------------------- environment steps

  /** What an environment step does to one record and the phase of its call. */
  lemma EnvRecord(s: State, e: Event, next: State, id: nat, expected: Status, late: bool)
    requires !ByGoroutine(e) && Apply(s, e) == Some(next) && KnownIds(s, late)
    requires RecordOk(s.status, s.calls, id, expected, late)
    ensures RecordOk(next.status, next.calls, id, expected, late) ||
            (Terminal(expected) && id !in next.status && InFlight(next.calls, id, late))
  {
  }

  lemma EnvPruned(s: State, e: Event, next: State, f: Finished, late: bool)
    requires !ByGoroutine(e) && Apply(s, e) == Some(next) && KnownIds(s, late)
    requires f.job.id !in s.status && InFlight(s.calls, f.job.id, late) && !f.outcome.Dropped?
    ensures FinishedRecord(next.status, next.calls, f, late)
  {
  }

  lemma EnvIds(s: State, e: Event, next: State, late: bool)
    requires !ByGoroutine(e) && Apply(s, e) == Some(next) && KnownIds(s, late) && (late || !e.Offer?)
    ensures KnownIds(next, late)
  {
  }

  lemma EnvChannel(s: State, e: Event, next: State, late: bool)
    requires !ByGoroutine(e) && Apply(s, e) == Some(next) && KnownIds(s, late) && (late || !e.Offer?)
    ensures next.gs == s.gs && next.finished == s.finished
    ensures next.chan == s.chan ||
            (next.chan == s.chan + [next.chan[|s.chan|]] &&
             RecordOk(next.status, next.calls, next.chan[|s.chan|].id, QueuedAs(next.chan[|s.chan|]), late))
  {
  }

  lemma AgreesEnv(s: State, e: Event, next: State, late: bool)
    requires Agrees(s, late) && !ByGoroutine(e) && Apply(s, e) == Some(next) && (late || !e.Offer?)
    ensures Agrees(next, late)
  {
    EnvIds(s, e, next, late);
    EnvChannel(s, e, next, late);
    hide Apply, RecordOk, InFlight, KnownIds;
    forall i | 0 <= i < |next.chan|
      ensures RecordOk(next.status, next.calls, next.chan[i].id, QueuedAs(next.chan[i]), late) {
      if i < |s.chan| {
        EnvRecord(s, e, next, s.chan[i].id, QueuedAs(s.chan[i]), late);
      }
    }
    forall i | 0 <= i < |next.gs| ensures PhaseRecord(next.status, next.calls, next.gs[i], late) {
      assert PhaseRecord(s.status, s.calls, s.gs[i], late);
      if Holds(s.gs[i]) {
        EnvRecord(s, e, next, s.gs[i].job.id, HeldAs(s.gs[i]), late);
      }
    }
    forall i | 0 <= i < |next.finished| ensures FinishedRecord(next.status, next.calls, next.finished[i], late) {
      assert FinishedRecord(s.status, s.calls, s.finished[i], late);
      if RecordOk(s.status, s.calls, s.finished[i].job.id, FinishedAs(s.finished[i]), late) {
        EnvRecord(s, e, next, s.finished[i].job.id, FinishedAs(s.finished[i]), late);
      } else {
        EnvPruned(s, e, next, s.finished[i], late);
      }
    }
  }

  // ---------------------------------------------------------------- steps of goroutines

  /** A goroutine writes at most the record of the job it holds. */
  lemma GoRecords(s: State, e: Event, next: State)
    requires ByGoroutine(e) && Apply(s, e) == Some(next)
    ensures |next.calls| == |s.calls| && forall id :: 0 <= id < |s.calls| ==> next.calls[id].phase == s.calls[id].phase
    ensures forall id :: id in next.status && !(Holds(s.gs[e.g]) && id == s.gs[e.g].job.id) ==>
              id in s.status && next.status[id] == s.status[id]
    ensures forall id :: id in s.status ==> id in next.status
  {
  }

  /** A record of another job is as good as before. */
  lemma OtherRecord(s: State, e: Event, next: State, id: nat, expected: Status, late: bool)
    requires ByGoroutine(e) && Apply(s, e) == Some(next)
    requires RecordOk(s.status, s.calls, id, expected, late)
    requires Holds(s.gs[e.g]) ==> s.gs[e.g].job.id != id
    ensures RecordOk(next.status, next.calls, id, expected, late)
  {
    GoRecords(s, e, next);
  }

  lemma OtherPhase(s: State, e: Event, next: State, p: Phase, late: bool)
    requires ByGoroutine(e) && Apply(s, e) == Some(next)
    requires PhaseRecord(s.status, s.calls, p, late)
    requires Holds(p) && Holds(s.gs[e.g]) ==> s.gs[e.g].job.id != p.job.id
    ensures PhaseRecord(next.status, next.calls, p, late)
  {
    if Holds(p) {
      OtherRecord(s, e, next, p.job.id, HeldAs(p), late);
    }
  }

  lemma OtherFinished(s: State, e: Event, next: State, f: Finished, late: bool)
    requires ByGoroutine(e) && Apply(s, e) == Some(next)
    requires FinishedRecord(s.status, s.calls, f, late)
    requires Holds(s.gs[e.g]) ==> s.gs[e.g].job.id != f.job.id
    ensures FinishedRecord(next.status, next.calls, f, late)
  {
    GoRecords(s, e, next);
    if RecordOk(s.status, s.calls, f.job.id, FinishedAs(f), late) {
      OtherRecord(s, e, next, f.job.id, FinishedAs(f), late);
    } else {
      hide Apply;
    }
  }

  /** The record of the goroutine's own job fits its new place. */
  lemma OwnRecord(s: State, e: Event, next: State, late: bool)
    requires ByGoroutine(e) && Apply(s, e) == Some(next)
    requires PhaseRecord(s.status, s.calls, s.gs[e.g], late)
    requires e.Receive? ==> RecordOk(s.status, s.calls, s.chan[0].id, QueuedAs(s.chan[0]), late)
    ensures e.g < |next.gs| && PhaseRecord(next.status, next.calls, next.gs[e.g], late)
  {
  }

  lemma OwnJobRecord(s: State, e: Event, next: State, late: bool)
    requires ByGoroutine(e) && Apply(s, e) == Some(next)
    requires PhaseRecord(s.status, s.calls, s.gs[e.g], late)
    ensures e.Spawn? ==> |next.gs| == |s.gs| + 1 && PhaseRecord(next.status, next.calls, next.gs[|s.gs|], late)
    ensures e.SendBack? ==> |next.chan| == |s.chan| + 1 &&
                            RecordOk(next.status, next.calls, next.chan[|s.chan|].id, QueuedAs(next.chan[|s.chan|]), late)
    ensures Ends(e) ==> |next.finished| == |s.finished| + 1 &&
                        FinishedRecord(next.status, next.calls, next.finished[|s.finished|], late)
  {
  }

  lemma ChanRecords(s: State, e: Event, next: State, late: bool)
    requires Agrees(s, late) && ByGoroutine(e) && Apply(s, e) == Some(next)
    requires Holds(s.gs[e.g]) ==> OnlyAt(s, e.g)
    ensures forall i :: 0 <= i < |next.chan| ==>
              RecordOk(next.status, next.calls, next.chan[i].id, QueuedAs(next.chan[i]), late)
  {
    assert PhaseRecord(s.status, s.calls, s.gs[e.g], late);
    OwnJobRecord(s, e, next, late);
    OtherPlaces(s, e, next);
    assert e.Receive? ==> !Holds(s.gs[e.g]);
    hide Apply, RecordOk, FinishedRecord, PhaseRecord, KnownIds;
    forall i | 0 <= i < |next.chan|
      ensures RecordOk(next.status, next.calls, next.chan[i].id, QueuedAs(next.chan[i]), late) {
      if i < |s.chan| {
        var job := s.chan[if e.Receive? then i + 1 else i];
        OtherRecord(s, e, next, job.id, QueuedAs(job), late);
      }
    }
  }

  lemma PhaseRecords(s: State, e: Event, next: State, late: bool)
    requires Agrees(s, late) && ByGoroutine(e) && Apply(s, e) == Some(next)
    requires Holds(s.gs[e.g]) ==> OnlyAt(s, e.g)
    ensures forall i :: 0 <= i < |next.gs| ==> PhaseRecord(next.status, next.calls, next.gs[i], late)
  {
    assert PhaseRecord(s.status, s.calls, s.gs[e.g], late);
    assert e.Receive? ==> RecordOk(s.status, s.calls, s.chan[0].id, QueuedAs(s.chan[0]), late);
    OwnRecord(s, e, next, late);
    OwnJobRecord(s, e, next, late);
    OtherPlaces(s, e, next);
    hide Apply, RecordOk, FinishedRecord, PhaseRecord, KnownIds;
    forall i | 0 <= i < |next.gs| ensures PhaseRecord(next.status, next.calls, next.gs[i], late) {
      if i != e.g && i < |s.gs| {
        OtherPhase(s, e, next, s.gs[i], late);
      }
    }
  }

  lemma FinishedRecords(s: State, e: Event, next: State, late: bool)
    requires Agrees(s, late) && ByGoroutine(e) && Apply(s, e) == Some(next)
    requires Holds(s.gs[e.g]) ==> OnlyAt(s, e.g)
    ensures forall i :: 0 <= i < |next.finished| ==> FinishedRecord(next.status, next.calls, next.finished[i], late)
  {
    assert PhaseRecord(s.status, s.calls, s.gs[e.g], late);
    OwnJobRecord(s, e, next, late);
    OtherPlaces(s, e, next);
    hide Apply, RecordOk, FinishedRecord, PhaseRecord, KnownIds;
    forall i | 0 <= i < |next.finished| ensures FinishedRecord(next.status, next.calls, next.finished[i], late) {
      if i < |s.finished| {
        assert next.finished[i] == s.finished[i];
        OtherFinished(s, e, next, s.finished[i], late);
      }
    }
  }

  lemma GoIds(s: State, e: Event, next: State, late: bool)
    requires KnownIds(s, late) && ByGoroutine(e) && Apply(s, e) == Some(next)
    requires Holds(s.gs[e.g]) ==> Accepted(s, s.gs[e.g].job.id)
    ensures KnownIds(next, late)
  {
    GoRecords(s, e, next);
    hide Apply;
  }

  lemma AgreesGo(s: State, e: Event, next: State, late: bool)
    requires Conserved(s) && Agrees(s, late) && ByGoroutine(e) && Apply(s, e) == Some(next)
    ensures Agrees(next, late)
  {
    if Holds(s.gs[e.g]) {
      HeldAlone(s, e.g);
    }
    hide Conserved, RecordOk, FinishedRecord, PhaseRecord, KnownIds, OnlyAt, Accepted;
    GoIds(s, e, next, late);
    ChanRecords(s, e, next, late);
    PhaseRecords(s, e, next, late);
    FinishedRecords(s, e, next, late);
  }

  lemma {:induction false} AgreesExec(s: State, es: seq<Event>, late: bool)
    requires Conserved(s) && Agrees(s, late) && Exec(s, es).Some?
    requires late || forall i :: 0 <= i < |es| ==> !es[i].Offer?
    ensures Agrees(Exec(s, es).value, late)
    decreases |es|
  {
    if es != [] {
      var next := Apply(s, es[0]).value;
      if ByGoroutine(es[0]) {
        AgreesGo(s, es[0], next, late);
      } else {
        AgreesEnv(s, es[0], next, late);
      }
      forall id ensures Places(next, id) == if Accepted(next, id) then 1 else 0 {
        ConservedStep(s, es[0], next, id);
      }
      assert forall i :: 0 <= i < |es[1..]| ==> es[1..][i] == es[i + 1];
      hide Apply, Agrees, Places, Accepted;
      AgreesExec(next, es[1..], late);
    }
  }

  // ---------------------------------------------------------------- main results

  lemma ReachableAgrees(s: State, cap: nat, maxRetries: int, workers: nat, es: seq<Event>, late: bool)
    requires Reachable(s, cap, maxRetries, workers, es)
    requires late || forall i :: 0 <= i < |es| ==> !es[i].Offer?
    ensures Conserved(s) && Agrees(s, late)
  {
    var start := Started(cap, maxRetries, workers);
    JobsConserved(start, cap, maxRetries, workers, []);
    AgreesExec(start, es, late);
    JobsConserved(s, cap, maxRetries, workers, es);
  }

  /**
   * With sending and the pending write as one step, the record of every live job is there and says
   * where the job is, and that of a finished one says how it ended unless it has been pruned.
   */
  lemma AtomicRecordsAgree(s: State, cap: nat, maxRetries: int, workers: nat, es: seq<Event>)
    requires Reachable(s, cap, maxRetries, workers, es) && forall i :: 0 <= i < |es| ==> !es[i].Offer?
    ensures forall i :: 0 <= i < |s.chan| ==>
              && s.chan[i].id in s.status
              && s.status[s.chan[i].id] == if s.chan[i].attempts == 0 then Pending else Retrying
    ensures forall i :: 0 <= i < |s.gs| ==>
              match s.gs[i]
              case Select => true
              case Exited => true
              case Received(job) => job.id in s.status && s.status[job.id] == if job.attempts == 0 then Pending else Retrying
              case Handling(job) => job.id in s.status && s.status[job.id] == Running
              case Succeeding(job) => job.id in s.status && s.status[job.id] == Running
              case Failing(job) => job.id in s.status && s.status[job.id] == Running
              case MarkingRetry(job) => job.id in s.status && s.status[job.id] == Running
              case Spawning(job) => job.id in s.status && s.status[job.id] == Retrying
              case Waiting(job) => job.id in s.status && s.status[job.id] == Retrying
              case Sending(job) => job.id in s.status && s.status[job.id] == Retrying
    ensures forall i :: 0 <= i < |s.finished| && s.finished[i].job.id in s.status ==>
              s.status[s.finished[i].job.id] ==
              match s.finished[i].outcome case Done => Succeeded case GaveUp => Failed case Dropped => Retrying
  {
    ReachableAgrees(s, cap, maxRetries, workers, es, false);
    forall i | 0 <= i < |s.gs| && Holds(s.gs[i])
      ensures s.gs[i].job.id in s.status && s.status[s.gs[i].job.id] == HeldAs(s.gs[i]) {
      assert PhaseRecord(s.status, s.calls, s.gs[i], false);
    }
    forall i | 0 <= i < |s.finished| && s.finished[i].job.id in s.status
      ensures s.status[s.finished[i].job.id] == FinishedAs(s.finished[i]) {
      assert FinishedRecord(s.status, s.calls, s.finished[i], false);
    }
  }

  /** The record of a job that should say `expected`, when the pending write is a step of its own. */
  ghost predicate SplitRecord(s: State, id: nat, expected: Status) {
    && id < |s.calls|
    && (id !in s.status ==> s.calls[id].phase.Sent? && expected == Pending)
    && (id in s.status && s.status[id] != expected ==> s.calls[id].phase.Recorded? && s.status[id] == Pending)
  }

  /**
   * As written, with two steps, the only other disagreements are a missing record while the pending
   * write of a job that has not been marked running is outstanding, and a pending record that replaced
   * what a worker had written. That goes for queued, held and ended jobs alike; an ended one may also have
   * been pruned.
   */
  lemma SplitRecordsAgree(s: State, cap: nat, maxRetries: int, workers: nat, es: seq<Event>)
    requires Reachable(s, cap, maxRetries, workers, es)
    ensures forall i :: 0 <= i < |s.chan| ==> SplitRecord(s, s.chan[i].id, QueuedAs(s.chan[i]))
    ensures forall i :: 0 <= i < |s.gs| && Holds(s.gs[i]) ==> SplitRecord(s, s.gs[i].job.id, HeldAs(s.gs[i]))
    ensures forall i :: 0 <= i < |s.finished| ==>
              (s.finished[i].job.id !in s.status && !s.finished[i].outcome.Dropped?) ||
              SplitRecord(s, s.finished[i].job.id, FinishedAs(s.finished[i]))
  {
    ReachableAgrees(s, cap, maxRetries, workers, es, true);
    forall i | 0 <= i < |s.gs| && Holds(s.gs[i]) ensures SplitRecord(s, s.gs[i].job.id, HeldAs(s.gs[i])) {
      assert PhaseRecord(s.status, s.calls, s.gs[i], true);
    }
    forall i | 0 <= i < |s.finished|
      ensures (s.finished[i].job.id !in s.status && !s.finished[i].outcome.Dropped?) ||
              SplitRecord(s, s.finished[i].job.id, FinishedAs(s.finished[i])) {
      assert FinishedRecord(s.status, s.calls, s.finished[i], true);
    }
  }

  // ---------------------------------------------------------------- who wrote the record last

  datatype Mark = Mark(id: nat, status: Status)

  /** The record a step writes, if it writes one. */
  function MarkOf(s: State, e: Event): Option<Mark> {
    match e
    case Write(c) =>
      if c < |s.calls| && s.calls[c].phase.Sent? then Some(Mark(c, Pending))
      else if c < |s.calls| && s.calls[c].phase.Refused? then Some(Mark(c, Failed))
      else None
    case Enqueue => Some(Mark(|s.calls|, if |s.chan| < s.cap then Pending else Failed))
    case MarkRunning(g) => if g < |s.gs| && s.gs[g].Received? then Some(Mark(s.gs[g].job.id, Running)) else None
    case MarkRetrying(g) => if g < |s.gs| && s.gs[g].MarkingRetry? then Some(Mark(s.gs[g].job.id, Retrying)) else None
    case MarkEnd(g) =>
      if g < |s.gs| && s.gs[g].Succeeding? then Some(Mark(s.gs[g].job.id, Succeeded))
      else if g < |s.gs| && s.gs[g].Failing? then Some(Mark(s.gs[g].job.id, Failed))
      else None
    case _ => None
  }

  /** That describes the machine: a step changes the table as its mark says, or prunes it, or not at all. */
  lemma MarksTable(s: State, e: Event, next: State)
    requires Apply(s, e) == Some(next)
    ensures match MarkOf(s, e)
      case Some(m) => next.status == s.status[m.id := m.status]
      case None => next.status == if e.Prune? then Pruned(s.status, e.ids) else s.status
  {
  }

  /** The marks of a run, step by step. */
  function Marks(s: State, es: seq<Event>): (ms: seq<Option<Mark>>)
    ensures Exec(s, es).Some? ==> |ms| == |es|
    decreases |es|
  {
    if es == [] || Apply(s, es[0]).None? then []
    else [MarkOf(s, es[0])] + Marks(Apply(s, es[0]).value, es[1..])
  }

  /** The i-th step writes the record of `id`, and `late` says whether it is the pending write. */
  predicate Writes(ms: seq<Option<Mark>>, i: nat, id: nat, late: bool) {
    i < |ms| && ms[i].Some? && ms[i].value.id == id && (late <==> ms[i].value.status == Pending)
  }

  /** No step from `i` on writes the record of `id`. */
  predicate Quiet(ms: seq<Option<Mark>>, i: nat, id: nat) {
    forall k :: i <= k < |ms| ==> !(ms[k].Some? && ms[k].value.id == id)
  }

  /** A record that is there was written by the last step that wrote it. */
  lemma {:induction false} LastWriter(s: State, es: seq<Event>, id: nat) returns (i: int)
    requires Exec(s, es).Some? && id in Exec(s, es).value.status
    ensures var ms := Marks(s, es);
            if i < 0 then Quiet(ms, 0, id) && id in s.status && Exec(s, es).value.status[id] == s.status[id]
            else i < |ms| && ms[i] == Some(Mark(id, Exec(s, es).value.status[id])) && Quiet(ms, i + 1, id)
    decreases |es|
  {
    if es == [] {
      i := -1;
    } else {
      var next := Apply(s, es[0]).value;
      MarksTable(s, es[0], next);
      var first := MarkOf(s, es[0]);
      var rest := Marks(next, es[1..]);
      hide Apply, MarkOf;
      i := LastWriter(next, es[1..], id);
      var ms := [first] + rest;
      assert Marks(s, es) == ms;
      assert forall k :: 1 <= k < |ms| ==> ms[k] == rest[k - 1];
      if i >= 0 {
        i := i + 1;
        assert ms[i] == rest[i - 1];
      } else if first.Some? && first.value.id == id {
        i := 0;
      }
    }
  }

  /** The worker's last write came after the pending write, if that has come at all. */
  ghost predicate WorkerLast(ms: seq<Option<Mark>>, id: nat) {
    exists j: nat :: Writes(ms, j, id, false) && forall i: nat :: Writes(ms, i, id, true) ==> i < j
  }

  lemma LastWriteDecides(ms: seq<Option<Mark>>, id: nat, i: nat)
    requires i < |ms| && ms[i].Some? && ms[i].value.id == id && Quiet(ms, i + 1, id)
    ensures WorkerLast(ms, id) <==> ms[i].value.status != Pending
  {
    if WorkerLast(ms, id) {
      var j: nat :| Writes(ms, j, id, false) && forall k: nat :: Writes(ms, k, id, true) ==> k < j;
      assert j <= i;
      assert ms[i].value.status == Pending ==> Writes(ms, i, id, true);
    } else {
      assert ms[i].value.status != Pending ==> Writes(ms, i, id, false);
    }
  }

  /**
   * Over every run, the record of a job that should not be pending says where the job is, or how it
   * ended, if and only if no pending write came after the worker's last one.
   */
  lemma RecordRightIff(s: State, cap: nat, maxRetries: int, workers: nat, es: seq<Event>, id: nat, expected: Status)
    requires Reachable(s, cap, maxRetries, workers, es) && id in s.status && SplitRecord(s, id, expected) && expected != Pending
    ensures s.status[id] == expected <==> WorkerLast(Marks(Started(cap, maxRetries, workers), es), id)
  {
    var start := Started(cap, maxRetries, workers);
    var i := LastWriter(start, es, id);
    LastWriteDecides(Marks(start, es), id, i);
  }

  /**
   * An ended job whose record has not been pruned is recorded as it ended if and only if its pending
   * write did not come after the worker's last write.
   */
  lemma EndedRecordRightIff(s: State, cap: nat, maxRetries: int, workers: nat, es: seq<Event>, f: Finished)
    requires Reachable(s, cap, maxRetries, workers, es) && f in s.finished && f.job.id in s.status
    ensures s.status[f.job.id] == (match f.outcome case Done => Succeeded case GaveUp => Failed case Dropped => Retrying) <==>
            WorkerLast(Marks(Started(cap, maxRetries, workers), es), f.job.id)
  {
    SplitRecordsAgree(s, cap, maxRetries, workers, es);
    var i :| 0 <= i < |s.finished| && s.finished[i] == f;
    RecordRightIff(s, cap, maxRetries, workers, es, f.job.id, FinishedAs(f));
  }

  /** Pruning never removes the record of a job that is queued or held, in either protocol. */
  lemma PruneSparesLive(s: State, cap: nat, maxRetries: int, workers: nat, es: seq<Event>, ids: set<nat>, id: nat)
    requires Reachable(s, cap, maxRetries, workers, es) && id in s.status
    requires (exists i :: 0 <= i < |s.chan| && s.chan[i].id == id) ||
             (exists i :: 0 <= i < |s.gs| && Holds(s.gs[i]) && s.gs[i].job.id == id)
    ensures id in Apply(s, Prune(ids)).value.status
  {
    ReachableAgrees(s, cap, maxRetries, workers, es, true);
    if i :| 0 <= i < |s.gs| && Holds(s.gs[i]) && s.gs[i].job.id == id {
      assert PhaseRecord(s.status, s.calls, s.gs[i], true);
    }
  }

  /** Pruning removes exactly the chosen records of ended jobs. */
  lemma PrunesExactly(s: State, ids: set<nat>, id: nat)
    ensures var next := Apply(s, Prune(ids)).value;
            && next == s.(status := next.status)
            && (id in next.status <==> id in s.status && (id !in ids || s.status[id] in {Pending, Running, Retrying}))
            && (id in next.status ==> next.status[id] == s.status[id])
  {
  }

  /** A run in which a worker finishes the job before its pending record is written. */
  const LATE: seq<Event> := [Submit, Offer(0), Receive(0), MarkRunning(0), ReturnOk(0), MarkEnd(0), Write(0)]

  ghost predicate StuckPending(s: State, id: nat) {
    && id < |s.calls| && s.calls[id].phase.Recorded?
    && id in s.status && s.status[id] == Pending
    && (forall i :: 0 <= i < |s.chan| ==> s.chan[i].id != id)
    && (forall i :: 0 <= i < |s.gs| && Holds(s.gs[i]) ==> s.gs[i].job.id != id)
  }

  /** A job is sent, and its record is still to be written. */
  lemma Unrecorded(workers: nat, rest: seq<Event>) returns (s: State)
    requires workers >= 1
    ensures |s.gs| > 0 && s.chan == [Job(0, 0)] && s.finished == [] && |s.calls| == 1 && s.calls[0].phase.Sent?
    ensures forall i :: 0 <= i < |s.gs| ==> s.gs[i].Select?
    ensures Exec(Started(1, 3, workers), [Submit, Offer(0)] + rest) == Exec(s, rest)
  {
    var s0 := Started(1, 3, workers);
    var s1 := Apply(s0, Submit).value;
    s := Apply(s1, Offer(0)).value;
    hide Apply, Exec;
    ExecNext(s0, Submit, s1, [Offer(0)] + rest);
    ExecNext(s1, Offer(0), s, rest);
    assert [Submit, Offer(0)] + rest == [Submit] + ([Offer(0)] + rest);
  }

  /** A worker that finds the job runs it. */
  lemma Taken(s: State, rest: seq<Event>) returns (t: State)
    requires |s.gs| > 0 && s.chan == [Job(0, 0)]
    requires forall i :: 0 <= i < |s.gs| ==> s.gs[i].Select?
    ensures t == s.(chan := [], gs := s.gs[0 := Handling(Job(0, 0))], status := Marked(s, 0, Running))
    ensures Exec(s, [Receive(0), MarkRunning(0)] + rest) == Exec(t, rest)
  {
    var s1 := s.(chan := [], gs := s.gs[0 := Received(Job(0, 0))]);
    t := s1.(gs := s1.gs[0 := Handling(Job(0, 0))], status := Marked(s1, 0, Running));
    assert s.chan[1..] == [];
    assert Apply(s, Receive(0)) == Some(s1);
    assert Apply(s1, MarkRunning(0)) == Some(t);
    hide Apply, Exec;
    ExecNext(s, Receive(0), s1, [MarkRunning(0)] + rest);
    ExecNext(s1, MarkRunning(0), t, rest);
    assert [Receive(0), MarkRunning(0)] + rest == [Receive(0)] + ([MarkRunning(0)] + rest);
  }

  /** The handler succeeds, the end is recorded, and only then the pending write lands. */
  lemma Overwritten(s: State)
    requires |s.gs| > 0 && s.gs[0] == Handling(Job(0, 0)) && s.chan == []
    requires |s.calls| == 1 && s.calls[0].phase.Sent? && s.finished == []
    requires forall i :: 0 < i < |s.gs| ==> s.gs[i].Select?
    ensures var last := Exec(s, [ReturnOk(0), MarkEnd(0), Write(0)]);
            && last.Some? && StuckPending(last.value, 0)
            && last.value.finished == [Finished(Job(0, 0), Done)]
  {
    var s1 := Apply(s, ReturnOk(0)).value;
    var s2 := Apply(s1, MarkEnd(0)).value;
    var s3 := Apply(s2, Write(0)).value;
    assert StuckPending(s3, 0) && s3.finished == [Finished(Job(0, 0), Done)];
    hide Apply, Exec, StuckPending;
    ExecNext(s, ReturnOk(0), s1, [MarkEnd(0), Write(0)]);
    ExecNext(s1, MarkEnd(0), s2, [Write(0)]);
    ExecNext(s2, Write(0), s3, []);
    ExecNone(s3);
  }

  lemma ExecNone(s: State)
    ensures Exec(s, []) == Some(s)
  {
  }

  /** The late write can be the last word: the job has succeeded, and its record says pending. */
  lemma LateWrite(workers: nat)
    requires workers >= 1
    ensures var last := Exec(Started(1, 3, workers), LATE);
            && last.Some? && StuckPending(last.value, 0)
            && last.value.finished == [Finished(Job(0, 0), Done)]
  {
    hide Exec, Apply, StuckPending, Started;
    var end := [ReturnOk(0), MarkEnd(0), Write(0)];
    var rest := [Receive(0), MarkRunning(0)] + end;
    var s := Unrecorded(workers, rest);
    var t := Taken(s, end);
    Overwritten(t);
    assert LATE == [Submit, Offer(0)] + rest;
  }

  lemma StuckStep(s: State, e: Event, next: State, id: nat)
    requires StuckPending(s, id) && Apply(s, e) == Some(next)
    ensures StuckPending(next, id)
  {
    if ByGoroutine(e) {
      GoRecords(s, e, next);
      OtherPlaces(s, e, next);
      StuckGo(s, e, next, id);
      hide Apply;
    }
  }

  lemma StuckGo(s: State, e: Event, next: State, id: nat)
    requires StuckPending(s, id) && ByGoroutine(e) && Apply(s, e) == Some(next)
    ensures e.g < |next.gs| && (Holds(next.gs[e.g]) ==> next.gs[e.g].job.id != id)
    ensures e.Spawn? ==> |next.gs| == |s.gs| + 1 && Holds(next.gs[|s.gs|]) && next.gs[|s.gs|].job.id != id
    ensures e.SendBack? ==> s.gs[e.g].job.id != id
  {
  }

  /** And it stays: nothing that happens later changes the record. */
  lemma {:induction false} StuckForever(s: State, es: seq<Event>, id: nat)
    requires StuckPending(s, id) && Exec(s, es).Some?
    ensures StuckPending(Exec(s, es).value, id)
    decreases |es|
  {
    if es != [] {
      var next := Apply(s, es[0]).value;
      StuckStep(s, es[0], next, id);
      hide Apply, StuckPending;
      StuckForever(next, es[1..], id);
    }
  }
}
