/** While the pool runs no job is lost: only a shutdown ends a worker or drops a job. */
module Losses {
  import opened Files
  import opened Sums
  import opened Pool
  import opened Attempts

  /** What needs a shutdown has not happened without one; workers never carry a retry. */
  ghost predicate Uninterrupted(s: State, workers: nat) {
    && |s.gs| >= workers
    && (!s.cancelled ==>
          && (forall i :: 0 <= i < |s.finished| ==> !s.finished[i].outcome.Dropped?)
          && forall g :: 0 <= g < workers ==> !s.gs[g].Exited?)
    && forall g :: 0 <= g < workers ==> !s.gs[g].Waiting? && !s.gs[g].Sending?
  }

  lemma UninterruptedStep(s: State, e: Event, next: State, workers: nat)
    requires Uninterrupted(s, workers) && Apply(s, e) == Some(next)
    ensures Uninterrupted(next, workers)
  {
    if ByGoroutine(e) {
      OtherPlaces(s, e, next);
      forall i | !next.cancelled && 0 <= i < |next.finished| ensures !next.finished[i].outcome.Dropped? {
        if i < |s.finished| {
          assert Ends(e) ==> next.finished[..|s.finished|][i] == s.finished[i];
        }
      }
    }
  }

  lemma {:induction false} UninterruptedExec(s: State, es: seq<Event>, workers: nat)
    requires Uninterrupted(s, workers) && Exec(s, es).Some?
    ensures Uninterrupted(Exec(s, es).value, workers)
    decreases |es|
  {
    if es != [] {
      var next := Apply(s, es[0]).value;
      UninterruptedStep(s, es[0], next, workers);
      hide Apply, Uninterrupted;
      UninterruptedExec(next, es[1..], workers);
    }
  }

  lemma AtSomePlace(s: State, id: nat)
    requires Conserved(s) && Accepted(s, id)
    ensures (exists i :: 0 <= i < |s.chan| && s.chan[i].id == id)
            || (exists g :: 0 <= g < |s.gs| && Holds(s.gs[g]) && s.gs[g].job.id == id)
            || (exists f :: f in s.finished && f.job.id == id)
  {
    assert Places(s, id) == 1;
    SumZeroIff(s.chan, QueuedIs(id));
    SumZeroIff(s.gs, HeldIs(id));
    SumZeroIff(s.finished, FinishedIs(id));
    if i :| 0 <= i < |s.chan| && QueuedIs(id)(s.chan[i]) != 0 {
    } else if g :| 0 <= g < |s.gs| && HeldIs(id)(s.gs[g]) != 0 {
      assert Holds(s.gs[g]);
    } else {
      var i :| 0 <= i < |s.finished| && FinishedIs(id)(s.finished[i]) != 0;
      assert s.finished[i] in s.finished;
    }
  }

  /**
   * In every reachable state of a pool that has not been cancelled all workers are alive, and an accepted
   * job is queued, in a goroutine's hands, has succeeded, or has failed more often than it may be retried.
   */
  lemma NothingDropped(s: State, cap: nat, maxRetries: int, workers: nat, es: seq<Event>)
    requires Reachable(s, cap, maxRetries, workers, es) && !s.cancelled
    ensures forall f :: f in s.finished ==> !f.outcome.Dropped?
    ensures |s.gs| >= workers && forall g :: 0 <= g < workers ==> !s.gs[g].Exited?
    ensures forall id :: 0 <= id < |s.calls| && Accepted(s, id) ==>
              || (exists i :: 0 <= i < |s.chan| && s.chan[i].id == id)
              || (exists g :: 0 <= g < |s.gs| && Holds(s.gs[g]) && s.gs[g].job.id == id)
              || s.calls[id].calls == s.calls[id].failures + 1
              || (s.calls[id].calls == s.calls[id].failures && s.calls[id].failures > maxRetries)
  {
    UninterruptedExec(Started(cap, maxRetries, workers), es, workers);
    ReachableAttempted(s, cap, maxRetries, workers, es);
    SettingsKept(Started(cap, maxRetries, workers), es);
    forall f | f in s.finished ensures !f.outcome.Dropped? {
      var i :| 0 <= i < |s.finished| && s.finished[i] == f;
    }
    forall id | 0 <= id < |s.calls| && Accepted(s, id)
      ensures || (exists i :: 0 <= i < |s.chan| && s.chan[i].id == id)
              || (exists g :: 0 <= g < |s.gs| && Holds(s.gs[g]) && s.gs[g].job.id == id)
              || s.calls[id].calls == s.calls[id].failures + 1
              || (s.calls[id].calls == s.calls[id].failures && s.calls[id].failures > maxRetries)
    {
      AtSomePlace(s, id);
      if f :| f in s.finished && f.job.id == id {
        var i :| 0 <= i < |s.finished| && s.finished[i] == f;
        assert FinishedOk(s.calls, s.maxRetries, s.finished[i]);
      }
    }
  }

  /** A pool is cancelled by its shutdown and by nothing else. */
  lemma {:induction false} CancelledIff(s: State, es: seq<Event>)
    requires Exec(s, es).Some?
    ensures Exec(s, es).value.cancelled <==> s.cancelled || exists k :: 0 <= k < |es| && es[k].Cancel?
    decreases |es|
  {
    if es != [] {
      var next := Apply(s, es[0]).value;
      assert next.cancelled <==> s.cancelled || es[0].Cancel?;
      hide Apply;
      CancelledIff(next, es[1..]);
      if k :| 0 <= k < |es| && es[k].Cancel? {
        assert k == 0 || es[1..][k - 1].Cancel?;
      }
      if k :| 0 <= k < |es[1..]| && es[1..][k].Cancel? {
        assert es[k + 1].Cancel?;
      }
    }
  }

  /**
   * A call is refused exactly when the channel is full, and an accepted job goes to its end; so does a
   * retry, which waits for room. In one step or in two, the outcome is the same.
   */
  lemma RefusedIffFull(s: State, cap: nat, maxRetries: int, workers: nat, es: seq<Event>, e: Event)
    requires Reachable(s, cap, maxRetries, workers, es) && Apply(s, e).Some?
    ensures var next := Apply(s, e).value;
            && (e.Offer? || e.Enqueue? ==>
                  var c := if e.Offer? then e.c else |s.calls|;
                  && c < |next.calls|
                  && (|s.chan| == cap ==> !Accepted(next, c) && next.chan == s.chan)
                  && (|s.chan| < cap ==> Accepted(next, c) && next.chan == s.chan + [Job(c, 0)]))
            && (e.SendBack? ==> |s.chan| < cap && Holds(s.gs[e.g]) && next.chan == s.chan + [s.gs[e.g].job])
  {
    ChannelBounded(Started(cap, maxRetries, workers), es);
  }
}
