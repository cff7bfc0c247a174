/** How often a source commit appears in the encrypted history when no job is stopped half-way. */
module Once {
  import opened Files
  import opened Trailer
  import opened History
  import opened RevList
  import opened Mirror

  /** The sources mirrored so far followed by those the running job still has to do. */
  function Full(r: Repo): seq<Hash> {
    Sources(r.log) + if r.run.Running? then r.run.todo else []
  }

  function LastOf(l: seq<Hash>): Hash
    requires l != []
  {
    l[|l| - 1]
  }

  /** The messages of these commits let the appended trailer be read back. */
  ghost predicate Vocal(g: Graph, s: set<Hash>) {
    forall h :: h in s && h in g ==> Legible(g[h].message)
  }

  /** The targets of the jobs of a run, in order. */
  function TargetsOf(es: seq<Event>): (ts: seq<Hash>)
    ensures forall t :: t in ts <==> exists i :: 0 <= i < |es| && es[i].Begin? && es[i].target == t
  {
    if es == [] then []
    else
      assert forall i :: 0 < i < |es| ==> es[i] == es[1..][i - 1];
      (if es[0].Begin? then [es[0].target] else []) + TargetsOf(es[1..])
  }

  ghost predicate NeverStopped(es: seq<Event>) {
    forall i :: 0 <= i < |es| ==> !es[i].Stop?
  }

  lemma VocalResume(r: Repo)
    requires Safe(r) && r.log != [] && Vocal(r.graph, {LastOf(Sources(r.log))})
    ensures ResumePoint(r.log) == LastOf(Sources(r.log)) && ResumePoint(r.log) in r.graph && ResumePoint(r.log) != ""
  {
    var last := r.log[|r.log| - 1];
    assert EntryOk(r.graph, last) && SaneCommit(r.graph, last.source);
    ResumePointIs(r.graph, r.log);
  }

  /** Apart from starting and stopping a job, no step changes the full list. */
  lemma FullStable(r: Repo, e: Event, next: Repo)
    requires Sane(r.graph) && Apply(r, e) == Some(next) && !e.Begin? && !e.Stop?
    ensures Full(next) == Full(r)
  {
    if e.CommitAll? {
      var h := r.run.todo[0];
      assert Sources(next.log) == Sources(r.log) + [h];
      assert r.run.todo == [h] + next.run.todo;
    }
  }

  // ---------------------------------------------------------------- one run

  /**
   * A run repeats no commit if and only if every mirrored ancestor of its target is an ancestor of
   * the resume point.
   */
  lemma RunRepeatsNothingIff(r: Repo, from: Repo, es: seq<Event>, target: Hash, recipients: set<string>, todo: seq<Hash>)
    requires Reachable(r, from, es) && NoDup(Sources(r.log))
    requires Apply(r, Begin(target, recipients, todo)).Some?
    ensures NoDup(Sources(r.log) + todo) <==>
            forall h :: h in Sources(r.log) && h in Ancestors(r.graph, target) ==> h in Known(r.graph, ResumePoint(r.log))
  {
    WalkedLists(r.graph, ResumePoint(r.log), target, todo);
    NoDupConcatIff(Sources(r.log), todo);
  }

  lemma NoDupConcatIff(a: seq<Hash>, b: seq<Hash>)
    ensures NoDup(a + b) <==> NoDup(a) && NoDup(b) && forall h :: h in a ==> h !in b
  {
    if NoDup(a + b) {
      assert forall i :: 0 <= i < |a| ==> (a + b)[i] == a[i];
      assert forall j :: 0 <= j < |b| ==> (a + b)[|a| + j] == b[j];
      forall h | h in a ensures h !in b {
        var i :| 0 <= i < |a| && a[i] == h;
      }
    }
    if NoDup(a) && NoDup(b) && forall h :: h in a ==> h !in b {
      forall i, j | 0 <= i < j < |a + b| ensures (a + b)[i] != (a + b)[j] {
        if i < |a| <= j {
          assert b[j - |a|] in b && a[i] in a;
        }
      }
    }
  }

  /**
   * What a finished run leaves at the head of the history is the job's own target exactly when the
   * target was not already covered, or was the head before.
   */
  lemma HeadIsTargetIff(r: Repo, from: Repo, es: seq<Event>, target: Hash, recipients: set<string>, todo: seq<Hash>)
    requires Reachable(r, from, es) && (r.log != [] ==> Vocal(r.graph, {LastOf(Sources(r.log))}))
    requires Apply(r, Begin(target, recipients, todo)).Some?
    ensures var all := Sources(r.log) + todo;
            && all != []
            && (LastOf(all) == target <==>
                target !in Known(r.graph, ResumePoint(r.log)) || LastOf(Sources(r.log)) == target)
  {
    ReachableSafe(r, from, es);
    if r.log != [] {
      VocalResume(r);
    }
    WalkedLists(r.graph, ResumePoint(r.log), target, todo);
    if todo == [] {
      assert Sources(r.log) + todo == Sources(r.log);
    }
  }

  // ---------------------------------------------------------------- what a sequence of targets leads to

  /** `h` is an ancestor of one of the targets. */
  ghost predicate Under(g: Graph, ts: seq<Hash>, h: Hash)
    requires Dag(g)
  {
    exists j :: 0 <= j < |ts| && ts[j] in g && h in Ancestors(g, ts[j])
  }

  ghost predicate Below(g: Graph, top: Hash, h: Hash)
    requires Dag(g)
  {
    top in g && h in Ancestors(g, top)
  }

  /** `h` is an ancestor of a commit at the head from which the next job can resume. */
  ghost predicate BelowHead(g: Graph, head: Hash, h: Hash)
    requires Dag(g)
  {
    Below(g, head, h) && Legible(g[head].message)
  }

  /** The target the history ends at: the last one that was not below the head before it. */
  ghost function HeadOf(g: Graph, ts: seq<Hash>): Hash
    requires Dag(g)
    decreases |ts|
  {
    if ts == [] then ""
    else
      var n := |ts| - 1;
      if n > 0 && BelowHead(g, HeadOf(g, ts[..n]), ts[n]) then HeadOf(g, ts[..n]) else ts[n]
  }

  /** What a target shares with the ones before it is all below the head they left. */
  ghost predicate NestedAt(g: Graph, ts: seq<Hash>, k: nat)
    requires Dag(g) && k < |ts|
  {
    forall h :: Below(g, ts[k], h) && Under(g, ts[..k], h) ==> BelowHead(g, HeadOf(g, ts[..k]), h)
  }

  ghost predicate Nested(g: Graph, ts: seq<Hash>)
    requires Dag(g)
  {
    forall k {:trigger NestedAt(g, ts, k)} :: 0 <= k < |ts| ==> NestedAt(g, ts, k)
  }

  /** A full list is what these targets, mirrored in this order, lead to. */
  ghost predicate Tally(g: Graph, full: seq<Hash>, ts: seq<Hash>)
    requires Dag(g)
  {
    && (forall t :: t in ts ==> t in g)
    && (forall h :: h in full <==> Under(g, ts, h))
    && (full == [] <==> ts == [])
    && (ts != [] ==> LastOf(full) == HeadOf(g, ts) && HeadOf(g, ts) in ts)
    && (NoDup(full) <==> Nested(g, ts))
  }

  lemma UnderNext(g: Graph, ts: seq<Hash>, t: Hash, h: Hash)
    requires Dag(g)
    ensures Under(g, ts + [t], h) <==> Under(g, ts, h) || Below(g, t, h)
  {
    var more := ts + [t];
    if j :| 0 <= j < |ts| && ts[j] in g && h in Ancestors(g, ts[j]) {
      assert more[j] == ts[j];
    }
    if Below(g, t, h) {
      assert more[|ts|] == t;
    }
  }

  lemma NestedNext(g: Graph, ts: seq<Hash>, t: Hash)
    requires Dag(g)
    ensures Nested(g, ts + [t]) <==>
            Nested(g, ts) && forall h :: Below(g, t, h) && Under(g, ts, h) ==> BelowHead(g, HeadOf(g, ts), h)
  {
    var more := ts + [t];
    forall k | 0 <= k < |ts| ensures NestedAt(g, more, k) <==> NestedAt(g, ts, k) {
      assert more[..k] == ts[..k];
    }
    assert more[..|ts|] == ts && more[|ts|] == t;
    assert NestedAt(g, more, |ts|) <==> forall h :: Below(g, t, h) && Under(g, ts, h) ==> BelowHead(g, HeadOf(g, ts), h);
  }

  lemma HeadNext(g: Graph, ts: seq<Hash>, t: Hash)
    requires Dag(g)
    ensures HeadOf(g, ts + [t]) == if ts != [] && BelowHead(g, HeadOf(g, ts), t) then HeadOf(g, ts) else t
  {
    assert (ts + [t])[..|ts|] == ts;
  }

  /** Where the next job resumes. */
  ghost function ResumeAt(g: Graph, full: seq<Hash>): Hash {
    if full != [] && LastOf(full) in g && Legible(g[LastOf(full)].message) then LastOf(full) else ""
  }

  /** What the next job lists, given the head. */
  ghost predicate NextTodo(g: Graph, full: seq<Hash>, t: Hash, todo: seq<Hash>)
    requires Dag(g)
  {
    var from := ResumeAt(g, full);
    && "" !in g && t in g && (from != "" ==> from in g)
    && Enumerates(g, from, t, todo)
    && (if t in Known(g, from) then todo == [] else todo != [] && LastOf(todo) == t)
  }

  lemma TodoMembers(g: Graph, full: seq<Hash>, ts: seq<Hash>, t: Hash, todo: seq<Hash>)
    requires Dag(g) && Tally(g, full, ts) && NextTodo(g, full, t, todo)
    ensures forall h :: h in full + todo <==> Under(g, ts + [t], h)
    ensures NoDup(full + todo) <==> Nested(g, ts + [t])
  {
    var head := HeadOf(g, ts);
    forall h ensures h in todo <==> Below(g, t, h) && !(ts != [] && BelowHead(g, head, h)) {
    }
    forall h ensures h in full + todo <==> Under(g, ts + [t], h) {
      UnderNext(g, ts, t, h);
      if ts != [] && BelowHead(g, head, h) {
        var j :| 0 <= j < |ts| && ts[j] == head;
        assert Under(g, ts, h);
      }
    }
    NestedNext(g, ts, t);
    NoDupConcatIff(full, todo);
    if ts == [] {
      assert forall h :: !Under(g, ts, h);
    }
  }

  lemma TodoHead(g: Graph, full: seq<Hash>, ts: seq<Hash>, t: Hash, todo: seq<Hash>)
    requires Dag(g) && Tally(g, full, ts) && NextTodo(g, full, t, todo)
    ensures full + todo != [] && LastOf(full + todo) == HeadOf(g, ts + [t]) && HeadOf(g, ts + [t]) in ts + [t]
  {
    HeadNext(g, ts, t);
    hide Under, Nested, Enumerates, HeadOf, NoDup, Legible;
    if todo == [] {
      assert full + todo == full;
    } else {
      assert LastOf(full + todo) == LastOf(todo);
    }
  }

  lemma TallyNext(g: Graph, full: seq<Hash>, ts: seq<Hash>, t: Hash, todo: seq<Hash>)
    requires Dag(g) && Tally(g, full, ts) && NextTodo(g, full, t, todo)
    ensures Tally(g, full + todo, ts + [t])
  {
    TodoMembers(g, full, ts, t, todo);
    TodoHead(g, full, ts, t, todo);
    hide Under, Nested, Enumerates, HeadOf, NoDup, Legible, ResumeAt, LastOf;
  }

  // ---------------------------------------------------------------- uninterrupted runs

  lemma EnumeratesStable(g: Graph, bigger: Graph, from: Hash, to: Hash, l: seq<Hash>)
    requires Dag(g) && Dag(bigger) && Extends(g, bigger) && to in g && (from != "" ==> from in g)
    requires Enumerates(g, from, to, l)
    ensures Enumerates(bigger, from, to, l) && Known(bigger, from) == Known(g, from)
  {
    AncestorsStable(g, bigger, to);
    if from != "" {
      AncestorsStable(g, bigger, from);
    }
  }

  ghost predicate OnTally(r: Repo, g: Graph, ts: seq<Hash>)
    requires Dag(g)
  {
    Extends(r.graph, g) && Tally(g, Full(r), ts) && forall t :: t in ts ==> t in r.graph
  }

  lemma NamesNotEmpty(g: Graph)
    requires Sane(g)
    ensures "" !in g
  {
    forall h | h in g ensures h != "" {
      assert SaneCommit(g, h);
    }
  }

  /** The resume point of a sound history, from the commits it mirrors. */
  lemma ResumesAt(g: Graph, log: seq<LogEntry>)
    requires Sane(g) && forall i :: 0 <= i < |log| ==> EntryOk(g, log[i])
    ensures ResumePoint(log) == ResumeAt(g, Sources(log)) && (log != [] ==> LastOf(Sources(log)) in g)
  {
    if log != [] {
      assert EntryOk(g, log[|log| - 1]);
      ResumePointIs(g, log);
    }
  }

  /** A job that begins resumes at the end of the full list, if that can be read back. */
  lemma BeginFrom(r: Repo, e: Event, g: Graph, full: seq<Hash>)
    requires Safe(r) && e.Begin? && Apply(r, e).Some? && full == Sources(r.log)
    requires Sane(g) && Extends(r.graph, g)
    ensures e.target in r.graph && ResumePoint(r.log) == ResumeAt(g, full) && "" !in g
    ensures full != [] ==> LastOf(full) in r.graph
    ensures Resumable(r.graph, r.log) && Walked(r.graph, ResumePoint(r.log), e.target, e.todo)
  {
    assert |full| == |r.log|;
    NamesNotEmpty(g);
    assert forall i :: 0 <= i < |r.log| ==> EntryOk(r.graph, r.log[i]);
    hide EntryOk, SaneCommit, StageOk, RemoteOk, Legible;
    ResumesAt(r.graph, r.log);
  }

  lemma BeginTodo(r: Repo, e: Event, g: Graph, full: seq<Hash>)
    requires Safe(r) && e.Begin? && Apply(r, e).Some? && full == Sources(r.log)
    requires Sane(g) && Extends(r.graph, g)
    ensures NextTodo(g, full, e.target, e.todo)
  {
    assert Sane(r.graph);
    BeginFrom(r, e, g, full);
    hide Safe, Apply, SaneCommit, ResumePoint;
    WalkedLists(r.graph, ResumePoint(r.log), e.target, e.todo);
    EnumeratesStable(r.graph, g, ResumePoint(r.log), e.target, e.todo);
  }

  lemma BeginEffect(r: Repo, e: Event, next: Repo)
    requires Sane(r.graph) && e.Begin? && Apply(r, e) == Some(next)
    ensures next.graph == r.graph && Full(r) == Sources(r.log) && Full(next) == Full(r) + e.todo && e.target in r.graph
  {
    assert Sources(r.log) + [] == Sources(r.log);
  }

  lemma TallyBegin(r: Repo, e: Event, next: Repo, g: Graph, ts: seq<Hash>)
    requires Safe(r) && Sane(g) && OnTally(r, g, ts) && Apply(r, e) == Some(next) && e.Begin?
    ensures OnTally(next, g, ts + [e.target])
  {
    BeginEffect(r, e, next);
    var full := Full(r);
    BeginTodo(r, e, g, full);
    hide Safe, Tally, SaneCommit, Apply, NextTodo, Full;
    TallyNext(g, full, ts, e.target, e.todo);
  }

  lemma TallyOther(r: Repo, e: Event, next: Repo, g: Graph, ts: seq<Hash>)
    requires Sane(r.graph) && Sane(g) && OnTally(r, g, ts) && Apply(r, e) == Some(next) && !e.Begin? && !e.Stop?
    requires Extends(next.graph, g)
    ensures OnTally(next, g, ts)
  {
    FullStable(r, e, next);
    StepGrows(r, e);
    hide Apply, Tally;
  }

  /** One step of an uninterrupted run, given that the rest of it can be taken. */
  lemma TallyStep(r: Repo, e: Event, next: Repo, g: Graph, ts: seq<Hash>)
    requires Safe(r) && Sane(g) && OnTally(r, g, ts) && Apply(r, e) == Some(next) && !e.Stop?
    requires Extends(next.graph, g)
    ensures OnTally(next, g, ts + if e.Begin? then [e.target] else [])
  {
    assert Sane(r.graph);
    hide Safe, OnTally, Apply, SaneCommit;
    if e.Begin? {
      TallyBegin(r, e, next, g, ts);
    } else {
      assert ts + [] == ts;
      TallyOther(r, e, next, g, ts);
    }
  }

  lemma TargetsNext(es: seq<Event>, ts: seq<Hash>)
    requires es != []
    ensures (ts + if es[0].Begin? then [es[0].target] else []) + TargetsOf(es[1..]) == ts + TargetsOf(es)
  {
  }

  lemma {:induction false} TallyExec(r: Repo, es: seq<Event>, last: Repo, ts: seq<Hash>)
    requires Safe(r) && NeverStopped(es) && Exec(r, es) == Some(last) && Sane(last.graph)
    requires OnTally(r, last.graph, ts)
    ensures OnTally(last, last.graph, ts + TargetsOf(es))
    decreases |es|
  {
    assert Sane(r.graph);
    if es == [] {
      assert ts + TargetsOf(es) == ts;
    } else {
      assert !es[0].Stop? && NeverStopped(es[1..]);
      hide Apply, Safe, OnTally, TargetsOf, NeverStopped, SaneCommit;
      var next := Apply(r, es[0]).value;
      var more := ts + if es[0].Begin? then [es[0].target] else [];
      TargetsNext(es, ts);
      ExecGrows(next, es[1..]);
      StepSafe(r, es[0], next);
      TallyStep(r, es[0], next, last.graph, ts);
      TallyExec(next, es[1..], last, more);
    }
  }

  /**
   * Uninterrupted jobs, for whatever targets: the encrypted history holds the ancestors of the targets
   * and nothing else, ends at the last target that was not already below the head, and repeats no commit
   * if and only if what each target shares with earlier ones was below the head they left. Nothing is
   * below a head whose message hides its trailer.
   */
  lemma RepeatsNothingIff(r: Repo, from: Repo, es: seq<Event>)
    requires Reachable(r, from, es) && NeverStopped(es) && r.run.Idle?
    ensures Sane(r.graph)
    ensures NoDup(Sources(r.log)) <==> Nested(r.graph, TargetsOf(es))
    ensures forall h :: h in Sources(r.log) <==> Under(r.graph, TargetsOf(es), h)
    ensures TargetsOf(es) != [] ==> r.log != [] && LastOf(Sources(r.log)) == HeadOf(r.graph, TargetsOf(es))
  {
    ExecGrows(from, es);
    assert Full(from) == [];
    assert [] + TargetsOf(es) == TargetsOf(es);
    assert Nested(r.graph, []) && forall h :: !Under(r.graph, [], h);
    TallyExec(from, es, r, []);
    assert Full(r) == Sources(r.log);
    assert |Sources(r.log)| == |r.log|;
  }

  // ---------------------------------------------------------------- targets on one chain

  ghost predicate OnChain(g: Graph, ts: seq<Hash>)
    requires Dag(g)
  {
    forall i, j :: 0 <= i < |ts| && 0 <= j < |ts| ==> Below(g, ts[i], ts[j]) || Below(g, ts[j], ts[i])
  }

  lemma BelowTransitive(g: Graph, a: Hash, b: Hash, c: Hash)
    requires Dag(g) && Below(g, a, b) && Below(g, b, c)
    ensures Below(g, a, c)
  {
    AncestorsTransitive(g, a, b);
  }

  /** `head` is one of the targets, and the others are below it. */
  ghost predicate Tops(g: Graph, ts: seq<Hash>, head: Hash)
    requires Dag(g)
  {
    head in ts && head in g && forall i :: 0 <= i < |ts| ==> Below(g, head, ts[i])
  }

  lemma TopsNext(g: Graph, ts: seq<Hash>, head: Hash, t: Hash)
    requires Dag(g) && Tops(g, ts, head) && (Below(g, head, t) || Below(g, t, head))
    ensures Tops(g, ts + [t], if Below(g, head, t) then head else t)
  {
    if !Below(g, head, t) {
      assert Below(g, t, t);
      hide Below;
      forall i | 0 <= i < |ts| ensures Below(g, t, ts[i]) {
        BelowTransitive(g, t, head, ts[i]);
      }
    }
  }

  lemma ChainInit(g: Graph, init: seq<Hash>, t: Hash)
    requires Dag(g) && OnChain(g, init + [t]) && Vocal(g, Members(init + [t]))
    ensures OnChain(g, init) && Vocal(g, Members(init)) && Below(g, t, t)
    ensures forall head :: head in init ==> Legible(g[head].message) && (Below(g, head, t) || Below(g, t, head))
  {
    var ts := init + [t];
    assert ts[|init|] == t && forall i :: 0 <= i < |init| ==> ts[i] == init[i] && ts[i] in Members(ts);
    forall i | 0 <= i < |init| ensures Below(g, init[i], t) || Below(g, t, init[i]) {
      assert Below(g, ts[i], ts[|init|]) || Below(g, ts[|init|], ts[i]);
    }
  }

  lemma {:induction false} ChainHead(g: Graph, ts: seq<Hash>)
    requires Dag(g) && OnChain(g, ts) && ts != [] && Vocal(g, Members(ts))
    ensures Tops(g, ts, HeadOf(g, ts))
    decreases |ts|
  {
    var n := |ts| - 1;
    var init, t := ts[..n], ts[n];
    assert ts == init + [t];
    ChainInit(g, init, t);
    hide OnChain, Vocal, Legible;
    HeadNext(g, init, t);
    if n > 0 {
      ChainHead(g, init);
      hide Below, HeadOf;
      TopsNext(g, init, HeadOf(g, init), t);
    } else {
      hide HeadOf;
    }
  }

  lemma ChainNested(g: Graph, ts: seq<Hash>)
    requires Dag(g) && OnChain(g, ts) && Vocal(g, Members(ts))
    ensures Nested(g, ts)
  {
    forall k | 0 <= k < |ts| ensures NestedAt(g, ts, k) {
      var init := ts[..k];
      if k > 0 {
        assert forall i :: 0 <= i < k ==> init[i] == ts[i];
        assert Vocal(g, Members(init));
        ChainHead(g, init);
        assert HeadOf(g, init) in Members(init);
        forall h | Under(g, init, h) ensures BelowHead(g, HeadOf(g, init), h) {
          var j :| 0 <= j < |init| && init[j] in g && h in Ancestors(g, init[j]);
          AncestorsTransitive(g, HeadOf(g, init), init[j]);
        }
      }
    }
  }

  /**
   * Exactly once: if no job is stopped half-way and all targets lie on one ancestor chain, in whatever
   * order they come, the encrypted history lists each ancestor of one of the targets once and nothing
   * else, and that target is a descendant of all the others.
   */
  lemma ExactlyOnce(r: Repo, from: Repo, es: seq<Event>)
    requires Reachable(r, from, es) && NeverStopped(es) && r.run.Idle? && TargetsOf(es) != []
    requires Sane(r.graph) && Vocal(r.graph, Members(TargetsOf(es))) && OnChain(r.graph, TargetsOf(es))
    ensures r.log != [] && NoDup(Sources(r.log))
    ensures var top := LastOf(Sources(r.log));
            && top in TargetsOf(es) && top in r.graph
            && (forall t :: t in TargetsOf(es) ==> t in Ancestors(r.graph, top))
            && forall h :: h in Sources(r.log) <==> h in Ancestors(r.graph, top)
  {
    var g, ts := r.graph, TargetsOf(es);
    RepeatsNothingIff(r, from, es);
    ChainNested(g, ts);
    ChainHead(g, ts);
    TopsUnder(g, ts, HeadOf(g, ts));
    hide Nested, OnChain, Vocal, HeadOf, Under;
  }

  /** Below the targets is what is below the one above the others. */
  lemma TopsUnder(g: Graph, ts: seq<Hash>, top: Hash)
    requires Dag(g) && Tops(g, ts, top)
    ensures forall h :: Under(g, ts, h) <==> h in Ancestors(g, top)
  {
    forall h ensures Under(g, ts, h) <==> h in Ancestors(g, top) {
      if Under(g, ts, h) {
        var j :| 0 <= j < |ts| && ts[j] in g && h in Ancestors(g, ts[j]);
        AncestorsTransitive(g, top, ts[j]);
      }
      var k :| 0 <= k < |ts| && ts[k] == top;
    }
  }
}
