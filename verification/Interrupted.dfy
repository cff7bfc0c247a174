/** Runs that are stopped anywhere and resumed, on a linear history. */
module Interrupted {
  import opened Files
  import opened Decryption
  import opened History
  import opened RevList
  import opened Mirror
  import opened Once

  lemma {:induction false} ChainStable(g: Graph, bigger: Graph, h: Hash)
    requires Dag(g) && Dag(bigger) && Extends(g, bigger) && Linear(bigger) && h in g
    ensures ChainTo(bigger, h) == ChainTo(g, h)
    decreases g[h].gen
  {
    if g[h].parents != {} {
      var p := ChainStep(g, h);
      var q := ChainStep(bigger, h);
      assert p == q;
      ChainStable(g, bigger, p);
    }
  }

  /** On a linear history two ancestors of one commit are comparable. */
  lemma {:induction false} LinearComparable(g: Graph, h: Hash, a: Hash, b: Hash)
    requires Dag(g) && Linear(g) && h in g && a in Ancestors(g, h) && b in Ancestors(g, h)
    ensures a in g && b in g && (a in Ancestors(g, b) || b in Ancestors(g, a))
    decreases g[h].gen
  {
    AncestorsTransitive(g, h, a);
    AncestorsTransitive(g, h, b);
    if a != h && b != h {
      var p :| p in g[h].parents && a in Ancestors(g, p);
      var q :| q in g[h].parents && b in Ancestors(g, q);
      assert p == q;
      LinearComparable(g, p, a, b);
    }
  }

  ghost predicate IsChain(g: Graph, l: seq<Hash>)
    requires Dag(g)
  {
    l != [] ==> LastOf(l) in g && l == ChainTo(g, LastOf(l))
  }

  /** The full list is a chain of ancestors of `top`, a commit of a graph that may be fetched later. */
  ghost predicate ChainInv(r: Repo, g: Graph, top: Hash)
    requires Dag(r.graph) && Dag(g) && top in g
  {
    && IsChain(r.graph, Full(r))
    && forall h :: h in Full(r) ==> h in Ancestors(g, top)
  }

  lemma ChainCut(g: Graph, l: seq<Hash>, n: nat)
    requires Dag(g) && Linear(g) && IsChain(g, l) && n <= |l|
    ensures IsChain(g, l[..n])
  {
    if n > 0 {
      ChainPrefix(g, LastOf(l), n);
    }
  }

  lemma ChainBegin(g: Graph, full: seq<Hash>, from: Hash, target: Hash, todo: seq<Hash>)
    requires Dag(g) && Linear(g) && target in g && IsChain(g, full)
    requires from == (if full == [] then "" else LastOf(full)) && (full != [] ==> from != "")
    requires full != [] ==> from in Ancestors(g, target) || target in Ancestors(g, from)
    requires IsListing(g, from, target, todo)
    ensures IsChain(g, full + todo)
  {
    if full != [] && target in Ancestors(g, from) {
      NothingNew(g, from, target, todo);
      assert full + todo == full;
    } else {
      ListingIsChain(g, from, target, todo);
      ChainMembers(g, target);
      assert full + todo == ChainTo(g, target);
    }
  }

  lemma ChainBeginKeeps(r: Repo, e: Event, next: Repo, g: Graph, top: Hash)
    requires Safe(r) && e.Begin? && Apply(r, e) == Some(next)
    requires Sane(g) && top in g && ChainInv(r, g, top) && Extends(r.graph, g) && Linear(g)
    requires Vocal(g, Ancestors(g, top)) && e.target in Ancestors(g, top)
    ensures ChainInv(next, g, top)
  {
    BeginEffect(r, e, next);
    var full := Full(r);
    if full != [] {
      assert LastOf(full) in full;
    }
    BeginFrom(r, e, g, full);
    hide Safe, Apply, Vocal, SaneCommit, ResumePoint;
    var from := ResumePoint(r.log);
    LinearOrderly(r.graph, from, e.target);
    OrderlyLists(r.graph, from, e.target, e.todo);
    AncestorsStable(r.graph, g, e.target);
    if full != [] {
      LinearComparable(g, top, from, e.target);
      AncestorsStable(r.graph, g, from);
    }
    hide IsListing, Walked;
    ChainBegin(r.graph, full, from, e.target, e.todo);
    NewMembers(g, top, r.graph, from, e.target, e.todo);
  }

  lemma NewMembers(g: Graph, top: Hash, small: Graph, from: Hash, target: Hash, todo: seq<Hash>)
    requires Dag(g) && top in g && target in g && target in Ancestors(g, top)
    requires Dag(small) && target in small && (from != "" ==> from in small) && Ancestors(small, target) == Ancestors(g, target)
    requires IsListing(small, from, target, todo)
    ensures forall h :: h in todo ==> h in Ancestors(g, top)
  {
    AncestorsTransitive(g, top, target);
  }

  lemma ChainFetchKeeps(r: Repo, next: Repo, g: Graph, top: Hash)
    requires Sane(r.graph) && Sane(next.graph) && Extends(r.graph, next.graph) && Full(next) == Full(r)
    requires Dag(g) && top in g && ChainInv(r, g, top) && Linear(next.graph)
    ensures ChainInv(next, g, top)
  {
    if Full(r) != [] {
      ChainStable(r.graph, next.graph, LastOf(Full(r)));
    }
  }

  lemma ChainStopKeeps(r: Repo, next: Repo, g: Graph, top: Hash)
    requires Sane(r.graph) && next.graph == r.graph && next.log == r.log && next.run.Idle?
    requires Dag(g) && top in g && ChainInv(r, g, top) && Linear(r.graph)
    ensures ChainInv(next, g, top)
  {
    ChainCut(r.graph, Full(r), |r.log|);
    assert Full(next) == Full(r)[..|r.log|];
  }

  lemma StopEffect(r: Repo, e: Event, next: Repo)
    requires Sane(r.graph) && Apply(r, e) == Some(next)
    ensures e.Stop? ==> next.graph == r.graph && next.log == r.log && next.run.Idle?
  {
  }

  lemma ChainStepKeeps(r: Repo, e: Event, next: Repo, g: Graph, top: Hash)
    requires Safe(r) && Apply(r, e) == Some(next)
    requires Sane(g) && Extends(next.graph, g) && Linear(g) && top in g && ChainInv(r, g, top)
    requires Vocal(g, Ancestors(g, top))
    requires e.Begin? ==> e.target in Ancestors(g, top)
    ensures ChainInv(next, g, top)
  {
    StepGrows(r, e);
    StopEffect(r, e, next);
    assert Sane(r.graph);
    hide ChainInv, Apply, Safe, Vocal, SaneCommit;
    if e.Begin? {
      ChainBeginKeeps(r, e, next, g, top);
    } else if e.Stop? {
      ChainStopKeeps(r, next, g, top);
    } else {
      FullStable(r, e, next);
      ChainFetchKeeps(r, next, g, top);
    }
  }

  lemma {:induction false} ChainExec(r: Repo, es: seq<Event>, g: Graph, top: Hash)
    requires Safe(r) && Exec(r, es).Some? && g == Exec(r, es).value.graph && top in g
    requires Vocal(g, Ancestors(g, top)) && Linear(g) && ChainInv(r, g, top)
    requires forall t :: t in TargetsOf(es) ==> t in Ancestors(g, top)
    ensures ChainInv(Exec(r, es).value, g, top)
    decreases |es|
  {
    if es != [] {
      assert Sane(r.graph);
      assert es[0].Begin? ==> es[0].target in TargetsOf(es);
      assert forall t :: t in TargetsOf(es[1..]) ==> t in TargetsOf(es);
      hide Safe, Apply, ChainInv, Vocal, TargetsOf, SaneCommit;
      var next := Apply(r, es[0]).value;
      ExecGrows(next, es[1..]);
      ChainStepKeeps(r, es[0], next, g, top);
      StepSafe(r, es[0], next);
      ChainExec(next, es[1..], g, top);
    }
  }

  /**
   * Exactly once, interrupted: on a linear history, runs towards ancestors of one commit may be
   * stopped anywhere and resumed; the encrypted history is always the beginning of the one
   * oldest-first list of that commit's ancestors, and all of it once the commit itself is mirrored.
   */
  lemma InterruptedOnce(r: Repo, from: Repo, es: seq<Event>, top: Hash)
    requires Reachable(r, from, es) && Sane(r.graph) && r.run.Idle? && Linear(r.graph) && top in r.graph
    requires Vocal(r.graph, Ancestors(r.graph, top))
    requires forall t :: t in TargetsOf(es) ==> t in Ancestors(r.graph, top)
    ensures Sources(r.log) <= ChainTo(r.graph, top)
    ensures top in Sources(r.log) ==> Sources(r.log) == ChainTo(r.graph, top)
  {
    assert Full(from) == [];
    ChainExec(from, es, r.graph, top);
    var l := Sources(r.log);
    assert Full(r) == l;
    if l != [] {
      var last := LastOf(l);
      assert last in l;
      ChainBelow(r.graph, last, top);
      if top in l {
        ChainMembers(r.graph, last);
        AncestorsAntisymmetric(r.graph, last, top);
      }
    }
  }

  lemma {:induction false} ChainBelow(g: Graph, a: Hash, h: Hash)
    requires Dag(g) && Linear(g) && h in g && a in Ancestors(g, h)
    ensures a in g && ChainTo(g, a) <= ChainTo(g, h)
    decreases g[h].gen
  {
    AncestorsTransitive(g, h, a);
    if a != h {
      var p := ChainStep(g, h);
      ChainBelow(g, a, p);
    }
  }

  /**
   * Crash refinement: two histories of the same linear source, however their runs were interrupted,
   * that have both mirrored `top` name the same commits in the same order and decrypt alike.
   */
  lemma CrashRefinement(r1: Repo, from1: Repo, es1: seq<Event>, r2: Repo, from2: Repo, es2: seq<Event>, top: Hash, i: nat,
                        ids1: set<string>, ids2: set<string>)
    requires Reachable(r1, from1, es1) && Reachable(r2, from2, es2) && r1.run.Idle? && r2.run.Idle?
    requires r1.graph == r2.graph && Sane(r1.graph) && Linear(r1.graph) && top in r1.graph
    requires Vocal(r1.graph, Ancestors(r1.graph, top))
    requires forall t :: t in TargetsOf(es1) || t in TargetsOf(es2) ==> t in Ancestors(r1.graph, top)
    requires top in Sources(r1.log) && top in Sources(r2.log)
    ensures Sources(r1.log) == Sources(r2.log)
    ensures i < |r1.log| && r1.log[i].recipients * ids1 != {} && r2.log[i].recipients * ids2 != {} ==>
              && DecryptInto(r1.log[i].files, map[], ids1).Some?
              && DecryptInto(r1.log[i].files, map[], ids1) == DecryptInto(r2.log[i].files, map[], ids2)
  {
    InterruptedOnce(r1, from1, es1, top);
    InterruptedOnce(r2, from2, es2, top);
    assert |r1.log| == |Sources(r1.log)| == |Sources(r2.log)| == |r2.log|;
    if i < |r1.log| && r1.log[i].recipients * ids1 != {} && r2.log[i].recipients * ids2 != {} {
      SnapshotFaithful(r1, from1, es1, i, ids1);
      SnapshotFaithful(r2, from2, es2, i, ids2);
      assert Sources(r1.log)[i] == Sources(r2.log)[i];
    }
  }
}
