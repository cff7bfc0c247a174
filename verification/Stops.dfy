/** What stopping jobs for one target anywhere, and resuming, can and cannot do to the history. */
module Stops {
  import opened Files
  import opened Trailer
  import opened History
  import opened RevList
  import opened Mirror
  import opened Once
  import opened Jobs

  /** Every job of the run is for `to`; anything may be fetched, and jobs may stop anywhere. */
  ghost predicate AimsAt(es: seq<Event>, to: Hash) {
    forall i :: 0 <= i < |es| && es[i].Begin? ==> es[i].target == to
  }

  /** A state without a job that such a run leads to. */
  ghost predicate Settled(g: Graph, to: Hash, es: seq<Event>, r: Repo) {
    Reachable(r, Fetched(g), es) && AimsAt(es, to) && r.run.Idle?
  }

  ghost predicate FullyCovered(r: Repo) {
    Dag(r.graph) && Covered(r.graph, r.log)
  }

  lemma JobsAim(g: Graph, scope: set<Hash>, keys: set<string>, es: seq<Event>, r: Repo, sources: seq<Hash>, to: Hash)
    requires HasMirrored(g, scope, keys, es, r, sources) && AimsAt(es, to)
    ensures Settled(g, to, es, r)
  {
    ResumesAtLast(g, scope, keys, es, r, sources);
    MirroredState(g, scope, keys, es, r, sources);
  }

  lemma AimsAtConcat(a: seq<Event>, b: seq<Event>, to: Hash)
    requires AimsAt(a, to) && JobsFor(b, to)
    ensures AimsAt(a + b, to)
  {
  }

  // ---------------------------------------------------------------- orderly targets stay orderly

  lemma {:induction false} PathInSmaller(g: Graph, bigger: Graph, path: seq<Hash>, k: nat)
    requires Dag(g) && Extends(g, bigger) && IsPath(bigger, path) && path[0] in g && k < |path|
    ensures path[k] in g
  {
    if k > 0 {
      PathInSmaller(g, bigger, path, k - 1);
      assert path[k] in g[path[k - 1]].parents;
    }
  }

  lemma SamePath(g: Graph, bigger: Graph, path: seq<Hash>)
    requires Dag(g) && Extends(g, bigger) && IsPath(bigger, path) && path[0] in g
    ensures IsPath(g, path)
  {
    forall k | 0 <= k < |path| ensures path[k] in g {
      PathInSmaller(g, bigger, path, k);
    }
  }

  lemma OvertakesStable(g: Graph, bigger: Graph, to: Hash, c: Hash, p: Hash)
    requires Dag(g) && Dag(bigger) && Extends(g, bigger) && to in g && Overtakes(bigger, to, c, p)
    ensures Overtakes(g, to, c, p)
  {
    var path :| Passes(bigger, to, c, p, path);
    SamePath(g, bigger, path);
    forall i, branch | Branches(g, path, i, branch, c) ensures Held(g, path, i, branch) {
      assert Branches(bigger, path, i, branch, c);
      assert Held(bigger, path, i, branch);
      var k :| Waits(bigger, path, i, branch, k);
      assert Waits(g, path, i, branch, k);
    }
    assert Passes(g, to, c, p, path);
  }

  lemma OrderlyStable(g: Graph, bigger: Graph, to: Hash)
    requires Dag(g) && Dag(bigger) && Extends(g, bigger) && to in g && Orderly(g, "", to)
    ensures Orderly(bigger, "", to)
  {
    AncestorsStable(g, bigger, to);
    AncestorsInGraph(g, to);
    hide Overtakes;
    forall c, p | c in Ancestors(bigger, to) && c in bigger && p in bigger[c].parents ensures !Overtakes(bigger, to, c, p) {
      if Overtakes(bigger, to, c, p) {
        OvertakesStable(g, bigger, to, c, p);
      }
    }
  }

  /** What is orderly from the beginning is so from any resume point. */
  lemma OrderlyResumed(g: Graph, from: Hash, to: Hash)
    requires Dag(g) && to in g && (from != "" ==> from in g) && Orderly(g, "", to)
    ensures Orderly(g, from, to)
  {
  }

  lemma OrderlyStep(r: Repo, e: Event, next: Repo, to: Hash)
    requires Sane(r.graph) && to in r.graph && Orderly(r.graph, "", to) && Apply(r, e) == Some(next)
    requires e.Begin? ==> e.target == to
    ensures Ordered(r, e) && Sane(next.graph) && to in next.graph && Orderly(next.graph, "", to)
  {
    StepGrows(r, e);
    OrderlyStable(r.graph, next.graph, to);
    if e.Begin? {
      OrderlyResumed(r.graph, ResumePoint(r.log), to);
      OrderlyLists(r.graph, ResumePoint(r.log), to, e.todo);
    }
  }

  lemma {:induction false} OrderlyRun(r: Repo, es: seq<Event>, to: Hash)
    requires Sane(r.graph) && to in r.graph && Orderly(r.graph, "", to) && Exec(r, es).Some? && AimsAt(es, to)
    ensures OrderedRun(r, es)
    decreases |es|
  {
    if es != [] {
      assert forall i :: 0 <= i < |es[1..]| ==> es[1..][i] == es[i + 1];
      hide Apply, Orderly, Ordered, Sane;
      var next := Apply(r, es[0]).value;
      OrderlyStep(r, es[0], next, to);
      OrderlyRun(next, es[1..], to);
    }
  }

  // ---------------------------------------------------------------- coverage

  lemma OrderlyCovers(g: Graph, to: Hash, es: seq<Event>, r: Repo)
    requires Sane(g) && to in g && Orderly(g, "", to) && Settled(g, to, es, r)
    ensures FullyCovered(r)
  {
    hide Orderly;
    OrderlyRun(Fetched(g), es, to);
    ReachableInv(r, Fetched(g), es);
  }

  lemma FirstListing(g: Graph, to: Hash, l: seq<Hash>)
    requires Dag(g) && to in g && Walked(g, "", to, l)
    ensures NextListing(g, Ancestors(g, to), [], to, l)
  {
  }

  /** The first job for `to`, stopped after `n` commits. */
  lemma StoppedAfter(g: Graph, to: Hash, keys: set<string>, l: seq<Hash>, n: nat) returns (es: seq<Event>, r: Repo)
    requires Dag(g) && to in g && CanMirrorAll(g, Ancestors(g, to), keys) && Walked(g, "", to, l) && n <= |l|
    ensures HasMirrored(g, Ancestors(g, to), keys, es, r, l[..n]) && AimsAt(es, to)
  {
    hide HasMirrored, NextListing, CanMirrorAll, Walked, Ancestors;
    FirstListing(g, to, l);
    NothingMirrored(g, Ancestors(g, to), keys);
    es, r := JobMirrors(g, Ancestors(g, to), keys, [], Fetched(g), [], to, l, n);
    assert [] + es == es && [] + l[..n] == l[..n];
  }

  lemma MissingUncovered(g: Graph, r: Repo, h: Hash, a: Hash)
    requires Dag(g) && r.graph == g && ResumePoint(r.log) == h && h != "" && h in g
    requires a in Ancestors(g, h) && a !in Sources(r.log)
    ensures !FullyCovered(r)
  {
  }

  lemma NotYetListed(g: Graph, to: Hash, l: seq<Hash>, i: nat, j: nat)
    requires Dag(g) && to in g && Walked(g, "", to, l) && i < j < |l|
    ensures l[j] !in l[..i + 1]
  {
    WalkedLists(g, "", to, l);
    hide Walked, Ancestors;
  }

  /** Stopped after a commit listed before one of its ancestors, it leaves that ancestor out. */
  lemma StoppedUncovered(g: Graph, to: Hash, keys: set<string>, l: seq<Hash>, i: nat, j: nat) returns (es: seq<Event>, r: Repo)
    requires Disordered(g, to, keys, l, i, j)
    ensures Settled(g, to, es, r) && !FullyCovered(r)
  {
    hide Walked, CanMirrorAll, Ancestors, HasMirrored, Settled, FullyCovered, AimsAt, Dag;
    es, r := StoppedAfter(g, to, keys, l, i + 1);
    StoppedThere(g, to, keys, l, i, j, es, r);
  }

  /** A listing of `to`, all of whose ancestors can be mirrored, with the j-th commit an ancestor of the earlier i-th. */
  ghost predicate Disordered(g: Graph, to: Hash, keys: set<string>, l: seq<Hash>, i: nat, j: nat) {
    && Dag(g) && to in g && CanMirrorAll(g, Ancestors(g, to), keys)
    && Walked(g, "", to, l) && i < j < |l| && l[i] in g && l[j] in Ancestors(g, l[i])
  }

  lemma StoppedThere(g: Graph, to: Hash, keys: set<string>, l: seq<Hash>, i: nat, j: nat, es: seq<Event>, r: Repo)
    requires Disordered(g, to, keys, l, i, j)
    requires HasMirrored(g, Ancestors(g, to), keys, es, r, l[..i + 1]) && AimsAt(es, to)
    ensures Settled(g, to, es, r) && !FullyCovered(r)
  {
    hide HasMirrored, CanMirrorAll, Walked, Ancestors, Settled, FullyCovered, AimsAt, Dag;
    NotYetListed(g, to, l, i, j);
    JobsAim(g, Ancestors(g, to), keys, es, r, l[..i + 1], to);
    LeavesOut(g, Ancestors(g, to), keys, es, r, l[..i + 1], l[j]);
  }

  lemma LeavesOut(g: Graph, scope: set<Hash>, keys: set<string>, es: seq<Event>, r: Repo, done: seq<Hash>, a: Hash)
    requires Dag(g) && HasMirrored(g, scope, keys, es, r, done) && done != [] && LastOf(done) in g
    requires a in Ancestors(g, LastOf(done)) && a !in done
    ensures !FullyCovered(r)
  {
    hide HasMirrored, Ancestors, FullyCovered, Reachable, Resumable;
    ResumesAtLast(g, scope, keys, es, r, done);
    MirroredState(g, scope, keys, es, r, done);
    NamesNotEmpty(g);
    hide Sane;
    MissingUncovered(g, r, LastOf(done), a);
  }

  lemma DisorderedAt(g: Graph, to: Hash, keys: set<string>) returns (l: seq<Hash>, i: nat, j: nat)
    requires Dag(g) && to in g && CanMirrorAll(g, Ancestors(g, to), keys) && !Orderly(g, "", to)
    ensures Disordered(g, to, keys, l, i, j)
  {
    hide Orderly, CanMirrorAll;
    l := DisorderlyLists(g, "", to);
    WalkedLists(g, "", to, l);
    AncestorsInGraph(g, to);
    assert forall i :: 0 <= i < |l| ==> l[i] in l;
    hide Walked, Ancestors;
    i, j :| 0 <= i < j < |l| && l[j] in Ancestors(g, l[i]);
  }

  /**
   * On a fresh repository whose ancestors of `to` can all be mirrored: every history that jobs for `to`
   * can leave, stopped anywhere and resumed any number of times, is covered if and only if `to` is orderly.
   */
  lemma CoveredIffOrderly(g: Graph, to: Hash, keys: set<string>)
    requires Dag(g) && to in g && CanMirrorAll(g, Ancestors(g, to), keys)
    ensures Orderly(g, "", to) <==> forall es, r :: Settled(g, to, es, r) ==> FullyCovered(r)
  {
    hide Settled, FullyCovered, Orderly;
    assert Sane(g);
    if Orderly(g, "", to) {
      forall es, r | Settled(g, to, es, r) ensures FullyCovered(r) {
        OrderlyCovers(g, to, es, r);
      }
    } else {
      var l, i, j := DisorderedAt(g, to, keys);
      hide Disordered;
      var es, r := StoppedUncovered(g, to, keys, l, i, j);
    }
  }

  // ---------------------------------------------------------------- repetition

  /** Of any two ancestors of `top` one is an ancestor of the other. */
  ghost predicate Comparable(g: Graph, top: Hash)
    requires Dag(g) && top in g
  {
    forall a, b :: a in Ancestors(g, top) && b in Ancestors(g, top) ==> Below(g, b, a) || Below(g, a, b)
  }

  /** Each beginning of the list has exactly the ancestors of its last commit, once each. */
  ghost predicate Tower(g: Graph, l: seq<Hash>)
    requires Dag(g)
  {
    NoDup(l) && forall m {:trigger Level(g, l, m)} :: 0 <= m < |l| ==> Level(g, l, m)
  }

  ghost predicate Level(g: Graph, l: seq<Hash>, m: nat)
    requires Dag(g) && m < |l|
  {
    l[m] in g && forall h :: h in l[..m + 1] <==> h in Ancestors(g, l[m])
  }

  lemma TowerCut(g: Graph, l: seq<Hash>, n: nat)
    requires Dag(g) && Tower(g, l) && n <= |l|
    ensures Tower(g, l[..n])
  {
    forall m | 0 <= m < n ensures Level(g, l[..n], m) {
      assert Level(g, l, m);
      assert l[..n][..m + 1] == l[..m + 1];
    }
  }

  lemma TowerStable(g: Graph, bigger: Graph, l: seq<Hash>)
    requires Dag(g) && Dag(bigger) && Extends(g, bigger) && Tower(g, l)
    ensures Tower(bigger, l)
  {
    forall m | 0 <= m < |l| ensures Level(bigger, l, m) {
      assert Level(g, l, m);
      AncestorsStable(g, bigger, l[m]);
    }
  }

  /** What is known at the end of a tower is the tower. */
  lemma TowerKnown(g: Graph, l: seq<Hash>)
    requires Dag(g) && Tower(g, l)
    ensures l != [] ==> LastOf(l) in g
    ensures forall h :: h in l <==> l != [] && LastOf(l) in g && h in Ancestors(g, LastOf(l))
  {
    if l != [] {
      assert Level(g, l, |l| - 1);
      assert l[..|l|] == l;
    }
  }

  /** Everything known lies below what is listed. */
  lemma KnownBelow(g: Graph, top: Hash, from: Hash, x: Hash, h: Hash)
    requires Dag(g) && top in g && Comparable(g, top) && from != "" && from in g
    requires x in Ancestors(g, top) && x !in Ancestors(g, from)
    requires h in Ancestors(g, from) && h in Ancestors(g, top)
    ensures Below(g, x, h)
  {
    assert Below(g, x, h) || Below(g, h, x);
    AncestorsTransitive(g, from, h);
  }

  /** So does everything listed earlier. */
  lemma EarlierBelow(g: Graph, top: Hash, l: seq<Hash>, i: nat, k: nat)
    requires Dag(g) && top in g && Comparable(g, top) && AncestorsFirst(g, l) && i < k < |l|
    requires l[i] in Ancestors(g, top) && l[k] in Ancestors(g, top)
    ensures Below(g, l[k], l[i])
  {
    assert Below(g, l[k], l[i]) || Below(g, l[i], l[k]);
  }

  lemma LevelUp(g: Graph, all: seq<Hash>, m: nat, x: Hash)
    requires Dag(g) && m < |all| && all[m] == x && x in g
    requires forall h :: h in Ancestors(g, x) ==> h in all[..m + 1]
    requires forall i :: 0 <= i <= m ==> all[i] in Ancestors(g, x)
    ensures Level(g, all, m)
  {
  }

  /** `todo` is a listing of `top` from `from`, and `full` has just what is known. */
  ghost predicate Onto(g: Graph, top: Hash, full: seq<Hash>, from: Hash, todo: seq<Hash>) {
    && Dag(g) && top in g && Comparable(g, top) && (from != "" ==> from in g)
    && (forall h :: h in full <==> h in Known(g, from))
    && (forall h :: h in full ==> h in Ancestors(g, top))
    && IsListing(g, from, top, todo)
  }

  lemma AboveIn(g: Graph, top: Hash, full: seq<Hash>, from: Hash, todo: seq<Hash>, k: nat, h: Hash)
    requires Onto(g, top, full, from, todo) && k < |todo| && todo[k] in g && h in Ancestors(g, todo[k])
    ensures h in full + todo[..k + 1]
  {
    OrderedPrefix(g, from, top, todo, k, h);
  }

  lemma ListedIn(g: Graph, top: Hash, full: seq<Hash>, from: Hash, todo: seq<Hash>, k: nat)
    requires Onto(g, top, full, from, todo) && k < |todo|
    ensures todo[k] in g && todo[k] in Ancestors(g, top) && todo[k] !in Known(g, from) && AncestorsFirst(g, todo)
  {
    assert todo[k] in todo;
  }

  /** What is known is below what is listed, and what is listed is below what is listed later. */
  lemma KnownIsBelow(g: Graph, top: Hash, full: seq<Hash>, from: Hash, todo: seq<Hash>, k: nat, h: Hash)
    requires Onto(g, top, full, from, todo) && k < |todo| && h in full
    ensures todo[k] in g && h in Ancestors(g, todo[k])
  {
    ListedIn(g, top, full, from, todo, k);
    hide Ancestors, Comparable, IsListing, AncestorsFirst;
    KnownBelow(g, top, from, todo[k], h);
  }

  lemma ListedIsBelow(g: Graph, top: Hash, full: seq<Hash>, from: Hash, todo: seq<Hash>, i: nat, k: nat)
    requires Onto(g, top, full, from, todo) && i <= k < |todo|
    ensures todo[k] in g && todo[i] in Ancestors(g, todo[k])
  {
    ListedIn(g, top, full, from, todo, i);
    ListedIn(g, top, full, from, todo, k);
    hide Ancestors, Comparable, IsListing, AncestorsFirst;
    if i < k {
      EarlierBelow(g, top, todo, i, k);
    } else {
      OwnAncestor(g, todo[k]);
    }
  }

  /** An ancestors-first listing goes on top of a tower. */
  lemma TowerLevel(g: Graph, top: Hash, full: seq<Hash>, from: Hash, todo: seq<Hash>, k: nat)
    requires Onto(g, top, full, from, todo) && k < |todo|
    ensures Level(g, full + todo, |full| + k)
  {
    var all, m, x := full + todo, |full| + k, todo[k];
    assert all[..m + 1] == full + todo[..k + 1];
    ListedIn(g, top, full, from, todo, k);
    assert Dag(g);
    hide Onto, Ancestors, Level, Dag, Known, AncestorsFirst;
    forall h | h in Ancestors(g, x) ensures h in all[..m + 1] {
      AboveIn(g, top, full, from, todo, k, h);
    }
    forall i | 0 <= i <= m ensures all[i] in Ancestors(g, x) {
      if i < |full| {
        KnownIsBelow(g, top, full, from, todo, k, all[i]);
      } else {
        ListedIsBelow(g, top, full, from, todo, i - |full|, k);
      }
    }
    LevelUp(g, all, m, x);
  }

  lemma OwnAncestor(g: Graph, h: Hash)
    requires Dag(g) && h in g
    ensures h in Ancestors(g, h)
  {
  }

  lemma TowerBegin(g: Graph, top: Hash, full: seq<Hash>, from: Hash, todo: seq<Hash>)
    requires Dag(g) && top in g && Comparable(g, top) && Tower(g, full)
    requires from == (if full == [] then "" else LastOf(full)) && (full != [] ==> from != "" && from in g)
    requires forall h :: h in full ==> h in Ancestors(g, top)
    requires IsListing(g, from, top, todo)
    ensures Tower(g, full + todo) && forall h :: h in full + todo ==> h in Ancestors(g, top)
  {
    TowerKnown(g, full);
    assert Onto(g, top, full, from, todo);
    hide Onto, Comparable, Tower, IsListing, Ancestors, Dag;
    OntoTower(g, top, full, from, todo);
  }

  lemma OntoTower(g: Graph, top: Hash, full: seq<Hash>, from: Hash, todo: seq<Hash>)
    requires Onto(g, top, full, from, todo) && Tower(g, full)
    ensures Tower(g, full + todo) && forall h :: h in full + todo ==> h in Ancestors(g, top)
  {
    var all := full + todo;
    assert NoDup(all) && forall h :: h in all ==> h in Ancestors(g, top) by {
      NoDupConcatIff(full, todo);
    }
    hide Onto, Tower, NoDup, Ancestors;
    forall m | 0 <= m < |all| ensures Level(g, all, m) {
      if m < |full| {
        TowerBase(g, full, todo, m);
      } else {
        TowerLevel(g, top, full, from, todo, m - |full|);
      }
    }
    TowerOf(g, all);
  }

  lemma TowerBase(g: Graph, full: seq<Hash>, todo: seq<Hash>, m: nat)
    requires Dag(g) && Tower(g, full) && m < |full|
    ensures Level(g, full + todo, m)
  {
    assert Level(g, full, m);
    assert (full + todo)[..m + 1] == full[..m + 1];
  }

  lemma TowerOf(g: Graph, l: seq<Hash>)
    requires Dag(g) && NoDup(l) && forall m :: 0 <= m < |l| ==> Level(g, l, m)
    ensures Tower(g, l)
  {
  }

  /** The full list is a tower of ancestors of `top`. */
  ghost predicate OnTower(r: Repo, top: Hash)
    requires Sane(r.graph)
  {
    && top in r.graph && Tower(r.graph, Full(r)) && forall h :: h in Full(r) ==> h in Ancestors(r.graph, top)
  }

  /** What the target has to be like for that. */
  ghost predicate Straight(g: Graph, top: Hash)
    requires Dag(g)
  {
    top in g && Comparable(g, top) && Orderly(g, "", top) && Vocal(g, Ancestors(g, top))
  }

  lemma BelowStable(g: Graph, bigger: Graph, a: Hash, h: Hash)
    requires Dag(g) && Dag(bigger) && Extends(g, bigger) && Below(g, a, h)
    ensures Below(bigger, a, h)
  {
    AncestorsStable(g, bigger, a);
  }

  lemma ComparableStable(g: Graph, bigger: Graph, top: Hash)
    requires Dag(g) && Dag(bigger) && Extends(g, bigger) && top in g && Comparable(g, top)
    ensures Comparable(bigger, top)
  {
    AncestorsStable(g, bigger, top);
    hide Below, Ancestors;
    forall a, b | a in Ancestors(g, top) && b in Ancestors(g, top) ensures Below(bigger, b, a) || Below(bigger, a, b) {
      if Below(g, b, a) {
        BelowStable(g, bigger, b, a);
      } else {
        BelowStable(g, bigger, a, b);
      }
    }
  }

  lemma StraightStable(g: Graph, bigger: Graph, top: Hash)
    requires Dag(g) && Dag(bigger) && Extends(g, bigger) && Straight(g, top)
    ensures Straight(bigger, top)
  {
    AncestorsStable(g, bigger, top);
    AncestorsInGraph(g, top);
    hide Orderly, Comparable, Ancestors;
    OrderlyStable(g, bigger, top);
    ComparableStable(g, bigger, top);
  }

  lemma TowerStepBegin(r: Repo, e: Event, next: Repo, top: Hash)
    requires Safe(r) && Straight(r.graph, top) && OnTower(r, top) && Apply(r, e) == Some(next)
    requires e.Begin? && e.target == top
    ensures Sane(next.graph) && OnTower(next, top)
  {
    BeginEffect(r, e, next);
    var g, full := r.graph, Full(r);
    BeginFrom(r, e, g, full);
    TowerKnown(g, full);
    assert full != [] ==> LastOf(full) in full;
    var from := ResumePoint(r.log);
    hide Safe, Apply, SaneCommit, Walked, ResumePoint, Tower, Comparable, Legible;
    OrderlyResumed(g, from, top);
    hide Orderly;
    OrderlyLists(g, from, top, e.todo);
    hide IsListing;
    TowerBegin(g, top, full, from, e.todo);
  }

  lemma StopCuts(r: Repo, e: Event, next: Repo)
    requires Sane(r.graph) && Apply(r, e) == Some(next) && e.Stop?
    ensures next.graph == r.graph && |r.log| <= |Full(r)| && Full(next) == Full(r)[..|r.log|]
  {
    hide Sane;
  }

  lemma TowerStepStop(r: Repo, e: Event, next: Repo, top: Hash)
    requires Sane(r.graph) && OnTower(r, top) && Apply(r, e) == Some(next) && e.Stop?
    ensures Sane(next.graph) && OnTower(next, top)
  {
    hide Apply, Tower, Ancestors, Full;
    StopCuts(r, e, next);
    TowerCut(r.graph, Full(r), |r.log|);
  }

  lemma TowerStepOther(r: Repo, e: Event, next: Repo, top: Hash)
    requires Sane(r.graph) && OnTower(r, top) && Apply(r, e) == Some(next) && !e.Begin? && !e.Stop?
    ensures Sane(next.graph) && OnTower(next, top)
  {
    FullStable(r, e, next);
    StepGrows(r, e);
    assert Sane(next.graph);
    hide Apply, Tower, Full, SaneCommit;
    AncestorsStable(r.graph, next.graph, top);
    TowerStable(r.graph, next.graph, Full(r));
  }

  lemma {:induction false} TowerRun(r: Repo, es: seq<Event>, top: Hash)
    requires Safe(r) && Straight(r.graph, top) && OnTower(r, top) && Exec(r, es).Some? && AimsAt(es, top)
    ensures OnTower(Exec(r, es).value, top)
    decreases |es|
  {
    assert Sane(r.graph);
    if es != [] {
      assert forall i :: 0 <= i < |es[1..]| ==> es[1..][i] == es[i + 1];
      assert es[0].Begin? ==> es[0].target == top;
      hide Safe, Apply, Straight, OnTower, AimsAt, SaneCommit;
      assert AimsAt(es[1..], top) by {
        AimsAtRest(es, top);
      }
      var next := Apply(r, es[0]).value;
      StepSafe(r, es[0], next);
      StepGrows(r, es[0]);
      if es[0].Begin? {
        TowerStepBegin(r, es[0], next, top);
      } else if es[0].Stop? {
        TowerStepStop(r, es[0], next, top);
      } else {
        TowerStepOther(r, es[0], next, top);
      }
      StraightStable(r.graph, next.graph, top);
      TowerRun(next, es[1..], top);
    }
  }

  lemma AimsAtRest(es: seq<Event>, to: Hash)
    requires AimsAt(es, to) && es != []
    ensures AimsAt(es[1..], to)
  {
    assert forall i :: 0 <= i < |es[1..]| ==> es[1..][i] == es[i + 1];
  }

  lemma StraightNeverRepeats(g: Graph, top: Hash, es: seq<Event>, r: Repo)
    requires Sane(g) && Straight(g, top) && Settled(g, top, es, r)
    ensures NoDup(Sources(r.log))
  {
    assert top in g && Full(Fetched(g)) == [];
    hide Straight, Orderly, SaneCommit;
    TowerRun(Fetched(g), es, top);
    assert Full(r) == Sources(r.log);
  }

  lemma SomeListing(g: Graph, from: Hash, to: Hash) returns (l: seq<Hash>)
    requires Dag(g) && to in g && (from != "" ==> from in g)
    ensures Walked(g, from, to, l)
  {
    ScopeClosed(g, from, to);
    var pops := Finish(g, Starts(from, to), Scope(g, from, to), [], {});
    l := Listing(pops, Known(g, from));
  }

  lemma ResumedListing(g: Graph, to: Hash, done: seq<Hash>, l: seq<Hash>)
    requires Dag(g) && to in g && done != [] && LastOf(done) in g && Walked(g, LastOf(done), to, l)
    ensures NextListing(g, Ancestors(g, to), done, to, l)
  {
  }

  lemma SecondJob(g: Graph, top: Hash, keys: set<string>, done: seq<Hash>, es: seq<Event>, r: Repo) returns (l: seq<Hash>, more: seq<Event>, s: Repo)
    requires Dag(g) && top in g && HasMirrored(g, Ancestors(g, top), keys, es, r, done) && AimsAt(es, top)
    requires done != [] && LastOf(done) in g && LastOf(done) != ""
    ensures HasMirrored(g, Ancestors(g, top), keys, more, s, done + l) && AimsAt(more, top)
    ensures forall h :: h in Ancestors(g, top) && h !in Ancestors(g, LastOf(done)) ==> h in l
  {
    l := SomeListing(g, LastOf(done), top);
    WalkedLists(g, LastOf(done), top, l);
    hide HasMirrored, NextListing, Ancestors, Walked, Enumerates, AimsAt, JobsFor;
    ResumedListing(g, top, done, l);
    var end;
    end, s := JobMirrors(g, Ancestors(g, top), keys, es, r, done, top, l, |l|);
    more := es + end;
    AimsAtConcat(es, end, top);
    assert l[..|l|] == l;
  }

  lemma RepeatsThere(g: Graph, top: Hash, keys: set<string>, es: seq<Event>, r: Repo, done: seq<Hash>, again: seq<Hash>, i: nat)
    requires Dag(g) && top in g && HasMirrored(g, Ancestors(g, top), keys, es, r, done + again) && AimsAt(es, top)
    requires i < |done| && done[i] in again
    ensures Settled(g, top, es, r) && !NoDup(Sources(r.log))
  {
    hide HasMirrored, AimsAt, Ancestors, Settled, NoDup;
    TwiceThere(done, again, i);
    MirroredState(g, Ancestors(g, top), keys, es, r, done + again);
    JobsAim(g, Ancestors(g, top), keys, es, r, done + again, top);
  }

  /** A job for `top` stopped after `n` commits, and one run to its end. */
  lemma StoppedThenResumed(g: Graph, top: Hash, keys: set<string>, l: seq<Hash>, n: nat)
    returns (again: seq<Hash>, es: seq<Event>, r: Repo)
    requires Dag(g) && top in g && CanMirrorAll(g, Ancestors(g, top), keys) && Walked(g, "", top, l)
    requires 0 < n <= |l| && l[n - 1] in g && l[n - 1] != ""
    ensures HasMirrored(g, Ancestors(g, top), keys, es, r, l[..n] + again) && AimsAt(es, top)
    ensures forall h :: h in Ancestors(g, top) && h !in Ancestors(g, l[n - 1]) ==> h in again
  {
    hide HasMirrored, CanMirrorAll, Walked, Ancestors, AimsAt;
    var es0, r0 := StoppedAfter(g, top, keys, l, n);
    again, es, r := SecondJob(g, top, keys, l[..n], es0, r0);
  }

  /** Stopped after the later of two commits neither of which is above the other, the earlier comes again. */
  lemma IncomparableRepeats(g: Graph, top: Hash, keys: set<string>, l: seq<Hash>, i: nat, j: nat) returns (es: seq<Event>, r: Repo)
    requires Dag(g) && top in g && CanMirrorAll(g, Ancestors(g, top), keys) && Walked(g, "", top, l)
    requires i < j < |l| && l[j] in g && l[j] != "" && l[i] in Ancestors(g, top) && l[i] !in Ancestors(g, l[j])
    ensures Settled(g, top, es, r) && !NoDup(Sources(r.log))
  {
    hide HasMirrored, CanMirrorAll, Walked, Ancestors, Settled, AimsAt, NoDup, Sources;
    var again;
    again, es, r := StoppedThenResumed(g, top, keys, l, j + 1);
    RepeatsThere(g, top, keys, es, r, l[..j + 1], again, i);
  }

  lemma TwiceThere(a: seq<Hash>, b: seq<Hash>, i: nat)
    requires i < |a| && a[i] in b
    ensures !NoDup(a + b)
  {
    var k :| 0 <= k < |b| && b[k] == a[i];
    assert (a + b)[i] == (a + b)[|a| + k];
  }

  /**
   * On a fresh repository with an orderly target whose ancestors can all be mirrored: no history that jobs
   * for it can leave, stopped anywhere and resumed any number of times, repeats a commit if and only if of
   * any two ancestors one is an ancestor of the other.
   */
  lemma RepeatFreeIff(g: Graph, top: Hash, keys: set<string>)
    requires Dag(g) && top in g && CanMirrorAll(g, Ancestors(g, top), keys) && Orderly(g, "", top)
    ensures Comparable(g, top) <==> forall es, r {:trigger Settled(g, top, es, r)} :: Settled(g, top, es, r) ==> NoDup(Sources(r.log))
  {
    if Comparable(g, top) {
      assert Straight(g, top);
      hide Straight, Settled, NoDup;
      forall es, r | Settled(g, top, es, r) ensures NoDup(Sources(r.log)) {
        StraightNeverRepeats(g, top, es, r);
      }
    } else {
      var a, b :| a in Ancestors(g, top) && b in Ancestors(g, top) && !Below(g, b, a) && !Below(g, a, b);
      var es, r := SidesRepeat(g, top, keys, a, b);
    }
  }

  lemma BothListed(g: Graph, top: Hash, a: Hash, b: Hash) returns (l: seq<Hash>, i: nat, j: nat)
    requires Dag(g) && top in g && a in Ancestors(g, top) && b in Ancestors(g, top)
    ensures Walked(g, "", top, l) && i < |l| && j < |l| && l[i] == a && l[j] == b
  {
    l := SomeListing(g, "", top);
    WalkedLists(g, "", top, l);
    assert a in l && b in l;
    i :| 0 <= i < |l| && l[i] == a;
    j :| 0 <= j < |l| && l[j] == b;
  }

  lemma SidesRepeat(g: Graph, top: Hash, keys: set<string>, a: Hash, b: Hash) returns (es: seq<Event>, r: Repo)
    requires Dag(g) && top in g && CanMirrorAll(g, Ancestors(g, top), keys)
    requires a in Ancestors(g, top) && b in Ancestors(g, top) && !Below(g, b, a) && !Below(g, a, b)
    ensures Settled(g, top, es, r) && !NoDup(Sources(r.log))
  {
    assert Sane(g);
    NamesNotEmpty(g);
    AncestorsInGraph(g, top);
    OwnAncestor(g, a);
    hide CanMirrorAll, Walked, Settled, Ancestors, Sane, NoDup;
    var l, i, j := BothListed(g, top, a, b);
    assert i != j;
    if i < j {
      es, r := IncomparableRepeats(g, top, keys, l, i, j);
    } else {
      es, r := IncomparableRepeats(g, top, keys, l, j, i);
    }
  }
}
