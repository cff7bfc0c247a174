/** Runs that mirror a commit twice, or lose one: where the history falls short of its documentation. */
module Repeats {
  import opened Text
  import opened Trailer
  import opened Trees
  import opened Ignore
  import opened Engine
  import opened History
  import opened RevList
  import opened SmallWalks
  import opened Mirror
  import opened Runs
  import opened Once
  import opened Jobs

  const KEYS: set<string> := {"key"}

  /** Commits without files and with a plain message. */
  ghost predicate Plain(g: Graph) {
    Dag(g) && forall h :: h in g ==> ValidHash(h) && g[h] == Bare(g[h].parents, g[h].gen, g[h].date)
  }

  lemma PlainMessage()
    ensures Unmarked("m") && Legible("m")
  {
    LinesNone("m");
    assert StripRight("m") == "m";
    assert StripLines(["m"]) == ["m"];
    assert Paragraphs(["m"]) == [["m"]] by {
      assert ["m"][1..] == [];
    }
    assert Stored("m") == [["m"]];
    assert SCISSORS[0] == '#';
    assert !IsGitSpace("m"[0]);
  }

  lemma PlainSane(g: Graph)
    requires Plain(g)
    ensures Sane(g)
    ensures forall h :: h in g ==> Legible(g[h].message)
  {
    PlainMessage();
    hide Legible, Unmarked;
    forall h | h in g ensures SaneCommit(g, h) {
    }
  }

  /** All of them can be mirrored. */
  lemma PlainRuns(g: Graph)
    requires Plain(g)
    ensures CanMirrorAll(g, g.Keys, KEYS)
  {
    PlainSane(g);
    var source := Source(Tree.Nil, Missing, {});
    assert Flatten(Tree.Nil, []) == map[];
    EncryptSucceedsIff(source.tree, source.ignoreRead, KEYS);
    assert Mirrorable(source, KEYS);
    hide Mirrorable, Sane, Legible;
    forall h | h in g ensures Mirrorable(g[h].source, KEYS) {
      assert g[h].source == source;
    }
  }

  lemma ListsNext(g: Graph, sources: seq<Hash>, from: Hash, target: Hash, todo: seq<Hash>)
    requires Dag(g) && target in g && (from != "" ==> from in g) && Walked(g, from, target, todo)
    requires from == if sources == [] then "" else LastOf(sources)
    ensures NextListing(g, g.Keys, sources, target, todo)
  {
    AncestorsInGraph(g, target);
  }

  // ---------------------------------------------------------------- two branches

  const FORK: Graph := map["a" := Bare({}, 0, 1), "b" := Bare({"a"}, 1, 2), "c" := Bare({"a"}, 1, 3)]

  ghost predicate Forked(g: Graph, a: Hash, b: Hash, c: Hash) {
    && Dag(g) && g.Keys == {a, b, c} && a != b && a != c && b != c && b != "" && c != ""
    && g[a].parents == {} && g[b].parents == {a} && g[c].parents == {a}
    && g[a].date < g[b].date < g[c].date
  }

  lemma IsForked()
    ensures Forked(FORK, "a", "b", "c") && CanMirrorAll(FORK, FORK.Keys, KEYS)
  {
    assert Plain(FORK);
    PlainRuns(FORK);
    hide CanMirrorAll, Plain;
  }

  lemma ForkAncestors(g: Graph, a: Hash, b: Hash, c: Hash)
    requires Forked(g, a, b, c)
    ensures Ancestors(g, a) == {a} && Ancestors(g, b) == {a, b} && Ancestors(g, c) == {a, c}
  {
    assert Ancestors(g, a) == {a};
    assert a in g[b].parents && a in g[c].parents && a in Ancestors(g, a);
  }

  lemma ForkWalks(g: Graph, a: Hash, b: Hash, c: Hash)
    requires Forked(g, a, b, c)
    ensures FullWalk(g, {b}, [b, a]) && FullWalk(g, {b, c}, [c, b, a])
  {
    var one, two := [b, a], [c, b, a];
    StandsFirst(g, {b}, one);
    StandsFirst(g, {b, c}, two);
    hide Stands, Takes;
    Advance(g, {b}, one, 0, {}, {b}, {a});
    Advance(g, {b}, one, 1, {b}, {a}, {});
    Arrives(g, {b}, one, {b, a});
    Advance(g, {b, c}, two, 0, {}, {b, c}, {a, b});
    Advance(g, {b, c}, two, 1, {c}, {a, b}, {a});
    Advance(g, {b, c}, two, 2, {c, b}, {a}, {});
    Arrives(g, {b, c}, two, {c, b, a});
  }

  lemma ForkListings(g: Graph, a: Hash, b: Hash, c: Hash)
    requires Forked(g, a, b, c)
    ensures Walked(g, "", b, [a, b]) && Walked(g, b, c, [c]) && Walked(g, c, b, [b])
  {
    ForkAncestors(g, a, b, c);
    ForkWalks(g, a, b, c);
    ListedAll(c, b, a);
    ListedNewest(c, b, a, {a, b});
    ListedMiddle(c, b, a, {a, c});
    assert Dag(g) && b in g && c in g;
    assert Starts(b, c) == {b, c} == Starts(c, b);
    hide FullWalk, Listing, Ancestors, Forked, Walked;
    WalkLists(g, "", b, [b, a], {}, [a, b]);
    WalkLists(g, b, c, [c, b, a], {a, b}, [c]);
    WalkLists(g, c, b, [c, b, a], {a, c}, [b]);
  }

  lemma ForkTodos(g: Graph, a: Hash, b: Hash, c: Hash)
    requires Forked(g, a, b, c)
    ensures NextListing(g, g.Keys, [], b, [a, b])
    ensures NextListing(g, g.Keys, [a, b], c, [c])
    ensures NextListing(g, g.Keys, [a, b, c], b, [b])
  {
    ForkListings(g, a, b, c);
    assert Dag(g) && b in g && c in g;
    hide Forked, Walked, CanMirrorAll, NextListing;
    ListsNext(g, [], "", b, [a, b]);
    ListsNext(g, [a, b], b, c, [c]);
    ListsNext(g, [a, b, c], c, b, [b]);
  }

  lemma ForkFirst(g: Graph, a: Hash, b: Hash, c: Hash, keys: set<string>) returns (es: seq<Event>, r: Repo)
    requires CanMirrorAll(g, g.Keys, keys) && Forked(g, a, b, c)
    ensures HasMirrored(g, g.Keys, keys, es, r, [a, b]) && NeverStopped(es)
  {
    hide Forked, NextListing, HasMirrored, NeverStopped, CanMirrorAll;
    ForkTodos(g, a, b, c);
    NothingMirrored(g, g.Keys, keys);
    es, r := JobMirrors(g, g.Keys, keys, [], Fetched(g), [], b, [a, b], 2);
    assert [] + [a, b][..2] == [a, b] && [] + es == es;
  }

  lemma ForkSecond(g: Graph, a: Hash, b: Hash, c: Hash, keys: set<string>) returns (es: seq<Event>, r: Repo)
    requires CanMirrorAll(g, g.Keys, keys) && Forked(g, a, b, c)
    ensures HasMirrored(g, g.Keys, keys, es, r, [a, b, c]) && NeverStopped(es)
  {
    hide Forked, NextListing, HasMirrored, NeverStopped, CanMirrorAll;
    ForkTodos(g, a, b, c);
    var es0, r0 := ForkFirst(g, a, b, c, keys);
    var more;
    more, r := JobMirrors(g, g.Keys, keys, es0, r0, [a, b], c, [c], 1);
    assert [a, b] + [c][..1] == [a, b, c];
    es := es0 + more;
    NeverStoppedConcat(es0, more);
  }

  lemma ForkThird(g: Graph, a: Hash, b: Hash, c: Hash, keys: set<string>) returns (es: seq<Event>, r: Repo)
    requires CanMirrorAll(g, g.Keys, keys) && Forked(g, a, b, c)
    ensures HasMirrored(g, g.Keys, keys, es, r, [a, b, c, b]) && NeverStopped(es)
  {
    hide Forked, NextListing, HasMirrored, NeverStopped, CanMirrorAll;
    ForkTodos(g, a, b, c);
    var es0, r0 := ForkSecond(g, a, b, c, keys);
    var more;
    more, r := JobMirrors(g, g.Keys, keys, es0, r0, [a, b, c], b, [b], 1);
    assert [a, b, c] + [b][..1] == [a, b, c, b];
    es := es0 + more;
    NeverStoppedConcat(es0, more);
  }

  /**
   * Two branches in turn: no job is stopped, and after `b`, `c` and `b` again the history holds `b` twice.
   */
  lemma BranchesRepeat(g: Graph, a: Hash, b: Hash, c: Hash, keys: set<string>) returns (es: seq<Event>, r: Repo)
    requires Forked(g, a, b, c) && CanMirrorAll(g, g.Keys, keys)
    ensures Reachable(r, Fetched(g), es) && NeverStopped(es) && r.run.Idle?
    ensures Sources(r.log) == [a, b, c, b] && !NoDup(Sources(r.log))
  {
    hide Forked, HasMirrored, CanMirrorAll, NeverStopped;
    es, r := ForkThird(g, a, b, c, keys);
    ResumesAtLast(g, g.Keys, keys, es, r, [a, b, c, b]);
    MirroredState(g, g.Keys, keys, es, r, [a, b, c, b]);
    var all := Sources(r.log);
    assert all[1] == all[3];
  }

  lemma NeverStoppedConcat(a: seq<Event>, b: seq<Event>)
    requires NeverStopped(a) && NeverStopped(b)
    ensures NeverStopped(a + b)
  {
  }

  // ---------------------------------------------------------------- a merge, and a job stopped between its sides

  const DIAMOND: Graph :=
    map["a" := Bare({}, 0, 1), "b" := Bare({"a"}, 1, 2), "c" := Bare({"a"}, 1, 3), "d" := Bare({"b", "c"}, 2, 4)]

  ghost predicate Diamond(g: Graph, a: Hash, b: Hash, c: Hash, d: Hash) {
    && Dag(g) && g.Keys == {a, b, c, d} && |[a, b, c, d]| == 4 && NoDup([a, b, c, d]) && c != ""
    && g[a].parents == {} && g[b].parents == {a} && g[c].parents == {a} && g[d].parents == {b, c}
    && g[a].date < g[b].date < g[c].date < g[d].date
  }

  lemma IsDiamond()
    ensures Diamond(DIAMOND, "a", "b", "c", "d") && CanMirrorAll(DIAMOND, DIAMOND.Keys, KEYS)
  {
    assert Plain(DIAMOND);
    PlainRuns(DIAMOND);
    hide CanMirrorAll, Plain;
  }

  lemma DiamondAncestors(g: Graph, a: Hash, b: Hash, c: Hash, d: Hash)
    requires Diamond(g, a, b, c, d)
    ensures Ancestors(g, c) == {a, c}
  {
    assert Ancestors(g, a) == {a};
    assert a in g[c].parents && a in Ancestors(g, a);
  }

  lemma DiamondWalks(g: Graph, a: Hash, b: Hash, c: Hash, d: Hash, starts: set<Hash>)
    requires Diamond(g, a, b, c, d) && (starts == {d} || starts == {d, c})
    ensures FullWalk(g, starts, [d, c, b, a])
  {
    var pops := [d, c, b, a];
    StandsFirst(g, starts, pops);
    hide Stands, Takes;
    Advance(g, starts, pops, 0, {}, starts, {b, c});
    Advance(g, starts, pops, 1, {d}, {b, c}, {a, b});
    Advance(g, starts, pops, 2, {d, c}, {a, b}, {a});
    Advance(g, starts, pops, 3, {d, c, b}, {a}, {});
    Arrives(g, starts, pops, {d, c, b, a});
  }

  lemma DiamondListings(g: Graph, a: Hash, b: Hash, c: Hash, d: Hash)
    requires Diamond(g, a, b, c, d)
    ensures Walked(g, "", d, [a, b, c, d]) && Walked(g, c, d, [b, d])
  {
    DiamondAncestors(g, a, b, c, d);
    DiamondWalks(g, a, b, c, d, {d});
    DiamondWalks(g, a, b, c, d, {d, c});
    var pops := [d, c, b, a];
    ListedFour(d, c, b, a, {a, c});
    assert Dag(g) && c in g && d in g;
    hide FullWalk, Listing, Ancestors, Diamond, Walked;
    WalkLists(g, "", d, pops, {}, [a, b, c, d]);
    WalkLists(g, c, d, pops, {a, c}, [b, d]);
  }

  /** What the two jobs list. */
  lemma DiamondTodos(g: Graph, a: Hash, b: Hash, c: Hash, d: Hash)
    requires Diamond(g, a, b, c, d)
    ensures NextListing(g, g.Keys, [], d, [a, b, c, d])
    ensures NextListing(g, g.Keys, [a, b, c], d, [b, d])
  {
    DiamondListings(g, a, b, c, d);
    assert Dag(g) && c in g && d in g;
    hide Diamond, Walked, CanMirrorAll, NextListing;
    ListsNext(g, [], "", d, [a, b, c, d]);
    ListsNext(g, [a, b, c], c, d, [b, d]);
  }

  lemma DiamondFirst(g: Graph, a: Hash, b: Hash, c: Hash, d: Hash, keys: set<string>) returns (es: seq<Event>, r: Repo)
    requires CanMirrorAll(g, g.Keys, keys) && Diamond(g, a, b, c, d)
    ensures HasMirrored(g, g.Keys, keys, es, r, [a, b, c])
  {
    hide Diamond, NextListing, HasMirrored, CanMirrorAll;
    DiamondTodos(g, a, b, c, d);
    NothingMirrored(g, g.Keys, keys);
    es, r := JobMirrors(g, g.Keys, keys, [], Fetched(g), [], d, [a, b, c, d], 3);
    assert [] + [a, b, c, d][..3] == [a, b, c] && [] + es == es;
  }

  lemma DiamondSecond(g: Graph, a: Hash, b: Hash, c: Hash, d: Hash, keys: set<string>) returns (es: seq<Event>, r: Repo)
    requires CanMirrorAll(g, g.Keys, keys) && Diamond(g, a, b, c, d)
    ensures HasMirrored(g, g.Keys, keys, es, r, [a, b, c, b, d])
  {
    hide Diamond, NextListing, HasMirrored, CanMirrorAll;
    DiamondTodos(g, a, b, c, d);
    var es0, r0 := DiamondFirst(g, a, b, c, d, keys);
    var more;
    more, r := JobMirrors(g, g.Keys, keys, es0, r0, [a, b, c], d, [b, d], 2);
    assert [a, b, c] + [b, d][..2] == [a, b, c, b, d];
    es := es0 + more;
  }

  /** A job stopped between the two sides of a merge, and a second one for the same target: `b` is there twice. */
  lemma StoppedMergeRepeats(g: Graph, a: Hash, b: Hash, c: Hash, d: Hash, keys: set<string>) returns (es: seq<Event>, r: Repo)
    requires Diamond(g, a, b, c, d) && CanMirrorAll(g, g.Keys, keys)
    ensures Reachable(r, Fetched(g), es) && r.run.Idle?
    ensures Sources(r.log) == [a, b, c, b, d] && !NoDup(Sources(r.log))
  {
    hide Diamond, HasMirrored, CanMirrorAll;
    es, r := DiamondSecond(g, a, b, c, d, keys);
    ResumesAtLast(g, g.Keys, keys, es, r, [a, b, c, b, d]);
    MirroredState(g, g.Keys, keys, es, r, [a, b, c, b, d]);
    var all := Sources(r.log);
    assert all[1] == all[3];
  }

  // ---------------------------------------------------------------- a listing that is not ancestors first

  lemma SkewResumes(g: Graph, a: Hash, b: Hash, c: Hash)
    requires Triangle(g, a, b, c) && g[c].date >= g[b].date
    ensures Walked(g, b, c, [c])
  {
    TriangleAncestors(g, a, b, c);
    TakenInOrder(g, a, b, c, {c, b});
    ListedNewest(c, a, b, {a, b});
    assert Dag(g) && b in g && c in g;
    hide FullWalk, Listing, Ancestors, Triangle, Walked;
    WalkLists(g, b, c, [c, a, b], {a, b}, [c]);
  }

  /** What the two jobs list. */
  lemma SkewTodos(g: Graph, a: Hash, b: Hash, c: Hash)
    requires Triangle(g, a, b, c) && g[c].date >= g[b].date
    ensures NextListing(g, g.Keys, [], c, [b, a, c]) && NextListing(g, g.Keys, [b], c, [c])
  {
    ChildFirst(g, a, b, c);
    SkewResumes(g, a, b, c);
    assert Dag(g) && b in g && c in g;
    hide Triangle, Walked, CanMirrorAll, NextListing;
    ListsNext(g, [], "", c, [b, a, c]);
    ListsNext(g, [b], b, c, [c]);
  }

  lemma SkewFirst(g: Graph, a: Hash, b: Hash, c: Hash, keys: set<string>) returns (es: seq<Event>, r: Repo)
    requires CanMirrorAll(g, g.Keys, keys) && Triangle(g, a, b, c) && g[c].date >= g[b].date
    ensures HasMirrored(g, g.Keys, keys, es, r, [b])
  {
    hide Triangle, NextListing, HasMirrored, CanMirrorAll;
    SkewTodos(g, a, b, c);
    NothingMirrored(g, g.Keys, keys);
    es, r := JobMirrors(g, g.Keys, keys, [], Fetched(g), [], c, [b, a, c], 1);
    assert [] + [b, a, c][..1] == [b] && [] + es == es;
  }

  lemma SkewSecond(g: Graph, a: Hash, b: Hash, c: Hash, keys: set<string>) returns (es: seq<Event>, r: Repo)
    requires CanMirrorAll(g, g.Keys, keys) && Triangle(g, a, b, c) && g[c].date >= g[b].date
    ensures HasMirrored(g, g.Keys, keys, es, r, [b, c])
  {
    hide Triangle, NextListing, HasMirrored, CanMirrorAll;
    SkewTodos(g, a, b, c);
    var es0, r0 := SkewFirst(g, a, b, c, keys);
    var more;
    more, r := JobMirrors(g, g.Keys, keys, es0, r0, [b], c, [c], 1);
    assert [b] + [c][..1] == [b, c];
    es := es0 + more;
  }

  /**
   * With a child not newer than its parent, coverage fails: a job stopped after the child and one run to
   * its end leave the parent out of the history, although it is an ancestor of the resume point, so no
   * later job for the same target brings it in.
   */
  lemma SkewLosesAncestor(g: Graph, a: Hash, b: Hash, c: Hash, keys: set<string>) returns (es: seq<Event>, r: Repo)
    requires Triangle(g, a, b, c) && g[c].date >= g[b].date && CanMirrorAll(g, g.Keys, keys)
    ensures Reachable(r, Fetched(g), es) && r.run.Idle? && r.graph == g && Sources(r.log) == [b, c]
    ensures ResumePoint(r.log) == c && a in Ancestors(g, c) && a !in Sources(r.log)
  {
    TriangleAncestors(g, a, b, c);
    hide Triangle, HasMirrored, CanMirrorAll, Ancestors;
    es, r := SkewSecond(g, a, b, c, keys);
    ResumesAtLast(g, g.Keys, keys, es, r, [b, c]);
    MirroredState(g, g.Keys, keys, es, r, [b, c]);
  }

  /** The merges of `SmallWalks` are such graphs. */
  lemma SkewedGraph()
    ensures CanMirrorAll(SKEWED, SKEWED.Keys, KEYS)
  {
    assert Plain(SKEWED);
    hide Plain, CanMirrorAll;
    PlainRuns(SKEWED);
  }

  lemma TiedGraph()
    ensures CanMirrorAll(NO_FF, NO_FF.Keys, KEYS)
  {
    assert Plain(NO_FF);
    hide Plain, CanMirrorAll;
    PlainRuns(NO_FF);
  }
}
