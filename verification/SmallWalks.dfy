/** Walks on small graphs, and a merge whose listing puts a child before its parent. */
module SmallWalks {
  import opened History
  import opened RevList

  /** A merge of a root with a child of that root whose committer date lies before it. */
  const SKEWED: Graph := map["a" := Bare({}, 0, 10), "b" := Bare({"a"}, 1, 1), "c" := Bare({"a", "b"}, 2, 20)]

  /** A merge that keeps its branch although it could be fast-forwarded, made within one second. */
  const NO_FF: Graph := map["a" := Bare({}, 0, 5), "b" := Bare({"a"}, 1, 5), "c" := Bare({"a", "b"}, 2, 5)]

  /** A merge `c` of a root `a` with a child `b` of that root which is not newer than it. */
  ghost predicate Triangle(g: Graph, a: Hash, b: Hash, c: Hash) {
    && Dag(g) && g.Keys == {a, b, c} && a != b && a != c && b != c && b != ""
    && g[a].parents == {} && g[b].parents == {a} && g[c].parents == {a, b}
    && g[a].date >= g[b].date
  }

  /** Two of them: one with skewed dates, and an ordinary one made within one second. */
  lemma Triangles()
    ensures Triangle(SKEWED, "a", "b", "c") && SKEWED["a"].date > SKEWED["b"].date
    ensures Triangle(NO_FF, "a", "b", "c") && NO_FF["a"].date == NO_FF["b"].date
    ensures SKEWED["c"].date >= SKEWED["b"].date && NO_FF["c"].date >= NO_FF["b"].date
  {
  }

  lemma TriangleAncestors(g: Graph, a: Hash, b: Hash, c: Hash)
    requires Triangle(g, a, b, c)
    ensures Ancestors(g, a) == {a} && Ancestors(g, b) == {a, b} && Ancestors(g, c) == {a, b, c}
  {
    assert Ancestors(g, a) == {a};
    forall x ensures x in Ancestors(g, b) <==> x in {a, b} {
      assert a in g[b].parents;
      assert a in Ancestors(g, a);
    }
    forall x ensures x in Ancestors(g, c) <==> x in {a, b, c} {
      assert b in g[c].parents && a in g[c].parents;
      assert a in Ancestors(g, a) && b in Ancestors(g, b);
    }
  }

  /** After `i` commits `done` has been taken and `queue` is queued. */
  ghost predicate Stands(g: Graph, starts: set<Hash>, pops: seq<Hash>, i: nat, done: set<Hash>, queue: set<Hash>) {
    i <= |pops| && Members(pops[..i]) == done && Frontier(g, starts, done) == queue
  }

  lemma StandsFirst(g: Graph, starts: set<Hash>, pops: seq<Hash>)
    ensures Stands(g, starts, pops, 0, {}, starts)
  {
    assert pops[..0] == [];
  }

  lemma Advance(g: Graph, starts: set<Hash>, pops: seq<Hash>, i: nat, done: set<Hash>, queue: set<Hash>, next: set<Hash>)
    requires Stands(g, starts, pops, i, done, queue) && i < |pops| && IsNewest(g, queue, pops[i])
    requires next == (queue + g[pops[i]].parents) - (done + {pops[i]})
    ensures Takes(g, starts, pops, i) && Stands(g, starts, pops, i + 1, done + {pops[i]}, next)
  {
    MembersNext(pops, i);
    FrontierNext(g, starts, done, pops[i]);
  }

  lemma Arrives(g: Graph, starts: set<Hash>, pops: seq<Hash>, done: set<Hash>)
    requires Stands(g, starts, pops, |pops|, done, {})
    requires forall i :: 0 <= i < |pops| ==> Takes(g, starts, pops, i)
    ensures FullWalk(g, starts, pops)
  {
    assert pops[..|pops|] == pops;
  }

  lemma TakenInOrder(g: Graph, a: Hash, b: Hash, c: Hash, starts: set<Hash>)
    requires Triangle(g, a, b, c) && (starts == {c} || (starts == {c, b} && g[c].date >= g[b].date))
    ensures FullWalk(g, starts, [c, a, b])
  {
    var pops := [c, a, b];
    StandsFirst(g, starts, pops);
    hide Stands, Takes;
    Advance(g, starts, pops, 0, {}, starts, {a, b});
    Advance(g, starts, pops, 1, {c}, {a, b}, {b});
    Advance(g, starts, pops, 2, {c, a}, {b}, {});
    Arrives(g, starts, pops, {c, a, b});
  }

  function Shown(h: Hash, known: set<Hash>): seq<Hash> {
    if h in known then [] else [h]
  }

  lemma ListedNext(pops: seq<Hash>, c: Hash, known: set<Hash>)
    ensures Listing([c] + pops, known) == Listing(pops, known) + Shown(c, known)
  {
    assert ([c] + pops)[1..] == pops;
  }

  lemma ListedTwo(x: Hash, y: Hash, known: set<Hash>)
    ensures Listing([x, y], known) == Shown(y, known) + Shown(x, known)
  {
    ListedNext([], y, known);
    ListedNext([y], x, known);
    assert [y] == [y] + [] && [x, y] == [x] + [y];
  }

  lemma ListedThree(x: Hash, y: Hash, z: Hash, known: set<Hash>)
    ensures Listing([x, y, z], known) == Shown(z, known) + Shown(y, known) + Shown(x, known)
  {
    ListedTwo(y, z, known);
    ListedNext([y, z], x, known);
    assert [x, y, z] == [x] + [y, z];
  }

  /** With nothing known, a walk is listed in reverse. */
  lemma ListedAll(x: Hash, y: Hash, z: Hash)
    ensures Listing([y, z], {}) == [z, y] && Listing([x, y, z], {}) == [z, y, x]
  {
    ListedTwo(y, z, {});
    ListedThree(x, y, z, {});
  }

  lemma ListedNewest(x: Hash, y: Hash, z: Hash, known: set<Hash>)
    requires x !in known && y in known && z in known
    ensures Listing([x, y, z], known) == [x]
  {
    ListedThree(x, y, z, known);
  }

  lemma ListedMiddle(x: Hash, y: Hash, z: Hash, known: set<Hash>)
    requires x in known && y !in known && z in known
    ensures Listing([x, y, z], known) == [y]
  {
    ListedThree(x, y, z, known);
  }

  lemma ListedFour(w: Hash, x: Hash, y: Hash, z: Hash, known: set<Hash>)
    requires w !in known && x in known && y !in known && z in known
    ensures Listing([w, x, y, z], {}) == [z, y, x, w] && Listing([w, x, y, z], known) == [y, w]
  {
    ListedAll(x, y, z);
    ListedMiddle(x, y, z, known);
    ListedNext([x, y, z], w, {});
    ListedNext([x, y, z], w, known);
    assert [w, x, y, z] == [w] + [x, y, z];
  }

  lemma WalkLists(g: Graph, from: Hash, to: Hash, pops: seq<Hash>, known: set<Hash>, l: seq<Hash>)
    requires Dag(g) && to in g && (from != "" ==> from in g) && FullWalk(g, Starts(from, to), pops)
    requires Known(g, from) == known && Listing(pops, known) == l
    ensures Walked(g, from, to, l)
  {
  }

  lemma ChildFirst(g: Graph, a: Hash, b: Hash, c: Hash)
    requires Triangle(g, a, b, c)
    ensures Walked(g, "", c, [b, a, c]) && !AncestorsFirst(g, [b, a, c])
  {
    TriangleAncestors(g, a, b, c);
    TakenInOrder(g, a, b, c, {c});
    ListedAll(c, a, b);
    assert Dag(g) && c in g;
    hide FullWalk, Listing, Ancestors, Triangle, Walked;
    WalkLists(g, "", c, [c, a, b], {}, [b, a, c]);
    ListedUnder(g, [b, a, c], 0, 1);
  }

  lemma ListedUnder(g: Graph, l: seq<Hash>, i: nat, j: nat)
    requires Dag(g) && i < j < |l| && l[i] in g && l[j] in Ancestors(g, l[i])
    ensures !AncestorsFirst(g, l)
  {
  }

  lemma OnlyListing(g: Graph, a: Hash, b: Hash, c: Hash, l: seq<Hash>)
    requires Triangle(g, a, b, c) && g[a].date > g[b].date && Walked(g, "", c, l)
    ensures l == [b, a, c]
  {
    var pops :| FullWalk(g, Starts("", c), pops) && l == Listing(pops, Known(g, ""));
    hide FullWalk, Listing, Walked;
    OnlyWalk(g, a, b, c, pops);
    ListedAll(c, a, b);
  }

  /** If the child is older, every walk lists it before its parent. */
  lemma SkewListsChildFirst(g: Graph, a: Hash, b: Hash, c: Hash, l: seq<Hash>)
    requires Triangle(g, a, b, c) && g[a].date > g[b].date
    ensures Walked(g, "", c, l) <==> l == [b, a, c]
    ensures !AncestorsFirst(g, [b, a, c])
  {
    ChildFirst(g, a, b, c);
    hide Walked, AncestorsFirst;
    if Walked(g, "", c, l) {
      OnlyListing(g, a, b, c, l);
    }
  }

  lemma ThreePops(g: Graph, a: Hash, b: Hash, c: Hash, pops: seq<Hash>)
    requires Triangle(g, a, b, c) && FullWalk(g, {c}, pops)
    ensures |pops| == 3
  {
    TriangleAncestors(g, a, b, c);
    FullWalkVisits(g, "", c, pops);
    Distinct(pops);
    assert |{a, b, c}| == 3;
  }

  /** A walk has no choice where only one commit is newest. */
  lemma Forced(g: Graph, starts: set<Hash>, pops: seq<Hash>, i: nat, done: set<Hash>, queue: set<Hash>, c: Hash, next: set<Hash>)
    requires Walk(g, starts, pops) && i < |pops| && Stands(g, starts, pops, i, done, queue)
    requires queue <= g.Keys && c in queue && forall x :: x in queue && x != c ==> g[x].date < g[c].date
    requires next == (queue + g[c].parents) - (done + {c})
    ensures pops[i] == c && Stands(g, starts, pops, i + 1, done + {c}, next)
  {
    assert Takes(g, starts, pops, i);
    Advance(g, starts, pops, i, done, queue, next);
  }

  lemma OnlyFirst(g: Graph, a: Hash, b: Hash, c: Hash, pops: seq<Hash>)
    requires Triangle(g, a, b, c) && Walk(g, {c}, pops) && |pops| == 3
    ensures pops[0] == c && Stands(g, {c}, pops, 1, {c}, {a, b})
  {
    hide Walk, Stands;
    StandsFirst(g, {c}, pops);
    Forced(g, {c}, pops, 0, {}, {c}, c, {a, b});
    assert {} + {c} == {c};
  }

  lemma OnlySecond(g: Graph, a: Hash, b: Hash, c: Hash, pops: seq<Hash>)
    requires Triangle(g, a, b, c) && g[a].date > g[b].date && Walk(g, {c}, pops) && |pops| == 3
    requires Stands(g, {c}, pops, 1, {c}, {a, b})
    ensures pops[1] == a && Stands(g, {c}, pops, 2, {c, a}, {b})
  {
    hide Walk, Stands;
    Forced(g, {c}, pops, 1, {c}, {a, b}, a, {b});
    assert {c} + {a} == {c, a};
  }

  lemma OnlyThird(g: Graph, a: Hash, b: Hash, c: Hash, pops: seq<Hash>)
    requires Triangle(g, a, b, c) && Walk(g, {c}, pops) && |pops| == 3
    requires Stands(g, {c}, pops, 2, {c, a}, {b})
    ensures pops[2] == b
  {
    hide Walk, Stands;
    Forced(g, {c}, pops, 2, {c, a}, {b}, b, {});
  }

  lemma OnlyWalk(g: Graph, a: Hash, b: Hash, c: Hash, pops: seq<Hash>)
    requires Triangle(g, a, b, c) && g[a].date > g[b].date && FullWalk(g, {c}, pops)
    ensures pops == [c, a, b]
  {
    ThreePops(g, a, b, c, pops);
    assert Walk(g, {c}, pops);
    hide Walk, FullWalk, Stands, Triangle;
    OnlyFirst(g, a, b, c, pops);
    OnlySecond(g, a, b, c, pops);
    OnlyThird(g, a, b, c, pops);
  }

  lemma {:induction false} Distinct(pops: seq<Hash>)
    requires NoDup(pops)
    ensures |Members(pops)| == |pops|
  {
    if pops != [] {
      var rest := pops[1..];
      assert forall i, j :: 0 <= i < j < |rest| ==> rest[i] == pops[i + 1] && rest[j] == pops[j + 1];
      Distinct(rest);
      assert pops[0] !in rest;
      assert Members(pops) == Members(rest) + {pops[0]};
    }
  }

  /**
   * Equal dates are enough for some walk to do so: one that breaks ties as git does, taking commits in the
   * order it queued them, a merge's first parent first.
   */
  lemma TieListsChildFirst(g: Graph, a: Hash, b: Hash, c: Hash)
    requires Triangle(g, a, b, c)
    ensures Walked(g, "", c, [b, a, c]) && !AncestorsFirst(g, [b, a, c]) && !Orderly(g, "", c)
  {
    ChildFirst(g, a, b, c);
    hide Walked, AncestorsFirst, Orderly;
    OrderlyIff(g, "", c);
  }
}
