/** The source repository's commit graph, and listing the commits a mirroring run has to process. */
module History {
  import opened Text
  import opened Trailer
  import opened Trees
  import opened Engine

  type Hash = string

  /**
   * A commit: its parents, git's generation number (every parent's is lower), its committer date,
   * its message and its files.
   */
  datatype Commit = Commit(parents: set<Hash>, gen: nat, date: int, message: string, source: Source)

  type Graph = map<Hash, Commit>

  ghost predicate Dag(g: Graph) {
    forall h, p :: h in g && p in g[h].parents ==> p in g && g[p].gen < g[h].gen
  }

  /**
   * No source message carries the marker of the trailer, and none with a scissors line has a trailer of
   * that key in other letters before it; trees and hashes are what git produces.
   */
  ghost predicate Sane(g: Graph) {
    Dag(g) && forall h {:trigger SaneCommit(g, h)} :: h in g ==> SaneCommit(g, h)
  }

  ghost predicate SaneCommit(g: Graph, h: Hash)
    requires h in g
  {
    ValidHash(h) && WellFormed(g[h].source.tree) && NoDevices(g[h].source.tree) && Unmarked(g[h].message)
  }

  predicate Unmarked(message: string) {
    !Contains(message, MARKER) && (HasCut(Stored(message)) ==> ReadTrailer(Stored(message)) == "")
  }

  ghost predicate Extends(g: Graph, bigger: Graph) {
    forall h :: h in g ==> h in bigger && bigger[h] == g[h]
  }

  /** Reflexive ancestry. */
  ghost function Ancestors(g: Graph, h: Hash): set<Hash>
    requires Dag(g) && h in g
    decreases g[h].gen
  {
    {h} + set p, a | p in g[h].parents && a in Ancestors(g, p) :: a
  }

  lemma {:induction false} AncestorsInGraph(g: Graph, h: Hash)
    requires Dag(g) && h in g
    ensures Ancestors(g, h) <= g.Keys
    decreases g[h].gen
  {
    forall a | a in Ancestors(g, h) ensures a in g {
      if a != h {
        var p :| p in g[h].parents && a in Ancestors(g, p);
        AncestorsInGraph(g, p);
      }
    }
  }

  lemma {:induction false} AncestorsTransitive(g: Graph, h: Hash, a: Hash)
    requires Dag(g) && h in g && a in Ancestors(g, h)
    ensures a in g && Ancestors(g, a) <= Ancestors(g, h)
    decreases g[h].gen
  {
    if a != h {
      var p :| p in g[h].parents && a in Ancestors(g, p);
      AncestorsTransitive(g, p, a);
    }
  }

  lemma {:induction false} AncestorsOlder(g: Graph, h: Hash, a: Hash)
    requires Dag(g) && h in g && a in Ancestors(g, h) && a != h
    ensures a in g && g[a].gen < g[h].gen
    decreases g[h].gen
  {
    var p :| p in g[h].parents && a in Ancestors(g, p);
    if a != p {
      AncestorsOlder(g, p, a);
    }
  }

  lemma {:induction false} AncestorsStable(g: Graph, bigger: Graph, h: Hash)
    requires Dag(g) && Dag(bigger) && Extends(g, bigger) && h in g
    ensures Ancestors(bigger, h) == Ancestors(g, h)
    decreases g[h].gen
  {
    forall p | p in g[h].parents ensures Ancestors(bigger, p) == Ancestors(g, p) {
      AncestorsStable(g, bigger, p);
    }
  }

  lemma {:induction false} AncestorsAntisymmetric(g: Graph, a: Hash, b: Hash)
    requires Dag(g) && a in g && b in g && a in Ancestors(g, b) && b in Ancestors(g, a)
    ensures a == b
  {
    if a != b {
      AncestorsOlder(g, a, b);
      AncestorsOlder(g, b, a);
    }
  }

  // ---------------------------------------------------------------- listings

  predicate NoDup(l: seq<Hash>) {
    forall i, j :: 0 <= i < j < |l| ==> l[i] != l[j]
  }

  /** What is already reachable from the resume point; an empty one reaches nothing. */
  ghost function Known(g: Graph, from: Hash): set<Hash>
    requires Dag(g) && (from != "" ==> from in g)
  {
    if from == "" then {} else Ancestors(g, from)
  }

  /** `l` has each commit reachable from `to` but not from `from` once. */
  ghost predicate Enumerates(g: Graph, from: Hash, to: Hash, l: seq<Hash>)
    requires Dag(g) && to in g && (from != "" ==> from in g)
  {
    && NoDup(l)
    && forall h :: h in l <==> h in Ancestors(g, to) && h !in Known(g, from)
  }

  ghost predicate AncestorsFirst(g: Graph, l: seq<Hash>)
    requires Dag(g)
  {
    && (forall i :: 0 <= i < |l| ==> l[i] in g)
    && (forall i, j :: 0 <= i < j < |l| ==> l[j] !in Ancestors(g, l[i]))
  }

  ghost predicate IsListing(g: Graph, from: Hash, to: Hash, l: seq<Hash>)
    requires Dag(g) && to in g && (from != "" ==> from in g)
  {
    Enumerates(g, from, to, l) && AncestorsFirst(g, l)
  }

  /** Stopping after any prefix of the enumeration leaves no ancestor of the last commit out. */
  ghost predicate PrefixesClosed(g: Graph, from: Hash, l: seq<Hash>)
    requires Dag(g) && (from != "" ==> from in g)
  {
    forall i :: 0 <= i < |l| ==>
      l[i] in g && forall a :: a in Ancestors(g, l[i]) ==> a in Known(g, from) || a in l[..i + 1]
  }

  lemma ListedAncestors(g: Graph, from: Hash, to: Hash, l: seq<Hash>, i: nat)
    requires Dag(g) && to in g && (from != "" ==> from in g) && Enumerates(g, from, to, l) && i < |l|
    ensures l[i] in g && l[i] !in Known(g, from) && Ancestors(g, l[i]) <= Ancestors(g, to)
  {
    assert l[i] in l;
    AncestorsTransitive(g, to, l[i]);
  }

  lemma OrderedPrefix(g: Graph, from: Hash, to: Hash, l: seq<Hash>, i: nat, a: Hash)
    requires Dag(g) && to in g && (from != "" ==> from in g) && IsListing(g, from, to, l)
    requires i < |l| && a in Ancestors(g, l[i])
    ensures a in Known(g, from) || a in l[..i + 1]
  {
    ListedAncestors(g, from, to, l, i);
    if a !in Known(g, from) {
      assert a in l;
      var k :| 0 <= k < |l| && l[k] == a;
      assert k <= i;
      assert l[..i + 1][k] == a;
    }
  }

  /** Being able to resume after any prefix is the same as listing ancestors first. */
  lemma ResumableIff(g: Graph, from: Hash, to: Hash, l: seq<Hash>)
    requires Dag(g) && to in g && (from != "" ==> from in g) && Enumerates(g, from, to, l)
    ensures PrefixesClosed(g, from, l) <==> AncestorsFirst(g, l)
  {
    forall i | 0 <= i < |l| ensures l[i] in g && l[i] !in Known(g, from) {
      ListedAncestors(g, from, to, l, i);
    }
    if AncestorsFirst(g, l) {
      forall i, a | 0 <= i < |l| && a in Ancestors(g, l[i]) ensures a in Known(g, from) || a in l[..i + 1] {
        OrderedPrefix(g, from, to, l, i, a);
      }
    } else {
      var i, j :| 0 <= i < j < |l| && l[j] in Ancestors(g, l[i]);
      assert l[j] !in l[..i + 1];
    }
  }

  lemma Member(l: seq<Hash>) returns (h: Hash)
    requires l != []
    ensures h in l
  {
    h := l[0];
  }

  /** Nothing is left to list when the target is already an ancestor of the resume point. */
  lemma NothingNew(g: Graph, from: Hash, to: Hash, l: seq<Hash>)
    requires Dag(g) && to in g && from in g && from != "" && to in Ancestors(g, from)
    requires Enumerates(g, from, to, l)
    ensures l == []
  {
    AncestorsTransitive(g, from, to);
    if l != [] {
      var h := Member(l);
    }
  }

  /** Otherwise the target comes last. */
  lemma TargetLast(g: Graph, from: Hash, to: Hash, l: seq<Hash>)
    requires Dag(g) && to in g && (from != "" ==> from in g) && to !in Known(g, from)
    requires IsListing(g, from, to, l)
    ensures l != [] && l[|l| - 1] == to
  {
    assert to in l;
    var k :| 0 <= k < |l| && l[k] == to;
    if k < |l| - 1 {
      assert l[|l| - 1] in l;
    }
  }

  // ---------------------------------------------------------------- linear histories

  ghost predicate Linear(g: Graph) {
    forall h, p, q :: h in g && p in g[h].parents && q in g[h].parents ==> p == q
  }

  /** The only ancestors-first order of a linear history. */
  ghost function ChainTo(g: Graph, h: Hash): seq<Hash>
    requires Dag(g) && h in g
    decreases g[h].gen
  {
    if g[h].parents == {} then [h]
    else
      var p :| p in g[h].parents;
      ChainTo(g, p) + [h]
  }

  lemma {:induction false} ChainMembers(g: Graph, h: Hash)
    requires Dag(g) && Linear(g) && h in g
    ensures forall a :: a in ChainTo(g, h) <==> a in Ancestors(g, h)
    ensures NoDup(ChainTo(g, h))
    ensures ChainTo(g, h) != [] && ChainTo(g, h)[|ChainTo(g, h)| - 1] == h
    decreases g[h].gen
  {
    if g[h].parents != {} {
      var p :| p in g[h].parents && ChainTo(g, h) == ChainTo(g, p) + [h];
      ChainMembers(g, p);
      forall a ensures a in Ancestors(g, h) <==> a == h || a in Ancestors(g, p) {
      }
      if h in Ancestors(g, p) {
        AncestorsOlder(g, p, h);
      }
    }
  }

  /** A prefix of a chain is the chain to its own last commit. */
  lemma {:induction false} ChainPrefix(g: Graph, h: Hash, n: nat)
    requires Dag(g) && Linear(g) && h in g && 0 < n <= |ChainTo(g, h)|
    ensures ChainTo(g, h)[n - 1] in g
    ensures ChainTo(g, h)[..n] == ChainTo(g, ChainTo(g, h)[n - 1])
    decreases g[h].gen
  {
    var c := ChainTo(g, h);
    if n == |c| {
      ChainMembers(g, h);
      assert c[..n] == c;
    } else {
      var p :| p in g[h].parents && c == ChainTo(g, p) + [h];
      ChainPrefix(g, p, n);
      assert c[..n] == ChainTo(g, p)[..n];
    }
  }

  /** Dropping the target from its listing lists up to its parent. */
  lemma ListingOfParent(g: Graph, from: Hash, to: Hash, l: seq<Hash>, p: Hash)
    requires Dag(g) && Linear(g) && to in g && (from != "" ==> from in g) && to !in Known(g, from)
    requires IsListing(g, from, to, l) && p in g[to].parents
    ensures l != [] && l[|l| - 1] == to && IsListing(g, from, p, l[..|l| - 1])
  {
    TargetLast(g, from, to, l);
    var init := l[..|l| - 1];
    assert l == init + [to];
    assert to !in init;
    assert to !in Ancestors(g, p) by {
      if to in Ancestors(g, p) {
        AncestorsOlder(g, p, to);
      }
    }
    forall h ensures h in init <==> h in Ancestors(g, p) && h !in Known(g, from) {
      assert h in l <==> h in init || h == to;
      assert h in Ancestors(g, to) <==> h == to || h in Ancestors(g, p);
    }
  }

  lemma ListingOfRoot(g: Graph, from: Hash, to: Hash, l: seq<Hash>)
    requires Dag(g) && to in g && (from != "" ==> from in g) && to !in Known(g, from)
    requires IsListing(g, from, to, l) && g[to].parents == {}
    ensures l == [to]
  {
    TargetLast(g, from, to, l);
    assert Ancestors(g, to) == {to};
    if |l| > 1 {
      var h := Member(l[..|l| - 1]);
    }
  }

  lemma ChainStep(g: Graph, h: Hash) returns (p: Hash)
    requires Dag(g) && h in g && g[h].parents != {}
    ensures p in g[h].parents && ChainTo(g, h) == ChainTo(g, p) + [h]
  {
    p :| p in g[h].parents && ChainTo(g, h) == ChainTo(g, p) + [h];
  }

  /** On a linear history, resuming appends exactly the missing end of the chain. */
  lemma {:induction false} ListingIsChain(g: Graph, from: Hash, to: Hash, l: seq<Hash>)
    requires Dag(g) && Linear(g) && to in g && (from != "" ==> from in g && from in Ancestors(g, to))
    requires IsListing(g, from, to, l)
    ensures (if from == "" then [] else ChainTo(g, from)) + l == ChainTo(g, to)
    decreases g[to].gen
  {
    if from == to && from != "" {
      NothingNew(g, from, to, l);
    } else {
      if from != "" && to in Ancestors(g, from) {
        AncestorsAntisymmetric(g, from, to);
      }
      if g[to].parents == {} {
        ListingOfRoot(g, from, to, l);
        assert Ancestors(g, to) == {to};
      } else {
        var p := ChainStep(g, to);
        ListingOfParent(g, from, to, l, p);
        FromBelowParent(g, from, to, p);
        ListingIsChain(g, from, p, l[..|l| - 1]);
        JoinEnd(if from == "" then [] else ChainTo(g, from), l);
      }
    }
  }

  lemma FromBelowParent(g: Graph, from: Hash, to: Hash, p: Hash)
    requires Dag(g) && Linear(g) && to in g && p in g[to].parents
    requires from != "" ==> from in g && from in Ancestors(g, to) && from != to
    ensures from != "" ==> from in Ancestors(g, p)
  {
  }

  lemma JoinEnd(a: seq<Hash>, l: seq<Hash>)
    requires l != []
    ensures a + l == (a + l[..|l| - 1]) + [l[|l| - 1]]
  {
  }

  function Bare(parents: set<Hash>, gen: nat, date: int): Commit {
    Commit(parents, gen, date, "m", Source(Nil, Ignore.Missing, {}))
  }
}
