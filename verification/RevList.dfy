/**
 * The walk behind `git rev-list from..to`: commits are taken newest first from a queue that starts with
 * the two ends and grows by the parents of what is taken. Ties may be broken in any way.
 */
module RevList {
  import opened History

  function Members(l: seq<Hash>): set<Hash> {
    set h | h in l
  }

  /** What is queued once `done` has been taken: the starts and all parents, less what is done. */
  ghost function Frontier(g: Graph, starts: set<Hash>, done: set<Hash>): set<Hash> {
    (starts + set d, p | d in done && d in g && p in g[d].parents :: p) - done
  }

  ghost predicate IsNewest(g: Graph, queue: set<Hash>, c: Hash) {
    queue <= g.Keys && c in queue && forall q :: q in queue ==> g[q].date <= g[c].date
  }

  /** `pops` can be taken in this order. */
  ghost predicate Walk(g: Graph, starts: set<Hash>, pops: seq<Hash>) {
    forall i {:trigger Takes(g, starts, pops, i)} :: 0 <= i < |pops| ==> Takes(g, starts, pops, i)
  }

  /** The i-th commit is a newest one of the queue at that point. */
  ghost predicate Takes(g: Graph, starts: set<Hash>, pops: seq<Hash>, i: nat)
    requires i < |pops|
  {
    IsNewest(g, Frontier(g, starts, Members(pops[..i])), pops[i])
  }

  ghost predicate FullWalk(g: Graph, starts: set<Hash>, pops: seq<Hash>) {
    Walk(g, starts, pops) && Frontier(g, starts, Members(pops)) == {}
  }

  function Starts(from: Hash, to: Hash): set<Hash> {
    if from == "" then {to} else {to, from}
  }

  /** The taken commits that are not known, last taken first. */
  function Listing(pops: seq<Hash>, known: set<Hash>): seq<Hash> {
    if pops == [] then []
    else Listing(pops[1..], known) + if pops[0] in known then [] else [pops[0]]
  }

  /** `l` is what some walk lists. */
  ghost predicate Walked(g: Graph, from: Hash, to: Hash, l: seq<Hash>)
    requires Dag(g) && to in g && (from != "" ==> from in g)
  {
    exists pops :: FullWalk(g, Starts(from, to), pops) && l == Listing(pops, Known(g, from))
  }

  // ---------------------------------------------------------------- what a walk visits

  ghost predicate ParentsIn(g: Graph, s: set<Hash>) {
    forall h :: h in s ==> h in g && g[h].parents <= s
  }

  lemma {:induction false} AncestorsIn(g: Graph, s: set<Hash>, h: Hash)
    requires Dag(g) && ParentsIn(g, s) && h in s
    ensures Ancestors(g, h) <= s
    decreases g[h].gen
  {
    forall a | a in Ancestors(g, h) ensures a in s {
      if a != h {
        var p :| p in g[h].parents && a in Ancestors(g, p);
        AncestorsIn(g, s, p);
      }
    }
  }

  lemma ParentsAreAncestors(g: Graph, h: Hash, c: Hash)
    requires Dag(g) && h in g && c in Ancestors(g, h)
    ensures c in g && g[c].parents <= Ancestors(g, h)
  {
    AncestorsTransitive(g, h, c);
    ParentsBelow(g, c);
    hide Ancestors;
  }

  lemma ParentsBelow(g: Graph, c: Hash)
    requires Dag(g) && c in g
    ensures g[c].parents <= Ancestors(g, c)
  {
    forall p | p in g[c].parents ensures p in Ancestors(g, c) {
      assert p in Ancestors(g, p);
    }
  }

  ghost function Scope(g: Graph, from: Hash, to: Hash): set<Hash>
    requires Dag(g) && to in g && (from != "" ==> from in g)
  {
    Ancestors(g, to) + Known(g, from)
  }

  lemma ScopeClosed(g: Graph, from: Hash, to: Hash)
    requires Dag(g) && to in g && (from != "" ==> from in g)
    ensures ParentsIn(g, Known(g, from)) && ParentsIn(g, Scope(g, from, to))
    ensures Starts(from, to) <= Scope(g, from, to) <= g.Keys
    ensures from != "" ==> from in Known(g, from)
  {
    forall x | x in Known(g, from) ensures x in g && g[x].parents <= Known(g, from) {
      ParentsAreAncestors(g, from, x);
    }
    forall x | x in Ancestors(g, to) ensures x in g && g[x].parents <= Ancestors(g, to) {
      ParentsAreAncestors(g, to, x);
    }
  }

  lemma MembersNext(pops: seq<Hash>, i: nat)
    requires i < |pops|
    ensures Members(pops[..i + 1]) == Members(pops[..i]) + {pops[i]}
  {
    assert pops[..i + 1] == pops[..i] + [pops[i]];
  }

  lemma {:induction false} WalkInScope(g: Graph, starts: set<Hash>, scope: set<Hash>, pops: seq<Hash>, i: nat)
    requires Dag(g) && ParentsIn(g, scope) && starts <= scope && Walk(g, starts, pops) && i <= |pops|
    ensures Members(pops[..i]) <= scope
    ensures Frontier(g, starts, Members(pops[..i])) <= scope
  {
    if i > 0 {
      WalkInScope(g, starts, scope, pops, i - 1);
      MembersNext(pops, i - 1);
      assert Takes(g, starts, pops, i - 1);
    }
  }

  lemma WalkOnce(g: Graph, starts: set<Hash>, pops: seq<Hash>)
    requires Walk(g, starts, pops)
    ensures NoDup(pops)
  {
    forall i, j | 0 <= i < j < |pops| ensures pops[i] != pops[j] {
      assert Takes(g, starts, pops, j);
      assert pops[..j][i] == pops[i];
    }
  }

  /** A full walk visits exactly the scope. */
  lemma FullWalkVisits(g: Graph, from: Hash, to: Hash, pops: seq<Hash>)
    requires Dag(g) && to in g && (from != "" ==> from in g) && FullWalk(g, Starts(from, to), pops)
    ensures Members(pops) == Scope(g, from, to) && NoDup(pops)
  {
    var starts, all := Starts(from, to), Members(pops);
    ScopeClosed(g, from, to);
    WalkOnce(g, starts, pops);
    WalkInScope(g, starts, Scope(g, from, to), pops, |pops|);
    assert pops[..|pops|] == pops;
    assert ParentsIn(g, all) by {
      forall h | h in all ensures h in g && g[h].parents <= all {
        forall p | p in g[h].parents ensures p in all {
          assert p !in Frontier(g, starts, all);
        }
      }
    }
    assert forall s :: s in starts ==> s !in Frontier(g, starts, all);
    AncestorsIn(g, all, to);
    if from != "" {
      AncestorsIn(g, all, from);
    }
  }

  // ---------------------------------------------------------------- what a walk lists

  lemma {:induction false} ListingMembers(pops: seq<Hash>, known: set<Hash>)
    requires NoDup(pops)
    ensures NoDup(Listing(pops, known))
    ensures forall h :: h in Listing(pops, known) <==> h in pops && h !in known
  {
    if pops != [] {
      var rest := pops[1..];
      assert forall i, j :: 0 <= i < j < |rest| ==> rest[i] == pops[i + 1] && rest[j] == pops[j + 1];
      ListingMembers(rest, known);
      assert pops[0] !in rest;
      assert forall h :: h in pops <==> h == pops[0] || h in rest;
    }
  }

  /** The last commit listed is the first taken that is not known. */
  lemma {:induction false} ListingLast(pops: seq<Hash>, known: set<Hash>, i: nat)
    requires i < |pops| && pops[i] !in known && forall k :: 0 <= k < i ==> pops[k] in known
    ensures Listing(pops, known) != [] && Listing(pops, known)[|Listing(pops, known)| - 1] == pops[i]
  {
    if i > 0 {
      ListingLast(pops[1..], known, i - 1);
    }
  }

  lemma FirstUnknown(pops: seq<Hash>, known: set<Hash>, x: Hash) returns (i: nat)
    requires x in pops && x !in known
    ensures i < |pops| && pops[i] !in known && forall k :: 0 <= k < i ==> pops[k] in known
  {
    i := 0;
    while pops[i] in known
      invariant i < |pops| && forall k :: 0 <= k < i ==> pops[k] in known
      invariant x in pops[i..]
      decreases |pops| - i
    {
      assert pops[i..] == [pops[i]] + pops[i + 1..];
      i := i + 1;
    }
  }

  lemma WalkedEnumerates(g: Graph, from: Hash, to: Hash, pops: seq<Hash>)
    requires Dag(g) && to in g && (from != "" ==> from in g) && FullWalk(g, Starts(from, to), pops)
    ensures Enumerates(g, from, to, Listing(pops, Known(g, from)))
  {
    FullWalkVisits(g, from, to, pops);
    ListingMembers(pops, Known(g, from));
    assert forall h :: h in pops <==> h in Members(pops);
    hide FullWalk, Walk, Listing;
  }

  /** The first commit a walk takes that is not known is the target. */
  lemma TargetFirst(g: Graph, from: Hash, to: Hash, pops: seq<Hash>, i: nat)
    requires Dag(g) && to in g && (from != "" ==> from in g) && Walk(g, Starts(from, to), pops)
    requires i < |pops| && pops[i] !in Known(g, from) && forall k :: 0 <= k < i ==> pops[k] in Known(g, from)
    ensures pops[i] == to
  {
    ScopeClosed(g, from, to);
    var starts, done := Starts(from, to), Members(pops[..i]);
    assert Takes(g, starts, pops, i);
    assert done <= Known(g, from);
  }

  lemma ListsTargetLast(g: Graph, from: Hash, to: Hash, pops: seq<Hash>)
    requires Dag(g) && to in g && (from != "" ==> from in g) && FullWalk(g, Starts(from, to), pops)
    requires to !in Known(g, from)
    ensures var l := Listing(pops, Known(g, from)); l != [] && l[|l| - 1] == to
  {
    FullWalkVisits(g, from, to, pops);
    assert to in Ancestors(g, to);
    assert to in Members(pops);
    hide Ancestors, Listing, Enumerates;
    var i := FirstUnknown(pops, Known(g, from), to);
    TargetFirst(g, from, to, pops, i);
    ListingLast(pops, Known(g, from), i);
  }

  /** A walk lists each commit of the range once, and the target last. */
  lemma WalkedLists(g: Graph, from: Hash, to: Hash, l: seq<Hash>)
    requires Dag(g) && to in g && (from != "" ==> from in g) && Walked(g, from, to, l)
    ensures Enumerates(g, from, to, l)
    ensures if to in Known(g, from) then l == [] else l != [] && l[|l| - 1] == to
  {
    var pops :| FullWalk(g, Starts(from, to), pops) && l == Listing(pops, Known(g, from));
    WalkedEnumerates(g, from, to, pops);
    hide FullWalk, Listing;
    if to in Known(g, from) {
      NothingNew(g, from, to, l);
    } else {
      ListsTargetLast(g, from, to, pops);
    }
  }

  // ---------------------------------------------------------------- when a commit can be taken before another

  ghost predicate IsPath(g: Graph, path: seq<Hash>) {
    && path != []
    && (forall k :: 0 <= k < |path| ==> path[k] in g)
    && forall k :: 0 < k < |path| ==> path[k] in g[path[k - 1]].parents
  }

  /** `branch` leaves `path` for good at its i-th commit and leads to `c`. */
  ghost predicate Branches(g: Graph, path: seq<Hash>, i: nat, branch: seq<Hash>, c: Hash) {
    && i < |path| && IsPath(g, branch) && |branch| > 1
    && branch[0] == path[i] && branch[|branch| - 1] == c
    && forall k :: 0 < k < |branch| ==> branch[k] !in path
  }

  /** Some commit of the branch is as old as every commit the path still has to go. */
  ghost predicate Waits(g: Graph, path: seq<Hash>, i: nat, branch: seq<Hash>, k: nat)
    requires IsPath(g, path) && IsPath(g, branch)
  {
    0 < k < |branch| && forall v :: i < v < |path| ==> g[branch[k]].date <= g[path[v]].date
  }

  ghost predicate Held(g: Graph, path: seq<Hash>, i: nat, branch: seq<Hash>)
    requires IsPath(g, path) && IsPath(g, branch)
  {
    exists k :: Waits(g, path, i, branch, k)
  }

  /**
   * There is a path from the target to `p` past `c` on which nothing is older than all of a branch that
   * leads to `c`: wherever such a branch leaves the path, it holds a commit as old as the rest of the path.
   */
  ghost predicate Overtakes(g: Graph, to: Hash, c: Hash, p: Hash) {
    exists path :: Passes(g, to, c, p, path)
  }

  ghost predicate Passes(g: Graph, to: Hash, c: Hash, p: Hash, path: seq<Hash>) {
    && IsPath(g, path) && path[0] == to && path[|path| - 1] == p && c !in path
    && forall i, branch {:trigger Branches(g, path, i, branch, c)} :: Branches(g, path, i, branch, c) ==> Held(g, path, i, branch)
  }

  function Index(pops: seq<Hash>, h: Hash): (i: nat)
    requires h in pops
    ensures i < |pops| && pops[i] == h && h !in pops[..i]
  {
    if pops[0] == h then 0
    else
      var i := 1 + Index(pops[1..], h);
      assert pops[..i] == [pops[0]] + pops[1..][..i - 1];
      i
  }

  /** Both are taken, `p` earlier. */
  predicate Earlier(pops: seq<Hash>, p: Hash, c: Hash) {
    p in pops && c in pops && Index(pops, p) < Index(pops, c)
  }

  /** How a walk got to a commit: a path of earlier and earlier taken commits. */
  ghost predicate Trace(g: Graph, pops: seq<Hash>, path: seq<Hash>, at: seq<nat>) {
    && IsPath(g, path) && |at| == |path|
    && (forall k :: 0 <= k < |at| ==> at[k] < |pops| && path[k] == pops[at[k]])
    && forall k, m :: 0 <= k < m < |at| ==> at[k] < at[m]
  }

  lemma Predecessor(g: Graph, starts: set<Hash>, pops: seq<Hash>, i: nat) returns (k: nat)
    requires Walk(g, starts, pops) && i < |pops| && pops[i] !in starts
    ensures k < i && pops[k] in g && pops[i] in g && pops[i] in g[pops[k]].parents
  {
    var done := Members(pops[..i]);
    assert Takes(g, starts, pops, i);
    var d :| d in done && d in g && pops[i] in g[d].parents;
    k :| 0 <= k < i && pops[..i][k] == d;
  }

  lemma {:induction false} Discovery(g: Graph, starts: set<Hash>, pops: seq<Hash>, i: nat) returns (path: seq<Hash>, at: seq<nat>)
    requires Dag(g) && Walk(g, starts, pops) && i < |pops|
    ensures Trace(g, pops, path, at) && at[|at| - 1] == i && path[0] in starts
    decreases i
  {
    if pops[i] in starts {
      assert Takes(g, starts, pops, i);
      path, at := [pops[i]], [i];
    } else {
      var k := Predecessor(g, starts, pops, i);
      hide Walk, Takes;
      var path0, at0 := Discovery(g, starts, pops, k);
      TraceNext(g, pops, path0, at0, i);
      path, at := path0 + [pops[i]], at0 + [i];
    }
  }

  lemma TraceNext(g: Graph, pops: seq<Hash>, path: seq<Hash>, at: seq<nat>, i: nat)
    requires Trace(g, pops, path, at) && i < |pops| && at[|at| - 1] < i
    requires pops[i] in g && pops[i] in g[path[|path| - 1]].parents
    ensures Trace(g, pops, path + [pops[i]], at + [i])
  {
    var path1, at1 := path + [pops[i]], at + [i];
    assert IsPath(g, path1) by {
      forall k | 0 < k < |path1| ensures path1[k] in g[path1[k - 1]].parents {
        assert path1[k - 1] == path[k - 1];
      }
    }
    assert forall m :: 0 <= m < |at| ==> at[m] <= at[|at| - 1];
  }

  /** Somewhere a path from a taken commit to one not taken leaves the taken ones. */
  lemma {:induction false} Crossing(path: seq<Hash>, done: set<Hash>) returns (k: nat)
    requires |path| > 1 && path[0] in done && path[|path| - 1] !in done
    ensures 0 < k < |path| && path[k - 1] in done && path[k] !in done
    decreases |path|
  {
    if path[1] !in done {
      k := 1;
    } else {
      k := Crossing(path[1..], done);
      k := k + 1;
    }
  }

  lemma CrossingQueued(g: Graph, starts: set<Hash>, path: seq<Hash>, done: set<Hash>, k: nat)
    requires IsPath(g, path) && 0 < k < |path| && path[k - 1] in done && path[k] !in done
    ensures path[k] in Frontier(g, starts, done)
  {
  }

  lemma {:induction false} OldestAfter(g: Graph, path: seq<Hash>, i: nat) returns (v: nat)
    requires IsPath(g, path) && i + 1 < |path|
    ensures i < v < |path| && forall w :: i < w < |path| ==> g[path[v]].date <= g[path[w]].date
    decreases |path| - i
  {
    v := i + 1;
    if i + 2 < |path| {
      var w := OldestAfter(g, path, i + 1);
      v := if g[path[w]].date < g[path[i + 1]].date then w else i + 1;
    }
  }

  lemma {:induction false} PathAncestor(g: Graph, path: seq<Hash>)
    requires Dag(g) && IsPath(g, path)
    ensures path[|path| - 1] in Ancestors(g, path[0])
    decreases |path|
  {
    if |path| > 1 {
      PathAncestor(g, path[1..]);
    }
  }

  lemma PrefixMember(pops: seq<Hash>, m: nat, n: nat, c: Hash)
    requires m <= n <= |pops| && c !in pops[..n]
    ensures c !in pops[..m]
  {
    assert pops[..m] <= pops[..n];
  }

  /** On a walk that takes `p` earlier, every branch off its trace to `c` has to wait. */
  lemma HeldOnWalk(g: Graph, starts: set<Hash>, pops: seq<Hash>, path: seq<Hash>, at: seq<nat>, i: nat, branch: seq<Hash>, c: Hash)
    requires Dag(g) && Walk(g, starts, pops) && Trace(g, pops, path, at)
    requires c !in pops[..at[|at| - 1]]
    requires Branches(g, path, i, branch, c)
    ensures Held(g, path, i, branch)
  {
    if i + 1 == |path| {
      assert Waits(g, path, i, branch, 1);
    } else {
      var v := OldestAfter(g, path, i);
      var t := at[v];
      var done := Members(pops[..t]);
      assert pops[..t][at[i]] == branch[0];
      assert t <= at[|at| - 1];
      PrefixMember(pops, t, at[|at| - 1], c);
      var k := Crossing(branch, done);
      CrossingQueued(g, starts, branch, done, k);
      assert Takes(g, starts, pops, t);
      assert Waits(g, path, i, branch, k);
    }
  }

  /** What a walk takes earlier overtakes in the graph. */
  lemma WalkOvertakes(g: Graph, from: Hash, to: Hash, pops: seq<Hash>, c: Hash, p: Hash)
    requires Dag(g) && to in g && (from != "" ==> from in g) && Walk(g, Starts(from, to), pops)
    requires Earlier(pops, p, c) && p !in Known(g, from)
    ensures Overtakes(g, to, c, p)
  {
    var i := Index(pops, p);
    var path, at := Discovery(g, Starts(from, to), pops, i);
    PathAncestor(g, path);
    assert path[0] == to;
    PrefixMember(pops, i, Index(pops, c), c);
    forall k | 0 <= k < |path| ensures path[k] != c {
      assert at[k] <= i;
      assert at[k] < i ==> pops[..i][at[k]] == path[k];
    }
    hide Walk, Ancestors, Held;
    forall j, branch | Branches(g, path, j, branch, c) ensures Held(g, path, j, branch) {
      HeldOnWalk(g, Starts(from, to), pops, path, at, j, branch, c);
    }
    assert Passes(g, to, c, p, path);
  }

  // ---------------------------------------------------------------- a walk that breaks ties in favour of some commits

  /** The i-th commit is taken, and is a preferred one if a preferred one is as new. */
  ghost predicate Prefers(g: Graph, starts: set<Hash>, pops: seq<Hash>, pref: set<Hash>, i: nat)
    requires i < |pops|
  {
    && Takes(g, starts, pops, i)
    && (pops[i] in pref ||
        forall q :: q in Frontier(g, starts, Members(pops[..i])) && q in pref && q in g ==> g[q].date < g[pops[i]].date)
  }

  ghost predicate Preferring(g: Graph, starts: set<Hash>, pops: seq<Hash>, pref: set<Hash>) {
    forall i {:trigger Prefers(g, starts, pops, pref, i)} :: 0 <= i < |pops| ==> Prefers(g, starts, pops, pref, i)
  }

  lemma {:induction false} NewestOf(g: Graph, queue: set<Hash>) returns (c: Hash)
    requires queue != {} && queue <= g.Keys
    ensures IsNewest(g, queue, c)
    decreases queue
  {
    c :| c in queue;
    if queue != {c} {
      var d := NewestOf(g, queue - {c});
      if g[d].date > g[c].date {
        c := d;
      }
    }
  }

  /** A newest queued commit, preferred if a preferred one is as new. */
  lemma PreferredOf(g: Graph, queue: set<Hash>, pref: set<Hash>) returns (c: Hash)
    requires queue != {} && queue <= g.Keys
    ensures IsNewest(g, queue, c)
    ensures c in pref || forall q :: q in queue && q in pref ==> g[q].date < g[c].date
  {
    c := NewestOf(g, queue);
    if q :| q in queue && q in pref && g[q].date == g[c].date {
      c := q;
    }
  }

  lemma PreferringNext(g: Graph, starts: set<Hash>, pops: seq<Hash>, pref: set<Hash>, c: Hash)
    requires Preferring(g, starts, pops, pref)
    requires IsNewest(g, Frontier(g, starts, Members(pops)), c)
    requires c in pref || forall q :: q in Frontier(g, starts, Members(pops)) && q in pref && q in g ==> g[q].date < g[c].date
    ensures Preferring(g, starts, pops + [c], pref)
  {
    var more := pops + [c];
    forall i | 0 <= i < |more| ensures Prefers(g, starts, more, pref, i) {
      assert more[..i] == pops[..i];
      if i < |pops| {
        assert Prefers(g, starts, pops, pref, i);
      } else {
        assert pops[..i] == pops;
      }
    }
  }

  lemma PreferringWalks(g: Graph, starts: set<Hash>, pops: seq<Hash>, pref: set<Hash>)
    requires Preferring(g, starts, pops, pref)
    ensures Walk(g, starts, pops)
  {
    forall i | 0 <= i < |pops| ensures Takes(g, starts, pops, i) {
      assert Prefers(g, starts, pops, pref, i);
    }
  }

  /** Any such walk can be finished. */
  lemma {:induction false} Finish(g: Graph, starts: set<Hash>, scope: set<Hash>, pops: seq<Hash>, pref: set<Hash>) returns (all: seq<Hash>)
    requires Dag(g) && ParentsIn(g, scope) && starts <= scope <= g.Keys && Preferring(g, starts, pops, pref)
    ensures Preferring(g, starts, all, pref) && FullWalk(g, starts, all)
    decreases scope - Members(pops)
  {
    PreferringWalks(g, starts, pops, pref);
    WalkInScope(g, starts, scope, pops, |pops|);
    assert pops[..|pops|] == pops;
    var queue := Frontier(g, starts, Members(pops));
    if queue == {} {
      all := pops;
    } else {
      var c := PreferredOf(g, queue, pref);
      PreferringNext(g, starts, pops, pref, c);
      assert Members(pops + [c]) == Members(pops) + {c};
      assert c in scope - Members(pops);
      all := Finish(g, starts, scope, pops + [c], pref);
    }
  }

  lemma {:induction false} LastOn(q: seq<Hash>, path: seq<Hash>) returns (j: nat)
    requires q != [] && q[0] in path
    ensures j < |q| && q[j] in path && forall k :: j < k < |q| ==> q[k] !in path
  {
    j := |q| - 1;
    while q[j] !in path
      invariant j < |q| && forall k :: j < k < |q| ==> q[k] !in path
      decreases j
    {
      j := j - 1;
    }
  }

  /** The end of a path that starts on another is a branch off it. */
  lemma EndBranches(g: Graph, path: seq<Hash>, q: seq<Hash>, c: Hash) returns (i: nat, j: nat)
    requires IsPath(g, path) && IsPath(g, q) && q[0] == path[0] && q[|q| - 1] == c && c !in path
    ensures i < |path| && j + 1 < |q| && path[i] == q[j]
    ensures Branches(g, path, i, q[j..], c)
  {
    j := LastOn(q, path);
    i :| 0 <= i < |path| && path[i] == q[j];
    var branch := q[j..];
    assert forall k :: 0 <= k < |branch| ==> branch[k] == q[j + k];
    assert branch[|branch| - 1] == c;
  }

  /** A walk that prefers the path does not take `c` before the end of it. */
  lemma NotBeforePath(g: Graph, from: Hash, to: Hash, c: Hash, p: Hash, path: seq<Hash>, pops: seq<Hash>)
    requires Dag(g) && to in g && (from != "" ==> from in g) && c !in Known(g, from)
    requires Passes(g, to, c, p, path) && Preferring(g, Starts(from, to), pops, Members(path))
    requires c in pops && p in pops
    ensures Index(pops, p) < Index(pops, c)
  {
    var starts, pref := Starts(from, to), Members(path);
    PreferringWalks(g, starts, pops, pref);
    var t := Index(pops, c);
    if t <= Index(pops, p) {
      var q, at := Discovery(g, starts, pops, t);
      PathAncestor(g, q);
      assert q[0] == to;
      var i, j := EndBranches(g, path, q, c);
      assert Held(g, path, i, q[j..]);
      var k :| Waits(g, path, i, q[j..], k);
      NotTaken(g, starts, pops, path, p, i, q, at, j, k);
    }
  }

  /** A commit as old as the rest of the path that is taken while the path is not finished is itself on it. */
  lemma NotTaken(g: Graph, starts: set<Hash>, pops: seq<Hash>, path: seq<Hash>, p: Hash, i: nat, q: seq<Hash>, at: seq<nat>, j: nat, k: nat)
    requires IsPath(g, path) && path[|path| - 1] == p && Preferring(g, starts, pops, Members(path))
    requires Trace(g, pops, q, at) && p in pops && at[|at| - 1] <= Index(pops, p)
    requires i < |path| && j < |q| && path[i] == q[j] && IsPath(g, q[j..]) && q[|q| - 1] != p
    requires Waits(g, path, i, q[j..], k)
    ensures q[j + k] in path
  {
    var t := at[j + k];
    assert t <= Index(pops, p);
    var done := Members(pops[..t]);
    assert pops[..t][at[j]] == path[i];
    PrefixMember(pops, t, Index(pops, p), p);
    var v := QueuedOnPath(g, starts, path, i, done);
    assert path[v] in Members(path);
    assert Prefers(g, starts, pops, Members(path), t);
    assert pops[t] == q[j + k] == q[j..][k];
    hide Frontier, Trace, Preferring;
    assert Takes(g, starts, pops, t);
    assert g[q[j..][k]].date <= g[path[v]].date;
    assert q[j + k] in Members(path);
  }

  lemma QueuedOnPath(g: Graph, starts: set<Hash>, path: seq<Hash>, i: nat, done: set<Hash>) returns (v: nat)
    requires IsPath(g, path) && i < |path| && path[i] in done && path[|path| - 1] !in done
    ensures i < v < |path| && path[v] in Frontier(g, starts, done)
  {
    var rest := path[i..];
    assert rest[|rest| - 1] == path[|path| - 1];
    assert IsPath(g, rest);
    v := Crossing(rest, done);
    CrossingQueued(g, starts, rest, done, v);
    v := i + v;
  }

  /** Some walk takes `p` before `c` if and only if `p` overtakes `c` in the graph. */
  lemma OvertakesIff(g: Graph, from: Hash, to: Hash, c: Hash, p: Hash)
    requires Dag(g) && to in g && (from != "" ==> from in g)
    requires c in Ancestors(g, to) && c !in Known(g, from) && p !in Known(g, from)
    ensures (exists pops :: FullWalk(g, Starts(from, to), pops) && Earlier(pops, p, c)) <==> Overtakes(g, to, c, p)
  {
    if pops :| FullWalk(g, Starts(from, to), pops) && Earlier(pops, p, c) {
      WalkOvertakes(g, from, to, pops, c, p);
    }
    if Overtakes(g, to, c, p) {
      var pops := OvertakingWalk(g, from, to, c, p);
    }
  }

  lemma OvertakingWalk(g: Graph, from: Hash, to: Hash, c: Hash, p: Hash) returns (pops: seq<Hash>)
    requires Dag(g) && to in g && (from != "" ==> from in g)
    requires c in Ancestors(g, to) && c !in Known(g, from) && Overtakes(g, to, c, p)
    ensures FullWalk(g, Starts(from, to), pops) && Earlier(pops, p, c)
  {
    var path :| Passes(g, to, c, p, path);
    ScopeClosed(g, from, to);
    pops := Finish(g, Starts(from, to), Scope(g, from, to), [], Members(path));
    FullWalkVisits(g, from, to, pops);
    PathAncestor(g, path);
    assert p in Members(pops) && c in Members(pops);
    NotBeforePath(g, from, to, c, p, path, pops);
  }

  // ---------------------------------------------------------------- when every listing has ancestors first

  /** No missing commit overtakes one of its children. */
  ghost predicate Orderly(g: Graph, from: Hash, to: Hash)
    requires Dag(g) && to in g && (from != "" ==> from in g)
  {
    forall c, p :: c in Ancestors(g, to) && c !in Known(g, from) && c in g && p in g[c].parents && p !in Known(g, from) ==>
      !Overtakes(g, to, c, p)
  }

  /** Of two listed commits the one taken later is listed earlier. */
  lemma {:induction false} ListingOrder(pops: seq<Hash>, known: set<Hash>, x: Hash, y: Hash) returns (i: nat, j: nat)
    requires NoDup(pops) && Earlier(pops, x, y) && x !in known && y !in known
    ensures i < j < |Listing(pops, known)| && Listing(pops, known)[i] == y && Listing(pops, known)[j] == x
    decreases |pops|
  {
    var rest := pops[1..];
    assert forall k, m :: 0 <= k < m < |rest| ==> rest[k] == pops[k + 1] && rest[m] == pops[m + 1];
    assert y in rest;
    ListingMembers(rest, known);
    if pops[0] == x {
      assert y in Listing(rest, known);
      i :| 0 <= i < |Listing(rest, known)| && Listing(rest, known)[i] == y;
      j := |Listing(rest, known)|;
    } else {
      i, j := ListingOrder(rest, known, x, y);
    }
  }

  lemma ListedEarlier(pops: seq<Hash>, known: set<Hash>, i: nat, j: nat)
    requires NoDup(pops) && i < j < |Listing(pops, known)|
    ensures Earlier(pops, Listing(pops, known)[j], Listing(pops, known)[i])
  {
    var l := Listing(pops, known);
    ListingMembers(pops, known);
    var y, x := l[i], l[j];
    assert y in l && x in l;
    if Index(pops, y) < Index(pops, x) {
      var a, b := ListingOrder(pops, known, y, x);
    }
  }

  /** If an ancestor is taken earlier, so is some parent before its child on the way. */
  lemma {:induction false} ParentEarlier(g: Graph, pops: seq<Hash>, h: Hash, a: Hash) returns (c: Hash, p: Hash)
    requires Dag(g) && h in g && a in Ancestors(g, h) && Earlier(pops, a, h)
    requires Ancestors(g, h) <= Members(pops)
    ensures c in Ancestors(g, h) && c in g && p in g[c].parents && p in g && a in Ancestors(g, p) && Earlier(pops, p, c)
    decreases g[h].gen
  {
    var q :| q in g[h].parents && a in Ancestors(g, q);
    ParentsAreAncestors(g, h, h);
    AncestorsTransitive(g, h, q);
    assert q in Members(pops);
    if Index(pops, q) < Index(pops, h) {
      c, p := h, q;
    } else {
      c, p := ParentEarlier(g, pops, q, a);
    }
  }

  /** What is listed out of order overtakes a child. */
  lemma DisorderOvertakes(g: Graph, from: Hash, to: Hash, pops: seq<Hash>, i: nat, j: nat)
    requires Dag(g) && to in g && (from != "" ==> from in g) && FullWalk(g, Starts(from, to), pops)
    requires i < j < |Listing(pops, Known(g, from))|
    requires Listing(pops, Known(g, from))[i] in g
    requires Listing(pops, Known(g, from))[j] in Ancestors(g, Listing(pops, Known(g, from))[i])
    ensures !Orderly(g, from, to)
  {
    var known := Known(g, from);
    var h, a := Listing(pops, known)[i], Listing(pops, known)[j];
    WalkedEnumerates(g, from, to, pops);
    FullWalkVisits(g, from, to, pops);
    ListingMembers(pops, known);
    assert h in Listing(pops, known) && a in Listing(pops, known);
    ListedEarlier(pops, known, i, j);
    AncestorsTransitive(g, to, h);
    var c, p := ParentEarlier(g, pops, h, a);
    NotKnownAbove(g, from, p, a);
    assert p in Ancestors(g, p);
    assert a in Ancestors(g, c) by {
      assert c in g && p in g[c].parents;
    }
    NotKnownAbove(g, from, c, a);
    hide Listing, FullWalk;
    WalkOvertakes(g, from, to, pops, c, p);
  }

  lemma NotKnownAbove(g: Graph, from: Hash, h: Hash, a: Hash)
    requires Dag(g) && (from != "" ==> from in g) && h in g && a in Ancestors(g, h) && a !in Known(g, from)
    ensures h !in Known(g, from)
  {
    if h in Known(g, from) {
      AncestorsTransitive(g, from, h);
    }
  }

  lemma OrderlyLists(g: Graph, from: Hash, to: Hash, l: seq<Hash>)
    requires Dag(g) && to in g && (from != "" ==> from in g) && Orderly(g, from, to) && Walked(g, from, to, l)
    ensures IsListing(g, from, to, l)
  {
    WalkedLists(g, from, to, l);
    var pops :| FullWalk(g, Starts(from, to), pops) && l == Listing(pops, Known(g, from));
    AncestorsInGraph(g, to);
    assert forall i :: 0 <= i < |l| ==> l[i] in l && l[i] in g;
    hide FullWalk, Orderly, Listing, Ancestors, Enumerates, Walked, Known;
    forall i, j | 0 <= i < j < |l| ensures l[j] !in Ancestors(g, l[i]) {
      if l[j] in Ancestors(g, l[i]) {
        DisorderOvertakes(g, from, to, pops, i, j);
      }
    }
  }

  lemma DisorderlyLists(g: Graph, from: Hash, to: Hash) returns (l: seq<Hash>)
    requires Dag(g) && to in g && (from != "" ==> from in g) && !Orderly(g, from, to)
    ensures Walked(g, from, to, l) && !AncestorsFirst(g, l)
  {
    var c, p :| c in Ancestors(g, to) && c !in Known(g, from) && c in g && p in g[c].parents && p !in Known(g, from)
                && Overtakes(g, to, c, p);
    var pops := OvertakingWalk(g, from, to, c, p);
    FullWalkVisits(g, from, to, pops);
    l := Listing(pops, Known(g, from));
    var i, j := ListingOrder(pops, Known(g, from), p, c);
    assert p in Ancestors(g, c) by {
      assert p in Ancestors(g, p);
    }
  }

  /**
   * Every newest-first walk lists ancestors first, however ties are broken, if and only if no missing
   * commit overtakes a child of its own.
   */
  lemma OrderlyIff(g: Graph, from: Hash, to: Hash)
    requires Dag(g) && to in g && (from != "" ==> from in g)
    ensures Orderly(g, from, to) <==> forall l :: Walked(g, from, to, l) ==> AncestorsFirst(g, l)
  {
    if Orderly(g, from, to) {
      forall l | Walked(g, from, to, l) ensures AncestorsFirst(g, l) {
        OrderlyLists(g, from, to, l);
      }
    } else {
      var l := DisorderlyLists(g, from, to);
    }
  }

  // ---------------------------------------------------------------- graphs that are always orderly

  /** Committer dates strictly increase from parents to children. */
  ghost predicate DatesIncrease(g: Graph) {
    forall h, p :: h in g && p in g[h].parents && p in g ==> g[p].date < g[h].date
  }

  lemma {:induction false} AncestorsEarlier(g: Graph, h: Hash, a: Hash)
    requires Dag(g) && DatesIncrease(g) && h in g && a in Ancestors(g, h) && a != h
    ensures a in g && g[a].date < g[h].date
    decreases g[h].gen
  {
    var p :| p in g[h].parents && a in Ancestors(g, p);
    if a != p {
      AncestorsEarlier(g, p, a);
    }
  }

  lemma {:induction false} PathTo(g: Graph, h: Hash, a: Hash) returns (path: seq<Hash>)
    requires Dag(g) && h in g && a in Ancestors(g, h)
    ensures IsPath(g, path) && path[0] == h && path[|path| - 1] == a
    decreases g[h].gen
  {
    if a == h {
      path := [h];
    } else {
      var p :| p in g[h].parents && a in Ancestors(g, p);
      var rest := PathTo(g, p, a);
      path := [h] + rest;
      forall k | 0 < k < |path| ensures path[k] in g[path[k - 1]].parents {
        assert k > 1 ==> path[k - 1] == rest[k - 2];
      }
    }
  }

  /** With increasing dates a branch to a child is newer than a path that still has its parent to go. */
  lemma NewerBranch(g: Graph, path: seq<Hash>, i: nat, branch: seq<Hash>, c: Hash, p: Hash)
    requires Dag(g) && DatesIncrease(g) && c in g && p in g[c].parents
    requires IsPath(g, path) && path[|path| - 1] == p && Branches(g, path, i, branch, c)
    ensures !Held(g, path, i, branch)
  {
    if i + 1 == |path| {
      ChildNotBelow(g, c, p, branch);
    }
    forall k: nat | 0 < k < |branch| ensures !Waits(g, path, i, branch, k) {
      TailReaches(g, branch, k);
      if branch[k] != c {
        AncestorsEarlier(g, branch[k], c);
      }
      assert g[p].date < g[branch[k]].date;
      assert i < |path| - 1 < |path|;
    }
  }

  /** Increasing dates make every listing have ancestors first. */
  lemma DatesOrderly(g: Graph, from: Hash, to: Hash)
    requires Dag(g) && DatesIncrease(g) && to in g && (from != "" ==> from in g)
    ensures Orderly(g, from, to)
  {
    forall c, p | c in Ancestors(g, to) && c in g && p in g[c].parents ensures !Overtakes(g, to, c, p) {
      if Overtakes(g, to, c, p) {
        var path :| Passes(g, to, c, p, path);
        var q := PathTo(g, to, c);
        var i, j := EndBranches(g, path, q, c);
        NewerBranch(g, path, i, q[j..], c, p);
      }
    }
  }

  lemma TailReaches(g: Graph, path: seq<Hash>, k: nat)
    requires Dag(g) && IsPath(g, path) && k < |path|
    ensures path[|path| - 1] in Ancestors(g, path[k])
  {
    assert IsPath(g, path[k..]);
    PathAncestor(g, path[k..]);
  }

  /** No path leads from a parent to its child. */
  lemma ChildNotBelow(g: Graph, c: Hash, p: Hash, path: seq<Hash>)
    requires Dag(g) && c in g && p in g[c].parents
    requires IsPath(g, path) && path[0] == p
    ensures path[|path| - 1] != c
  {
    PathAncestor(g, path);
    if path[|path| - 1] == c {
      if c != p {
        AncestorsOlder(g, p, c);
      }
    }
  }

  /** On a linear history a path that goes past a commit cannot reach the commit's parent. */
  lemma {:induction false} LinearMeets(g: Graph, path: seq<Hash>, c: Hash, k: nat)
    requires Dag(g) && Linear(g) && IsPath(g, path) && c in Ancestors(g, path[0]) && c !in path && k < |path|
    ensures c in Ancestors(g, path[k])
  {
    if k > 0 {
      LinearMeets(g, path, c, k - 1);
      var q :| q in g[path[k - 1]].parents && c in Ancestors(g, q);
      assert q == path[k];
    }
  }

  /** So is every linear history, whatever its dates. */
  lemma LinearOrderly(g: Graph, from: Hash, to: Hash)
    requires Dag(g) && Linear(g) && to in g && (from != "" ==> from in g)
    ensures Orderly(g, from, to)
  {
    forall c, p | c in Ancestors(g, to) && c in g && p in g[c].parents ensures !Overtakes(g, to, c, p) {
      if Overtakes(g, to, c, p) {
        var path :| Passes(g, to, c, p, path);
        LinearMeets(g, path, c, |path| - 1);
        var back := PathTo(g, p, c);
        ChildNotBelow(g, c, p, back);
      }
    }
  }

  // ---------------------------------------------------------------- the listing as git computes it

  function Without(l: seq<Hash>, known: set<Hash>): seq<Hash> {
    if l == [] then []
    else (if l[0] in known then [] else [l[0]]) + Without(l[1..], known)
  }

  lemma {:induction false} ListingSnoc(pops: seq<Hash>, c: Hash, known: set<Hash>)
    ensures Listing(pops + [c], known) == (if c in known then [] else [c]) + Listing(pops, known)
    decreases |pops|
  {
    if pops == [] {
      assert [c][1..] == [];
    } else {
      assert (pops + [c])[1..] == pops[1..] + [c];
      ListingSnoc(pops[1..], c, known);
    }
  }

  lemma ListingNext(l: seq<Hash>, pops: seq<Hash>, c: Hash, known: set<Hash>, marked: bool)
    requires Without(l, known) == Listing(pops, known) && (marked ==> c in known)
    ensures Without(if marked then l else [c] + l, known) == Listing(pops + [c], known)
  {
    ListingSnoc(pops, c, known);
    assert ([c] + l)[1..] == l;
  }

  method Newest(g: Graph, queue: set<Hash>) returns (c: Hash)
    requires queue != {} && queue <= g.Keys
    ensures IsNewest(g, queue, c)
  {
    c :| c in queue;
    var rest := queue - {c};
    while rest != {}
      invariant rest <= queue && c in queue
      invariant forall q :: q in queue && q !in rest ==> g[q].date <= g[c].date
      decreases rest
    {
      var q :| q in rest;
      if g[q].date > g[c].date {
        c := q;
      }
      rest := rest - {q};
    }
  }

  /** The parents of every commit that is done and marked are marked, but for those still to be looked at. */
  ghost predicate Passed(g: Graph, done: set<Hash>, dull: set<Hash>, rest: set<Hash>) {
    forall d, p :: d in done && d in dull && d in g && p in g[d].parents ==> p in dull || p in rest
  }

  /** Marks commits as known, and through those already done what is behind them. */
  method MarkKnown(g: Graph, done: set<Hash>, marked: set<Hash>, first: set<Hash>, ghost known: set<Hash>) returns (dull: set<Hash>)
    requires done <= g.Keys && first <= known <= g.Keys && marked <= known && ParentsIn(g, known)
    requires Passed(g, done, marked, first)
    ensures marked <= dull <= known && Passed(g, done, dull, {})
  {
    dull := marked;
    var rest := first;
    while rest != {}
      invariant rest <= known && marked <= dull <= known && Passed(g, done, dull, rest)
      decreases known - dull, rest
    {
      var p :| p in rest;
      rest := rest - {p};
      if p !in dull {
        dull := dull + {p};
        if p in done {
          rest := rest + g[p].parents;
        }
      }
    }
  }

  /**
   * The listing: take a newest queued commit and queue its parents; from a known one the marks spread.
   * What is known in the end is left out, and the rest comes out in reverse.
   */
  method ListCommits(g: Graph, from: Hash, to: Hash) returns (l: seq<Hash>)
    requires Dag(g) && to in g && (from != "" ==> from in g)
    ensures Walked(g, from, to, l)
  {
    var queue, dull, done := {to}, {}, {};
    if from != "" {
      queue, dull := {to, from}, {from};
    }
    l := [];
    ghost var known, scope := Known(g, from), Scope(g, from, to);
    ghost var pops: seq<Hash> := [];
    ScopeClosed(g, from, to);
    assert Taken(g, from, to, pops, queue, done);
    while queue != {}
      invariant Taken(g, from, to, pops, queue, done)
      invariant dull <= known && (from != "" ==> from in dull) && Passed(g, done, dull, {})
      invariant Without(l, known) == Listing(pops, known)
      decreases scope - done
    {
      var c := Newest(g, queue);
      TakenNext(g, from, to, pops, queue, done, c);
      ListingNext(l, pops, c, known, c in dull);
      hide Taken, Without, Listing;
      pops := pops + [c];
      ghost var before := done;
      done := done + {c};
      queue := (queue + g[c].parents) - done;
      PassedNext(g, before, dull, c);
      hide Passed;
      if c in dull {
        dull := MarkKnown(g, done, dull, g[c].parents, known);
      } else {
        l := [c] + l;
      }
      assert c in scope - before && c !in scope - done;
    }
    AllMarked(g, from, to, pops, dull);
    l := Without(l, dull);
  }

  lemma PassedNext(g: Graph, done: set<Hash>, dull: set<Hash>, c: Hash)
    requires Passed(g, done, dull, {}) && c in g
    ensures Passed(g, done + {c}, dull, if c in dull then g[c].parents else {})
  {
  }

  /** The walk so far, and its queue. */
  ghost predicate Taken(g: Graph, from: Hash, to: Hash, pops: seq<Hash>, queue: set<Hash>, done: set<Hash>)
    requires Dag(g) && to in g && (from != "" ==> from in g)
  {
    && Walk(g, Starts(from, to), pops) && done == Members(pops) && queue == Frontier(g, Starts(from, to), done)
    && done <= Scope(g, from, to) && queue <= Scope(g, from, to) <= g.Keys
  }

  lemma TakenNext(g: Graph, from: Hash, to: Hash, pops: seq<Hash>, queue: set<Hash>, done: set<Hash>, c: Hash)
    requires Dag(g) && to in g && (from != "" ==> from in g) && Taken(g, from, to, pops, queue, done)
    requires IsNewest(g, queue, c)
    ensures c in g && c in Scope(g, from, to) && c !in done && done <= g.Keys
    ensures Taken(g, from, to, pops + [c], (queue + g[c].parents) - (done + {c}), done + {c})
  {
    ScopeClosed(g, from, to);
    WalkNext(g, Starts(from, to), pops, c);
    FrontierNext(g, Starts(from, to), done, c);
  }

  lemma WalkNext(g: Graph, starts: set<Hash>, pops: seq<Hash>, c: Hash)
    requires Walk(g, starts, pops) && IsNewest(g, Frontier(g, starts, Members(pops)), c)
    ensures Walk(g, starts, pops + [c]) && Members(pops + [c]) == Members(pops) + {c}
  {
    var more := pops + [c];
    forall i | 0 <= i < |more| ensures Takes(g, starts, more, i) {
      assert more[..i] == pops[..i];
      if i < |pops| {
        assert Takes(g, starts, pops, i);
      } else {
        assert pops[..i] == pops;
      }
    }
  }

  lemma FrontierNext(g: Graph, starts: set<Hash>, done: set<Hash>, c: Hash)
    requires c in g
    ensures Frontier(g, starts, done + {c}) == (Frontier(g, starts, done) + g[c].parents) - (done + {c})
  {
  }

  lemma AllMarked(g: Graph, from: Hash, to: Hash, pops: seq<Hash>, dull: set<Hash>)
    requires Dag(g) && to in g && (from != "" ==> from in g) && FullWalk(g, Starts(from, to), pops)
    requires dull <= Known(g, from) && (from != "" ==> from in dull) && Passed(g, Members(pops), dull, {})
    ensures dull == Known(g, from)
  {
    FullWalkVisits(g, from, to, pops);
    ScopeClosed(g, from, to);
    if from != "" {
      AncestorsIn(g, dull, from);
    }
  }
}
