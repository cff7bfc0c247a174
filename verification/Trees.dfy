/** Source directories as trees, the pruned walk over them, and the flat filter it refines. */
module Trees {
  import opened Files
  import opened Ignore

  /** The folder git keeps for itself. */
  const GIT_DIR: string := ".git"

  /** The entries of one directory, in the order a directory read lists them. */
  datatype Tree = Nil | Cons(name: string, node: Node, rest: Tree)

  datatype Node = Dir(children: Tree) | Single(leaf: Leaf)

  ghost predicate HasName(t: Tree, name: string) {
    t.Cons? && (t.name == name || HasName(t.rest, name))
  }

  /** Segment names are non-empty and slash-free, siblings differ, files are raw bytes with permission bits. */
  ghost predicate WellFormed(t: Tree) {
    t.Cons? ==>
      && t.name != "" && '/' !in t.name
      && !HasName(t.rest, t.name)
      && WellFormed(t.rest)
      && match t.node
         case Dir(c) => WellFormed(c)
         case Single(leaf) => leaf.File? ==> leaf.body.Raw? && leaf.mode < 512
  }

  /** Trees as git records them hold no devices. */
  ghost predicate NoDevices(t: Tree) {
    t.Cons? ==> NoDevices(t.rest) && match t.node
      case Dir(c) => NoDevices(c)
      case Single(leaf) => !leaf.Device?
  }

  /** The directory as a flat disk, below `prefix`. */
  function Flatten(t: Tree, prefix: Path): Files {
    match t
    case Nil => map[]
    case Cons(name, Dir(c), rest) =>
      (Flatten(c, prefix + [name]) + Flatten(rest, prefix))[prefix + [name] := Folder]
    case Cons(name, Single(leaf), rest) =>
      Flatten(rest, prefix)[prefix + [name] := Item(leaf)]
  }

  /** Every leaf, in walk order. */
  function Leaves(t: Tree, prefix: Path): seq<Placed> {
    match t
    case Nil => []
    case Cons(name, Dir(c), rest) => Leaves(c, prefix + [name]) + Leaves(rest, prefix)
    case Cons(name, Single(leaf), rest) => [Placed(prefix + [name], leaf)] + Leaves(rest, prefix)
  }

  // ---------------------------------------------------------------- the walk

  /**
   * The leaves the walk visits: it skips folders named `.git` and ignored folders with everything
   * below them, ignored leaves, and devices.
   */
  ghost function Walk(t: Tree, prefix: Path, patterns: Patterns): (w: seq<Placed>)
    ensures Rooted(w)
    decreases t
  {
    if t.Nil? then [] else Visited(t.name, t.node, prefix, patterns) + Walk(t.rest, prefix, patterns)
  }

  /** What the walk visits at and below one directory entry. */
  ghost function Visited(name: string, node: Node, prefix: Path, patterns: Patterns): (w: seq<Placed>)
    ensures Rooted(w)
    decreases node
  {
    var path := prefix + [name];
    match node
    case Dir(c) => if name == GIT_DIR || Ignored(patterns, path) then [] else Walk(c, path, patterns)
    case Single(leaf) => if Ignored(patterns, path) || leaf.Device? then [] else [Placed(path, leaf)]
  }

  /**
   * The flat rule: no folder above is named `.git`, and no non-empty prefix of the path, the path
   * itself included, is ignored. `from` is the length of the part that is known to be admitted.
   */
  ghost predicate AdmittedFrom(path: Path, from: nat, patterns: Patterns) {
    && (forall n :: from <= n < |path| - 1 ==> path[n] != GIT_DIR)
    && (forall n :: from < n <= |path| ==> !Ignored(patterns, path[..n]))
  }

  ghost predicate Admitted(path: Path, patterns: Patterns) {
    AdmittedFrom(path, 0, patterns)
  }

  ghost predicate Kept(item: Placed, patterns: Patterns) {
    !item.leaf.Device? && Admitted(item.path, patterns)
  }

  ghost function Sieve(it: Placed, from: nat, patterns: Patterns): seq<Placed> {
    if !it.leaf.Device? && AdmittedFrom(it.path, from, patterns) then [it] else []
  }

  ghost function Filter(items: seq<Placed>, from: nat, patterns: Patterns): seq<Placed> {
    if items == [] then []
    else Sieve(items[0], from, patterns) + Filter(items[1..], from, patterns)
  }

  lemma {:induction false} FilterConcat(a: seq<Placed>, b: seq<Placed>, from: nat, patterns: Patterns)
    ensures Filter(a + b, from, patterns) == Filter(a, from, patterns) + Filter(b, from, patterns)
    decreases |a|
  {
    if a == [] {
      assert a + b == b;
    } else {
      FilterConcat(a[1..], b, from, patterns);
      assert (a + b)[1..] == a[1..] + b && (a + b)[0] == a[0];
      var head := Sieve(a[0], from, patterns);
      var x, y := Filter(a[1..], from, patterns), Filter(b, from, patterns);
      assert head + (x + y) == (head + x) + y;
    }
  }

  lemma {:induction false} FilterMember(items: seq<Placed>, from: nat, patterns: Patterns, it: Placed)
    ensures it in Filter(items, from, patterns) <==>
            it in items && !it.leaf.Device? && AdmittedFrom(it.path, from, patterns)
    decreases |items|
  {
    if items != [] {
      FilterMember(items[1..], from, patterns, it);
      assert items == [items[0]] + items[1..];
    }
  }

  lemma {:induction false} LeavesExtend(t: Tree, prefix: Path, it: Placed)
    requires it in Leaves(t, prefix)
    ensures |it.path| > |prefix| && prefix <= it.path && HasName(t, it.path[|prefix|])
  {
    match t
    case Nil =>
    case Cons(name, Dir(c), rest) =>
      if it in Leaves(c, prefix + [name]) {
        LeavesExtend(c, prefix + [name], it);
        assert it.path[|prefix|] == (prefix + [name])[|prefix|];
        assert prefix <= prefix + [name];
      } else {
        LeavesExtend(rest, prefix, it);
      }
    case Cons(name, Single(leaf), rest) =>
      if it != Placed(prefix + [name], leaf) {
        LeavesExtend(rest, prefix, it);
      }
  }

  /** A folder that is not admitted hides everything below it. */
  lemma {:induction false} FilterDrops(items: seq<Placed>, dir: Path, from: nat, patterns: Patterns)
    requires |dir| == from + 1
    requires dir[from] == GIT_DIR || Ignored(patterns, dir)
    requires forall i :: 0 <= i < |items| ==> dir < items[i].path
    ensures Filter(items, from, patterns) == []
    decreases |items|
  {
    if items != [] {
      var p := items[0].path;
      assert p[..from + 1] == dir && p[from] == dir[from];
      FilterDrops(items[1..], dir, from, patterns);
    }
  }

  lemma SieveDeeper(it: Placed, dir: Path, from: nat, patterns: Patterns)
    requires |dir| == from + 1 && dir < it.path
    requires dir[from] != GIT_DIR && !Ignored(patterns, dir)
    ensures Sieve(it, from, patterns) == Sieve(it, from + 1, patterns)
  {
    assert it.path[..from + 1] == dir && it.path[from] == dir[from];
  }

  /** Below an admitted folder the rule need only look at the rest of the path. */
  lemma {:induction false} FilterDeeper(items: seq<Placed>, dir: Path, from: nat, patterns: Patterns)
    requires |dir| == from + 1
    requires dir[from] != GIT_DIR && !Ignored(patterns, dir)
    requires forall i :: 0 <= i < |items| ==> dir < items[i].path
    ensures Filter(items, from, patterns) == Filter(items, from + 1, patterns)
    decreases |items|
  {
    if items != [] {
      SieveDeeper(items[0], dir, from, patterns);
      hide Sieve;
      FilterDeeper(items[1..], dir, from, patterns);
    }
  }

  /** The pruned walk visits exactly the leaves the flat rule keeps, in the same order. */
  lemma {:induction false} WalkRefinesFilter(t: Tree, prefix: Path, patterns: Patterns)
    ensures Walk(t, prefix, patterns) == Filter(Leaves(t, prefix), |prefix|, patterns)
  {
    match t
    case Nil =>
    case Cons(name, Dir(c), rest) =>
      var dir := prefix + [name];
      var below := Leaves(c, dir);
      forall i | 0 <= i < |below| ensures dir < below[i].path {
        LeavesExtend(c, dir, below[i]);
      }
      if name == GIT_DIR || Ignored(patterns, dir) {
        FilterDrops(below, dir, |prefix|, patterns);
      } else {
        WalkRefinesFilter(c, dir, patterns);
        FilterDeeper(below, dir, |prefix|, patterns);
      }
      WalkRefinesFilter(rest, prefix, patterns);
      FilterConcat(below, Leaves(rest, prefix), |prefix|, patterns);
    case Cons(name, Single(leaf), rest) =>
      WalkRefinesFilter(rest, prefix, patterns);
      var p := prefix + [name];
      assert p[..|prefix| + 1] == p;
      assert ([Placed(p, leaf)] + Leaves(rest, prefix))[1..] == Leaves(rest, prefix);
  }

  /** From the root: a leaf is visited if and only if it is kept. */
  lemma WalkVisits(t: Tree, patterns: Patterns, it: Placed)
    ensures it in Walk(t, [], patterns) <==> it in Leaves(t, []) && Kept(it, patterns)
  {
    WalkRefinesFilter(t, [], patterns);
    FilterMember(Leaves(t, []), 0, patterns, it);
  }

  // ---------------------------------------------------------------- shape of the walk

  /** Leaves of a well-formed tree never lie on or below one another. */
  lemma {:induction false} LeavesScattered(t: Tree, prefix: Path)
    requires WellFormed(t)
    ensures Scattered(Leaves(t, prefix))
  {
    match t
    case Nil =>
    case Cons(name, node, rest) =>
      var first := if node.Dir? then Leaves(node.children, prefix + [name]) else [Placed(prefix + [name], node.leaf)];
      LeavesScattered(rest, prefix);
      if node.Dir? {
        LeavesScattered(node.children, prefix + [name]);
      }
      forall a, b | a in first && b in Leaves(rest, prefix) ensures !Clash(a.path, b.path) {
        if node.Dir? {
          LeavesExtend(node.children, prefix + [name], a);
        }
        assert a.path[|prefix|] == (prefix + [name])[|prefix|] == name;
        LeavesExtend(rest, prefix, b);
        assert a.path[|prefix|] != b.path[|prefix|];
      }
      ScatteredConcat(first, Leaves(rest, prefix));
  }

  lemma ScatteredConcat(a: seq<Placed>, b: seq<Placed>)
    requires Scattered(a) && Scattered(b)
    requires forall x, y :: x in a && y in b ==> !Clash(x.path, y.path)
    ensures Scattered(a + b)
  {
    forall i, j | 0 <= i < j < |a + b| ensures !Clash((a + b)[i].path, (a + b)[j].path) {
      if i < |a| <= j {
        assert a[i] in a && b[j - |a|] in b;
      } else if j < |a| {
        assert !Clash(a[i].path, a[j].path);
      } else {
        assert !Clash(b[i - |a|].path, b[j - |a|].path);
      }
    }
  }

  /** Filtering keeps order, so it keeps leaves apart. */
  lemma {:induction false} FilterScattered(items: seq<Placed>, from: nat, patterns: Patterns)
    requires Scattered(items)
    ensures Scattered(Filter(items, from, patterns))
    decreases |items|
  {
    if items != [] {
      var rest := Filter(items[1..], from, patterns);
      FilterScattered(items[1..], from, patterns);
      forall y | y in rest ensures !Clash(items[0].path, y.path) {
        FilterMember(items[1..], from, patterns, y);
        var k :| 0 <= k < |items[1..]| && items[1..][k] == y;
        assert !Clash(items[0].path, items[k + 1].path);
      }
      ScatteredConcat([items[0]], rest);
    }
  }

  lemma WalkScattered(t: Tree, patterns: Patterns)
    requires WellFormed(t)
    ensures Scattered(Walk(t, [], patterns))
  {
    WalkRefinesFilter(t, [], patterns);
    LeavesScattered(t, []);
    FilterScattered(Leaves(t, []), 0, patterns);
  }

  // ---------------------------------------------------------------- trees and flat disks

  lemma {:induction false} FlattenExtends(t: Tree, prefix: Path, p: Path)
    requires p in Flatten(t, prefix)
    ensures |p| > |prefix| && prefix <= p && HasName(t, p[|prefix|])
  {
    match t
    case Nil =>
    case Cons(name, node, rest) =>
      if p == prefix + [name] {
      } else if node.Dir? && p in Flatten(node.children, prefix + [name]) {
        FlattenExtends(node.children, prefix + [name], p);
        assert p[|prefix|] == (prefix + [name])[|prefix|];
        assert prefix <= prefix + [name];
      } else {
        FlattenExtends(rest, prefix, p);
      }
  }

  /** The leaves of a tree are exactly the leaf entries of its disk. */
  lemma {:induction false} LeavesOnDisk(t: Tree, prefix: Path, it: Placed)
    requires WellFormed(t)
    ensures it in Leaves(t, prefix) <==> it.path in Flatten(t, prefix) && Flatten(t, prefix)[it.path] == Item(it.leaf)
  {
    match t
    case Nil =>
    case Cons(name, node, rest) =>
      var p := prefix + [name];
      LeavesOnDisk(rest, prefix, it);
      if node.Dir? {
        LeavesOnDisk(node.children, p, it);
      }
      if it.path in Flatten(rest, prefix) {
        FlattenExtends(rest, prefix, it.path);
        assert it.path[|prefix|] != name;
        assert p[|prefix|] == name;
      }
      if node.Dir? && it.path in Flatten(node.children, p) {
        FlattenExtends(node.children, p, it.path);
        assert it.path[|prefix|] == p[|prefix|] == name;
      }
  }

  lemma NotInRest(rest: Tree, prefix: Path, name: string, q: Path)
    requires !HasName(rest, name) && |q| > |prefix| && q[|prefix|] == name
    ensures q !in Flatten(rest, prefix)
  {
    if q in Flatten(rest, prefix) {
      FlattenExtends(rest, prefix, q);
    }
  }

  lemma {:induction false} FlattenClosed(t: Tree, prefix: Path, p: Path, q: Path)
    requires WellFormed(t)
    requires p in Flatten(t, prefix) && |prefix| < |q| && q < p
    ensures q in Flatten(t, prefix) && Flatten(t, prefix)[q] == Folder
  {
    match t
    case Nil =>
    case Cons(name, node, rest) =>
      var dir := prefix + [name];
      if node.Dir? && p in Flatten(node.children, dir) && p !in Flatten(rest, prefix) {
        FlattenExtends(node.children, dir, p);
        assert q[..|prefix| + 1] == p[..|prefix| + 1] == dir;
        if q != dir {
          FlattenClosed(node.children, dir, p, q);
          assert q[|prefix|] == dir[|prefix|] == name;
          NotInRest(rest, prefix, name, q);
        }
      } else if p != dir {
        FlattenExtends(rest, prefix, p);
        FlattenClosed(rest, prefix, p, q);
        assert q[|prefix|] == p[|prefix|];
        assert dir[|prefix|] == name;
      }
  }
}
