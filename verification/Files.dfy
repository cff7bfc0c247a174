/**
 * A directory tree on disk, seen from its root: a map from slash-separated paths (as segment
 * sequences) to folders, files, links and devices, and the operations the program uses on it.
 */
module Files {

  type Path = seq<string>

  datatype Option<+T> = None | Some(value: T)

  /** Contents of a file: raw bytes, an age ciphertext, or the JSON text of a manifest. */
  datatype Blob =
    | Raw(data: string)
    | Sealed(recipients: set<string>, body: Blob)
    | Index(entries: seq<Entry>)

  datatype Entry = Entry(path: Path, encPath: Path, mode: nat, symlink: bool, target: string)

  datatype Leaf = File(body: Blob, mode: nat) | Link(target: string) | Device

  datatype Object = Folder | Item(leaf: Leaf)

  type Files = map<Path, Object>

  /** A leaf together with the path it is to be written at. */
  datatype Placed = Placed(path: Path, leaf: Leaf)

  function Parent(p: Path): Path
    requires p != []
  {
    p[..|p| - 1]
  }

  /** No entry hangs below something that is not a folder. */
  ghost predicate Closed(fs: Files) {
    && [] !in fs
    && forall p, q :: p in fs && q != [] && q < p ==> q in fs && fs[q] == Folder
  }

  // ---------------------------------------------------------------- operations

  /** `mkdir -p`: fails when a component exists and is not a folder. */
  function Mkdirs(fs: Files, dir: Path): Option<Files>
    decreases |dir|
  {
    if dir == [] then Some(fs)
    else match Mkdirs(fs, Parent(dir))
      case None => None
      case Some(f) =>
        if dir !in f then Some(f[dir := Folder])
        else if f[dir].Folder? then Some(f)
        else None
  }

  /** Open-with-create-and-truncate for a file, creation for a link. An existing file keeps its mode. */
  function Create(fs: Files, p: Path, leaf: Leaf): Option<Files> {
    if p !in fs then Some(fs[p := Item(leaf)])
    else if leaf.File? && fs[p].Item? && fs[p].leaf.File? then
      Some(fs[p := Item(File(leaf.body, fs[p].leaf.mode))])
    else None
  }

  function Place(fs: Files, p: Path, leaf: Leaf): Option<Files>
    requires p != []
  {
    match Mkdirs(fs, Parent(p))
    case None => None
    case Some(f) => Create(f, p, leaf)
  }

  function PlaceAll(fs: Files, items: seq<Placed>): Option<Files>
    requires Rooted(items)
    decreases |items|
  {
    if items == [] then Some(fs)
    else match Place(fs, items[0].path, items[0].leaf)
      case None => None
      case Some(f) => PlaceAll(f, items[1..])
  }

  predicate Rooted(items: seq<Placed>) {
    forall i :: 0 <= i < |items| ==> items[i].path != []
  }

  lemma {:induction false} PlaceAllConcat(fs: Files, a: seq<Placed>, b: seq<Placed>)
    requires Rooted(a) && Rooted(b) && Rooted(a + b)
    ensures PlaceAll(fs, a + b) ==
            match PlaceAll(fs, a) case None => None case Some(f) => PlaceAll(f, b)
    decreases |a|
  {
    if a == [] {
      assert a + b == b;
    } else {
      assert (a + b)[1..] == a[1..] + b;
      match Place(fs, a[0].path, a[0].leaf)
      case None =>
      case Some(f) => PlaceAllConcat(f, a[1..], b);
    }
  }

  // ---------------------------------------------------------------- layouts

  /** `p` is one of the folders that must exist for `q` to exist. */
  predicate Above(p: Path, q: Path) {
    p != [] && p < q
  }

  predicate Clash(p: Path, q: Path) {
    p <= q || q <= p
  }

  /** No two of the placed paths are equal and none lies below another. */
  predicate Scattered(items: seq<Placed>) {
    forall i, j :: 0 <= i < j < |items| ==> !Clash(items[i].path, items[j].path)
  }

  predicate Distinct(items: seq<Placed>) {
    forall i, j :: 0 <= i < j < |items| ==> items[i].path != items[j].path
  }

  ghost predicate Lists(items: seq<Placed>, p: Path) {
    exists i :: 0 <= i < |items| && items[i].path == p
  }

  ghost predicate ListsBelow(items: seq<Placed>, p: Path) {
    exists i :: 0 <= i < |items| && Above(p, items[i].path)
  }

  /** `fs` consists of exactly the items and the folders above them. */
  ghost predicate Shows(fs: Files, items: seq<Placed>) {
    && HasItems(fs, items)
    && HasFolders(fs, items)
    && NothingElse(fs, items)
  }

  ghost predicate HasItems(fs: Files, items: seq<Placed>) {
    forall i :: 0 <= i < |items| ==> items[i].path in fs && fs[items[i].path] == Item(items[i].leaf)
  }

  ghost predicate HasFolders(fs: Files, items: seq<Placed>) {
    forall i, p :: 0 <= i < |items| && Above(p, items[i].path) ==> p in fs && fs[p] == Folder
  }

  ghost predicate NothingElse(fs: Files, items: seq<Placed>) {
    forall p :: p in fs ==> Lists(items, p) || ListsBelow(items, p)
  }

  lemma ShowsClosed(fs: Files, items: seq<Placed>)
    requires Shows(fs, items) && Rooted(items)
    ensures Closed(fs)
  {
    hide HasItems;
    assert [] !in fs;
    forall p, q | p in fs && q != [] && q < p ensures q in fs && fs[q] == Folder {
      ShownAbove(fs, items, p, q);
    }
  }

  lemma ShownAbove(fs: Files, items: seq<Placed>, p: Path, q: Path)
    requires HasFolders(fs, items) && NothingElse(fs, items) && p in fs && q != [] && q < p
    ensures q in fs && fs[q] == Folder
  {
    if Lists(items, p) {
      var i :| 0 <= i < |items| && items[i].path == p;
      assert Above(q, items[i].path);
    } else {
      assert ListsBelow(items, p);
      var i :| 0 <= i < |items| && Above(p, items[i].path);
      AboveTransitive(q, p, items[i].path);
    }
  }

  lemma AboveTransitive(q: Path, p: Path, r: Path)
    requires q != [] && q < p && Above(p, r)
    ensures Above(q, r)
  {
  }

  /** `q` is `dir` or a folder above it. */
  predicate Under(q: Path, dir: Path) {
    q != [] && q <= dir
  }

  lemma UnderSplit(q: Path, dir: Path)
    requires dir != []
    ensures Under(q, dir) <==> q == dir || Under(q, Parent(dir))
    ensures Above(q, dir) <==> Under(q, Parent(dir))
  {
    if q <= dir && q != dir {
      assert q == dir[..|q|] == Parent(dir)[..|q|];
    }
    if q <= Parent(dir) {
      assert q == Parent(dir)[..|q|] == dir[..|q|];
    }
  }

  /** The effect of `mkdir -p`: all prefixes become folders, nothing else changes. */
  lemma {:induction false} MkdirsEffect(fs: Files, dir: Path)
    ensures Mkdirs(fs, dir).Some? <==> forall q :: Under(q, dir) && q in fs ==> fs[q] == Folder
    ensures match Mkdirs(fs, dir)
      case None => true
      case Some(f) =>
        && (forall q :: q in f <==> q in fs || Under(q, dir))
        && (forall q :: q in f ==> f[q] == if q in fs then fs[q] else Folder)
    decreases |dir|
  {
    if dir != [] {
      MkdirsEffect(fs, Parent(dir));
      forall q ensures Under(q, dir) <==> q == dir || Under(q, Parent(dir)) {
        UnderSplit(q, dir);
      }
      assert Under(dir, dir);
    }
  }

  /** The same for the folders above a path about to be written. */
  lemma ParentEffect(fs: Files, p: Path)
    requires p != []
    ensures Mkdirs(fs, Parent(p)).Some? <==> forall q :: Above(q, p) && q in fs ==> fs[q] == Folder
    ensures match Mkdirs(fs, Parent(p))
      case None => true
      case Some(f) =>
        && (forall q :: q in f <==> q in fs || Above(q, p))
        && (forall q :: q in f ==> f[q] == if q in fs then fs[q] else Folder)
  {
    MkdirsEffect(fs, Parent(p));
    forall q ensures Above(q, p) <==> Under(q, Parent(p)) {
      UnderSplit(q, p);
    }
  }

  ghost predicate Free(done: seq<Placed>, p: Path) {
    forall i :: 0 <= i < |done| ==> !Clash(p, done[i].path)
  }

  /** Writing one more leaf succeeds exactly when its path clashes with none already written. */
  lemma PlaceSucceeds(fs: Files, done: seq<Placed>, p: Path, leaf: Leaf)
    requires Shows(fs, done) && p != [] && Rooted(done)
    requires !Lists(done, p)
    ensures Place(fs, p, leaf).Some? <==> Free(done, p)
  {
    ParentEffect(fs, p);
    if Free(done, p) {
      FreshSpot(fs, done, p);
    } else {
      var i :| 0 <= i < |done| && Clash(p, done[i].path);
      var d := done[i].path;
      assert d != p;
      if d <= p {
        assert Above(d, p) && d in fs && fs[d] != Folder;
      } else {
        assert Above(p, d);
        assert p in fs && fs[p] == Folder;
      }
    }
  }

  /** A path free of clashes is absent, and what is above it are folders. */
  lemma FreshSpot(fs: Files, done: seq<Placed>, p: Path)
    requires Shows(fs, done) && p != [] && Free(done, p)
    ensures p !in fs
    ensures forall q :: Above(q, p) && q in fs ==> fs[q] == Folder
  {
    if p in fs {
      var i :| 0 <= i < |done| && (done[i].path == p || Above(p, done[i].path));
      assert Clash(p, done[i].path);
    }
    forall q | Above(q, p) && q in fs ensures fs[q] == Folder {
      if !Lists(done, q) {
        var i :| 0 <= i < |done| && Above(q, done[i].path);
      }
    }
  }

  /** `g` is `fs` with `leaf` at the new path `p` and folders above it. */
  ghost predicate Added(fs: Files, p: Path, leaf: Leaf, g: Files) {
    && (forall q :: q in g <==> q in fs || q == p || Above(q, p))
    && (forall q :: q in g && q in fs ==> g[q] == fs[q])
    && (forall q :: q in g && Above(q, p) ==> g[q] == Folder)
    && p in g && p !in fs && g[p] == Item(leaf)
  }

  lemma PlaceAdds(fs: Files, done: seq<Placed>, p: Path, leaf: Leaf)
    requires Shows(fs, done) && p != [] && Free(done, p)
    ensures Place(fs, p, leaf).Some? && Added(fs, p, leaf, Place(fs, p, leaf).value)
  {
    ParentEffect(fs, p);
    FreshSpot(fs, done, p);
  }

  lemma PlaceKeepsShows(fs: Files, done: seq<Placed>, p: Path, leaf: Leaf)
    requires Shows(fs, done) && p != [] && Free(done, p)
    ensures Place(fs, p, leaf).Some?
    ensures Shows(Place(fs, p, leaf).value, done + [Placed(p, leaf)])
  {
    PlaceAdds(fs, done, p, leaf);
    AddedShows(fs, done, p, leaf, Place(fs, p, leaf).value);
  }

  lemma AddedShows(fs: Files, done: seq<Placed>, p: Path, leaf: Leaf, g: Files)
    requires Shows(fs, done) && Added(fs, p, leaf, g)
    ensures Shows(g, done + [Placed(p, leaf)])
  {
    var items := done + [Placed(p, leaf)];
    assert HasItems(g, items) by {
      forall i | 0 <= i < |items| ensures items[i].path in g && g[items[i].path] == Item(items[i].leaf) {
        if i < |done| {
          assert items[i] == done[i] && done[i].path in fs;
        }
      }
    }
    assert HasFolders(g, items) by {
      forall i, q | 0 <= i < |items| && Above(q, items[i].path) ensures q in g && g[q] == Folder {
        if i < |done| {
          assert items[i] == done[i] && q in fs && fs[q] == Folder;
        }
      }
    }
    assert NothingElse(g, items) by {
      forall q | q in g ensures Lists(items, q) || ListsBelow(items, q) {
        AddedListed(fs, done, p, leaf, g, q);
      }
    }
  }

  lemma AddedListed(fs: Files, done: seq<Placed>, p: Path, leaf: Leaf, g: Files, q: Path)
    requires NothingElse(fs, done) && Added(fs, p, leaf, g) && q in g
    ensures Lists(done + [Placed(p, leaf)], q) || ListsBelow(done + [Placed(p, leaf)], q)
  {
    var items := done + [Placed(p, leaf)];
    if q == p || Above(q, p) {
      assert items[|done|].path == p;
    } else if Lists(done, q) {
      var k :| 0 <= k < |done| && done[k].path == q;
      assert items[k].path == q;
    } else {
      var k :| 0 <= k < |done| && Above(q, done[k].path);
      assert Above(q, items[k].path);
    }
  }

  /**
   * Writing a list of leaves with distinct paths on top of a layout succeeds exactly when no path
   * lies on or below another, and the result then shows them all.
   */
  lemma {:induction false} PlaceAllShows(fs: Files, done: seq<Placed>, items: seq<Placed>)
    requires Shows(fs, done) && Rooted(done) && Rooted(items)
    requires Scattered(done) && Distinct(done + items)
    ensures PlaceAll(fs, items).Some? <==> Scattered(done + items)
    ensures PlaceAll(fs, items).Some? ==> Shows(PlaceAll(fs, items).value, done + items)
    decreases |items|
  {
    if items == [] {
      assert done + items == done;
    } else {
      var all := done + items;
      var it := items[0];
      assert all[|done|] == it;
      forall i | 0 <= i < |done| ensures done[i].path != it.path {
        assert all[i] == done[i];
      }
      PlaceSucceeds(fs, done, it.path, it.leaf);
      var done1 := done + [it];
      assert done1 + items[1..] == all;
      if Place(fs, it.path, it.leaf).Some? {
        PlaceKeepsShows(fs, done, it.path, it.leaf);
        forall i, j | 0 <= i < j < |done1| ensures !Clash(done1[i].path, done1[j].path) {
          if j == |done| {
            assert !Clash(it.path, done[i].path);
          } else {
            assert !Clash(done[i].path, done[j].path);
          }
        }
        PlaceAllShows(Place(fs, it.path, it.leaf).value, done1, items[1..]);
      } else {
        var i :| 0 <= i < |done| && Clash(it.path, done[i].path);
        assert Clash(all[i].path, all[|done|].path);
      }
    }
  }

  /** A layout is determined by its items. */
  lemma ShowsUnique(f: Files, g: Files, items: seq<Placed>, other: seq<Placed>)
    requires Shows(f, items) && Shows(g, other)
    requires forall it :: it in items <==> it in other
    requires Rooted(items)
    ensures f == g
  {
    ShowsWithin(f, g, items, other);
    ShowsWithin(g, f, other, items);
    assert f.Keys == g.Keys;
  }

  lemma ShowsWithin(f: Files, g: Files, items: seq<Placed>, other: seq<Placed>)
    requires Shows(f, items) && Shows(g, other)
    requires forall it :: it in items ==> it in other
    ensures forall p :: p in f ==> p in g && g[p] == f[p]
  {
    forall p | p in f ensures p in g && g[p] == f[p] {
      ShowsAt(f, g, items, other, p);
    }
  }

  lemma ItemShown(fs: Files, items: seq<Placed>, it: Placed, p: Path)
    requires HasItems(fs, items) && HasFolders(fs, items) && it in items
    requires p == it.path || Above(p, it.path)
    ensures p in fs && fs[p] == if p == it.path then Item(it.leaf) else Folder
  {
    var j :| 0 <= j < |items| && items[j] == it;
    if p != it.path {
      assert Above(p, items[j].path);
    }
  }

  lemma ShowsAt(f: Files, g: Files, items: seq<Placed>, other: seq<Placed>, p: Path)
    requires Shows(f, items) && Shows(g, other)
    requires forall it :: it in items ==> it in other
    requires p in f
    ensures p in g && g[p] == f[p]
  {
    assert Lists(items, p) || ListsBelow(items, p);
    var i :| 0 <= i < |items| && (items[i].path == p || Above(p, items[i].path));
    hide HasItems, HasFolders, NothingElse;
    assert items[i] in items;
    ItemShown(f, items, items[i], p);
    ItemShown(g, other, items[i], p);
  }
}
