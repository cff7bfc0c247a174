/** Exporting a commit through a tar stream, and restoring an encrypted commit from one. */
module Archive {
  import opened Text
  import opened Files
  import opened Ignore
  import opened Trees
  import opened Engine
  import opened Decryption

  datatype Kind = TarDir | TarFile(body: Blob, mode: nat) | TarLink(target: string) | TarOther

  datatype Header = Header(name: Path, kind: Kind)

  /** An entry is refused when its name contains "..". */
  predicate UnsafeName(p: Path) {
    HasDots(Join(p))
  }

  /** Best-effort removal before a link is made: a folder that is not empty stays. */
  function Removed(fs: Files, p: Path): Files {
    if p in fs && fs[p] == Folder && (exists q | q in fs :: p < q) then fs else fs - {p}
  }

  /** A name is unsafe exactly when one of its segments holds two dots in a row. */
  lemma UnsafeIff(p: Path)
    ensures UnsafeName(p) <==> exists i :: 0 <= i < |p| && Contains(p[i], "..")
  {
    DotsInJoin(p);
    forall i | 0 <= i < |p| {
      HasDotsIsContains(p[i]);
    }
    if i :| 0 <= i < |p| && HasDots(p[i]) {
      assert Contains(p[i], "..");
    }
    if i :| 0 <= i < |p| && Contains(p[i], "..") {
      assert HasDots(p[i]);
    }
  }

  function ExtractOne(fs: Files, h: Header, admitted: set<Path>): Option<Files> {
    if UnsafeName(h.name) then None
    else match h.kind
      case TarDir => Mkdirs(fs, h.name)
      case TarFile(body, mode) => if h.name == [] then None else Place(fs, h.name, File(body, mode % 512))
      case TarLink(target) =>
        if h.name == [] then None
        else (match Mkdirs(fs, Parent(h.name))
          case None => None
          case Some(f) => if h.name !in admitted then None else Create(Removed(f, h.name), h.name, Link(target)))
      case TarOther => Some(fs)
  }

  function ExtractAll(fs: Files, tar: seq<Header>, admitted: set<Path>): Option<Files>
    decreases |tar|
  {
    if tar == [] then Some(fs)
    else match ExtractOne(fs, tar[0], admitted)
      case None => None
      case Some(f) => ExtractAll(f, tar[1..], admitted)
  }

  /**
   * An entry for a name that is there already, in a folder that is: a link takes the place of anything but a
   * folder with something in it; a file is overwritten and keeps its mode, and takes no folder's place. A new
   * file gets the permission bits of its entry.
   */
  lemma ExtractsAgain(fs: Files, p: Path, target: string, body: Blob, mode: nat, admitted: set<Path>)
    requires Closed(fs) && p != [] && !UnsafeName(p) && p in admitted && Mkdirs(fs, Parent(p)) == Some(fs)
    ensures p in fs ==>
              ExtractOne(fs, Header(p, TarLink(target)), admitted) ==
              if fs[p].Folder? && (exists q :: q in fs && p < q) then None else Some(fs[p := Item(Link(target))])
    ensures p in fs && fs[p].Item? && fs[p].leaf.File? ==>
              ExtractOne(fs, Header(p, TarFile(body, mode)), admitted) == Some(fs[p := Item(File(body, fs[p].leaf.mode))])
    ensures p in fs && fs[p].Folder? ==> ExtractOne(fs, Header(p, TarFile(body, mode)), admitted).None?
    ensures p !in fs ==> ExtractOne(fs, Header(p, TarFile(body, mode)), admitted) == Some(fs[p := Item(File(body, mode % 512))])
  {
    if p in fs && !(fs[p].Folder? && exists q :: q in fs && p < q) {
      assert (fs - {p})[p := Item(Link(target))] == fs[p := Item(Link(target))];
    }
  }

  method ExtractTar(tar: seq<Header>, dest: Disk, admitted: set<Path>) returns (ok: bool)
    modifies dest
    ensures match ExtractAll(old(dest.files), tar, admitted)
      case None => !ok
      case Some(f) => ok && dest.files == f
  {
    var i := 0;
    while i < |tar|
      invariant 0 <= i <= |tar|
      invariant ExtractAll(old(dest.files), tar, admitted) == ExtractAll(dest.files, tar[i..], admitted)
    {
      var h := tar[i];
      assert tar[i..][0] == h && tar[i..][1..] == tar[i + 1..];
      if UnsafeName(h.name) {
        return false;
      }
      ok := true;
      match h.kind {
        case TarDir =>
          ok := dest.MkdirAll(h.name);
        case TarFile(body, mode) =>
          if h.name == [] {
            return false;
          }
          ok := dest.MkdirAll(Parent(h.name));
          if ok {
            ok := dest.Write(h.name, File(body, mode % 512));
          }
        case TarLink(target) =>
          if h.name == [] {
            return false;
          }
          ok := dest.MkdirAll(Parent(h.name));
          if ok && h.name !in admitted {
            return false;
          }
          if ok {
            dest.files := Removed(dest.files, h.name);
            ok := dest.Write(h.name, Link(target));
          }
        case TarOther =>
      }
      if !ok {
        return false;
      }
      i := i + 1;
    }
    return true;
  }

  // ---------------------------------------------------------------- what an archive is

  ghost predicate Describes(h: Header, o: Object) {
    match h.kind
    case TarDir => o == Folder
    case TarFile(body, mode) => o == Item(File(body, mode))
    case TarLink(target) => o == Item(Link(target))
    case TarOther => false
  }

  ghost predicate Named(tar: seq<Header>, p: Path) {
    exists i :: 0 <= i < |tar| && tar[i].name == p
  }

  /** The entries list each object of a directory once, folders before what they hold. */
  ghost predicate Lays(fs: Files, tar: seq<Header>) {
    && (forall i :: 0 <= i < |tar| ==> tar[i].name in fs && Describes(tar[i], fs[tar[i].name]))
    && (forall p :: p in fs ==> Named(tar, p))
    && (forall i, j :: 0 <= i < j < |tar| ==> tar[i].name != tar[j].name)
    && (forall i, q :: 0 <= i < |tar| && Above(q, tar[i].name) ==> Named(tar[..i], q))
  }

  /** The entries that stand for files, folders and links. */
  function Objects(tar: seq<Header>): seq<Header> {
    if tar == [] then []
    else (if tar[0].kind.TarOther? then [] else [tar[0]]) + Objects(tar[1..])
  }

  /** No name of any other entry is refused. */
  predicate OthersSafe(tar: seq<Header>) {
    forall i :: 0 <= i < |tar| && tar[i].kind.TarOther? ==> !UnsafeName(tar[i].name)
  }

  /** An archive of a directory: its objects, and between them entries of other kinds with safe names. */
  ghost predicate IsArchive(fs: Files, tar: seq<Header>) {
    OthersSafe(tar) && Lays(fs, Objects(tar))
  }

  /** Entries of other kinds are passed over. */
  lemma {:induction false} OthersSkipped(fs: Files, tar: seq<Header>, admitted: set<Path>)
    requires OthersSafe(tar)
    ensures ExtractAll(fs, tar, admitted) == ExtractAll(fs, Objects(tar), admitted)
    decreases |tar|
  {
    if tar != [] {
      assert forall i :: 0 <= i < |tar[1..]| ==> tar[1..][i] == tar[i + 1];
      var rest := Objects(tar[1..]);
      if tar[0].kind.TarOther? {
        assert ExtractOne(fs, tar[0], admitted) == Some(fs);
        assert [] + rest == rest;
        OthersSkipped(fs, tar[1..], admitted);
      } else {
        assert ([tar[0]] + rest)[1..] == rest;
        match ExtractOne(fs, tar[0], admitted)
        case None =>
        case Some(f) => OthersSkipped(f, tar[1..], admitted);
      }
    }
  }

  /** What the export accepts: no name with "..", and only admitted links. */
  ghost predicate Exportable(fs: Files, admitted: set<Path>) {
    forall p :: p in fs ==> !UnsafeName(p) && (fs[p].Item? && fs[p].leaf.Link? ==> p in admitted)
  }

  ghost predicate PermissionBits(fs: Files) {
    forall p :: p in fs && fs[p].Item? && fs[p].leaf.File? ==> fs[p].leaf.mode < 512
  }

  /** The part of a directory that the first entries of its archive describe. */
  ghost function Part(fs: Files, tar: seq<Header>): Files {
    map p | p in fs && Named(tar, p) :: fs[p]
  }

  lemma PartGrows(fs: Files, tar: seq<Header>, i: nat)
    requires Lays(fs, tar) && i < |tar|
    ensures Part(fs, tar[..i + 1]) == Part(fs, tar[..i])[tar[i].name := fs[tar[i].name]]
    ensures tar[i].name !in Part(fs, tar[..i])
  {
    var a, b := tar[..i], tar[..i + 1];
    forall p ensures Named(b, p) <==> Named(a, p) || p == tar[i].name {
      if k :| 0 <= k < |b| && b[k].name == p {
        assert k == i || a[k].name == p;
      }
      if k :| 0 <= k < |a| && a[k].name == p {
        assert b[k].name == p;
      }
      assert b[i].name == tar[i].name;
    }
  }

  /** The folders an entry needs are already there. */
  lemma ParentsThere(fs: Files, tar: seq<Header>, i: nat)
    requires Lays(fs, tar) && Closed(fs) && i < |tar|
    ensures tar[i].name != []
    ensures Mkdirs(Part(fs, tar[..i]), Parent(tar[i].name)) == Some(Part(fs, tar[..i]))
  {
    var p := tar[i].name;
    var part := Part(fs, tar[..i]);
    forall q | Above(q, p) ensures q in part && part[q] == Folder {
      assert Named(tar[..i], q);
    }
    ParentEffect(part, p);
    assert Mkdirs(part, Parent(p)).value == part;
  }

  lemma ExtractStep(fs: Files, tar: seq<Header>, i: nat, admitted: set<Path>)
    requires Lays(fs, tar) && Closed(fs) && PermissionBits(fs) && i < |tar|
    ensures var p := tar[i].name;
            var next := ExtractOne(Part(fs, tar[..i]), tar[i], admitted);
            && (next.Some? <==> !UnsafeName(p) && (tar[i].kind.TarLink? ==> p in admitted))
            && (next.Some? ==> next.value == Part(fs, tar[..i + 1]))
  {
    ParentsThere(fs, tar, i);
    PartGrows(fs, tar, i);
    assert Describes(tar[i], fs[tar[i].name]);
    hide Part, UnsafeName, IsArchive, Closed;
    var part := Part(fs, tar[..i]);
    assert part - {tar[i].name} == part;
  }

  lemma {:induction false} ExtractFrom(fs: Files, tar: seq<Header>, i: nat, admitted: set<Path>)
    requires Lays(fs, tar) && Closed(fs) && PermissionBits(fs) && i <= |tar|
    ensures var r := ExtractAll(Part(fs, tar[..i]), tar[i..], admitted);
            && (r.Some? <==> forall k :: i <= k < |tar| ==>
                  !UnsafeName(tar[k].name) && (tar[k].kind.TarLink? ==> tar[k].name in admitted))
            && (r.Some? ==> r.value == fs)
    decreases |tar| - i
  {
    if i == |tar| {
      assert tar[..i] == tar;
      assert Part(fs, tar) == fs;
    } else {
      ExtractStep(fs, tar, i, admitted);
      assert tar[i..][1..] == tar[i + 1..];
      ExtractFrom(fs, tar, i + 1, admitted);
    }
  }

  lemma LaidReproduces(fs: Files, tar: seq<Header>, admitted: set<Path>)
    requires Lays(fs, tar) && Closed(fs) && PermissionBits(fs)
    ensures ExtractAll(map[], tar, admitted).Some? <==> Exportable(fs, admitted)
    ensures ExtractAll(map[], tar, admitted).Some? ==> ExtractAll(map[], tar, admitted).value == fs
  {
    ExtractFrom(fs, tar, 0, admitted);
    assert Part(fs, tar[..0]) == map[] && tar[0..] == tar;
    if Exportable(fs, admitted) {
      forall k | 0 <= k < |tar|
        ensures !UnsafeName(tar[k].name) && (tar[k].kind.TarLink? ==> tar[k].name in admitted) {
        assert tar[k].name in fs && Describes(tar[k], fs[tar[k].name]);
      }
    }
    if ExtractAll(map[], tar, admitted).Some? {
      forall p | p in fs ensures !UnsafeName(p) && (fs[p].Item? && fs[p].leaf.Link? ==> p in admitted) {
        assert Named(tar, p);
        var k :| 0 <= k < |tar| && tar[k].name == p;
        assert Describes(tar[k], fs[p]);
      }
    }
  }

  /** Extracting an archive into an empty directory succeeds exactly on exportable contents and reproduces them. */
  lemma ExtractReproduces(fs: Files, tar: seq<Header>, admitted: set<Path>)
    requires IsArchive(fs, tar) && Closed(fs) && PermissionBits(fs)
    ensures ExtractAll(map[], tar, admitted).Some? <==> Exportable(fs, admitted)
    ensures ExtractAll(map[], tar, admitted).Some? ==> ExtractAll(map[], tar, admitted).value == fs
  {
    OthersSkipped(map[], tar, admitted);
    LaidReproduces(fs, Objects(tar), admitted);
  }

  // ---------------------------------------------------------------- the export of a source commit

  lemma TreeIsDirectory(tree: Tree)
    requires WellFormed(tree)
    ensures Closed(Flatten(tree, [])) && PermissionBits(Flatten(tree, []))
  {
    var disk := Flatten(tree, []);
    forall p | p in disk ensures p != [] {
      FlattenExtends(tree, [], p);
    }
    forall p, q | p in disk && q != [] && q < p ensures q in disk && disk[q] == Folder {
      FlattenClosed(tree, [], p, q);
    }
    forall p | p in disk && disk[p].Item? && disk[p].leaf.File? ensures disk[p].leaf.mode < 512 {
      LeavesOnDisk(tree, [], Placed(p, disk[p].leaf));
      LeafModes(tree, [], Placed(p, disk[p].leaf));
    }
  }

  function HeaderOf(path: Path, o: Object): Header {
    Header(path, match o
      case Folder => TarDir
      case Item(File(body, mode)) => TarFile(body, mode)
      case Item(Link(target)) => TarLink(target)
      case Item(Device) => TarOther)
  }

  /** The archive git writes of a tree: each folder, then what it holds, in tree order. */
  function TarOf(t: Tree, prefix: Path): seq<Header> {
    match t
    case Nil => []
    case Cons(name, Dir(c), rest) =>
      [HeaderOf(prefix + [name], Folder)] + TarOf(c, prefix + [name]) + TarOf(rest, prefix)
    case Cons(name, Single(leaf), rest) =>
      [HeaderOf(prefix + [name], Item(leaf))] + TarOf(rest, prefix)
  }

  /** Folders deeper than `depth` come before what they hold. */
  ghost predicate FoldersFirst(tar: seq<Header>, depth: nat) {
    forall i, q :: 0 <= i < |tar| && Above(q, tar[i].name) && depth < |q| ==> Named(tar[..i], q)
  }

  ghost predicate ListsExactly(fs: Files, tar: seq<Header>) {
    && (forall i :: 0 <= i < |tar| ==> tar[i].name in fs && Describes(tar[i], fs[tar[i].name]))
    && (forall p :: p in fs ==> Named(tar, p))
    && (forall i, j :: 0 <= i < j < |tar| ==> tar[i].name != tar[j].name)
  }

  lemma NamedConcat(a: seq<Header>, b: seq<Header>, p: Path)
    ensures Named(a + b, p) <==> Named(a, p) || Named(b, p)
  {
    if Named(a, p) {
      var k :| 0 <= k < |a| && a[k].name == p;
      assert (a + b)[k].name == p;
    }
    if Named(b, p) {
      var k :| 0 <= k < |b| && b[k].name == p;
      assert (a + b)[|a| + k].name == p;
    }
    if Named(a + b, p) {
      var k :| 0 <= k < |a + b| && (a + b)[k].name == p;
      assert if k < |a| then a[k].name == p else b[k - |a|].name == p;
    }
  }

  lemma ListsConcat(f: Files, a: seq<Header>, g: Files, b: seq<Header>)
    requires ListsExactly(f, a) && ListsExactly(g, b) && f.Keys !! g.Keys
    ensures ListsExactly(f + g, a + b)
  {
    var tar := a + b;
    forall i | 0 <= i < |tar| ensures tar[i].name in f + g && Describes(tar[i], (f + g)[tar[i].name]) {
      assert tar[i] == if i < |a| then a[i] else b[i - |a|];
    }
    forall p | p in f + g ensures Named(tar, p) {
      NamedConcat(a, b, p);
    }
    forall i, j | 0 <= i < j < |tar| ensures tar[i].name != tar[j].name {
      if i < |a| <= j {
        assert a[i].name in f && b[j - |a|].name in g;
      }
    }
  }

  lemma FoldersFirstConcat(a: seq<Header>, b: seq<Header>, depth: nat)
    requires FoldersFirst(a, depth) && FoldersFirst(b, depth)
    ensures FoldersFirst(a + b, depth)
  {
    var tar := a + b;
    forall i, q | 0 <= i < |tar| && Above(q, tar[i].name) && depth < |q| ensures Named(tar[..i], q) {
      if i < |a| {
        assert tar[..i] == a[..i] && tar[i] == a[i];
      } else {
        assert tar[i] == b[i - |a|];
        assert Named(b[..i - |a|], q);
        assert tar[..i] == a + b[..i - |a|];
        NamedConcat(a, b[..i - |a|], q);
      }
    }
  }

  /** Putting a folder's own entry before the archive of what it holds. */
  lemma FolderFirst(a: seq<Header>, dir: Path)
    requires dir != [] && FoldersFirst(a, |dir|)
    requires forall i :: 0 <= i < |a| ==> dir < a[i].name
    ensures FoldersFirst([Header(dir, TarDir)] + a, |dir| - 1)
  {
    var tar := [Header(dir, TarDir)] + a;
    forall i, q | 0 <= i < |tar| && Above(q, tar[i].name) && |dir| - 1 < |q| ensures Named(tar[..i], q) {
      assert i > 0 && tar[i] == a[i - 1];
      assert tar[..i] == [Header(dir, TarDir)] + a[..i - 1];
      NamedConcat([Header(dir, TarDir)], a[..i - 1], q);
      if |q| == |dir| {
        assert [Header(dir, TarDir)][0].name == q;
      } else {
        assert Named(a[..i - 1], q);
      }
    }
  }

  lemma ListsOne(p: Path, o: Object)
    requires o != Item(Device)
    ensures ListsExactly(map[p := o], [HeaderOf(p, o)])
  {
    assert [HeaderOf(p, o)][0].name == p;
  }

  /** One more object in front of a listing it does not meet. */
  lemma ListsCons(p: Path, o: Object, f: Files, tar: seq<Header>)
    requires o != Item(Device) && ListsExactly(f, tar) && p !in f
    ensures ListsExactly(map[p := o] + f, [HeaderOf(p, o)] + tar)
  {
    ListsOne(p, o);
    hide ListsExactly, HeaderOf;
    ListsConcat(map[p := o], [HeaderOf(p, o)], f, tar);
  }

  lemma MapReordered(f: Files, g: Files, p: Path, o: Object)
    requires p !in f && p !in g
    ensures (f + g)[p := o] == (map[p := o] + f) + g
  {
  }

  /** The three parts a folder's entry contributes do not meet. */
  lemma DirParts(name: string, c: Tree, rest: Tree, prefix: Path)
    requires !HasName(rest, name)
    ensures var dir := prefix + [name];
            && dir !in Flatten(c, dir) && dir !in Flatten(rest, prefix)
            && (map[dir := Folder] + Flatten(c, dir)).Keys !! Flatten(rest, prefix).Keys
  {
    var dir := prefix + [name];
    RestElsewhere(rest, prefix, name);
    BelowFolder(c, dir);
    assert dir[|prefix|] == name;
    hide Flatten, HasName;
    forall p | p in map[dir := Folder] + Flatten(c, dir) ensures p !in Flatten(rest, prefix) {
      assert p == dir || p in Flatten(c, dir);
    }
  }

  lemma TarNamesDir(name: string, c: Tree, rest: Tree, prefix: Path)
    requires !HasName(rest, name)
    requires ListsExactly(Flatten(c, prefix + [name]), TarOf(c, prefix + [name]))
    requires ListsExactly(Flatten(rest, prefix), TarOf(rest, prefix))
    ensures ListsExactly(Flatten(Cons(name, Dir(c), rest), prefix), TarOf(Cons(name, Dir(c), rest), prefix))
  {
    var dir := prefix + [name];
    var f, g := Flatten(c, dir), Flatten(rest, prefix);
    DirParts(name, c, rest, prefix);
    MapReordered(f, g, dir, Folder);
    assert TarOf(Cons(name, Dir(c), rest), prefix) == ([HeaderOf(dir, Folder)] + TarOf(c, dir)) + TarOf(rest, prefix);
    hide ListsExactly, Flatten, TarOf, HeaderOf, HasName;
    ListsCons(dir, Folder, f, TarOf(c, dir));
    ListsConcat(map[dir := Folder] + f, [HeaderOf(dir, Folder)] + TarOf(c, dir), g, TarOf(rest, prefix));
  }

  lemma TarNamesSingle(name: string, leaf: Leaf, rest: Tree, prefix: Path)
    requires !HasName(rest, name) && !leaf.Device?
    requires ListsExactly(Flatten(rest, prefix), TarOf(rest, prefix))
    ensures ListsExactly(Flatten(Cons(name, Single(leaf), rest), prefix), TarOf(Cons(name, Single(leaf), rest), prefix))
  {
    var p := prefix + [name];
    RestElsewhere(rest, prefix, name);
    assert p[|prefix|] == name;
    assert Flatten(Cons(name, Single(leaf), rest), prefix) == map[p := Item(leaf)] + Flatten(rest, prefix);
    assert TarOf(Cons(name, Single(leaf), rest), prefix) == [HeaderOf(p, Item(leaf))] + TarOf(rest, prefix);
    hide ListsExactly, Flatten, TarOf, HeaderOf;
    ListsCons(p, Item(leaf), Flatten(rest, prefix), TarOf(rest, prefix));
  }

  lemma {:induction false} TarNames(t: Tree, prefix: Path)
    requires WellFormed(t) && NoDevices(t)
    ensures ListsExactly(Flatten(t, prefix), TarOf(t, prefix))
  {
    match t
    case Nil =>
    case Cons(name, Dir(c), rest) =>
      TarNames(rest, prefix);
      TarNames(c, prefix + [name]);
      TarNamesDir(name, c, rest, prefix);
    case Cons(name, Single(leaf), rest) =>
      TarNames(rest, prefix);
      TarNamesSingle(name, leaf, rest, prefix);
  }

  lemma RestElsewhere(rest: Tree, prefix: Path, name: string)
    requires !HasName(rest, name)
    ensures forall p :: p in Flatten(rest, prefix) ==> |p| > |prefix| && p[|prefix|] != name
  {
    forall p | p in Flatten(rest, prefix) ensures |p| > |prefix| && p[|prefix|] != name {
      FlattenExtends(rest, prefix, p);
    }
  }

  lemma BelowFolder(c: Tree, dir: Path)
    requires dir != []
    ensures forall p :: p in Flatten(c, dir) ==> dir < p && p[|dir| - 1] == dir[|dir| - 1]
  {
    forall p | p in Flatten(c, dir) ensures dir < p {
      FlattenExtends(c, dir, p);
    }
  }

  lemma {:induction false} TarFoldersFirst(t: Tree, prefix: Path)
    requires WellFormed(t) && NoDevices(t)
    ensures FoldersFirst(TarOf(t, prefix), |prefix|)
  {
    match t
    case Nil =>
    case Cons(name, Dir(c), rest) =>
      var dir := prefix + [name];
      TarFoldersFirst(rest, prefix);
      TarFoldersFirst(c, dir);
      forall i | 0 <= i < |TarOf(c, dir)| ensures dir < TarOf(c, dir)[i].name {
        TarNames(c, dir);
        BelowFolder(c, dir);
      }
      assert TarOf(t, prefix) == ([HeaderOf(dir, Folder)] + TarOf(c, dir)) + TarOf(rest, prefix);
      hide FoldersFirst, TarOf, Flatten;
      FolderFirst(TarOf(c, dir), dir);
      FoldersFirstConcat([Header(dir, TarDir)] + TarOf(c, dir), TarOf(rest, prefix), |prefix|);
    case Cons(name, Single(leaf), rest) =>
      var head := [HeaderOf(prefix + [name], Item(leaf))];
      TarFoldersFirst(rest, prefix);
      assert TarOf(t, prefix) == head + TarOf(rest, prefix);
      assert FoldersFirst(head, |prefix|);
      hide FoldersFirst, TarOf;
      FoldersFirstConcat(head, TarOf(rest, prefix), |prefix|);
  }

  lemma TarOfLays(t: Tree)
    requires WellFormed(t) && NoDevices(t)
    ensures Lays(Flatten(t, []), TarOf(t, []))
  {
    TarNames(t, []);
    TarFoldersFirst(t, []);
  }

  /** The entry git puts in front of a commit's archive. */
  const GLOBAL_HEADER: Header := Header(["pax_global_header"], TarOther)

  function CommitTar(t: Tree): seq<Header> {
    [GLOBAL_HEADER] + TarOf(t, [])
  }

  lemma {:induction false} AllObjects(tar: seq<Header>)
    requires forall i :: 0 <= i < |tar| ==> !tar[i].kind.TarOther?
    ensures Objects(tar) == tar
  {
    if tar != [] {
      assert forall i :: 0 <= i < |tar[1..]| ==> tar[1..][i] == tar[i + 1];
      AllObjects(tar[1..]);
    }
  }

  lemma PlainNames()
    ensures !UnsafeName(GLOBAL_HEADER.name)
  {
    assert !HasDots("pax_global_header");
    DotsInJoin(GLOBAL_HEADER.name);
  }

  lemma OtherInFront(h: Header, tar: seq<Header>)
    requires h.kind.TarOther? && !UnsafeName(h.name) && forall i :: 0 <= i < |tar| ==> !tar[i].kind.TarOther?
    ensures OthersSafe([h] + tar) && Objects([h] + tar) == tar
  {
    AllObjects(tar);
    assert ([h] + tar)[1..] == tar;
    hide UnsafeName;
  }

  lemma TarOfObjects(t: Tree)
    requires Lays(Flatten(t, []), TarOf(t, []))
    ensures forall i :: 0 <= i < |TarOf(t, [])| ==> !TarOf(t, [])[i].kind.TarOther?
  {
    var tar := TarOf(t, []);
    hide TarOf, Flatten;
    forall i | 0 <= i < |tar| ensures !tar[i].kind.TarOther? {
      assert Describes(tar[i], Flatten(t, [])[tar[i].name]);
    }
  }

  /** What git writes of a commit is an archive of its tree. */
  lemma CommitTarIsArchive(t: Tree)
    requires WellFormed(t) && NoDevices(t)
    ensures IsArchive(Flatten(t, []), CommitTar(t))
    ensures CommitTar(t) != [] && CommitTar(t)[0] == Header(["pax_global_header"], TarOther)
  {
    TarOfLays(t);
    hide Lays, TarOf, Flatten;
    TarOfObjects(t);
    PlainNames();
    OtherInFront(GLOBAL_HEADER, TarOf(t, []));
  }

  /** Exporting a commit's tree: its archive, unpacked. */
  method ExportTree(tree: Tree, admitted: set<Path>, dest: Disk) returns (ok: bool)
    requires WellFormed(tree) && NoDevices(tree)
    modifies dest
    ensures old(dest.files) == map[] ==> (ok <==> Exportable(Flatten(tree, []), admitted))
    ensures old(dest.files) == map[] && ok ==> dest.files == Flatten(tree, [])
  {
    CommitTarIsArchive(tree);
    TreeIsDirectory(tree);
    if dest.files == map[] {
      ExtractReproduces(Flatten(tree, []), CommitTar(tree), admitted);
    }
    ok := ExtractTar(CommitTar(tree), dest, admitted);
  }

  // ---------------------------------------------------------------- restore

  /** A restored commit's directory: extraction into a fresh scratch directory, then decryption. */
  function RestoreInto(tar: seq<Header>, admitted: set<Path>, out: Files, identities: set<string>): Option<Files> {
    match ExtractAll(map[], tar, admitted)
    case None => None
    case Some(scratch) => DecryptInto(scratch, out, identities)
  }

  /**
   * The restore command on the working tree, or on the archive of an older commit when one is named.
   */
  method Restore(workTree: Files, commit: Option<seq<Header>>, admitted: set<Path>, out: Disk, identities: set<string>)
    returns (ok: bool)
    modifies out
    ensures match (if commit.None? then DecryptInto(workTree, old(out.files), identities)
                   else RestoreInto(commit.value, admitted, old(out.files), identities))
      case None => !ok
      case Some(f) => ok && out.files == f
  {
    if commit.None? {
      ok := Decrypt(workTree, out, identities);
      return;
    }
    var scratch := new Disk();
    ok := ExtractTar(commit.value, scratch, admitted);
    if ok {
      ok := Decrypt(scratch.files, out, identities);
    }
  }

  predicate EndsInDot(p: Path) {
    p != [] && p[|p| - 1] != "" && p[|p| - 1][|p[|p| - 1]| - 1] == '.'
  }

  /** The output of an accepted name is refused on the way back exactly when the name ends in a dot. */
  lemma OutUnsafe(p: Path)
    requires p != [] && !UnsafeName(p)
    ensures UnsafeName(Out(p)) <==> EndsInDot(p)
  {
    var o := Out(p);
    var n := |p| - 1;
    DotsInJoin(p);
    DotsInJoin(o);
    DotsInConcat(p[n], SUFFIX);
    assert !HasDots(SUFFIX) && SUFFIX[0] == '.';
    assert o == p[..n] + [p[n] + SUFFIX];
    hide HasDots;
    assert forall i :: 0 <= i < n ==> o[i] == p[i];
    assert HasDots(o[n]) <==> EndsInDot(p);
  }

  lemma PrefixSafe(q: Path, p: Path)
    requires q <= p && !UnsafeName(p)
    ensures !UnsafeName(q)
  {
    DotsInJoin(p);
    DotsInJoin(q);
    forall i | 0 <= i < |q| ensures !HasDots(q[i]) {
      assert q[i] == p[i];
    }
  }

  /** The encrypted form of an exportable tree can be exported again exactly when no kept file's name ends in a dot. */
  lemma EncryptedExportable(tree: Tree, patterns: Patterns, recipients: set<string>, admitted: set<Path>, accepted: set<Path>)
    requires WellFormed(tree) && Exportable(Flatten(tree, []), admitted)
    requires PlaceAll(map[], Outputs(Walk(tree, [], patterns), recipients)).Some?
    ensures var enc := PlaceAll(map[], Outputs(Walk(tree, [], patterns), recipients)).value;
            Exportable(enc, accepted) <==> forall p :: KeptFile(tree, patterns, p) ==> !EndsInDot(p)
  {
    var w := Walk(tree, [], patterns);
    var out := Outputs(w, recipients);
    var enc := PlaceAll(map[], out).value;
    EncryptShows(tree, patterns, recipients);
    if Exportable(enc, accepted) {
      forall p | KeptFile(tree, patterns, p) ensures !EndsInDot(p) {
        var i := SealedAt(tree, patterns, recipients, p);
        assert out[i].path in enc;
        OutUnsafe(p);
      }
    }
    if forall p :: KeptFile(tree, patterns, p) ==> !EndsInDot(p) {
      forall q | q in enc ensures !UnsafeName(q) && !(enc[q].Item? && enc[q].leaf.Link?) {
        var i :| 0 <= i < |out| && (out[i].path == q || Above(q, out[i].path));
        OutputSafe(tree, patterns, recipients, admitted, i);
        PrefixSafe(q, out[i].path);
        assert out[i].path == q ==> enc[q] == Item(out[i].leaf);
        assert Above(q, out[i].path) ==> enc[q] == Folder;
      }
    }
  }

  lemma OutputSafe(tree: Tree, patterns: Patterns, recipients: set<string>, admitted: set<Path>, i: nat)
    requires WellFormed(tree) && Exportable(Flatten(tree, []), admitted)
    requires forall p :: KeptFile(tree, patterns, p) ==> !EndsInDot(p)
    requires i < |Outputs(Walk(tree, [], patterns), recipients)|
    ensures var o := Outputs(Walk(tree, [], patterns), recipients)[i]; !UnsafeName(o.path) && o.leaf.File?
  {
    var w := Walk(tree, [], patterns);
    var out := Outputs(w, recipients);
    if i == |out| - 1 {
      assert !HasDots(MANIFEST);
    } else {
      assert out[i] in SealedItems(w, recipients);
      var p := SourceOf(tree, patterns, recipients, out[i]);
      OutUnsafe(p);
      SealedMember(w, recipients, out[i]);
    }
  }

  lemma EncryptedClosed(tree: Tree, patterns: Patterns, recipients: set<string>)
    requires WellFormed(tree) && PlaceAll(map[], Outputs(Walk(tree, [], patterns), recipients)).Some?
    ensures Closed(PlaceAll(map[], Outputs(Walk(tree, [], patterns), recipients)).value)
  {
    var out := Outputs(Walk(tree, [], patterns), recipients);
    EncryptShows(tree, patterns, recipients);
    ShowsClosed(PlaceAll(map[], out).value, out);
  }

  // ---------------------------------------------------------------- modes

  /** Equal but for the permission bits of files. */
  predicate SameButMode(x: Object, y: Object) {
    match x
    case Item(File(body, _)) => y.Item? && y.leaf.File? && y.leaf.body == body
    case _ => y == x
  }

  ghost predicate SameButModes(fs: Files, written: Files) {
    fs.Keys == written.Keys && forall p :: p in fs ==> SameButMode(fs[p], written[p])
  }

  /** An archive of a directory that may give its files other permission bits. */
  ghost predicate ArchiveUpToModes(fs: Files, tar: seq<Header>) {
    exists written :: SameButModes(fs, written) && PermissionBits(written) && IsArchive(written, tar)
  }

  /** The bits `git archive` gives a file by default, whatever it was written with: 0775 if it is executable, else 0664. */
  function GitMode(mode: nat): nat {
    if mode / 64 % 2 == 1 then 509 else 436
  }

  function GitHeader(h: Header): Header {
    match h.kind
    case TarFile(body, mode) => Header(h.name, TarFile(body, GitMode(mode)))
    case _ => h
  }

  function GitHeaders(tar: seq<Header>): (r: seq<Header>)
    ensures |r| == |tar|
    ensures forall i :: 0 <= i < |tar| ==> r[i] == GitHeader(tar[i])
  {
    seq(|tar|, i requires 0 <= i < |tar| => GitHeader(tar[i]))
  }

  function GitObject(o: Object): Object {
    match o
    case Item(File(body, mode)) => Item(File(body, GitMode(mode)))
    case _ => o
  }

  function GitObjects(fs: Files): Files {
    map p | p in fs :: GitObject(fs[p])
  }

  lemma {:induction false} ObjectsCommute(tar: seq<Header>)
    ensures Objects(GitHeaders(tar)) == GitHeaders(Objects(tar))
  {
    if tar != [] {
      ObjectsCommute(tar[1..]);
      var rest := Objects(tar[1..]);
      assert GitHeaders(tar)[1..] == GitHeaders(tar[1..]);
      assert ([tar[0]] + rest)[1..] == rest;
    }
  }

  lemma GitNames(tar: seq<Header>, n: nat, p: Path)
    requires n <= |tar| && Named(tar[..n], p)
    ensures Named(GitHeaders(tar)[..n], p)
  {
    var k :| 0 <= k < n && tar[..n][k].name == p;
    assert GitHeaders(tar)[..n][k].name == p;
  }

  lemma GitDescribes(h: Header, o: Object)
    requires Describes(h, o)
    ensures Describes(GitHeader(h), GitObject(o))
  {
  }

  lemma GitNamesKept(tar: seq<Header>)
    ensures forall i :: 0 <= i < |tar| ==> GitHeaders(tar)[i].name == tar[i].name
  {
  }

  lemma LaysGit(fs: Files, tar: seq<Header>)
    requires Lays(fs, tar)
    ensures Lays(GitObjects(fs), GitHeaders(tar))
  {
    var g := GitHeaders(tar);
    hide Named;
    forall i | 0 <= i < |g| ensures g[i].name in GitObjects(fs) && Describes(g[i], GitObjects(fs)[g[i].name]) {
      assert Describes(tar[i], fs[tar[i].name]);
      GitDescribes(tar[i], fs[tar[i].name]);
    }
    hide Describes, GitHeader, GitObject;
    assert forall i :: 0 <= i < |g| ==> g[i].name == tar[i].name by {
      GitNamesKept(tar);
    }
    forall p | p in GitObjects(fs) ensures Named(g, p) {
      assert tar[..|tar|] == tar && g[..|tar|] == g;
      GitNames(tar, |tar|, p);
    }
    forall i, q | 0 <= i < |g| && Above(q, g[i].name) ensures Named(g[..i], q) {
      GitNames(tar, i, q);
    }
  }

  lemma GitModes(fs: Files)
    ensures SameButModes(fs, GitObjects(fs)) && PermissionBits(GitObjects(fs))
  {
  }

  lemma GitOthers(tar: seq<Header>)
    requires OthersSafe(tar)
    ensures OthersSafe(GitHeaders(tar))
  {
    hide UnsafeName;
    forall i | 0 <= i < |tar| && GitHeaders(tar)[i].kind.TarOther? ensures !UnsafeName(GitHeaders(tar)[i].name) {
      assert GitHeaders(tar)[i] == GitHeader(tar[i]);
    }
  }

  /** What git writes by default is an archive up to modes. */
  lemma DefaultArchive(fs: Files, tar: seq<Header>)
    requires IsArchive(fs, tar)
    ensures ArchiveUpToModes(fs, GitHeaders(tar))
    ensures forall i :: 0 <= i < |tar| && tar[i].kind.TarFile? ==>
              GitHeaders(tar)[i] == Header(tar[i].name, TarFile(tar[i].kind.body, if tar[i].kind.mode / 64 % 2 == 1 then 509 else 436))
  {
    assert forall i :: 0 <= i < |tar| && tar[i].kind.TarFile? ==> GitHeaders(tar)[i] == GitHeader(tar[i]);
    hide Lays, SameButModes, PermissionBits, OthersSafe, GitObjects, GitHeaders, Objects;
    LaysGit(fs, Objects(tar));
    ObjectsCommute(tar);
    GitModes(fs);
    GitOthers(tar);
    assert IsArchive(GitObjects(fs), GitHeaders(tar));
  }

  /** Neither the export nor the decryption looks at the modes of the encrypted files. */
  lemma ModesIgnored(enc: Files, written: Files, accepted: set<Path>)
    requires SameButModes(enc, written)
    ensures Exportable(written, accepted) <==> Exportable(enc, accepted)
    ensures Closed(written) <==> Closed(enc)
  {
  }

  lemma {:induction false} DecryptIgnoresModes(enc: Files, written: Files, dest: Files, entries: seq<Entry>, identities: set<string>)
    requires SameButModes(enc, written)
    ensures DecryptAll(written, dest, entries, identities) == DecryptAll(enc, dest, entries, identities)
    ensures ReadManifest(written) == ReadManifest(enc)
    decreases |entries|
  {
    if entries != [] {
      assert Decoded(written, entries[0], identities) == Decoded(enc, entries[0], identities);
      match DecryptEntry(enc, dest, entries[0], identities)
      case None =>
      case Some(f) => DecryptIgnoresModes(enc, written, f, entries[1..], identities);
    }
  }

  /** Extraction and decryption of an archive of a directory. */
  lemma RestoreOf(enc: Files, tar: seq<Header>, accepted: set<Path>, out: Files, identities: set<string>)
    requires ArchiveUpToModes(enc, tar) && Closed(enc)
    ensures RestoreInto(tar, accepted, out, identities) ==
            if Exportable(enc, accepted) then DecryptInto(enc, out, identities) else None
  {
    var written :| SameButModes(enc, written) && PermissionBits(written) && IsArchive(written, tar);
    ModesIgnored(enc, written, accepted);
    ExtractReproduces(written, tar, accepted);
    match ReadManifest(enc)
    case None => DecryptIgnoresModes(enc, written, out, [], identities);
    case Some(entries) => DecryptIgnoresModes(enc, written, out, entries, identities);
  }

  /**
   * Point-in-time restore: from any archive of an encrypted commit, whatever modes it gives the files and
   * whatever links the restore would accept, the kept files come back exactly, provided no kept file's
   * name ends in a dot; otherwise the restore is refused.
   */
  lemma PointInTimeRestore(tree: Tree, ignoreRead: ReadOutcome, recipients: set<string>, admitted: set<Path>,
                           tar: seq<Header>, accepted: set<Path>, identities: set<string>)
    requires WellFormed(tree) && Exportable(Flatten(tree, []), admitted)
    requires EncryptInto(map[], tree, ignoreRead, recipients).Some?
    requires ArchiveUpToModes(EncryptInto(map[], tree, ignoreRead, recipients).value, tar)
    requires recipients * identities != {}
    ensures var patterns := Parse(ReadIgnore(tree, ignoreRead)).value;
            RestoreInto(tar, accepted, map[], identities) ==
            if forall p :: KeptFile(tree, patterns, p) ==> !EndsInDot(p) then Some(KeptTree(tree, patterns)) else None
    ensures var patterns := Parse(ReadIgnore(tree, ignoreRead)).value;
            RestoredFrom(Flatten(tree, []), patterns, KeptTree(tree, patterns))
  {
    var patterns := Parse(ReadIgnore(tree, ignoreRead)).value;
    var enc := EncryptInto(map[], tree, ignoreRead, recipients).value;
    assert Some(enc) == PlaceAll(map[], Outputs(Walk(tree, [], patterns), recipients));
    hide ArchiveUpToModes, Outputs, Walk, PlaceAll, EncryptInto, KeptFile, KeptTree, RestoreInto, DecryptInto,
      Exportable, Flatten, Parse, ReadIgnore, EndsInDot, WellFormed, Closed, PermissionBits, RestoredFrom;
    EncryptedClosed(tree, patterns, recipients);
    EncryptedExportable(tree, patterns, recipients, admitted, accepted);
    RestoreOf(enc, tar, accepted, map[], identities);
    RoundTrip(tree, ignoreRead, recipients, enc, identities);
  }

  /** A name the export accepts and the restore refuses. */
  lemma TrailingDotRefused()
    ensures !UnsafeName(["notes."]) && UnsafeName(Out(["notes."]))
  {
    assert !HasDots("notes.");
    OutUnsafe(["notes."]);
  }
}
