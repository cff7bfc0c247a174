/** Encrypting a directory into a flat namespace of `.age` files plus a manifest, and back. */
module Engine {
  import opened Files
  import opened Ignore
  import opened Trees
  import opened WorkTree

  const MANIFEST: string := "manifest.json"
  const SUFFIX: string := ".age"

  /** 0644, the mode of every file the encrypted directory holds. */
  const PLAIN_MODE: nat := 420
  /** 0777, what a link's permission bits read as. */
  const LINK_MODE: nat := 511

  /**
   * A directory to encrypt, with the modes its archive gives the files: by default 0775 or 0664, whatever
   * git has recorded. `ignoreRead` is what reading its `.encryptignore` yields when that is a
   * link or a device; `admitted` are the links the export accepts.
   */
  datatype Source = Source(tree: Tree, ignoreRead: ReadOutcome, admitted: set<Path>)

  function ReadIgnore(tree: Tree, ignoreRead: ReadOutcome): ReadOutcome {
    var disk := Flatten(tree, []);
    if [FILE_NAME] !in disk then Missing
    else match disk[[FILE_NAME]]
      case Folder => ReadError
      case Item(File(body, _)) => if body.Raw? then Ignore.Text(body.data) else Ignore.Text("")
      case Item(_) => ignoreRead
  }

  /** A missing file is none, a folder of that name an error, and otherwise the tree's own text is read. */
  lemma ReadsOwnFile(tree: Tree, ignoreRead: ReadOutcome)
    ensures var disk := Flatten(tree, []);
            var p := [".encryptignore"];
            && (p !in disk ==> ReadIgnore(tree, ignoreRead).Missing?)
            && (p in disk && disk[p].Folder? ==> ReadIgnore(tree, ignoreRead).ReadError?)
            && (p in disk && disk[p].Item? && disk[p].leaf.File? && disk[p].leaf.body.Raw? ==>
                  ReadIgnore(tree, ignoreRead) == ReadOutcome.Text(disk[p].leaf.body.data))
  {
  }

  // ---------------------------------------------------------------- output names

  function Out(p: Path): Path
    requires p != []
  {
    Parent(p) + [p[|p| - 1] + SUFFIX]
  }

  lemma OutInjective(p: Path, q: Path)
    requires p != [] && q != []
    ensures Out(p) == Out(q) ==> p == q
    ensures Out(p) != [MANIFEST]
  {
    var a, b := p[|p| - 1], q[|q| - 1];
    assert p == Parent(p) + [a] && q == Parent(q) + [b];
    if Out(p) == Out(q) {
      assert Parent(p) == Out(p)[..|p| - 1] == Out(q)[..|q| - 1] == Parent(q);
      assert a + SUFFIX == Out(p)[|p| - 1] == Out(q)[|q| - 1] == b + SUFFIX;
      assert a == (a + SUFFIX)[..|a|] && b == (b + SUFFIX)[..|b|];
    }
    assert Out(p)[|p| - 1] == a + SUFFIX;
    assert (a + SUFFIX)[|a| + 3] == 'e' && MANIFEST[|MANIFEST| - 1] == 'n';
  }

  // ---------------------------------------------------------------- what encryption writes

  function SealedItem(it: Placed, recipients: set<string>): Placed
    requires it.path != [] && it.leaf.File?
  {
    Placed(Out(it.path), File(Sealed(recipients, it.leaf.body), PLAIN_MODE))
  }

  function SealedItems(w: seq<Placed>, recipients: set<string>): (r: seq<Placed>)
    requires Rooted(w)
    ensures Rooted(r)
  {
    if w == [] then []
    else (if w[0].leaf.File? then [SealedItem(w[0], recipients)] else []) + SealedItems(w[1..], recipients)
  }

  function EntryOf(it: Placed): Entry
    requires it.path != []
  {
    match it.leaf
    case File(_, mode) => Entry(it.path, Out(it.path), mode % 512, false, "")
    case Link(target) => Entry(it.path, [], LINK_MODE, true, target)
    case Device => Entry(it.path, [], 0, false, "")
  }

  function EntriesOf(w: seq<Placed>): (r: seq<Entry>)
    requires Rooted(w)
    ensures |r| == |w|
  {
    if w == [] then [] else [EntryOf(w[0])] + EntriesOf(w[1..])
  }

  lemma {:induction false} EntriesAt(w: seq<Placed>, i: nat)
    requires Rooted(w) && i < |w|
    ensures EntriesOf(w)[i] == EntryOf(w[i])
  {
    if i > 0 {
      EntriesAt(w[1..], i - 1);
    }
  }

  lemma {:induction false} EntriesConcat(a: seq<Placed>, b: seq<Placed>)
    requires Rooted(a) && Rooted(b)
    ensures Rooted(a + b) && EntriesOf(a + b) == EntriesOf(a) + EntriesOf(b)
    decreases |a|
  {
    if a == [] {
      assert a + b == b;
    } else {
      EntriesConcat(a[1..], b);
      assert (a + b)[1..] == a[1..] + b;
    }
  }

  lemma {:induction false} SealedConcat(a: seq<Placed>, b: seq<Placed>, recipients: set<string>)
    requires Rooted(a) && Rooted(b)
    ensures Rooted(a + b)
    ensures SealedItems(a + b, recipients) == SealedItems(a, recipients) + SealedItems(b, recipients)
    decreases |a|
  {
    if a == [] {
      assert a + b == b;
    } else {
      SealedConcat(a[1..], b, recipients);
      assert (a + b)[1..] == a[1..] + b && (a + b)[0] == a[0];
      hide Out;
      var head := if a[0].leaf.File? then [SealedItem(a[0], recipients)] else [];
      var x, y := SealedItems(a[1..], recipients), SealedItems(b, recipients);
      assert head + (x + y) == (head + x) + y;
    }
  }

  lemma {:induction false} SealedMember(w: seq<Placed>, recipients: set<string>, x: Placed)
    requires Rooted(w)
    ensures x in SealedItems(w, recipients) <==>
            exists i :: 0 <= i < |w| && w[i].leaf.File? && x == SealedItem(w[i], recipients)
    decreases |w|
  {
    if w != [] {
      SealedMember(w[1..], recipients, x);
      if i :| 0 <= i < |w| && w[i].leaf.File? && x == SealedItem(w[i], recipients) {
        assert i == 0 || (0 <= i - 1 < |w[1..]| && w[1..][i - 1] == w[i]);
      }
      if i :| 0 <= i < |w[1..]| && w[1..][i].leaf.File? && x == SealedItem(w[1..][i], recipients) {
        assert w[i + 1] == w[1..][i];
      }
    }
  }

  function ManifestItem(w: seq<Placed>): Placed
    requires Rooted(w)
  {
    Placed([MANIFEST], File(Index(EntriesOf(w)), PLAIN_MODE))
  }

  ghost function Outputs(w: seq<Placed>, recipients: set<string>): (r: seq<Placed>)
    requires Rooted(w)
    ensures Rooted(r)
  {
    SealedItems(w, recipients) + [ManifestItem(w)]
  }

  /** What one encryption makes of the destination directory; `None` is an error. */
  ghost function EncryptInto(dest: Files, tree: Tree, ignoreRead: ReadOutcome, recipients: set<string>): Option<Files> {
    if recipients == {} then None
    else match Parse(ReadIgnore(tree, ignoreRead))
      case None => None
      case Some(patterns) => PlaceAll(dest, Outputs(Walk(tree, [], patterns), recipients))
  }

  // ---------------------------------------------------------------- the encrypting code

  /** A directory on disk. */
  class Disk {
    var files: Files

    constructor ()
      ensures files == map[]
    {
      files := map[];
    }

    method MkdirAll(dir: Path) returns (ok: bool)
      modifies this
      ensures match Mkdirs(old(files), dir)
        case None => !ok && files == old(files)
        case Some(f) => ok && files == f
    {
      match Mkdirs(files, dir) {
        case None => ok := false;
        case Some(f) => files := f; ok := true;
      }
    }

    method Write(p: Path, leaf: Leaf) returns (ok: bool)
      modifies this
      ensures match Create(old(files), p, leaf)
        case None => !ok && files == old(files)
        case Some(f) => ok && files == f
    {
      match Create(files, p, leaf) {
        case None => ok := false;
        case Some(f) => files := f; ok := true;
      }
    }
  }

  class Manifest {
    var entries: seq<Entry>

    constructor ()
      ensures entries == []
    {
      entries := [];
    }
  }

  /** The directory walk: every visited file is sealed into `dest`, every visited leaf recorded. */
  method WalkDir(t: Tree, prefix: Path, patterns: Patterns, recipients: set<string>, dest: Disk, manifest: Manifest)
    returns (ok: bool)
    requires prefix == [] || !InGit(prefix)
    modifies dest, manifest
    ensures GitPart(dest.files) == old(GitPart(dest.files))
    ensures match PlaceAll(old(dest.files), SealedItems(Walk(t, prefix, patterns), recipients))
      case None => !ok
      case Some(f) =>
        && ok && dest.files == f
        && manifest.entries == old(manifest.entries) + EntriesOf(Walk(t, prefix, patterns))
    decreases t
  {
    if t.Nil? {
      return true;
    }
    ghost var w1 := Visited(t.name, t.node, prefix, patterns);
    ghost var w2 := Walk(t.rest, prefix, patterns);
    SealedConcat(w1, w2, recipients);
    EntriesConcat(w1, w2);
    PlaceAllConcat(dest.files, SealedItems(w1, recipients), SealedItems(w2, recipients));
    ok := VisitEntry(t.name, t.node, prefix, patterns, recipients, dest, manifest);
    if ok {
      ok := WalkDir(t.rest, prefix, patterns, recipients, dest, manifest);
    }
  }

  /** The walk callback on one directory entry. */
  method VisitEntry(name: string, node: Node, prefix: Path, patterns: Patterns, recipients: set<string>, dest: Disk, manifest: Manifest)
    returns (ok: bool)
    requires prefix == [] || !InGit(prefix)
    modifies dest, manifest
    ensures GitPart(dest.files) == old(GitPart(dest.files))
    ensures match PlaceAll(old(dest.files), SealedItems(Visited(name, node, prefix, patterns), recipients))
      case None => !ok
      case Some(f) =>
        && ok && dest.files == f
        && manifest.entries == old(manifest.entries) + EntriesOf(Visited(name, node, prefix, patterns))
    decreases node
  {
    ghost var w := Visited(name, node, prefix, patterns);
    var path := prefix + [name];
    if node.Dir? {
      if name == GIT_DIR {
        return true;
      }
      var skip := Match(patterns, path);
      if skip {
        return true;
      }
      ok := WalkDir(node.children, path, patterns, recipients, dest, manifest);
      return;
    }
    var skip := Match(patterns, path);
    if skip {
      return true;
    }
    assert !node.leaf.Device? ==> w == [Placed(path, node.leaf)] && w[1..] == [];
    match node.leaf {
      case Link(target) =>
        assert SealedItems(w, recipients) == [] && EntriesOf(w) == [EntryOf(w[0])];
        manifest.entries := manifest.entries + [Entry(path, [], LINK_MODE, true, target)];
        ok := true;
      case Device =>
        ok := true;
      case File(body, mode) =>
        ghost var item := SealedItem(w[0], recipients);
        assert SealedItems(w, recipients) == [item] && [item][1..] == [];
        assert PlaceAll(dest.files, [item]) == Place(dest.files, item.path, item.leaf);
        var encPath := Out(path);
        OutputsSpareGit(dest.files, path, item.leaf);
        ok := dest.MkdirAll(Parent(encPath));
        if ok {
          ok := dest.Write(encPath, File(Sealed(recipients, body), PLAIN_MODE));
        }
        if ok {
          manifest.entries := manifest.entries + [Entry(path, encPath, mode % 512, false, "")];
        }
    }
  }

  /** Writing an output leaves git's own folder as it is, whether or not it succeeds. */
  lemma OutputsSpareGit(fs: Files, p: Path, leaf: Leaf)
    requires p != [] && (|p| > 1 ==> !InGit(p))
    ensures !InGit(Out(p))
    ensures match Mkdirs(fs, Parent(Out(p)))
      case None => true
      case Some(f) =>
        && GitPart(f) == GitPart(fs)
        && (Create(f, Out(p), leaf).Some? ==> GitPart(Create(f, Out(p), leaf).value) == GitPart(fs))
  {
    if |p| == 1 {
      assert (p[0] + SUFFIX)[|p[0]| + 3] == 'e';
    } else {
      assert Out(p)[0] == p[0];
    }
    MkdirsBeside(fs, Parent(Out(p)));
    match Mkdirs(fs, Parent(Out(p)))
    case None =>
    case Some(f) => CreateBeside(f, Out(p), leaf);
  }

  method Encrypt(tree: Tree, ignoreRead: ReadOutcome, recipients: set<string>, dest: Disk) returns (ok: bool)
    modifies dest
    ensures GitPart(dest.files) == old(GitPart(dest.files))
    ensures match EncryptInto(old(dest.files), tree, ignoreRead, recipients)
      case None => !ok
      case Some(f) => ok && dest.files == f
  {
    if recipients == {} {
      return false;
    }
    var parsed := LoadIgnoreFile(ReadIgnore(tree, ignoreRead));
    if parsed.None? {
      return false;
    }
    var manifest := new Manifest();
    ghost var w := Walk(tree, [], parsed.value);
    PlaceAllConcat(dest.files, SealedItems(w, recipients), [ManifestItem(w)]);
    ok := WalkDir(tree, [], parsed.value, recipients, dest, manifest);
    if ok {
      assert manifest.entries == EntriesOf(w);
      ghost var before := dest.files;
      assert Place(before, [MANIFEST], ManifestItem(w).leaf) == Create(before, [MANIFEST], ManifestItem(w).leaf);
      CreateBeside(before, [MANIFEST], ManifestItem(w).leaf);
      ok := dest.Write([MANIFEST], File(Index(manifest.entries), PLAIN_MODE));
      assert [ManifestItem(w)][1..] == [];
    }
  }

  // ---------------------------------------------------------------- when encryption succeeds

  /** A regular file the encryption keeps. */
  ghost predicate KeptFile(tree: Tree, patterns: Patterns, p: Path) {
    var disk := Flatten(tree, []);
    p in disk && disk[p].Item? && disk[p].leaf.File? && Admitted(p, patterns)
  }

  /**
   * No kept file `p` has a kept file below a folder named like its output `p.age`, and none lies
   * below a root folder named like the manifest.
   */
  ghost predicate NoCollision(tree: Tree, patterns: Patterns) {
    && (forall p, q :: p != [] && KeptFile(tree, patterns, p) && KeptFile(tree, patterns, q) ==> !(Out(p) < q))
    && (forall q :: KeptFile(tree, patterns, q) ==> !([MANIFEST] < q))
  }

  lemma KeptFileInWalk(tree: Tree, patterns: Patterns, p: Path)
    requires WellFormed(tree)
    ensures KeptFile(tree, patterns, p) <==>
            exists i | 0 <= i < |Walk(tree, [], patterns)| ::
              Walk(tree, [], patterns)[i].leaf.File? && Walk(tree, [], patterns)[i].path == p
  {
    var w := Walk(tree, [], patterns);
    if KeptFile(tree, patterns, p) {
      var it := Placed(p, Flatten(tree, [])[p].leaf);
      LeavesOnDisk(tree, [], it);
      WalkVisits(tree, patterns, it);
      assert it in w;
      var i :| 0 <= i < |w| && w[i] == it;
    }
    if i :| 0 <= i < |w| && w[i].leaf.File? && w[i].path == p {
      WalkVisits(tree, patterns, w[i]);
      LeavesOnDisk(tree, [], w[i]);
    }
  }

  /** Two outputs clash exactly when one file lies below the folder the other's output would need. */
  lemma OutClash(p: Path, q: Path)
    requires p != [] && q != [] && p != q
    ensures Clash(Out(p), Out(q)) <==> Out(p) < q || Out(q) < p
    ensures Clash(Out(p), [MANIFEST]) <==> [MANIFEST] < p
  {
    OutInjective(p, q);
    OutInjective(q, p);
    OutBelow(p, q);
    OutBelow(q, p);
    assert [MANIFEST] <= Out(p) <==> [MANIFEST] < p by {
      if |p| > 1 {
        assert Out(p)[0] == p[0];
      }
      assert [MANIFEST] <= Out(p) <==> Out(p)[0] == MANIFEST;
      assert [MANIFEST] < p <==> |p| > 1 && p[0] == MANIFEST;
      if |p| == 1 {
        assert Out(p) == [Out(p)[0]];
      }
    }
  }

  lemma OutBelow(p: Path, q: Path)
    requires p != [] && q != [] && Out(p) != Out(q)
    ensures Out(p) <= Out(q) <==> Out(p) < q
  {
    var n := |p|;
    if n < |q| {
      assert Out(q)[..n] == q[..n];
      assert Out(p) <= Out(q) <==> Out(p) == Out(q)[..n];
      assert Out(p) < q <==> Out(p) == q[..n];
    }
  }

  /** The i-th sealed item seals some file of the walk; distinct positions seal distinct files. */
  lemma {:induction false} SealedDistinct(w: seq<Placed>, recipients: set<string>)
    requires Rooted(w) && Scattered(w)
    ensures Distinct(SealedItems(w, recipients))
    decreases |w|
  {
    if w != [] {
      SealedDistinct(w[1..], recipients);
      var rest := SealedItems(w[1..], recipients);
      var s := SealedItems(w, recipients);
      if w[0].leaf.File? {
        forall j | 0 <= j < |rest| ensures rest[j].path != Out(w[0].path) {
          SealedMember(w[1..], recipients, rest[j]);
          var k :| 0 <= k < |w[1..]| && w[1..][k].leaf.File? && rest[j] == SealedItem(w[1..][k], recipients);
          assert !Clash(w[0].path, w[k + 1].path);
          OutInjective(w[0].path, w[k + 1].path);
        }
        assert s == [SealedItem(w[0], recipients)] + rest;
      }
    }
  }

  lemma OutputsDistinct(w: seq<Placed>, recipients: set<string>)
    requires Rooted(w) && Scattered(w)
    ensures Distinct(Outputs(w, recipients))
  {
    var s := SealedItems(w, recipients);
    SealedDistinct(w, recipients);
    forall j | 0 <= j < |s| ensures s[j].path != [MANIFEST] {
      SealedMember(w, recipients, s[j]);
      var k :| 0 <= k < |w| && w[k].leaf.File? && s[j] == SealedItem(w[k], recipients);
      OutInjective(w[k].path, w[k].path);
    }
  }

  lemma ScatteredOutputs(tree: Tree, patterns: Patterns, recipients: set<string>)
    requires WellFormed(tree)
    ensures Scattered(Outputs(Walk(tree, [], patterns), recipients)) <==> NoCollision(tree, patterns)
  {
    var w := Walk(tree, [], patterns);
    var out := Outputs(w, recipients);
    WalkScattered(tree, patterns);
    OutputsDistinct(w, recipients);
    if NoCollision(tree, patterns) {
      forall i, j | 0 <= i < j < |out| ensures !Clash(out[i].path, out[j].path) {
        assert out[i] in SealedItems(w, recipients);
        var p := SourceOf(tree, patterns, recipients, out[i]);
        if j < |out| - 1 {
          assert out[j] in SealedItems(w, recipients);
          var q := SourceOf(tree, patterns, recipients, out[j]);
          OutClash(p, q);
        } else {
          OutClash(p, p + [""]);
        }
      }
    }
    if Scattered(out) {
      forall p, q | p != [] && KeptFile(tree, patterns, p) && KeptFile(tree, patterns, q) ensures !(Out(p) < q) {
        var i := SealedAt(tree, patterns, recipients, p);
        var j := SealedAt(tree, patterns, recipients, q);
        if p == q {
          assert |Out(p)| == |q|;
        } else {
          OutClash(p, q);
          assert i != j;
          assert !Clash(out[if i < j then i else j].path, out[if i < j then j else i].path);
        }
      }
      forall q | KeptFile(tree, patterns, q) ensures !([MANIFEST] < q) {
        var j := SealedAt(tree, patterns, recipients, q);
        assert !Clash(out[j].path, out[|out| - 1].path);
        OutClash(q, q + [""]);
      }
    }
  }

  lemma SourceOf(tree: Tree, patterns: Patterns, recipients: set<string>, x: Placed) returns (p: Path)
    requires WellFormed(tree) && x in SealedItems(Walk(tree, [], patterns), recipients)
    ensures p != [] && KeptFile(tree, patterns, p) && x.path == Out(p)
  {
    var w := Walk(tree, [], patterns);
    SealedMember(w, recipients, x);
    var k :| 0 <= k < |w| && w[k].leaf.File? && x == SealedItem(w[k], recipients);
    p := w[k].path;
    KeptFileInWalk(tree, patterns, p);
  }

  lemma SealedAt(tree: Tree, patterns: Patterns, recipients: set<string>, p: Path) returns (i: nat)
    requires WellFormed(tree) && KeptFile(tree, patterns, p)
    ensures p != []
    ensures i < |SealedItems(Walk(tree, [], patterns), recipients)|
    ensures Outputs(Walk(tree, [], patterns), recipients)[i].path == Out(p)
  {
    var w := Walk(tree, [], patterns);
    KeptFileInWalk(tree, patterns, p);
    var k :| 0 <= k < |w| && w[k].leaf.File? && w[k].path == p;
    SealedMember(w, recipients, SealedItem(w[k], recipients));
    var s := SealedItems(w, recipients);
    i :| 0 <= i < |s| && s[i] == SealedItem(w[k], recipients);
  }

  /**
   * Encryption into an empty directory succeeds if and only if there is a recipient, the ignore
   * file can be read, and no two outputs get in each other's way.
   */
  lemma EncryptSucceedsIff(tree: Tree, ignoreRead: ReadOutcome, recipients: set<string>)
    requires WellFormed(tree)
    ensures EncryptInto(map[], tree, ignoreRead, recipients).Some? <==>
            && recipients != {}
            && Parse(ReadIgnore(tree, ignoreRead)).Some?
            && NoCollision(tree, Parse(ReadIgnore(tree, ignoreRead)).value)
  {
    if recipients != {} && Parse(ReadIgnore(tree, ignoreRead)).Some? {
      var patterns := Parse(ReadIgnore(tree, ignoreRead)).value;
      EncryptShows(tree, patterns, recipients);
    }
  }

  lemma EncryptShows(tree: Tree, patterns: Patterns, recipients: set<string>)
    requires WellFormed(tree)
    ensures var out := Outputs(Walk(tree, [], patterns), recipients);
            && (PlaceAll(map[], out).Some? <==> NoCollision(tree, patterns))
            && (PlaceAll(map[], out).Some? ==> Shows(PlaceAll(map[], out).value, out))
  {
    var out := Outputs(Walk(tree, [], patterns), recipients);
    WalkScattered(tree, patterns);
    OutputsDistinct(Walk(tree, [], patterns), recipients);
    assert [] + out == out;
    PlaceAllShows(map[], [], out);
    ScatteredOutputs(tree, patterns, recipients);
  }

  /** Encrypting beside git's own folder is encrypting into the working tree alone. */
  lemma EncryptBeside(fs: Files, tree: Tree, ignoreRead: ReadOutcome, recipients: set<string>)
    requires WellFormed(tree)
    ensures Beside(fs, EncryptInto(fs, tree, ignoreRead, recipients), EncryptInto(Tracked(fs), tree, ignoreRead, recipients))
  {
    if recipients != {} && Parse(ReadIgnore(tree, ignoreRead)).Some? {
      var patterns := Parse(ReadIgnore(tree, ignoreRead)).value;
      var out := Outputs(Walk(tree, [], patterns), recipients);
      forall i | 0 <= i < |out| ensures !InGit(out[i].path) {
        if i < |out| - 1 {
          assert out[i] in SealedItems(Walk(tree, [], patterns), recipients);
          var p := SourceOf(tree, patterns, recipients, out[i]);
          OutputsSpareGit(map[], p, out[i].leaf);
        }
      }
      PlaceAllBeside(fs, out);
    }
  }
}
