/** Rebuilding a directory from its encrypted form, and the round trip. */
module Decryption {
  import opened Text
  import opened Files
  import opened Ignore
  import opened Trees
  import opened Engine

  /** 0644, used when the recorded mode is zero. */
  function ModeOrDefault(mode: nat): nat {
    if mode == 0 then PLAIN_MODE else mode
  }

  /** What one manifest entry stands for; `None` when its blob is missing, not age, or sealed to others. */
  function Decoded(enc: Files, e: Entry, identities: set<string>): Option<Leaf> {
    if e.symlink then Some(Link(e.target))
    else if e.encPath !in enc then None
    else match enc[e.encPath]
      case Item(File(Sealed(recipients, body), _)) =>
        if recipients * identities == {} then None else Some(File(body, ModeOrDefault(e.mode)))
      case _ => None
  }

  function DecryptEntry(enc: Files, dest: Files, e: Entry, identities: set<string>): Option<Files> {
    if e.path == [] then None
    else match Decoded(enc, e, identities)
      case None => None
      case Some(leaf) => Place(dest, e.path, leaf)
  }

  function DecryptAll(enc: Files, dest: Files, entries: seq<Entry>, identities: set<string>): Option<Files>
    decreases |entries|
  {
    if entries == [] then Some(dest)
    else match DecryptEntry(enc, dest, entries[0], identities)
      case None => None
      case Some(f) => DecryptAll(enc, f, entries[1..], identities)
  }

  function ReadManifest(enc: Files): Option<seq<Entry>> {
    if [MANIFEST] !in enc then None
    else match enc[[MANIFEST]]
      case Item(File(Index(entries), _)) => Some(entries)
      case _ => None
  }

  function DecryptInto(enc: Files, dest: Files, identities: set<string>): Option<Files> {
    match ReadManifest(enc)
    case None => None
    case Some(entries) => DecryptAll(enc, dest, entries, identities)
  }

  method Decrypt(enc: Files, dest: Disk, identities: set<string>) returns (ok: bool)
    modifies dest
    ensures match DecryptInto(enc, old(dest.files), identities)
      case None => !ok
      case Some(f) => ok && dest.files == f
  {
    var manifest := ReadManifest(enc);
    if manifest.None? {
      return false;
    }
    var entries := manifest.value;
    var i := 0;
    while i < |entries|
      invariant 0 <= i <= |entries|
      invariant DecryptAll(enc, old(dest.files), entries, identities) ==
                DecryptAll(enc, dest.files, entries[i..], identities)
    {
      var e := entries[i];
      assert entries[i..][0] == e && entries[i..][1..] == entries[i + 1..];
      if e.path == [] {
        return false;
      }
      var made := dest.MkdirAll(Parent(e.path));
      if !made {
        return false;
      }
      var leaf := Decoded(enc, e, identities);
      if leaf.None? {
        return false;
      }
      var written := dest.Write(e.path, leaf.value);
      if !written {
        return false;
      }
      i := i + 1;
    }
    return true;
  }

  // ---------------------------------------------------------------- round trip

  /** A kept leaf as it is rebuilt: a file of mode zero comes back as 0644. */
  function Rebuilt(leaf: Leaf): Leaf {
    match leaf
    case File(body, mode) => File(body, ModeOrDefault(mode))
    case _ => leaf
  }

  ghost predicate KeptLeaf(tree: Tree, patterns: Patterns, p: Path) {
    var disk := Flatten(tree, []);
    p in disk && disk[p].Item? && !disk[p].leaf.Device? && Admitted(p, patterns)
  }

  ghost predicate KeptBelow(tree: Tree, patterns: Patterns, p: Path) {
    exists q :: Above(p, q) && KeptLeaf(tree, patterns, q)
  }

  /** The directory a restore must produce: the kept leaves and the folders above them, nothing else. */
  ghost function KeptTree(tree: Tree, patterns: Patterns): Files {
    var disk := Flatten(tree, []);
    map p | p in disk && (KeptLeaf(tree, patterns, p) || KeptBelow(tree, patterns, p)) ::
      if KeptLeaf(tree, patterns, p) then Item(Rebuilt(disk[p].leaf)) else Folder
  }

  function RebuiltItems(w: seq<Placed>): (r: seq<Placed>)
    ensures |r| == |w|
    ensures forall i :: 0 <= i < |w| ==> r[i] == Placed(w[i].path, Rebuilt(w[i].leaf))
  {
    seq(|w|, i requires 0 <= i < |w| => Placed(w[i].path, Rebuilt(w[i].leaf)))
  }

  lemma WalkIsKept(tree: Tree, patterns: Patterns, it: Placed)
    requires WellFormed(tree)
    ensures it in Walk(tree, [], patterns) <==>
            KeptLeaf(tree, patterns, it.path) && Flatten(tree, [])[it.path] == Item(it.leaf)
    ensures it in Walk(tree, [], patterns) && it.leaf.File? ==> it.leaf.mode < 512
  {
    WalkVisits(tree, patterns, it);
    LeavesOnDisk(tree, [], it);
    if it in Leaves(tree, []) {
      LeafModes(tree, [], it);
    }
  }

  lemma {:induction false} LeafModes(t: Tree, prefix: Path, it: Placed)
    requires WellFormed(t) && it in Leaves(t, prefix)
    ensures it.leaf.File? ==> it.leaf.mode < 512
  {
    match t
    case Nil =>
    case Cons(name, node, rest) =>
      if it in Leaves(rest, prefix) {
        LeafModes(rest, prefix, it);
      } else if node.Dir? {
        LeafModes(node.children, prefix + [name], it);
      }
  }

  lemma KeptTreeShows(tree: Tree, patterns: Patterns)
    requires WellFormed(tree)
    ensures Shows(KeptTree(tree, patterns), RebuiltItems(Walk(tree, [], patterns)))
  {
    var r := RebuiltItems(Walk(tree, [], patterns));
    var k := KeptTree(tree, patterns);
    assert HasItems(k, r) && HasFolders(k, r) by {
      forall i | 0 <= i < |r|
        ensures r[i].path in k && k[r[i].path] == Item(r[i].leaf)
        ensures forall p :: Above(p, r[i].path) ==> p in k && k[p] == Folder
      {
        KeptTreeHas(tree, patterns, i);
      }
    }
    assert NothingElse(k, r) by {
      forall p | p in k ensures Lists(r, p) || ListsBelow(r, p) {
        KeptTreeListed(tree, patterns, p);
      }
    }
  }

  lemma KeptTreeHas(tree: Tree, patterns: Patterns, i: nat)
    requires WellFormed(tree) && i < |Walk(tree, [], patterns)|
    ensures var it := Walk(tree, [], patterns)[i];
            var k := KeptTree(tree, patterns);
            && it.path in k && k[it.path] == Item(Rebuilt(it.leaf))
            && forall p :: Above(p, it.path) ==> p in k && k[p] == Folder
  {
    var it := Walk(tree, [], patterns)[i];
    var k := KeptTree(tree, patterns);
    WalkIsKept(tree, patterns, it);
    forall p | Above(p, it.path) ensures p in k && k[p] == Folder {
      FlattenClosed(tree, [], it.path, p);
      assert KeptBelow(tree, patterns, p);
    }
  }

  lemma KeptTreeListed(tree: Tree, patterns: Patterns, p: Path)
    requires WellFormed(tree) && p in KeptTree(tree, patterns)
    ensures var r := RebuiltItems(Walk(tree, [], patterns));
            Lists(r, p) || ListsBelow(r, p)
  {
    var w := Walk(tree, [], patterns);
    var r := RebuiltItems(w);
    var q := p;
    if !KeptLeaf(tree, patterns, p) {
      q :| Above(p, q) && KeptLeaf(tree, patterns, q);
    }
    var it := Placed(q, Flatten(tree, [])[q].leaf);
    WalkIsKept(tree, patterns, it);
    var i :| 0 <= i < |w| && w[i] == it;
    assert r[i].path == q;
  }

  /** Decrypting the entries of a walk is writing its rebuilt leaves. */
  lemma {:induction false} DecryptIsPlace(enc: Files, dest: Files, w: seq<Placed>, recipients: set<string>, identities: set<string>)
    requires Rooted(w) && Rooted(RebuiltItems(w))
    requires forall i :: 0 <= i < |w| ==> !w[i].leaf.Device?
    requires forall i :: 0 <= i < |w| && w[i].leaf.File? ==>
               recipients * identities != {} && w[i].leaf.mode < 512 && Out(w[i].path) in enc && enc[Out(w[i].path)] == Item(SealedItem(w[i], recipients).leaf)
    ensures DecryptAll(enc, dest, EntriesOf(w), identities) == PlaceAll(dest, RebuiltItems(w))
    decreases |w|
  {
    if w != [] {
      var r := RebuiltItems(w);
      assert r[1..] == RebuiltItems(w[1..]);
      assert EntriesOf(w)[1..] == EntriesOf(w[1..]);
      assert Decoded(enc, EntryOf(w[0]), identities) == Some(Rebuilt(w[0].leaf));
      match Place(dest, r[0].path, r[0].leaf)
      case None =>
      case Some(f) => DecryptIsPlace(enc, f, w[1..], recipients, identities);
    }
  }

  /**
   * Round trip: whatever else lies in the encrypted directory, decrypting it into an empty one with
   * any matching identity yields exactly the kept leaves.
   */
  lemma RoundTrip(tree: Tree, ignoreRead: ReadOutcome, recipients: set<string>, enc: Files, identities: set<string>)
    requires WellFormed(tree)
    requires EncryptInto(map[], tree, ignoreRead, recipients).Some?
    requires forall p :: p in EncryptInto(map[], tree, ignoreRead, recipients).value ==>
               p in enc && enc[p] == EncryptInto(map[], tree, ignoreRead, recipients).value[p]
    requires recipients * identities != {}
    ensures DecryptInto(enc, map[], identities) ==
            Some(KeptTree(tree, Parse(ReadIgnore(tree, ignoreRead)).value))
    ensures RestoredFrom(Flatten(tree, []), Parse(ReadIgnore(tree, ignoreRead)).value, DecryptInto(enc, map[], identities).value)
  {
    KeptTreeRestores(tree, Parse(ReadIgnore(tree, ignoreRead)).value);
    hide RestoredFrom;
    var patterns := Parse(ReadIgnore(tree, ignoreRead)).value;
    var w := Walk(tree, [], patterns);
    var out := Outputs(w, recipients);
    EncryptShows(tree, patterns, recipients);
    var f := PlaceAll(map[], out).value;
    assert HasItems(f, out);
    assert out[|out| - 1] == ManifestItem(w);
    assert ReadManifest(enc) == Some(EntriesOf(w));
    forall i | 0 <= i < |w|
      ensures !w[i].leaf.Device?
      ensures w[i].leaf.File? ==> w[i].leaf.mode < 512 && Out(w[i].path) in enc && enc[Out(w[i].path)] == Item(SealedItem(w[i], recipients).leaf)
    {
      WalkIsKept(tree, patterns, w[i]);
      if w[i].leaf.File? {
        var s := SealedItem(w[i], recipients);
        SealedMember(w, recipients, s);
        assert s in SealedItems(w, recipients);
        assert s in out;
        var k :| 0 <= k < |out| && out[k] == s;
      }
    }
    var r := RebuiltItems(w);
    DecryptIsPlace(enc, map[], w, recipients, identities);
    RebuiltPlaces(tree, patterns);
  }

  lemma RebuiltPlaces(tree: Tree, patterns: Patterns)
    requires WellFormed(tree)
    ensures PlaceAll(map[], RebuiltItems(Walk(tree, [], patterns))) == Some(KeptTree(tree, patterns))
  {
    var r := RebuiltItems(Walk(tree, [], patterns));
    WalkScattered(tree, patterns);
    RebuiltScattered(Walk(tree, [], patterns));
    assert [] + r == r;
    PlaceAllShows(map[], [], r);
    KeptTreeShows(tree, patterns);
    ShowsUnique(PlaceAll(map[], r).value, KeptTree(tree, patterns), r, r);
  }

  lemma RebuiltScattered(w: seq<Placed>)
    requires Rooted(w) && Scattered(w)
    ensures Rooted(RebuiltItems(w)) && Scattered(RebuiltItems(w)) && Distinct(RebuiltItems(w))
  {
    var r := RebuiltItems(w);
    forall i, j | 0 <= i < j < |r| ensures !Clash(r[i].path, r[j].path) {
      assert !Clash(w[i].path, w[j].path);
    }
  }

  lemma ManifestCovers(tree: Tree, patterns: Patterns, p: Path)
    requires WellFormed(tree)
    ensures KeptLeaf(tree, patterns, p) <==> Lists(Walk(tree, [], patterns), p)
  {
    var w := Walk(tree, [], patterns);
    if KeptLeaf(tree, patterns, p) {
      var it := Placed(p, Flatten(tree, [])[p].leaf);
      WalkIsKept(tree, patterns, it);
      var i :| 0 <= i < |w| && w[i] == it;
    }
    if Lists(w, p) {
      var i :| 0 <= i < |w| && w[i].path == p;
      WalkIsKept(tree, patterns, w[i]);
    }
  }

  ghost predicate Recorded(entries: seq<Entry>, p: Path) {
    exists i :: 0 <= i < |entries| && entries[i].path == p
  }

  lemma RecordedIffListed(w: seq<Placed>, p: Path)
    requires Rooted(w)
    ensures Recorded(EntriesOf(w), p) <==> Lists(w, p)
  {
    var entries := EntriesOf(w);
    forall i | 0 <= i < |w| ensures entries[i].path == w[i].path {
      EntriesAt(w, i);
    }
    if Lists(w, p) {
      var i :| 0 <= i < |w| && w[i].path == p;
      assert entries[i].path == p;
    }
  }

  /** Each kept leaf is described by exactly one manifest entry, and nothing else is. */
  lemma ManifestListsOnce(tree: Tree, patterns: Patterns)
    requires WellFormed(tree)
    ensures var entries := EntriesOf(Walk(tree, [], patterns));
            && (forall p :: KeptLeaf(tree, patterns, p) <==> Recorded(entries, p))
            && (forall i, j :: 0 <= i < j < |entries| ==> entries[i].path != entries[j].path)
  {
    var w := Walk(tree, [], patterns);
    var entries := EntriesOf(w);
    forall p ensures KeptLeaf(tree, patterns, p) <==> Recorded(entries, p) {
      ManifestCovers(tree, patterns, p);
      RecordedIffListed(w, p);
    }
    WalkScattered(tree, patterns);
    forall i, j | 0 <= i < j < |entries| ensures entries[i].path != entries[j].path {
      EntriesAt(w, i);
      EntriesAt(w, j);
      assert !Clash(w[i].path, w[j].path);
    }
  }

  /** No identity among the recipients: every directory with a kept regular file is refused. */
  lemma {:induction false} WrongIdentityRefused(enc: Files, dest: Files, entries: seq<Entry>, identities: set<string>, i: nat)
    requires i < |entries| && !entries[i].symlink
    requires entries[i].encPath in enc && enc[entries[i].encPath].Item? && enc[entries[i].encPath].leaf.File?
    requires var b := enc[entries[i].encPath].leaf.body; b.Sealed? ==> b.recipients * identities == {}
    ensures DecryptAll(enc, dest, entries, identities).None?
    decreases i
  {
    if i > 0 {
      match DecryptEntry(enc, dest, entries[0], identities)
      case None =>
      case Some(f) =>
        assert entries[1..][i - 1] == entries[i];
        WrongIdentityRefused(enc, f, entries[1..], identities, i - 1);
    }
  }

  /** An entry for the directory itself, or for a file that is missing or no ciphertext. */
  predicate Broken(enc: Files, e: Entry) {
    e.path == [] ||
    (!e.symlink && (e.encPath in enc ==> enc[e.encPath].Folder? || !enc[e.encPath].leaf.File? || !enc[e.encPath].leaf.body.Sealed?))
  }

  /** Such an entry makes decryption fail, whoever decrypts. */
  lemma {:induction false} BrokenRefused(enc: Files, dest: Files, entries: seq<Entry>, identities: set<string>, i: nat)
    requires i < |entries| && Broken(enc, entries[i])
    ensures DecryptAll(enc, dest, entries, identities).None?
    decreases i
  {
    if i > 0 {
      match DecryptEntry(enc, dest, entries[0], identities)
      case None =>
      case Some(f) =>
        assert entries[1..][i - 1] == entries[i];
        BrokenRefused(enc, f, entries[1..], identities, i - 1);
    }
  }

  /** Without a readable manifest nothing is decrypted. */
  lemma ManifestNeeded(enc: Files, dest: Files, identities: set<string>)
    ensures DecryptInto(enc, dest, identities).Some? ==>
              var p := ["manifest.json"];
              p in enc && enc[p].Item? && enc[p].leaf.File? && enc[p].leaf.body.Index?
  {
  }

  // ---------------------------------------------------------------- what comes back, leaf by leaf

  /** A link comes back with its target, a file with its contents, and with its mode unless that is zero. */
  predicate SameLeaf(original: Leaf, copy: Leaf) {
    match original
    case Link(target) => copy.Link? && copy.target == target
    case File(body, mode) => copy.File? && copy.body == body && copy.mode == (if mode == 0 then 420 else mode)
    case Device => false
  }

  /** Every kept leaf of the disk is there, nothing else is, and folders only above them. */
  ghost predicate RestoredFrom(disk: Files, patterns: Patterns, out: Files) {
    && (forall p :: p in out && out[p].Item? <==> p in disk && disk[p].Item? && !disk[p].leaf.Device? && Admitted(p, patterns))
    && (forall p :: p in out && out[p].Item? ==> SameLeaf(disk[p].leaf, out[p].leaf))
    && (forall p :: p in out && out[p].Folder? <==> exists q :: p != [] && p < q && q in out && out[q].Item?)
  }

  /** The directory a restore produces, told from the source's disk alone. */
  lemma KeptTreeRestores(tree: Tree, patterns: Patterns)
    requires WellFormed(tree)
    ensures RestoredFrom(Flatten(tree, []), patterns, KeptTree(tree, patterns))
  {
    var disk := Flatten(tree, []);
    var k := KeptTree(tree, patterns);
    forall p | p in k && k[p].Item? ensures SameLeaf(disk[p].leaf, k[p].leaf) {
    }
    forall p ensures p in k && k[p].Folder? <==> exists q :: p != [] && p < q && q in k && k[q].Item? {
      if q :| p != [] && p < q && q in k && k[q].Item? {
        FlattenClosed(tree, [], q, p);
        assert KeptBelow(tree, patterns, p);
      }
      if p in k && k[p].Folder? {
        var q :| Above(p, q) && KeptLeaf(tree, patterns, q);
        assert q in k && k[q].Item?;
      }
    }
  }

  /** The manifest of an encryption describes each of its leaves as it is on disk. */
  lemma ManifestDescribes(tree: Tree, patterns: Patterns, i: nat)
    requires WellFormed(tree) && i < |EntriesOf(Walk(tree, [], patterns))|
    ensures var e := EntriesOf(Walk(tree, [], patterns))[i];
            var disk := Flatten(tree, []);
            && e.path in disk && disk[e.path].Item? && e.path != []
            && match disk[e.path].leaf
               case File(_, mode) =>
                 && !e.symlink && e.mode == mode
                 && e.encPath == e.path[..|e.path| - 1] + [e.path[|e.path| - 1] + ".age"]
               case Link(target) => e.symlink && e.target == target && e.encPath == [] && e.mode == 511
               case Device => false
  {
    EntriesAt(Walk(tree, [], patterns), i);
    WalkIsKept(tree, patterns, Walk(tree, [], patterns)[i]);
  }

  // ---------------------------------------------------------------- what is kept, from the ignore file's text

  /** No folder above the path is git's own, and no line ignores it or a folder above it. */
  ghost predicate KeptByLines(lines: seq<string>, p: Path) {
    && (forall n :: 0 <= n < |p| - 1 ==> p[n] != ".git")
    && (forall n :: 0 < n <= |p| ==> !SomeLineIgnores(lines, p[..n]))
  }

  /**
   * A tree with an ignore file of its own: what is kept is what no line of that file ignores. Without one
   * everything is, but for what lies in a folder named `.git`.
   */
  lemma KeptMeans(tree: Tree, ignoreRead: ReadOutcome, p: Path)
    requires Parse(ReadIgnore(tree, ignoreRead)).Some?
    ensures var disk := Flatten(tree, []);
            var patterns := Parse(ReadIgnore(tree, ignoreRead)).value;
            && ([".encryptignore"] !in disk ==> (Admitted(p, patterns) <==> KeptByLines([], p)))
            && ([".encryptignore"] in disk && disk[[".encryptignore"]].Item? && disk[[".encryptignore"]].leaf.File?
                && disk[[".encryptignore"]].leaf.body.Raw? ==>
                  (Admitted(p, patterns) <==> KeptByLines(Lines(disk[[".encryptignore"]].leaf.body.data), p)))
  {
    var read := ReadIgnore(tree, ignoreRead);
    var patterns := Parse(read).value;
    var lines := if read.Text? then Lines(read.data) else [];
    assert patterns == PatternsOf(lines);
    forall n | 0 < n <= |p| ensures Ignored(patterns, p[..n]) <==> SomeLineIgnores(lines, p[..n]) {
      IgnoredByLine(lines, p[..n]);
    }
  }
}
