/** What an encrypted directory holds, and who can open it. */
module Confidential {
  import opened Files
  import opened Ignore
  import opened Trees
  import opened Engine
  import opened Decryption

  /** The name of a file's ciphertext. */
  function AgeName(p: Path): Path
    requires p != []
  {
    p[..|p| - 1] + [p[|p| - 1] + ".age"]
  }

  // ---------------------------------------------------------------- only ciphertext is written

  /** Ciphertext for exactly these recipients, or the manifest. */
  predicate Hidden(p: Path, body: Blob, recipients: set<string>) {
    (body.Sealed? && body.recipients == recipients) || (p == ["manifest.json"] && body.Index?)
  }

  predicate HiddenItem(it: Placed, recipients: set<string>) {
    it.leaf.File? && Hidden(it.path, it.leaf.body, recipients)
  }

  lemma {:induction false} SealedHidden(w: seq<Placed>, recipients: set<string>)
    requires Rooted(w)
    ensures forall i :: 0 <= i < |SealedItems(w, recipients)| ==> HiddenItem(SealedItems(w, recipients)[i], recipients)
    decreases |w|
  {
    if w != [] {
      SealedHidden(w[1..], recipients);
    }
  }

  lemma MkdirsKeeps(fs: Files, dir: Path, p: Path)
    requires Mkdirs(fs, dir).Some?
    ensures var f := Mkdirs(fs, dir).value; p in f && f[p].Item? ==> p in fs && f[p] == fs[p]
    decreases |dir|
  {
    if dir != [] {
      MkdirsKeeps(fs, Parent(dir), p);
    }
  }

  /** Every file written holds what was to be placed there. */
  lemma {:induction false} PlacedHidden(fs: Files, items: seq<Placed>, recipients: set<string>, p: Path)
    requires Rooted(items) && PlaceAll(fs, items).Some?
    requires forall i :: 0 <= i < |items| ==> HiddenItem(items[i], recipients)
    ensures var f := PlaceAll(fs, items).value;
            p in f && f[p].Item? && !(p in fs && f[p] == fs[p]) ==> f[p].leaf.File? && Hidden(p, f[p].leaf.body, recipients)
    decreases |items|
  {
    if items != [] {
      var it := items[0];
      MkdirsKeeps(fs, Parent(it.path), p);
      PlacedHidden(Place(fs, it.path, it.leaf).value, items[1..], recipients, p);
    }
  }

  /**
   * Into whatever directory: every file that encryption leaves and that was not there before is the
   * manifest, or ciphertext for the given recipients and nobody else.
   */
  lemma OnlyRecipients(dest: Files, tree: Tree, ignoreRead: ReadOutcome, recipients: set<string>, p: Path)
    requires EncryptInto(dest, tree, ignoreRead, recipients).Some?
    ensures var enc := EncryptInto(dest, tree, ignoreRead, recipients).value;
            p in enc && enc[p].Item? && !(p in dest && enc[p] == dest[p]) ==>
              enc[p].leaf.File? && Hidden(p, enc[p].leaf.body, recipients)
  {
    var w := Walk(tree, [], Parse(ReadIgnore(tree, ignoreRead)).value);
    SealedHidden(w, recipients);
    PlacedHidden(dest, Outputs(w, recipients), recipients, p);
  }

  // ---------------------------------------------------------------- every kept file is written

  /** Everything encryption makes of an empty directory. */
  lemma EncryptedFiles(tree: Tree, ignoreRead: ReadOutcome, recipients: set<string>)
    requires WellFormed(tree) && EncryptInto(map[], tree, ignoreRead, recipients).Some?
    ensures Parse(ReadIgnore(tree, ignoreRead)).Some?
    ensures var patterns := Parse(ReadIgnore(tree, ignoreRead)).value;
            var disk := Flatten(tree, []);
            var enc := EncryptInto(map[], tree, ignoreRead, recipients).value;
            && (forall p :: KeptFile(tree, patterns, p) ==>
                  p != [] && AgeName(p) in enc && enc[AgeName(p)] == Item(File(Sealed(recipients, disk[p].leaf.body), 420)))
            && (forall q :: q in enc && enc[q].Item? && q != ["manifest.json"] ==>
                  exists p :: p != [] && KeptFile(tree, patterns, p) && q == AgeName(p))
            && ["manifest.json"] in enc && enc[["manifest.json"]].Item? && enc[["manifest.json"]].leaf.File?
            && enc[["manifest.json"]].leaf.body.Index? && enc[["manifest.json"]].leaf.mode == 420
  {
    var patterns := Parse(ReadIgnore(tree, ignoreRead)).value;
    var disk := Flatten(tree, []);
    var enc := EncryptInto(map[], tree, ignoreRead, recipients).value;
    var w := Walk(tree, [], patterns);
    var out := Outputs(w, recipients);
    EncryptShows(tree, patterns, recipients);
    assert out[|out| - 1] == ManifestItem(w);
    forall p | KeptFile(tree, patterns, p)
      ensures p != [] && AgeName(p) in enc && enc[AgeName(p)] == Item(File(Sealed(recipients, disk[p].leaf.body), 420))
    {
      KeptFileSealed(tree, patterns, recipients, enc, p);
    }
    forall q | q in enc && enc[q].Item? && q != ["manifest.json"]
      ensures exists p :: p != [] && KeptFile(tree, patterns, p) && q == AgeName(p)
    {
      NothingElseSealed(tree, patterns, recipients, enc, q);
    }
  }

  lemma KeptFileSealed(tree: Tree, patterns: Patterns, recipients: set<string>, enc: Files, p: Path)
    requires WellFormed(tree) && KeptFile(tree, patterns, p)
    requires Shows(enc, Outputs(Walk(tree, [], patterns), recipients))
    ensures p != [] && AgeName(p) in enc
    ensures enc[AgeName(p)] == Item(File(Sealed(recipients, Flatten(tree, [])[p].leaf.body), 420))
  {
    var w := Walk(tree, [], patterns);
    var out := Outputs(w, recipients);
    KeptFileInWalk(tree, patterns, p);
    var k :| 0 <= k < |w| && w[k].leaf.File? && w[k].path == p;
    WalkVisits(tree, patterns, w[k]);
    LeavesOnDisk(tree, [], w[k]);
    SealedMember(w, recipients, SealedItem(w[k], recipients));
    var i :| 0 <= i < |SealedItems(w, recipients)| && SealedItems(w, recipients)[i] == SealedItem(w[k], recipients);
    assert out[i] == SealedItem(w[k], recipients);
  }

  lemma NothingElseSealed(tree: Tree, patterns: Patterns, recipients: set<string>, enc: Files, q: Path)
    requires WellFormed(tree) && q in enc && enc[q].Item? && q != ["manifest.json"]
    requires Shows(enc, Outputs(Walk(tree, [], patterns), recipients))
    ensures exists p :: p != [] && KeptFile(tree, patterns, p) && q == AgeName(p)
  {
    var w := Walk(tree, [], patterns);
    var out := Outputs(w, recipients);
    assert Lists(out, q);
    var i :| 0 <= i < |out| && out[i].path == q;
    assert out[i] in SealedItems(w, recipients);
    var p := SourceOf(tree, patterns, recipients, out[i]);
  }

  // ---------------------------------------------------------------- who can open it

  ghost predicate Includes(enc: Files, made: Files) {
    forall p :: p in made ==> p in enc && enc[p] == made[p]
  }

  /** A directory with a regular file in it is closed to everyone who is not a recipient. */
  lemma StrangersRefused(tree: Tree, ignoreRead: ReadOutcome, recipients: set<string>, enc: Files, dest: Files, identities: set<string>)
    requires WellFormed(tree) && EncryptInto(map[], tree, ignoreRead, recipients).Some?
    requires Includes(enc, EncryptInto(map[], tree, ignoreRead, recipients).value)
    requires recipients * identities == {}
    ensures Parse(ReadIgnore(tree, ignoreRead)).Some?
    ensures (exists p :: KeptFile(tree, Parse(ReadIgnore(tree, ignoreRead)).value, p)) ==> DecryptInto(enc, dest, identities).None?
  {
    var patterns := Parse(ReadIgnore(tree, ignoreRead)).value;
    var w := Walk(tree, [], patterns);
    EncryptShows(tree, patterns, recipients);
    if p :| KeptFile(tree, patterns, p) {
      ManifestRead(tree, ignoreRead, recipients, enc);
      EncryptedFiles(tree, ignoreRead, recipients);
      KeptFileInWalk(tree, patterns, p);
      var i :| 0 <= i < |w| && w[i].leaf.File? && w[i].path == p;
      EntriesAt(w, i);
      assert Out(p) == AgeName(p);
      WrongIdentityRefused(enc, dest, EntriesOf(w), identities, i);
    }
  }

  lemma ManifestRead(tree: Tree, ignoreRead: ReadOutcome, recipients: set<string>, enc: Files)
    requires WellFormed(tree) && EncryptInto(map[], tree, ignoreRead, recipients).Some?
    requires Includes(enc, EncryptInto(map[], tree, ignoreRead, recipients).value)
    ensures Parse(ReadIgnore(tree, ignoreRead)).Some?
    ensures ReadManifest(enc) == Some(EntriesOf(Walk(tree, [], Parse(ReadIgnore(tree, ignoreRead)).value)))
  {
    var patterns := Parse(ReadIgnore(tree, ignoreRead)).value;
    var out := Outputs(Walk(tree, [], patterns), recipients);
    EncryptShows(tree, patterns, recipients);
    assert out[|out| - 1] == ManifestItem(Walk(tree, [], patterns));
  }

  /** Into an empty directory, decryption succeeds exactly for the recipients, or if there is no regular file to open. */
  lemma OpensIff(tree: Tree, ignoreRead: ReadOutcome, recipients: set<string>, enc: Files, identities: set<string>)
    requires WellFormed(tree) && EncryptInto(map[], tree, ignoreRead, recipients).Some?
    requires Includes(enc, EncryptInto(map[], tree, ignoreRead, recipients).value)
    ensures Parse(ReadIgnore(tree, ignoreRead)).Some?
    ensures DecryptInto(enc, map[], identities).Some? <==>
            recipients * identities != {} || !exists p :: KeptFile(tree, Parse(ReadIgnore(tree, ignoreRead)).value, p)
  {
    var patterns := Parse(ReadIgnore(tree, ignoreRead)).value;
    if recipients * identities != {} {
      RoundTrip(tree, ignoreRead, recipients, enc, identities);
    } else if exists p :: KeptFile(tree, patterns, p) {
      StrangersRefused(tree, ignoreRead, recipients, enc, map[], identities);
    } else {
      var w := Walk(tree, [], patterns);
      ManifestRead(tree, ignoreRead, recipients, enc);
      forall i | 0 <= i < |w| ensures w[i].leaf.Link? {
        WalkIsKept(tree, patterns, w[i]);
        assert !KeptFile(tree, patterns, w[i].path);
      }
      WalkScattered(tree, patterns);
      RebuiltScattered(w);
      DecryptIsPlace(enc, map[], w, recipients, identities);
      RebuiltPlaces(tree, patterns);
    }
  }
}
