/** The encrypted repository's directory holds its working tree and git's own folder side by side. */
module WorkTree {
  import opened Files
  import opened Trees

  predicate InGit(p: Path) {
    p == [] || p[0] == GIT_DIR
  }

  /** git's own folder, and everything in it. */
  function GitPart(fs: Files): Files {
    map p | p in fs && InGit(p) :: fs[p]
  }

  /** The working tree. */
  function Tracked(fs: Files): Files {
    map p | p in fs && !InGit(p) :: fs[p]
  }

  /** `next` comes from `fs` as `tracked` comes from its working tree, with git's own folder untouched. */
  ghost predicate Beside(fs: Files, next: Option<Files>, tracked: Option<Files>) {
    && (next.Some? <==> tracked.Some?)
    && (next.Some? ==> Tracked(next.value) == tracked.value && GitPart(next.value) == GitPart(fs))
  }

  lemma UpdateBeside(fs: Files, p: Path, o: Object)
    requires !InGit(p)
    ensures Tracked(fs[p := o]) == Tracked(fs)[p := o] && GitPart(fs[p := o]) == GitPart(fs)
  {
  }

  lemma {:induction false} MkdirsBeside(fs: Files, dir: Path)
    requires dir == [] || !InGit(dir)
    ensures Beside(fs, Mkdirs(fs, dir), Mkdirs(Tracked(fs), dir))
    decreases |dir|
  {
    if dir != [] {
      MkdirsBeside(fs, Parent(dir));
      if Mkdirs(fs, Parent(dir)).Some? {
        var f := Mkdirs(fs, Parent(dir)).value;
        assert dir in Tracked(f) <==> dir in f;
        UpdateBeside(f, dir, Folder);
      }
    }
  }

  lemma CreateBeside(fs: Files, p: Path, leaf: Leaf)
    requires !InGit(p)
    ensures Beside(fs, Create(fs, p, leaf), Create(Tracked(fs), p, leaf))
  {
    assert p in Tracked(fs) <==> p in fs;
    if Create(fs, p, leaf).Some? {
      UpdateBeside(fs, p, Create(fs, p, leaf).value[p]);
    }
  }

  lemma PlaceBeside(fs: Files, p: Path, leaf: Leaf)
    requires !InGit(p)
    ensures Beside(fs, Place(fs, p, leaf), Place(Tracked(fs), p, leaf))
  {
    MkdirsBeside(fs, Parent(p));
    if Mkdirs(fs, Parent(p)).Some? {
      CreateBeside(Mkdirs(fs, Parent(p)).value, p, leaf);
    }
  }

  lemma {:induction false} PlaceAllBeside(fs: Files, items: seq<Placed>)
    requires Rooted(items) && forall i :: 0 <= i < |items| ==> !InGit(items[i].path)
    ensures Beside(fs, PlaceAll(fs, items), PlaceAll(Tracked(fs), items))
    decreases |items|
  {
    if items != [] {
      PlaceBeside(fs, items[0].path, items[0].leaf);
      match Place(fs, items[0].path, items[0].leaf)
      case None =>
      case Some(f) => PlaceAllBeside(f, items[1..]);
    }
  }

  /** Removing one entry of the directory with everything below it. */
  function RemoveAll(fs: Files, name: string): Files {
    map p | p in fs && !(p != [] && p[0] == name) :: fs[p]
  }
}
