/** The `.encryptignore` list: parsing, glob matching and the two forms of a match. */
module Ignore {
  import opened Text
  import opened Files

  const FILE_NAME: string := ".encryptignore"

  /** The longest token a line scanner accepts (64 KiB). */
  const MAX_TOKEN := 65536

  datatype Pattern = Pattern(glob: string, anchored: bool)

  type Patterns = seq<Pattern>

  /** What reading the ignore file yields. */
  datatype ReadOutcome = Missing | Text(data: string) | ReadError

  // ---------------------------------------------------------------- globs

  /** Glob matching within path segments: neither `*` nor `?` matches a slash. */
  predicate Glob(g: string, s: string)
    decreases |g| + |s|
  {
    if g == "" then s == ""
    else if g[0] == '*' then Glob(g[1..], s) || (s != "" && s[0] != '/' && Glob(g, s[1..]))
    else s != "" && (if g[0] == '?' then s[0] != '/' else s[0] == g[0]) && Glob(g[1..], s[1..])
  }

  /** A match preserves the number of slashes. */
  lemma {:induction false} GlobKeepsSlashes(g: string, s: string)
    requires Glob(g, s)
    ensures Slashes(g) == Slashes(s)
    decreases |g| + |s|
  {
    if g == "" {
    } else if g[0] == '*' {
      if Glob(g[1..], s) {
        GlobKeepsSlashes(g[1..], s);
      } else {
        GlobKeepsSlashes(g, s[1..]);
      }
    } else {
      GlobKeepsSlashes(g[1..], s[1..]);
    }
  }

  /** A glob without metacharacters matches exactly itself. */
  lemma {:induction false} LiteralGlob(g: string, s: string)
    requires '*' !in g && '?' !in g
    ensures Glob(g, s) <==> g == s
  {
    if g != "" && s != "" {
      LiteralGlob(g[1..], s[1..]);
      assert g == [g[0]] + g[1..] && s == [s[0]] + s[1..];
    }
  }

  /** What single characters match: these and `GlobConcat` leave no other meaning to a glob. */
  lemma GlobAtoms(c: char, s: string)
    ensures Glob("", s) <==> s == ""
    ensures Glob("?", s) <==> |s| == 1 && s[0] != '/'
    ensures c != '*' && c != '?' ==> (Glob([c], s) <==> s == [c])
  {
    assert [c][1..] == "" && "?"[1..] == "";
    if |s| == 1 {
      assert s[1..] == "" && s == [s[0]];
    }
  }

  /** A star matches whatever has no slash. */
  lemma {:induction false} GlobStar(s: string)
    ensures Glob("*", s) <==> '/' !in s
  {
    assert "*"[1..] == "";
    if s != "" {
      GlobStar(s[1..]);
      assert s == [s[0]] + s[1..];
    }
  }

  ghost predicate GlobSplit(a: string, b: string, s: string) {
    exists k :: 0 <= k <= |s| && Glob(a, s[..k]) && Glob(b, s[k..])
  }

  /** A glob made of two matches what splits into a match of the one and a match of the other. */
  lemma {:induction false} GlobConcat(a: string, b: string, s: string)
    ensures Glob(a + b, s) <==> GlobSplit(a, b, s)
    decreases |a| + |s|
  {
    if a == "" {
      assert a + b == b && s[..0] == "" && s[0..] == s;
      forall k | 0 <= k <= |s| && Glob(a, s[..k]) ensures k == 0 {
      }
    } else {
      var a', c := a[1..], a[0];
      assert (a + b)[1..] == a' + b && (a + b)[0] == c;
      if c == '*' {
        GlobConcat(a', b, s);
      }
      if s != "" {
        GlobConcat(if c == '*' then a else a', b, s[1..]);
      }
      SplitNext(a, b, s);
    }
  }

  /** Where a split can come from: the first character of the glob, and that of the text. */
  lemma SplitNext(a: string, b: string, s: string)
    requires a != ""
    ensures GlobSplit(a, b, s) <==>
            if a[0] == '*' then GlobSplit(a[1..], b, s) || (s != "" && s[0] != '/' && GlobSplit(a, b, s[1..]))
            else s != "" && (if a[0] == '?' then s[0] != '/' else s[0] == a[0]) && GlobSplit(a[1..], b, s[1..])
  {
    var rest := if a[0] == '*' then a else a[1..];
    if k :| 0 <= k <= |s| && Glob(a, s[..k]) && Glob(b, s[k..]) {
      if k > 0 {
        assert s[..k][1..] == s[1..][..k - 1] && s[1..][k - 1..] == s[k..];
      }
    }
    if s != "" {
      if k :| 0 <= k <= |s[1..]| && Glob(rest, s[1..][..k]) && Glob(b, s[1..][k..]) {
        assert s[..k + 1][1..] == s[1..][..k] && s[k + 1..] == s[1..][k..];
      }
    }
  }

  // ---------------------------------------------------------------- matching

  /** An unanchored pattern is tried against the whole path and every suffix at a segment boundary. */
  ghost predicate MatchesSomeSuffix(g: string, path: Path) {
    exists i :: 0 <= i < |path| && Glob(g, Join(path[i..]))
  }

  ghost predicate PatternMatches(p: Pattern, path: Path) {
    if p.anchored then Glob(p.glob, Join(path)) else MatchesSomeSuffix(p.glob, path)
  }

  ghost predicate Ignored(patterns: Patterns, path: Path) {
    exists k :: 0 <= k < |patterns| && PatternMatches(patterns[k], path)
  }

  method Match(patterns: Patterns, path: Path) returns (ignored: bool)
    ensures ignored <==> Ignored(patterns, path)
  {
    for k := 0 to |patterns|
      invariant forall j :: 0 <= j < k ==> !PatternMatches(patterns[j], path)
    {
      var p := patterns[k];
      if p.anchored {
        if Glob(p.glob, Join(path)) {
          return true;
        }
      } else {
        for i := 0 to |path|
          invariant forall j :: 0 <= j < i ==> !Glob(p.glob, Join(path[j..]))
        {
          if Glob(p.glob, Join(path[i..])) {
            assert PatternMatches(patterns[k], path);
            return true;
          }
        }
      }
    }
    return false;
  }

  /** The last n segments of a path. */
  function Last(path: Path, n: nat): Path
    requires n <= |path|
  {
    path[|path| - n..]
  }

  /**
   * The suffix loop is one test: a glob with k slashes can only match the last k+1 segments.
   */
  lemma SuffixLoopIsOneTest(g: string, path: Path)
    requires SlashFree(path)
    ensures MatchesSomeSuffix(g, path) <==>
            Slashes(g) < |path| && Glob(g, Join(Last(path, Slashes(g) + 1)))
  {
    forall i | 0 <= i < |path| && Glob(g, Join(path[i..])) ensures i == |path| - Slashes(g) - 1 {
      GlobKeepsSlashes(g, Join(path[i..]));
      SlashesJoin(path[i..]);
    }
    if Slashes(g) < |path| {
      assert Last(path, Slashes(g) + 1) == path[|path| - Slashes(g) - 1..];
    }
  }

  /** An anchored pattern with k slashes can only match paths of exactly k+1 segments. */
  lemma AnchoredDepth(g: string, path: Path)
    requires SlashFree(path) && path != [] && Glob(g, Join(path))
    ensures |path| == Slashes(g) + 1
  {
    GlobKeepsSlashes(g, Join(path));
    SlashesJoin(path);
  }

  // ---------------------------------------------------------------- parsing

  /** The pattern a line stands for, if any: comments and blank lines stand for none. */
  function PatternOf(line: string): Option<Pattern> {
    var l := TrimSpace(line);
    if l == "" || l[0] == '#' then None
    else
      var body := if l[0] == '/' then l[1..] else l;
      var glob := if body != "" && body[|body| - 1] == '/' then body[..|body| - 1] else body;
      Some(Pattern(glob, l[0] == '/'))
  }

  function PatternsOf(lines: seq<string>): Patterns {
    if lines == [] then []
    else
      var init := PatternsOf(lines[..|lines| - 1]);
      match PatternOf(lines[|lines| - 1])
      case None => init
      case Some(p) => init + [p]
  }

  predicate Scannable(lines: seq<string>) {
    forall i :: 0 <= i < |lines| ==> |lines[i]| < MAX_TOKEN
  }

  /** The list a read of the ignore file gives; `None` is an error. */
  function Parse(read: ReadOutcome): Option<Patterns> {
    match read
    case Missing => Some([])
    case ReadError => None
    case Text(data) => if Scannable(Lines(data)) then Some(PatternsOf(Lines(data))) else None
  }

  /** The line, taken alone, ignores the path. */
  ghost predicate LineIgnores(line: string, path: Path) {
    var p := PatternOf(line);
    p.Some? && PatternMatches(p.value, path)
  }

  ghost predicate SomeLineIgnores(lines: seq<string>, path: Path) {
    exists i :: 0 <= i < |lines| && LineIgnores(lines[i], path)
  }

  method LoadIgnoreFile(read: ReadOutcome) returns (r: Option<Patterns>)
    ensures r == Parse(read)
    ensures r.None? <==> read.ReadError? || (read.Text? && exists i :: 0 <= i < |Lines(read.data)| && |Lines(read.data)[i]| >= 65536)
    ensures r.Some? ==> forall path :: Ignored(r.value, path) <==> read.Text? && SomeLineIgnores(Lines(read.data), path)
  {
    if read.Missing? {
      return Some([]);
    }
    if read.ReadError? {
      return None;
    }
    var lines := Lines(read.data);
    var patterns: Patterns := [];
    var i := 0;
    while i < |lines|
      invariant 0 <= i <= |lines|
      invariant Scannable(lines[..i])
      invariant patterns == PatternsOf(lines[..i])
    {
      if |lines[i]| >= MAX_TOKEN {
        assert lines == Lines(read.data);
        return None;
      }
      assert lines[..i + 1][..i] == lines[..i];
      match PatternOf(lines[i]) {
        case None =>
        case Some(p) => patterns := patterns + [p];
      }
      i := i + 1;
    }
    assert lines[..i] == lines;
    forall path ensures Ignored(patterns, path) <==> SomeLineIgnores(lines, path) {
      IgnoredByLine(lines, path);
    }
    return Some(patterns);
  }

  /** A pattern is in the parsed list exactly when some line stands for it. */
  lemma {:induction false} ParsedPatterns(lines: seq<string>, p: Pattern)
    ensures p in PatternsOf(lines) <==> exists i :: 0 <= i < |lines| && PatternOf(lines[i]) == Some(p)
  {
    if lines != [] {
      var n := |lines| - 1;
      ParsedPatterns(lines[..n], p);
      if i :| 0 <= i < |lines| && PatternOf(lines[i]) == Some(p) {
        assert i == n || (i < |lines[..n]| && PatternOf(lines[..n][i]) == Some(p));
      }
      if i :| 0 <= i < n && PatternOf(lines[..n][i]) == Some(p) {
        assert PatternOf(lines[i]) == Some(p);
      }
    }
  }
  /** A path is ignored exactly when some line, taken alone, ignores it. */
  lemma IgnoredByLine(lines: seq<string>, path: Path)
    ensures Ignored(PatternsOf(lines), path) <==> SomeLineIgnores(lines, path)
  {
    var patterns := PatternsOf(lines);
    if k :| 0 <= k < |patterns| && PatternMatches(patterns[k], path) {
      ParsedPatterns(lines, patterns[k]);
      assert patterns[k] in patterns;
      var i :| 0 <= i < |lines| && PatternOf(lines[i]) == Some(patterns[k]);
      assert LineIgnores(lines[i], path);
    }
    if i :| 0 <= i < |lines| && LineIgnores(lines[i], path) {
      ParsedPatterns(lines, PatternOf(lines[i]).value);
    }
  }

  // ---------------------------------------------------------------- what a line means

  predicate AllSpace(s: string) {
    forall i :: 0 <= i < |s| ==> IsSpace(s[i])
  }

  lemma {:induction false} TrimLeftSkips(blank: string, s: string)
    requires AllSpace(blank) && (s == "" || !IsSpace(s[0]))
    ensures TrimLeft(blank + s) == s
    decreases |blank|
  {
    if blank == "" {
      assert blank + s == s;
    } else {
      assert (blank + s)[1..] == blank[1..] + s;
      TrimLeftSkips(blank[1..], s);
    }
  }

  lemma {:induction false} TrimRightSkips(s: string, blank: string)
    requires AllSpace(blank) && (s == "" || !IsSpace(s[|s| - 1]))
    ensures TrimRight(s + blank) == s
    decreases |blank|
  {
    if blank == "" {
      assert s + blank == s;
    } else {
      var init := blank[..|blank| - 1];
      assert (s + blank)[..|s + blank| - 1] == s + init;
      TrimRightSkips(s, init);
    }
  }

  lemma Trims(before: string, core: string, after: string)
    requires AllSpace(before) && AllSpace(after) && core != "" && !IsSpace(core[0]) && !IsSpace(core[|core| - 1])
    ensures TrimSpace(before + core + after) == core
  {
    assert before + core + after == before + (core + after);
    TrimLeftSkips(before, core + after);
    TrimRightSkips(core, after);
  }

  /** `tail` is the one slash at the end of a line that does not count, or there is none. */
  predicate Tail(g: string, tail: string) {
    tail == "/" || (tail == "" && (g == "" || (!IsSpace(g[|g| - 1]) && g[|g| - 1] != '/')))
  }

  lemma RootedPattern(g: string, tail: string)
    requires Tail(g, tail)
    ensures var core := "/" + g + tail; !IsSpace(core[|core| - 1]) && PatternOf(core) == Some(Pattern(g, true))
  {
    var core := "/" + g + tail;
    assert core[1..] == g + tail && (g + tail)[..|g|] == g;
    if tail == "" {
      assert g + tail == g;
    }
    TrimsNothing(core);
  }

  lemma FloatingPattern(g: string, tail: string)
    requires Tail(g, tail) && g != "" && !IsSpace(g[0]) && g[0] != '/' && g[0] != '#'
    ensures var core := g + tail; !IsSpace(core[|core| - 1]) && PatternOf(core) == Some(Pattern(g, false))
  {
    var core := g + tail;
    assert core[..|g|] == g;
    if tail == "" {
      assert g + tail == g;
    }
    TrimsNothing(core);
  }

  lemma TrimsNothing(core: string)
    requires core != "" && !IsSpace(core[0]) && !IsSpace(core[|core| - 1])
    ensures TrimSpace(core) == core
  {
  }

  /**
   * A glob ignores what it matches, or has a suffix it matches; after a slash it must match the whole path.
   * Blanks around the line and one slash at its end change nothing.
   */
  lemma GlobLine(before: string, g: string, tail: string, after: string, path: Path)
    requires AllSpace(before) && AllSpace(after) && Tail(g, tail)
    ensures LineIgnores(before + ("/" + g + tail) + after, path) <==> Glob(g, Join(path))
    ensures g != "" && !IsSpace(g[0]) && g[0] != '/' && g[0] != '#' ==>
              (LineIgnores(before + (g + tail) + after, path) <==> exists i :: 0 <= i < |path| && Glob(g, Join(path[i..])))
  {
    RootedPattern(g, tail);
    Surrounded(before, "/" + g + tail, after);
    if g != "" && !IsSpace(g[0]) && g[0] != '/' && g[0] != '#' {
      FloatingPattern(g, tail);
      Surrounded(before, g + tail, after);
    }
    hide PatternOf, IsSpace, Glob, Join;
  }

  /** Blanks around a line do not count. */
  lemma Surrounded(before: string, core: string, after: string)
    requires AllSpace(before) && AllSpace(after) && core != "" && !IsSpace(core[0]) && !IsSpace(core[|core| - 1])
    ensures PatternOf(before + core + after) == PatternOf(core)
  {
    Trims(before, core, after);
    TrimsNothing(core);
    hide TrimSpace;
  }

  /** A line of blanks and a comment ignore nothing. */
  lemma NoGlobLine(before: string, comment: string, path: Path)
    requires AllSpace(before)
    ensures !LineIgnores(before, path) && !LineIgnores(before + "#" + comment, path)
  {
    assert before + "" == before;
    TrimLeftSkips(before, "");
    assert before + "#" + comment == before + ("#" + comment);
    TrimLeftSkips(before, "#" + comment);
    TrimRightKeeps("#", comment);
  }

  lemma {:induction false} TrimRightKeeps(s: string, more: string)
    requires s != "" && !IsSpace(s[|s| - 1])
    ensures s <= TrimRight(s + more)
    decreases |more|
  {
    if more == "" {
      assert s + more == s;
    } else {
      var init := more[..|more| - 1];
      assert (s + more)[..|s + more| - 1] == s + init;
      TrimRightKeeps(s, init);
    }
  }

  /** There are no other lines. */
  lemma LineForms(line: string) returns (before: string, g: string, tail: string, after: string)
    ensures AllSpace(before) && AllSpace(after)
    ensures line == before || (exists comment :: line == before + "#" + comment)
            || (Tail(g, tail) && line == before + ("/" + g + tail) + after)
            || (Tail(g, tail) && g != "" && !IsSpace(g[0]) && g[0] != '/' && g[0] != '#' && line == before + (g + tail) + after)
  {
    var core;
    before, core, after := Cored(line);
    g, tail := core, "";
    if core != "" && core[0] == '#' {
      assert line == before + "#" + (core[1..] + after);
    } else if core != "" {
      assert core == [core[0]] + core[1..];
      if core[0] == '/' {
        g := core[1..];
      }
      if g != "" && g[|g| - 1] == '/' {
        g, tail := g[..|g| - 1], "/";
      }
    }
  }

  lemma Cored(line: string) returns (before: string, core: string, after: string)
    ensures AllSpace(before) && AllSpace(after) && line == before + core + after
    ensures if core == "" then after == "" else !IsSpace(core[0]) && !IsSpace(core[|core| - 1])
  {
    var i := 0;
    while i < |line| && IsSpace(line[i])
      invariant 0 <= i <= |line| && AllSpace(line[..i])
    {
      i := i + 1;
    }
    var j := |line|;
    while i < j && IsSpace(line[j - 1])
      invariant i <= j <= |line| && AllSpace(line[j..])
    {
      j := j - 1;
    }
    before, core, after := line[..i], line[i..j], line[j..];
    assert i == j ==> i == |line|;
  }
}
