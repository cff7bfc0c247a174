/** Strings as the program uses them: slash-joined paths, substrings, globs. */
module Text {

  function Join(segs: seq<string>): string {
    if |segs| == 0 then ""
    else if |segs| == 1 then segs[0]
    else segs[0] + "/" + Join(segs[1..])
  }

  predicate SlashFree(segs: seq<string>) {
    forall i :: 0 <= i < |segs| ==> '/' !in segs[i]
  }

  predicate OccursAt(s: string, sub: string, i: int) {
    0 <= i <= |s| - |sub| && s[i..i + |sub|] == sub
  }

  predicate Contains(s: string, sub: string) {
    exists i | 0 <= i <= |s| :: OccursAt(s, sub, i)
  }

  /** The substring test the export uses, `strings.Contains(name, "..")`, position by position. */
  predicate HasDots(s: string) {
    exists i :: 0 <= i < |s| - 1 && s[i] == '.' && s[i + 1] == '.'
  }

  lemma HasDotsIsContains(s: string)
    ensures HasDots(s) <==> Contains(s, "..")
  {
    forall i | 0 <= i < |s| - 1 && s[i] == '.' && s[i + 1] == '.' ensures Contains(s, "..") {
      assert OccursAt(s, "..", i);
    }
    forall i | OccursAt(s, "..", i) ensures HasDots(s) {
      assert s[i] == s[i..i + 2][0] && s[i + 1] == s[i..i + 2][1];
    }
  }

  /** A joined path contains ".." exactly when one of its segments does: a slash always separates. */
  lemma {:induction false} DotsInJoin(segs: seq<string>)
    ensures HasDots(Join(segs)) <==> exists i :: 0 <= i < |segs| && HasDots(segs[i])
  {
    if |segs| <= 1 {
    } else {
      var rest := Join(segs[1..]);
      DotsInJoin(segs[1..]);
      DotsInConcat(segs[0], "/" + rest);
      DotsInConcat("/", rest);
      assert segs[0] + "/" + rest == segs[0] + ("/" + rest);
      if i :| 0 <= i < |segs| && HasDots(segs[i]) {
        assert i == 0 || (0 <= i - 1 < |segs[1..]| && HasDots(segs[1..][i - 1]));
      }
      if i :| 0 <= i < |segs[1..]| && HasDots(segs[1..][i]) {
        assert HasDots(segs[i + 1]);
      }
    }
  }

  lemma DotsInConcat(a: string, b: string)
    ensures HasDots(a + b) <==>
            HasDots(a) || HasDots(b) || (a != "" && b != "" && a[|a| - 1] == '.' && b[0] == '.')
  {
    var s := a + b;
    forall i | 0 <= i < |s| - 1 && s[i] == '.' && s[i + 1] == '.'
      ensures HasDots(a) || HasDots(b) || (a != "" && b != "" && a[|a| - 1] == '.' && b[0] == '.')
    {
      if i + 1 < |a| {
        assert a[i] == '.' && a[i + 1] == '.';
      } else if |a| <= i {
        assert b[i - |a|] == '.' && b[i - |a| + 1] == '.';
      }
    }
    forall i | 0 <= i < |a| - 1 && a[i] == '.' && a[i + 1] == '.' ensures HasDots(s) {
      assert s[i] == '.' && s[i + 1] == '.';
    }
    forall i | 0 <= i < |b| - 1 && b[i] == '.' && b[i + 1] == '.' ensures HasDots(s) {
      assert s[|a| + i] == '.' && s[|a| + i + 1] == '.';
    }
    if a != "" && b != "" && a[|a| - 1] == '.' && b[0] == '.' {
      assert s[|a| - 1] == '.' && s[|a|] == '.';
    }
  }

  function Slashes(s: string): nat {
    if s == "" then 0 else (if s[0] == '/' then 1 else 0) + Slashes(s[1..])
  }

  lemma {:induction false} SlashesConcat(a: string, b: string)
    ensures Slashes(a + b) == Slashes(a) + Slashes(b)
  {
    if a == "" {
      assert a + b == b;
    } else {
      SlashesConcat(a[1..], b);
      assert (a + b)[1..] == a[1..] + b;
    }
  }

  lemma {:induction false} SlashesNone(s: string)
    requires '/' !in s
    ensures Slashes(s) == 0
  {
    if s != "" {
      SlashesNone(s[1..]);
    }
  }

  lemma {:induction false} SlashesJoin(segs: seq<string>)
    requires |segs| > 0 && SlashFree(segs)
    ensures Slashes(Join(segs)) == |segs| - 1
  {
    SlashesNone(segs[0]);
    if |segs| > 1 {
      assert SlashFree(segs[1..]);
      SlashesJoin(segs[1..]);
      SlashesConcat(segs[0] + "/", Join(segs[1..]));
      SlashesConcat(segs[0], "/");
    }
  }

  // ---------------------------------------------------------------- white space and lines

  predicate IsSpace(c: char) {
    c == ' ' || c == '\t' || c == '\n' || c == '\r' || c == 11 as char || c == 12 as char
  }

  /** Blank, tab, newline, vertical tab, form feed and carriage return, by their codes. */
  lemma SpaceChars(c: char)
    ensures IsSpace(c) <==> c as int == 32 || 9 <= c as int <= 13
  {
  }

  function TrimLeft(s: string): string {
    if s != "" && IsSpace(s[0]) then TrimLeft(s[1..]) else s
  }

  function TrimRight(s: string): string {
    if s != "" && IsSpace(s[|s| - 1]) then TrimRight(s[..|s| - 1]) else s
  }

  function TrimSpace(s: string): string {
    TrimRight(TrimLeft(s))
  }

  /** Pieces between newlines; there is always at least one. */
  function Lines(data: string): (r: seq<string>)
    ensures |r| > 0
  {
    if data == "" then [""]
    else if data[0] == '\n' then [""] + Lines(data[1..])
    else
      var rest := Lines(data[1..]);
      [[data[0]] + rest[0]] + rest[1..]
  }

  lemma LinesCons(c: char, s: string)
    ensures Lines([c] + s) ==
            if c == '\n' then [""] + Lines(s) else [[c] + Lines(s)[0]] + Lines(s)[1..]
  {
    assert ([c] + s)[1..] == s;
  }

  lemma {:induction false} LinesSplit(a: string, b: string)
    ensures Lines(a + "\n" + b) == Lines(a) + Lines(b)
  {
    if a == "" {
      LinesCons('\n', b);
      assert a + "\n" + b == ['\n'] + b;
    } else {
      var c, tail := a[0], a[1..];
      var joined := tail + "\n" + b;
      LinesSplit(tail, b);
      LinesCons(c, joined);
      LinesCons(c, tail);
      assert a == [c] + tail;
      assert a + "\n" + b == [c] + joined;
      ConsConcat(c, Lines(tail), Lines(b));
    }
  }

  lemma ConsConcat(c: char, x: seq<string>, y: seq<string>)
    requires |x| > 0
    ensures [""] + (x + y) == ([""] + x) + y
    ensures [[c] + (x + y)[0]] + (x + y)[1..] == ([[c] + x[0]] + x[1..]) + y
  {
  }

  lemma {:induction false} LinesNone(s: string)
    requires '\n' !in s
    ensures Lines(s) == [s]
  {
    if s != "" {
      LinesNone(s[1..]);
      assert s == [s[0]] + s[1..];
    }
  }
}
