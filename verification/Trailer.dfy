/**
 * The `Source-Commit` trailer: the message written on an encrypted commit, what git keeps of it,
 * and how the resume point is read back.
 */
module Trailer {
  import opened Text

  const KEY: string := "Source-Commit"
  const MARKER: string := "Source-Commit:"

  /** A commit hash in full hexadecimal form. */
  predicate ValidHash(h: string) {
    h != "" && forall i :: 0 <= i < |h| ==> '0' <= h[i] <= '9' || 'a' <= h[i] <= 'f'
  }

  function TrimNewlines(s: string): string {
    if s != "" && s[|s| - 1] == '\n' then TrimNewlines(s[..|s| - 1]) else s
  }

  /** The message an encrypted commit is made with. */
  function BuildMessage(message: string, hash: string): string {
    if Contains(message, MARKER) then message
    else TrimNewlines(message) + "\n\n" + KEY + ": " + hash + "\n"
  }

  // ---------------------------------------------------------------- what git stores

  predicate IsGitSpace(c: char) {
    c == ' ' || c == '\t' || c == '\n' || c == '\r'
  }

  predicate Blank(s: string) {
    forall i :: 0 <= i < |s| ==> IsGitSpace(s[i])
  }

  function StripRight(s: string): string {
    if s != "" && IsGitSpace(s[|s| - 1]) then StripRight(s[..|s| - 1]) else s
  }

  function StripLines(lines: seq<string>): (r: seq<string>)
    ensures |r| == |lines|
    ensures forall i :: 0 <= i < |lines| ==> r[i] == StripRight(lines[i])
  {
    seq(|lines|, i requires 0 <= i < |lines| => StripRight(lines[i]))
  }

  /** Maximal runs of non-empty lines. */
  function Paragraphs(lines: seq<string>): (r: seq<seq<string>>)
    ensures lines != [] && lines[0] != "" ==> r != []
  {
    if lines == [] then []
    else if lines[0] == "" then Paragraphs(lines[1..])
    else
      var rest := Paragraphs(lines[1..]);
      if |lines| > 1 && lines[1] != "" then [[lines[0]] + rest[0]] + rest[1..]
      else [[lines[0]]] + rest
  }

  /**
   * The stored message, as its paragraphs: white space at line ends is stripped, blank lines at
   * either end are dropped and runs of them collapse to one.
   */
  function Stored(message: string): seq<seq<string>> {
    Paragraphs(StripLines(Lines(message)))
  }

  // ---------------------------------------------------------------- reading the trailer

  predicate IsKeyChar(c: char) {
    '0' <= c <= '9' || 'a' <= c <= 'z' || 'A' <= c <= 'Z' || c == '-'
  }

  /** Where the colon of a trailer line is, if the line is one: after a key and, perhaps, blanks and tabs. */
  function KeyLength(line: string, from: nat, spaced: bool): (n: nat)
    requires from <= |line|
    ensures n > 0 ==> n < |line|
    decreases |line| - from
  {
    if from == |line| then 0
    else if line[from] == ':' then from
    else if !spaced && IsKeyChar(line[from]) then KeyLength(line, from + 1, false)
    else if from > 0 && (line[from] == ' ' || line[from] == '\t') then KeyLength(line, from + 1, true)
    else 0
  }

  predicate IsTrailer(line: string) {
    KeyLength(line, 0, false) > 0
  }

  function Lower(s: string): string {
    seq(|s|, i requires 0 <= i < |s| => if 'A' <= s[i] <= 'Z' then (s[i] as int + 32) as char else s[i])
  }

  /** The values recorded under the key, each followed by a newline. */
  function Values(block: seq<string>): string {
    if block == [] then ""
    else
      var n := KeyLength(block[0], 0, false);
      (if n > 0 && Lower(TrimSpace(block[0][..n])) == Lower(KEY) then TrimSpace(block[0][n + 1..]) + "\n" else "")
      + Values(block[1..])
  }

  /** git ignores a commit message from this line on. */
  const SCISSORS: string := "# " + DASHES + " >8 " + DASHES
  const DASHES: string := "------------------------"

  predicate IsComment(line: string) {
    line != "" && line[0] == '#'
  }

  /** The lines before a scissors line; all of them if there is none. */
  function BeforeCut(lines: seq<string>): (r: seq<string>)
    ensures r <= lines
    ensures r == lines <==> SCISSORS !in lines
  {
    if lines == [] || lines[0] == SCISSORS then []
    else [lines[0]] + BeforeCut(lines[1..])
  }

  predicate HasCut(stored: seq<seq<string>>) {
    exists i :: 0 <= i < |stored| && SCISSORS in stored[i]
  }

  function Uncut(stored: seq<seq<string>>): seq<seq<string>> {
    if stored == [] then []
    else
      var first := BeforeCut(stored[0]);
      if first == stored[0] then [first] + Uncut(stored[1..])
      else if first == [] then []
      else [first]
  }

  function WithoutComments(lines: seq<string>): seq<string> {
    if lines != [] && IsComment(lines[|lines| - 1]) then WithoutComments(lines[..|lines| - 1]) else lines
  }

  /** Comment lines at the end are no part of the message either. */
  function Ended(stored: seq<seq<string>>): seq<seq<string>> {
    if stored == [] then []
    else
      var n := |stored| - 1;
      var last := WithoutComments(stored[n]);
      if last == [] then Ended(stored[..n]) else stored[..n] + [last]
  }

  /** The trailer block is the last paragraph, never the first, and holds only trailer lines and comments. */
  function ReadTrailer(stored: seq<seq<string>>): string {
    var read := Ended(Uncut(stored));
    if |read| < 2 then ""
    else
      var block := read[|read| - 1];
      if forall i :: 0 <= i < |block| ==> IsTrailer(block[i]) || IsComment(block[i]) then TrimSpace(Values(block)) else ""
  }

  // ---------------------------------------------------------------- round trip

  lemma {:induction false} StripBlank(s: string)
    ensures StripRight(s) == "" <==> Blank(s)
  {
    if s != "" {
      StripBlank(s[..|s| - 1]);
      if Blank(s) {
        assert IsGitSpace(s[|s| - 1]);
      } else if IsGitSpace(s[|s| - 1]) {
        var i :| 0 <= i < |s| && !IsGitSpace(s[i]);
        assert s[..|s| - 1][i] == s[i];
      }
    }
  }

  predicate AllBlank(lines: seq<string>) {
    forall i :: 0 <= i < |lines| ==> Blank(lines[i])
  }

  /** A text is blank exactly when all its lines are. */
  lemma {:induction false} BlankLines(s: string)
    ensures Blank(s) <==> AllBlank(Lines(s))
  {
    if s != "" {
      BlankLines(s[1..]);
      var rest := Lines(s[1..]);
      BlankHead(s[0], s[1..]);
      assert s == [s[0]] + s[1..];
      if s[0] == '\n' {
        BlankCons("", rest);
      } else {
        BlankHead(s[0], rest[0]);
        BlankCons([s[0]] + rest[0], rest[1..]);
        BlankCons(rest[0], rest[1..]);
        assert rest == [rest[0]] + rest[1..];
      }
    }
  }

  lemma BlankHead(c: char, tail: string)
    ensures Blank([c] + tail) <==> IsGitSpace(c) && Blank(tail)
  {
    var all := [c] + tail;
    assert all[0] == c;
    if Blank(all) {
      forall i | 0 <= i < |tail| ensures IsGitSpace(tail[i]) {
        assert IsGitSpace(all[i + 1]);
      }
    }
  }

  lemma BlankCons(head: string, tail: seq<string>)
    ensures AllBlank([head] + tail) <==> Blank(head) && AllBlank(tail)
  {
    var all := [head] + tail;
    assert all[0] == head;
    if AllBlank(all) {
      forall i | 0 <= i < |tail| ensures Blank(tail[i]) {
        assert Blank(all[i + 1]);
      }
    }
  }

  lemma {:induction false} NoParagraphs(lines: seq<string>)
    ensures Paragraphs(lines) == [] <==> forall i :: 0 <= i < |lines| ==> lines[i] == ""
  {
    if lines != [] {
      NoParagraphs(lines[1..]);
      if lines[0] == "" {
        assert forall i :: 0 < i < |lines| ==> lines[i] == lines[1..][i - 1];
        assert forall i :: 0 <= i < |lines[1..]| ==> lines[1..][i] == lines[i + 1];
      }
    }
  }

  /** A blank text has no paragraphs, any other has one. */
  lemma StoredBlank(message: string)
    ensures Stored(message) == [] <==> Blank(message)
  {
    var lines := Lines(message);
    var stripped := StripLines(lines);
    BlankLines(message);
    NoParagraphs(stripped);
    forall i | 0 <= i < |lines| ensures stripped[i] == "" <==> Blank(lines[i]) {
      StripBlank(lines[i]);
    }
    if Blank(message) {
      assert forall i :: 0 <= i < |stripped| ==> stripped[i] == "";
    }
    if Stored(message) == [] {
      forall i | 0 <= i < |lines| ensures Blank(lines[i]) {
        assert stripped[i] == "";
      }
    }
  }

  lemma {:induction false} ParagraphsSplit(a: seq<string>, b: seq<string>)
    ensures Paragraphs(a + [""] + b) == Paragraphs(a) + Paragraphs(b)
    decreases |a|
  {
    var all := a + [""] + b;
    if a == [] {
      assert all == [""] + b;
    } else {
      ParagraphsSplit(a[1..], b);
      assert all[1..] == a[1..] + [""] + b;
      assert all[0] == a[0];
      if |a| > 1 {
        assert all[1] == a[1];
      }
    }
  }

  /** A line that needs no stripping, set off by a blank line, is stored as a paragraph of its own. */
  lemma StoredAppend(a: string, t: string)
    requires t != "" && '\n' !in t && !IsGitSpace(t[|t| - 1])
    ensures Stored(a + "\n\n" + t + "\n") == Stored(a) + [[t]]
  {
    var tail := "" + "\n" + (t + "\n" + "");
    LinesSplit(a, tail);
    LinesSplit("", t + "\n" + "");
    LinesSplit(t, "");
    LinesNone(t);
    assert a + "\n\n" + t + "\n" == a + "\n" + tail;
    assert Lines(tail) == [""] + [t, ""];
    var lines := Lines(a) + ([""] + [t, ""]);
    assert StripLines(lines) == StripLines(Lines(a)) + [""] + [t, ""];
    ParagraphsSplit(StripLines(Lines(a)), [t, ""]);
    SingleParagraph(t);
  }

  lemma SingleParagraph(t: string)
    requires t != ""
    ensures Paragraphs([t, ""]) == [[t]]
  {
    assert [t, ""][1..] == [""] && [""][1..] == [];
    assert Paragraphs([""]) == [];
  }

  /** The appended trailer becomes a paragraph of its own. */
  lemma StoredMessage(message: string, hash: string)
    requires !Contains(message, MARKER) && ValidHash(hash)
    ensures Stored(BuildMessage(message, hash)) == Stored(TrimNewlines(message)) + [[KEY + ": " + hash]]
  {
    hide Stored;
    OwnStored(TrimNewlines(message), hash);
    assert BuildMessage(message, hash) == TrimNewlines(message) + "\n\n" + (KEY + ": " + hash) + "\n";
  }

  lemma {:induction false} TrimSpaceNone(s: string)
    requires s != "" && !IsSpace(s[0]) && !IsSpace(s[|s| - 1])
    ensures TrimSpace(s) == s
    ensures TrimSpace(" " + s) == s && TrimSpace(s + "\n") == s
  {
    assert (" " + s)[1..] == s && (s + "\n")[..|s|] == s;
    assert TrimLeft(" " + s) == TrimLeft(s) == s;
    assert TrimRight(s) == s;
    assert TrimLeft(s + "\n") == s + "\n";
    assert TrimRight(s + "\n") == TrimRight(s);
  }

  lemma {:induction false} KeyLengthOf(line: string, n: nat, from: nat)
    requires n < |line| && from <= n && line[n] == ':'
    requires forall i :: 0 <= i < n ==> IsKeyChar(line[i])
    ensures KeyLength(line, from, false) == n
    decreases n - from
  {
    if from < n {
      KeyLengthOf(line, n, from + 1);
    }
  }

  lemma OwnValue(hash: string)
    requires ValidHash(hash)
    ensures IsTrailer(KEY + ": " + hash) && Values([KEY + ": " + hash]) == hash + "\n"
  {
    var t := KEY + ": " + hash;
    var n := |KEY|;
    assert t[..n] == KEY && t[n] == ':' && t[n + 1..] == " " + hash;
    assert forall i :: 0 <= i < n ==> t[i] == KEY[i] && IsKeyChar(KEY[i]);
    KeyLengthOf(t, n, 0);
    HashTrims(hash);
    TrimSpaceNone(KEY);
    hide TrimSpace, ValidHash;
    assert [t][1..] == [] && Values([]) == "";
    assert Values([t]) == (hash + "\n") + "";
  }

  lemma HashTrims(hash: string)
    requires ValidHash(hash)
    ensures TrimSpace(" " + hash) == hash && TrimSpace(hash + "\n") == hash
  {
    assert '0' <= hash[0] <= '9' || 'a' <= hash[0] <= 'f';
    TrimSpaceNone(hash);
  }

  lemma {:induction false} UncutAll(stored: seq<seq<string>>)
    requires !HasCut(stored)
    ensures Uncut(stored) == stored
  {
    if stored != [] {
      assert SCISSORS !in stored[0];
      assert forall i :: 0 <= i < |stored[1..]| ==> stored[1..][i] == stored[i + 1];
      UncutAll(stored[1..]);
    }
  }

  /** Nothing after a scissors line is read. */
  lemma {:induction false} UncutPrefix(a: seq<seq<string>>, b: seq<seq<string>>)
    requires HasCut(a)
    ensures Uncut(a + b) == Uncut(a)
  {
    assert (a + b)[0] == a[0] && (a + b)[1..] == a[1..] + b;
    if SCISSORS !in a[0] {
      var i :| 0 <= i < |a| && SCISSORS in a[i];
      assert a[1..][i - 1] == a[i];
      UncutPrefix(a[1..], b);
    }
  }

  /** A last paragraph holding the trailer is read back exactly if something comes before it and nothing cuts it off. */
  lemma ReadOwnTrailer(before: seq<seq<string>>, hash: string)
    requires ValidHash(hash)
    ensures ReadTrailer(before + [[KEY + ": " + hash]]) ==
            if HasCut(before) then ReadTrailer(before) else if before == [] then "" else hash
  {
    var own := [KEY + ": " + hash];
    var stored := before + [own];
    if HasCut(before) {
      UncutPrefix(before, [own]);
    } else {
      assert own[0][0] == 'S';
      forall i | 0 <= i < |stored| ensures SCISSORS !in stored[i] {
        if i < |before| {
          assert stored[i] == before[i];
        } else {
          assert SCISSORS[0] == '#';
          assert stored[i] == own && own[0] != SCISSORS;
        }
      }
      UncutAll(stored);
      assert WithoutComments(own) == own;
      assert Ended(stored) == stored;
      OwnValue(hash);
      HashTrims(hash);
      hide Values, TrimSpace, IsTrailer, ValidHash;
      assert stored[|stored| - 1] == own;
    }
  }

  /** Newlines at the end are not stored. */
  lemma StoredNewline(init: string)
    ensures Stored(init + "\n") == Stored(init)
  {
    LinesSplit(init, "");
    assert init + "\n" == init + "\n" + "";
    assert StripLines(Lines(init) + [""]) == StripLines(Lines(init)) + [""];
    ParagraphsSplit(StripLines(Lines(init)), []);
    assert StripLines(Lines(init)) + [""] + [] == StripLines(Lines(init)) + [""];
  }

  lemma {:induction false} StoredTrimmed(message: string)
    ensures Stored(TrimNewlines(message)) == Stored(message)
  {
    if message != "" && message[|message| - 1] == '\n' {
      var init := message[..|message| - 1];
      assert message == init + "\n";
      hide Stored;
      StoredTrimmed(init);
      StoredNewline(init);
    }
  }

  /** An appended trailer can be read back: the message is neither blank nor cut. */
  predicate Legible(message: string) {
    !Blank(message) && !HasCut(Stored(message))
  }

  /**
   * Round trip: for a message without the marker, what is read back from the commit is its source hash
   * if the message is legible. A blank message leaves no readable resume point, and one with a scissors
   * line leaves whatever trailer stands before that line.
   */
  lemma TrailerRoundTrip(message: string, hash: string)
    requires !Contains(message, "Source-Commit:") && ValidHash(hash)
    ensures Stored(BuildMessage(message, hash)) == Stored(message) + [["Source-Commit: " + hash]]
    ensures ReadTrailer(Stored(BuildMessage(message, hash))) ==
            if Legible(message) then hash else if Blank(message) then "" else ReadTrailer(Stored(message))
  {
    StoredMessage(message, hash);
    StoredTrimmed(message);
    StoredBlank(message);
    ReadOwnTrailer(Stored(message), hash);
    assert KEY + ": " + hash == "Source-Commit: " + hash;
  }

  /** The message as it is written: newlines at its end give way to one blank line and the trailer. */
  lemma WrittenMessage(body: string, newlines: string, hash: string)
    requires body == "" || body[|body| - 1] != '\n'
    requires forall i :: 0 <= i < |newlines| ==> newlines[i] == '\n'
    requires !Contains(body + newlines, "Source-Commit:")
    ensures BuildMessage(body + newlines, hash) == body + "\n\n" + "Source-Commit: " + hash + "\n"
  {
    NewlinesTrimmed(body, newlines);
    assert KEY + ": " == "Source-Commit: ";
    assert body + "\n\n" + KEY + ": " + hash + "\n" == body + "\n\n" + (KEY + ": ") + hash + "\n";
  }

  lemma {:induction false} NewlinesTrimmed(body: string, newlines: string)
    requires body == "" || body[|body| - 1] != '\n'
    requires forall i :: 0 <= i < |newlines| ==> newlines[i] == '\n'
    ensures TrimNewlines(body + newlines) == body
    decreases |newlines|
  {
    if newlines == "" {
      assert body + newlines == body;
    } else {
      var init := newlines[..|newlines| - 1];
      assert (body + newlines)[..|body + newlines| - 1] == body + init;
      NewlinesTrimmed(body, init);
    }
  }

  /** With the marker inside the message, the value read back is that of the message, not the source hash. */
  lemma MarkerInMessage(title: string, other: string, hash: string)
    requires Legible(title) && ValidHash(other)
    ensures ReadTrailer(Stored(BuildMessage(title + "\n\n" + KEY + ": " + other + "\n", hash))) == other
  {
    var t := KEY + ": " + other;
    var m := title + "\n\n" + t + "\n";
    assert m == title + "\n\n" + KEY + ": " + other + "\n";
    assert OccursAt(m, MARKER, |title| + 2);
    hide Stored, ReadTrailer, HasCut, Contains;
    assert Contains(m, MARKER) by {
      MarkerAt(m, |title| + 2);
    }
    OwnStored(title, other);
    StoredBlank(title);
    ReadOwnTrailer(Stored(title), other);
  }

  lemma MarkerAt(m: string, i: nat)
    requires OccursAt(m, MARKER, i)
    ensures Contains(m, MARKER)
  {
  }

  lemma OwnStored(message: string, hash: string)
    requires ValidHash(hash)
    ensures Stored(message + "\n\n" + (KEY + ": " + hash) + "\n") == Stored(message) + [[KEY + ": " + hash]]
  {
    var t := KEY + ": " + hash;
    assert t[|t| - 1] == hash[|hash| - 1];
    assert '\n' !in KEY && '\n' !in hash && '\n' !in ": ";
    StoredAppend(message, t);
  }

  /** A message cut after a trailer whose key is written in lower case makes the resume point that trailer's value. */
  lemma CutMessage(title: string, other: string, hash: string)
    requires Legible(title) && ValidHash(other) && ValidHash(hash)
    requires var m := title + "\n\n" + ("source-commit: " + other) + "\n" + "\n\n" + SCISSORS + "\n"; !Contains(m, MARKER)
    ensures var m := title + "\n\n" + ("source-commit: " + other) + "\n" + "\n\n" + SCISSORS + "\n";
            ReadTrailer(Stored(BuildMessage(m, hash))) == other
  {
    var t := "source-commit: " + other;
    var n := title + "\n\n" + t + "\n";
    var m := n + "\n\n" + SCISSORS + "\n";
    LowerStored(title, other);
    PlainScissors();
    StoredAppend(n, SCISSORS);
    var stored := Stored(title) + [[t]] + [[SCISSORS]];
    assert Stored(m) == stored;
    assert stored[|stored| - 1] == [SCISSORS] && SCISSORS in stored[|stored| - 1];
    TrailerRoundTrip(m, hash);
    StoredBlank(m);
    CutBlock(Stored(title), t);
    StoredBlank(title);
    LowerValue(other);
    HashTrims(other);
    hide Values, TrimSpace, IsTrailer, ValidHash, Stored, Uncut, HasCut, Contains, BuildMessage;
    assert WithoutComments([t]) == [t];
    assert Ended(Stored(title) + [[t]]) == Stored(title) + [[t]];
  }

  lemma PlainScissors()
    ensures '\n' !in SCISSORS && !IsGitSpace(SCISSORS[|SCISSORS| - 1])
  {
    assert '\n' !in DASHES && DASHES[|DASHES| - 1] == '-' && '\n' !in "# " && '\n' !in " >8 ";
  }

  lemma LowerStored(title: string, other: string)
    requires ValidHash(other)
    ensures Stored(title + "\n\n" + ("source-commit: " + other) + "\n") == Stored(title) + [["source-commit: " + other]]
  {
    var t := "source-commit: " + other;
    assert t[|t| - 1] == other[|other| - 1];
    assert '\n' !in "source-commit: " && '\n' !in other;
    StoredAppend(title, t);
  }

  lemma LowerKey()
    ensures TrimSpace("source-commit") == "source-commit" && Lower("source-commit") == Lower(KEY)
  {
    TrimSpaceNone("source-commit");
    hide TrimSpace;
  }

  lemma LowerValue(hash: string)
    requires ValidHash(hash)
    ensures IsTrailer("source-commit: " + hash) && Values(["source-commit: " + hash]) == hash + "\n"
  {
    var key := "source-commit";
    var t := "source-commit: " + hash;
    var n := |key|;
    assert t[..n] == key && t[n] == ':' && t[n + 1..] == " " + hash;
    assert forall i :: 0 <= i < n ==> t[i] == key[i] && IsKeyChar(key[i]);
    KeyLengthOf(t, n, 0);
    HashTrims(hash);
    LowerKey();
    hide TrimSpace, ValidHash, Lower;
    assert [t][1..] == [] && Values([]) == "";
    assert Values([t]) == (hash + "\n") + "";
  }

  lemma CutBlock(before: seq<seq<string>>, t: string)
    requires !HasCut(before) && t != SCISSORS
    ensures Uncut(before + [[t]] + [[SCISSORS]]) == before + [[t]]
    decreases |before|
  {
    var all := before + [[t]] + [[SCISSORS]];
    if before == [] {
      assert all[0] == [t] && all[1..] == [[SCISSORS]];
      assert BeforeCut([t]) == [t] && [t][1..] == [];
      assert Uncut([[SCISSORS]]) == [];
    } else {
      assert SCISSORS !in before[0];
      assert all[0] == before[0] && all[1..] == before[1..] + [[t]] + [[SCISSORS]];
      assert forall i :: 0 <= i < |before[1..]| ==> before[1..][i] == before[i + 1];
      CutBlock(before[1..], t);
    }
  }
}
