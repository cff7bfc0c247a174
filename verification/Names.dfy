/** Repository names: what is accepted, where a repository is kept, and where it is pushed to. */
module Names {
  import opened Files

  type Name = string

  datatype Result<T> = Ok(value: T) | Err(error: string)

  predicate NameChar(c: char) {
    'A' <= c <= 'Z' || 'a' <= c <= 'z' || '0' <= c <= '9' || c == '_' || c == '.' || c == '-'
  }

  predicate ValidName(s: string) {
    s != "" && s != "." && s != ".." && forall i :: 0 <= i < |s| ==> NameChar(s[i])
  }

  /** The characters a name may have, by their codes: letters, digits, dash, dot and underscore. */
  lemma NameChars(c: char)
    ensures NameChar(c) <==> var n := c as int; 65 <= n <= 90 || 97 <= n <= 122 || 48 <= n <= 57 || n in {45, 46, 95}
  {
  }

  datatype Key = Key(owner: Name, repo: Name)

  predicate ValidKey(k: Key) {
    ValidName(k.owner) && ValidName(k.repo)
  }

  // ---------------------------------------------------------------- places in the cache directory

  /** Where the bare mirror is kept, below the cache directory. */
  function LocalPath(k: Key): Path {
    [k.owner, k.repo + ".git"]
  }

  /** Where the encrypted repository is kept. */
  function EncryptedPath(k: Key): Path {
    [k.owner, k.repo + ".enc"]
  }

  /** A place below the cache directory: no component leads upwards or holds a separator. */
  predicate Inside(p: Path) {
    p != [] && forall i :: 0 <= i < |p| ==> p[i] != "" && p[i] != "." && p[i] != ".." && '/' !in p[i]
  }

  lemma SuffixesDiffer(a: string, b: string)
    ensures a + ".git" != b + ".enc"
    ensures a + ".git" == b + ".git" ==> a == b
    ensures a + ".enc" == b + ".enc" ==> a == b
  {
    var s, t := a + ".git", b + ".enc";
    assert s[|s| - 1] == 't' && t[|t| - 1] == 'c';
    if a + ".git" == b + ".git" {
      assert a == (a + ".git")[..|a|] && b == (b + ".git")[..|b|];
    }
    if a + ".enc" == b + ".enc" {
      assert a == (a + ".enc")[..|a|] && b == (b + ".enc")[..|b|];
    }
  }

  /** The mirrors and encrypted repositories of all keys lie inside the cache and apart from each other. */
  lemma PlacesApart(k: Key, l: Key)
    requires ValidKey(k) && ValidKey(l)
    ensures Inside(LocalPath(k)) && Inside(EncryptedPath(k))
    ensures !Clash(LocalPath(k), EncryptedPath(l))
    ensures k != l ==> !Clash(LocalPath(k), LocalPath(l)) && !Clash(EncryptedPath(k), EncryptedPath(l))
  {
    SuffixesDiffer(k.repo, l.repo);
    SuffixesDiffer(l.repo, k.repo);
    assert LocalPath(k)[1] != EncryptedPath(l)[1];
    SameDepth(LocalPath(k), EncryptedPath(l));
    SameDepth(LocalPath(k), LocalPath(l));
    SameDepth(EncryptedPath(k), EncryptedPath(l));
    assert LocalPath(k)[0] == k.owner && LocalPath(k)[1] == k.repo + ".git";
    assert LocalPath(l)[0] == l.owner && LocalPath(l)[1] == l.repo + ".git";
    assert EncryptedPath(k)[0] == k.owner && EncryptedPath(k)[1] == k.repo + ".enc";
    assert EncryptedPath(l)[0] == l.owner && EncryptedPath(l)[1] == l.repo + ".enc";
  }

  lemma SameDepth(p: Path, q: Path)
    requires |p| == |q|
    ensures Clash(p, q) <==> p == q
  {
  }

  // ---------------------------------------------------------------- the destination

  const OWNER_MARK: string := "{owner}"
  const REPO_MARK: string := "{repo}"

  /** The format with each placeholder replaced, scanning from the left. */
  function Replace(format: string, owner: string, repo: string): string {
    if format == "" then ""
    else if OWNER_MARK <= format then owner + Replace(format[|OWNER_MARK|..], owner, repo)
    else if REPO_MARK <= format then repo + Replace(format[|REPO_MARK|..], owner, repo)
    else [format[0]] + Replace(format[1..], owner, repo)
  }

  datatype Config = Config(owner: string, ownerMap: map<string, string>, repoNameFormat: string)

  function DestOwner(c: Config, owner: string): string {
    if owner in c.ownerMap && c.ownerMap[owner] != "" then c.ownerMap[owner]
    else if c.owner != "" then c.owner
    else owner
  }

  function Format(c: Config): string {
    if c.repoNameFormat == "" then REPO_MARK else c.repoNameFormat
  }

  /** The destination of a repository, if its name and the source's are valid. */
  function Destination(c: Config, k: Key): Option<Key> {
    var d := Key(DestOwner(c, k.owner), Replace(Format(c), k.owner, k.repo));
    if ValidKey(k) && ValidKey(d) then Some(d) else None
  }

  method GitHubDestination(c: Config, sourceOwner: string, sourceRepo: string) returns (r: Result<Key>)
    ensures match Destination(c, Key(sourceOwner, sourceRepo))
      case Some(d) => r == Ok(d)
      case None => r.Err?
  {
    if !ValidName(sourceOwner) {
      return Err("owner");
    }
    if !ValidName(sourceRepo) {
      return Err("repo");
    }
    var owner := sourceOwner;
    if sourceOwner in c.ownerMap && c.ownerMap[sourceOwner] != "" {
      owner := c.ownerMap[sourceOwner];
    } else if c.owner != "" {
      owner := c.owner;
    }
    var format := c.repoNameFormat;
    if format == "" {
      format := REPO_MARK;
    }
    var repo := Replace(format, sourceOwner, sourceRepo);
    if !ValidName(owner) {
      return Err("github destination owner");
    }
    if !ValidName(repo) {
      return Err("github destination repo");
    }
    return Ok(Key(owner, repo));
  }

  // ---------------------------------------------------------------- what the destination is

  /**
   * Replacing a placeholder: what stands before it is kept if no brace is in it, the name takes its place,
   * and replacing goes on behind it. A brace that opens no placeholder stands for itself.
   */
  lemma ReplaceParts(before: string, rest: string, owner: string, repo: string)
    requires '{' !in before
    ensures Replace(before, owner, repo) == before
    ensures Replace(before + ("{owner}" + rest), owner, repo) == before + (owner + Replace(rest, owner, repo))
    ensures Replace(before + ("{repo}" + rest), owner, repo) == before + (repo + Replace(rest, owner, repo))
    ensures !("owner}" <= rest) && !("repo}" <= rest) ==>
              Replace(before + ("{" + rest), owner, repo) == before + ("{" + Replace(rest, owner, repo))
  {
    ReplaceFirst(rest, owner, repo);
    ReplaceBehind(before, "", owner, repo);
    assert before + "" == before;
    ReplaceBehind(before, "{owner}" + rest, owner, repo);
    ReplaceBehind(before, "{repo}" + rest, owner, repo);
    ReplaceBehind(before, "{" + rest, owner, repo);
  }

  lemma {:induction false} ReplaceBehind(before: string, s: string, owner: string, repo: string)
    requires '{' !in before
    ensures Replace(before + s, owner, repo) == before + Replace(s, owner, repo)
    decreases |before|
  {
    hide Replace;
    if before == "" {
      assert before + s == s && before + Replace(s, owner, repo) == Replace(s, owner, repo);
    } else {
      ReplaceBehind(before[1..], s, owner, repo);
      ReplaceChar(before[0], before[1..] + s, owner, repo);
      assert before + s == [before[0]] + (before[1..] + s);
    }
  }

  lemma ReplaceChar(c: char, tail: string, owner: string, repo: string)
    requires c != '{'
    ensures Replace([c] + tail, owner, repo) == [c] + Replace(tail, owner, repo)
  {
    var s := [c] + tail;
    assert s[1..] == tail && s[0] == c;
    assert OWNER_MARK[0] == '{' && REPO_MARK[0] == '{';
  }

  lemma NotBehind(mark: string, rest: string)
    ensures "{" + mark <= "{" + rest <==> mark <= rest
  {
    assert ("{" + mark)[1..] == mark && ("{" + rest)[1..] == rest;
    if "{" + mark <= "{" + rest {
      assert ("{" + rest)[..|mark| + 1] == "{" + mark;
      assert rest[..|mark|] == ("{" + rest)[..|mark| + 1][1..];
    }
  }

  lemma ReplaceFirst(rest: string, owner: string, repo: string)
    ensures Replace("{owner}" + rest, owner, repo) == owner + Replace(rest, owner, repo)
    ensures Replace("{repo}" + rest, owner, repo) == repo + Replace(rest, owner, repo)
    ensures !("owner}" <= rest) && !("repo}" <= rest) ==> Replace("{" + rest, owner, repo) == "{" + Replace(rest, owner, repo)
  {
    var f, g, h := "{owner}" + rest, "{repo}" + rest, "{" + rest;
    assert OWNER_MARK <= f && f[|OWNER_MARK|..] == rest;
    assert REPO_MARK <= g && g[|REPO_MARK|..] == rest && g[1] != OWNER_MARK[1];
    assert h[1..] == rest;
    NotBehind("owner}", rest);
    NotBehind("repo}", rest);
    assert "{" + "owner}" == OWNER_MARK && "{" + "repo}" == REPO_MARK;
    assert h[0] == '{';
  }

  /**
   * The owner is the mapped one if the map names one, else the configured one, else the source's; the
   * repository keeps its name unless a format is set. Without any setting, valid names stay as they are.
   */
  lemma DestinationIs(c: Config, k: Key)
    requires ValidKey(k)
    ensures var mapped := if k.owner in c.ownerMap then c.ownerMap[k.owner] else "";
            match Destination(c, k)
            case Some(d) =>
              && (mapped != "" ==> d.owner == mapped)
              && (mapped == "" && c.owner != "" ==> d.owner == c.owner)
              && (mapped == "" && c.owner == "" ==> d.owner == k.owner)
              && d.repo == (if c.repoNameFormat == "" then k.repo else Replace(c.repoNameFormat, k.owner, k.repo))
              && ValidKey(d)
            case None =>
              || (mapped != "" && !ValidName(mapped))
              || (mapped == "" && c.owner != "" && !ValidName(c.owner))
              || (c.repoNameFormat != "" && !ValidName(Replace(c.repoNameFormat, k.owner, k.repo)))
  {
    NoRest(k.owner, k.repo);
  }

  /** Without any setting, under a configured owner, under a mapped one, and with both names joined. */
  lemma Destinations(k: Key, account: string, mapped: string)
    requires ValidKey(k) && ValidName(account) && ValidName(mapped)
    ensures Destination(Config("", map[], ""), k) == Some(k)
    ensures Destination(Config(account, map[], ""), k) == Some(Key(account, k.repo))
    ensures Destination(Config(account, map[k.owner := mapped], ""), k) == Some(Key(mapped, k.repo))
    ensures Destination(Config(account, map[], "{owner}-{repo}"), k) == Some(Key(account, k.owner + "-" + k.repo))
  {
    NoRest(k.owner, k.repo);
    JoinedName(k.owner, k.repo);
  }

  // ---------------------------------------------------------------- one probe stands for all names

  const PROBE: Key := Key("placeholder-owner", "placeholder-repo")

  predicate HasMark(format: string) {
    format != "" && (OWNER_MARK <= format || REPO_MARK <= format || HasMark(format[1..]))
  }

  predicate LiteralsOk(format: string)
    decreases |format|
  {
    if format == "" then true
    else if OWNER_MARK <= format then LiteralsOk(format[|OWNER_MARK|..])
    else if REPO_MARK <= format then LiteralsOk(format[|REPO_MARK|..])
    else NameChar(format[0]) && LiteralsOk(format[1..])
  }

  predicate AllChars(s: string) {
    forall i :: 0 <= i < |s| ==> NameChar(s[i])
  }

  lemma AllCharsConcat(a: string, b: string)
    ensures AllChars(a + b) <==> AllChars(a) && AllChars(b)
  {
    if AllChars(a + b) {
      assert forall i :: 0 <= i < |a| ==> (a + b)[i] == a[i];
      assert forall i :: 0 <= i < |b| ==> (a + b)[|a| + i] == b[i];
    }
  }

  lemma {:induction false} ReplacedChars(format: string, k: Key)
    requires ValidKey(k)
    ensures AllChars(Replace(format, k.owner, k.repo)) <==> LiteralsOk(format)
    ensures Replace(format, k.owner, k.repo) == "" <==> format == ""
    decreases |format|
  {
    if format == "" {
    } else if OWNER_MARK <= format {
      ReplacedChars(format[|OWNER_MARK|..], k);
      AllCharsConcat(k.owner, Replace(format[|OWNER_MARK|..], k.owner, k.repo));
    } else if REPO_MARK <= format {
      ReplacedChars(format[|REPO_MARK|..], k);
      AllCharsConcat(k.repo, Replace(format[|REPO_MARK|..], k.owner, k.repo));
    } else {
      ReplacedChars(format[1..], k);
      assert AllChars([format[0]]) <==> NameChar(format[0]) by {
        assert [format[0]][0] == format[0];
      }
      AllCharsConcat([format[0]], Replace(format[1..], k.owner, k.repo));
    }
  }

  predicate Dots(s: string) {
    |s| <= 2 && forall i :: 0 <= i < |s| ==> s[i] == '.'
  }

  lemma DotsParts(a: string, b: string)
    requires Dots(a + b)
    ensures Dots(a) && Dots(b)
  {
    assert forall i :: 0 <= i < |a| ==> (a + b)[i] == a[i];
    assert forall i :: 0 <= i < |b| ==> (a + b)[|a| + i] == b[i];
  }

  lemma DotsIff(s: string)
    ensures Dots(s) <==> s == "" || s == "." || s == ".."
  {
  }

  /** Substituting a valid name never yields a name of dots only. */
  lemma {:induction false} NotDots(format: string, k: Key)
    requires ValidKey(k) && Dots(Replace(format, k.owner, k.repo))
    ensures !HasMark(format) && Replace(format, k.owner, k.repo) == format
    decreases |format|
  {
    if format == "" {
    } else if OWNER_MARK <= format {
      DotsParts(k.owner, Replace(format[|OWNER_MARK|..], k.owner, k.repo));
      DotsIff(k.owner);
    } else if REPO_MARK <= format {
      DotsParts(k.repo, Replace(format[|REPO_MARK|..], k.owner, k.repo));
      DotsIff(k.repo);
    } else {
      DotsParts([format[0]], Replace(format[1..], k.owner, k.repo));
      NotDots(format[1..], k);
    }
  }

  lemma {:induction false} NoMarks(format: string, k: Key)
    requires !HasMark(format)
    ensures Replace(format, k.owner, k.repo) == format
    decreases |format|
  {
    if format != "" {
      NoMarks(format[1..], k);
    }
  }

  /** Whether the computed repository name is valid does not depend on the names substituted. */
  lemma NamesAlike(format: string, k: Key, l: Key)
    requires ValidKey(k) && ValidKey(l)
    requires ValidName(Replace(format, k.owner, k.repo))
    ensures ValidName(Replace(format, l.owner, l.repo))
  {
    ReplacedChars(format, k);
    ReplacedChars(format, l);
    var s := Replace(format, l.owner, l.repo);
    assert AllChars(Replace(format, k.owner, k.repo));
    DotsIff(s);
    if Dots(s) {
      NotDots(format, l);
      NoMarks(format, k);
    }
  }

  lemma ProbeIsValid()
    ensures ValidKey(PROBE)
  {
  }

  /** The probe's repository name is valid if and only if every one is. */
  lemma ProbeDecidesRepo(format: string)
    ensures ValidName(Replace(format, PROBE.owner, PROBE.repo)) <==>
            forall k: Key :: ValidKey(k) ==> ValidName(Replace(format, k.owner, k.repo))
  {
    ProbeIsValid();
    if ValidName(Replace(format, PROBE.owner, PROBE.repo)) {
      forall k: Key | ValidKey(k) ensures ValidName(Replace(format, k.owner, k.repo)) {
        NamesAlike(format, PROBE, k);
      }
    }
  }

  ghost predicate NeverFails(c: Config) {
    forall k: Key :: ValidKey(k) ==> Destination(c, k).Some?
  }

  /** What is true of a configuration whose destinations are always valid. */
  predicate SoundOwners(c: Config) {
    && (c.owner == "" || ValidName(c.owner))
    && (forall o :: o in c.ownerMap && ValidName(o) && c.ownerMap[o] != "" ==> ValidName(c.ownerMap[o]))
  }

  function Repeated(n: nat): (s: string)
    ensures |s| == n && AllChars(s)
  {
    if n == 0 then "" else "a" + Repeated(n - 1)
  }

  lemma {:induction false} LongerThanAll(names: set<string>) returns (n: nat)
    ensures forall s :: s in names ==> |s| < n
    decreases names
  {
    n := 1;
    if names != {} {
      var s :| s in names;
      var m := LongerThanAll(names - {s});
      n := if m > |s| then m else |s| + 1;
    }
  }

  /** No finite owner map covers all names. */
  lemma UnmappedName(names: set<string>) returns (s: string)
    ensures ValidName(s) && s !in names
  {
    var n := LongerThanAll(names);
    s := Repeated(n + 3);
  }

  /** The destination never fails on valid names exactly when the owners are sound and the probe's repository name is valid. */
  lemma NeverFailsIff(c: Config)
    ensures NeverFails(c) <==> SoundOwners(c) && ValidName(Replace(Format(c), PROBE.owner, PROBE.repo))
  {
    ProbeIsValid();
    ProbeDecidesRepo(Format(c));
    if NeverFails(c) {
      var free := UnmappedName(c.ownerMap.Keys);
      assert Destination(c, Key(free, PROBE.repo)).Some?;
      forall o | o in c.ownerMap && ValidName(o) && c.ownerMap[o] != "" ensures ValidName(c.ownerMap[o]) {
        assert Destination(c, Key(o, PROBE.repo)).Some?;
      }
      assert Destination(c, PROBE).Some?;
    }
  }

  /**
   * The start-up probe decides for every repository, given that owner-map values are empty or valid
   * and the map says nothing about the probe's own owner.
   */
  lemma ProbeDecides(c: Config)
    requires forall o :: o in c.ownerMap ==> c.ownerMap[o] == "" || ValidName(c.ownerMap[o])
    requires PROBE.owner !in c.ownerMap
    ensures Destination(c, PROBE).Some? <==> NeverFails(c)
  {
    ProbeIsValid();
    NeverFailsIff(c);
  }

  /** Without either condition a passing probe promises nothing: two configurations it lets through. */
  lemma ProbeMisses()
    ensures var bad := Config("", map["alice" := "a/b"], "");
            Destination(bad, PROBE).Some? && Destination(bad, Key("alice", "app")).None?
    ensures var bad := Config("a/b", map["placeholder-owner" := "x"], "");
            Destination(bad, PROBE).Some? && Destination(bad, Key("alice", "app")).None?
  {
    ProbeIsValid();
    var bad := Config("", map["alice" := "a/b"], "");
    NoRest("placeholder-owner", "placeholder-repo");
    assert !NameChar("a/b"[1]);
  }

  lemma NoRest(owner: string, repo: string)
    ensures Replace(REPO_MARK, owner, repo) == repo
  {
    assert REPO_MARK[|REPO_MARK|..] == "";
    assert REPO_MARK[1] != OWNER_MARK[1];
  }

  // ---------------------------------------------------------------- several owners in one account

  const JOINED: string := "{owner}-{repo}"

  lemma JoinedName(owner: string, repo: string)
    ensures Replace(JOINED, owner, repo) == owner + "-" + repo
  {
    assert JOINED[|OWNER_MARK|..] == "-{repo}";
    assert "-{repo}"[1..] == REPO_MARK;
    NoRest(owner, repo);
    assert OWNER_MARK[0] != '-' && REPO_MARK[0] != '-';
  }

  /** `long` begins with `short` and a dash. */
  predicate Extended(short: string, long: string) {
    short + "-" <= long
  }

  /**
   * Two owners' repositories can get the same joined name if and only if one owner's name is the
   * other's followed by a dash and more.
   */
  lemma JoinedCollideIff(o: string, p: string)
    requires ValidName(o) && ValidName(p) && o != p
    ensures Extended(o, p) || Extended(p, o) <==>
            exists r, s :: ValidName(r) && ValidName(s) && Replace(JOINED, o, r) == Replace(JOINED, p, s)
  {
    if r, s :| ValidName(r) && ValidName(s) && Replace(JOINED, o, r) == Replace(JOINED, p, s) {
      JoinedName(o, r);
      JoinedName(p, s);
      if |o| < |p| {
        LongerExtends(o, r, p, s);
      } else {
        LongerExtends(p, s, o, r);
      }
    }
    if Extended(o, p) {
      Collide(o, p);
    }
    if Extended(p, o) {
      Collide(p, o);
    }
  }

  lemma LongerExtends(o: string, r: string, p: string, s: string)
    requires o + "-" + r == p + "-" + s && |o| <= |p| && o != p
    ensures Extended(o, p) && '-' in p
  {
    var all := o + "-" + r;
    assert o == all[..|o|] && p == all[..|p|];
    assert |o| < |p|;
    assert p[|o|] == all[|o|] == '-';
    assert o + "-" == all[..|o| + 1] == p[..|o| + 1];
  }

  lemma Collide(o: string, p: string)
    requires ValidName(o) && ValidName(p) && Extended(o, p)
    ensures exists r, s :: ValidName(r) && ValidName(s) && Replace(JOINED, o, r) == Replace(JOINED, p, s)
    ensures exists r, s :: ValidName(r) && ValidName(s) && Replace(JOINED, p, r) == Replace(JOINED, o, s)
  {
    var rest := p[|o| + 1..];
    var r := rest + "-x";
    assert p == o + "-" + rest;
    assert r[|r| - 1] == 'x';
    assert forall i :: 0 <= i < |rest| ==> rest[i] == p[|o| + 1 + i];
    assert ValidName(r) && ValidName("x");
    JoinedName(o, r);
    JoinedName(p, "x");
    assert o + "-" + r == p + "-" + "x";
  }

  /** On owners without dashes the joined name identifies the repository. */
  lemma JoinedInjective(k: Key, l: Key)
    requires '-' !in k.owner && '-' !in l.owner
    requires Replace(JOINED, k.owner, k.repo) == Replace(JOINED, l.owner, l.repo)
    ensures k == l
  {
    JoinedName(k.owner, k.repo);
    JoinedName(l.owner, l.repo);
    if k.owner != l.owner {
      if |k.owner| <= |l.owner| {
        LongerExtends(k.owner, k.repo, l.owner, l.repo);
      } else {
        LongerExtends(l.owner, l.repo, k.owner, k.repo);
      }
    }
    var n := |k.owner| + 1;
    assert k.repo == (k.owner + "-" + k.repo)[n..] && l.repo == (l.owner + "-" + l.repo)[n..];
  }
}
