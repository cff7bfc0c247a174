/** Two jobs on one repository at a time, which nothing in the worker pool rules out. */
module Overlap {
  import opened Files
  import opened Engine
  import opened Decryption
  import opened Trees
  import opened History
  import opened RevList
  import opened SmallWalks
  import opened Mirror
  import opened Runs

  /** A repository with a second job beside the one it has. */
  datatype Pair = Pair(repo: Repo, other: Run)

  datatype Turn = First(event: Event) | Second(event: Event)

  /** Either job takes a step of the mirroring machine on the same history and working tree. */
  ghost function Take(p: Pair, t: Turn): (next: Option<Pair>)
    requires Sane(p.repo.graph)
    ensures next.Some? ==> Sane(next.value.repo.graph)
  {
    match t
    case First(e) =>
      (match Apply(p.repo, e)
       case None => None
       case Some(r) => Some(Pair(r, p.other)))
    case Second(e) =>
      (match Apply(p.repo.(run := p.other), e)
       case None => None
       case Some(r) => Some(Pair(r.(run := p.repo.run), r.run)))
  }

  ghost function TakeAll(p: Pair, ts: seq<Turn>): (last: Option<Pair>)
    requires Sane(p.repo.graph)
    ensures last.Some? ==> Sane(last.value.repo.graph)
    decreases |ts|
  {
    if ts == [] then Some(p)
    else match Take(p, ts[0])
      case None => None
      case Some(next) => TakeAll(next, ts[1..])
  }

  lemma TakeOn(p: Pair, t: Turn, next: Pair, ts: seq<Turn>)
    requires Sane(p.repo.graph) && Take(p, t) == Some(next)
    ensures TakeAll(p, [t] + ts) == TakeAll(next, ts)
  {
    assert ([t] + ts)[1..] == ts;
  }

  lemma FirstOn(r: Repo, other: Run, e: Event, next: Repo, ts: seq<Turn>)
    requires Sane(r.graph) && Apply(r, e) == Some(next)
    ensures TakeAll(Pair(r, other), [First(e)] + ts) == TakeAll(Pair(next, other), ts)
  {
    hide Apply, TakeAll, Sane;
    TakeOn(Pair(r, other), First(e), Pair(next, other), ts);
  }

  lemma SecondOn(r: Repo, other: Run, e: Event, next: Repo, ts: seq<Turn>)
    requires Sane(r.graph) && Sane(next.graph) && Apply(r, e) == Some(next)
    ensures TakeAll(Pair(r.(run := other), r.run), [Second(e)] + ts) == TakeAll(Pair(next.(run := other), next.run), ts)
  {
    hide Apply, TakeAll, Sane;
    assert r.(run := other).(run := r.run) == r;
    TakeOn(Pair(r.(run := other), r.run), Second(e), Pair(next.(run := other), next.run), ts);
  }

  lemma RootListing(g: Graph, h: Hash)
    requires Dag(g) && h in g && g[h].parents == {}
    ensures Walked(g, "", h, [h])
  {
    StandsFirst(g, {h}, [h]);
    Advance(g, {h}, [h], 0, {}, {h}, {});
    Arrives(g, {h}, [h], {h});
    assert [h][1..] == [] && Listing([h], {}) == [h];
    assert FullWalk(g, Starts("", h), [h]) && Listing([h], Known(g, "")) == [h];
  }

  /** Both jobs are for the same commit; the second runs up to its clearing while the first is about to commit. */
  ghost function Schedule(h: Hash, tree: Tree, recipients: set<string>): seq<Turn> {
    [First(Begin(h, recipients, [h])), First(RemoveScratch), First(Export), First(ClearWork), First(Mirror.Encrypt(tree)),
     Second(Begin(h, recipients, [h])), Second(RemoveScratch), Second(Export), Second(ClearWork),
     First(CommitAll)]
  }

  lemma RootBegins(r: Repo, h: Hash, recipients: set<string>) returns (a: Repo)
    requires Sane(r.graph) && h in r.graph && r.graph[h].parents == {} && r.log == [] && r.run.Idle?
    requires Mirrorable(r.graph[h].source, recipients)
    ensures a == r.(run := Running(h, recipients, [h], map[], Top)) && Apply(r, Begin(h, recipients, [h])) == Some(a)
  {
    RootListing(r.graph, h);
    hide Walked, Dag, SaneCommit, Sane, Mirrorable;
    a := r.(run := Running(h, recipients, [h], map[], Top));
  }

  lemma RootExports(a: Repo, h: Hash, recipients: set<string>) returns (b: Repo, c: Repo)
    requires Sane(a.graph) && h in a.graph && a.run == Running(h, recipients, [h], map[], Top)
    requires Mirrorable(a.graph[h].source, recipients)
    ensures Apply(a, RemoveScratch) == Some(b) && Sane(b.graph) && Apply(b, Export) == Some(c)
    ensures c == a.(run := Running(h, recipients, [h], Flatten(a.graph[h].source.tree, []), Exported))
  {
    var disk := Flatten(a.graph[h].source.tree, []);
    assert map[] + disk == disk;
    hide Sane, Flatten, EncryptInto;
    b := a.(run := a.run.(stage := ScratchGone));
    c := b.(run := b.run.(scratch := disk, stage := Exported));
  }

  /** A job for a first commit runs up to its clearing of the working tree. */
  lemma RootClears(r: Repo, h: Hash, recipients: set<string>) returns (a: Repo, b: Repo, c: Repo, d: Repo)
    requires Sane(r.graph) && h in r.graph && r.graph[h].parents == {} && r.log == [] && r.run.Idle?
    requires Mirrorable(r.graph[h].source, recipients)
    ensures Sane(a.graph) && Sane(b.graph) && Sane(c.graph) && Sane(d.graph)
    ensures Apply(r, Begin(h, recipients, [h])) == Some(a)
    ensures Apply(a, RemoveScratch) == Some(b) && Apply(b, Export) == Some(c) && Apply(c, ClearWork) == Some(d)
    ensures a == r.(run := a.run) && b == r.(run := b.run) && c == r.(run := c.run)
    ensures d == r.(work := map[], run := Running(h, recipients, [h], Flatten(r.graph[h].source.tree, []), WorkCleared))
  {
    a := RootBegins(r, h, recipients);
    b, c := RootExports(a, h, recipients);
    hide Sane, Flatten, Mirrorable;
    d := c.(work := map[], run := c.run.(stage := WorkCleared));
  }

  lemma RootEncrypts(d: Repo, h: Hash, recipients: set<string>) returns (e: Repo)
    requires Sane(d.graph) && h in d.graph && d.work == map[]
    requires Mirrorable(d.graph[h].source, recipients)
    requires d.run == Running(h, recipients, [h], Flatten(d.graph[h].source.tree, []), WorkCleared)
    ensures Apply(d, Mirror.Encrypt(d.graph[h].source.tree)) == Some(e)
    ensures e == d.(work := e.work, run := d.run.(stage := Encrypted))
  {
    var source := d.graph[h].source;
    assert SaneCommit(d.graph, h);
    hide Flatten, EncryptInto, SaneCommit;
    e := d.(work := EncryptInto(map[], source.tree, source.ignoreRead, recipients).value, run := d.run.(stage := Encrypted));
  }

  /** The first job's part, up to its encryption. */
  lemma FirstJob(p: Pair, h: Hash, recipients: set<string>, ts: seq<Turn>) returns (q: Pair)
    requires Sane(p.repo.graph) && h in p.repo.graph && p.repo.graph[h].parents == {}
    requires p.repo.log == [] && p.repo.run.Idle?
    requires Mirrorable(p.repo.graph[h].source, recipients)
    ensures q == p.(repo := p.repo.(work := q.repo.work, run := q.repo.run))
    ensures q.repo.run == Running(h, recipients, [h], Flatten(p.repo.graph[h].source.tree, []), Encrypted)
    ensures TakeAll(p, [First(Begin(h, recipients, [h])), First(RemoveScratch), First(Export), First(ClearWork),
                        First(Mirror.Encrypt(p.repo.graph[h].source.tree))] + ts) == TakeAll(q, ts)
  {
    var source := p.repo.graph[h].source;
    hide Apply, TakeAll, Sane, Flatten, Mirrorable;
    var a, b, c, d := RootClears(p.repo, h, recipients);
    var e := RootEncrypts(d, h, recipients);
    q := Pair(e, p.other);
    var t5 := [First(Mirror.Encrypt(source.tree))] + ts;
    var t4 := [First(ClearWork)] + t5;
    var t3 := [First(Export)] + t4;
    var t2 := [First(RemoveScratch)] + t3;
    FirstOn(p.repo, p.other, Begin(h, recipients, [h]), a, t2);
    FirstOn(a, p.other, RemoveScratch, b, t3);
    FirstOn(b, p.other, Export, c, t4);
    FirstOn(c, p.other, ClearWork, d, t5);
    FirstOn(d, p.other, Mirror.Encrypt(source.tree), e, ts);
    assert [First(Begin(h, recipients, [h])), First(RemoveScratch), First(Export), First(ClearWork),
            First(Mirror.Encrypt(source.tree))] + ts == [First(Begin(h, recipients, [h]))] + t2;
  }

  /** The second job's part, up to its clearing of the working tree. */
  lemma SecondJob(p: Pair, h: Hash, recipients: set<string>, ts: seq<Turn>) returns (q: Pair)
    requires Sane(p.repo.graph) && h in p.repo.graph && p.repo.graph[h].parents == {}
    requires p.repo.log == [] && p.other.Idle?
    requires Mirrorable(p.repo.graph[h].source, recipients)
    ensures q.repo == p.repo.(work := map[])
    ensures TakeAll(p, [Second(Begin(h, recipients, [h])), Second(RemoveScratch), Second(Export), Second(ClearWork)] + ts)
            == TakeAll(q, ts)
  {
    hide Apply, TakeAll, Sane, Flatten, Mirrorable;
    var r := p.repo.(run := Idle);
    var a, b, c, d := RootClears(r, h, recipients);
    q := Pair(p.repo.(work := map[]), d.run);
    var t4 := [Second(ClearWork)] + ts;
    var t3 := [Second(Export)] + t4;
    var t2 := [Second(RemoveScratch)] + t3;
    SecondOn(r, p.repo.run, Begin(h, recipients, [h]), a, t2);
    SecondOn(a, p.repo.run, RemoveScratch, b, t3);
    SecondOn(b, p.repo.run, Export, c, t4);
    SecondOn(c, p.repo.run, ClearWork, d, ts);
    assert p == Pair(r.(run := p.repo.run), Idle);
    assert [Second(Begin(h, recipients, [h])), Second(RemoveScratch), Second(Export), Second(ClearWork)] + ts
           == [Second(Begin(h, recipients, [h]))] + t2;
  }

  /**
   * Two jobs for the same first commit lose it, whatever the commit: if the second clears the working
   * tree between the first one's encryption and its commit, the commit holds no files, and no identity
   * decrypts it, although either job alone would have mirrored it faithfully.
   */
  lemma OverlapLosesCommit(r: Repo, h: Hash, recipients: set<string>, identities: set<string>)
    requires Start(r) && h in r.graph && r.graph[h].parents == {}
    requires Mirrorable(r.graph[h].source, recipients)
    ensures var last := TakeAll(Pair(r, Idle), Schedule(h, r.graph[h].source.tree, recipients));
            && last.Some? && |last.value.repo.log| == 1
            && last.value.repo.log[0].source == h
            && DecryptInto(last.value.repo.log[0].files, map[], identities) == None
  {
    var tree := r.graph[h].source.tree;
    var end := [First(CommitAll)];
    var others := [Second(Begin(h, recipients, [h])), Second(RemoveScratch), Second(Export), Second(ClearWork)] + end;
    var q := FirstJob(Pair(r, Idle), h, recipients, others);
    var q2 := SecondJob(q, h, recipients, end);
    EmptyCommit(q2, h, recipients, identities);
    hide Apply, TakeAll, Sane, Flatten, Mirrorable, DecryptInto;
    assert Schedule(h, tree, recipients) ==
           [First(Begin(h, recipients, [h])), First(RemoveScratch), First(Export), First(ClearWork), First(Mirror.Encrypt(tree))] + others;
  }

  /** Committing after the tree was cleared records a commit without files. */
  lemma EmptyCommit(p: Pair, h: Hash, recipients: set<string>, identities: set<string>)
    requires Sane(p.repo.graph) && h in p.repo.graph && p.repo.log == [] && p.repo.work == map[]
    requires p.repo.run.Running? && p.repo.run.stage.Encrypted? && p.repo.run.todo == [h]
    ensures var last := TakeAll(p, [First(CommitAll)]);
            && last.Some? && |last.value.repo.log| == 1
            && last.value.repo.log[0].source == h
            && DecryptInto(last.value.repo.log[0].files, map[], identities) == None
  {
    var next := Take(p, First(CommitAll)).value;
    assert [First(CommitAll)] + [] == [First(CommitAll)];
    TakeOn(p, First(CommitAll), next, []);
  }

  // ---------------------------------------------------------------- overlaps that do no harm

  /** A job's scratch directory is its own: past the export it holds the commit's tree, whatever the other job does. */
  ghost predicate ScratchOk(g: Graph, run: Run) {
    run.Running? && !run.stage.Top? ==>
      && run.todo != [] && run.todo[0] in g
      && if run.stage.ScratchGone? then run.scratch == map[] else OnScratch(g[run.todo[0]].source, run.scratch)
  }

  ghost predicate PairOk(p: Pair) {
    Sane(p.repo.graph) && ScratchOk(p.repo.graph, p.repo.run) && ScratchOk(p.repo.graph, p.other)
  }

  lemma ScratchKept(g: Graph, bigger: Graph, run: Run)
    requires Extends(g, bigger) && ScratchOk(g, run)
    ensures ScratchOk(bigger, run)
  {
  }

  lemma ScratchStepOk(r: Repo, e: Event, next: Repo)
    requires Sane(r.graph) && ScratchOk(r.graph, r.run) && Apply(r, e) == Some(next)
    ensures ScratchOk(next.graph, next.run) && Extends(r.graph, next.graph) && Sane(next.graph)
  {
    if e.Export? {
      var disk := Flatten(r.graph[r.run.todo[0]].source.tree, []);
      assert map[] + disk == disk;
    }
  }

  lemma PairStep(p: Pair, t: Turn, next: Pair)
    requires PairOk(p) && Take(p, t) == Some(next)
    ensures PairOk(next) && Extends(p.repo.graph, next.repo.graph)
  {
    match t
    case First(e) =>
      ScratchStepOk(p.repo, e, next.repo);
      hide Apply, ScratchOk, Sane;
      ScratchKept(p.repo.graph, next.repo.graph, p.other);
    case Second(e) =>
      var r := p.repo.(run := p.other);
      var s := Apply(r, e).value;
      ScratchStepOk(r, e, s);
      hide Apply, ScratchOk, Sane;
      ScratchKept(p.repo.graph, next.repo.graph, p.repo.run);
  }

  lemma {:induction false} PairRun(p: Pair, ts: seq<Turn>)
    requires PairOk(p) && TakeAll(p, ts).Some?
    ensures PairOk(TakeAll(p, ts).value)
    decreases |ts|
  {
    if ts != [] {
      var next := Take(p, ts[0]).value;
      PairStep(p, ts[0], next);
      hide Take, PairOk;
      PairRun(next, ts[1..]);
    }
  }

  /** In between the other job does not touch the working tree, and this one neither commits nor stops. */
  ghost predicate Undisturbed(mid: seq<Turn>) {
    forall i :: 0 <= i < |mid| ==> LeavesTree(mid[i])
  }

  predicate LeavesTree(t: Turn) {
    match t
    case First(e) => !e.CommitAll? && !e.Stop?
    case Second(e) => !e.ClearWork? && !e.Encrypt? && !e.Stop?
  }

  /** The first job is between its clearing and its commit of `h`, and the working tree is right for that. */
  ghost predicate Committing(p: Pair, h: Hash) {
    var run := p.repo.run;
    && Sane(p.repo.graph) && h in p.repo.graph
    && run.Running? && run.todo != [] && run.todo[0] == h
    && var source := p.repo.graph[h].source;
       if run.stage.WorkCleared? then OnScratch(source, run.scratch) && p.repo.work == map[]
       else run.stage.Encrypted? && Seals(source, run.recipients, p.repo.work)
  }

  lemma CommittingBegins(p: Pair, h: Hash, next: Pair)
    requires PairOk(p) && Take(p, First(ClearWork)) == Some(next) && p.repo.run.Running? && p.repo.run.todo[..1] == [h]
    ensures Committing(next, h)
  {
    assert p.repo.run.todo[0] == p.repo.run.todo[..1][0];
  }

  lemma OtherLeavesTree(r: Repo, e: Event, next: Repo)
    requires Sane(r.graph) && Apply(r, e) == Some(next) && !e.ClearWork? && !e.Encrypt? && !e.Stop?
    ensures next.work == r.work && Extends(r.graph, next.graph) && Sane(next.graph)
  {
  }

  lemma OwnEncrypts(p: Pair, h: Hash, e: Event, next: Repo)
    requires Committing(p, h) && Apply(p.repo, e) == Some(next) && !e.CommitAll? && !e.Stop?
    ensures Committing(Pair(next, p.other), h)
  {
    if e.Encrypt? {
      assert SealsView(p.repo.graph[h].source, p.repo.run.recipients, next.work, e.view);
    }
  }

  lemma CommittingStep(p: Pair, h: Hash, t: Turn, next: Pair)
    requires Committing(p, h) && Take(p, t) == Some(next) && LeavesTree(t)
    ensures Committing(next, h)
  {
    match t
    case First(e) => OwnEncrypts(p, h, e, next.repo);
    case Second(e) =>
      OtherLeavesTree(p.repo.(run := p.other), e, Apply(p.repo.(run := p.other), e).value);
      hide Apply, Seals, OnScratch;
  }

  lemma {:induction false} CommittingRun(p: Pair, h: Hash, mid: seq<Turn>)
    requires Sane(p.repo.graph) && Committing(p, h) && TakeAll(p, mid).Some? && Undisturbed(mid)
    ensures Committing(TakeAll(p, mid).value, h)
    decreases |mid|
  {
    if mid != [] {
      var next := Take(p, mid[0]).value;
      assert forall i :: 0 <= i < |mid[1..]| ==> mid[1..][i] == mid[i + 1];
      CommittingStep(p, h, mid[0], next);
      hide Take, Committing, LeavesTree;
      CommittingRun(next, h, mid[1..]);
    }
  }

  lemma CommitIsSound(p: Pair, h: Hash, next: Pair) returns (e: LogEntry)
    requires Committing(p, h) && Take(p, First(CommitAll)) == Some(next)
    ensures next.repo.log == p.repo.log + [e] && next.repo.graph == p.repo.graph
    ensures e.source == h && h in next.repo.graph && Seals(next.repo.graph[h].source, e.recipients, e.files)
  {
    e := NewEntry(p.repo.graph, h, p.repo.work, p.repo.run.recipients);
  }

  lemma {:induction false} TakeSplit(p: Pair, a: seq<Turn>, b: seq<Turn>) returns (m: Pair)
    requires Sane(p.repo.graph) && TakeAll(p, a + b).Some?
    ensures TakeAll(p, a) == Some(m) && TakeAll(m, b) == TakeAll(p, a + b)
    decreases |a|
  {
    if a == [] {
      assert a + b == b;
      m := p;
    } else {
      assert (a + b)[1..] == a[1..] + b;
      m := TakeSplit(Take(p, a[0]).value, a[1..], b);
    }
  }

  /** A sealed commit decrypts to its kept files. */
  lemma SealedDecrypts(source: Source, recipients: set<string>, files: Files, identities: set<string>)
    requires Seals(source, recipients, files) && recipients * identities != {}
    ensures DecryptInto(files, map[], identities) == Some(KeptFiles(source))
  {
    var view :| SealsView(source, recipients, files, view);
    RoundTrip(view, source.ignoreRead, recipients, files, identities);
    SameDisk(source, view);
  }

  /** The state in which a job clears the working tree, and what it has left to do then. */
  lemma ClearingState(p: Pair, rest: seq<Turn>, q: Pair) returns (h: Hash, m: Pair)
    requires PairOk(p) && TakeAll(p, [First(ClearWork)] + rest) == Some(q)
    ensures Committing(m, h) && Sane(m.repo.graph) && TakeAll(m, rest) == Some(q)
  {
    assert ([First(ClearWork)] + rest)[1..] == rest && ([First(ClearWork)] + rest)[0] == First(ClearWork);
    m := Take(p, First(ClearWork)).value;
    h := p.repo.run.todo[0];
    CommittingBegins(p, h, m);
  }

  /**
   * Two jobs on one repository, overlapping in any way before and after: if between one's clearing of the
   * working tree and its commit the other neither clears nor encrypts nor stops, the commit is faithful.
   */
  lemma UndisturbedFaithful(r: Repo, before: seq<Turn>, p: Pair, mid: seq<Turn>, q: Pair, identities: set<string>)
    requires Start(r) && TakeAll(Pair(r, Idle), before) == Some(p) && Undisturbed(mid)
    requires TakeAll(p, [First(ClearWork)] + (mid + [First(CommitAll)])) == Some(q)
    ensures q.repo.log != []
    ensures var e := q.repo.log[|q.repo.log| - 1];
            && e.source in q.repo.graph
            && (e.recipients * identities != {} ==>
                  DecryptInto(e.files, map[], identities) == Some(KeptFiles(q.repo.graph[e.source].source)))
  {
    hide Take, TakeAll, PairOk, Committing, Undisturbed, Seals, DecryptInto, KeptFiles, Sane;
    assert PairOk(Pair(r, Idle)) by {
      FreshPair(r);
    }
    PairRun(Pair(r, Idle), before);
    var h, m := ClearingState(p, mid + [First(CommitAll)], q);
    var n := TakeSplit(m, mid, [First(CommitAll)]);
    CommittingRun(m, h, mid);
    LastTurn(n, First(CommitAll), q);
    var e := CommitIsSound(n, h, q);
    if e.recipients * identities != {} {
      SealedDecrypts(q.repo.graph[h].source, e.recipients, e.files, identities);
    }
  }

  lemma FreshPair(r: Repo)
    requires Start(r)
    ensures PairOk(Pair(r, Idle))
  {
  }

  lemma LastTurn(p: Pair, t: Turn, q: Pair)
    requires Sane(p.repo.graph) && TakeAll(p, [t]) == Some(q)
    ensures Take(p, t) == Some(q)
  {
    assert [t][1..] == [];
  }

  // ---------------------------------------------------------------- the jobs are interchangeable

  function Swapped(p: Pair): Pair {
    Pair(p.repo.(run := p.other), p.repo.run)
  }

  function SwappedTurns(ts: seq<Turn>): seq<Turn> {
    if ts == [] then []
    else [match ts[0] case First(e) => Second(e) case Second(e) => First(e)] + SwappedTurns(ts[1..])
  }

  /** What holds of the first job holds of the second. */
  lemma {:induction false} JobsInterchange(p: Pair, ts: seq<Turn>)
    requires Sane(p.repo.graph)
    ensures TakeAll(Swapped(p), SwappedTurns(ts)) == match TakeAll(p, ts) case None => None case Some(q) => Some(Swapped(q))
    decreases |ts|
  {
    if ts != [] {
      var first := SwappedTurns(ts)[0];
      assert SwappedTurns(ts)[1..] == SwappedTurns(ts[1..]);
      match Take(p, ts[0])
      case None =>
      case Some(next) => JobsInterchange(next, ts[1..]);
    }
  }
}
