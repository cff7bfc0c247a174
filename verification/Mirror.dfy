/**
 * Mirroring one repository as a step machine: the source graph, the append-only encrypted history,
 * its working tree, the remote branches, and at most one running job. A job may stop, by an error or
 * a crash, between any two steps and leave any working tree behind.
 */
module Mirror {
  import opened Files
  import opened Ignore
  import opened Trees
  import opened Engine
  import opened Decryption
  import opened Archive
  import opened Trailer
  import opened History
  import opened RevList

  /**
   * An encrypted commit: its stored message and files, with the source commit it was made from and
   * the recipients of its ciphertexts.
   */
  datatype LogEntry = LogEntry(source: Hash, message: seq<seq<string>>, files: Files, recipients: set<string>)

  /** Where in the per-commit loop a job is. */
  datatype Stage = Top | ScratchGone | Exported | WorkCleared | Encrypted

  datatype Run =
    | Idle
    | Running(target: Hash, recipients: set<string>, todo: seq<Hash>, scratch: Files, stage: Stage)

  datatype Repo = Repo(graph: Graph, log: seq<LogEntry>, work: Files, remote: map<string, seq<LogEntry>>, run: Run)

  datatype Event =
    | Fetch(bigger: Graph)
    | Begin(target: Hash, recipients: set<string>, todo: seq<Hash>)
    | RemoveScratch
    | Export
    | ClearWork
    | Encrypt(view: Tree)
    | CommitAll
    | Push(branch: string)
    | Return
    | Stop(left: Files)

  function Sources(log: seq<LogEntry>): (r: seq<Hash>)
    ensures |r| == |log|
    ensures forall i :: 0 <= i < |log| ==> r[i] == log[i].source
  {
    seq(|log|, i requires 0 <= i < |log| => log[i].source)
  }

  /** The commit the trailer of the encrypted HEAD names, or "" if there is none. */
  function ResumePoint(log: seq<LogEntry>): Hash {
    if log == [] then "" else ReadTrailer(log[|log| - 1].message)
  }

  ghost predicate Resumable(g: Graph, log: seq<LogEntry>) {
    ResumePoint(log) == "" || ResumePoint(log) in g
  }

  function NewEntry(g: Graph, h: Hash, files: Files, recipients: set<string>): LogEntry
    requires h in g
  {
    LogEntry(h, Stored(BuildMessage(g[h].message, h)), files, recipients)
  }

  // ---------------------------------------------------------------- steps

  /** One step, if it can be taken. */
  ghost function Apply(r: Repo, e: Event): (next: Option<Repo>)
    requires Sane(r.graph)
    ensures next.Some? ==> Sane(next.value.graph)
  {
    match e
    case Fetch(bigger) =>
      if Sane(bigger) && Extends(r.graph, bigger) then Some(r.(graph := bigger)) else None
    case Begin(target, recipients, todo) =>
      if r.run.Idle? && target in r.graph && Resumable(r.graph, r.log)
         && Walked(r.graph, ResumePoint(r.log), target, todo)
      then Some(r.(run := Running(target, recipients, todo, map[], Top)))
      else None
    case Stop(left) =>
      if r.run.Running? then Some(r.(work := left, run := Idle)) else None
    case Push(branch) =>
      if r.run.Running? && r.run.stage.Top? && r.run.todo == [] && r.log != []
         && (branch in r.remote ==> r.remote[branch] <= r.log)
      then Some(r.(remote := r.remote[branch := r.log], run := Idle))
      else None
    case Return =>
      if r.run.Running? && r.run.stage.Top? && r.run.todo == [] then Some(r.(run := Idle)) else None
    case _ =>
      if r.run.Running? && r.run.todo != [] && r.run.todo[0] in r.graph then LoopStep(r, e) else None
  }

  /** A step of the loop over commits, on the next commit to process. */
  ghost function LoopStep(r: Repo, e: Event): Option<Repo>
    requires r.run.Running? && r.run.todo != [] && r.run.todo[0] in r.graph
  {
    var run := r.run;
    var h := run.todo[0];
    var source := r.graph[h].source;
    match (e, run.stage)
    case (RemoveScratch, Top) =>
      Some(r.(run := run.(scratch := map[], stage := ScratchGone)))
    case (Export, ScratchGone) =>
      if Exportable(Flatten(source.tree, []), source.admitted)
      then Some(r.(run := run.(scratch := run.scratch + Flatten(source.tree, []), stage := Exported)))
      else None
    case (ClearWork, Exported) =>
      Some(r.(work := map[], run := run.(stage := WorkCleared)))
    case (Encrypt(view), WorkCleared) =>
      if WellFormed(view) && Flatten(view, []) == run.scratch
         && EncryptInto(r.work, view, source.ignoreRead, run.recipients).Some?
      then Some(r.(work := EncryptInto(r.work, view, source.ignoreRead, run.recipients).value,
                   run := run.(stage := Encrypted)))
      else None
    case (CommitAll, Encrypted) =>
      Some(r.(log := r.log + [NewEntry(r.graph, h, r.work, run.recipients)],
              run := run.(todo := run.todo[1..], stage := Top)))
    case _ => None
  }

  /** A whole run: the environment's and the job's steps in any order. */
  ghost function Exec(r: Repo, es: seq<Event>): (last: Option<Repo>)
    requires Sane(r.graph)
    ensures last.Some? ==> Sane(last.value.graph)
    decreases |es|
  {
    if es == [] then Some(r)
    else match Apply(r, es[0])
      case None => None
      case Some(next) => Exec(next, es[1..])
  }

  lemma {:induction false} ExecConcat(r: Repo, a: seq<Event>, b: seq<Event>)
    requires Sane(r.graph) && Exec(r, a).Some?
    ensures Sane(Exec(r, a).value.graph)
    ensures Exec(r, a + b) == Exec(Exec(r, a).value, b)
    decreases |a|
  {
    if a == [] {
      assert a + b == b;
    } else {
      assert (a + b)[1..] == a[1..] + b;
      ExecConcat(Apply(r, a[0]).value, a[1..], b);
    }
  }

  ghost predicate Start(r: Repo) {
    Sane(r.graph) && r.log == [] && r.remote == map[] && r.run.Idle?
  }

  ghost predicate Reachable(r: Repo, from: Repo, es: seq<Event>) {
    Start(from) && Exec(from, es) == Some(r)
  }

  // ---------------------------------------------------------------- invariant

  /** The files are an encryption of the commit's tree, and of nothing else. */
  ghost predicate Seals(source: Source, recipients: set<string>, files: Files) {
    && recipients != {}
    && Exportable(Flatten(source.tree, []), source.admitted)
    && exists view :: SealsView(source, recipients, files, view)
  }

  ghost predicate SealsView(source: Source, recipients: set<string>, files: Files, view: Tree) {
    && WellFormed(view) && Flatten(view, []) == Flatten(source.tree, [])
    && EncryptInto(map[], view, source.ignoreRead, recipients) == Some(files)
  }

  ghost predicate EntryOk(g: Graph, e: LogEntry) {
    && e.source in g
    && e.message == Stored(BuildMessage(g[e.source].message, e.source))
    && Seals(g[e.source].source, e.recipients, e.files)
  }

  /** Every ancestor of the commit the resume point names is in the history. */
  ghost predicate Covered(g: Graph, log: seq<LogEntry>)
    requires Dag(g)
  {
    && Resumable(g, log)
    && forall a :: a in Known(g, ResumePoint(log)) ==> a in Sources(log)
  }

  /** What is left to do completes the history up to each of its commits, and up to the target. */
  ghost predicate Plan(g: Graph, log: seq<LogEntry>, target: Hash, todo: seq<Hash>)
    requires Dag(g)
  {
    && target in g
    && (forall i :: 0 <= i < |todo| ==> todo[i] in g && Completes(g, log, todo[..i + 1], todo[i]))
    && Completes(g, log, todo, target)
  }

  ghost predicate Completes(g: Graph, log: seq<LogEntry>, todo: seq<Hash>, h: Hash)
    requires Dag(g) && h in g
  {
    forall a :: a in Ancestors(g, h) ==> a in Sources(log) || a in todo
  }

  ghost predicate StageOk(r: Repo)
    requires r.run.Running?
  {
    var run := r.run;
    run.stage.Top? ||
    (run.todo != [] && run.todo[0] in r.graph &&
     var source := r.graph[run.todo[0]].source;
     match run.stage
     case Top => true
     case ScratchGone => run.scratch == map[]
     case Exported => OnScratch(source, run.scratch)
     case WorkCleared => OnScratch(source, run.scratch) && r.work == map[]
     case Encrypted => Seals(source, run.recipients, r.work))
  }

  ghost predicate OnScratch(source: Source, scratch: Files) {
    scratch == Flatten(source.tree, []) && Exportable(scratch, source.admitted)
  }

  ghost predicate RemoteOk(r: Repo) {
    forall b :: b in r.remote ==> r.remote[b] != [] && r.remote[b] <= r.log
  }

  ghost predicate TodoOk(r: Repo)
    requires r.run.Running?
  {
    && r.run.target in r.graph && (r.log != [] || r.run.todo != [])
    && forall i :: 0 <= i < |r.run.todo| ==> r.run.todo[i] in r.graph
  }

  /** What every run keeps, in whatever order it processes commits. */
  ghost predicate Safe(r: Repo) {
    && Sane(r.graph)
    && (forall i :: 0 <= i < |r.log| ==> EntryOk(r.graph, r.log[i]))
    && Resumable(r.graph, r.log)
    && RemoteOk(r)
    && (r.run.Running? ==> TodoOk(r) && StageOk(r))
  }

  /** What runs keep that process ancestors first. */
  ghost predicate Inv(r: Repo) {
    && Safe(r)
    && Covered(r.graph, r.log)
    && (r.run.Running? ==> Plan(r.graph, r.log, r.run.target, r.run.todo))
  }

  /** If the step begins a job, its commits come ancestors first. */
  ghost predicate Ordered(r: Repo, e: Event)
    requires Dag(r.graph)
  {
    e.Begin? ==> AncestorsFirst(r.graph, e.todo)
  }

  ghost predicate OrderedRun(r: Repo, es: seq<Event>)
    requires Sane(r.graph)
    decreases |es|
  {
    es != [] ==>
      && Ordered(r, es[0])
      && (Apply(r, es[0]).Some? ==> OrderedRun(Apply(r, es[0]).value, es[1..]))
  }

  // ---------------------------------------------------------------- preservation

  /** The resume point of a sound history is its last commit, unless that commit's message hides the trailer. */
  lemma ResumePointIs(g: Graph, log: seq<LogEntry>)
    requires Sane(g) && log != [] && EntryOk(g, log[|log| - 1])
    ensures var last := log[|log| - 1].source;
            ResumePoint(log) == if Legible(g[last].message) then last else ""
  {
    var last := log[|log| - 1].source;
    assert SaneCommit(g, last);
    StoredBlank(g[last].message);
    TrailerRoundTrip(g[last].message, last);
  }

  lemma FetchSafe(r: Repo, bigger: Graph)
    requires Safe(r) && Sane(bigger) && Extends(r.graph, bigger)
    ensures Safe(r.(graph := bigger))
  {
    forall i | 0 <= i < |r.log| ensures EntryOk(bigger, r.log[i]) {
      assert EntryOk(r.graph, r.log[i]);
    }
  }

  lemma FetchKeeps(r: Repo, bigger: Graph)
    requires Inv(r) && Sane(bigger) && Extends(r.graph, bigger)
    ensures Inv(r.(graph := bigger))
  {
    FetchSafe(r, bigger);
    hide Safe, SaneCommit;
    forall h | h in r.graph ensures Ancestors(bigger, h) == Ancestors(r.graph, h) {
      AncestorsStable(r.graph, bigger, h);
    }
    assert Covered(bigger, r.log);
    if r.run.Running? {
      assert Plan(bigger, r.log, r.run.target, r.run.todo);
    }
  }

  lemma BeginSafe(r: Repo, target: Hash, recipients: set<string>, todo: seq<Hash>)
    requires Safe(r) && target in r.graph && Walked(r.graph, ResumePoint(r.log), target, todo)
    ensures Safe(r.(run := Running(target, recipients, todo, map[], Top)))
  {
    WalkedLists(r.graph, ResumePoint(r.log), target, todo);
    AncestorsInGraph(r.graph, target);
    assert forall i :: 0 <= i < |todo| ==> todo[i] in todo;
  }

  /** An ancestors-first listing is a plan. */
  lemma BeginKeeps(r: Repo, target: Hash, todo: seq<Hash>)
    requires Inv(r) && target in r.graph && IsListing(r.graph, ResumePoint(r.log), target, todo)
    ensures Plan(r.graph, r.log, target, todo)
  {
    var from := ResumePoint(r.log);
    assert Sane(r.graph);
    hide Safe;
    forall i | 0 <= i < |todo|
      ensures todo[i] in r.graph && Completes(r.graph, r.log, todo[..i + 1], todo[i]) {
      forall a | a in Ancestors(r.graph, todo[i]) ensures a in Sources(r.log) || a in todo[..i + 1] {
        OrderedPrefix(r.graph, from, target, todo, i, a);
      }
    }
  }

  lemma CompletesNext(g: Graph, log: seq<LogEntry>, todo: seq<Hash>, h: Hash, e: LogEntry)
    requires Dag(g) && h in g && todo != [] && e.source == todo[0] && Completes(g, log, todo, h)
    ensures Completes(g, log + [e], todo[1..], h)
  {
    forall a | a in Ancestors(g, h) ensures a in Sources(log + [e]) || a in todo[1..] {
      if a in Sources(log) {
        var k :| 0 <= k < |log| && log[k].source == a;
        assert Sources(log + [e])[k] == a;
      } else {
        assert a in todo;
        assert todo == [todo[0]] + todo[1..];
        assert Sources(log + [e])[|log|] == e.source;
      }
    }
  }

  lemma PlanNext(g: Graph, log: seq<LogEntry>, target: Hash, todo: seq<Hash>, e: LogEntry)
    requires Dag(g) && Plan(g, log, target, todo) && todo != [] && e.source == todo[0]
    ensures Plan(g, log + [e], target, todo[1..])
  {
    var rest := todo[1..];
    forall i | 0 <= i < |rest| ensures rest[i] in g && Completes(g, log + [e], rest[..i + 1], rest[i]) {
      assert todo[i + 1] == rest[i];
      CompletesNext(g, log, todo[..i + 2], rest[i], e);
      assert todo[..i + 2][1..] == rest[..i + 1];
    }
    CompletesNext(g, log, todo, target, e);
  }

  lemma CoveredNext(g: Graph, log: seq<LogEntry>, target: Hash, todo: seq<Hash>, e: LogEntry)
    requires Sane(g) && Plan(g, log, target, todo) && todo != [] && e.source == todo[0] && EntryOk(g, e)
    ensures Covered(g, log + [e])
  {
    assert todo[..0 + 1] == [todo[0]];
    assert Completes(g, log, todo[..0 + 1], todo[0]);
    CompletesNext(g, log, [todo[0]], todo[0], e);
    ResumePointIs(g, log + [e]);
  }

  lemma CommitEntry(r: Repo, next: Repo) returns (e: LogEntry)
    requires Safe(r) && r.run.Running? && r.run.stage.Encrypted? && Apply(r, CommitAll) == Some(next)
    ensures next.log == r.log + [e] && EntryOk(r.graph, e) && r.run.todo != [] && e.source == r.run.todo[0]
    ensures next == r.(log := next.log, run := r.run.(todo := r.run.todo[1..], stage := Top))
  {
    e := NewEntry(r.graph, r.run.todo[0], r.work, r.run.recipients);
  }

  lemma EntriesNext(g: Graph, log: seq<LogEntry>, e: LogEntry)
    requires forall i :: 0 <= i < |log| ==> EntryOk(g, log[i])
    requires EntryOk(g, e)
    ensures forall i :: 0 <= i < |log + [e]| ==> EntryOk(g, (log + [e])[i])
  {
  }

  lemma RemoteNext(r: Repo, next: Repo, e: LogEntry)
    requires RemoteOk(r) && next.remote == r.remote && next.log == r.log + [e]
    ensures RemoteOk(next)
  {
    assert r.log <= next.log;
  }

  lemma TodoNext(r: Repo, next: Repo)
    requires r.run.Running? && TodoOk(r) && r.run.todo != [] && next.log != [] && next.graph == r.graph
    requires next.run == r.run.(todo := r.run.todo[1..], stage := Top)
    ensures TodoOk(next) && StageOk(next)
  {
  }

  lemma CommitSafe(r: Repo, next: Repo)
    requires Safe(r) && r.run.Running? && r.run.stage.Encrypted? && Apply(r, CommitAll) == Some(next)
    ensures Safe(next)
  {
    var e := CommitEntry(r, next);
    assert e.source in r.graph;
    EntriesNext(r.graph, r.log, e);
    RemoteNext(r, next, e);
    ResumePointIs(r.graph, next.log);
    TodoNext(r, next);
    hide Apply, EntryOk, RemoteOk, SaneCommit, ResumePoint, TodoOk, StageOk;
  }

  lemma CommitKeeps(r: Repo, next: Repo)
    requires Inv(r) && r.run.Running? && r.run.stage.Encrypted? && Apply(r, CommitAll) == Some(next)
    ensures Inv(next)
  {
    var e := CommitEntry(r, next);
    CommitSafe(r, next);
    PlanNext(r.graph, r.log, r.run.target, r.run.todo, e);
    CoveredNext(r.graph, r.log, r.run.target, r.run.todo, e);
    hide Apply, LoopStep, Plan, Covered;
  }

  lemma LoopStays(r: Repo, e: Event, next: Repo)
    requires Sane(r.graph) && Apply(r, e) == Some(next)
    requires e.RemoveScratch? || e.Export? || e.ClearWork? || e.Encrypt?
    ensures r.run.Running? && next.run.Running?
    ensures next.graph == r.graph && next.log == r.log && next.remote == r.remote
    ensures next.run.target == r.run.target && next.run.todo == r.run.todo
  {
  }

  lemma LoopStageOk(r: Repo, e: Event, next: Repo)
    requires Sane(r.graph) && r.run.Running? && StageOk(r) && Apply(r, e) == Some(next)
    requires e.RemoveScratch? || e.Export? || e.ClearWork? || e.Encrypt?
    ensures next.run.Running? && StageOk(next)
  {
    var source := r.graph[r.run.todo[0]].source;
    match e
    case RemoveScratch =>
    case Export =>
      assert map[] + Flatten(source.tree, []) == Flatten(source.tree, []);
    case ClearWork =>
    case Encrypt(view) =>
      assert SealsView(source, r.run.recipients, next.work, view);
  }

  lemma StepSafe(r: Repo, e: Event, next: Repo)
    requires Safe(r) && Apply(r, e) == Some(next)
    ensures Safe(next)
  {
    match e
    case Fetch(bigger) => FetchSafe(r, bigger);
    case Begin(target, recipients, todo) => BeginSafe(r, target, recipients, todo);
    case CommitAll => CommitSafe(r, next);
    case Push(branch) => EndSafe(r, e, next);
    case Return => EndSafe(r, e, next);
    case Stop(left) => EndSafe(r, e, next);
    case _ =>
      LoopStays(r, e, next);
      LoopStageOk(r, e, next);
      hide Apply, StageOk;
  }

  lemma EndSafe(r: Repo, e: Event, next: Repo)
    requires Safe(r) && Apply(r, e) == Some(next) && (e.Push? || e.Return? || e.Stop?)
    ensures Safe(next)
  {
    hide EntryOk, TodoOk, StageOk, SaneCommit;
  }

  /** Every step keeps the invariant, given that jobs begin with ancestors first. */
  lemma StepKeeps(r: Repo, e: Event, next: Repo)
    requires Inv(r) && Apply(r, e) == Some(next) && Ordered(r, e)
    ensures Inv(next)
  {
    StepSafe(r, e, next);
    match e
    case Fetch(bigger) => FetchKeeps(r, bigger);
    case Begin(target, _, todo) =>
      WalkedLists(r.graph, ResumePoint(r.log), target, todo);
      BeginKeeps(r, target, todo);
    case CommitAll => CommitKeeps(r, next);
    case Push(branch) =>
    case Return =>
    case Stop(left) =>
    case _ =>
      LoopStays(r, e, next);
      hide Apply, Safe, Plan, Covered;
  }

  lemma {:induction false} ExecSafe(r: Repo, es: seq<Event>)
    requires Safe(r) && Exec(r, es).Some?
    ensures Safe(Exec(r, es).value)
    decreases |es|
  {
    assert Sane(r.graph);
    hide Safe, Apply;
    if es != [] {
      var next := Apply(r, es[0]).value;
      StepSafe(r, es[0], next);
      ExecSafe(next, es[1..]);
    }
  }

  lemma {:induction false} ExecKeeps(r: Repo, es: seq<Event>)
    requires Inv(r) && Exec(r, es).Some? && OrderedRun(r, es)
    ensures Inv(Exec(r, es).value)
    decreases |es|
  {
    assert Sane(r.graph);
    hide Inv, Apply, Ordered;
    if es != [] {
      var next := Apply(r, es[0]).value;
      StepKeeps(r, es[0], next);
      ExecKeeps(next, es[1..]);
    }
  }

  lemma ReachableSafe(r: Repo, from: Repo, es: seq<Event>)
    requires Reachable(r, from, es)
    ensures Safe(r)
  {
    ExecSafe(from, es);
  }

  lemma ReachableInv(r: Repo, from: Repo, es: seq<Event>)
    requires Reachable(r, from, es) && OrderedRun(from, es)
    ensures Inv(r)
  {
    ExecKeeps(from, es);
  }

  // ---------------------------------------------------------------- main results

  /**
   * Coverage: in every state reached by jobs that begin with ancestors first, every ancestor of the
   * commit named by the encrypted HEAD is in the encrypted history; and a job that has nothing left to
   * do has mirrored its whole target.
   */
  lemma Coverage(r: Repo, from: Repo, es: seq<Event>)
    requires Reachable(r, from, es) && OrderedRun(from, es)
    ensures Sane(r.graph) && Resumable(r.graph, r.log)
    ensures forall a :: a in Known(r.graph, ResumePoint(r.log)) ==> a in Sources(r.log)
    ensures r.run.Running? && r.run.todo == [] ==>
              r.run.target in r.graph && forall a :: a in Ancestors(r.graph, r.run.target) ==> a in Sources(r.log)
  {
    ReachableInv(r, from, es);
    if r.run.Running? && r.run.todo == [] {
      assert Completes(r.graph, r.log, [], r.run.target);
    }
  }

  /** The files to be kept of a source commit, as a restore must rebuild them. */
  ghost function KeptFiles(source: Source): Files {
    match Parse(ReadIgnore(source.tree, source.ignoreRead))
    case None => map[]
    case Some(patterns) => KeptTree(source.tree, patterns)
  }

  /** A view of the same disk has the same kept files. */
  lemma SameDisk(source: Source, view: Tree)
    requires Flatten(view, []) == Flatten(source.tree, [])
    ensures ReadIgnore(view, source.ignoreRead) == ReadIgnore(source.tree, source.ignoreRead)
    ensures forall patterns :: KeptTree(view, patterns) == KeptTree(source.tree, patterns)
    ensures forall patterns, p :: KeptFile(view, patterns, p) <==> KeptFile(source.tree, patterns, p)
  {
    forall patterns, p ensures KeptLeaf(view, patterns, p) <==> KeptLeaf(source.tree, patterns, p) {
    }
    forall patterns, p ensures KeptBelow(view, patterns, p) <==> KeptBelow(source.tree, patterns, p) {
    }
    forall patterns ensures KeptTree(view, patterns) == KeptTree(source.tree, patterns) {
      assert KeptTree(view, patterns).Keys == KeptTree(source.tree, patterns).Keys;
    }
  }

  /**
   * Snapshot faithfulness: every entry of the encrypted history decrypts to exactly the kept files
   * of the source commit it names, whatever runs, crashes and other commits came before.
   */
  lemma SnapshotFaithful(r: Repo, from: Repo, es: seq<Event>, i: nat, identities: set<string>)
    requires Reachable(r, from, es) && i < |r.log|
    requires r.log[i].recipients * identities != {}
    ensures r.log[i].source in r.graph
    ensures DecryptInto(r.log[i].files, map[], identities) == Some(KeptFiles(r.graph[r.log[i].source].source))
    ensures RestoresSource(r.graph[r.log[i].source].source, DecryptInto(r.log[i].files, map[], identities).value)
  {
    ReachableSafe(r, from, es);
    var e := r.log[i];
    assert EntryOk(r.graph, e);
    hide Safe, SaneCommit, Exec;
    DecryptSealed(r.graph[e.source].source, e.recipients, e.files, identities);
  }

  /** The directory holds each leaf of the source that its own ignore file lets through, and nothing else. */
  ghost predicate RestoresSource(source: Source, out: Files) {
    var parsed := Parse(ReadIgnore(source.tree, source.ignoreRead));
    parsed.Some? && RestoredFrom(Flatten(source.tree, []), parsed.value, out)
  }

  lemma DecryptSealed(source: Source, recipients: set<string>, files: Files, identities: set<string>)
    requires Seals(source, recipients, files) && recipients * identities != {}
    ensures DecryptInto(files, map[], identities) == Some(KeptFiles(source))
    ensures RestoresSource(source, KeptFiles(source))
  {
    var view :| SealsView(source, recipients, files, view);
    SameDisk(source, view);
    assert Parse(ReadIgnore(view, source.ignoreRead)).Some?;
    hide KeptTree, RestoredFrom, ReadIgnore, Parse, Flatten, DecryptInto, Exportable;
    RoundTrip(view, source.ignoreRead, recipients, files, identities);
  }

  /**
   * Point-in-time restore: from any archive of any encrypted commit, whatever modes it gives the files,
   * the restore command rebuilds exactly the kept files, or refuses if a kept file's name ends in a dot.
   */
  lemma RestoreAnyCommit(r: Repo, from: Repo, es: seq<Event>, i: nat, tar: seq<Header>, accepted: set<Path>, identities: set<string>)
    requires Reachable(r, from, es) && i < |r.log|
    requires r.log[i].recipients * identities != {} && ArchiveUpToModes(r.log[i].files, tar)
    ensures r.log[i].source in r.graph
    ensures var source := r.graph[r.log[i].source].source;
            var parsed := Parse(ReadIgnore(source.tree, source.ignoreRead));
            && parsed.Some?
            && RestoreInto(tar, accepted, map[], identities) ==
               if forall p :: KeptFile(source.tree, parsed.value, p) ==> !EndsInDot(p)
               then Some(KeptFiles(source)) else None
    ensures RestoresSource(r.graph[r.log[i].source].source, KeptFiles(r.graph[r.log[i].source].source))
  {
    ReachableSafe(r, from, es);
    var e := r.log[i];
    assert EntryOk(r.graph, e);
    hide Safe, SaneCommit, Exec, RestoresSource;
    DecryptSealed(r.graph[e.source].source, e.recipients, e.files, identities);
    RestoreSealed(r.graph[e.source].source, e.recipients, e.files, tar, accepted, identities);
  }

  lemma RestoreSealed(source: Source, recipients: set<string>, files: Files, tar: seq<Header>, accepted: set<Path>, identities: set<string>)
    requires Seals(source, recipients, files) && recipients * identities != {} && ArchiveUpToModes(files, tar)
    ensures var parsed := Parse(ReadIgnore(source.tree, source.ignoreRead));
            && parsed.Some?
            && RestoreInto(tar, accepted, map[], identities) ==
               if forall p :: KeptFile(source.tree, parsed.value, p) ==> !EndsInDot(p)
               then Some(KeptFiles(source)) else None
  {
    var view :| SealsView(source, recipients, files, view);
    SameDisk(source, view);
    assert Parse(ReadIgnore(view, source.ignoreRead)).Some?;
    hide ArchiveUpToModes, RestoreInto, Flatten, KeptFile, KeptTree, EndsInDot, EncryptInto, Exportable;
    PointInTimeRestore(view, source.ignoreRead, recipients, source.admitted, tar, accepted, identities);
  }

  /** Steps only add to the source graph and to the end of the encrypted history. */
  lemma StepGrows(r: Repo, e: Event)
    requires Sane(r.graph) && Apply(r, e).Some?
    ensures Extends(r.graph, Apply(r, e).value.graph) && r.log <= Apply(r, e).value.log
  {
  }

  lemma {:induction false} ExecGrows(r: Repo, es: seq<Event>)
    requires Sane(r.graph) && Exec(r, es).Some?
    ensures Extends(r.graph, Exec(r, es).value.graph) && r.log <= Exec(r, es).value.log
    decreases |es|
  {
    if es != [] {
      StepGrows(r, es[0]);
      ExecGrows(Apply(r, es[0]).value, es[1..]);
    }
  }

  /**
   * Remote branches: every one is a non-empty prefix of the encrypted history, so a job that gets to
   * its push always finds a history to push and is always accepted as a fast-forward, whatever
   * branch it pushes and whatever happened to the source's branches.
   */
  lemma PushAlwaysAccepted(r: Repo, from: Repo, es: seq<Event>, branch: string)
    requires Reachable(r, from, es)
    ensures forall b :: b in r.remote ==> r.remote[b] != [] && r.remote[b] <= r.log
    ensures r.run.Running? && r.run.stage.Top? && r.run.todo == [] ==> Apply(r, Push(branch)).Some?
  {
    ReachableSafe(r, from, es);
  }

  /** A job has nothing to commit exactly when its target is already covered. */
  lemma RepeatAddsNothing(r: Repo, from: Repo, es: seq<Event>, target: Hash, recipients: set<string>, todo: seq<Hash>)
    requires Reachable(r, from, es)
    requires Apply(r, Begin(target, recipients, todo)).Some?
    ensures todo == [] <==> target in Known(r.graph, ResumePoint(r.log))
  {
    WalkedLists(r.graph, ResumePoint(r.log), target, todo);
  }
}
