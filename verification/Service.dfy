/** Mirroring one repository as the program does it, proved to take only steps of the machine. */
module Service {
  import opened Files
  import opened Trees
  import opened WorkTree
  import opened Engine
  import opened Archive
  import opened History
  import opened RevList
  import opened Mirror
  import opened Runs

  /** The local copies of one source repository, its encrypted repository, and the pushed branches. */
  class Repository {
    var graph: Graph
    var log: seq<LogEntry>
    var remote: map<string, seq<LogEntry>>
    const dir: Disk

    constructor (git: Files)
      requires Tracked(git) == map[]
      ensures fresh(dir) && GitPart(dir.files) == GitPart(git)
      ensures State(Idle) == Repo(map[], [], map[], map[], Idle)
    {
      graph, log, remote := map[], [], map[];
      dir := new Disk();
      new;
      dir.files := git;
    }

    ghost function State(run: Run): Repo
      reads this, dir
    {
      Repo(graph, log, Tracked(dir.files), remote, run)
    }
  }

  /** Removes every entry of the directory but git's own folder. */
  method ClearWorkingTree(dir: Disk)
    modifies dir
    ensures Tracked(dir.files) == map[] && GitPart(dir.files) == old(GitPart(dir.files))
  {
    var names := set p | p in dir.files && p != [] :: p[0];
    while names != {}
      invariant GitPart(dir.files) == old(GitPart(dir.files))
      invariant forall p :: p in dir.files && p != [] && p[0] !in names ==> p[0] == GIT_DIR
      decreases names
    {
      var name :| name in names;
      names := names - {name};
      if name != GIT_DIR {
        dir.files := RemoveAll(dir.files, name);
      }
    }
  }

  /** An effect that may fail when faults are possible. */
  method Fault(possible: bool) returns (hit: bool)
    ensures hit ==> possible
  {
    hit := false;
    if possible {
      hit := *;
    }
  }

  /**
   * One turn of the loop over commits. With `faults`, any effect may fail; without, the turn fails
   * only on a commit that cannot be mirrored.
   */
  method MirrorCommit(repo: Repository, h: Hash, recipients: set<string>, scratch: Disk, faults: bool, ghost run: Run)
    returns (ok: bool, ghost es: seq<Event>)
    requires Sane(repo.graph) && h in repo.graph && scratch != repo.dir
    requires run.Running? && run.stage.Top? && run.todo != [] && run.todo[0] == h && run.recipients == recipients
    modifies repo`log, repo.dir, scratch
    ensures GitPart(repo.dir.files) == old(GitPart(repo.dir.files))
    ensures var after := if ok then Running(run.target, recipients, run.todo[1..], scratch.files, Top) else Idle;
            Leads(old(repo.State(run)), es, repo.State(after))
    ensures NoBegins(es)
    ensures Sources(repo.log) == old(Sources(repo.log)) + [h] || (!ok && repo.log == old(repo.log))
    ensures ok ==> Sources(repo.log) == old(Sources(repo.log)) + [h]
    ensures !faults ==> (ok <==> Mirrorable(repo.graph[h].source, recipients))
  {
    var source := repo.graph[h].source;
    assert SaneCommit(repo.graph, h);
    ghost var start := repo.State(run);
    ghost var s := start;
    es := [];
    ok := true;
    assert At(start, es, s, Top, h);
    hide Exec, Apply, LoopStep, EncryptInto, Exportable, Sane, Flatten, NewEntry, Tracked, GitPart, Sources, Leads, NoBegins;
    label attempt: {
      var fault := Fault(faults);
      if fault {
        ok := false;
        break attempt;
      }
      ScratchStep(start, es, s, h);
      scratch.files := map[];
      s, es := s.(run := s.run.(scratch := map[], stage := ScratchGone)), es + [RemoveScratch];

      ok := ExportTree(source.tree, source.admitted, scratch);
      fault := Fault(faults);
      if !ok || fault {
        ok := false;
        break attempt;
      }
      ExportStep(start, es, s, h, scratch.files);
      s, es := s.(run := s.run.(scratch := scratch.files, stage := Exported)), es + [Export];

      ClearWorkingTree(repo.dir);
      fault := Fault(faults);
      if fault {
        ok := false;
        break attempt;
      }
      ClearStep(start, es, s, h);
      s, es := s.(work := map[], run := s.run.(stage := WorkCleared)), es + [ClearWork];

      EncryptBeside(repo.dir.files, source.tree, source.ignoreRead, recipients);
      ok := Engine.Encrypt(source.tree, source.ignoreRead, recipients, repo.dir);
      fault := Fault(faults);
      if !ok || fault {
        ok := false;
        break attempt;
      }
      EncryptStep(start, es, s, h, source.tree, Tracked(repo.dir.files));
      s := s.(work := Tracked(repo.dir.files), run := s.run.(stage := Encrypted));
      es := es + [Mirror.Encrypt(source.tree)];

      fault := Fault(faults);
      if fault {
        ok := false;
        break attempt;
      }
      repo.log := repo.log + [NewEntry(repo.graph, h, Tracked(repo.dir.files), recipients)];
      CommitStep(start, es, s, h, repo.State(Running(run.target, recipients, run.todo[1..], scratch.files, Top)));
      s, es := repo.State(Running(run.target, recipients, run.todo[1..], scratch.files, Top)), es + [CommitAll];

      fault := Fault(faults);
      ok := !fault;
    }
    if !ok {
      StopLeads(start, es, s, Tracked(repo.dir.files));
      es := es + [Stop(Tracked(repo.dir.files))];
    }
  }

  /** Every commit a job for `target` would have to process can be mirrored. */
  ghost predicate AllMirrorable(g: Graph, from: Hash, target: Hash, recipients: set<string>)
    requires Dag(g) && target in g && (from != "" ==> from in g)
  {
    forall h :: h in Ancestors(g, target) && h !in Known(g, from) ==> h in g && Mirrorable(g[h].source, recipients)
  }

  ghost predicate CanMirror(g: Graph, log: seq<LogEntry>, target: Hash, recipients: set<string>)
    requires Dag(g)
  {
    target in g && Resumable(g, log) && AllMirrorable(g, ResumePoint(log), target, recipients)
  }

  lemma ListedMirrorable(g: Graph, from: Hash, target: Hash, recipients: set<string>, l: seq<Hash>)
    requires Dag(g) && target in g && (from != "" ==> from in g) && Enumerates(g, from, target, l)
    ensures AllMirrorable(g, from, target, recipients) <==>
            forall i :: 0 <= i < |l| ==> l[i] in g && Mirrorable(g[l[i]].source, recipients)
  {
    if AllMirrorable(g, from, target, recipients) {
      forall i | 0 <= i < |l| ensures l[i] in g && Mirrorable(g[l[i]].source, recipients) {
        assert l[i] in l;
      }
    }
  }

  /** The loop over the listed commits, oldest first. */
  method MirrorAll(repo: Repository, commits: seq<Hash>, recipients: set<string>, faults: bool, ghost begun: Run)
    returns (ok: bool, processed: nat, ghost es: seq<Event>, ghost run: Run)
    requires Sane(repo.graph) && forall i :: 0 <= i < |commits| ==> commits[i] in repo.graph
    requires begun.Running? && begun.stage.Top? && begun.todo == commits && begun.recipients == recipients
    modifies repo`log, repo.dir
    ensures GitPart(repo.dir.files) == old(GitPart(repo.dir.files))
    ensures Leads(old(repo.State(begun)), es, repo.State(run)) && NoBegins(es)
    ensures if ok then run.Running? && run.target == begun.target && run.todo == [] && run.stage.Top? else run.Idle?
    ensures ok ==> processed == |commits| && Sources(repo.log) == old(Sources(repo.log)) + commits
    ensures |repo.log| == |old(repo.log)| + processed || (!ok && |repo.log| == |old(repo.log)| + processed + 1)
    ensures !faults ==>
              (ok <==> forall k :: 0 <= k < |commits| ==> Mirrorable(repo.graph[commits[k]].source, recipients))
  {
    ghost var start := repo.State(begun);
    var scratch := new Disk();
    ok, processed, es, run := true, 0, [], begun;
    assert Leads(start, [], start);
    hide Exec, Apply, LoopStep, Sane, Mirrorable, GitPart, Tracked;
    var i := 0;
    while i < |commits|
      invariant 0 <= i <= |commits| && processed == i && scratch != repo.dir && fresh(scratch)
      invariant GitPart(repo.dir.files) == old(GitPart(repo.dir.files))
      invariant Leads(start, es, repo.State(run)) && NoBegins(es)
      invariant run.Running? && run.stage.Top? && run.todo == commits[i..]
      invariant run.target == begun.target && run.recipients == recipients
      invariant Sources(repo.log) == old(Sources(repo.log)) + commits[..i]
      invariant !faults ==> forall k :: 0 <= k < i ==> Mirrorable(repo.graph[commits[k]].source, recipients)
    {
      ghost var more;
      ghost var before := repo.State(run);
      ok, more := MirrorCommit(repo, commits[i], recipients, scratch, faults, run);
      run := if ok then Running(begun.target, recipients, commits[i + 1..], scratch.files, Top) else Idle;
      LeadsThrough(start, es, before, more, repo.State(run));
      es := es + more;
      if !ok {
        return;
      }
      processed := processed + 1;
      i := i + 1;
    }
    ok := true;
    assert commits[..i] == commits;
  }

  /** If the job can begin at all, its listing has ancestors first, however ties are broken. */
  ghost predicate Tidy(g: Graph, log: seq<LogEntry>, target: Hash)
    requires Dag(g)
  {
    target in g && Resumable(g, log) ==> Orderly(g, ResumePoint(log), target)
  }

  /**
   * Brings the encrypted history up to the target: lists what is missing and mirrors it, oldest
   * first, until done or until a commit fails.
   */
  method UpdateEncryptedHistory(repo: Repository, target: Hash, recipients: set<string>, faults: bool)
    returns (ok: bool, processed: nat, ghost es: seq<Event>, ghost run: Run, ghost todo: seq<Hash>)
    requires Sane(repo.graph)
    modifies repo`log, repo.dir
    ensures GitPart(repo.dir.files) == old(GitPart(repo.dir.files))
    ensures Leads(old(repo.State(Idle)), es, repo.State(run))
    ensures if ok then run.Running? && run.target == target && run.todo == [] && run.stage.Top? else run.Idle?
    ensures ok ==> target in repo.graph && Resumable(repo.graph, old(repo.log))
    ensures ok ==> Walked(repo.graph, ResumePoint(old(repo.log)), target, todo)
    ensures ok ==> processed == |todo| && Sources(repo.log) == old(Sources(repo.log)) + todo
    ensures ok && todo == [] ==> repo.log == old(repo.log)
    ensures |repo.log| == |old(repo.log)| + processed || (!ok && |repo.log| == |old(repo.log)| + processed + 1)
    ensures old(Inv(repo.State(Idle))) && Tidy(repo.graph, old(repo.log), target) ==> Inv(repo.State(run))
    ensures !faults ==> (ok <==> CanMirror(repo.graph, old(repo.log), target, recipients))
  {
    ghost var start := repo.State(Idle);
    ok, processed, es, run, todo := false, 0, [], Idle, [];
    assert Leads(start, [], start);
    hide Exec, Apply, LoopStep, Sane, AllMirrorable, Walked, Mirrorable, GitPart, Tracked, Tidy, Inv, Safe, CanMirror;
    var from := ResumePoint(repo.log);
    var fault := Fault(faults);
    if fault || target !in repo.graph || (from != "" && from !in repo.graph) {
      CannotBegin(repo.graph, repo.log, target, recipients);
      return;
    }
    var commits := ListCommits(repo.graph, from, target);
    todo := commits;
    JobBegins(start, target, recipients, commits);
    es, run := [Begin(target, recipients, commits)], Running(target, recipients, commits, map[], Top);
    if commits == [] {
      ok := true;
      return;
    }
    ghost var begun := repo.State(run);
    ghost var more;
    ok, processed, more, run := MirrorAll(repo, commits, recipients, faults, run);
    LeadsThrough(start, es, begun, more, repo.State(run));
    es := es + more;
    if Inv(begun) {
      NoBeginsKeeps(begun, more, repo.State(run));
    }
  }

  lemma CannotBegin(g: Graph, log: seq<LogEntry>, target: Hash, recipients: set<string>)
    requires Dag(g)
    ensures target !in g || !Resumable(g, log) ==> !CanMirror(g, log, target, recipients)
  {
  }

  /** What is known when a job begins. */
  lemma JobBegins(r: Repo, target: Hash, recipients: set<string>, todo: seq<Hash>)
    requires Sane(r.graph) && r.run.Idle? && target in r.graph && Resumable(r.graph, r.log)
    requires Walked(r.graph, ResumePoint(r.log), target, todo)
    ensures var begun := r.(run := Running(target, recipients, todo, map[], Top));
            && Leads(r, [Begin(target, recipients, todo)], begun)
            && (Inv(r) && Tidy(r.graph, r.log, target) ==> Inv(begun))
    ensures forall i :: 0 <= i < |todo| ==> todo[i] in r.graph
    ensures CanMirror(r.graph, r.log, target, recipients) <==>
            forall i :: 0 <= i < |todo| ==> Mirrorable(r.graph[todo[i]].source, recipients)
  {
    WalkedLists(r.graph, ResumePoint(r.log), target, todo);
    AncestorsInGraph(r.graph, target);
    assert forall i :: 0 <= i < |todo| ==> todo[i] in todo;
    ListedMirrorable(r.graph, ResumePoint(r.log), target, recipients, todo);
    BeginStep(r, target, recipients, todo);
    hide Walked, Mirrorable, Enumerates, Ancestors;
    if Inv(r) && Tidy(r.graph, r.log, target) {
      BeginOrdered(r, target, recipients, todo);
    }
  }

  /** What a job that is about to push knows. */
  lemma ReadyToPush(r: Repo, es: seq<Event>, s: Repo)
    requires Leads(r, es, s) && Safe(r) && s.run.Running? && s.run.todo == []
    ensures Safe(s) && s.log != []
    ensures forall b :: b in s.remote ==> s.remote[b] <= s.log
  {
    ExecSafe(r, es);
  }

  /** A finished job leaves nothing missing, in whatever order it went. */
  lemma JobCovers(r: Repo, es: seq<Event>, s: Repo, todo: seq<Hash>)
    requires Inv(r) && Leads(r, es, s) && s.graph == r.graph && s.run.Running? && s.run.todo == []
    requires s.run.target in r.graph && Walked(r.graph, ResumePoint(r.log), s.run.target, todo)
    requires Sources(s.log) == Sources(r.log) + todo && (todo == [] ==> s.log == r.log)
    ensures Inv(s)
    ensures forall a :: a in Ancestors(r.graph, s.run.target) ==> a in Sources(s.log)
  {
    ExecSafe(r, es);
    FinishedCovers(r, s, s.run.target, todo);
  }

  lemma FetchedInv(r: Repo, fetched: Graph)
    requires Sane(fetched) && Extends(r.graph, fetched)
    ensures Inv(r) ==> Inv(r.(graph := fetched))
    ensures Safe(r) ==> Safe(r.(graph := fetched))
  {
    if Inv(r) {
      FetchKeeps(r, fetched);
    }
    if Safe(r) {
      FetchSafe(r, fetched);
    }
  }

  lemma EndsIdle(s: Repo, e: Event, t: Repo)
    requires Sane(s.graph) && s.run.Running? && s.run.stage.Top? && s.run.todo == []
    requires match e
      case Return => t == s.(run := Idle)
      case Stop(left) => t == s.(work := left, run := Idle)
      case Push(branch) => s.log != [] && (branch in s.remote ==> s.remote[branch] <= s.log) &&
                           t == s.(remote := s.remote[branch := s.log], run := Idle)
      case _ => false
    ensures Inv(s) ==> Inv(t)
  {
    if Inv(s) {
      StepKeeps(s, e, t);
    }
  }

  /** The end of a job whose commits are all mirrored: the push, if a destination is configured. */
  method Publish(repo: Repository, branch: string, pushing: bool, named: bool, faults: bool, ghost run: Run)
    returns (ok: bool, ghost es: seq<Event>)
    requires Sane(repo.graph) && run.Running? && run.stage.Top? && run.todo == []
    modifies repo`remote
    ensures Leads(old(repo.State(run)), es, repo.State(Idle))
    ensures repo.remote == old(repo.remote) || (pushing && repo.remote == old(repo.remote)[branch := repo.log])
    ensures ok && pushing ==> repo.remote == old(repo.remote)[branch := repo.log] && repo.log != []
    ensures old(Inv(repo.State(run))) ==> Inv(repo.State(Idle))
    ensures !faults && repo.log != [] && (forall b :: b in old(repo.remote) ==> old(repo.remote)[b] <= repo.log) ==>
              (ok <==> (pushing ==> named))
  {
    ghost var done := repo.State(run);
    assert Exec(done, []) == Some(done) && [] + [Return] == [Return];
    hide Exec, Apply, Inv, Sane;
    if !pushing {
      ReturnStep(done, [], done);
      EndsIdle(done, Return, done.(run := Idle));
      ok, es := true, [] + [Return];
      return;
    }
    var fault := Fault(faults);
    if !named || fault || repo.log == [] || (branch in repo.remote && !(repo.remote[branch] <= repo.log)) {
      StopLeads(done, [], done, done.work);
      EndsIdle(done, Stop(done.work), done.(run := Idle));
      ok, es := false, [] + [Stop(done.work)];
      return;
    }
    PushStep(done, [], done, branch);
    repo.remote := repo.remote[branch := repo.log];
    EndsIdle(done, Push(branch), done.(remote := repo.remote, run := Idle));
    es := [] + [Push(branch)];
    fault := Fault(faults);
    ok := !fault;
  }

  /**
   * The job handler: update the mirror, extend the encrypted history, and push it as the job's
   * branch. `pushing` says whether a destination is configured, `named` whether its name resolves.
   */
  method HandleJob(repo: Repository, fetched: Graph, target: Hash, branch: string, recipients: set<string>,
                   pushing: bool, named: bool, faults: bool)
    returns (ok: bool, ghost es: seq<Event>)
    requires Sane(repo.graph) && Sane(fetched) && Extends(repo.graph, fetched)
    modifies repo, repo.dir
    ensures GitPart(repo.dir.files) == old(GitPart(repo.dir.files))
    ensures Leads(old(repo.State(Idle)), es, repo.State(Idle))
    ensures repo.remote == old(repo.remote) || (pushing && repo.remote == old(repo.remote)[branch := repo.log])
    ensures ok ==> repo.graph == fetched && target in fetched
    ensures ok && pushing ==> repo.remote == old(repo.remote)[branch := repo.log] && repo.log != []
    ensures old(Inv(repo.State(Idle))) && (ok || Tidy(fetched, old(repo.log), target)) ==> Inv(repo.State(Idle))
    ensures old(Inv(repo.State(Idle))) && ok ==>
              forall a :: a in Ancestors(fetched, target) ==> a in Sources(repo.log)
    ensures old(Safe(repo.State(Idle))) && !faults ==>
              (ok <==> CanMirror(fetched, old(repo.log), target, recipients) && (pushing ==> named))
  {
    ghost var start := repo.State(Idle);
    ok, es := false, [];
    assert Leads(start, [], start);
    var fault := Fault(faults);
    if fault {
      return;
    }
    repo.graph := fetched;
    FetchStep(start, fetched);
    FetchedInv(start, fetched);
    es := [Fetch(fetched)];
    hide Exec, Apply, LoopStep, Sane, AllMirrorable, Walked, GitPart, Tracked, Extends, Inv, Safe, Ancestors, Tidy, CanMirror;
    ghost var begun := repo.State(Idle);
    var updated, processed;
    ghost var more, run, todo;
    updated, processed, more, run, todo := UpdateEncryptedHistory(repo, target, recipients, faults);
    ghost var done := repo.State(run);
    LeadsThrough(start, es, begun, more, done);
    es := es + more;
    if !updated {
      return;
    }
    if Safe(begun) {
      ReadyToPush(begun, more, done);
    }
    if Inv(begun) {
      JobCovers(begun, more, done, todo);
    }
    ghost var end;
    ok, end := Publish(repo, branch, pushing, named, faults, run);
    LeadsThrough(start, es, done, end, repo.State(Idle));
    es := es + end;
  }
}
