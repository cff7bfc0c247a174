/** Runs of the mirroring machine, put together step by step. */
module Runs {
  import opened Files
  import opened Trees
  import opened Engine
  import opened Archive
  import opened History
  import opened RevList
  import opened Mirror

  /** The export accepts the commit's tree, and the encryption its exported form. */
  ghost predicate Mirrorable(source: Source, recipients: set<string>) {
    && Exportable(Flatten(source.tree, []), source.admitted)
    && EncryptInto(map[], source.tree, source.ignoreRead, recipients).Some?
  }

  ghost predicate Leads(r: Repo, es: seq<Event>, s: Repo) {
    Sane(r.graph) && Sane(s.graph) && Exec(r, es) == Some(s)
  }

  ghost predicate NoBegins(es: seq<Event>) {
    forall i :: 0 <= i < |es| ==> !es[i].Begin?
  }

  lemma LeadsSane(r: Repo, es: seq<Event>, s: Repo)
    requires Leads(r, es, s)
    ensures Sane(r.graph) && Sane(s.graph)
  {
  }

  lemma LeadsFurther(r: Repo, es: seq<Event>, s: Repo, e: Event, t: Repo)
    requires Leads(r, es, s) && Apply(s, e) == Some(t)
    ensures Leads(r, es + [e], t)
  {
    ExecConcat(r, es, [e]);
    assert [e][1..] == [];
    assert Exec(t, []) == Some(t);
  }

  lemma StopLeads(r: Repo, es: seq<Event>, s: Repo, left: Files)
    requires Leads(r, es, s) && s.run.Running?
    ensures Leads(r, es + [Stop(left)], s.(work := left, run := Idle))
    ensures NoBegins(es) ==> NoBegins(es + [Stop(left)])
  {
    LeadsFurther(r, es, s, Stop(left), s.(work := left, run := Idle));
  }

  lemma LeadsThrough(r: Repo, a: seq<Event>, s: Repo, b: seq<Event>, t: Repo)
    requires Leads(r, a, s) && Leads(s, b, t)
    ensures Leads(r, a + b, t)
  {
    ExecConcat(r, a, b);
  }

  lemma BeginStep(r: Repo, target: Hash, recipients: set<string>, todo: seq<Hash>)
    requires Sane(r.graph) && r.run.Idle? && target in r.graph && Resumable(r.graph, r.log)
    requires Walked(r.graph, ResumePoint(r.log), target, todo)
    ensures Leads(r, [Begin(target, recipients, todo)], r.(run := Running(target, recipients, todo, map[], Top)))
  {
    assert Exec(r, []) == Some(r);
    LeadsFurther(r, [], r, Begin(target, recipients, todo), r.(run := Running(target, recipients, todo, map[], Top)));
  }

  lemma FetchStep(r: Repo, fetched: Graph)
    requires Sane(r.graph) && Sane(fetched) && Extends(r.graph, fetched)
    ensures Leads(r, [Fetch(fetched)], r.(graph := fetched))
  {
    assert Exec(r, []) == Some(r);
    LeadsFurther(r, [], r, Fetch(fetched), r.(graph := fetched));
  }

  lemma PushStep(r: Repo, es: seq<Event>, s: Repo, branch: string)
    requires Leads(r, es, s) && s.run.Running? && s.run.stage.Top? && s.run.todo == [] && s.log != []
    requires branch in s.remote ==> s.remote[branch] <= s.log
    ensures Leads(r, es + [Push(branch)], s.(remote := s.remote[branch := s.log], run := Idle))
  {
    LeadsFurther(r, es, s, Push(branch), s.(remote := s.remote[branch := s.log], run := Idle));
  }

  lemma ReturnStep(r: Repo, es: seq<Event>, s: Repo)
    requires Leads(r, es, s) && s.run.Running? && s.run.stage.Top? && s.run.todo == []
    ensures Leads(r, es + [Return], s.(run := Idle))
  {
    LeadsFurther(r, es, s, Return, s.(run := Idle));
  }

  /** `s`, reached from `r`, is at `stage` of the turn for `h`. */
  ghost predicate At(r: Repo, es: seq<Event>, s: Repo, stage: Stage, h: Hash) {
    Leads(r, es, s) && NoBegins(es) && s.run.Running? && s.run.stage == stage && s.run.todo != [] && s.run.todo[0] == h && h in s.graph
  }

  lemma ScratchStep(r: Repo, es: seq<Event>, s: Repo, h: Hash)
    requires At(r, es, s, Top, h)
    ensures At(r, es + [RemoveScratch], s.(run := s.run.(scratch := map[], stage := ScratchGone)), ScratchGone, h)
  {
    LeadsFurther(r, es, s, RemoveScratch, s.(run := s.run.(scratch := map[], stage := ScratchGone)));
  }

  lemma ExportStep(r: Repo, es: seq<Event>, s: Repo, h: Hash, disk: Files)
    requires At(r, es, s, ScratchGone, h) && s.run.scratch == map[]
    requires disk == Flatten(s.graph[h].source.tree, []) && Exportable(disk, s.graph[h].source.admitted)
    ensures At(r, es + [Export], s.(run := s.run.(scratch := disk, stage := Exported)), Exported, h)
  {
    assert map[] + disk == disk;
    LeadsFurther(r, es, s, Export, s.(run := s.run.(scratch := disk, stage := Exported)));
  }

  lemma ClearStep(r: Repo, es: seq<Event>, s: Repo, h: Hash)
    requires At(r, es, s, Exported, h)
    ensures At(r, es + [ClearWork], s.(work := map[], run := s.run.(stage := WorkCleared)), WorkCleared, h)
  {
    LeadsFurther(r, es, s, ClearWork, s.(work := map[], run := s.run.(stage := WorkCleared)));
  }

  lemma EncryptStep(r: Repo, es: seq<Event>, s: Repo, h: Hash, tree: Tree, files: Files)
    requires At(r, es, s, WorkCleared, h) && s.work == map[]
    requires WellFormed(tree) && Flatten(tree, []) == s.run.scratch
    requires EncryptInto(map[], tree, s.graph[h].source.ignoreRead, s.run.recipients) == Some(files)
    ensures At(r, es + [Mirror.Encrypt(tree)], s.(work := files, run := s.run.(stage := Encrypted)), Encrypted, h)
  {
    LeadsFurther(r, es, s, Mirror.Encrypt(tree), s.(work := files, run := s.run.(stage := Encrypted)));
  }

  lemma CommitStep(r: Repo, es: seq<Event>, s: Repo, h: Hash, t: Repo)
    requires At(r, es, s, Encrypted, h)
    requires t == s.(log := s.log + [NewEntry(s.graph, h, s.work, s.run.recipients)],
                     run := s.run.(todo := s.run.todo[1..], stage := Top))
    ensures Leads(r, es + [CommitAll], t) && NoBegins(es + [CommitAll]) && Sources(t.log) == Sources(s.log) + [h]
  {
    LeadsFurther(r, es, s, CommitAll, t);
  }

  lemma {:induction false} NoBeginsOrdered(r: Repo, es: seq<Event>)
    requires Sane(r.graph) && NoBegins(es)
    ensures OrderedRun(r, es)
    decreases |es|
  {
    if es != [] && Apply(r, es[0]).Some? {
      assert forall i :: 0 <= i < |es[1..]| ==> es[1..][i] == es[i + 1];
      hide Apply;
      NoBeginsOrdered(Apply(r, es[0]).value, es[1..]);
    }
  }

  /** While no job begins the invariant is kept. */
  lemma NoBeginsKeeps(r: Repo, es: seq<Event>, s: Repo)
    requires Inv(r) && Leads(r, es, s) && NoBegins(es)
    ensures Inv(s)
  {
    NoBeginsOrdered(r, es);
    ExecKeeps(r, es);
  }

  /** A job that begins with ancestors first keeps it too. */
  lemma BeginOrdered(r: Repo, target: Hash, recipients: set<string>, todo: seq<Hash>)
    requires Inv(r) && r.run.Idle? && target in r.graph
    requires Walked(r.graph, ResumePoint(r.log), target, todo) && Orderly(r.graph, ResumePoint(r.log), target)
    ensures Inv(r.(run := Running(target, recipients, todo, map[], Top)))
  {
    OrderlyLists(r.graph, ResumePoint(r.log), target, todo);
    StepKeeps(r, Begin(target, recipients, todo), r.(run := Running(target, recipients, todo, map[], Top)));
  }

  lemma AllThere(g: Graph, log: seq<LogEntry>, more: seq<LogEntry>, target: Hash, todo: seq<Hash>)
    requires Dag(g) && Covered(g, log) && target in g && Enumerates(g, ResumePoint(log), target, todo)
    requires Sources(more) == Sources(log) + todo
    ensures forall a :: a in Ancestors(g, target) ==> a in Sources(more)
    ensures forall a :: a in Sources(log) ==> a in Sources(more)
  {
    forall a | a in Ancestors(g, target) ensures a in Sources(more) {
      assert a in Known(g, ResumePoint(log)) || a in todo;
    }
  }

  /** The head of a finished history is the target, or what it was. */
  lemma FinishedHead(g: Graph, log: seq<LogEntry>, more: seq<LogEntry>, target: Hash, todo: seq<Hash>)
    requires Sane(g) && (forall i :: 0 <= i < |more| ==> EntryOk(g, more[i]))
    requires Sources(more) == Sources(log) + todo && todo != [] && todo[|todo| - 1] == target
    ensures ResumePoint(more) == "" || ResumePoint(more) == target
  {
    var n := |more| - 1;
    assert |Sources(more)| == n + 1;
    assert more[n].source == Sources(more)[n] == target;
    assert EntryOk(g, more[n]);
    ResumePointIs(g, more);
  }

  /** In whatever order a job has processed its commits, once it has processed all of them nothing is missing. */
  lemma FinishedCovers(r: Repo, s: Repo, target: Hash, todo: seq<Hash>)
    requires Inv(r) && Safe(s) && s.graph == r.graph && target in r.graph
    requires Walked(r.graph, ResumePoint(r.log), target, todo)
    requires Sources(s.log) == Sources(r.log) + todo && (todo == [] ==> s.log == r.log)
    requires s.run.Running? ==> s.run.target == target && s.run.todo == []
    ensures Inv(s)
    ensures forall a :: a in Ancestors(r.graph, target) ==> a in Sources(s.log)
  {
    var g := r.graph;
    assert Sane(g) && Covered(g, r.log) && Resumable(g, s.log);
    WalkedLists(g, ResumePoint(r.log), target, todo);
    AllThere(g, r.log, s.log, target, todo);
    if todo != [] {
      FinishedHead(g, r.log, s.log, target, todo);
    }
    hide Safe, Walked, Enumerates, SaneCommit, Sources, ResumePoint;
    assert Covered(g, s.log);
  }

  // ---------------------------------------------------------------- whole jobs

  function Turn(tree: Tree): seq<Event> {
    [RemoveScratch, Export, ClearWork, Mirror.Encrypt(tree), CommitAll]
  }

  /** A turn of the loop on a commit that can be mirrored. */
  lemma TurnRuns(r: Repo, h: Hash) returns (s: Repo)
    requires Sane(r.graph) && r.run.Running? && r.run.stage.Top? && r.run.todo != [] && r.run.todo[0] == h && h in r.graph
    requires Mirrorable(r.graph[h].source, r.run.recipients)
    ensures Leads(r, Turn(r.graph[h].source.tree), s)
    ensures Sources(s.log) == Sources(r.log) + [h] && s.graph == r.graph && s.remote == r.remote
    ensures s.run == r.run.(todo := r.run.todo[1..], scratch := Flatten(r.graph[h].source.tree, []))
  {
    var source := r.graph[h].source;
    var disk := Flatten(source.tree, []);
    var files := EncryptInto(map[], source.tree, source.ignoreRead, r.run.recipients).value;
    assert SaneCommit(r.graph, h);
    assert At(r, [], r, Top, h) by {
      assert Exec(r, []) == Some(r);
    }
    hide Exec, Apply, LoopStep, Sane, Flatten, EncryptInto, Exportable, NewEntry, Leads, Sources;
    var s1 := r.(run := r.run.(scratch := map[], stage := ScratchGone));
    ScratchStep(r, [], r, h);
    var s2 := s1.(run := s1.run.(scratch := disk, stage := Exported));
    ExportStep(r, [] + [RemoveScratch], s1, h, disk);
    var s3 := s2.(work := map[], run := s2.run.(stage := WorkCleared));
    ClearStep(r, [] + [RemoveScratch] + [Export], s2, h);
    var s4 := s3.(work := files, run := s3.run.(stage := Encrypted));
    EncryptStep(r, [] + [RemoveScratch] + [Export] + [ClearWork], s3, h, source.tree, files);
    s := s4.(log := s4.log + [NewEntry(s4.graph, h, s4.work, s4.run.recipients)],
             run := s4.run.(todo := s4.run.todo[1..], stage := Top));
    CommitStep(r, [] + [RemoveScratch] + [Export] + [ClearWork] + [Mirror.Encrypt(source.tree)], s4, h, s);
    assert [] + [RemoveScratch] + [Export] + [ClearWork] + [Mirror.Encrypt(source.tree)] + [CommitAll] == Turn(source.tree);
  }

  ghost predicate AllMirrored(g: Graph, l: seq<Hash>, recipients: set<string>) {
    forall i :: 0 <= i < |l| ==> l[i] in g && Mirrorable(g[l[i]].source, recipients)
  }

  function Turns(g: Graph, l: seq<Hash>): seq<Event>
    requires forall i :: 0 <= i < |l| ==> l[i] in g
  {
    if l == [] then [] else Turn(g[l[0]].source.tree) + Turns(g, l[1..])
  }

  lemma AllMirroredRest(g: Graph, l: seq<Hash>, recipients: set<string>)
    requires AllMirrored(g, l, recipients) && l != []
    ensures l[0] in g && Mirrorable(g[l[0]].source, recipients) && AllMirrored(g, l[1..], recipients)
  {
  }

  lemma PrefixRest(l: seq<Hash>, todo: seq<Hash>)
    requires l <= todo && l != []
    ensures todo[0] == l[0] && l[1..] <= todo[1..] && todo[1..][|l| - 1..] == todo[|l|..]
  {
    assert todo[..|l|] == l;
    assert todo[1..][..|l| - 1] == l[1..];
  }

  lemma PutFirst(a: seq<Hash>, l: seq<Hash>)
    requires l != []
    ensures (a + [l[0]]) + l[1..] == a + l
  {
  }

  lemma {:induction false} TurnsRun(r: Repo, l: seq<Hash>) returns (s: Repo)
    requires Sane(r.graph) && r.run.Running? && r.run.stage.Top? && l <= r.run.todo
    requires AllMirrored(r.graph, l, r.run.recipients)
    ensures Leads(r, Turns(r.graph, l), s) && Sources(s.log) == Sources(r.log) + l
    ensures s.graph == r.graph && s.remote == r.remote
    ensures s.run.Running? && s.run.stage.Top? && s.run.todo == r.run.todo[|l|..]
    ensures s.run.target == r.run.target && s.run.recipients == r.run.recipients
    decreases |l|
  {
    if l == [] {
      s := r;
      assert Exec(r, []) == Some(r);
    } else {
      AllMirroredRest(r.graph, l, r.run.recipients);
      PrefixRest(l, r.run.todo);
      hide Mirrorable, AllMirrored, Exec, Turn, Flatten, Sane, Leads, Apply, Sources;
      var m := TurnRuns(r, l[0]);
      LeadsSane(r, Turn(r.graph[l[0]].source.tree), m);
      s := TurnsRun(m, l[1..]);
      LeadsThrough(r, Turn(r.graph[l[0]].source.tree), m, Turns(m.graph, l[1..]), s);
      PutFirst(Sources(r.log), l);
    }
  }

  /** A job for which `n` of its commits are processed before it stops, or all before it returns. */
  function JobEvents(g: Graph, target: Hash, recipients: set<string>, todo: seq<Hash>, n: nat): seq<Event>
    requires n <= |todo| && forall i :: 0 <= i < |todo| ==> todo[i] in g
  {
    [Begin(target, recipients, todo)] + Turns(g, todo[..n]) + if n < |todo| then [Stop(map[])] else [Return]
  }

  lemma JobRuns(r: Repo, target: Hash, recipients: set<string>, todo: seq<Hash>, n: nat) returns (s: Repo)
    requires Sane(r.graph) && r.run.Idle? && target in r.graph && Resumable(r.graph, r.log)
    requires Walked(r.graph, ResumePoint(r.log), target, todo) && n <= |todo|
    requires AllMirrored(r.graph, todo, recipients)
    ensures Leads(r, JobEvents(r.graph, target, recipients, todo, n), s)
    ensures Sources(s.log) == Sources(r.log) + todo[..n] && s.graph == r.graph && s.run.Idle?
  {
    BeginStep(r, target, recipients, todo);
    var b := r.(run := Running(target, recipients, todo, map[], Top));
    hide Exec, Turns, Mirrorable, Sane, Walked, Resumable;
    var m := TurnsRun(b, todo[..n]);
    var so := [Begin(target, recipients, todo)] + Turns(r.graph, todo[..n]);
    LeadsThrough(r, [Begin(target, recipients, todo)], b, Turns(b.graph, todo[..n]), m);
    if n < |todo| {
      StopLeads(r, so, m, map[]);
      s := m.(work := map[], run := Idle);
    } else {
      ReturnStep(r, so, m);
      s := m.(run := Idle);
    }
  }
}
