/** Sequences of jobs on one repository, each stopped after some commits or run to its end. */
module Jobs {
  import opened Files
  import opened Trailer
  import opened History
  import opened RevList
  import opened Mirror
  import opened Runs
  import opened Once

  /** Every commit of `scope` can be mirrored, and has a message that lets its trailer be read back. */
  ghost predicate CanMirrorAll(g: Graph, scope: set<Hash>, keys: set<string>) {
    Sane(g) && forall h :: h in scope ==> h in g && Legible(g[h].message) && Mirrorable(g[h].source, keys)
  }

  /** A repository that has only been fetched. */
  function Fetched(g: Graph): Repo {
    Repo(g, [], map[], map[], Idle)
  }

  /** The run leads from there to a state without a job, whose history mirrors these commits of `scope`. */
  ghost predicate HasMirrored(g: Graph, scope: set<Hash>, keys: set<string>, es: seq<Event>, r: Repo, sources: seq<Hash>) {
    && CanMirrorAll(g, scope, keys) && (forall h :: h in sources ==> h in scope)
    && Leads(Fetched(g), es, r) && r.graph == g && r.run.Idle? && Sources(r.log) == sources
  }

  lemma MirroredState(g: Graph, scope: set<Hash>, keys: set<string>, es: seq<Event>, r: Repo, sources: seq<Hash>)
    requires HasMirrored(g, scope, keys, es, r, sources)
    ensures r.run.Idle? && r.graph == g && Sources(r.log) == sources && Sane(g) && CanMirrorAll(g, scope, keys)
  {
  }

  lemma NothingMirrored(g: Graph, scope: set<Hash>, keys: set<string>)
    requires CanMirrorAll(g, scope, keys)
    ensures HasMirrored(g, scope, keys, [], Fetched(g), [])
  {
    assert Exec(Fetched(g), []) == Some(Fetched(g));
  }

  /** The next job resumes at the last commit mirrored. */
  lemma ResumesAtLast(g: Graph, scope: set<Hash>, keys: set<string>, es: seq<Event>, r: Repo, sources: seq<Hash>)
    requires HasMirrored(g, scope, keys, es, r, sources)
    ensures Reachable(r, Fetched(g), es) && Resumable(g, r.log)
    ensures ResumePoint(r.log) == if sources == [] then "" else LastOf(sources)
  {
    ReachableSafe(r, Fetched(g), es);
    assert forall i :: 0 <= i < |r.log| ==> EntryOk(g, r.log[i]);
    assert sources != [] ==> LastOf(sources) in sources;
    hide Safe, Exec, SaneCommit, EntryOk, Mirrorable;
    ResumesAt(g, r.log);
  }

  /** A walk for the target, resuming at the last commit mirrored, lists `todo`. */
  ghost predicate NextListing(g: Graph, scope: set<Hash>, sources: seq<Hash>, target: Hash, todo: seq<Hash>) {
    var from := if sources == [] then "" else LastOf(sources);
    && Dag(g) && target in g && Ancestors(g, target) <= scope
    && (from != "" ==> from in g) && Walked(g, from, target, todo)
  }

  lemma ListedInScope(g: Graph, scope: set<Hash>, keys: set<string>, sources: seq<Hash>, target: Hash, todo: seq<Hash>)
    requires CanMirrorAll(g, scope, keys) && NextListing(g, scope, sources, target, todo)
    ensures Sane(g) && target in g
    ensures AllMirrored(g, todo, keys) && forall i :: 0 <= i < |todo| ==> todo[i] in g
    ensures forall h :: h in todo ==> h in scope
  {
    var from := if sources == [] then "" else LastOf(sources);
    hide SaneCommit, Legible, Walked, Mirrorable;
    WalkedLists(g, from, target, todo);
    assert forall i :: 0 <= i < |todo| ==> todo[i] in todo;
  }

  /** What a job needs to begin. */
  lemma JobCanBegin(g: Graph, scope: set<Hash>, keys: set<string>, es: seq<Event>, r: Repo, sources: seq<Hash>, target: Hash, todo: seq<Hash>)
    requires HasMirrored(g, scope, keys, es, r, sources) && NextListing(g, scope, sources, target, todo)
    ensures Sane(g) && target in g && Resumable(g, r.log) && Walked(g, ResumePoint(r.log), target, todo)
    ensures r.graph == g && r.run.Idle? && Sources(r.log) == sources && Leads(Fetched(g), es, r)
  {
    ResumesAtLast(g, scope, keys, es, r, sources);
    hide Exec, SaneCommit, Legible, Walked, Mirrorable, Ancestors, Resumable, ResumePoint, Reachable, Sources;
  }

  lemma MirroredMore(g: Graph, scope: set<Hash>, keys: set<string>, es: seq<Event>, r: Repo, sources: seq<Hash>, more: seq<Event>, s: Repo, l: seq<Hash>)
    requires HasMirrored(g, scope, keys, es, r, sources) && Leads(r, more, s) && (forall h :: h in l ==> h in scope)
    requires s.graph == g && s.run.Idle? && Sources(s.log) == sources + l
    ensures HasMirrored(g, scope, keys, es + more, s, sources + l)
  {
    hide Sane, Exec, Legible, Mirrorable, Sources;
    LeadsThrough(Fetched(g), es, r, more, s);
  }

  /** One more job, stopped after `n` commits or run to its end. */
  lemma JobMirrors(g: Graph, scope: set<Hash>, keys: set<string>, es: seq<Event>, r: Repo, sources: seq<Hash>, target: Hash, todo: seq<Hash>, n: nat)
    returns (more: seq<Event>, s: Repo)
    requires HasMirrored(g, scope, keys, es, r, sources) && NextListing(g, scope, sources, target, todo) && n <= |todo|
    ensures HasMirrored(g, scope, keys, es + more, s, sources + todo[..n])
    ensures n == |todo| ==> NeverStopped(more)
    ensures JobsFor(more, target)
  {
    hide NextListing, HasMirrored, CanMirrorAll, Walked, AllMirrored, Sane, Apply, Exec, Resumable, ResumePoint, Sources, Leads,
      JobEvents, NeverStopped, JobsFor;
    MirroredState(g, scope, keys, es, r, sources);
    JobCanBegin(g, scope, keys, es, r, sources, target, todo);
    ListedInScope(g, scope, keys, sources, target, todo);
    s := JobRuns(r, target, keys, todo, n);
    EventsOnly(g, target, keys, todo, n);
    more := JobEvents(g, target, keys, todo, n);
    MirroredMore(g, scope, keys, es, r, sources, more, s, todo[..n]);
  }

  /** All jobs of the run are for this target, and nothing is fetched. */
  ghost predicate JobsFor(es: seq<Event>, target: Hash) {
    forall i :: 0 <= i < |es| ==> (es[i].Begin? ==> es[i].target == target) && !es[i].Fetch?
  }

  lemma EventsOnly(g: Graph, target: Hash, keys: set<string>, todo: seq<Hash>, n: nat)
    requires n <= |todo| && forall i :: 0 <= i < |todo| ==> todo[i] in g
    ensures n == |todo| ==> NeverStopped(JobEvents(g, target, keys, todo, n))
    ensures JobsFor(JobEvents(g, target, keys, todo, n), target)
  {
    TurnsOnly(g, todo[..n]);
  }

  /** The turns of a job neither stop, begin nor fetch. */
  lemma {:induction false} TurnsOnly(g: Graph, l: seq<Hash>)
    requires forall i :: 0 <= i < |l| ==> l[i] in g
    ensures NeverStopped(Turns(g, l)) && forall i :: 0 <= i < |Turns(g, l)| ==> !Turns(g, l)[i].Begin? && !Turns(g, l)[i].Fetch?
  {
    if l != [] {
      TurnsOnly(g, l[1..]);
    }
  }
}
