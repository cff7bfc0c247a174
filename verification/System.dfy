/** All repositories at once: several workers mirror different repositories on one cache directory. */
module System {
  import opened Files
  import opened Names
  import opened History
  import opened Mirror

  /** A directory of the cache: a bare mirror, or an encrypted repository with its working tree. */
  datatype Dir = Bare(graph: Graph) | Working(log: seq<LogEntry>, work: Files)

  /** The cache directory, the branches at each destination, and the jobs. */
  datatype World = World(
    cache: map<Path, Dir>,
    remotes: map<Key, map<string, seq<LogEntry>>>,
    runs: map<Key, Run>)

  /** The configuration and the repositories it serves. */
  datatype Setup = Setup(config: Config, keys: set<Key>)

  /** One step of the job of one repository. */
  datatype Step = Step(key: Key, event: Event)

  /** Names are valid and no two repositories share a destination. */
  ghost predicate Apart(s: Setup) {
    && (forall k :: k in s.keys ==> ValidKey(k))
    && (forall k, l :: k in s.keys && l in s.keys && k != l && Destination(s.config, k).Some? ==>
          Destination(s.config, k) != Destination(s.config, l))
  }

  /**
   * Joined names keep destinations apart if and only if no owner is another one's name with a dash and
   * more, whatever repositories they have; mapping owners to other accounts can only help.
   */
  lemma JoinedApartIff(c: Config, owners: set<Name>)
    requires c.repoNameFormat == JOINED && c.ownerMap == map[] && ValidName(c.owner)
    requires forall o :: o in owners ==> ValidName(o)
    ensures (forall o, p :: o in owners && p in owners && o != p ==> !Extended(o, p)) <==>
            forall keys: set<Key> {:trigger Apart(Setup(c, keys))} ::
              (forall k :: k in keys ==> ValidKey(k) && k.owner in owners) ==> Apart(Setup(c, keys))
  {
    if forall o, p :: o in owners && p in owners && o != p ==> !Extended(o, p) {
      forall keys: set<Key> | forall k :: k in keys ==> ValidKey(k) && k.owner in owners
        ensures Apart(Setup(c, keys)) {
        JoinedApart(c, keys);
      }
    } else {
      var o, p :| o in owners && p in owners && o != p && Extended(o, p);
      JoinedCollideIff(o, p);
      var r, s :| ValidName(r) && ValidName(s) && Replace(JOINED, o, r) == Replace(JOINED, p, s);
      JoinedValid(o, r);
      var keys := {Key(o, r), Key(p, s)};
      assert Destination(c, Key(o, r)) == Destination(c, Key(p, s)) && Destination(c, Key(o, r)).Some?;
      assert !Apart(Setup(c, keys));
    }
  }

  lemma JoinedValid(o: Name, r: Name)
    requires ValidName(o) && ValidName(r)
    ensures ValidName(Replace(JOINED, o, r))
  {
    JoinedName(o, r);
    var s := o + "-" + r;
    assert s[|o|] == '-';
    forall i | 0 <= i < |s| ensures NameChar(s[i]) {
      assert s[i] == if i < |o| then o[i] else if i == |o| then '-' else r[i - |o| - 1];
    }
  }

  lemma JoinedApart(c: Config, keys: set<Key>)
    requires forall k :: k in keys ==> ValidKey(k)
    requires c.repoNameFormat == JOINED
    requires forall k, l :: k in keys && l in keys && k.owner != l.owner ==> !Extended(k.owner, l.owner)
    ensures Apart(Setup(c, keys))
  {
    forall k, l | k in keys && l in keys && k != l && Destination(c, k).Some?
      ensures Destination(c, k) != Destination(c, l) {
      if Replace(JOINED, k.owner, k.repo) == Replace(JOINED, l.owner, l.repo) {
        if k.owner != l.owner {
          JoinedCollideIff(k.owner, l.owner);
        }
        JoinedSame(k, l);
      }
    }
  }

  lemma JoinedSame(k: Key, l: Key)
    requires Replace(JOINED, k.owner, k.repo) == Replace(JOINED, l.owner, l.repo) && k.owner == l.owner
    ensures k == l
  {
    JoinedName(k.owner, k.repo);
    JoinedName(l.owner, l.repo);
    var n := |k.owner| + 1;
    assert k.repo == (k.owner + "-" + k.repo)[n..] && l.repo == (l.owner + "-" + l.repo)[n..];
  }

  /** With unchanged names destinations are apart if and only if repositories of one name go to different accounts. */
  lemma UnchangedApartIff(c: Config, keys: set<Key>)
    requires forall k :: k in keys ==> ValidKey(k)
    requires Format(c) == REPO_MARK
    ensures Apart(Setup(c, keys)) <==>
            forall k, l :: k in keys && l in keys && k != l && k.repo == l.repo && ValidName(DestOwner(c, k.owner)) ==>
              DestOwner(c, k.owner) != DestOwner(c, l.owner)
  {
    forall k: Key ensures Replace(Format(c), k.owner, k.repo) == k.repo {
      NoRest(k.owner, k.repo);
    }
  }

  function GraphAt(cache: map<Path, Dir>, p: Path): Graph {
    if p in cache && cache[p].Bare? then cache[p].graph else map[]
  }

  function WorkingAt(cache: map<Path, Dir>, p: Path): Dir {
    if p in cache && cache[p].Working? then cache[p] else Working([], map[])
  }

  function BranchesAt(remotes: map<Key, map<string, seq<LogEntry>>>, d: Option<Key>): map<string, seq<LogEntry>> {
    if d.Some? && d.value in remotes then remotes[d.value] else map[]
  }

  /** What a worker mirroring `k` sees of the world. */
  function View(s: Setup, w: World, k: Key): Repo {
    var enc := WorkingAt(w.cache, EncryptedPath(k));
    Repo(
      GraphAt(w.cache, LocalPath(k)),
      if enc.Working? then enc.log else [],
      if enc.Working? then enc.work else map[],
      BranchesAt(w.remotes, Destination(s.config, k)),
      if k in w.runs then w.runs[k] else Idle)
  }

  /** The world after that worker has changed what it works on. */
  function Put(s: Setup, w: World, k: Key, r: Repo): World {
    World(
      w.cache[LocalPath(k) := Bare(r.graph)][EncryptedPath(k) := Working(r.log, r.work)],
      match Destination(s.config, k) case Some(d) => w.remotes[d := r.remote] case None => w.remotes,
      w.runs[k := r.run])
  }

  ghost predicate Sound(s: Setup, w: World) {
    Apart(s) && forall k {:trigger View(s, w, k)} :: k in s.keys ==> Sane(View(s, w, k).graph)
  }

  /** A worker's step reads and writes only its own directories, and a push needs a destination. */
  ghost function Work(s: Setup, w: World, step: Step): (next: Option<World>)
    requires Sound(s, w)
    ensures next.Some? ==> Sound(s, next.value)
  {
    if step.key !in s.keys || (step.event.Push? && Destination(s.config, step.key).None?) then None
    else match Apply(View(s, w, step.key), step.event)
      case None => None
      case Some(r) => Isolated(s, w, step.key, step.event, r); Some(Put(s, w, step.key, r))
  }

  /** Writing back what a worker changed shows in its own view. */
  lemma PutShows(s: Setup, w: World, k: Key, r: Repo)
    requires ValidKey(k)
    requires Destination(s.config, k).None? ==> r.remote == map[]
    ensures View(s, Put(s, w, k, r), k) == r
  {
    PlacesApart(k, k);
    assert LocalPath(k) != EncryptedPath(k);
    hide LocalPath, EncryptedPath, Destination, Inside, Clash, ValidKey;
  }

  lemma LookElsewhere(cache: map<Path, Dir>, p: Path, d: Dir, q: Path, e: Dir, r: Path)
    requires r != p && r != q
    ensures GraphAt(cache[p := d][q := e], r) == GraphAt(cache, r)
    ensures WorkingAt(cache[p := d][q := e], r) == WorkingAt(cache, r)
  {
  }

  /** It shows in no other view: the places and destinations differ. */
  lemma PutHidden(s: Setup, w: World, k: Key, r: Repo, l: Key)
    requires Apart(s) && k in s.keys && l in s.keys && l != k
    ensures View(s, Put(s, w, k, r), l) == View(s, w, l)
  {
    PlacesApart(k, l);
    PlacesApart(l, k);
    LookElsewhere(w.cache, LocalPath(k), Bare(r.graph), EncryptedPath(k), Working(r.log, r.work), LocalPath(l));
    LookElsewhere(w.cache, LocalPath(k), Bare(r.graph), EncryptedPath(k), Working(r.log, r.work), EncryptedPath(l));
    assert Destination(s.config, k).Some? ==> Destination(s.config, k) != Destination(s.config, l);
    hide LocalPath, EncryptedPath, Destination, Inside, Clash, ValidKey, Apart, GraphAt, WorkingAt;
  }

  lemma OnlyPushReaches(r: Repo, e: Event, next: Repo)
    requires Sane(r.graph) && Apply(r, e) == Some(next) && !e.Push?
    ensures next.remote == r.remote
  {
  }

  /** A step of one repository's job shows in its own view and in no other. */
  lemma Isolated(s: Setup, w: World, k: Key, e: Event, r: Repo)
    requires Sound(s, w) && k in s.keys && Apply(View(s, w, k), e) == Some(r)
    requires e.Push? ==> Destination(s.config, k).Some?
    ensures View(s, Put(s, w, k, r), k) == r && Sane(r.graph)
    ensures forall l :: l in s.keys && l != k ==> View(s, Put(s, w, k, r), l) == View(s, w, l)
  {
    if !e.Push? {
      OnlyPushReaches(View(s, w, k), e, r);
    }
    hide Apply, Sane, Destination, View, Put, SaneCommit, Dag;
    PutShows(s, w, k, r);
    forall l | l in s.keys && l != k ensures View(s, Put(s, w, k, r), l) == View(s, w, l) {
      PutHidden(s, w, k, r, l);
    }
  }

  ghost function Play(s: Setup, w: World, steps: seq<Step>): (last: Option<World>)
    requires Sound(s, w)
    ensures last.Some? ==> Sound(s, last.value)
    decreases |steps|
  {
    if steps == [] then Some(w)
    else match Work(s, w, steps[0])
      case None => None
      case Some(next) => Play(s, next, steps[1..])
  }

  /** The steps of one repository's jobs. */
  function Of(steps: seq<Step>, k: Key): seq<Event> {
    if steps == [] then []
    else (if steps[0].key == k then [steps[0].event] else []) + Of(steps[1..], k)
  }

  // ---------------------------------------------------------------- workers do not disturb each other

  /** Seen from one repository, an interleaving is that repository's own steps. */
  lemma {:induction false} PlayedAlone(s: Setup, w: World, steps: seq<Step>, k: Key)
    requires Sound(s, w) && Play(s, w, steps).Some? && k in s.keys
    ensures Exec(View(s, w, k), Of(steps, k)) == Some(View(s, Play(s, w, steps).value, k))
    decreases |steps|
  {
    if steps != [] {
      var step := steps[0];
      var next := Work(s, w, step).value;
      Isolated(s, w, step.key, step.event, Apply(View(s, w, step.key), step.event).value);
      PlayedAlone(s, next, steps[1..], k);
      if step.key == k {
        assert Of(steps, k)[1..] == Of(steps[1..], k);
      } else {
        assert Of(steps, k) == Of(steps[1..], k);
      }
    }
  }

  ghost predicate Served(s: Setup, steps: seq<Step>) {
    forall i :: 0 <= i < |steps| ==>
      steps[i].key in s.keys && (steps[i].event.Push? ==> Destination(s.config, steps[i].key).Some?)
  }

  lemma {:induction false} PlayedServed(s: Setup, w: World, steps: seq<Step>)
    requires Sound(s, w) && Play(s, w, steps).Some?
    ensures Served(s, steps)
    decreases |steps|
  {
    if steps != [] {
      PlayedServed(s, Work(s, w, steps[0]).value, steps[1..]);
      assert forall i :: 0 < i < |steps| ==> steps[i] == steps[1..][i - 1];
    }
  }

  /** If each repository's own steps can be taken, so can any interleaving of them. */
  lemma {:induction false} PlayedTogether(s: Setup, w: World, steps: seq<Step>)
    requires Sound(s, w) && Served(s, steps)
    requires forall k :: k in s.keys ==> Exec(View(s, w, k), Of(steps, k)).Some?
    ensures Play(s, w, steps).Some?
    decreases |steps|
  {
    if steps != [] {
      var step := steps[0];
      var k := step.key;
      var rest := steps[1..];
      assert Of(steps, k) == [step.event] + Of(rest, k);
      assert Exec(View(s, w, k), Of(steps, k)).Some?;
      var r := Apply(View(s, w, k), step.event).value;
      Isolated(s, w, k, step.event, r);
      var next := Put(s, w, k, r);
      forall l | l in s.keys ensures Exec(View(s, next, l), Of(rest, l)).Some? {
        if l == k {
          assert Of(steps, k)[1..] == Of(rest, k);
        } else {
          assert Of(steps, l) == Of(rest, l);
          assert Exec(View(s, w, l), Of(steps, l)).Some?;
        }
      }
      PlayedTogether(s, next, rest);
    }
  }

  /**
   * Reordering: any other order of the same steps that keeps each repository's own order can be
   * taken too, and leaves every repository as it was left.
   */
  lemma Reordered(s: Setup, w: World, steps: seq<Step>, other: seq<Step>)
    requires Sound(s, w) && Play(s, w, steps).Some? && Served(s, other)
    requires forall k :: k in s.keys ==> Of(other, k) == Of(steps, k)
    ensures Play(s, w, other).Some?
    ensures forall k :: k in s.keys ==> View(s, Play(s, w, other).value, k) == View(s, Play(s, w, steps).value, k)
  {
    forall k | k in s.keys ensures Exec(View(s, w, k), Of(other, k)).Some? {
      PlayedAlone(s, w, steps, k);
    }
    PlayedTogether(s, w, other);
    forall k | k in s.keys ensures View(s, Play(s, w, other).value, k) == View(s, Play(s, w, steps).value, k) {
      PlayedAlone(s, w, steps, k);
      PlayedAlone(s, w, other, k);
    }
  }

  // ---------------------------------------------------------------- a serial order

  /** A job and the steps it took; a fetch between jobs counts as one of its own. */
  datatype Job = Job(key: Key, events: seq<Event>)

  predicate Opens(e: Event) {
    e.Begin?
  }

  predicate Closes(e: Event) {
    e.Push? || e.Return? || e.Stop?
  }

  /** One whole job: it starts with no job of its repository running and runs until it ends. */
  ghost predicate Whole(j: Job) {
    j.events != [] &&
    if |j.events| == 1 then j.events[0].Fetch?
    else
      && Opens(j.events[0]) && Closes(j.events[|j.events| - 1])
      && forall i :: 0 < i < |j.events| - 1 ==> !Opens(j.events[i]) && !Closes(j.events[i])
  }

  type Pending = map<Key, seq<Event>>

  function Held(p: Pending, k: Key): seq<Event> {
    if k in p then p[k] else []
  }

  predicate Finishes(held: seq<Event>, e: Event) {
    Closes(e) || (held == [] && e.Fetch?)
  }

  /** The jobs of an interleaving, in the order in which they end. */
  function Completed(steps: seq<Step>, p: Pending): seq<Job>
    decreases |steps|
  {
    if steps == [] then []
    else
      var Step(k, e) := steps[0];
      var events := Held(p, k) + [e];
      if Finishes(Held(p, k), e) then [Job(k, events)] + Completed(steps[1..], p[k := []])
      else Completed(steps[1..], p[k := events])
  }

  /** What has begun and not ended. */
  function Left(steps: seq<Step>, p: Pending): Pending
    decreases |steps|
  {
    if steps == [] then p
    else
      var Step(k, e) := steps[0];
      if Finishes(Held(p, k), e) then Left(steps[1..], p[k := []])
      else Left(steps[1..], p[k := Held(p, k) + [e]])
  }

  function StepsOf(j: Job): seq<Step> {
    seq(|j.events|, i requires 0 <= i < |j.events| => Step(j.key, j.events[i]))
  }

  /** The jobs one after another. */
  function Serial(jobs: seq<Job>): seq<Step> {
    if jobs == [] then [] else StepsOf(jobs[0]) + Serial(jobs[1..])
  }

  lemma {:induction false} OfConcat(a: seq<Step>, b: seq<Step>, k: Key)
    ensures Of(a + b, k) == Of(a, k) + Of(b, k)
    decreases |a|
  {
    if a == [] {
      assert a + b == b;
    } else {
      assert (a + b)[1..] == a[1..] + b;
      OfConcat(a[1..], b, k);
    }
  }

  lemma {:induction false} OfJob(j: Job, k: Key)
    ensures Of(StepsOf(j), k) == if j.key == k then j.events else []
    decreases |j.events|
  {
    if j.events != [] {
      var rest := Job(j.key, j.events[1..]);
      assert StepsOf(j)[1..] == StepsOf(rest);
      OfJob(rest, k);
    }
  }

  lemma ConcatThree(a: seq<Event>, b: seq<Event>, c: seq<Event>)
    ensures (a + b) + c == a + (b + c)
  {
  }

  /** Each repository's steps are in its completed jobs, in order, followed by those of the job still running. */
  lemma {:induction false} NothingLost(steps: seq<Step>, p: Pending, k: Key)
    ensures Of(Serial(Completed(steps, p)), k) + Held(Left(steps, p), k) == Held(p, k) + Of(steps, k)
    decreases |steps|
  {
    if steps == [] {
      assert Of(Serial(Completed(steps, p)), k) == [];
    } else {
      var Step(l, e) := steps[0];
      var held := Held(p, l);
      var rest := steps[1..];
      var now := if l == k then [e] else [];
      assert Of(steps, k) == now + Of(rest, k);
      ConcatThree(Held(p, k), now, Of(rest, k));
      if Finishes(held, e) {
        var p1 := p[l := []];
        assert Completed(steps, p) == [Job(l, held + [e])] + Completed(rest, p1);
        assert Left(steps, p) == Left(rest, p1);
        hide Of, Serial, Completed, Left;
        NothingLost(rest, p1, k);
        FirstJob(Job(l, held + [e]), Completed(rest, p1), k);
        ConcatThree(if l == k then held + [e] else [], Of(Serial(Completed(rest, p1)), k), Held(Left(rest, p1), k));
      } else {
        var p1 := p[l := held + [e]];
        assert Completed(steps, p) == Completed(rest, p1) && Left(steps, p) == Left(rest, p1);
        hide Of, Serial, Completed, Left;
        NothingLost(rest, p1, k);
      }
    }
  }

  lemma FirstJob(j: Job, jobs: seq<Job>, k: Key)
    ensures Of(Serial([j] + jobs), k) == (if j.key == k then j.events else []) + Of(Serial(jobs), k)
  {
    assert ([j] + jobs)[1..] == jobs;
    OfConcat(StepsOf(j), Serial(jobs), k);
    OfJob(j, k);
  }

  // ---------------------------------------------------------------- the completed jobs are whole

  /** No job is running. */
  ghost predicate Quiet(s: Setup, w: World) {
    forall k {:trigger View(s, w, k)} :: k in s.keys ==> View(s, w, k).run.Idle?
  }

  /** What a repository's unfinished job has done so far, given its run. */
  ghost predicate Underway(run: Run, held: seq<Event>) {
    && (held == [] <==> run.Idle?)
    && (held != [] ==> Opens(held[0]))
    && forall i :: 0 < i < |held| ==> !Opens(held[i]) && !Closes(held[i])
  }

  ghost predicate Fits(s: Setup, w: World, p: Pending) {
    forall k :: k in s.keys ==> Underway(View(s, w, k).run, Held(p, k))
  }

  lemma RunAfter(r: Repo, e: Event, next: Repo)
    requires Sane(r.graph) && Apply(r, e) == Some(next)
    ensures r.run.Idle? ==> e.Fetch? || Opens(e)
    ensures r.run.Running? ==> !Opens(e)
    ensures next.run.Idle? <==> Closes(e) || (r.run.Idle? && e.Fetch?)
  {
  }

  lemma UnderwayNext(r: Repo, e: Event, next: Repo, held: seq<Event>, k: Key)
    requires Sane(r.graph) && Apply(r, e) == Some(next) && Underway(r.run, held)
    ensures if Finishes(held, e) then Whole(Job(k, held + [e])) && Underway(next.run, [])
            else Underway(next.run, held + [e])
  {
    RunAfter(r, e, next);
  }

  lemma FitsNext(s: Setup, w: World, p: Pending, step: Step, next: World, after: Pending)
    requires Sound(s, w) && Fits(s, w, p) && Work(s, w, step) == Some(next)
    requires var events := Held(p, step.key) + [step.event];
             after == p[step.key := if Finishes(Held(p, step.key), step.event) then [] else events]
    ensures Fits(s, next, after)
    ensures Finishes(Held(p, step.key), step.event) ==> Whole(Job(step.key, Held(p, step.key) + [step.event]))
  {
    var k := step.key;
    var r := Apply(View(s, w, k), step.event).value;
    Isolated(s, w, k, step.event, r);
    UnderwayNext(View(s, w, k), step.event, r, Held(p, k), k);
    hide Apply, View, Put, Whole, Underway;
    forall l | l in s.keys ensures Underway(View(s, next, l).run, Held(after, l)) {
    }
  }

  lemma {:induction false} AllWhole(s: Setup, w: World, steps: seq<Step>, p: Pending)
    requires Sound(s, w) && Play(s, w, steps).Some? && Fits(s, w, p)
    ensures forall i :: 0 <= i < |Completed(steps, p)| ==> Whole(Completed(steps, p)[i])
    ensures Fits(s, Play(s, w, steps).value, Left(steps, p))
    decreases |steps|
  {
    hide Whole, Fits, Work, Sound, Finishes;
    if steps != [] {
      assert Sound(s, w);
      var next := Work(s, w, steps[0]).value;
      var Step(k, e) := steps[0];
      var after := p[k := if Finishes(Held(p, k), e) then [] else Held(p, k) + [e]];
      FitsNext(s, w, p, steps[0], next, after);
      AllWhole(s, next, steps[1..], after);
    }
  }

  // ---------------------------------------------------------------- serialisability

  /** The jobs can be taken one by one, each starting when no job is running anywhere. */
  ghost predicate OneByOne(s: Setup, w: World, jobs: seq<Job>)
    requires Sound(s, w)
    decreases |jobs|
  {
    && Quiet(s, w)
    && (jobs != [] ==>
          var next := Play(s, w, StepsOf(jobs[0]));
          next.Some? && OneByOne(s, next.value, jobs[1..]))
  }

  lemma {:induction false} PlayConcat(s: Setup, w: World, a: seq<Step>, b: seq<Step>)
    requires Sound(s, w)
    ensures Play(s, w, a + b) == match Play(s, w, a) case None => None case Some(m) => Play(s, m, b)
    decreases |a|
  {
    if a == [] {
      assert a + b == b;
    } else {
      assert (a + b)[1..] == a[1..] + b;
      match Work(s, w, a[0])
      case None =>
      case Some(m) => PlayConcat(s, m, a[1..], b);
    }
  }

  lemma {:induction false} EndsIdle(r: Repo, es: seq<Event>)
    requires Sane(r.graph) && Exec(r, es).Some? && es != []
    requires Closes(es[|es| - 1]) || (r.run.Idle? && es == [es[0]] && es[0].Fetch?)
    ensures Exec(r, es).value.run.Idle?
    decreases |es|
  {
    var next := Apply(r, es[0]).value;
    RunAfter(r, es[0], next);
    if |es| > 1 {
      EndsIdle(next, es[1..]);
    } else {
      assert es[1..] == [];
    }
  }

  lemma QuietAfterJob(s: Setup, w: World, j: Job)
    requires Sound(s, w) && Quiet(s, w) && Whole(j) && Play(s, w, StepsOf(j)).Some?
    ensures Quiet(s, Play(s, w, StepsOf(j)).value)
  {
    var last := Play(s, w, StepsOf(j)).value;
    forall k | k in s.keys ensures View(s, last, k).run.Idle? {
      PlayedAlone(s, w, StepsOf(j), k);
      OfJob(j, k);
      if j.key == k {
        assert |j.events| == 1 ==> j.events == [j.events[0]];
        EndsIdle(View(s, w, k), j.events);
      }
    }
  }

  lemma {:induction false} JobsOneByOne(s: Setup, w: World, jobs: seq<Job>)
    requires Sound(s, w) && Quiet(s, w) && Play(s, w, Serial(jobs)).Some?
    requires forall i :: 0 <= i < |jobs| ==> Whole(jobs[i])
    ensures OneByOne(s, w, jobs)
    decreases |jobs|
  {
    if jobs != [] {
      PlayConcat(s, w, StepsOf(jobs[0]), Serial(jobs[1..]));
      QuietAfterJob(s, w, jobs[0]);
      JobsOneByOne(s, Play(s, w, StepsOf(jobs[0])).value, jobs[1..]);
    }
  }

  lemma {:induction false} SerialServed(s: Setup, steps: seq<Step>, p: Pending)
    requires Served(s, steps)
    requires forall k :: k in s.keys ==> Served(s, StepsOf(Job(k, Held(p, k))))
    ensures Served(s, Serial(Completed(steps, p)))
    decreases |steps|
  {
    if steps != [] {
      var Step(k, e) := steps[0];
      var events := Held(p, k) + [e];
      assert StepsOf(Job(k, events)) == StepsOf(Job(k, Held(p, k))) + [steps[0]];
      var after := p[k := if Finishes(Held(p, k), e) then [] else events];
      assert Served(s, steps[1..]);
      forall l | l in s.keys ensures Served(s, StepsOf(Job(l, Held(after, l)))) {
      }
      SerialServed(s, steps[1..], after);
    }
  }

  /**
   * Serialisability: however workers interleave their jobs for different repositories, once all jobs
   * have ended every repository is as if the jobs had run one at a time, in the order they ended.
   */
  lemma Serialisable(s: Setup, w: World, steps: seq<Step>)
    requires Sound(s, w) && Quiet(s, w) && Play(s, w, steps).Some? && Quiet(s, Play(s, w, steps).value)
    ensures var jobs := Completed(steps, map[]);
            && (forall i :: 0 <= i < |jobs| ==> Whole(jobs[i]))
            && OneByOne(s, w, jobs)
            && Play(s, w, Serial(jobs)).Some?
            && forall k :: k in s.keys ==>
                 View(s, Play(s, w, Serial(jobs)).value, k) == View(s, Play(s, w, steps).value, k)
  {
    var jobs := Completed(steps, map[]);
    SameSteps(s, w, steps);
    PlayedServed(s, w, steps);
    hide View, Apply, Sound, Quiet, Fits, Whole, Completed, OneByOne;
    assert forall k :: Held(map[], k) == [];
    SerialServed(s, steps, map[]);
    Reordered(s, w, steps, Serial(jobs));
    JobsOneByOne(s, w, jobs);
  }

  lemma QuietFits(s: Setup, w: World)
    ensures Quiet(s, w) <==> Fits(s, w, map[])
  {
  }

  lemma FitsQuiet(s: Setup, w: World, p: Pending, k: Key)
    requires Quiet(s, w) && Fits(s, w, p) && k in s.keys
    ensures Held(p, k) == []
  {
  }

  lemma SameSteps(s: Setup, w: World, steps: seq<Step>)
    requires Sound(s, w) && Quiet(s, w) && Play(s, w, steps).Some? && Quiet(s, Play(s, w, steps).value)
    ensures var jobs := Completed(steps, map[]);
            && (forall i :: 0 <= i < |jobs| ==> Whole(jobs[i]))
            && forall k :: k in s.keys ==> Of(Serial(jobs), k) == Of(steps, k)
  {
    hide Whole, View, Sound, Quiet, Fits, Apply, Work, Play, Completed, Left, Of, Serial;
    var jobs := Completed(steps, map[]);
    QuietFits(s, w);
    AllWhole(s, w, steps, map[]);
    forall k | k in s.keys ensures Of(Serial(jobs), k) == Of(steps, k) {
      NothingLost(steps, map[], k);
      FitsQuiet(s, Play(s, w, steps).value, Left(steps, map[]), k);
      assert Of(Serial(jobs), k) + [] == Of(Serial(jobs), k) && [] + Of(steps, k) == Of(steps, k);
    }
  }

  /**
   * In any interleaving every repository is in a reachable, safe state of the mirroring machine, and
   * covered if its own jobs began with ancestors first.
   */
  lemma EveryRepositorySound(s: Setup, w: World, steps: seq<Step>, k: Key)
    requires Sound(s, w) && Play(s, w, steps).Some? && k in s.keys && Start(View(s, w, k))
    ensures Reachable(View(s, Play(s, w, steps).value, k), View(s, w, k), Of(steps, k))
    ensures Safe(View(s, Play(s, w, steps).value, k))
    ensures OrderedRun(View(s, w, k), Of(steps, k)) ==> Inv(View(s, Play(s, w, steps).value, k))
  {
    PlayedAlone(s, w, steps, k);
    var last := View(s, Play(s, w, steps).value, k);
    hide View, Play, Sound;
    ReachableSafe(last, View(s, w, k), Of(steps, k));
    if OrderedRun(View(s, w, k), Of(steps, k)) {
      ReachableInv(last, View(s, w, k), Of(steps, k));
    }
  }
}
