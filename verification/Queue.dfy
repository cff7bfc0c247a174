/** The job queue as the program keeps it: a bounded channel, a table of records, and a depth gauge. */
module Queue {
  import opened Files
  import opened Backoff
  import P = Pool

  type Status = P.Status

  datatype ID = Unset | Given(name: string) | Generated(time: int, n: nat)

  datatype Job = Job(id: ID, owner: string, repo: string, branch: string, commit: string, attempts: int)

  datatype Record = Record(job: Job, status: Status, error: string, updatedAt: int)

  type Records = map<ID, Record>

  const FULL: string := "queue: full"

  /** The jobs that have this status. */
  function With(records: Records, st: Status): set<ID> {
    set id | id in records && records[id].status == st
  }

  predicate Stale(r: Record, cutoff: int) {
    P.Terminal(r.status) && r.updatedAt < cutoff
  }

  /** What pruning leaves: live jobs of any age, and finished ones not yet stale. */
  function Unpruned(records: Records, cutoff: int): Records {
    map id | id in records && !Stale(records[id], cutoff) :: records[id]
  }

  /** Every generated ID was issued by the queue. */
  ghost predicate Issued(records: Records, nextID: nat) {
    forall id :: id in records && id.Generated? ==> id.n <= nextID
  }

  function CountIn(counts: map<Status, nat>, st: Status): nat {
    if st in counts then counts[st] else 0
  }

  const STATUSES: seq<Status> := [P.Pending, P.Running, P.Retrying, P.Succeeded, P.Failed]

  lemma StatusAt(st: Status) returns (k: nat)
    ensures k < |STATUSES| && STATUSES[k] == st
  {
    k := match st case Pending => 0 case Running => 1 case Retrying => 2 case Succeeded => 3 case Failed => 4;
  }

  class Queue {
    var jobs: seq<Job>
    const capacity: nat
    var records: Records
    var nextID: nat
    /** The gauge of queue depth by status. */
    var depth: map<Status, nat>
    /** Every write to the table so far. */
    ghost var writes: seq<(ID, Status)>

    ghost predicate Valid()
      reads this
    {
      |jobs| <= capacity && DepthRight()
    }

    ghost predicate DepthRight()
      reads this
    {
      forall st: Status :: st in depth && depth[st] == |With(records, st)|
    }

    constructor (bufferSize: nat)
      ensures Valid() && jobs == [] && records == map[] && capacity == bufferSize && nextID == 0 && writes == []
    {
      jobs, capacity, records, nextID := [], bufferSize, map[], 0;
      depth := map[P.Pending := 0, P.Running := 0, P.Retrying := 0, P.Succeeded := 0, P.Failed := 0];
      writes := [];
      new;
      forall st: Status ensures st in depth && depth[st] == |With(records, st)| {
        assert With(records, st) == {};
        var k := StatusAt(st);
      }
    }

    /** How many records have each status; a status without any is absent. */
    method CountByStatus() returns (counts: map<Status, nat>)
      ensures forall st: Status :: CountIn(counts, st) == |With(records, st)|
    {
      counts := map[];
      var rest := records.Keys;
      while rest != {}
        invariant rest <= records.Keys
        invariant forall st: Status :: CountIn(counts, st) == |With(records, st) - rest|
        decreases rest
      {
        var id :| id in rest;
        var st := records[id].status;
        forall other: Status
          ensures |With(records, other) - (rest - {id})| == |With(records, other) - rest| + if other == st then 1 else 0 {
          OneMore(records, rest, id, other);
        }
        counts := counts[st := CountIn(counts, st) + 1];
        rest := rest - {id};
      }
      assert forall st: Status :: With(records, st) - {} == With(records, st);
    }

    /** Recounts the table into the gauge. */
    method ReportDepth()
      modifies this`depth
      ensures DepthRight()
    {
      var counts := CountByStatus();
      var all := STATUSES;
      var i := 0;
      while i < |all|
        invariant 0 <= i <= |all|
        invariant forall k :: 0 <= k < i ==> all[k] in depth && depth[all[k]] == CountIn(counts, all[k])
      {
        depth := depth[all[i] := CountIn(counts, all[i])];
        i := i + 1;
      }
      forall st: Status ensures st in depth && depth[st] == |With(records, st)| {
        var k := StatusAt(st);
      }
    }

    method SetStatus(job: Job, st: Status, error: string, now: int)
      requires Valid()
      modifies this`records, this`depth, this`writes
      ensures Valid()
      ensures records == old(records)[job.id := Record(job, st, error, now)]
      ensures writes == old(writes) + [(job.id, st)]
    {
      records := records[job.id := Record(job, st, error, now)];
      writes := writes + [(job.id, st)];
      ReportDepth();
    }

    /** Accepts the job if the channel has room; either way its record says what became of it. */
    method Enqueue(request: Job, now: int) returns (ok: bool, id: ID)
      requires Valid()
      modifies this
      ensures Valid()
      ensures ok <==> |old(jobs)| < capacity
      ensures id == if request.id.Unset? then Generated(now, old(nextID) + 1) else request.id
      ensures nextID == old(nextID) + if request.id.Unset? then 1 else 0
      ensures jobs == old(jobs) + if ok then [request.(id := id)] else []
      ensures records == old(records)[id := Record(request.(id := id), if ok then P.Pending else P.Failed, if ok then "" else FULL, now)]
      ensures writes == old(writes) + [(id, if ok then P.Pending else P.Failed)]
      ensures old(Issued(records, nextID)) && request.id.Unset? ==> id !in old(records) && Issued(records, nextID)
    {
      var job := request;
      if job.id.Unset? {
        nextID := nextID + 1;
        job := job.(id := Generated(now, nextID));
      }
      id := job.id;
      ok := |jobs| < capacity;
      if ok {
        jobs := jobs + [job];
        SetStatus(job, P.Pending, "", now);
      } else {
        SetStatus(job, P.Failed, FULL, now);
      }
    }

    /** A worker takes the oldest job. */
    method Receive() returns (job: Option<Job>)
      requires Valid()
      modifies this`jobs
      ensures Valid()
      ensures match job
        case None => old(jobs) == [] && jobs == []
        case Some(j) => old(jobs) == [j] + jobs
    {
      if jobs == [] {
        return None;
      }
      job := Some(jobs[0]);
      jobs := jobs[1..];
    }

    /** Removes the records of jobs that ended before the cutoff, and says how many. */
    method PruneOlderThan(maxAge: int, now: int) returns (removed: nat)
      requires Valid()
      modifies this`records, this`depth
      ensures Valid()
      ensures records == Unpruned(old(records), now - maxAge)
      ensures forall id :: id in records <==>
                && id in old(records)
                && (old(records)[id].status in {P.Pending, P.Running, P.Retrying} || old(records)[id].updatedAt >= now - maxAge)
      ensures forall id :: id in records ==> records[id] == old(records)[id]
      ensures removed == |old(records)| - |records|
    {
      var cutoff := now - maxAge;
      removed := 0;
      var rest := records.Keys;
      ghost var before := records;
      PartlyEnds(before, cutoff);
      forall id {
        SurvivesIff(before, cutoff, id);
      }
      hide With, Stale, Partly, Unpruned;
      while rest != {}
        invariant rest <= before.Keys
        invariant records == Partly(before, rest, cutoff)
        invariant removed == |before| - |records|
        invariant depth == old(depth) && (removed == 0 ==> records == before)
        decreases rest
      {
        var id :| id in rest;
        PartlyNext(before, rest, id, cutoff);
        rest := rest - {id};
        if Stale(records[id], cutoff) {
          records := records - {id};
          removed := removed + 1;
        }
      }
      if removed > 0 {
        ReportDepth();
      }
    }
  }

  /** The table when only the IDs in `rest` are still to be looked at. */
  function Partly(records: Records, rest: set<ID>, cutoff: int): Records {
    map id | id in records && (id in rest || !Stale(records[id], cutoff)) :: records[id]
  }

  lemma PartlyEnds(records: Records, cutoff: int)
    ensures Partly(records, records.Keys, cutoff) == records
    ensures Partly(records, {}, cutoff) == Unpruned(records, cutoff)
  {
  }

  lemma PartlyNext(records: Records, rest: set<ID>, id: ID, cutoff: int)
    requires id in rest && id in records
    ensures var now := Partly(records, rest, cutoff);
            && id in now && now[id] == records[id]
            && Partly(records, rest - {id}, cutoff) == (if Stale(records[id], cutoff) then now - {id} else now)
            && |now - {id}| == |now| - 1
  {
    OneLess(Partly(records, rest, cutoff), id);
  }

  lemma OneMore(records: Records, rest: set<ID>, id: ID, st: Status)
    requires rest <= records.Keys && id in rest
    ensures |With(records, st) - (rest - {id})| == |With(records, st) - rest| + if records[id].status == st then 1 else 0
  {
    var before := With(records, st) - rest;
    if records[id].status == st {
      assert With(records, st) - (rest - {id}) == before + {id};
    } else {
      assert With(records, st) - (rest - {id}) == before;
    }
  }

  lemma OneLess(records: Records, id: ID)
    requires id in records
    ensures |records - {id}| == |records| - 1
  {
    assert (records - {id}).Keys == records.Keys - {id};
    assert |records| == |records.Keys| && |records - {id}| == |(records - {id}).Keys|;
  }

  /** What pruning leaves: records of live jobs of any age, and finished ones not older than the cutoff. */
  lemma SurvivesIff(records: Records, cutoff: int, id: ID)
    ensures id in Unpruned(records, cutoff) <==>
            id in records && (records[id].status in {P.Pending, P.Running, P.Retrying} || records[id].updatedAt >= cutoff)
    ensures id in Unpruned(records, cutoff) ==> Unpruned(records, cutoff)[id] == records[id]
  {
  }

  /** Pruning again at the same time removes nothing, and it never removes a job that has not ended. */
  lemma PruneStable(records: Records, cutoff: int)
    ensures Unpruned(Unpruned(records, cutoff), cutoff) == Unpruned(records, cutoff)
    ensures forall st: Status :: !P.Terminal(st) ==> With(Unpruned(records, cutoff), st) == With(records, st)
  {
  }

  /** The settings of a pool, and its counters. */
  class Workers {
    const queue: Queue
    const maxRetries: int
    const baseDelay: Int64
    const maxDelay: Int64
    var succeeded: nat
    var failed: nat
    var retried: nat

    constructor (queue: Queue, maxRetries: int, baseDelay: Int64, maxDelay: Int64)
      ensures this.queue == queue && this.maxRetries == maxRetries
      ensures this.baseDelay == baseDelay && this.maxDelay == maxDelay
      ensures succeeded == 0 && failed == 0 && retried == 0
    {
      this.queue, this.maxRetries, this.baseDelay, this.maxDelay := queue, maxRetries, baseDelay, maxDelay;
      succeeded, failed, retried := 0, 0, 0;
    }

    /**
     * One job through the handler, whose error is `error`. What comes back is the job to send again and
     * the delay before it, if it is to be retried.
     */
    method Process(job: Job, error: Option<string>, now: int, later: int) returns (retry: Option<(Job, Int64)>)
      requires queue.Valid()
      modifies this, queue`records, queue`depth, queue`writes
      ensures queue.Valid()
      ensures var again := job.(attempts := job.attempts + 1);
              match error
              case None =>
                && retry == None
                && queue.writes == old(queue.writes) + [(job.id, P.Running), (job.id, P.Succeeded)]
                && queue.records == old(queue.records)[job.id := Record(job, P.Succeeded, "", later)]
                && succeeded == old(succeeded) + 1 && failed == old(failed) && retried == old(retried)
              case Some(message) =>
                if again.attempts > maxRetries then
                  && retry == None
                  && queue.writes == old(queue.writes) + [(job.id, P.Running), (job.id, P.Failed)]
                  && queue.records == old(queue.records)[job.id := Record(again, P.Failed, message, later)]
                  && succeeded == old(succeeded) && failed == old(failed) + 1 && retried == old(retried)
                else
                  && retry == Some((again, Delay(baseDelay, maxDelay, again.attempts)))
                  && queue.writes == old(queue.writes) + [(job.id, P.Running), (job.id, P.Retrying)]
                  && queue.records == old(queue.records)[job.id := Record(again, P.Retrying, message, later)]
                  && succeeded == old(succeeded) && failed == old(failed) && retried == old(retried) + 1
    {
      retry := None;
      queue.SetStatus(job, P.Running, "", now);
      if error.None? {
        succeeded := succeeded + 1;
        queue.SetStatus(job, P.Succeeded, "", later);
        return;
      }
      var again := job.(attempts := job.attempts + 1);
      if again.attempts > maxRetries {
        failed := failed + 1;
        queue.SetStatus(again, P.Failed, error.value, later);
        return;
      }
      var delay := BackoffDelay(baseDelay, maxDelay, again.attempts);
      retried := retried + 1;
      queue.SetStatus(again, P.Retrying, error.value, later);
      retry := Some((again, delay));
    }
  }
}
