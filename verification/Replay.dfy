/** The cache that recognises repeated webhook deliveries, and the unbounded log it stands for. */
module Replay {

  /** 24 hours in nanoseconds, used when no positive lifetime is configured. */
  const DEFAULT_TTL: int := 86_400_000_000_000

  type Seen = map<string, int>

  function Unexpired(seen: Seen, ttl: int, now: int): Seen {
    map id | id in seen && now - seen[id] < ttl :: seen[id]
  }

  datatype Verdict = Verdict(replay: bool, seen: Seen)

  /** The answer for a delivery, and what is remembered after it. */
  function Check(seen: Seen, ttl: int, id: string, now: int): Verdict {
    if id == "" then Verdict(false, seen)
    else
      var kept := Unexpired(seen, ttl, now);
      if id in kept then Verdict(true, kept) else Verdict(false, kept[id := now])
  }

  class ReplayCache {
    const ttl: int
    var seen: Seen

    constructor (ttl: int)
      ensures this.ttl == (if ttl <= 0 then 24 * 60 * 60 * 1_000_000_000 else ttl) && this.ttl > 0
      ensures seen == map[]
    {
      this.ttl := if ttl <= 0 then DEFAULT_TTL else ttl;
      seen := map[];
    }

    method EvictExpired(now: int)
      modifies this
      ensures seen == Unexpired(old(seen), ttl, now)
    {
      var rest := seen.Keys;
      while rest != {}
        invariant rest <= seen.Keys <= old(seen).Keys
        invariant forall id :: id in seen ==> seen[id] == old(seen)[id]
        invariant forall id :: id in old(seen) && id !in rest ==> (id in seen <==> now - old(seen)[id] < ttl)
        decreases rest
      {
        var id :| id in rest;
        rest := rest - {id};
        if now - seen[id] >= ttl {
          seen := seen - {id};
        }
      }
    }

    /** Whether the delivery was seen within the lifetime; if not, it is remembered. */
    method CheckAndRemember(id: string, now: int) returns (replay: bool)
      modifies this
      ensures Verdict(replay, seen) == Check(old(seen), ttl, id, now)
      ensures id == "" ==> !replay && seen == old(seen)
      ensures id != "" ==>
                && (replay <==> id in old(seen) && now - old(seen)[id] < ttl)
                && id in seen && seen[id] == (if replay then old(seen)[id] else now)
                && forall k :: k != id ==> (k in seen <==> k in old(seen) && now - old(seen)[k] < ttl) &&
                                           (k in seen ==> seen[k] == old(seen)[k])
    {
      if id == "" {
        return false;
      }
      EvictExpired(now);
      if id in seen && now - seen[id] < ttl {
        return true;
      }
      seen := seen[id := now];
      return false;
    }
  }

  // ---------------------------------------------------------------- runs

  /** A delivery's ID and the clock reading taken for it, in the order in which the lock is got. */
  datatype Delivery = Delivery(id: string, at: int)

  function CacheAfter(ttl: int, ds: seq<Delivery>): Seen {
    if ds == [] then map[]
    else
      var last := ds[|ds| - 1];
      Check(CacheAfter(ttl, ds[..|ds| - 1]), ttl, last.id, last.at).seen
  }

  /** Whether the i-th delivery is turned away as a replay. */
  function IsReplay(ttl: int, ds: seq<Delivery>, i: nat): bool
    requires i < |ds|
  {
    Check(CacheAfter(ttl, ds[..i]), ttl, ds[i].id, ds[i].at).replay
  }

  /** The same with a log of last-accepted times that forgets nothing. */
  function LogCheck(log: Seen, ttl: int, id: string, now: int): Verdict {
    if id == "" then Verdict(false, log)
    else if id in log && now - log[id] < ttl then Verdict(true, log)
    else Verdict(false, log[id := now])
  }

  function LogAfter(ttl: int, ds: seq<Delivery>): Seen {
    if ds == [] then map[]
    else
      var last := ds[|ds| - 1];
      LogCheck(LogAfter(ttl, ds[..|ds| - 1]), ttl, last.id, last.at).seen
  }

  function IsLogReplay(ttl: int, ds: seq<Delivery>, i: nat): bool
    requires i < |ds|
  {
    LogCheck(LogAfter(ttl, ds[..i]), ttl, ds[i].id, ds[i].at).replay
  }

  /** No reading lies more than `d` behind an earlier one. */
  ghost predicate LagsAtMost(ds: seq<Delivery>, d: int) {
    forall i, j :: 0 <= i < j < |ds| ==> ds[j].at >= ds[i].at - d
  }

  /** Some delivery was read at `t` or later. */
  ghost predicate ReadBy(ds: seq<Delivery>, t: int) {
    exists i :: 0 <= i < |ds| && ds[i].at >= t
  }

  lemma ReadByGrows(ds: seq<Delivery>, n: nat, t: int)
    requires n <= |ds| && ReadBy(ds[..n], t)
    ensures ReadBy(ds, t)
  {
    var i :| 0 <= i < n && ds[..n][i].at >= t;
    assert ds[i].at >= t;
  }

  // ---------------------------------------------------------------- refinement

  /** The cache holds what the log holds, but for entries that some reading has outlived. */
  ghost predicate Forgets(ttl: int, ds: seq<Delivery>) {
    var seen, log := CacheAfter(ttl, ds), LogAfter(ttl, ds);
    && (forall id :: id in seen ==> id in log && log[id] == seen[id])
    && (forall id :: id in log && id !in seen ==> ReadBy(ds, log[id] + ttl))
  }

  lemma {:induction false} CacheForgets(ttl: int, ds: seq<Delivery>)
    requires LagsAtMost(ds, 0)
    ensures Forgets(ttl, ds)
  {
    if ds != [] {
      var n := |ds| - 1;
      CacheForgets(ttl, ds[..n]);
      SameVerdict(ttl, ds, n);
      var log0 := LogAfter(ttl, ds[..n]);
      var log, seen := LogAfter(ttl, ds), CacheAfter(ttl, ds);
      forall id | id in log && id !in seen ensures ReadBy(ds, log[id] + ttl) {
        if id !in CacheAfter(ttl, ds[..n]) {
          ReadByGrows(ds, n, log[id] + ttl);
        } else {
          assert ds[n].at >= log[id] + ttl;
        }
      }
    }
  }

  lemma SameVerdict(ttl: int, ds: seq<Delivery>, i: nat)
    requires LagsAtMost(ds, 0) && i < |ds| && Forgets(ttl, ds[..i])
    ensures IsReplay(ttl, ds, i) == IsLogReplay(ttl, ds, i)
  {
    var log, seen := LogAfter(ttl, ds[..i]), CacheAfter(ttl, ds[..i]);
    var id := ds[i].id;
    if id in log && id !in seen {
      var k :| 0 <= k < i && ds[..i][k].at >= log[id] + ttl;
      assert ds[i].at >= ds[k].at;
    }
  }

  /** For readings that never go back, the evicting cache answers exactly like the unbounded log. */
  lemma CacheRefinesLog(ttl: int, ds: seq<Delivery>, i: nat)
    requires LagsAtMost(ds, 0) && i < |ds|
    ensures IsReplay(ttl, ds, i) == IsLogReplay(ttl, ds, i)
  {
    assert LagsAtMost(ds[..i], 0) by {
      assert forall k :: 0 <= k < i ==> ds[..i][k] == ds[k];
    }
    CacheForgets(ttl, ds[..i]);
    SameVerdict(ttl, ds, i);
  }

  // ---------------------------------------------------------------- lagging readings

  /** A delivery let through is still remembered, unless some reading has outlived it. */
  lemma {:induction false} Remembered(ttl: int, ds: seq<Delivery>, i: nat)
    requires ttl > 0 && i < |ds| && ds[i].id != "" && !IsReplay(ttl, ds, i)
    ensures var seen := CacheAfter(ttl, ds);
            (ds[i].id in seen && seen[ds[i].id] == ds[i].at) || ReadBy(ds, ds[i].at + ttl)
  {
    var n := |ds| - 1;
    if i < n {
      assert ds[..n][..i] == ds[..i];
      Remembered(ttl, ds[..n], i);
      if ReadBy(ds[..n], ds[i].at + ttl) {
        ReadByGrows(ds, n, ds[i].at + ttl);
      } else if ds[n].at - ds[i].at >= ttl {
        assert ReadBy(ds, ds[i].at + ttl);
      }
    }
  }

  /**
   * If no reading lags more than `d` behind an earlier one, two deliveries with one ID that are both
   * let through are at least the lifetime less `d` apart.
   */
  lemma AcceptsApart(ttl: int, ds: seq<Delivery>, d: int, i: nat, j: nat)
    requires ttl > 0 && d >= 0 && LagsAtMost(ds, d) && i < j < |ds|
    requires ds[i].id != "" && ds[i].id == ds[j].id
    requires !IsReplay(ttl, ds, i) && !IsReplay(ttl, ds, j)
    ensures ds[j].at - ds[i].at >= ttl - d
  {
    assert ds[..j][..i] == ds[..i];
    Remembered(ttl, ds[..j], i);
    if ReadBy(ds[..j], ds[i].at + ttl) {
      var k :| 0 <= k < j && ds[..j][k].at >= ds[i].at + ttl;
      assert ds[j].at >= ds[k].at - d;
    }
  }

  /** The distance is not better than that: a reading of another delivery can evict the entry early. */
  lemma LagLetsThrough(ttl: int, d: int)
    requires ttl > 0 && 0 <= d <= ttl
    ensures var ds := [Delivery("a", 0), Delivery("b", ttl), Delivery("a", ttl - d)];
            LagsAtMost(ds, d) && !IsReplay(ttl, ds, 0) && !IsReplay(ttl, ds, 2)
  {
    var ds := [Delivery("a", 0), Delivery("b", ttl), Delivery("a", ttl - d)];
    assert ds[..0] == [] && ds[..1] == [ds[0]] && ds[..2] == [ds[0], ds[1]];
    assert ds[..1][..0] == [] && ds[..2][..1] == ds[..1];
    assert CacheAfter(ttl, ds[..1]) == map["a" := 0];
    assert "a" !in CacheAfter(ttl, ds[..2]);
  }

  // ---------------------------------------------------------------- exactly which deliveries are turned away

  /** The i-th delivery was let through, and no reading taken since has outlived it. */
  ghost predicate Fresh(ttl: int, ds: seq<Delivery>, i: nat)
    requires i < |ds|
  {
    && ds[i].id != "" && !IsReplay(ttl, ds, i)
    && forall k :: i < k < |ds| && ds[k].id != "" ==> ds[k].at - ds[i].at < ttl
  }

  lemma PrefixSame(ttl: int, ds: seq<Delivery>, n: nat, i: nat)
    requires i < n <= |ds|
    ensures IsReplay(ttl, ds[..n], i) == IsReplay(ttl, ds, i)
  {
    assert ds[..n][..i] == ds[..i];
  }

  /** A fresh delivery is what the cache holds of its ID. */
  lemma {:induction false} FreshSeen(ttl: int, ds: seq<Delivery>, i: nat)
    requires ttl > 0 && i < |ds| && Fresh(ttl, ds, i)
    ensures var seen := CacheAfter(ttl, ds); ds[i].id in seen && seen[ds[i].id] == ds[i].at
  {
    var n := |ds| - 1;
    if i < n {
      PrefixSame(ttl, ds, n, i);
      assert forall k :: 0 <= k < n ==> ds[..n][k] == ds[k];
      FreshSeen(ttl, ds[..n], i);
    }
  }

  /** What the cache holds comes from a fresh delivery. */
  lemma {:induction false} SeenFresh(ttl: int, ds: seq<Delivery>, id: string) returns (i: nat)
    requires ttl > 0 && id in CacheAfter(ttl, ds)
    ensures i < |ds| && ds[i].id == id && Fresh(ttl, ds, i)
  {
    var n := |ds| - 1;
    if ds[n].id == id && !IsReplay(ttl, ds, n) {
      i := n;
      CacheIds(ttl, ds, id);
    } else {
      i := SeenFresh(ttl, ds[..n], id);
      PrefixSame(ttl, ds, n, i);
      FreshSeen(ttl, ds[..n], i);
      assert forall k :: 0 <= k < n ==> ds[..n][k] == ds[k];
    }
  }

  lemma {:induction false} CacheIds(ttl: int, ds: seq<Delivery>, id: string)
    requires id in CacheAfter(ttl, ds)
    ensures id != ""
  {
    var n := |ds| - 1;
    if id in CacheAfter(ttl, ds[..n]) {
      CacheIds(ttl, ds[..n], id);
    }
  }

  /** No reading from after `i` up to `j` has outlived the i-th delivery. */
  predicate Within(ttl: int, ds: seq<Delivery>, i: nat, j: nat)
    requires i < j < |ds|
  {
    forall k :: i < k <= j && ds[k].id != "" ==> ds[k].at - ds[i].at < ttl
  }

  /**
   * A delivery is turned away if and only if it has an ID, an earlier one with that ID was let through,
   * and no reading since, its own included, has outlived that one.
   */
  lemma ReplayIff(ttl: int, ds: seq<Delivery>, j: nat)
    requires ttl > 0 && j < |ds|
    ensures IsReplay(ttl, ds, j) <==>
            ds[j].id != "" &&
            exists i: nat :: i < j && ds[i].id == ds[j].id && !IsReplay(ttl, ds, i) && Within(ttl, ds, i, j)
  {
    var before := ds[..j];
    assert forall k :: 0 <= k < j ==> before[k] == ds[k];
    if IsReplay(ttl, ds, j) {
      var i := SeenFresh(ttl, before, ds[j].id);
      PrefixSame(ttl, ds, j, i);
      FreshSeen(ttl, before, i);
      assert Within(ttl, ds, i, j);
    }
    if ds[j].id != "" {
      if i: nat :| i < j && ds[i].id == ds[j].id && !IsReplay(ttl, ds, i) && Within(ttl, ds, i, j) {
        PrefixSame(ttl, ds, j, i);
        FreshSeen(ttl, before, i);
      }
    }
  }

  /** After a delivery that was let through, and while no other with its ID is, one more is turned away exactly until a reading outlives it. */
  lemma AgainIff(ttl: int, ds: seq<Delivery>, i: nat, j: nat)
    requires ttl > 0 && i < j < |ds| && ds[i].id == ds[j].id && !IsReplay(ttl, ds, i)
    requires forall k :: i < k < j && ds[k].id == ds[i].id ==> IsReplay(ttl, ds, k)
    ensures IsReplay(ttl, ds, j) <==> ds[i].id != "" && Within(ttl, ds, i, j)
  {
    ReplayIff(ttl, ds, j);
    if IsReplay(ttl, ds, j) {
      var e: nat :| e < j && ds[e].id == ds[j].id && !IsReplay(ttl, ds, e) && Within(ttl, ds, e, j);
      if e < i {
        assert Within(ttl, ds, e, i);
        ReplayIff(ttl, ds, i);
      }
    }
  }
}
