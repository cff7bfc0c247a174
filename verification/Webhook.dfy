/** Webhook requests: verification, replay protection, and turning branch pushes into jobs. */
module Webhook {
  import opened Files
  import opened Replay
  import Q = Queue

  type Headers = map<string, string>

  const DELIVERY_HEADERS: seq<string> := ["X-Forgejo-Delivery", "X-Gitea-Delivery", "X-GitHub-Delivery"]
  const SIGNATURE_HEADERS: seq<string> := ["X-Forgejo-Signature", "X-Gitea-Signature", "X-Hub-Signature-256"]
  const REF_PREFIX: string := "refs/heads/"

  datatype PushEvent = PushEvent(ref: string, after: string, name: string, login: string, userName: string, headCommit: Option<string>)

  datatype RepoEvent = RepoEvent(owner: string, repo: string, branch: string, commit: string)

  /**
   * A request: whether it is a POST whose body could be read, its headers, the signatures that verify
   * its body under each secret, its parsed payload, and the clock reading of its replay check.
   */
  datatype Request = Request(
    post: bool, readable: bool, headers: Headers,
    genuine: set<(string, string)>,
    push: Option<PushEvent>,
    at: int)

  datatype Outcome =
    | MethodNotAllowed
    | Unreadable
    | InvalidSignature
    | Duplicate
    | Ignored
    | InvalidPayload
    | Unavailable
    | Accepted

  function Get(h: Headers, name: string): string {
    if name in h then h[name] else ""
  }

  /** The first of the named headers that is set. */
  function FirstOf(h: Headers, names: seq<string>): string {
    if names == [] then ""
    else if Get(h, names[0]) != "" then Get(h, names[0])
    else FirstOf(h, names[1..])
  }

  lemma {:induction false} FirstOfIs(h: Headers, names: seq<string>, k: nat)
    requires k < |names| && Get(h, names[k]) != "" && forall i :: 0 <= i < k ==> Get(h, names[i]) == ""
    ensures FirstOf(h, names) == Get(h, names[k])
  {
    if k > 0 {
      FirstOfIs(h, names[1..], k - 1);
    }
  }

  lemma {:induction false} FirstOfNone(h: Headers, names: seq<string>)
    requires forall i :: 0 <= i < |names| ==> Get(h, names[i]) == ""
    ensures FirstOf(h, names) == ""
  {
    if names != [] {
      FirstOfNone(h, names[1..]);
    }
  }

  method DeliveryID(h: Headers) returns (id: string)
    ensures id == FirstOf(h, DELIVERY_HEADERS)
  {
    var i := 0;
    while i < |DELIVERY_HEADERS|
      invariant 0 <= i <= |DELIVERY_HEADERS|
      invariant forall k :: 0 <= k < i ==> Get(h, DELIVERY_HEADERS[k]) == ""
    {
      id := Get(h, DELIVERY_HEADERS[i]);
      if id != "" {
        FirstOfIs(h, DELIVERY_HEADERS, i);
        return;
      }
      i := i + 1;
    }
    FirstOfNone(h, DELIVERY_HEADERS);
    return "";
  }

  /** A signature under a secret; neither may be empty. */
  predicate VerifySignature(r: Request, secret: string, signature: string) {
    secret != "" && signature != "" && (secret, signature) in r.genuine
  }

  /** The request's first signature header verifies under one of the secrets. */
  predicate Signed(r: Request, secrets: seq<string>) {
    exists k :: 0 <= k < |secrets| && VerifySignature(r, secrets[k], FirstOf(r.headers, SIGNATURE_HEADERS))
  }

  method Verify(r: Request, secrets: seq<string>) returns (ok: bool)
    ensures ok <==> Signed(r, secrets)
  {
    var i := 0;
    while i < |SIGNATURE_HEADERS|
      invariant 0 <= i <= |SIGNATURE_HEADERS|
      invariant forall k :: 0 <= k < i ==> Get(r.headers, SIGNATURE_HEADERS[k]) == ""
    {
      var signature := Get(r.headers, SIGNATURE_HEADERS[i]);
      if signature != "" {
        FirstOfIs(r.headers, SIGNATURE_HEADERS, i);
        var j := 0;
        while j < |secrets|
          invariant 0 <= j <= |secrets|
          invariant forall k :: 0 <= k < j ==> !VerifySignature(r, secrets[k], signature)
        {
          if VerifySignature(r, secrets[j], signature) {
            return true;
          }
          j := j + 1;
        }
        return false;
      }
      i := i + 1;
    }
    FirstOfNone(r.headers, SIGNATURE_HEADERS);
    return false;
  }

  function NonEmpty(s: seq<string>): seq<string> {
    if s == [] then []
    else NonEmpty(s[..|s| - 1]) + if s[|s| - 1] != "" then [s[|s| - 1]] else []
  }

  /** The repository, branch and commit of a branch push, if all are there. */
  function ToRepoEvent(p: PushEvent): Option<RepoEvent> {
    var owner := if p.login != "" then p.login else p.userName;
    var commit := if p.after == "" && p.headCommit.Some? then p.headCommit.value else p.after;
    if !(REF_PREFIX <= p.ref) || owner == "" || p.name == "" || commit == "" then None
    else Some(RepoEvent(owner, p.name, p.ref[|REF_PREFIX|..], commit))
  }

  function EventType(h: Headers): string {
    if Get(h, "X-Forgejo-Event") != "" then Get(h, "X-Forgejo-Event") else Get(h, "X-Gitea-Event")
  }

  /** A request gets to the replay check: it is a readable POST, signed if any secret is set. */
  predicate Authentic(r: Request, secrets: seq<string>) {
    r.post && r.readable && (secrets != [] ==> Signed(r, secrets))
  }

  /** The job an authentic, fresh request asks for. */
  function JobOf(r: Request): Option<RepoEvent> {
    if EventType(r.headers) != "push" || r.push.None? then None else ToRepoEvent(r.push.value)
  }

  // ---------------------------------------------------------------- what a request says, header by header

  predicate Given(h: Headers, name: string) {
    name in h && h[name] != ""
  }

  function SignatureOf(h: Headers): string {
    if Given(h, "X-Forgejo-Signature") then h["X-Forgejo-Signature"]
    else if Given(h, "X-Gitea-Signature") then h["X-Gitea-Signature"]
    else if Given(h, "X-Hub-Signature-256") then h["X-Hub-Signature-256"]
    else ""
  }

  function DeliveryOf(h: Headers): string {
    if Given(h, "X-Forgejo-Delivery") then h["X-Forgejo-Delivery"]
    else if Given(h, "X-Gitea-Delivery") then h["X-Gitea-Delivery"]
    else if Given(h, "X-GitHub-Delivery") then h["X-GitHub-Delivery"]
    else ""
  }

  /** Some secret is configured, so that requests must be signed. */
  ghost predicate Armed(secret: string, secrets: seq<string>) {
    secret != "" || exists k :: 0 <= k < |secrets| && secrets[k] != ""
  }

  /** The signature the request carries is genuine for a configured secret. */
  ghost predicate Proven(r: Request, secret: string, secrets: seq<string>) {
    && SignatureOf(r.headers) != ""
    && exists key :: key != "" && (key == secret || key in secrets) && (key, SignatureOf(r.headers)) in r.genuine
  }

  /** A readable POST, proven if it has to be. */
  ghost predicate Passes(r: Request, secret: string, secrets: seq<string>) {
    r.post && r.readable && (Armed(secret, secrets) ==> Proven(r, secret, secrets))
  }

  lemma {:induction false} NonEmptyMembers(s: seq<string>, key: string)
    ensures key in NonEmpty(s) <==> key != "" && key in s
    decreases |s|
  {
    if s != [] {
      NonEmptyMembers(s[..|s| - 1], key);
      assert s == s[..|s| - 1] + [s[|s| - 1]];
    }
  }

  lemma HeadersFirst(h: Headers)
    ensures FirstOf(h, SIGNATURE_HEADERS) == SignatureOf(h) && FirstOf(h, DELIVERY_HEADERS) == DeliveryOf(h)
  {
    FirstOfThree(h, "X-Forgejo-Signature", "X-Gitea-Signature", "X-Hub-Signature-256");
    FirstOfThree(h, "X-Forgejo-Delivery", "X-Gitea-Delivery", "X-GitHub-Delivery");
  }

  lemma FirstOfThree(h: Headers, a: string, b: string, c: string)
    ensures FirstOf(h, [a, b, c]) ==
            if Given(h, a) then h[a] else if Given(h, b) then h[b] else if Given(h, c) then h[c] else ""
  {
    var names := [a, b, c];
    assert names[1..] == [b, c] && [b, c][1..] == [c] && [c][1..] == [];
    assert FirstOf(h, [c]) == Get(h, c);
    assert FirstOf(h, [b, c]) == if Get(h, b) != "" then Get(h, b) else Get(h, c);
  }

  /** The secrets in force are the configured ones that are set. */
  lemma InForce(secret: string, secrets: seq<string>)
    ensures var all := NonEmpty([secret] + secrets);
            && (forall key :: key in all <==> key != "" && (key == secret || key in secrets))
            && (all != [] <==> Armed(secret, secrets))
  {
    var all := NonEmpty([secret] + secrets);
    forall key ensures key in all <==> key != "" && (key == secret || key in secrets) {
      NonEmptyMembers([secret] + secrets, key);
    }
    if secret != "" {
      assert secret in all;
    } else if k :| 0 <= k < |secrets| && secrets[k] != "" {
      assert secrets[k] in all;
    }
    if all != [] {
      assert all[0] in all;
    }
  }

  /** The secrets in force decide as the configured ones do. */
  lemma AuthenticPasses(r: Request, secret: string, secrets: seq<string>)
    ensures Authentic(r, NonEmpty([secret] + secrets)) <==> Passes(r, secret, secrets)
    ensures NonEmpty([secret] + secrets) != [] <==> Armed(secret, secrets)
  {
    var all := NonEmpty([secret] + secrets);
    InForce(secret, secrets);
    HeadersFirst(r.headers);
    hide SignatureOf, FirstOf, NonEmpty, Armed;
    if Signed(r, all) {
      var k :| 0 <= k < |all| && VerifySignature(r, all[k], FirstOf(r.headers, SIGNATURE_HEADERS));
      assert all[k] in all;
    }
    if Proven(r, secret, secrets) {
      var key :| key != "" && (key == secret || key in secrets) && (key, SignatureOf(r.headers)) in r.genuine;
      assert key in all;
      var k :| 0 <= k < |all| && all[k] == key;
      assert VerifySignature(r, all[k], FirstOf(r.headers, SIGNATURE_HEADERS));
    }
  }

  class Handler {
    const secret: string
    const secrets: seq<string>
    const replay: ReplayCache
    const queue: Q.Queue

    constructor (secret: string, secrets: seq<string>, replay: ReplayCache, queue: Q.Queue)
      ensures this.secret == secret && this.secrets == secrets && this.replay == replay && this.queue == queue
    {
      this.secret, this.secrets, this.replay, this.queue := secret, secrets, replay, queue;
    }

    /** Every secret that is set, the single one first. */
    method Secrets() returns (all: seq<string>)
      ensures all == NonEmpty([secret] + secrets)
    {
      var s := [secret] + secrets;
      all := if secret != "" then [secret] else [];
      assert s[..1] == [secret] && [secret][..0] == [];
      var i := 0;
      while i < |secrets|
        invariant 0 <= i <= |secrets|
        invariant all == NonEmpty(s[..i + 1])
      {
        assert s[..i + 2][..i + 1] == s[..i + 1] && s[..i + 2][i + 1] == secrets[i];
        if secrets[i] != "" {
          all := all + [secrets[i]];
        }
        i := i + 1;
      }
      assert s[..i + 1] == s;
    }

    /**
     * Handles one request. A request is only looked at if it is authentic, and remembered before it is
     * known whether it can be queued; it puts at most one job into the queue.
     */
    method ServeHTTP(r: Request, now: int) returns (outcome: Outcome)
      requires queue.Valid()
      modifies replay, queue
      ensures queue.Valid()
      ensures outcome == Decide(NonEmpty([secret] + secrets), old(replay.seen), replay.ttl, r, |old(queue.jobs)| < queue.capacity)
      ensures replay.seen == KnownAfter(NonEmpty([secret] + secrets), old(replay.seen), replay.ttl, r)
      ensures outcome.InvalidSignature? <==> r.post && r.readable && Armed(secret, secrets) && !Proven(r, secret, secrets)
      ensures !Passes(r, secret, secrets) ==>
                && (outcome.MethodNotAllowed? || outcome.Unreadable? || outcome.InvalidSignature?)
                && replay.seen == old(replay.seen) && queue.jobs == old(queue.jobs) && queue.records == old(queue.records)
      ensures if outcome.Accepted? then
                var e := JobOf(r).value;
                queue.jobs == old(queue.jobs) +
                  [Q.Job(Q.Generated(now, old(queue.nextID) + 1), e.owner, e.repo, e.branch, e.commit, 0)]
              else queue.jobs == old(queue.jobs)
      ensures !outcome.Accepted? && !outcome.Unavailable? ==> queue.records == old(queue.records)
    {
      AuthenticPasses(r, secret, secrets);
      hide Armed, Proven, NonEmpty, FirstOf, Signed, SignatureOf, VerifySignature, ToRepoEvent, Check;
      if !r.post {
        return MethodNotAllowed;
      }
      if !r.readable {
        return Unreadable;
      }
      var all := Secrets();
      if |all| > 0 {
        var ok := Verify(r, all);
        if !ok {
          return InvalidSignature;
        }
      }
      var id := DeliveryID(r.headers);
      var duplicate := replay.CheckAndRemember(id, r.at);
      if duplicate {
        return Duplicate;
      }
      var event := Get(r.headers, "X-Forgejo-Event");
      if event == "" {
        event := Get(r.headers, "X-Gitea-Event");
      }
      if event != "push" {
        return Ignored;
      }
      if r.push.None? {
        return InvalidPayload;
      }
      var repoEvent := ToRepoEvent(r.push.value);
      if repoEvent.None? {
        return Ignored;
      }
      var e := repoEvent.value;
      var queued, _ := queue.Enqueue(Q.Job(Q.Unset, e.owner, e.repo, e.branch, e.commit, 0), now);
      return if queued then Accepted else Unavailable;
    }
  }

  // ---------------------------------------------------------------- what a request leads to

  function IdOf(r: Request): string {
    FirstOf(r.headers, DELIVERY_HEADERS)
  }

  function Decide(secrets: seq<string>, seen: Seen, ttl: int, r: Request, room: bool): Outcome {
    if !r.post then MethodNotAllowed
    else if !r.readable then Unreadable
    else if !Authentic(r, secrets) then InvalidSignature
    else if Check(seen, ttl, IdOf(r), r.at).replay then Duplicate
    else if EventType(r.headers) != "push" then Ignored
    else if r.push.None? then InvalidPayload
    else if ToRepoEvent(r.push.value).None? then Ignored
    else if room then Accepted
    else Unavailable
  }

  function KnownAfter(secrets: seq<string>, seen: Seen, ttl: int, r: Request): Seen {
    if Authentic(r, secrets) then Check(seen, ttl, IdOf(r), r.at).seen else seen
  }

  /** A request, and whether the queue has room when it gets there. */
  datatype Arrival = Arrival(request: Request, room: bool)

  /** As the replay cache sees the request: one that does not get to the check leaves no trace. */
  function AsDelivery(secrets: seq<string>, r: Request): Delivery {
    Delivery(if Authentic(r, secrets) then IdOf(r) else "", r.at)
  }

  function Deliveries(secrets: seq<string>, arrivals: seq<Arrival>): (ds: seq<Delivery>)
    ensures |ds| == |arrivals|
    ensures forall i :: 0 <= i < |arrivals| ==> ds[i] == AsDelivery(secrets, arrivals[i].request)
  {
    seq(|arrivals|, i requires 0 <= i < |arrivals| => AsDelivery(secrets, arrivals[i].request))
  }

  function SeenAfter(secrets: seq<string>, ttl: int, arrivals: seq<Arrival>): Seen {
    if arrivals == [] then map[]
    else
      var n := |arrivals| - 1;
      KnownAfter(secrets, SeenAfter(secrets, ttl, arrivals[..n]), ttl, arrivals[n].request)
  }

  /** What the i-th request leads to. */
  function OutcomeOf(secrets: seq<string>, ttl: int, arrivals: seq<Arrival>, i: nat): Outcome
    requires i < |arrivals|
  {
    Decide(secrets, SeenAfter(secrets, ttl, arrivals[..i]), ttl, arrivals[i].request, arrivals[i].room)
  }

  predicate ReachesQueue(o: Outcome) {
    o.Accepted? || o.Unavailable?
  }

  lemma {:induction false} SeenIsCache(secrets: seq<string>, ttl: int, arrivals: seq<Arrival>)
    ensures SeenAfter(secrets, ttl, arrivals) == CacheAfter(ttl, Deliveries(secrets, arrivals))
    decreases |arrivals|
  {
    if arrivals != [] {
      var n := |arrivals| - 1;
      SeenIsCache(secrets, ttl, arrivals[..n]);
      assert Deliveries(secrets, arrivals)[..n] == Deliveries(secrets, arrivals[..n]);
    }
  }

  lemma NotReplay(secrets: seq<string>, ttl: int, arrivals: seq<Arrival>, i: nat)
    requires i < |arrivals| && ReachesQueue(OutcomeOf(secrets, ttl, arrivals, i))
    ensures !IsReplay(ttl, Deliveries(secrets, arrivals), i)
    ensures Authentic(arrivals[i].request, secrets)
  {
    SeenIsCache(secrets, ttl, arrivals[..i]);
    assert Deliveries(secrets, arrivals)[..i] == Deliveries(secrets, arrivals[..i]);
  }

  /**
   * One delivery ID gets to the queue at most once in any span shorter than the cache's lifetime less
   * the lag of the clock readings, whatever other requests come in between.
   */
  lemma OncePerSpan(secrets: seq<string>, ttl: int, arrivals: seq<Arrival>, d: int, i: nat, j: nat)
    requires ttl > 0 && d >= 0 && LagsAtMost(Deliveries(secrets, arrivals), d) && i < j < |arrivals|
    requires IdOf(arrivals[i].request) == IdOf(arrivals[j].request) != ""
    requires ReachesQueue(OutcomeOf(secrets, ttl, arrivals, i)) && ReachesQueue(OutcomeOf(secrets, ttl, arrivals, j))
    ensures arrivals[j].request.at - arrivals[i].request.at >= ttl - d
  {
    NotReplay(secrets, ttl, arrivals, i);
    NotReplay(secrets, ttl, arrivals, j);
    AcceptsApart(ttl, Deliveries(secrets, arrivals), d, i, j);
  }

  /** A job only comes from an authentic push of a branch. */
  lemma OnlyBranchPushes(secrets: seq<string>, ttl: int, arrivals: seq<Arrival>, i: nat)
    requires i < |arrivals|
    ensures ReachesQueue(OutcomeOf(secrets, ttl, arrivals, i)) <==>
            && Authentic(arrivals[i].request, secrets)
            && !IsReplay(ttl, Deliveries(secrets, arrivals), i)
            && JobOf(arrivals[i].request).Some?
  {
    SeenIsCache(secrets, ttl, arrivals[..i]);
    assert Deliveries(secrets, arrivals)[..i] == Deliveries(secrets, arrivals[..i]);
  }

  /**
   * A job names a repository, a branch and a commit, and its branch is the pushed one: pushing to the
   * branch of that name is pushing to the ref of the event.
   */
  lemma JobNamesBranch(r: Request)
    ensures JobOf(r).Some? <==>
            && IsPush(r.headers) && r.push.Some? && "refs/heads/" <= r.push.value.ref
            && (r.push.value.login != "" || r.push.value.userName != "") && r.push.value.name != ""
            && (r.push.value.after != "" || (r.push.value.headCommit.Some? && r.push.value.headCommit.value != ""))
    ensures JobOf(r).Some? ==>
              var e, p := JobOf(r).value, r.push.value;
              && "refs/heads/" + e.branch == p.ref && e.repo == p.name
              && e.owner == (if p.login != "" then p.login else p.userName)
              && (if p.after != "" then e.commit == p.after else p.headCommit == Some(e.commit))
              && e.owner != "" && e.repo != "" && e.commit != ""
  {
  }

  /** A repeated delivery: one with this ID was let through, and is remembered and young enough. */
  ghost predicate Repeated(r: Request, seen: Seen, ttl: int) {
    var id := DeliveryOf(r.headers);
    id != "" && id in seen && r.at - seen[id] < ttl
  }

  /** The event is a push. */
  predicate IsPush(h: Headers) {
    if Given(h, "X-Forgejo-Event") then h["X-Forgejo-Event"] == "push"
    else Given(h, "X-Gitea-Event") && h["X-Gitea-Event"] == "push"
  }

  /** A push of a branch that names its owner, repository and commit. */
  ghost predicate Complete(p: PushEvent) {
    && "refs/heads/" <= p.ref && p.name != "" && (p.login != "" || p.userName != "")
    && (p.after != "" || (p.headCommit.Some? && p.headCommit.value != ""))
  }

  /** What each outcome means, in terms of what the request says and what is configured and remembered. */
  lemma OutcomesMean(secret: string, secrets: seq<string>, seen: Seen, ttl: int, r: Request, room: bool)
    ensures var o := Decide(NonEmpty([secret] + secrets), seen, ttl, r, room);
            && (o.MethodNotAllowed? <==> !r.post)
            && (o.Unreadable? <==> r.post && !r.readable)
            && (o.InvalidSignature? <==> r.post && r.readable && Armed(secret, secrets) && !Proven(r, secret, secrets))
            && (o.Duplicate? <==> Passes(r, secret, secrets) && Repeated(r, seen, ttl))
            && var once := Passes(r, secret, secrets) && !Repeated(r, seen, ttl);
               && (o.InvalidPayload? <==> once && IsPush(r.headers) && r.push.None?)
               && (o.Ignored? <==> once && (!IsPush(r.headers) || (r.push.Some? && !Complete(r.push.value))))
               && (o.Accepted? <==> once && IsPush(r.headers) && r.push.Some? && Complete(r.push.value) && room)
               && (o.Unavailable? <==> once && IsPush(r.headers) && r.push.Some? && Complete(r.push.value) && !room)
  {
    AuthenticPasses(r, secret, secrets);
    HeadersFirst(r.headers);
    JobNamesBranch(r);
    hide Armed, Proven, NonEmpty, FirstOf, DeliveryOf, SignatureOf;
  }

  /**
   * A delivery refused because the queue was full, delivered again after any other requests: as long as
   * no other delivery with its ID has been let through, it is answered as a duplicate if and only if it
   * has an ID and no reading since has outlived it, whether or not there is room by then; otherwise it
   * gets to the queue.
   */
  lemma RefusedThenLost(secrets: seq<string>, ttl: int, arrivals: seq<Arrival>, i: nat, j: nat)
    requires ttl > 0 && i < j < |arrivals| && OutcomeOf(secrets, ttl, arrivals, i).Unavailable?
    requires arrivals[j].request == arrivals[i].request.(at := arrivals[j].request.at)
    requires var ds := Deliveries(secrets, arrivals);
             forall k :: i < k < j && ds[k].id == ds[i].id ==> IsReplay(ttl, ds, k)
    ensures var ds := Deliveries(secrets, arrivals);
            OutcomeOf(secrets, ttl, arrivals, j) ==
            if IdOf(arrivals[i].request) != "" && Within(ttl, ds, i, j) then Duplicate
            else if arrivals[j].room then Accepted
            else Unavailable
  {
    var ds := Deliveries(secrets, arrivals);
    NotReplay(secrets, ttl, arrivals, i);
    SameRequest(arrivals[i].request, arrivals[j].request, secrets);
    AgainIff(ttl, ds, i, j);
    SeenIsCache(secrets, ttl, arrivals[..j]);
    assert ds[..j] == Deliveries(secrets, arrivals[..j]);
  }

  lemma SameRequest(r: Request, later: Request, secrets: seq<string>)
    requires later == r.(at := later.at)
    ensures Authentic(r, secrets) <==> Authentic(later, secrets)
    ensures IdOf(later) == IdOf(r) && JobOf(later) == JobOf(r)
  {
    forall k | 0 <= k < |secrets|
      ensures VerifySignature(r, secrets[k], FirstOf(r.headers, SIGNATURE_HEADERS)) <==>
              VerifySignature(later, secrets[k], FirstOf(later.headers, SIGNATURE_HEADERS)) {
    }
  }
}
