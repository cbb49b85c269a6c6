/**
 The `POST /webhook` handler: rate limit, signature, deduplication and parsing in that order, and
 how it composes with the deduplicating router behind it.
 */
module Webhook {
  import opened Base
  import Dedup
  import opened Routing
  import TB = TokenBuckets

  /** A header is absent, readable text, or bytes that are not text. */
  datatype Header = Absent | Readable(value: string) | Unreadable

  datatype Request = Request(requestId: Header, idempotencyKey: Header, signature: Header, body: string)

  datatype Response = TooManyRequests | Unauthorized | Accepted | BadRequest

  /** The secret, if signatures are checked, and the parts of the handler that are not modelled:
      signature verification and JSON parsing. */
  datatype Config = Config(
    secret: Option<string>,
    verify: (string, string, string) -> bool,
    parse: string -> Option<ChannelMessage>,
    ttl: nat)

  function TextOf(h: Header): Option<string> {
    if h.Readable? then Some(h.value) else None
  }

  /** The first of the two headers that is present decides, even when it cannot be read. */
  function RequestId(req: Request): Option<string> {
    TextOf(if req.requestId != Absent then req.requestId else req.idempotencyKey)
  }

  predicate SignatureOk(cfg: Config, req: Request) {
    cfg.secret.Some? ==> cfg.verify(cfg.secret.value, req.body, TextOf(req.signature).GetOr(""))
  }

  /** The message as it is queued: the request id replaces the id in the body. */
  function Stamped(msg: ChannelMessage, rid: Option<string>): ChannelMessage {
    if rid.Some? then msg.(id := rid.value) else msg
  }

  /** What a request admitted by the rate limiter does to the cache and the queue. */
  function Admit(cfg: Config, cache: Dedup.Cache, req: Request, now: int, sweep: bool)
    : (Response, Dedup.Cache, Option<ChannelMessage>)
  {
    if !SignatureOk(cfg, req) then (Unauthorized, cache, None)
    else
      var rid := RequestId(req);
      var (isNew, cache') := if rid.Some? then Dedup.Check(cache, cfg.ttl, rid.value, now, sweep) else (true, cache);
      if !isNew then (Accepted, cache', None)
      else
        match cfg.parse(req.body)
        case None => (BadRequest, cache', None)
        case Some(msg) => (Accepted, cache', Some(Stamped(msg, rid)))
  }

  /** What a request that the limiter allows is answered, and what it leaves, told on its headers and body:
      a signature that does not verify, an id seen less than `ttl` ago, a body that does not parse, or a
      message for the queue. */
  ghost predicate PostMeans(cfg: Config, req: Request, now: int, seen0: Dedup.Cache, queue0: seq<ChannelMessage>,
                            resp: Response, seen: Dedup.Cache, queue: seq<ChannelMessage>)
  {
    var signature := match req.signature case Readable(v) => v case _ => "";
    var id := match req.requestId
              case Readable(v) => Some(v)
              case Unreadable => None
              case Absent => (match req.idempotencyKey case Readable(v) => Some(v) case _ => None);
    if cfg.secret.Some? && !cfg.verify(cfg.secret.value, req.body, signature) then
      resp == Unauthorized && queue == queue0 && seen == seen0
    else if id.Some? && id.value in seen0 && cfg.ttl > 0 && now - seen0[id.value] < cfg.ttl then
      resp == Accepted && queue == queue0
    else
      && (if id.Some? then id.value in seen && seen[id.value] == now else seen == seen0)
      && match cfg.parse(req.body)
         case None => resp == BadRequest && queue == queue0
         case Some(msg) => resp == Accepted && queue == queue0 + [if id.Some? then msg.(id := id.value) else msg]
  }

  lemma AdmitMeans(cfg: Config, cache: Dedup.Cache, req: Request, now: int, sweep: bool, queue: seq<ChannelMessage>)
    ensures var (resp, cache', queued) := Admit(cfg, cache, req, now, sweep);
            PostMeans(cfg, req, now, cache, queue, resp, cache', queue + if queued.Some? then [queued.value] else [])
  {
  }

  class WebhookHandler {
    const cfg: Config
    const bucket: TB.TokenBucket
    const dedup: Dedup.RequestDeduplicator
    var queue: seq<ChannelMessage>

    constructor (cfg: Config, bucket: TB.TokenBucket, dedup: Dedup.RequestDeduplicator)
      ensures this.cfg == cfg && this.bucket == bucket && this.dedup == dedup && queue == []
    {
      this.cfg, this.bucket, this.dedup, queue := cfg, bucket, dedup, [];
    }

    /** `at` and `now` are the clock readings of the limiter and of the cache. */
    method Post(req: Request, at: real, now: int) returns (resp: Response)
      requires bucket.Valid() && dedup.gcInterval > 0 && dedup.ttl == cfg.ttl
      modifies this`queue, bucket, dedup
      ensures bucket.Valid()
      ensures var (allowed, level) := TB.Consume(bucket.capacity, TB.RefillOf(bucket.capacity, bucket.per),
                                                 old(bucket.State()), at);
              && bucket.State() == level
              && (!allowed ==>
                    resp == TooManyRequests && queue == old(queue)
                    && dedup.seen == old(dedup.seen) && dedup.callCount == old(dedup.callCount))
              && (allowed ==>
                    var (r, cache, queued) := Admit(cfg, old(dedup.seen), req, now,
                                                    old(dedup.callCount) % dedup.gcInterval == 0);
                    && resp == r && dedup.seen == cache
                    && queue == old(queue) + (if queued.Some? then [queued.value] else []))
      ensures resp == Unauthorized ==> dedup.seen == old(dedup.seen) && dedup.callCount == old(dedup.callCount)
      ensures resp != TooManyRequests ==>
                PostMeans(cfg, req, now, old(dedup.seen), old(queue), resp, dedup.seen, queue)
      ensures resp == TooManyRequests <==>
              !TB.Consume(bucket.capacity, TB.RefillOf(bucket.capacity, bucket.per), old(bucket.State()), at).0
    {
      AdmitMeans(cfg, dedup.seen, req, now, dedup.callCount % dedup.gcInterval == 0, queue);
      var allowed := bucket.TryConsume(at);
      if !allowed {
        return TooManyRequests;
      }
      if cfg.secret.Some? {
        var sig := TextOf(req.signature).GetOr("");
        if !cfg.verify(cfg.secret.value, req.body, sig) {
          return Unauthorized;
        }
      }
      var header := if req.requestId != Absent then req.requestId else req.idempotencyKey;
      var requestId := TextOf(header);
      if requestId.Some? {
        var isNew := dedup.CheckAndInsert(requestId.value, now);
        if !isNew {
          return Accepted;
        }
      }
      var parsed := cfg.parse(req.body);
      if parsed.None? {
        return BadRequest;
      }
      var msg := parsed.value;
      if requestId.Some? {
        msg := msg.(id := requestId.value);
      }
      queue := queue + [msg];
      return Accepted;
    }
  }

  /** One admitted post; where both layers see it, they sweep independently. */
  datatype Post = Post(req: Request, now: int, sweepHttp: bool, sweepRouter: bool)

  // ---- a body that does not parse ----

  /** The HTTP cache after further admitted posts. */
  function AdmitAll(cfg: Config, cache: Dedup.Cache, posts: seq<Post>): Dedup.Cache {
    if posts == [] then cache
    else
      var p := posts[|posts| - 1];
      Admit(cfg, AdmitAll(cfg, cache, posts[..|posts| - 1]), p.req, p.now, p.sweepHttp).1
  }

  /** Posts of other ids, none stamped past `later`. */
  ghost predicate OthersUntil(posts: seq<Post>, id: string, later: int) {
    forall i :: 0 <= i < |posts| ==> RequestId(posts[i].req) != Some(id) && posts[i].now <= later
  }

  /** An entry outlasts the posts of other ids as long as it has not expired. */
  lemma {:induction false} EntryOutlastsOthers(cfg: Config, cache: Dedup.Cache, posts: seq<Post>, id: string, later: int)
    requires id in cache && cache[id] <= later && OthersUntil(posts, id, later)
    ensures var after := AdmitAll(cfg, cache, posts);
            if id in after then after[id] == cache[id] else later - cache[id] >= cfg.ttl
  {
    if posts == [] {
    } else {
      EntryOutlastsOthers(cfg, cache, posts[..|posts| - 1], id, later);
    }
  }

  /** A new id is used up even by a body that does not parse: whatever other ids are posted in between,
      a corrected retry is acknowledged, and it is queued exactly when the time to live is over. */
  lemma BadBodyUsesUpTheId(cfg: Config, cache: Dedup.Cache, first: Request, now: int, s: bool, others: seq<Post>,
                           retry: Request, later: int, s': bool)
    requires SignatureOk(cfg, first) && SignatureOk(cfg, retry)
    requires RequestId(first).Some? && RequestId(retry) == RequestId(first)
    requires Admit(cfg, cache, first, now, s).0 == BadRequest
    requires now <= later && OthersUntil(others, RequestId(first).value, later)
    ensures var before := AdmitAll(cfg, Admit(cfg, cache, first, now, s).1, others);
            var (resp, _, queued) := Admit(cfg, before, retry, later, s');
            && (queued.Some? <==> cfg.parse(retry.body).Some? && later >= now + cfg.ttl)
            && (resp == Accepted <==> cfg.parse(retry.body).Some? || later < now + cfg.ttl)
  {
    var id := RequestId(first).value;
    var used := Admit(cfg, cache, first, now, s).1;
    assert used[id] == now;
    EntryOutlastsOthers(cfg, used, others, id, later);
  }

  // ---- the two layers together ----

  datatype Layers = Layers(http: Dedup.Cache, router: Dedup.Cache)

  /** The caches afterwards, what was queued, and whether the router let it through. */
  function Deliver(cfg: Config, l: Layers, p: Post): (Layers, Option<ChannelMessage>, bool) {
    var (_, http, queued) := Admit(cfg, l.http, p.req, p.now, p.sweepHttp);
    if queued.None? then (Layers(http, l.router), None, false)
    else
      var (isNew, router) := Dedup.Check(l.router, cfg.ttl, queued.value.id, p.now, p.sweepRouter);
      (Layers(http, router), queued, isNew)
  }

  function DeliverAll(cfg: Config, posts: seq<Post>): Layers {
    if posts == [] then Layers(map[], map[])
    else
      var n := |posts| - 1;
      Deliver(cfg, DeliverAll(cfg, posts[..n]), posts[n]).0
  }

  ghost predicate Monotone(posts: seq<Post>) {
    forall i, j :: 0 <= i < j < |posts| ==> posts[i].now <= posts[j].now
  }

  /** Ids from headers and ids from the bodies of header-less requests are kept apart. */
  ghost predicate IdsApart(cfg: Config, headerIds: iset<string>, req: Request) {
    var rid := RequestId(req);
    && (rid.Some? ==> rid.value in headerIds)
    && (rid.None? && cfg.parse(req.body).Some? ==> cfg.parse(req.body).value.id !in headerIds)
  }

  /** Stamps in the caches do not lie ahead of `now`. */
  ghost predicate Past(l: Layers, now: int, id: string) {
    (id in l.http ==> l.http[id] <= now) && (id in l.router ==> l.router[id] <= now)
  }

  /** What a delivery does to the HTTP layer's entry for an id. */
  lemma HttpEntryStep(cfg: Config, l: Layers, p: Post, id: string, since: int)
    requires Past(l, p.now, id)
    ensures var (l', queued, _) := Deliver(cfg, l, p);
            && (id in l'.http ==> l'.http[id] <= p.now)
            && (id in l.http && l.http[id] >= since ==> (id in l'.http && l'.http[id] >= since) || p.now - since >= cfg.ttl)
            && (queued.Some? && RequestId(p.req) == Some(id) ==>
                  && queued.value.id == id && id in l'.http && l'.http[id] == p.now
                  && (id in l.http ==> p.now - l.http[id] >= cfg.ttl))
  {
  }

  /** And to the router's. */
  lemma RouterEntryStep(cfg: Config, l: Layers, p: Post, id: string, since: int)
    requires Past(l, p.now, id)
    ensures var (l', queued, routed) := Deliver(cfg, l, p);
            && (id in l'.router ==> l'.router[id] <= p.now)
            && (id in l.router && l.router[id] >= since ==>
                  (id in l'.router && l'.router[id] >= since) || p.now - since >= cfg.ttl)
            && (id in l'.router ==>
                  || (routed && queued.value.id == id && l'.router[id] == p.now)
                  || (id in l.router && l'.router[id] == l.router[id]))
            && (queued.Some? && queued.value.id == id ==>
                  && (routed <==> !(id in l.router && p.now - l.router[id] < cfg.ttl))
                  && (routed ==> id in l'.router && l'.router[id] == p.now))
  {
  }

  function Delivered(cfg: Config, posts: seq<Post>, i: nat): (Layers, Option<ChannelMessage>, bool)
    requires i < |posts|
  {
    Deliver(cfg, DeliverAll(cfg, posts[..i]), posts[i])
  }

  /** Post `j` was routed under this id. */
  predicate RoutedAs(cfg: Config, posts: seq<Post>, j: nat, id: string)
    requires j < |posts|
  {
    var (_, queued, routed) := Delivered(cfg, posts, j);
    routed && queued.Some? && queued.value.id == id
  }

  /** Post `j` is where the router's entry comes from; a header id was noted by the HTTP layer then. */
  ghost predicate Source(cfg: Config, posts: seq<Post>, l: Layers, now: int, j: nat, id: string) {
    && j < |posts| && RoutedAs(cfg, posts, j, id) && id in l.router && posts[j].now == l.router[id]
    && (RequestId(posts[j].req).Some? ==>
          (id in l.http && l.http[id] >= posts[j].now) || now - posts[j].now >= cfg.ttl)
  }

  ghost predicate HasSource(cfg: Config, posts: seq<Post>, l: Layers, now: int, id: string) {
    exists j: nat :: Source(cfg, posts, l, now, j, id)
  }

  /** A post routed under the id is still in the router's cache, or expired. */
  ghost predicate Kept(cfg: Config, posts: seq<Post>, l: Layers, now: int, j: nat, id: string)
    requires j < |posts|
  {
    RoutedAs(cfg, posts, j, id) ==> (id in l.router && l.router[id] >= posts[j].now) || now - posts[j].now >= cfg.ttl
  }

  ghost predicate Traced(cfg: Config, posts: seq<Post>, now: int, id: string) {
    var l := DeliverAll(cfg, posts);
    && Past(l, now, id)
    && (id in l.router ==> HasSource(cfg, posts, l, now, id))
    && (forall j: nat :: j < |posts| ==> Kept(cfg, posts, l, now, j, id))
  }

  lemma SourceStep(cfg: Config, posts: seq<Post>, before: int, id: string)
    requires posts != [] && Traced(cfg, posts[..|posts| - 1], before, id) && before <= posts[|posts| - 1].now
    ensures var l := DeliverAll(cfg, posts);
            id in l.router ==> HasSource(cfg, posts, l, posts[|posts| - 1].now, id)
  {
    var n := |posts| - 1;
    var l, l' := DeliverAll(cfg, posts[..n]), DeliverAll(cfg, posts);
    RouterEntryStep(cfg, l, posts[n], id, 0);
    if id in l'.router {
      if RoutedAs(cfg, posts, n, id) && l'.router[id] == posts[n].now {
        HttpEntryStep(cfg, l, posts[n], id, 0);
        assert Source(cfg, posts, l', posts[n].now, n, id);
      } else {
        var j: nat :| Source(cfg, posts[..n], l, before, j, id);
        RoutedBefore(cfg, posts, n, j, id);
        HttpEntryStep(cfg, l, posts[n], id, posts[j].now);
        assert Source(cfg, posts, l', posts[n].now, j, id);
      }
    }
  }

  lemma RoutedBefore(cfg: Config, posts: seq<Post>, n: nat, j: nat, id: string)
    requires j < n <= |posts|
    ensures RoutedAs(cfg, posts[..n], j, id) == RoutedAs(cfg, posts, j, id)
  {
    assert posts[..n][..j] == posts[..j];
  }

  lemma KeptStep(cfg: Config, posts: seq<Post>, before: int, id: string, j: nat)
    requires j < |posts| && before <= posts[|posts| - 1].now
    requires Past(DeliverAll(cfg, posts[..|posts| - 1]), posts[|posts| - 1].now, id)
    requires j < |posts| - 1 ==> Kept(cfg, posts[..|posts| - 1], DeliverAll(cfg, posts[..|posts| - 1]), before, j, id)
    ensures Kept(cfg, posts, DeliverAll(cfg, posts), posts[|posts| - 1].now, j, id)
  {
    var n := |posts| - 1;
    RouterEntryStep(cfg, DeliverAll(cfg, posts[..n]), posts[n], id, posts[j].now);
    if j < n {
      RoutedBefore(cfg, posts, n, j, id);
    }
  }

  lemma {:induction false} AlwaysTraced(cfg: Config, posts: seq<Post>, now: int, id: string)
    requires Monotone(posts) && (posts != [] ==> posts[|posts| - 1].now == now)
    ensures Traced(cfg, posts, now, id)
  {
    if posts == [] {
    } else {
      var n := |posts| - 1;
      var before := if n == 0 then now else posts[n - 1].now;
      AlwaysTraced(cfg, posts[..n], before, id);
      HttpEntryStep(cfg, DeliverAll(cfg, posts[..n]), posts[n], id, 0);
      RouterEntryStep(cfg, DeliverAll(cfg, posts[..n]), posts[n], id, 0);
      SourceStep(cfg, posts, before, id);
      forall j: nat | j < |posts|
        ensures Kept(cfg, posts, DeliverAll(cfg, posts), now, j, id)
      {
        assert j < n ==> Kept(cfg, posts[..n], DeliverAll(cfg, posts[..n]), before, j, id);
        KeptStep(cfg, posts, before, id, j);
      }
    }
  }

  /** Post `j` carried no header id, named this id in its body, and was routed less than `ttl` before. */
  ghost predicate Shadows(cfg: Config, posts: seq<Post>, j: nat, id: string, now: int) {
    j < |posts| && RequestId(posts[j].req).None? && RoutedAs(cfg, posts, j, id) && now - posts[j].now < cfg.ttl
  }

  /** With no delay between the layers: what the HTTP layer queues under a header id, the router drops
      exactly when a header-less post with the same id in its body was routed within the time to live. */
  lemma RouterDropsIff(cfg: Config, posts: seq<Post>, i: nat)
    requires Monotone(posts) && i < |posts| && RequestId(posts[i].req).Some?
    ensures var (_, queued, routed) := Delivered(cfg, posts, i);
            queued.Some? ==>
              (!routed <==> exists j: nat :: Shadows(cfg, posts[..i], j, RequestId(posts[i].req).value, posts[i].now))
  {
    var id := RequestId(posts[i].req).value;
    var earlier := posts[..i];
    var before := if i == 0 then posts[i].now else posts[i - 1].now;
    var l := DeliverAll(cfg, earlier);
    AlwaysTraced(cfg, earlier, before, id);
    HttpEntryStep(cfg, l, posts[i], id, 0);
    RouterEntryStep(cfg, l, posts[i], id, 0);
    var (_, queued, routed) := Delivered(cfg, posts, i);
    if queued.Some? {
      if !routed {
        var j: nat :| Source(cfg, earlier, l, before, j, id);
        assert Shadows(cfg, earlier, j, id, posts[i].now);
      }
      if j: nat :| Shadows(cfg, earlier, j, id, posts[i].now) {
        assert Kept(cfg, earlier, l, before, j, id);
      }
    }
  }

  /** With no delay between the layers and header ids kept apart from body ids, the router drops
      nothing that the HTTP layer queued under a header id. */
  lemma RouterDropsNothing(cfg: Config, headerIds: iset<string>, posts: seq<Post>, i: nat)
    requires Monotone(posts) && forall i :: 0 <= i < |posts| ==> IdsApart(cfg, headerIds, posts[i].req)
    requires i < |posts| && RequestId(posts[i].req).Some?
    ensures var (_, queued, routed) := Delivered(cfg, posts, i);
            queued.Some? ==> routed
  {
    var id := RequestId(posts[i].req).value;
    RouterDropsIff(cfg, posts, i);
    if j: nat :| Shadows(cfg, posts[..i], j, id, posts[i].now) {
      assert IdsApart(cfg, headerIds, posts[j].req) && IdsApart(cfg, headerIds, posts[i].req);
      assert cfg.parse(posts[j].req.body).value.id == id;
    }
  }

  /** Without that separation it can: a header-less body that reuses an id blocks a header id. */
  lemma SharedIdsCanBeDropped(cfg: Config, plain: Request, keyed: Request)
    requires cfg.ttl > 0 && cfg.secret == None
    requires RequestId(plain) == None && RequestId(keyed).Some?
    requires cfg.parse(plain.body).Some? && cfg.parse(keyed.body).Some?
    requires cfg.parse(plain.body).value.id == RequestId(keyed).value
    ensures var (l, q, first) := Deliver(cfg, Layers(map[], map[]), Post(plain, 0, false, false));
            var (_, queued, second) := Deliver(cfg, l, Post(keyed, 0, false, false));
            first && queued.Some? && !second
  {
    var (l, q, first) := Deliver(cfg, Layers(map[], map[]), Post(plain, 0, false, false));
    assert l.router[RequestId(keyed).value] == 0;
  }

  /** What reaches the router, in order: whatever the HTTP layer lets through, restarts included. */
  ghost predicate RoutedTwice(ttl: nat, calls: seq<Dedup.Call>, i: nat, j: nat) {
    && i < j < |calls| && calls[i].id == calls[j].id
    && Dedup.Run(ttl, calls).0[i] && Dedup.Run(ttl, calls).0[j]
  }

  datatype Event =
    | Receive(post: Request, now: int, sweep: bool)
    | Restart
    | RouteNext(now: int, sweep: bool)

  /** The HTTP cache, the messages queued, and the calls the router has answered. */
  datatype Pipeline = Pipeline(http: Dedup.Cache, queue: seq<ChannelMessage>, calls: seq<Dedup.Call>)

  function Advance(cfg: Config, s: Pipeline, e: Event): Pipeline {
    match e
    case Receive(req, now, sweep) =>
      var (_, http, queued) := Admit(cfg, s.http, req, now, sweep);
      s.(http := http, queue := s.queue + if queued.Some? then [queued.value] else [])
    case Restart => s.(http := map[])
    case RouteNext(now, sweep) =>
      if s.queue == [] then s
      else s.(queue := s.queue[1..], calls := s.calls + [Dedup.Call(s.queue[0].id, now, sweep)])
  }

  function AdvanceAll(cfg: Config, events: seq<Event>): Pipeline {
    if events == [] then Pipeline(map[], [], [])
    else Advance(cfg, AdvanceAll(cfg, events[..|events| - 1]), events[|events| - 1])
  }

  /** The router's own clock does not run backwards. */
  ghost predicate RouterClock(events: seq<Event>) {
    forall i, j :: 0 <= i < j < |events| && events[i].RouteNext? && events[j].RouteNext? ==> events[i].now <= events[j].now
  }

  ghost predicate RoutedAt(events: seq<Event>, t: int) {
    exists i :: 0 <= i < |events| && events[i].RouteNext? && events[i].now == t
  }

  lemma {:induction false} RouterCallsOrdered(cfg: Config, events: seq<Event>)
    requires RouterClock(events)
    ensures Dedup.Lagging(AdvanceAll(cfg, events).calls, 0)
    ensures forall k :: 0 <= k < |AdvanceAll(cfg, events).calls| ==> RoutedAt(events, AdvanceAll(cfg, events).calls[k].now)
  {
    if events == [] {
    } else {
      var n := |events| - 1;
      var before := events[..n];
      RouterCallsOrdered(cfg, before);
      var past, calls := AdvanceAll(cfg, before).calls, AdvanceAll(cfg, events).calls;
      forall k | 0 <= k < |past|
        ensures RoutedAt(events, past[k].now)
        ensures events[n].RouteNext? ==> past[k].now <= events[n].now
      {
        assert RoutedAt(before, past[k].now);
        var i :| 0 <= i < |before| && before[i].RouteNext? && before[i].now == past[k].now;
        assert events[i] == before[i];
      }
      if |calls| > |past| {
        assert events[n].RouteNext? && events[n].now == calls[|past|].now;
        assert RoutedAt(events, calls[|past|].now);
      }
    }
  }

  /** End to end: whatever is posted, and however often the HTTP cache is lost, one id is routed at
      most once per time to live. The router alone sees to that: the conclusion needs nothing of the
      HTTP layer, its queue or its restarts, only the order of the router's own clock readings. */
  lemma RoutedOncePerTtl(cfg: Config, events: seq<Event>, i: nat, j: nat)
    requires RouterClock(events) && RoutedTwice(cfg.ttl, AdvanceAll(cfg, events).calls, i, j)
    ensures var calls := AdvanceAll(cfg, events).calls; calls[j].now - calls[i].now >= cfg.ttl
  {
    RouterCallsOrdered(cfg, events);
    Dedup.AcceptancesAreApart(cfg.ttl, AdvanceAll(cfg, events).calls, 0, i, j);
  }
}
