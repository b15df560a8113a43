/** A client with the cache sees what a client without it would have seen. */
module ETagTransparency {
  import opened Basics
  import opened Lru
  import opened ETag

  /** What the origin holds: the full response to a request with this key and Accept-Encoding. */
  type Origin = (string, string) -> Response

  /** One exchange: the origin's state when it answers, and whether it honours a matching validator with a 304. */
  datatype Attempt = Attempt(origin: Origin, honors: bool, delivered: bool)

  /** The origin's answer to the request as sent. */
  function Answer(a: Attempt, req: Request): Response {
    var full := a.origin(Key(req), req.acceptEncoding);
    if req.verb == "GET" && req.ifNoneMatch != "" && a.honors && full.status == OK && full.etag == req.ifNoneMatch
    then Response(NOT_MODIFIED, full.etag, full.noStore, 0, Whole([]))
    else full
  }

  datatype Observed = Saw(status: int, body: Bytes) | Failed

  function Seen(h: Handled): Observed {
    match h
    case Passed(r) => Saw(r.status, r.body.bytes)
    case _ => Failed
  }

  /** A client without the cache sends the request as it is. */
  function UncachedFetch(a: Attempt, req: Request): Observed {
    Seen(Passed(Answer(a, req)))
  }

  /** `Fetch`: a request whose `earlier` attempts were retried and whose `last` one counts. */
  datatype Event =
    | Evict(key: string)
    | Fetch(req: Request, streaming: bool, earlier: seq<Attempt>, last: Attempt)

  /** On the streaming path every attempt prepares the request again and handles its own response. */
  function StreamEarlier(c: Lru<Entry>, max: nat, req: Request, earlier: seq<Attempt>): (Lru<Entry>, Request)
    requires c.Valid()
    decreases |earlier|
  {
    if earlier == [] then (c, req)
    else
      var r := Conditional(c, req);
      var c1 := AfterConditional(c, req);
      OperationsKeepValid(c, Key(req), Entry("", []));
      var c2 := if earlier[0].delivered then Handle(c1, max, r, Answer(earlier[0], r), true).0 else c1;
      StreamEarlier(c2, max, r, earlier[1..])
  }

  function Handle(c: Lru<Entry>, max: nat, req: Request, resp: Response, streaming: bool): (r: (Lru<Entry>, Handled))
    requires c.Valid()
    ensures r.0.Valid()
  {
    OperationsKeepValid(c, Key(req), Entry(resp.etag, resp.body.bytes));
    Processed(c, max, req, resp, streaming)
  }

  function CachedFetch(c: Lru<Entry>, max: nat, req: Request, streaming: bool, earlier: seq<Attempt>,
                       last: Attempt): (r: (Lru<Entry>, Handled))
    requires c.Valid()
    ensures r.0.Valid()
  {
    OperationsKeepValid(c, Key(req), Entry("", []));
    if streaming then
      var (c1, r) := StreamEarlier(c, max, req, earlier);
      StreamEarlierValid(c, max, req, earlier);
      OperationsKeepValid(c1, Key(r), Entry("", []));
      Handle(AfterConditional(c1, r), max, Conditional(c1, r), Answer(last, Conditional(c1, r)), true)
    else
      Handle(AfterConditional(c, req), max, Conditional(c, req), Answer(last, Conditional(c, req)), false)
  }

  lemma {:induction false} StreamEarlierValid(c: Lru<Entry>, max: nat, req: Request, earlier: seq<Attempt>)
    requires c.Valid()
    ensures StreamEarlier(c, max, req, earlier).0.Valid()
    decreases |earlier|
  {
    if earlier != [] {
      var r, c1 := Conditional(c, req), AfterConditional(c, req);
      OperationsKeepValid(c, Key(req), Entry("", []));
      var c2 := if earlier[0].delivered then Handle(c1, max, r, Answer(earlier[0], r), true).0 else c1;
      StreamEarlierValid(c2, max, r, earlier[1..]);
    }
  }

  function Run(c: Lru<Entry>, max: nat, events: seq<Event>): seq<Observed>
    requires c.Valid()
    decreases |events|
  {
    if events == [] then []
    else
      match events[0]
      case Evict(key) =>
        OperationsKeepValid(c, key, Entry("", []));
        Run(Removed(c, key), max, events[1..])
      case Fetch(req, streaming, earlier, last) =>
        var (c1, h) := CachedFetch(c, max, req, streaming, earlier, last);
        [Seen(h)] + Run(c1, max, events[1..])
  }

  function UncachedRun(events: seq<Event>): seq<Observed> {
    if events == [] then []
    else
      match events[0]
      case Evict(_) => UncachedRun(events[1..])
      case Fetch(req, _, _, last) => [UncachedFetch(last, req)] + UncachedRun(events[1..])
  }

  // ---------------------------------------------------------------- what is assumed of origins and callers

  /** The body that a validator stands for, key by key. */
  type Content = (string, string) -> Bytes

  /** A validator determines the body, an unconditional request is never answered 304, and bodies arrive whole. */
  ghost predicate Consistent(o: Origin, content: Content) {
    forall key: string, encoding: string ::
      var r := o(key, encoding);
      && r.status != NOT_MODIFIED && r.body.breaksAt.None?
      && (r.status == OK && r.etag != "" ==> r.body.bytes == content(key, r.etag))
  }

  /** An attempt that is retried got no answer, or one that was not a 200. */
  ghost predicate Retried(a: Attempt, req: Request, content: Content) {
    Consistent(a.origin, content) && (a.delivered ==> a.origin(Key(req), req.acceptEncoding).status != OK)
  }

  /** Callers set no validator of their own. */
  ghost predicate Allowed(e: Event, content: Content) {
    match e
    case Evict(_) => true
    case Fetch(req, _, earlier, last) =>
      && req.ifNoneMatch == ""
      && Consistent(last.origin, content)
      && forall i :: 0 <= i < |earlier| ==> Retried(earlier[i], req, content)
  }

  ghost predicate Faithful(c: Lru<Entry>, max: nat, content: Content) {
    c.Valid() && Bounded(c, max) && forall k :: k in c.entries ==> c.entries[k].body == content(k, c.entries[k].etag)
  }

  /** A request that is as the caller made it or carries the validator of its current entry. */
  predicate Prepared(c: Lru<Entry>, req: Request) {
    req.ifNoneMatch != "" ==> req.verb == "GET" && Key(req) in c.entries && c.entries[Key(req)].etag == req.ifNoneMatch
  }

  lemma ConditionalPrepares(c: Lru<Entry>, max: nat, req: Request, content: Content)
    requires Faithful(c, max, content) && Prepared(c, req)
    ensures Faithful(AfterConditional(c, req), max, content)
    ensures AfterConditional(c, req).entries == c.entries
    ensures Prepared(AfterConditional(c, req), Conditional(c, req))
    ensures Conditional(c, req).(ifNoneMatch := "") == req.(ifNoneMatch := "")
    ensures Key(Conditional(c, req)) == Key(req)
  {
    OperationsKeepValid(c, Key(req), Entry("", []));
  }

  lemma StoredFaithful(c: Lru<Entry>, max: nat, req: Request, r: Response, content: Content)
    requires Faithful(c, max, content) && (Cacheable(req, r) ==> r.body.bytes == content(Key(req), r.etag))
    ensures Faithful(Stored(c, max, req, r, r.body.bytes), max, content)
  {
    OperationsKeepValid(c, Key(req), Entry(r.etag, r.body.bytes));
  }

  lemma ExchangeKeepsFaithful(c: Lru<Entry>, max: nat, req: Request, a: Attempt, streaming: bool, content: Content)
    requires Faithful(c, max, content) && Prepared(c, req) && Consistent(a.origin, content)
    ensures
      var c1 := Handle(c, max, req, Answer(a, req), streaming).0;
      && Faithful(c1, max, content)
      && (a.origin(Key(req), req.acceptEncoding).status != OK ==> c1 == c)
  {
    var full := a.origin(Key(req), req.acceptEncoding);
    OperationsKeepValid(c, Key(req), Entry("", []));
    StoredFaithful(c, max, req, full, content);
    hide Stored, Faithful;
  }

  lemma ExchangeShowsTheSame(c: Lru<Entry>, max: nat, req: Request, a: Attempt, streaming: bool, content: Content)
    requires Faithful(c, max, content) && Prepared(c, req) && Consistent(a.origin, content)
    ensures Seen(Handle(c, max, req, Answer(a, req), streaming).1) == UncachedFetch(a, req.(ifNoneMatch := ""))
  {
    hide Stored;
    var full := a.origin(Key(req), req.acceptEncoding);
    assert Key(req) == Key(req.(ifNoneMatch := ""));
  }

  /** One exchange shows the caller what the origin would have shown without the validator. */
  lemma ExchangeIsTransparent(c: Lru<Entry>, max: nat, req: Request, a: Attempt, streaming: bool, content: Content)
    requires Faithful(c, max, content) && Prepared(c, req) && Consistent(a.origin, content)
    ensures
      var (c1, h) := Handle(c, max, req, Answer(a, req), streaming);
      && Faithful(c1, max, content)
      && Seen(h) == UncachedFetch(a, req.(ifNoneMatch := ""))
      && (a.origin(Key(req), req.acceptEncoding).status != OK ==> c1 == c)
  {
    ExchangeKeepsFaithful(c, max, req, a, streaming, content);
    ExchangeShowsTheSame(c, max, req, a, streaming, content);
  }

  lemma {:induction false} EarlierLeaveNoTrace(c: Lru<Entry>, max: nat, req: Request, earlier: seq<Attempt>,
                                               content: Content)
    requires Faithful(c, max, content) && Prepared(c, req)
    requires forall i :: 0 <= i < |earlier| ==> Retried(earlier[i], req, content)
    ensures
      var (c1, r) := StreamEarlier(c, max, req, earlier);
      Faithful(c1, max, content) && Prepared(c1, r) && r.(ifNoneMatch := "") == req.(ifNoneMatch := "")
    decreases |earlier|
  {
    if earlier != [] {
      var r, c1 := Conditional(c, req), AfterConditional(c, req);
      ConditionalPrepares(c, max, req, content);
      assert Retried(earlier[0], req, content);
      ExchangeIsTransparent(c1, max, r, earlier[0], true, content);
      EarlierLeaveNoTrace(c1, max, r, earlier[1..], content);
    }
  }

  lemma FetchIsTransparent(c: Lru<Entry>, max: nat, req: Request, streaming: bool, earlier: seq<Attempt>,
                           last: Attempt, content: Content)
    requires Faithful(c, max, content) && Allowed(Fetch(req, streaming, earlier, last), content)
    ensures
      var (c1, h) := CachedFetch(c, max, req, streaming, earlier, last);
      Faithful(c1, max, content) && Seen(h) == UncachedFetch(last, req)
  {
    var c1, r := c, req;
    if streaming {
      EarlierLeaveNoTrace(c, max, req, earlier, content);
      c1, r := StreamEarlier(c, max, req, earlier).0, StreamEarlier(c, max, req, earlier).1;
    }
    ConditionalPrepares(c1, max, r, content);
    ExchangeIsTransparent(AfterConditional(c1, r), max, Conditional(c1, r), last, streaming, content);
    assert r.(ifNoneMatch := "") == req;
    assert Conditional(c1, r).(ifNoneMatch := "") == req;
  }

  /** Main result: over every sequential run of requests, retries, origin changes and evictions, on both response
      paths, the cached client observes exactly the statuses and bodies of the uncached one. */
  lemma {:induction false} CachedRunIsUncachedRun(c: Lru<Entry>, max: nat, events: seq<Event>, content: Content)
    requires Faithful(c, max, content) && forall i :: 0 <= i < |events| ==> Allowed(events[i], content)
    ensures Run(c, max, events) == UncachedRun(events)
    decreases |events|
  {
    if events != [] {
      match events[0]
      case Evict(key) =>
        OperationsKeepValid(c, key, Entry("", []));
        CachedRunIsUncachedRun(Removed(c, key), max, events[1..], content);
      case Fetch(req, streaming, earlier, last) =>
        assert Allowed(events[0], content);
        FetchIsTransparent(c, max, req, streaming, earlier, last, content);
        CachedRunIsUncachedRun(CachedFetch(c, max, req, streaming, earlier, last).0, max, events[1..], content);
    }
  }

  /** An empty cache, and so every run of a new client, satisfies the premise. */
  lemma EmptyIsFaithful(capacity: nat, max: nat, content: Content)
    requires capacity > 0
    ensures Faithful(Lru([], map[], capacity), max, content)
  {
  }
}
