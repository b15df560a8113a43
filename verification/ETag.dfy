/** Conditional requests: the validator cache and its two response paths. */
module ETag {
  import opened Basics
  import opened Lru
  import opened Separators

  datatype Request = Request(verb: string, url: string, accept: string, authorization: string, privateToken: string,
                             acceptEncoding: string, ifNoneMatch: string)

  /** A response body still to be read: reading past `breaksAt` bytes fails. */
  datatype Body = Body(bytes: Bytes, breaksAt: Option<nat>)

  /** `noStore`: some Cache-Control directive is no-store. `contentLength` is -1 when not declared. */
  datatype Response = Response(status: int, etag: string, noStore: bool, contentLength: int, body: Body)

  datatype Entry = Entry(etag: string, body: Bytes)

  datatype Handled = Passed(response: Response) | EntryGone | ReadFailed

  const DEFAULT_ENTRIES := 128
  const OK := 200
  const NOT_MODIFIED := 304

  function Key(req: Request): string {
    req.verb + " " + req.url + "\n" + req.accept + "\n" + req.authorization + "\n" + req.privateToken
  }

  function Whole(bytes: Bytes): Body {
    Body(bytes, None)
  }

  predicate Cacheable(req: Request, resp: Response) {
    req.verb == "GET" && resp.status == OK && resp.etag != "" && req.acceptEncoding == "" && !resp.noStore
  }

  function Conditional(c: Lru<Entry>, req: Request): Request {
    if req.verb == "GET" && req.ifNoneMatch == "" && Key(req) in c.entries
    then req.(ifNoneMatch := c.entries[Key(req)].etag) else req
  }

  function AfterConditional(c: Lru<Entry>, req: Request): Lru<Entry> {
    if req.verb == "GET" && req.ifNoneMatch == "" then Got(c, Key(req)) else c
  }

  function Stored(c: Lru<Entry>, max: nat, req: Request, resp: Response, body: Bytes): Lru<Entry>
    requires c.Valid()
  {
    if Cacheable(req, resp) && |body| <= max then Added(c, Key(req), Entry(resp.etag, body)) else c
  }

  /** The 200 rebuilt from a cached entry. */
  function Synthesized(e: Entry): Response {
    Response(OK, e.etag, false, |e.body|, Whole(e.body))
  }

  /** What becomes of a response, on either path, for a cache in state `c`. */
  function Processed(c: Lru<Entry>, max: nat, req: Request, resp: Response, streaming: bool): (Lru<Entry>, Handled)
    requires c.Valid()
  {
    if resp.status == NOT_MODIFIED then
      if Key(req) in c.entries then (Got(c, Key(req)), Passed(Synthesized(c.entries[Key(req)])))
      else (c, EntryGone)
    else if !streaming then
      if resp.body.breaksAt.Some? then (c, ReadFailed)
      else (Stored(c, max, req, resp, resp.body.bytes), Passed(resp))
    else if !Cacheable(req, resp) || resp.contentLength > max then (c, Passed(resp))
    else if resp.body.breaksAt.Some? && resp.body.breaksAt.value <= max then (c, ReadFailed)
    else if |resp.body.bytes| > max then (c, Passed(resp))
    else (Stored(c, max, req, resp, resp.body.bytes),
          Passed(resp.(contentLength := |resp.body.bytes|, body := Whole(resp.body.bytes))))
  }

  class ETagCache {
    var cache: Lru<Entry>
    const maxBodySize: nat

    ghost predicate Valid()
      reads this
    {
      cache.Valid() && Bounded(cache, maxBodySize)
    }

    constructor (maxEntries: int, maxBodySize: nat)
      ensures Valid() && cache.entries == map[] && this.maxBodySize == maxBodySize
      ensures cache.capacity == if maxEntries <= 0 then DEFAULT_ENTRIES else maxEntries
    {
      cache := Lru([], map[], if maxEntries <= 0 then DEFAULT_ENTRIES else maxEntries);
      this.maxBodySize := maxBodySize;
    }

    /** Adds the stored validator to a GET without one. */
    method ApplyConditional(req: Request) returns (r: Request)
      requires Valid()
      modifies this`cache
      ensures Valid() && r == old(Conditional(cache, req)) && cache == old(AfterConditional(cache, req))
    {
      if req.verb != "GET" || req.ifNoneMatch != "" {
        return req;
      }
      var key := Key(req);
      r := req;
      if key in cache.entries {
        r := req.(ifNoneMatch := cache.entries[key].etag);
      }
      OperationsKeepValid(cache, key, Entry("", []));
      cache := Got(cache, key);
    }

    method Store(req: Request, resp: Response, body: Bytes)
      requires Valid()
      modifies this`cache
      ensures Valid() && cache == old(Stored(cache, maxBodySize, req, resp, body))
    {
      if Cacheable(req, resp) && |body| <= maxBodySize {
        OperationsKeepValid(cache, Key(req), Entry(resp.etag, body));
        cache := Added(cache, Key(req), Entry(resp.etag, body));
      }
    }

    /** The body was already read in full. */
    method Process(req: Request, resp: Response) returns (h: Handled)
      requires Valid() && resp.body.breaksAt.None?
      modifies this`cache
      ensures Valid() && (cache, h) == old(Processed(cache, maxBodySize, req, resp, false))
    {
      if resp.status == NOT_MODIFIED {
        var key := Key(req);
        if key in cache.entries {
          h := Passed(Synthesized(cache.entries[key]));
          OperationsKeepValid(cache, key, cache.entries[key]);
          cache := Got(cache, key);
        } else {
          h := EntryGone;
        }
        return;
      }
      if resp.status == OK {
        Store(req, resp, resp.body.bytes);
      }
      h := Passed(resp);
    }

    /** The body is still streaming: read at most one byte more than may be cached, and replay what was read. */
    method ProcessRT(req: Request, resp: Response) returns (h: Handled)
      requires Valid() && (resp.body.breaksAt.Some? ==> resp.body.breaksAt.value <= |resp.body.bytes|)
      modifies this`cache
      ensures Valid() && (cache, h) == old(Processed(cache, maxBodySize, req, resp, true))
    {
      if resp.status == NOT_MODIFIED {
        var key := Key(req);
        if key !in cache.entries {
          return EntryGone;
        }
        h := Passed(Synthesized(cache.entries[key]));
        OperationsKeepValid(cache, key, cache.entries[key]);
        cache := Got(cache, key);
        return;
      }
      if !Cacheable(req, resp) || resp.contentLength > maxBodySize {
        return Passed(resp);
      }
      var head, rest, ok := ReadUpTo(resp.body, maxBodySize + 1);
      if !ok {
        return ReadFailed;
      }
      if |head| > maxBodySize {
        assert head + rest.bytes == resp.body.bytes;
        return Passed(resp.(body := Body(head + rest.bytes,
                                         if rest.breaksAt.Some? then Some(|head| + rest.breaksAt.value) else None)));
      }
      assert head == resp.body.bytes;
      Store(req, resp, head);
      h := Passed(resp.(contentLength := |head|, body := Whole(head)));
    }
  }

  /** Reads until `limit` bytes, the end of the body or a failure. */
  method ReadUpTo(body: Body, limit: nat) returns (head: Bytes, rest: Body, ok: bool)
    requires body.breaksAt.Some? ==> body.breaksAt.value <= |body.bytes|
    ensures ok <==> !(body.breaksAt.Some? && body.breaksAt.value < limit)
    ensures ok ==> head + rest.bytes == body.bytes && |head| == (if |body.bytes| < limit then |body.bytes| else limit)
    ensures ok ==> rest.breaksAt == if body.breaksAt.Some? then Some(body.breaksAt.value - |head|) else None
    ensures ok && body.breaksAt.Some? ==> |head| <= body.breaksAt.value
  {
    head, rest, ok := [], body, true;
    while |head| < limit && |head| < |body.bytes|
      invariant |head| <= limit && |head| <= |body.bytes| && head == body.bytes[..|head|]
      invariant body.breaksAt.Some? ==> |head| <= body.breaksAt.value
    {
      if body.breaksAt == Some(|head|) {
        ok := false;
        return;
      }
      head := head + [body.bytes[|head|]];
    }
    if |head| < limit && body.breaksAt == Some(|head|) {
      ok := false;
      return;
    }
    rest := Body(body.bytes[|head|..], if body.breaksAt.Some? then Some(body.breaksAt.value - |head|) else None);
  }

  // ---------------------------------------------------------------- bounds

  ghost predicate Bounded(c: Lru<Entry>, max: nat) {
    forall k :: k in c.entries ==> |c.entries[k].body| <= max && c.entries[k].etag != ""
  }

  // ---------------------------------------------------------------- the cache key

  predicate HasNo(sep: char, s: string) {
    sep !in s
  }

  /** The header values and URL of a request fit on one line, and its method is a token. */
  predicate OneLine(req: Request) {
    HasNo(' ', req.verb) && HasNo('\n', req.url) && HasNo('\n', req.accept) && HasNo('\n', req.authorization)
  }

  predicate SameShape(a: Request, b: Request) {
    a.verb == b.verb && a.url == b.url && a.accept == b.accept && a.authorization == b.authorization
    && a.privateToken == b.privateToken
  }

  /** Main result: on newline-free values the key encodes method, URL, Accept, Authorization and PRIVATE-TOKEN
      injectively. */
  lemma KeyIsInjective(a: Request, b: Request)
    requires OneLine(a) && OneLine(b)
    ensures Key(a) == Key(b) <==> SameShape(a, b)
  {
    if Key(a) == Key(b) {
      assert Key(a) == a.verb + [' '] + (a.url + ['\n'] + (a.accept + ['\n'] + (a.authorization + ['\n'] + a.privateToken)));
      assert Key(b) == b.verb + [' '] + (b.url + ['\n'] + (b.accept + ['\n'] + (b.authorization + ['\n'] + b.privateToken)));
      FirstPartUnique(' ', a.verb, a.url + ['\n'] + (a.accept + ['\n'] + (a.authorization + ['\n'] + a.privateToken)),
                      b.verb, b.url + ['\n'] + (b.accept + ['\n'] + (b.authorization + ['\n'] + b.privateToken)));
      FirstPartUnique('\n', a.url, a.accept + ['\n'] + (a.authorization + ['\n'] + a.privateToken),
                      b.url, b.accept + ['\n'] + (b.authorization + ['\n'] + b.privateToken));
      FirstPartUnique('\n', a.accept, a.authorization + ['\n'] + a.privateToken,
                      b.accept, b.authorization + ['\n'] + b.privateToken);
      FirstPartUnique('\n', a.authorization, a.privateToken, b.authorization, b.privateToken);
    }
  }
}
