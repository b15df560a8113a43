/** Which responses the validator cache keeps, and what a caller gets of the others. */
module ETagPolicy {
  import opened Basics
  import opened Lru
  import opened ETag
  import opened ETagTransparency

  /** Main result: a response that does not answer a GET, is not a 200, has no ETag, was negotiated with an explicit
      Accept-Encoding or is marked no-store leaves every entry as it was, on both paths. */
  lemma OthersAreNotKept(c: Lru<Entry>, max: nat, req: Request, resp: Response, streaming: bool)
    requires c.Valid()
    requires req.verb != "GET" || resp.status != 200 || resp.etag == "" || req.acceptEncoding != "" || resp.noStore
    ensures Handle(c, max, req, resp, streaming).0.entries == c.entries
  {
  }

  /** A body over the limit, declared or found to be, or cut off before its end is not kept either. */
  lemma PartialBodiesAreNotKept(c: Lru<Entry>, max: nat, req: Request, resp: Response, streaming: bool)
    requires c.Valid() && (resp.body.breaksAt.Some? ==> resp.body.breaksAt.value <= |resp.body.bytes|)
    requires |resp.body.bytes| > max || resp.body.breaksAt.Some? || (streaming && resp.contentLength > max)
    ensures Handle(c, max, req, resp, streaming).0.entries == c.entries
  {
  }

  /** Main result: any other response is kept: the entry under the request's key is exactly its ETag and body, entries
      of other keys are kept or evicted but not changed, and the next GET for the key that has no validator carries
      this ETag. */
  lemma WholeResponsesAreKept(c: Lru<Entry>, max: nat, req: Request, resp: Response, streaming: bool, next: Request)
    requires c.Valid()
    requires req.verb == "GET" && resp.status == 200 && resp.etag != "" && req.acceptEncoding == "" && !resp.noStore
    requires resp.body.breaksAt.None? && |resp.body.bytes| <= max && (streaming ==> resp.contentLength <= max)
    requires next.verb == "GET" && Key(next) == Key(req) && next.ifNoneMatch == ""
    ensures
      var c' := Handle(c, max, req, resp, streaming).0;
      && Key(req) in c'.entries && c'.entries[Key(req)] == Entry(resp.etag, resp.body.bytes)
      && (forall k :: k in c'.entries && k != Key(req) ==> k in c.entries && c'.entries[k] == c.entries[k])
      && Conditional(c', next) == next.(ifNoneMatch := resp.etag)
      && (streaming ==> Handle(c, max, req, resp, streaming).1 == Passed(resp.(contentLength := |resp.body.bytes|)))
  {
    OperationsKeepValid(c, Key(req), Entry(resp.etag, resp.body.bytes));
    hide Key, Added;
  }

  /** Only a GET without a validator of its own, for which there is an entry, is changed before it is sent. */
  lemma OtherRequestsAreSentAsTheyAre(c: Lru<Entry>, req: Request)
    requires req.verb != "GET" || req.ifNoneMatch != "" || Key(req) !in c.entries
    ensures Conditional(c, req) == req && AfterConditional(c, req).entries == c.entries
    ensures req.verb != "GET" || req.ifNoneMatch != "" ==> AfterConditional(c, req) == c
  {
    hide Key;
  }

  /** Main result: what the caller gets of a response that is not a 304. A body that breaks is reported exactly when it
      breaks within what is read: anywhere when read in full, within the limit when a cacheable one is streamed.
      Otherwise status, ETag and body are the origin's, the break included. */
  lemma BodiesAreTheOrigins(c: Lru<Entry>, max: nat, req: Request, resp: Response, streaming: bool)
    requires c.Valid() && resp.status != 304
    requires resp.body.breaksAt.Some? ==> resp.body.breaksAt.value <= |resp.body.bytes|
    ensures
      var h := Handle(c, max, req, resp, streaming).1;
      && (h.ReadFailed? <==>
            resp.body.breaksAt.Some? &&
            (streaming ==> req.verb == "GET" && resp.status == 200 && resp.etag != "" && req.acceptEncoding == "" && !resp.noStore
                           && resp.contentLength <= max && resp.body.breaksAt.value <= max))
      && (!h.ReadFailed? ==> h.Passed? && h.response.status == resp.status && h.response.etag == resp.etag
                             && h.response.body == resp.body)
  {
  }

  /** A 304 never changes an entry: it is answered with the entry under the request's key as a whole 200, or
      reported. */
  lemma NotModifiedReplaysTheEntry(c: Lru<Entry>, max: nat, req: Request, resp: Response, streaming: bool)
    requires c.Valid() && resp.status == 304
    ensures
      var (c', h) := Handle(c, max, req, resp, streaming);
      && c'.entries == c.entries
      && (h == EntryGone <==> Key(req) !in c.entries)
      && (Key(req) in c.entries ==>
            var e := c.entries[Key(req)];
            && h.Passed? && h.response.status == 200 && h.response.etag == e.etag
            && h.response.body == Body(e.body, None) && h.response.contentLength == |e.body|
            && c'.order == Without(c.order, Key(req)) + [Key(req)])
  {
    OperationsKeepValid(c, Key(req), Entry("", []));
    hide Key;
  }

  /** A lookup makes its entry the most recently used one. */
  lemma LookedUpIsMostRecent(c: Lru<Entry>, req: Request)
    requires c.Valid() && req.verb == "GET" && req.ifNoneMatch == "" && Key(req) in c.entries
    ensures
      var order := AfterConditional(c, req).order;
      order != [] && order[|order| - 1] == Key(req)
  {
    hide Key;
  }
}
