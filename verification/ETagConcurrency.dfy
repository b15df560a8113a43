/** Concurrent requests through one cache: the steps of different requests interleave freely, and the origin answers
    anything. */
module ETagConcurrency {
  import opened Basics
  import opened Lru
  import opened ETag

  /** Where one request stands: prepared and sent, answered, or handled. */
  datatype Phase =
    | Sent(req: Request)
    | Answered(req: Request, raw: Response)
    | Ended(req: Request, raw: Response, handled: Handled)

  /** `served` collects the bodies of all cacheable 200 answers with the requests they answered. */
  datatype State = State(cache: Lru<Entry>, max: nat, calls: map<nat, Phase>, served: set<(Request, Bytes)>)

  datatype Step =
    | Begin(id: nat, req: Request)
    | Respond(id: nat, raw: Response)
    | Finish(id: nat, streaming: bool)
    | Evict(key: string)

  ghost predicate Enabled(s: State, step: Step) {
    match step
    case Begin(id, req) => id !in s.calls && OneLine(req)
    case Respond(id, raw) =>
      id in s.calls && s.calls[id].Sent? && (raw.body.breaksAt.Some? ==> raw.body.breaksAt.value <= |raw.body.bytes|)
    case Finish(id, _) => id in s.calls && s.calls[id].Answered?
    case Evict(_) => true
  }

  function Next(s: State, step: Step): State
    requires s.cache.Valid() && Enabled(s, step)
  {
    match step
    case Begin(id, req) =>
      s.(cache := AfterConditional(s.cache, req), calls := s.calls[id := Sent(Conditional(s.cache, req))])
    case Respond(id, raw) =>
      var req := s.calls[id].req;
      s.(calls := s.calls[id := Answered(req, raw)],
         served := if Cacheable(req, raw) then s.served + {(req, raw.body.bytes)} else s.served)
    case Finish(id, streaming) =>
      var req, raw := s.calls[id].req, s.calls[id].raw;
      var (c, h) := Processed(s.cache, s.max, req, raw, streaming);
      s.(cache := c, calls := s.calls[id := Ended(req, raw, h)])
    case Evict(key) => s.(cache := Removed(s.cache, key))
  }

  // ---------------------------------------------------------------- the invariant

  ghost predicate ServedFor(served: set<(Request, Bytes)>, req: Request, body: Bytes) {
    exists r :: (r, body) in served && SameShape(r, req)
  }

  ghost predicate ServedForKey(served: set<(Request, Bytes)>, key: string, body: Bytes) {
    exists r :: (r, body) in served && Key(r) == key
  }

  /** How a call may end after a 304: the entry is gone, or the body is one the origin served for such a request. */
  ghost predicate GoodEnd(served: set<(Request, Bytes)>, req: Request, raw: Response, handled: Handled) {
    raw.status == NOT_MODIFIED ==>
      match handled
      case EntryGone => true
      case ReadFailed => false
      case Passed(r) => r.status == OK && r.body.breaksAt.None? && ServedFor(served, req, r.body.bytes)
  }

  ghost predicate Inv(s: State) {
    && s.cache.Valid() && Bounded(s.cache, s.max)
    && AllServed(s.cache, s.served)
    && (forall p :: p in s.served ==> OneLine(p.0))
    && (forall id :: id in s.calls ==> OneLine(s.calls[id].req))
    && (forall id :: id in s.calls && s.calls[id].Answered? && Cacheable(s.calls[id].req, s.calls[id].raw) ==>
          (s.calls[id].req, s.calls[id].raw.body.bytes) in s.served)
    && (forall id :: id in s.calls && s.calls[id].Ended? ==>
          GoodEnd(s.served, s.calls[id].req, s.calls[id].raw, s.calls[id].handled))
  }

  lemma BeginKeepsInv(s: State, id: nat, req: Request)
    requires Inv(s) && Enabled(s, Begin(id, req))
    ensures Inv(Next(s, Begin(id, req)))
  {
    OperationsKeepValid(s.cache, Key(req), Entry("", []));
  }

  lemma RespondKeepsInv(s: State, id: nat, raw: Response)
    requires Inv(s) && Enabled(s, Respond(id, raw))
    ensures Inv(Next(s, Respond(id, raw)))
  {
    var s' := Next(s, Respond(id, raw));
    assert s.served <= s'.served;
    forall k | k in s'.cache.entries ensures ServedForKey(s'.served, k, s'.cache.entries[k].body) {
      var r :| (r, s.cache.entries[k].body) in s.served && Key(r) == k;
      assert (r, s.cache.entries[k].body) in s'.served;
    }
    forall i | i in s'.calls && s'.calls[i].Ended?
      ensures GoodEnd(s'.served, s'.calls[i].req, s'.calls[i].raw, s'.calls[i].handled)
    {
      GoodEndStays(s.served, s'.served, s.calls[i].req, s.calls[i].raw, s.calls[i].handled);
    }
  }

  lemma GoodEndStays(served: set<(Request, Bytes)>, more: set<(Request, Bytes)>, req: Request, raw: Response,
                     handled: Handled)
    requires served <= more && GoodEnd(served, req, raw, handled)
    ensures GoodEnd(more, req, raw, handled)
  {
    if raw.status == NOT_MODIFIED && handled.Passed? {
      var r :| (r, handled.response.body.bytes) in served && SameShape(r, req);
      assert (r, handled.response.body.bytes) in more;
    }
  }

  /** Every entry's body was served for its key. */
  ghost predicate AllServed(c: Lru<Entry>, served: set<(Request, Bytes)>) {
    forall k :: k in c.entries ==> ServedForKey(served, k, c.entries[k].body)
  }

  lemma StoreKeeps(c: Lru<Entry>, max: nat, req: Request, raw: Response, served: set<(Request, Bytes)>)
    requires c.Valid() && Bounded(c, max) && AllServed(c, served)
    requires Cacheable(req, raw) ==> (req, raw.body.bytes) in served
    ensures
      var c' := Stored(c, max, req, raw, raw.body.bytes);
      c'.Valid() && Bounded(c', max) && AllServed(c', served)
  {
    hide Key;
    OperationsKeepValid(c, Key(req), Entry(raw.etag, raw.body.bytes));
    var c' := Stored(c, max, req, raw, raw.body.bytes);
    forall k | k in c'.entries ensures ServedForKey(served, k, c'.entries[k].body) {
      if !(k in c.entries && c'.entries[k] == c.entries[k]) {
        assert (req, raw.body.bytes) in served;
      }
    }
  }

  lemma ReplayIsServed(c: Lru<Entry>, req: Request, served: set<(Request, Bytes)>)
    requires AllServed(c, served) && Key(req) in c.entries
    requires OneLine(req) && forall p :: p in served ==> OneLine(p.0)
    ensures ServedFor(served, req, c.entries[Key(req)].body)
  {
    var body := c.entries[Key(req)].body;
    assert ServedForKey(served, Key(req), body);
    var r :| (r, body) in served && Key(r) == Key(req);
    assert OneLine((r, body).0);
    KeyIsInjective(r, req);
  }

  lemma HandlingKeeps(c: Lru<Entry>, max: nat, req: Request, raw: Response, streaming: bool,
                      served: set<(Request, Bytes)>)
    requires c.Valid() && Bounded(c, max) && AllServed(c, served)
    requires OneLine(req) && forall p :: p in served ==> OneLine(p.0)
    requires Cacheable(req, raw) ==> (req, raw.body.bytes) in served
    ensures
      var (c', h) := Processed(c, max, req, raw, streaming);
      c'.Valid() && c'.capacity == c.capacity && Bounded(c', max) && AllServed(c', served) && GoodEnd(served, req, raw, h)
  {
    hide Key, Without, Touch, ServedForKey, ServedFor;
    StoreKeeps(c, max, req, raw, served);
    OperationsKeepValid(c, Key(req), Entry(raw.etag, raw.body.bytes));
    if Key(req) in c.entries {
      ReplayIsServed(c, req, served);
    }
  }

  lemma FinishKeepsInv(s: State, id: nat, streaming: bool)
    requires Inv(s) && Enabled(s, Finish(id, streaming))
    ensures Inv(Next(s, Finish(id, streaming)))
    ensures Next(s, Finish(id, streaming)).cache.capacity == s.cache.capacity
  {
    hide Processed, Key, ServedFor, GoodEnd, Bounded;
    HandlingKeeps(s.cache, s.max, s.calls[id].req, s.calls[id].raw, streaming, s.served);
  }

  lemma EvictKeepsInv(s: State, key: string)
    requires Inv(s)
    ensures Inv(Next(s, Evict(key)))
  {
    OperationsKeepValid(s.cache, key, Entry("", []));
  }

  lemma StepKeepsInv(s: State, step: Step)
    requires Inv(s) && Enabled(s, step)
    ensures Inv(Next(s, step))
    ensures Next(s, step).cache.capacity == s.cache.capacity && Next(s, step).max == s.max
  {
    hide Inv, Processed, Key;
    match step
    case Begin(id, req) => BeginKeepsInv(s, id, req);
    case Respond(id, raw) => RespondKeepsInv(s, id, raw);
    case Finish(id, streaming) => FinishKeepsInv(s, id, streaming);
    case Evict(key) => EvictKeepsInv(s, key);
  }

  // ---------------------------------------------------------------- every interleaving

  ghost predicate Runs(s: State, steps: seq<Step>, final: State)
    decreases |steps|
  {
    if steps == [] then final == s
    else s.cache.Valid() && Enabled(s, steps[0]) && Runs(Next(s, steps[0]), steps[1..], final)
  }

  lemma {:induction false} RunKeepsInv(s: State, steps: seq<Step>, final: State)
    requires Inv(s) && Runs(s, steps, final)
    ensures Inv(final) && final.cache.capacity == s.cache.capacity && final.max == s.max
    decreases |steps|
  {
    if steps != [] {
      StepKeepsInv(s, steps[0]);
      RunKeepsInv(Next(s, steps[0]), steps[1..], final);
    }
  }

  /** Main result: under every interleaving of requests, stores and evictions the entry and body bounds hold, and a 304
      ends in the "entry is gone" error or in a body the origin served as a cacheable 200 for a request with the same
      method, URL, Accept, Authorization and PRIVATE-TOKEN. */
  lemma NotModifiedNeverInvents(capacity: nat, max: nat, steps: seq<Step>, final: State)
    requires capacity > 0 && Runs(State(Lru([], map[], capacity), max, map[], {}), steps, final)
    ensures |final.cache.order| == |final.cache.entries| <= capacity && Bounded(final.cache, max)
    ensures forall id :: id in final.calls && final.calls[id].Ended? && final.calls[id].raw.status == NOT_MODIFIED ==>
      var e := final.calls[id];
      || e.handled.EntryGone?
      || (e.handled.Passed? && e.handled.response.status == OK && ServedFor(final.served, e.req, e.handled.response.body.bytes))
  {
    RunKeepsInv(State(Lru([], map[], capacity), max, map[], {}), steps, final);
    OrderCounts(final.cache);
  }
}
