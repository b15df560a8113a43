/** The retry policy and the two hand-written loops that follow it. Delays are in nanoseconds, jitter is a real
    factor. */
module Retry {
  import opened Basics

  datatype Verb = GET | HEAD | PUT | DELETE | OPTIONS | POST | PATCH | OtherVerb

  datatype Config = Config(maxAttempts: int, baseDelay: int, maxDelay: int, statuses: seq<int>, retryWrite: bool)

  /** The Retry-After header: absent, a number, an HTTP date, or unparseable text. */
  datatype RetryAfter = NoHeader | Seconds(n: int) | Date(at: int) | Junk

  /** `quotaGone`: X-RateLimit-Remaining is 0. `readable`: the body can be read in full. */
  datatype Response = Response(status: int, retryAfter: RetryAfter, quotaGone: bool, body: Bytes, readable: bool)

  /** `unsent`: the error is a DNS or dial failure, so nothing went out. */
  datatype NetworkError = NetworkError(unsent: bool, code: int)

  datatype Outcome = Fails(error: NetworkError) | Answers(response: Response)

  datatype Error = Network(e: NetworkError) | BodyUnreadable | GetBodyFailed | ContextDone

  /** What the network does to each attempt. */
  type Script = nat -> Outcome

  /** Whether the context is done when the wait before the given attempt is entered. */
  type Cancellation = nat -> bool

  // ---------------------------------------------------------------- the policy

  predicate Idempotent(v: Verb) {
    v == GET || v == HEAD || v == PUT || v == DELETE || v == OPTIONS
  }

  predicate MethodRetryable(cfg: Config, v: Verb) {
    Idempotent(v) || cfg.retryWrite
  }

  predicate ShouldRetry(cfg: Config, status: int) {
    status == 429 || 500 <= status <= 599 || status in cfg.statuses
  }

  predicate RateLimited(r: Response) {
    r.status == 429 || (r.status == 403 && (r.retryAfter != NoHeader || r.quotaGone))
  }

  predicate CanRetryResponse(cfg: Config, v: Verb, r: Response) {
    (ShouldRetry(cfg, r.status) && MethodRetryable(cfg, v)) || (RateLimited(r) && MethodRetryable(cfg, v))
  }

  predicate CanRetryNetworkError(cfg: Config, v: Verb, e: NetworkError) {
    MethodRetryable(cfg, v) || e.unsent
  }

  function ResolvedMaxDelay(cfg: Config): int {
    if cfg.maxDelay <= 0 then 30 * SECOND else cfg.maxDelay
  }

  /** The delay a header asks for, in nanoseconds from `now`. */
  function ParseRetryAfter(h: RetryAfter, now: int): Option<int> {
    match h
    case Seconds(n) => if n < 0 then None else Some(n * SECOND)
    case Date(at) => Some(if at < now then 0 else at - now)
    case _ => None
  }

  function Pow2(n: nat): nat {
    if n == 0 then 1 else 2 * Pow2(n - 1)
  }

  /** The wait before retry `attempt`; a parseable Retry-After wins and gets no jitter. */
  function Backoff(cfg: Config, attempt: nat, last: Option<Response>, now: int, jitter: real): real
    requires attempt >= 1
  {
    var max := ResolvedMaxDelay(cfg);
    var asked := if last.Some? then ParseRetryAfter(last.value.retryAfter, now) else None;
    match asked
    case Some(d) => (if d < max then d else max) as real
    case None =>
      var base := if cfg.baseDelay <= 0 then SECOND / 2 else cfg.baseDelay;
      var delay := base * Pow2(attempt - 1);
      (if delay > max then max else delay) as real * jitter
  }

  // ---------------------------------------------------------------- what a loop did

  /** Arguments of one Backoff call. */
  datatype Wait = Wait(attempt: nat, last: Option<Response>)

  /** `sends` holds the request body of each attempt, `waits` the Backoff calls in between. */
  datatype Trace = Trace(sends: seq<Bytes>, waits: seq<Wait>, response: Option<Response>, error: Option<Error>)

  /** What the request's own GetBody does, if it has one. */
  datatype GetBody = NoGetBody | Returns(bytes: Bytes) | GetBodyFails

  /** The request body as a reader: sending it consumes it. */
  datatype RequestBody = RequestBody(unread: Bytes, getBody: GetBody)

  /** The body of an attempt: the request's own at first, what GetBody returns from then on. */
  function SentBody(request: RequestBody, attempt: nat): Bytes {
    if attempt > 1 && request.getBody.Returns? then request.getBody.bytes else request.unread
  }

  // ---------------------------------------------------------------- the first loop: RetryConfig.Do

  /** The rest of the loop from `attempt` on, with `lastErr` and `lastResp` as the earlier attempts left them. */
  function DoFrom(cfg: Config, v: Verb, body: Bytes, net: Script, cancel: Cancellation, attempt: nat,
                  lastErr: Option<Error>, lastResp: Option<Response>, sends: seq<Bytes>, waits: seq<Wait>): Trace
    requires attempt >= 1
    decreases cfg.maxAttempts - attempt
  {
    if attempt > cfg.maxAttempts then Trace(sends, waits, lastResp, lastErr)
    else
      var waits' := if attempt > 1 then waits + [Wait(attempt - 1, lastResp)] else waits;
      if attempt > 1 && cancel(attempt) then Trace(sends, waits', lastResp, Some(ContextDone))
      else
        var sends' := sends + [body];
        match net(attempt)
        case Fails(e) =>
          if !CanRetryNetworkError(cfg, v, e) then Trace(sends', waits', None, Some(Network(e)))
          else DoFrom(cfg, v, body, net, cancel, attempt + 1, Some(Network(e)), lastResp, sends', waits')
        case Answers(r) =>
          if !r.readable then Trace(sends', waits', None, Some(BodyUnreadable))
          else if !CanRetryResponse(cfg, v, r) then Trace(sends', waits', Some(r), None)
          else DoFrom(cfg, v, body, net, cancel, attempt + 1, lastErr, Some(r), sends', waits')
  }

  /** Without retries a single attempt. */
  function Single(body: Bytes, o: Outcome, buffers: bool): Trace {
    match o
    case Fails(e) => Trace([body], [], None, Some(Network(e)))
    case Answers(r) => Trace([body], [], Some(r), if buffers && !r.readable then Some(BodyUnreadable) else None)
  }

  function DoTrace(cfg: Config, v: Verb, body: Bytes, net: Script, cancel: Cancellation): Trace {
    if cfg.maxAttempts <= 0 then Single(body, net(1), true) else DoFrom(cfg, v, body, net, cancel, 1, None, None, [], [])
  }

  method Do(cfg: Config, v: Verb, body: Bytes, net: Script, cancel: Cancellation) returns (t: Trace)
    ensures t == DoTrace(cfg, v, body, net, cancel)
  {
    if cfg.maxAttempts <= 0 {
      return Single(body, net(1), true);
    }
    var bodyBytes := body;
    var unread := bodyBytes;
    var lastErr: Option<Error> := None;
    var lastResp: Option<Response> := None;
    var sends, waits := [], [];
    var attempt := 1;
    while attempt <= cfg.maxAttempts
      invariant attempt >= 1 && (attempt == 1 ==> unread == body)
      invariant DoTrace(cfg, v, body, net, cancel) == DoFrom(cfg, v, body, net, cancel, attempt, lastErr, lastResp, sends, waits)
      decreases cfg.maxAttempts - attempt
    {
      if attempt > 1 {
        waits := waits + [Wait(attempt - 1, lastResp)];
        if cancel(attempt) {
          return Trace(sends, waits, lastResp, Some(ContextDone));
        }
        unread := bodyBytes;
      }
      sends, unread := sends + [unread], [];
      match net(attempt) {
      case Fails(e) =>
        lastErr := Some(Network(e));
        if !CanRetryNetworkError(cfg, v, e) {
          return Trace(sends, waits, None, Some(Network(e)));
        }
      case Answers(r) =>
        if !r.readable {
          return Trace(sends, waits, None, Some(BodyUnreadable));
        }
        lastResp := Some(r);
        if !CanRetryResponse(cfg, v, r) {
          return Trace(sends, waits, Some(r), None);
        }
      }
      attempt := attempt + 1;
    }
    t := Trace(sends, waits, lastResp, lastErr);
  }

  // ---------------------------------------------------------------- the second loop: retryingRoundTripper.RoundTrip

  function RoundTripFrom(cfg: Config, v: Verb, request: RequestBody, net: Script, cancel: Cancellation, attempt: nat,
                         lastErr: Option<Error>, lastResp: Option<Response>, sends: seq<Bytes>, waits: seq<Wait>): Trace
    requires attempt >= 1
    decreases cfg.maxAttempts - attempt
  {
    if attempt > cfg.maxAttempts then
      if lastResp.Some? then Trace(sends, waits, lastResp, None) else Trace(sends, waits, None, lastErr)
    else
      var waits' := if attempt > 1 then waits + [Wait(attempt - 1, lastResp)] else waits;
      if attempt > 1 && cancel(attempt) then Trace(sends, waits', None, Some(ContextDone))
      else if attempt > 1 && request.getBody.GetBodyFails? then Trace(sends, waits', None, Some(GetBodyFailed))
      else
        var sends' := sends + [SentBody(request, attempt)];
        match net(attempt)
        case Fails(e) =>
          if !CanRetryNetworkError(cfg, v, e) then Trace(sends', waits', None, Some(Network(e)))
          else RoundTripFrom(cfg, v, request, net, cancel, attempt + 1, Some(Network(e)), lastResp, sends', waits')
        case Answers(r) =>
          if !CanRetryResponse(cfg, v, r) then Trace(sends', waits', Some(r), None)
          else if !r.readable then
            RoundTripFrom(cfg, v, request, net, cancel, attempt + 1, Some(BodyUnreadable), None, sends', waits')
          else RoundTripFrom(cfg, v, request, net, cancel, attempt + 1, lastErr, Some(r), sends', waits')
  }

  function RoundTripTrace(cfg: Config, v: Verb, request: RequestBody, net: Script, cancel: Cancellation): Trace {
    if cfg.maxAttempts <= 0 then Single(request.unread, net(1), false)
    else RoundTripFrom(cfg, v, request, net, cancel, 1, None, None, [], [])
  }

  /** A body without GetBody is buffered and given one. */
  method RoundTrip(cfg: Config, v: Verb, request: RequestBody, net: Script, cancel: Cancellation) returns (t: Trace)
    ensures t == RoundTripTrace(cfg, v, request, net, cancel)
  {
    if cfg.maxAttempts <= 0 {
      return Single(request.unread, net(1), false);
    }
    var getBody := if request.getBody.NoGetBody? then Returns(request.unread) else request.getBody;
    var unread := request.unread;
    var lastErr: Option<Error> := None;
    var lastResp: Option<Response> := None;
    var sends, waits := [], [];
    var attempt := 1;
    while attempt <= cfg.maxAttempts
      invariant attempt >= 1 && (attempt == 1 ==> unread == request.unread)
      invariant RoundTripTrace(cfg, v, request, net, cancel)
                == RoundTripFrom(cfg, v, request, net, cancel, attempt, lastErr, lastResp, sends, waits)
      decreases cfg.maxAttempts - attempt
    {
      if attempt > 1 {
        waits := waits + [Wait(attempt - 1, lastResp)];
        if cancel(attempt) {
          return Trace(sends, waits, None, Some(ContextDone));
        }
        if getBody.GetBodyFails? {
          return Trace(sends, waits, None, Some(GetBodyFailed));
        }
        unread := getBody.bytes;
      }
      sends, unread := sends + [unread], [];
      match net(attempt) {
      case Fails(e) =>
        lastErr := Some(Network(e));
        if !CanRetryNetworkError(cfg, v, e) {
          return Trace(sends, waits, None, Some(Network(e)));
        }
      case Answers(r) =>
        if !CanRetryResponse(cfg, v, r) {
          return Trace(sends, waits, Some(r), None);
        }
        if r.readable {
          lastResp := Some(r);
        } else {
          lastErr, lastResp := Some(BodyUnreadable), None;
        }
      }
      attempt := attempt + 1;
    }
    if lastResp.Some? {
      return Trace(sends, waits, lastResp, None);
    }
    t := Trace(sends, waits, None, lastErr);
  }
}
