/** One policy, two loops: replay safety, equal behaviour and bounded waiting. */
module RetryTheorems {
  import opened Basics
  import opened Retry

  /** The attempt reached the server, as far as anyone can tell. */
  predicate MayHaveReached(o: Outcome) {
    !(o.Fails? && o.error.unsent)
  }

  /** The bodies sent are the request's own, then what GetBody returns. */
  ghost predicate Carries(sends: seq<Bytes>, request: RequestBody) {
    forall i :: 0 <= i < |sends| ==> sends[i] == SentBody(request, i + 1)
  }

  /** A loop made attempts 1 to |sends| with the bodies of the request, one wait before each but the first (and
      perhaps one that ended it), and every attempt but the last had an outcome in `retried`. */
  ghost predicate Disciplined(t: Trace, request: RequestBody, net: Script, limit: int, retried: Outcome -> bool) {
    && 1 <= |t.sends| <= (if limit <= 0 then 1 else limit)
    && |t.waits| <= (if limit <= 0 then 0 else limit - 1) && |t.sends| - 1 <= |t.waits| <= |t.sends|
    && Carries(t.sends, request)
    && (forall i :: 1 <= i < |t.sends| ==> retried(net(i)))
    && (forall i :: 0 <= i < |t.waits| ==> t.waits[i].attempt == i + 1)
  }

  /** Outcomes that allow another attempt of a request with this method. */
  function Retried(cfg: Config, v: Verb): Outcome -> bool {
    (o: Outcome) => match o
                    case Fails(e) => CanRetryNetworkError(cfg, v, e)
                    case Answers(r) => CanRetryResponse(cfg, v, r)
  }

  /** The first loop replays the buffered body, whatever GetBody the request came with. */
  function Buffered(body: Bytes): RequestBody {
    RequestBody(body, NoGetBody)
  }

  ghost predicate SameBytes(t: Trace, body: Bytes) {
    forall i :: 0 <= i < |t.sends| ==> t.sends[i] == body
  }

  lemma {:induction false} DoFromDisciplined(cfg: Config, v: Verb, body: Bytes, net: Script, cancel: Cancellation,
                                             attempt: nat,
                                             lastErr: Option<Error>, lastResp: Option<Response>,
                                             sends: seq<Bytes>, waits: seq<Wait>)
    requires 1 <= attempt <= cfg.maxAttempts + 1 && |sends| == attempt - 1 && |waits| == (if attempt > 1 then attempt - 2 else 0)
    requires cfg.maxAttempts >= 1
    requires Carries(sends, Buffered(body))
    requires forall i :: 1 <= i < attempt ==> Retried(cfg, v)(net(i))
    requires forall i :: 0 <= i < |waits| ==> waits[i].attempt == i + 1
    ensures Disciplined(DoFrom(cfg, v, body, net, cancel, attempt, lastErr, lastResp, sends, waits), Buffered(body), net,
                        cfg.maxAttempts, Retried(cfg, v))
    decreases cfg.maxAttempts - attempt
  {
    hide CanRetryResponse, CanRetryNetworkError;
    if attempt <= cfg.maxAttempts && !(attempt > 1 && cancel(attempt)) {
      var waits' := if attempt > 1 then waits + [Wait(attempt - 1, lastResp)] else waits;
      var sends' := sends + [body];
      assert Carries(sends', Buffered(body));
      match net(attempt)
      case Fails(e) =>
        if CanRetryNetworkError(cfg, v, e) {
          DoFromDisciplined(cfg, v, body, net, cancel, attempt + 1, Some(Network(e)), lastResp, sends', waits');
        }
      case Answers(r) =>
        if r.readable && CanRetryResponse(cfg, v, r) {
          DoFromDisciplined(cfg, v, body, net, cancel, attempt + 1, lastErr, Some(r), sends', waits');
        }
    }
  }

  lemma {:induction false} RoundTripFromDisciplined(cfg: Config, v: Verb, request: RequestBody, net: Script,
                                                    cancel: Cancellation, attempt: nat,
                                                    lastErr: Option<Error>, lastResp: Option<Response>,
                                                    sends: seq<Bytes>, waits: seq<Wait>)
    requires 1 <= attempt <= cfg.maxAttempts + 1 && |sends| == attempt - 1 && |waits| == (if attempt > 1 then attempt - 2 else 0)
    requires cfg.maxAttempts >= 1
    requires Carries(sends, request)
    requires forall i :: 1 <= i < attempt ==> Retried(cfg, v)(net(i))
    requires forall i :: 0 <= i < |waits| ==> waits[i].attempt == i + 1
    ensures Disciplined(RoundTripFrom(cfg, v, request, net, cancel, attempt, lastErr, lastResp, sends, waits), request, net,
                        cfg.maxAttempts, Retried(cfg, v))
    decreases cfg.maxAttempts - attempt
  {
    hide CanRetryResponse, CanRetryNetworkError;
    if attempt <= cfg.maxAttempts && !(attempt > 1 && (cancel(attempt) || request.getBody.GetBodyFails?)) {
      var waits' := if attempt > 1 then waits + [Wait(attempt - 1, lastResp)] else waits;
      var sends' := sends + [SentBody(request, attempt)];
      match net(attempt)
      case Fails(e) =>
        if CanRetryNetworkError(cfg, v, e) {
          RoundTripFromDisciplined(cfg, v, request, net, cancel, attempt + 1, Some(Network(e)), lastResp, sends', waits');
        }
      case Answers(r) =>
        if CanRetryResponse(cfg, v, r) {
          RoundTripFromDisciplined(cfg, v, request, net, cancel, attempt + 1,
                                   if r.readable then lastErr else Some(BodyUnreadable),
                                   if r.readable then Some(r) else None, sends', waits');
        }
    }
  }

  /** Against any script, any cancellation and any GetBody, both loops make at most maxAttempts attempts and go on only
      after outcomes the policy allows to retry. The first loop sends the same body bytes each time; the second sends
      what GetBody returns, so the same bytes exactly when there is one attempt or GetBody returns them. */
  lemma BothLoopsAreDisciplined(cfg: Config, v: Verb, request: RequestBody, net: Script, cancel: Cancellation)
    ensures Disciplined(DoTrace(cfg, v, request.unread, net, cancel), Buffered(request.unread), net,
                        cfg.maxAttempts, Retried(cfg, v))
    ensures Disciplined(RoundTripTrace(cfg, v, request, net, cancel), request, net, cfg.maxAttempts, Retried(cfg, v))
    ensures SameBytes(DoTrace(cfg, v, request.unread, net, cancel), request.unread)
    ensures var t := RoundTripTrace(cfg, v, request, net, cancel);
            SameBytes(t, request.unread) <==> |t.sends| == 1 || SentBody(request, 2) == request.unread
  {
    if cfg.maxAttempts >= 1 {
      DoFromDisciplined(cfg, v, request.unread, net, cancel, 1, None, None, [], []);
      RoundTripFromDisciplined(cfg, v, request, net, cancel, 1, None, None, [], []);
    }
    var t := RoundTripTrace(cfg, v, request, net, cancel);
    if |t.sends| > 1 && SameBytes(t, request.unread) {
      assert t.sends[1] == SentBody(request, 2);
    }
  }

  /** Which bytes an attempt carries: the first loop always the request's, the second those of the request's own
      GetBody after the first attempt, if there is one. */
  lemma BodiesSent(cfg: Config, v: Verb, request: RequestBody, net: Script, cancel: Cancellation, i: nat)
    ensures
      var a, b := DoTrace(cfg, v, request.unread, net, cancel), RoundTripTrace(cfg, v, request, net, cancel);
      && (i < |a.sends| ==> a.sends[i] == request.unread)
      && (i < |b.sends| ==>
            b.sends[i] == match request.getBody
                          case Returns(bytes) => if i == 0 then request.unread else bytes
                          case _ => request.unread)
  {
    BothLoopsAreDisciplined(cfg, v, request, net, cancel);
    hide DoTrace, RoundTripTrace;
  }

  /** At most the last of the attempts may have reached the server. */
  ghost predicate ReachesOnce(t: Trace, net: Script) {
    forall i :: 1 <= i < |t.sends| ==> !MayHaveReached(net(i))
  }

  /** Main result: when another attempt may follow, by method, status and headers. GET, HEAD, PUT, DELETE and OPTIONS,
      and any method with RetryWrite on, go on after a network error, a 429, a 5xx, a listed status, and a 403 with
      Retry-After or an exhausted quota; the other methods only after an error from before anything was sent. */
  lemma PolicyIs(cfg: Config, v: Verb, o: Outcome)
    ensures
      var eligible := v in {GET, HEAD, PUT, DELETE, OPTIONS} || cfg.retryWrite;
      Retried(cfg, v)(o) <==>
        match o
        case Fails(e) => eligible || e.unsent
        case Answers(r) =>
          eligible && (r.status == 429 || 500 <= r.status <= 599 || r.status in cfg.statuses
                       || (r.status == 403 && (r.retryAfter != NoHeader || r.quotaGone)))
  {
  }

  /** A write is never sent again after an answer, and no request after a bare 403 that is not listed. */
  lemma EndsTheLoop(cfg: Config, v: Verb, r: Response)
    requires (v in {POST, PATCH, OtherVerb} && !cfg.retryWrite)
             || (r.status == 403 && r.retryAfter == NoHeader && !r.quotaGone && 403 !in cfg.statuses)
    ensures !Retried(cfg, v)(Answers(r))
  {
  }

  /** Main result: with RetryWrite off, a non-idempotent request reaches the server at most once in either loop,
      whatever the network does: every attempt but the last failed in DNS or dial. */
  lemma WritesReachTheServerOnce(cfg: Config, v: Verb, request: RequestBody, net: Script, cancel: Cancellation)
    requires v in {POST, PATCH, OtherVerb} && !cfg.retryWrite
    ensures ReachesOnce(DoTrace(cfg, v, request.unread, net, cancel), net)
    ensures ReachesOnce(RoundTripTrace(cfg, v, request, net, cancel), net)
  {
    BothLoopsAreDisciplined(cfg, v, request, net, cancel);
    assert forall o: Outcome :: Retried(cfg, v)(o) ==> !MayHaveReached(o);
  }

  // ---------------------------------------------------------------- what a loop returns

  /** The answer kept after n attempts: the newest one, unless it could not be read. */
  function LastAnswer(net: Script, n: nat): Option<Response> {
    if n == 0 then None
    else
      match net(n)
      case Answers(r) => if r.readable then Some(r) else None
      case Fails(_) => LastAnswer(net, n - 1)
  }

  /** The error kept after n attempts: the newest network error or unreadable answer. */
  function LastFailure(net: Script, n: nat): Option<Error> {
    if n == 0 then None
    else
      match net(n)
      case Fails(e) => Some(Network(e))
      case Answers(r) => if r.readable then LastFailure(net, n - 1) else Some(BodyUnreadable)
  }

  /** The outcome ends the loop: it may not be retried, or, where answers are buffered first, cannot be read. */
  predicate Final(cfg: Config, v: Verb, o: Outcome, buffers: bool) {
    !Retried(cfg, v)(o) || (buffers && o.Answers? && !o.response.readable)
  }

  /** The caller gets the answer or the error of this outcome. */
  predicate ReportsOutcome(t: Trace, o: Outcome, buffers: bool) {
    match o
    case Fails(e) => t.response == None && t.error == Some(Network(e))
    case Answers(r) =>
      if buffers && !r.readable then t.response == None && t.error == Some(BodyUnreadable)
      else t.response == Some(r) && t.error == None
  }

  /** The first loop reports the first final outcome; out of attempts, the newest answer with the newest network error;
      cancelled, the newest answer with the context's error. */
  predicate DoReports(cfg: Config, v: Verb, t: Trace, net: Script, cancel: Cancellation) {
    var n := |t.sends|;
    && n >= 1
    && if Final(cfg, v, net(n), true) then ReportsOutcome(t, net(n), true)
       else t.response == LastAnswer(net, n)
            && if n == cfg.maxAttempts then t.error == LastFailure(net, n) else cancel(n + 1) && t.error == Some(ContextDone)
  }

  /** The second loop does so too, but reports an error only without an answer, no answer when cancelled, and the
      failure of a GetBody. */
  predicate RoundTripReports(cfg: Config, v: Verb, request: RequestBody, t: Trace, net: Script, cancel: Cancellation) {
    var n := |t.sends|;
    && n >= 1
    && if Final(cfg, v, net(n), false) then ReportsOutcome(t, net(n), false)
       else if n == cfg.maxAttempts then
         t.response == LastAnswer(net, n) && t.error == if t.response.Some? then None else LastFailure(net, n)
       else t.response == None
            && if cancel(n + 1) then t.error == Some(ContextDone)
               else request.getBody.GetBodyFails? && t.error == Some(GetBodyFailed)
  }

  lemma {:induction false} DoFromReports(cfg: Config, v: Verb, body: Bytes, net: Script, cancel: Cancellation,
                                         attempt: nat,
                                         lastErr: Option<Error>, lastResp: Option<Response>,
                                         sends: seq<Bytes>, waits: seq<Wait>)
    requires 1 <= attempt <= cfg.maxAttempts + 1 && |sends| == attempt - 1 && cfg.maxAttempts >= 1
    requires lastErr == LastFailure(net, attempt - 1) && lastResp == LastAnswer(net, attempt - 1)
    requires attempt > 1 ==> !Final(cfg, v, net(attempt - 1), true)
    ensures DoReports(cfg, v, DoFrom(cfg, v, body, net, cancel, attempt, lastErr, lastResp, sends, waits), net, cancel)
    decreases cfg.maxAttempts - attempt
  {
    hide CanRetryResponse, CanRetryNetworkError;
    if attempt <= cfg.maxAttempts && !(attempt > 1 && cancel(attempt)) && !Final(cfg, v, net(attempt), true) {
      var waits' := if attempt > 1 then waits + [Wait(attempt - 1, lastResp)] else waits;
      DoFromReports(cfg, v, body, net, cancel, attempt + 1, LastFailure(net, attempt), LastAnswer(net, attempt),
                    sends + [body], waits');
    }
  }

  lemma {:induction false} RoundTripFromReports(cfg: Config, v: Verb, request: RequestBody, net: Script,
                                                cancel: Cancellation, attempt: nat,
                                                lastErr: Option<Error>, lastResp: Option<Response>,
                                                sends: seq<Bytes>, waits: seq<Wait>)
    requires 1 <= attempt <= cfg.maxAttempts + 1 && |sends| == attempt - 1 && cfg.maxAttempts >= 1
    requires lastErr == LastFailure(net, attempt - 1) && lastResp == LastAnswer(net, attempt - 1)
    requires attempt > 1 ==> !Final(cfg, v, net(attempt - 1), false)
    ensures
      RoundTripReports(cfg, v, request,
                       RoundTripFrom(cfg, v, request, net, cancel, attempt, lastErr, lastResp, sends, waits), net, cancel)
    decreases cfg.maxAttempts - attempt
  {
    hide CanRetryResponse, CanRetryNetworkError, SentBody;
    if attempt <= cfg.maxAttempts && !(attempt > 1 && (cancel(attempt) || request.getBody.GetBodyFails?))
       && !Final(cfg, v, net(attempt), false) {
      var waits' := if attempt > 1 then waits + [Wait(attempt - 1, lastResp)] else waits;
      RoundTripFromReports(cfg, v, request, net, cancel, attempt + 1, LastFailure(net, attempt), LastAnswer(net, attempt),
                           sends + [SentBody(request, attempt)], waits');
    }
  }

  /** Each of the outcomes before attempt n may be followed by another attempt, none of the waits is cancelled, and the
      body can be had again. */
  predicate LeadsTo(cfg: Config, v: Verb, net: Script, cancel: Cancellation, replays: bool, buffers: bool, n: nat) {
    n <= cfg.maxAttempts && forall i :: 1 <= i < n ==> GoesOn(cfg, v, net, cancel, replays, buffers, i)
  }

  predicate GoesOn(cfg: Config, v: Verb, net: Script, cancel: Cancellation, replays: bool, buffers: bool, i: nat) {
    !Final(cfg, v, net(i), buffers) && !cancel(i + 1) && replays
  }

  lemma {:induction false} DoFromAttempts(
      cfg: Config, v: Verb, body: Bytes, net: Script, cancel: Cancellation, attempt: nat,
      lastErr: Option<Error>, lastResp: Option<Response>, sends: seq<Bytes>, waits: seq<Wait>, n: nat)
    requires 1 <= attempt <= cfg.maxAttempts + 1 && |sends| == attempt - 1 && n >= attempt
    requires attempt > 1 ==> !Final(cfg, v, net(attempt - 1), true)
    requires LeadsTo(cfg, v, net, cancel, true, true, attempt - 1)
    ensures
      var made := |DoFrom(cfg, v, body, net, cancel, attempt, lastErr, lastResp, sends, waits).sends|;
      made >= attempt - 1 && (made >= n <==> LeadsTo(cfg, v, net, cancel, true, true, n))
    decreases cfg.maxAttempts - attempt
  {
    hide CanRetryResponse, CanRetryNetworkError;
    if attempt <= cfg.maxAttempts && !(attempt > 1 && cancel(attempt)) {
      assert LeadsTo(cfg, v, net, cancel, true, true, attempt);
      if Final(cfg, v, net(attempt), true) {
        assert !GoesOn(cfg, v, net, cancel, true, true, attempt);
      } else {
        var waits' := if attempt > 1 then waits + [Wait(attempt - 1, lastResp)] else waits;
        var m := if n > attempt then n else n + 1;
        match net(attempt)
        case Fails(e) =>
          DoFromAttempts(cfg, v, body, net, cancel, attempt + 1, Some(Network(e)), lastResp, sends + [body], waits', m);
        case Answers(r) =>
          DoFromAttempts(cfg, v, body, net, cancel, attempt + 1, lastErr, Some(r), sends + [body], waits', m);
      }
    } else if attempt <= cfg.maxAttempts {
      assert !GoesOn(cfg, v, net, cancel, true, true, attempt - 1);
    }
  }

  lemma {:induction false} RoundTripFromAttempts(
      cfg: Config, v: Verb, request: RequestBody, net: Script, cancel: Cancellation, attempt: nat,
      lastErr: Option<Error>, lastResp: Option<Response>, sends: seq<Bytes>, waits: seq<Wait>, n: nat)
    requires 1 <= attempt <= cfg.maxAttempts + 1 && |sends| == attempt - 1 && n >= attempt
    requires attempt > 1 ==> !Final(cfg, v, net(attempt - 1), false)
    requires LeadsTo(cfg, v, net, cancel, !request.getBody.GetBodyFails?, false, attempt - 1)
    ensures
      var made := |RoundTripFrom(cfg, v, request, net, cancel, attempt, lastErr, lastResp, sends, waits).sends|;
      made >= attempt - 1 && (made >= n <==> LeadsTo(cfg, v, net, cancel, !request.getBody.GetBodyFails?, false, n))
    decreases cfg.maxAttempts - attempt
  {
    hide CanRetryResponse, CanRetryNetworkError, SentBody;
    if attempt <= cfg.maxAttempts && !(attempt > 1 && (cancel(attempt) || request.getBody.GetBodyFails?)) {
      assert LeadsTo(cfg, v, net, cancel, !request.getBody.GetBodyFails?, false, attempt);
      if Final(cfg, v, net(attempt), false) {
        assert !GoesOn(cfg, v, net, cancel, !request.getBody.GetBodyFails?, false, attempt);
      } else {
        var waits' := if attempt > 1 then waits + [Wait(attempt - 1, lastResp)] else waits;
        var sends' := sends + [SentBody(request, attempt)];
        var m := if n > attempt then n else n + 1;
        match net(attempt)
        case Fails(e) =>
          RoundTripFromAttempts(cfg, v, request, net, cancel, attempt + 1, Some(Network(e)), lastResp, sends', waits', m);
        case Answers(r) =>
          RoundTripFromAttempts(cfg, v, request, net, cancel, attempt + 1, if r.readable then lastErr else Some(BodyUnreadable),
                                if r.readable then Some(r) else None, sends', waits', m);
      }
    } else if attempt <= cfg.maxAttempts {
      assert !GoesOn(cfg, v, net, cancel, !request.getBody.GetBodyFails?, false, attempt - 1);
    }
  }

  /** Main result: attempt n is made if and only if it is allowed and the loop goes on after every one before it; the
      first loop also has to read every answer, the second has to have its body again. */
  lemma AttemptsAreMadeExactlyWhen(cfg: Config, v: Verb, request: RequestBody, net: Script, cancel: Cancellation,
                                   n: nat)
    requires cfg.maxAttempts >= 1 && n >= 1
    ensures |DoTrace(cfg, v, request.unread, net, cancel).sends| >= n <==> LeadsTo(cfg, v, net, cancel, true, true, n)
    ensures |RoundTripTrace(cfg, v, request, net, cancel).sends| >= n
            <==> LeadsTo(cfg, v, net, cancel, !request.getBody.GetBodyFails?, false, n)
  {
    DoFromAttempts(cfg, v, request.unread, net, cancel, 1, None, None, [], [], n);
    RoundTripFromAttempts(cfg, v, request, net, cancel, 1, None, None, [], [], n);
    hide DoFrom, RoundTripFrom, Final;
  }

  /** What that means for one attempt, by method, status and headers. */
  lemma GoesOnMeans(cfg: Config, v: Verb, net: Script, cancel: Cancellation, replays: bool, buffers: bool, i: nat)
    ensures
      var eligible := v in {GET, HEAD, PUT, DELETE, OPTIONS} || cfg.retryWrite;
      GoesOn(cfg, v, net, cancel, replays, buffers, i) <==>
        && !cancel(i + 1) && replays
        && match net(i)
           case Fails(e) => eligible || e.unsent
           case Answers(r) =>
             eligible && (buffers ==> r.readable)
             && (r.status == 429 || 500 <= r.status <= 599 || r.status in cfg.statuses
                 || (r.status == 403 && (r.retryAfter != NoHeader || r.quotaGone)))
  {
    PolicyIs(cfg, v, net(i));
  }

  /** Without retries configured there is exactly one attempt, and its outcome is what the caller gets. */
  lemma WithoutRetries(cfg: Config, v: Verb, request: RequestBody, net: Script, cancel: Cancellation)
    requires cfg.maxAttempts <= 0
    ensures
      var a, b := DoTrace(cfg, v, request.unread, net, cancel), RoundTripTrace(cfg, v, request, net, cancel);
      && a.sends == b.sends == [request.unread] && a.waits == b.waits == []
      && match net(1)
         case Fails(e) => a.response == b.response == None && a.error == b.error == Some(Network(e))
         case Answers(r) => a.response == b.response == Some(r) && b.error == None
                            && a.error == if r.readable then None else Some(BodyUnreadable)
  {
  }

  /** Main result: what the caller gets from each loop, for every script, cancellation and GetBody. */
  lemma LoopsReport(cfg: Config, v: Verb, request: RequestBody, net: Script, cancel: Cancellation)
    requires cfg.maxAttempts >= 1
    ensures DoReports(cfg, v, DoTrace(cfg, v, request.unread, net, cancel), net, cancel)
    ensures RoundTripReports(cfg, v, request, RoundTripTrace(cfg, v, request, net, cancel), net, cancel)
  {
    DoFromReports(cfg, v, request.unread, net, cancel, 1, None, None, [], []);
    RoundTripFromReports(cfg, v, request, net, cancel, 1, None, None, [], []);
  }

  // ---------------------------------------------------------------- the loops agree

  predicate AllReadable(net: Script, limit: nat) {
    forall i :: 1 <= i <= limit && net(i).Answers? ==> net(i).response.readable
  }

  predicate NeverDone(cancel: Cancellation, limit: nat) {
    forall i :: 1 <= i <= limit ==> !cancel(i)
  }

  /** How two traces of one script compare: as many attempts and the same Backoff arguments. */
  predicate SameAttempts(a: Trace, b: Trace) {
    |a.sends| == |b.sends| && a.waits == b.waits
  }

  predicate SameResult(a: Trace, b: Trace) {
    a.response == b.response && a.error == b.error
  }

  /** The attempts ran out: the last one made was the last one allowed, and it too could have been retried. */
  predicate RanOut(cfg: Config, v: Verb, t: Trace, net: Script) {
    |t.sends| == cfg.maxAttempts && Retried(cfg, v)(net(|t.sends|))
  }

  /** One of the first n attempts was answered, or failed in the network. */
  predicate SomeOutcome(net: Script, n: nat, answered: bool) {
    exists i :: 1 <= i <= n && net(i).Answers? == answered
  }

  /** What is kept says what happened, when every answer could be read. */
  lemma {:induction false} KeptIsSome(net: Script, n: nat, limit: nat)
    requires n <= limit && AllReadable(net, limit)
    ensures LastAnswer(net, n).Some? <==> SomeOutcome(net, n, true)
    ensures LastFailure(net, n).Some? <==> SomeOutcome(net, n, false)
  {
    if n > 0 {
      KeptIsSome(net, n - 1, limit);
      assert SomeOutcome(net, n, net(n).Answers?);
    }
  }

  /** From any common position both loops make as many attempts and ask for the same waits. */
  lemma {:induction false} AttemptsAgreeFrom(
      cfg: Config, v: Verb, request: RequestBody, net: Script, cancel: Cancellation, attempt: nat,
      lastErr: Option<Error>, lastResp: Option<Response>, sends: seq<Bytes>, others: seq<Bytes>, waits: seq<Wait>)
    requires 1 <= attempt <= cfg.maxAttempts + 1 && |sends| == |others|
    requires !request.getBody.GetBodyFails? && AllReadable(net, cfg.maxAttempts) && NeverDone(cancel, cfg.maxAttempts)
    ensures SameAttempts(DoFrom(cfg, v, request.unread, net, cancel, attempt, lastErr, lastResp, sends, waits),
                         RoundTripFrom(cfg, v, request, net, cancel, attempt, lastErr, lastResp, others, waits))
    decreases cfg.maxAttempts - attempt
  {
    hide CanRetryResponse, CanRetryNetworkError, SentBody;
    if attempt <= cfg.maxAttempts {
      var waits' := if attempt > 1 then waits + [Wait(attempt - 1, lastResp)] else waits;
      var sends', others' := sends + [request.unread], others + [SentBody(request, attempt)];
      match net(attempt)
      case Fails(e) =>
        if CanRetryNetworkError(cfg, v, e) {
          AttemptsAgreeFrom(cfg, v, request, net, cancel, attempt + 1, Some(Network(e)), lastResp, sends', others', waits');
        }
      case Answers(r) =>
        if CanRetryResponse(cfg, v, r) {
          AttemptsAgreeFrom(cfg, v, request, net, cancel, attempt + 1, lastErr, Some(r), sends', others', waits');
        }
    }
  }

  /** Main result: when bodies can be read and the context lives, the two loops make as many attempts with the same
      Backoff arguments, and send the same bytes unless a GetBody returns others. They return the same response and
      error exactly unless the attempts ran out after both an answer and a network error: then the first loop reports
      the error and the second does not. */
  lemma LoopsAgree(cfg: Config, v: Verb, request: RequestBody, net: Script, cancel: Cancellation)
    requires cfg.maxAttempts >= 1 && !request.getBody.GetBodyFails?
    requires AllReadable(net, cfg.maxAttempts) && NeverDone(cancel, cfg.maxAttempts)
    ensures
      var a, b := DoTrace(cfg, v, request.unread, net, cancel), RoundTripTrace(cfg, v, request, net, cancel);
      && SameAttempts(a, b) && |a.sends| >= 1
      && (a.sends == b.sends <==> |a.sends| == 1 || SentBody(request, 2) == request.unread)
      && (SameResult(a, b) <==>
          !(RanOut(cfg, v, a, net) && SomeOutcome(net, cfg.maxAttempts, false) && SomeOutcome(net, cfg.maxAttempts, true)))
  {
    BothLoopsAreDisciplined(cfg, v, request, net, cancel);
    AttemptsAgreeFrom(cfg, v, request, net, cancel, 1, None, None, [], [], []);
    LoopsReport(cfg, v, request, net, cancel);
    KeptIsSome(net, cfg.maxAttempts, cfg.maxAttempts);
    hide DoFrom, RoundTripFrom, LastAnswer, LastFailure, SomeOutcome, CanRetryResponse, CanRetryNetworkError, SentBody;
  }

  /** An answer, then a failed dial, and no attempt left: the first loop returns both, the second only the answer. */
  lemma LoopsCanDisagree()
    ensures exists cfg, net: Script, cancel ::
      var a, b := DoTrace(cfg, GET, [], net, cancel), RoundTripTrace(cfg, GET, Buffered([]), net, cancel);
      && AllReadable(net, 2) && NeverDone(cancel, 2) && SameAttempts(a, b)
      && net(1).Answers? && a.response == b.response == Some(net(1).response) && a.error.Some? && b.error == None
  {
    var cfg := Config(2, 0, 0, [], false);
    var answer := Response(503, NoHeader, false, [], true);
    var net: Script := i => if i == 1 then Answers(answer) else Fails(NetworkError(true, 0));
    var cancel: Cancellation := i => false;
    LoopsReport(cfg, GET, Buffered([]), net, cancel);
    BothLoopsAreDisciplined(cfg, GET, Buffered([]), net, cancel);
    LoopsAgree(cfg, GET, Buffered([]), net, cancel);
    var a, b := DoTrace(cfg, GET, [], net, cancel), RoundTripTrace(cfg, GET, Buffered([]), net, cancel);
    assert !Final(cfg, GET, net(1), true) && !Final(cfg, GET, net(2), true);
    assert |a.sends| == |b.sends| == 2;
    assert LastAnswer(net, 1) == Some(answer) && LastAnswer(net, 2) == Some(answer);
    assert a.error == Some(Network(NetworkError(true, 0))) && b.error == None;
  }

  // ---------------------------------------------------------------- waiting

  lemma {:induction false} Pow2Positive(n: nat)
    ensures Pow2(n) >= 1
  {
    if n > 0 { Pow2Positive(n - 1); }
  }

  lemma Scaled(x: real, most: real, jitter: real)
    requires 0.0 <= x <= most && 0.75 <= jitter <= 1.25
    ensures 0.0 <= x * jitter <= 1.25 * most
  {
    assert x * (1.25 - jitter) >= 0.0 && x * jitter >= 0.0;
    assert x * 1.25 - x * jitter == x * (1.25 - jitter);
  }

  /** The longest a single wait can be. */
  function Longest(cfg: Config): real {
    1.25 * ResolvedMaxDelay(cfg) as real
  }

  /** One wait is never negative and at most 1.25 times the resolved maximum; a parseable Retry-After is capped at the
      maximum. */
  lemma BackoffBounded(cfg: Config, attempt: nat, last: Option<Response>, now: int, jitter: real)
    requires attempt >= 1 && 0.75 <= jitter <= 1.25
    ensures 0.0 <= Backoff(cfg, attempt, last, now, jitter) <= Longest(cfg)
    ensures last.Some? && ParseRetryAfter(last.value.retryAfter, now).Some? ==>
      Backoff(cfg, attempt, last, now, jitter) <= ResolvedMaxDelay(cfg) as real
  {
    hide Pow2;
    var base := if cfg.baseDelay <= 0 then SECOND / 2 else cfg.baseDelay;
    Pow2Positive(attempt - 1);
    NonNegativeProduct(base, Pow2(attempt - 1));
    var delay, max := base * Pow2(attempt - 1), ResolvedMaxDelay(cfg);
    Scaled((if delay > max then max else delay) as real, max as real, jitter);
  }

  /** The wait without a header, before jitter: the base doubles from retry to retry until it meets the maximum. */
  function Doubling(base: int, max: int, attempt: nat): int
    requires attempt >= 1
  {
    var delay := if attempt == 1 then base else 2 * Doubling(base, max, attempt - 1);
    if delay > max then max else delay
  }

  lemma {:induction false} DoublingIsCappedPower(base: int, max: int, attempt: nat)
    requires attempt >= 1 && base > 0 && max > 0
    ensures Doubling(base, max, attempt) == (if base * Pow2(attempt - 1) > max then max else base * Pow2(attempt - 1))
  {
    if attempt > 1 {
      DoublingIsCappedPower(base, max, attempt - 1);
      Pow2Positive(attempt - 2);
      NonNegativeProduct(base, Pow2(attempt - 2));
      TwiceTheProduct(base, Pow2(attempt - 2));
    }
  }

  lemma TwiceTheProduct(a: int, b: int)
    ensures a * (2 * b) == 2 * (a * b)
  {
  }

  /** Main result: without a usable Retry-After the waits start at the base delay, or 500 ms, and double up to the
      maximum, or 30 s, times the jitter. */
  lemma BackoffDoubles(cfg: Config, attempt: nat, last: Option<Response>, now: int, jitter: real)
    requires attempt >= 1
    requires last.Some? ==> match last.value.retryAfter
                            case NoHeader => true
                            case Junk => true
                            case Seconds(n) => n < 0
                            case Date(_) => false
    ensures
      var base := if cfg.baseDelay <= 0 then 500_000_000 else cfg.baseDelay;
      var max := if cfg.maxDelay <= 0 then 30_000_000_000 else cfg.maxDelay;
      Backoff(cfg, attempt, last, now, jitter) == Doubling(base, max, attempt) as real * jitter
  {
    var base := if cfg.baseDelay <= 0 then 500_000_000 else cfg.baseDelay;
    var max := if cfg.maxDelay <= 0 then 30_000_000_000 else cfg.maxDelay;
    DoublingIsCappedPower(base, max, attempt);
    hide Doubling, Pow2;
  }

  /** Main result: a Retry-After of n seconds, or a date, is waited out to the nanosecond without jitter, but no longer
      than the maximum; a date in the past asks for no wait. */
  lemma RetryAfterIsHonoured(cfg: Config, attempt: nat, r: Response, now: int, jitter: real)
    requires attempt >= 1
    ensures
      var max := if cfg.maxDelay <= 0 then 30_000_000_000 else cfg.maxDelay;
      match r.retryAfter
      case Seconds(n) =>
        n >= 0 ==> Backoff(cfg, attempt, Some(r), now, jitter)
                   == (if n * 1_000_000_000 <= max then n * 1_000_000_000 else max) as real
      case Date(at) =>
        Backoff(cfg, attempt, Some(r), now, jitter)
        == (if at <= now then 0 else if at - now <= max then at - now else max) as real
      case _ => true
  {
    hide Pow2;
  }

  /** Total time slept, with the clock and the jitter of each wait. */
  function TotalWait(cfg: Config, waits: seq<Wait>, clock: nat -> int, jitter: nat -> real): real
    requires forall i :: 0 <= i < |waits| ==> waits[i].attempt >= 1
  {
    if waits == [] then 0.0
    else
      var n := |waits| - 1;
      TotalWait(cfg, waits[..n], clock, jitter) + Backoff(cfg, waits[n].attempt, waits[n].last, clock(n), jitter(n))
  }

  lemma {:induction false} TotalWaitBounded(cfg: Config, waits: seq<Wait>, clock: nat -> int, jitter: nat -> real)
    requires forall i :: 0 <= i < |waits| ==> waits[i].attempt >= 1
    requires forall i: nat :: 0.75 <= jitter(i) <= 1.25
    ensures TotalWait(cfg, waits, clock, jitter) <= |waits| as real * Longest(cfg)
    decreases |waits|
  {
    hide Backoff, Longest;
    if waits != [] {
      var n := |waits| - 1;
      TotalWaitBounded(cfg, waits[..n], clock, jitter);
      BackoffBounded(cfg, waits[n].attempt, waits[n].last, clock(n), jitter(n));
      OneMore(n, Longest(cfg));
    }
  }

  lemma OneMore(n: nat, cap: real)
    ensures (n + 1) as real * cap == n as real * cap + cap
  {
    assert (n + 1) as real == n as real + 1.0;
  }

  /** The waits of a loop add up to at most (maxAttempts - 1) times the longest single wait. */
  ghost predicate SleepsAtMost(cfg: Config, t: Trace, clock: nat -> int, jitter: nat -> real) {
    && (forall i :: 0 <= i < |t.waits| ==> t.waits[i].attempt >= 1)
    && TotalWait(cfg, t.waits, clock, jitter) <= (cfg.maxAttempts - 1) as real * Longest(cfg)
  }

  lemma FewWaitsAreShort(cfg: Config, t: Trace, clock: nat -> int, jitter: nat -> real)
    requires forall i: nat :: 0.75 <= jitter(i) <= 1.25
    requires |t.waits| <= cfg.maxAttempts - 1 && forall i :: 0 <= i < |t.waits| ==> t.waits[i].attempt >= 1
    ensures SleepsAtMost(cfg, t, clock, jitter)
  {
    hide TotalWait;
    TotalWaitBounded(cfg, t.waits, clock, jitter);
    assert Longest(cfg) >= 0.0;
    hide Longest;
    MoreWaitsMore(|t.waits|, cfg.maxAttempts - 1, Longest(cfg));
  }

  lemma MoreWaitsMore(n: int, m: int, cap: real)
    requires n <= m && cap >= 0.0
    ensures n as real * cap <= m as real * cap
  {
    assert (m as real - n as real) * cap >= 0.0;
  }

  /** Main result: whatever the server's headers, the network and the jitter, either loop sleeps at most
      (maxAttempts - 1) * 1.25 times the resolved maximum delay in all. */
  lemma WaitingIsBounded(cfg: Config, v: Verb, request: RequestBody, net: Script, cancel: Cancellation,
                         clock: nat -> int, jitter: nat -> real)
    requires cfg.maxAttempts >= 1 && forall i: nat :: 0.75 <= jitter(i) <= 1.25
    ensures SleepsAtMost(cfg, DoTrace(cfg, v, request.unread, net, cancel), clock, jitter)
    ensures SleepsAtMost(cfg, RoundTripTrace(cfg, v, request, net, cancel), clock, jitter)
  {
    BothLoopsAreDisciplined(cfg, v, request, net, cancel);
    FewWaitsAreShort(cfg, DoTrace(cfg, v, request.unread, net, cancel), clock, jitter);
    FewWaitsAreShort(cfg, RoundTripTrace(cfg, v, request, net, cancel), clock, jitter);
  }
}
