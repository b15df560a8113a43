/** The rate limiter: waiters reserve send slots one after another and sleep outside the lock. Times are nanoseconds. */
module RateLimit {
  import opened Basics

  /** `resetAt` and `lastReq` are None while unset (the zero time). */
  datatype Limiter = Limiter(minDelay: int, threshold: int, remaining: int, resetAt: Option<int>, lastReq: Option<int>)

  function Max(a: int, b: int): int {
    if a > b then a else b
  }

  /** Delay asked for by the minimum spacing. */
  function SpacingDelay(l: Limiter, now: int): int {
    if l.minDelay > 0 && l.lastReq.Some? && now - l.lastReq.value < l.minDelay
    then Max(0, l.minDelay - (now - l.lastReq.value)) else 0
  }

  /** The share of the time to the reset left to this waiter; positive, so truncation is division. */
  function AdaptiveShare(l: Limiter, now: int): int
    requires l.resetAt.Some?
  {
    (l.resetAt.value - now) / (Max(l.remaining, 0) + 1)
  }

  /** The adaptive throttle acts: quota low, reset ahead, and a share above one second. */
  predicate Throttled(l: Limiter, now: int) {
    Max(l.remaining, 0) <= l.threshold && l.resetAt.Some? && l.resetAt.value > now && AdaptiveShare(l, now) > SECOND
  }

  function Delay(l: Limiter, now: int): int {
    if Throttled(l, now) then Max(SpacingDelay(l, now), AdaptiveShare(l, now)) else SpacingDelay(l, now)
  }

  /** When the waiter that reads the clock at `now` may send. */
  function Slot(l: Limiter, now: int): int {
    now + Delay(l, now)
  }

  function Reserved(l: Limiter, now: int): Limiter {
    l.(remaining := if Throttled(l, now) then l.remaining - 1 else l.remaining, lastReq := Some(Slot(l, now)))
  }

  /** Response headers that parse replace the tracked quota; the others leave it alone. */
  function Updated(l: Limiter, remaining: Option<int>, reset: Option<int>): Limiter {
    l.(remaining := if remaining.Some? then remaining.value else l.remaining,
       resetAt := if reset.Some? then reset else l.resetAt)
  }

  class RateLimiter {
    const minDelay: int
    const threshold: int
    var remaining: int
    var resetAt: Option<int>
    var lastReq: Option<int>

    function State(): Limiter
      reads this
    {
      Limiter(minDelay, threshold, remaining, resetAt, lastReq)
    }

    constructor (minDelay: int, threshold: int)
      ensures State() == Limiter(minDelay, threshold, 0, None, None)
    {
      this.minDelay, this.threshold := minDelay, threshold;
      remaining, resetAt, lastReq := 0, None, None;
    }

    /** The critical section of WaitContext: how long to sleep, with the slot reserved whether or not the sleep
        completes. */
    method Reserve(now: int) returns (delay: int)
      modifies this`remaining, this`lastReq
      ensures delay == Delay(old(State()), now) && State() == Reserved(old(State()), now)
    {
      delay := 0;
      if minDelay > 0 {
        if lastReq.Some? && now - lastReq.value < minDelay {
          var d := minDelay - (now - lastReq.value);
          if d > delay {
            delay := d;
          }
        }
      }
      var rem := Max(remaining, 0);
      if rem <= threshold && resetAt.Some? {
        var timeUntilReset := resetAt.value - now;
        if timeUntilReset > 0 {
          var d := timeUntilReset / (rem + 1);
          if d > SECOND {
            if d > delay {
              delay := d;
            }
            remaining := remaining - 1;
          }
        }
      }
      lastReq := Some(now + delay);
    }

    method UpdateFromResponse(remainingHeader: Option<int>, resetHeader: Option<int>)
      modifies this`remaining, this`resetAt
      ensures State() == Updated(old(State()), remainingHeader, resetHeader)
    {
      if remainingHeader.Some? {
        remaining := remainingHeader.value;
      }
      if resetHeader.Some? {
        resetAt := resetHeader;
      }
    }
  }

  // ---------------------------------------------------------------- two successive waiters

  lemma ShareBounds(x: int, m: int)
    requires x > 0 && m >= 1
    ensures (x / m) * m <= x < (x / m + 1) * m && 0 <= x / m <= x
  {
    assert x == (x / m) * m + x % m;
    NonNegativeProduct(x / m, m - 1);
    assert (x / m) * (m - 1) == (x / m) * m - x / m;
  }

  /** A throttled slot lies after the present and not after the reset. */
  lemma ThrottledSlotBeforeReset(l: Limiter, now: int)
    requires l.minDelay <= 0 && Throttled(l, now)
    ensures now + SECOND < Slot(l, now) <= l.resetAt.value
  {
    ShareBounds(l.resetAt.value - now, Max(l.remaining, 0) + 1);
  }

  /** Main result: when a waiter is held back and for how long, without division. Without a minimum delay it is held
      back exactly when the quota is at or below the threshold and the time to the reset is more than a second for each
      request left and one more; it then waits its equal share of that time, rounded down to the nanosecond, and uses
      up one request. */
  lemma HeldBackExactlyWhen(l: Limiter, now: int)
    requires l.minDelay <= 0
    ensures
      var left, d := if l.remaining > 0 then l.remaining else 0, Slot(l, now) - now;
      && (d > 0 <==> l.resetAt.Some? && left <= l.threshold && l.resetAt.value - now >= (left + 1) * (SECOND + 1))
      && (if d > 0 then d * (left + 1) <= l.resetAt.value - now < (d + 1) * (left + 1)
                       && Reserved(l, now).remaining == l.remaining - 1
          else d == 0 && Reserved(l, now).remaining == l.remaining)
  {
    var left := if l.remaining > 0 then l.remaining else 0;
    if l.resetAt.Some? {
      var x := l.resetAt.value - now;
      if x > 0 {
        ShareBounds(x, left + 1);
        ShareAbove(x, left + 1);
      } else {
        NonNegativeProduct(left + 1, SECOND + 1);
        assert (left + 1) * (SECOND + 1) > 0;
      }
    }
  }

  lemma ShareAbove(x: int, m: int)
    requires x > 0 && m >= 1
    ensures x / m > SECOND <==> x >= m * (SECOND + 1)
  {
    ShareBounds(x, m);
    if x / m > SECOND {
      NonNegativeProduct(x / m - SECOND - 1, m);
      assert (x / m - SECOND - 1) * m == (x / m) * m - (SECOND + 1) * m;
    } else {
      NonNegativeProduct(SECOND - x / m, m);
      assert (SECOND - x / m) * m == (SECOND + 1) * m - (x / m + 1) * m;
    }
  }

  /** A minimum delay puts the slot at least that much after the last one, and no later than needed when nothing else
      holds the waiter back. The reservation is remembered. */
  lemma SpacedFromTheLast(l: Limiter, now: int)
    requires l.minDelay > 0
    ensures Reserved(l, now).lastReq == Some(Slot(l, now)) && Slot(l, now) >= now
    ensures l.lastReq.Some? ==> Slot(l, now) >= l.lastReq.value + l.minDelay
    ensures !Throttled(l, now) ==>
      Slot(l, now) == if l.lastReq.Some? && l.lastReq.value + l.minDelay > now then l.lastReq.value + l.minDelay else now
    ensures Throttled(l, now) ==> Slot(l, now) >= now + AdaptiveShare(l, now)
  {
  }

  /** Main result: headers are remembered. A header that parses decides what later waiters see, a missing or malformed
      one does not, and slots reserved so far stay. After "no requests left until r" the next waiter is sent to r, if
      that is over a second away. */
  lemma HeadersAreRemembered(l: Limiter, remaining: Option<int>, reset: Option<int>, now: int)
    ensures
      var u := Updated(l, remaining, reset);
      && u.remaining == (match remaining case Some(n) => n case None => l.remaining)
      && u.resetAt == (match reset case Some(r) => Some(r) case None => l.resetAt)
      && u.minDelay == l.minDelay && u.threshold == l.threshold && u.lastReq == l.lastReq
      && (l.minDelay <= 0 && l.threshold >= 0 && remaining.Some? && remaining.value <= 0 && reset.Some? ==>
            (reset.value > now + SECOND ==> Slot(u, now) == reset.value))
  {
    var u := Updated(l, remaining, reset);
    if u.resetAt.Some? && u.remaining <= 0 {
      assert AdaptiveShare(u, now) == u.resetAt.value - now;
    }
  }

  /** The next waiter after a throttled one with quota left gets no earlier slot. */
  lemma NextSlotNotEarlier(l: Limiter, now: int, later: int)
    requires l.minDelay <= 0 && l.remaining > 0 && now <= later
    ensures Slot(l, now) <= Slot(Reserved(l, now), later)
  {
    if Throttled(l, now) {
      var r, x, y := l.remaining, l.resetAt.value - now, l.resetAt.value - later;
      var share := x / (r + 1);
      ShareBounds(x, r + 1);
      if y <= 0 {
        assert share <= x;
      } else {
        ShareBounds(y, r);
        ShareStep(x, y, r);
      }
    }
  }

  /** Truncating division across one consumed reservation: with x - y elapsed, the smaller divisor makes up for it. */
  lemma ShareStep(x: int, y: int, r: int)
    requires r >= 1 && 0 < y <= x
    ensures x / (r + 1) <= (x - y) + y / r
    ensures x / (r + 1) > SECOND && y / r <= SECOND ==> x / (r + 1) <= x - y
  {
    var a, b := x / (r + 1), y / r;
    ShareBounds(x, r + 1);
    ShareBounds(y, r);
    if a > (x - y) + b {
      // a >= (x - y) + b + 1, so a * (r + 1) >= (x - y) * (r + 1) + (b + 1) * (r + 1) > (x - y) + y
      Scale(r, a - (x - y) - b - 1, x - y, b);
      assert false;
    }
    if a > SECOND && b <= SECOND && a > x - y {
      assert a >= b + 1;
      Scale2(r, a, b, x - y);
      assert false;
    }
  }

  lemma Scale(r: int, k: int, e: int, b: int)
    requires r >= 1 && k >= 0 && e >= 0 && b >= 0
    ensures (k + e + b + 1) * (r + 1) >= e + (b + 1) * r
  {
    assert (k + e + b + 1) * (r + 1) == k * (r + 1) + e * r + e + (b + 1) * r + (b + 1);
    assert k * (r + 1) >= 0 && e * r >= 0;
  }

  lemma Scale2(r: int, a: int, b: int, e: int)
    requires r >= 1 && a >= b + 1 && a > e
    ensures a * (r + 1) > e + (b + 1) * r - 1 && a * (r + 1) >= (e + 1) + (b + 1) * r
  {
    assert a * (r + 1) == a * r + a;
    assert a * r >= (b + 1) * r;
  }

  /** With the quota exhausted a later waiter can get an earlier slot, and exactly then: the first one waits for the
      reset, and the second arrives in the last second before it, where the throttle is off. */
  lemma SlotGoesBackIff(l: Limiter, now: int, later: int)
    requires l.minDelay <= 0 && l.remaining <= 0 && now <= later
    ensures Slot(Reserved(l, now), later) < Slot(l, now)
            <==> Throttled(l, now) && l.resetAt.value - SECOND <= later < l.resetAt.value
  {
    if Throttled(l, now) {
      assert AdaptiveShare(l, now) == l.resetAt.value - now;
      if later < l.resetAt.value {
        assert AdaptiveShare(Reserved(l, now), later) == l.resetAt.value - later;
      }
    }
  }

  /** It does happen: ten seconds before the reset a waiter is sent to the reset, and half a second before the reset the
      next one may go at once. */
  lemma SlotsCanGoBack()
    ensures exists l: Limiter, now, later ::
      l.minDelay <= 0 && l.remaining <= 0 && now <= later && Slot(Reserved(l, now), later) < Slot(l, now)
  {
    var l, later := Limiter(0, 10, 0, Some(10 * SECOND), None), 10 * SECOND - SECOND / 2;
    assert AdaptiveShare(l, 0) == 10 * SECOND;
    SlotGoesBackIff(l, 0, later);
    assert Slot(Reserved(l, 0), later) < Slot(l, 0);
  }

  // ---------------------------------------------------------------- runs of waiters

  function Slots(l: Limiter, clock: seq<int>): (slots: seq<int>)
    ensures |slots| == |clock|
    decreases |clock|
  {
    if clock == [] then [] else [Slot(l, clock[0])] + Slots(Reserved(l, clock[0]), clock[1..])
  }

  predicate Ordered(s: seq<int>) {
    forall i, j :: 0 <= i < j < |s| ==> s[i] <= s[j]
  }

  /** Every waiter of the run but perhaps the last finds quota left. */
  predicate QuotaLasts(l: Limiter, clock: seq<int>)
    decreases |clock|
  {
    |clock| <= 1 || (l.remaining > 0 && QuotaLasts(Reserved(l, clock[0]), clock[1..]))
  }

  /** Main result: between header updates and without a minimum delay, the slots of successive waiters never go
      backwards while quota is left, across the threshold, the one-second gate and the truncating division. */
  lemma {:induction false} SlotsNeverGoBack(l: Limiter, clock: seq<int>)
    requires l.minDelay <= 0 && Ordered(clock) && QuotaLasts(l, clock)
    ensures Ordered(Slots(l, clock))
    decreases |clock|
  {
    if |clock| >= 2 {
      NextSlotNotEarlier(l, clock[0], clock[1]);
      SlotsNeverGoBack(Reserved(l, clock[0]), clock[1..]);
      var rest := Slots(Reserved(l, clock[0]), clock[1..]);
      assert rest[0] == Slot(Reserved(l, clock[0]), clock[1]);
      assert Slots(l, clock) == [Slot(l, clock[0])] + rest;
    }
  }

  /** The reservations a budget pays for: a quota of n lasts for n + 1 waiters. */
  lemma {:induction false} QuotaPaysForItsSize(l: Limiter, clock: seq<int>)
    requires |clock| <= l.remaining + 1
    ensures QuotaLasts(l, clock)
    decreases |clock|
  {
    if |clock| > 1 {
      QuotaPaysForItsSize(Reserved(l, clock[0]), clock[1..]);
    }
  }

  // ---------------------------------------------------------------- concurrent waiters

  /** A caller past its reservation: on its way out of the critical section with its delay, asleep on a timer, returned
      at some time, or cancelled. `turn` numbers the reservations. */
  datatype Waiter =
    | Leaving(turn: nat, delay: int)
    | Sleeping(turn: nat, fires: int)
    | Returned(turn: nat, time: int)
    | Cancelled(turn: nat)

  /** `slots` lists every reservation made, in order. */
  datatype Traffic = Traffic(limiter: Limiter, clock: int, waiters: map<nat, Waiter>, slots: seq<int>)

  datatype Event =
    | Arrive(id: nat, now: int)
    | Arm(id: nat, now: int)
    | GoOn(id: nat, now: int)
    | Wake(id: nat, now: int)
    | Cancel(id: nat, now: int)
    | Headers(remaining: Option<int>, reset: Option<int>)

  /** Clocks do not run backwards, and a timer fires no earlier than its delay after it was armed. A caller without a
      delay goes on at once; only a sleeping one notices the cancellation. */
  predicate Possible(t: Traffic, e: Event) {
    match e
    case Arrive(id, now) => id !in t.waiters && t.clock <= now
    case Arm(id, now) => t.clock <= now && id in t.waiters && t.waiters[id].Leaving? && t.waiters[id].delay > 0
    case GoOn(id, now) => t.clock <= now && id in t.waiters && t.waiters[id].Leaving? && t.waiters[id].delay <= 0
    case Wake(id, now) => t.clock <= now && id in t.waiters && t.waiters[id].Sleeping? && t.waiters[id].fires <= now
    case Cancel(id, now) => t.clock <= now && id in t.waiters && t.waiters[id].Sleeping?
    case Headers(_, _) => true
  }

  function After(t: Traffic, e: Event): Traffic
    requires Possible(t, e)
  {
    match e
    case Arrive(id, now) =>
      Traffic(Reserved(t.limiter, now), now, t.waiters[id := Leaving(|t.slots|, Delay(t.limiter, now))],
              t.slots + [Slot(t.limiter, now)])
    case Arm(id, now) => t.(clock := now, waiters := t.waiters[id := Sleeping(t.waiters[id].turn, now + t.waiters[id].delay)])
    case GoOn(id, now) => t.(clock := now, waiters := t.waiters[id := Returned(t.waiters[id].turn, now)])
    case Wake(id, now) => t.(clock := now, waiters := t.waiters[id := Returned(t.waiters[id].turn, now)])
    case Cancel(id, now) => t.(clock := now, waiters := t.waiters[id := Cancelled(t.waiters[id].turn)])
    case Headers(remaining, reset) => t.(limiter := Updated(t.limiter, remaining, reset))
  }

  /** Headers that arrive between two waiters count for the second: what they say is what its slot is computed from. */
  lemma HeadersReachTheNextWaiter(t: Traffic, remaining: Option<int>, reset: Option<int>, id: nat, now: int)
    requires id !in t.waiters && t.clock <= now
    ensures
      var t' := After(t, Headers(remaining, reset));
      && t'.slots == t.slots && t'.waiters == t.waiters && t'.clock == t.clock
      && Possible(t', Arrive(id, now))
      && After(t', Arrive(id, now)).slots == t.slots + [Slot(Updated(t.limiter, remaining, reset), now)]
      && After(t', Arrive(id, now)).limiter == Reserved(Updated(t.limiter, remaining, reset), now)
  {
  }

  ghost predicate Happens(t: Traffic, events: seq<Event>, final: Traffic)
    decreases |events|
  {
    if events == [] then final == t
    else Possible(t, events[0]) && Happens(After(t, events[0]), events[1..], final)
  }

  ghost predicate Spaced(slots: seq<int>, gap: int) {
    forall i :: 0 < i < |slots| ==> slots[i - 1] + gap <= slots[i]
  }

  /** However far a caller is, it cannot be back before its slot any more. */
  predicate NotEarly(t: Traffic, w: Waiter)
    requires w.turn < |t.slots|
  {
    match w
    case Leaving(turn, delay) => t.slots[turn] <= t.clock + delay
    case Sleeping(turn, fires) => t.slots[turn] <= fires
    case Returned(turn, time) => t.slots[turn] <= time
    case Cancelled(_) => true
  }

  ghost predicate TrafficInv(t: Traffic, gap: int) {
    && t.limiter.minDelay == gap
    && (gap > 0 ==> Spaced(t.slots, gap))
    && (t.slots != [] ==> t.limiter.lastReq == Some(t.slots[|t.slots| - 1]))
    && (forall id :: id in t.waiters ==> t.waiters[id].turn < |t.slots| && NotEarly(t, t.waiters[id]))
    && (forall id, id' :: id in t.waiters && id' in t.waiters && id != id' ==> t.waiters[id].turn != t.waiters[id'].turn)
  }

  /** A new reservation keeps its distance to the one before. */
  lemma NextReservation(l: Limiter, now: int)
    requires l.minDelay > 0 && l.lastReq.Some?
    ensures l.lastReq.value + l.minDelay <= Slot(l, now)
  {
  }

  lemma EventKeeps(t: Traffic, e: Event, gap: int)
    requires TrafficInv(t, gap) && Possible(t, e)
    ensures TrafficInv(After(t, e), gap)
  {
    if e.Arrive? && t.slots != [] && gap > 0 { NextReservation(t.limiter, e.now); }
    hide SpacingDelay, Throttled, AdaptiveShare, Delay;
    var t' := After(t, e);
    forall id | id in t'.waiters ensures t'.waiters[id].turn < |t'.slots| && NotEarly(t', t'.waiters[id]) {
      if id in t.waiters { assert NotEarly(t, t.waiters[id]); }
    }
  }

  lemma {:induction false} TrafficKeeps(t: Traffic, events: seq<Event>, final: Traffic, gap: int)
    requires TrafficInv(t, gap) && Happens(t, events, final)
    ensures TrafficInv(final, gap)
    decreases |events|
  {
    hide TrafficInv, After, Possible;
    if events != [] {
      EventKeeps(t, events[0], gap);
      TrafficKeeps(After(t, events[0]), events[1..], final, gap);
    }
  }

  lemma {:induction false} SpacedApart(slots: seq<int>, gap: int, i: nat, j: nat)
    requires Spaced(slots, gap) && i <= j < |slots|
    ensures slots[i] + (j - i) * gap <= slots[j]
    decreases j
  {
    if i < j {
      SpacedApart(slots, gap, i, j - 1);
      assert (j - i) * gap == (j - 1 - i) * gap + gap;
    }
  }

  /** Main result: for any number of concurrent, possibly cancelled callers and any header updates between them,
      reservations are at least minDelay apart, if there is one, even when the adaptive delay takes part, every caller
      has its own slot, and no caller that was not cancelled returns before it, although its timer is armed only after
      it left the lock. */
  lemma WaitersKeepTheirDistance(l: Limiter, start: int, events: seq<Event>, final: Traffic)
    requires Happens(Traffic(l, start, map[], []), events, final)
    ensures l.minDelay > 0 ==>
      forall i, j :: 0 <= i <= j < |final.slots| ==> final.slots[i] + (j - i) * l.minDelay <= final.slots[j]
    ensures forall id :: id in final.waiters && final.waiters[id].Returned? ==>
      final.waiters[id].turn < |final.slots| && final.slots[final.waiters[id].turn] <= final.waiters[id].time
    ensures forall id, id' :: id in final.waiters && id' in final.waiters && id != id' ==>
      final.waiters[id].turn != final.waiters[id'].turn
  {
    TrafficKeeps(Traffic(l, start, map[], []), events, final, l.minDelay);
    forall id | id in final.waiters && final.waiters[id].Returned?
      ensures final.waiters[id].turn < |final.slots| && final.slots[final.waiters[id].turn] <= final.waiters[id].time
    {
      assert NotEarly(final, final.waiters[id]);
    }
    forall i, j | l.minDelay > 0 && 0 <= i <= j < |final.slots|
      ensures final.slots[i] + (j - i) * l.minDelay <= final.slots[j] {
      SpacedApart(final.slots, l.minDelay, i, j);
    }
  }
}
