/** The recency order of the provider cache follows the uses of its keys. */
module ManagerRecency {
  import opened Basics
  import opened Lru
  import opened Manager
  import opened ManagerRuns

  /** A system with, for each key, the number of the step that used it last: refreshed it after a hit, or inserted
      it. */
  datatype Tracked = Tracked(s: System, tick: nat, lastUse: map<string, nat>)

  /** The key a step uses, if it is in the cache afterwards or was found to be. */
  function UsedBy(s: System, step: Step): Option<string>
    requires Enabled(s, step)
  {
    match step
    case Refresh(id) => if s.calls[id].key in s.cache.providers then Some(s.calls[id].key) else None
    case Insert(id, now) => if Fresh(s.cache, s.calls[id].key, now) then None else Some(s.calls[id].key)
    case _ => None
  }

  function Track(t: Tracked, step: Step): Tracked
    requires Enabled(t.s, step)
  {
    Tracked(Next(t.s, step), t.tick + 1,
            match UsedBy(t.s, step)
            case Some(k) => t.lastUse[k := t.tick]
            case None => t.lastUse)
  }

  /** The order lists the keys by last use, oldest first. */
  ghost predicate ByLastUse(order: seq<string>, lastUse: map<string, nat>, tick: nat) {
    order == []
    || (&& order[0] in lastUse && lastUse[order[0]] < tick
        && (forall x <- order[1..] :: x in lastUse && lastUse[order[0]] < lastUse[x])
        && ByLastUse(order[1..], lastUse, tick))
  }

  lemma {:induction false} WithoutByLastUse(order: seq<string>, k: string, lastUse: map<string, nat>, tick: nat)
    requires ByLastUse(order, lastUse, tick)
    ensures ByLastUse(Without(order, k), lastUse, tick)
  {
    if order != [] {
      var rest := Without(order[1..], k);
      WithoutByLastUse(order[1..], k, lastUse, tick);
      WithoutMembers(order[1..], k);
      assert ([order[0]] + rest)[1..] == rest;
    }
  }

  lemma {:induction false} WithoutAllByLastUse(order: seq<string>, ks: set<string>, lastUse: map<string, nat>,
                                               tick: nat)
    requires ByLastUse(order, lastUse, tick)
    ensures ByLastUse(WithoutAll(order, ks), lastUse, tick)
  {
    if order != [] {
      var rest := WithoutAll(order[1..], ks);
      WithoutAllByLastUse(order[1..], ks, lastUse, tick);
      WithoutAllMembers(order[1..], ks);
      assert ([order[0]] + rest)[1..] == rest;
    }
  }

  /** A key used now goes behind all others. */
  lemma {:induction false} UsedNowIsLast(order: seq<string>, k: string, lastUse: map<string, nat>, tick: nat)
    requires ByLastUse(order, lastUse, tick) && k !in order
    ensures ByLastUse(order + [k], lastUse[k := tick], tick + 1)
  {
    if order == [] {
      assert order + [k] == [k] && (order + [k])[1..] == [];
      assert ByLastUse([], lastUse[k := tick], tick + 1);
    } else {
      assert order == [order[0]] + order[1..];
      UsedNowIsLast(order[1..], k, lastUse, tick);
      assert (order + [k])[1..] == order[1..] + [k];
    }
  }

  lemma TouchedByLastUse(order: seq<string>, k: string, lastUse: map<string, nat>, tick: nat)
    requires ByLastUse(order, lastUse, tick)
    ensures ByLastUse(Touch(order, k), lastUse[k := tick], tick + 1)
  {
    hide ByLastUse, Without;
    WithoutByLastUse(order, k, lastUse, tick);
    WithoutMembers(order, k);
    UsedNowIsLast(Without(order, k), k, lastUse, tick);
  }

  lemma {:induction false} LaterTick(order: seq<string>, lastUse: map<string, nat>, tick: nat)
    requires ByLastUse(order, lastUse, tick)
    ensures ByLastUse(order, lastUse, tick + 1)
  {
    if order != [] { LaterTick(order[1..], lastUse, tick); }
  }

  lemma DropFirst(order: seq<string>, lastUse: map<string, nat>, tick: nat)
    requires ByLastUse(order, lastUse, tick) && order != []
    ensures ByLastUse(order[1..], lastUse, tick)
  {
  }

  ghost predicate TrackedInv(t: Tracked) {
    SystemInv(t.s) && ByLastUse(t.s.cache.order, t.lastUse, t.tick)
  }

  lemma InsertKeepsOrder(c: Cache, key: string, built: Provider, createdAt: int, now: int, lastUse: map<string, nat>,
                         tick: nat)
    requires Manager.Inv(c) && ByLastUse(c.order, lastUse, tick) && !Fresh(c, key, now)
    ensures ByLastUse(Inserted(c, key, built, createdAt, now).order, lastUse[key := tick], tick + 1)
  {
    if Limited(c) {
      EvictionDropsOldest(c, key);
      if |c.order| >= c.maxSize { DropFirst(c.order, lastUse, tick); }
      hide Evicted, Touch;
      TouchedByLastUse(Evicted(c, key).order, key, lastUse, tick);
    }
  }

  lemma RefreshKeepsOrder(c: Cache, key: string, lastUse: map<string, nat>, tick: nat)
    requires Manager.Inv(c) && ByLastUse(c.order, lastUse, tick)
    ensures ByLastUse(Refreshed(c, key).order, if key in c.providers then lastUse[key := tick] else lastUse, tick + 1)
  {
    LaterTick(c.order, lastUse, tick);
    hide Touch, ByLastUse;
    TouchedByLastUse(c.order, key, lastUse, tick);
    if !Limited(c) { EmptyOrder(lastUse[key := tick], tick + 1); }
  }

  lemma EmptyOrder(lastUse: map<string, nat>, tick: nat)
    ensures ByLastUse([], lastUse, tick)
  {
  }

  lemma DropsKeepOrder(c: Cache, key: string, now: int, lastUse: map<string, nat>, tick: nat)
    requires ByLastUse(c.order, lastUse, tick)
    ensures ByLastUse(Forgotten(c, key).order, lastUse, tick + 1) && ByLastUse(Cleaned(c, now).order, lastUse, tick + 1)
    ensures ByLastUse(Purged(c).order, lastUse, tick + 1) && ByLastUse(c.order, lastUse, tick + 1)
  {
    LaterTick(c.order, lastUse, tick);
    WithoutByLastUse(c.order, key, lastUse, tick + 1);
    WithoutAllByLastUse(c.order, StaleKeys(c, now), lastUse, tick + 1);
    EmptyOrder(lastUse, tick + 1);
    hide Without, WithoutAll, ByLastUse, StaleKeys;
  }

  lemma AnyInsertKeepsOrder(c: Cache, key: string, built: Provider, createdAt: int, now: int,
                            lastUse: map<string, nat>, tick: nat)
    requires Manager.Inv(c) && ByLastUse(c.order, lastUse, tick)
    ensures ByLastUse(Inserted(c, key, built, createdAt, now).order,
                      if Fresh(c, key, now) then lastUse else lastUse[key := tick], tick + 1)
  {
    hide Manager.Inv, ByLastUse, Inserted, Fresh;
    if Fresh(c, key, now) {
      FreshInsert(c, key, built, createdAt, now);
      LaterTick(c.order, lastUse, tick);
    } else {
      InsertKeepsOrder(c, key, built, createdAt, now, lastUse, tick);
    }
  }

  /** How a step changes the order and the last uses. */
  predicate OrderStep(t: Tracked, step: Step, order: seq<string>, uses: map<string, nat>)
    requires Enabled(t.s, step)
  {
    var c, calls := t.s.cache, t.s.calls;
    match step
    case Refresh(id) =>
      var k := calls[id].key;
      order == Refreshed(c, k).order && uses == if k in c.providers then t.lastUse[k := t.tick] else t.lastUse
    case Insert(id, now) =>
      var b := calls[id];
      && order == Inserted(c, b.key, b.provider, b.createdAt, now).order
      && uses == if Fresh(c, b.key, now) then t.lastUse else t.lastUse[b.key := t.tick]
    case Remove(key) => order == Forgotten(c, key).order && uses == t.lastUse
    case Purge => order == Purged(c).order && uses == t.lastUse
    case Cleanup(now) => (order == c.order || order == Cleaned(c, now).order) && uses == t.lastUse
    case _ => order == c.order && uses == t.lastUse
  }

  lemma TrackIsOrderStep(t: Tracked, step: Step)
    requires Enabled(t.s, step)
    ensures OrderStep(t, step, Track(t, step).s.cache.order, Track(t, step).lastUse)
  {
    hide Refreshed, Inserted, Forgotten, Purged, Cleaned, Chosen, Fresh;
  }

  lemma OrderStepKeepsOrder(t: Tracked, step: Step, order: seq<string>, uses: map<string, nat>)
    requires Manager.Inv(t.s.cache) && ByLastUse(t.s.cache.order, t.lastUse, t.tick)
    requires Enabled(t.s, step) && OrderStep(t, step, order, uses)
    ensures ByLastUse(order, uses, t.tick + 1)
  {
    var c, calls := t.s.cache, t.s.calls;
    hide Manager.Inv, ByLastUse, Refreshed, Inserted, Forgotten, Purged, Cleaned, Fresh;
    match step
    case Refresh(id) => RefreshKeepsOrder(c, calls[id].key, t.lastUse, t.tick);
    case Insert(id, now) =>
      var b := calls[id];
      AnyInsertKeepsOrder(c, b.key, b.provider, b.createdAt, now, t.lastUse, t.tick);
    case Remove(key) => DropsKeepOrder(c, key, 0, t.lastUse, t.tick);
    case Cleanup(now) => DropsKeepOrder(c, "", now, t.lastUse, t.tick);
    case _ => DropsKeepOrder(c, "", 0, t.lastUse, t.tick);
  }

  lemma TrackKeeps(t: Tracked, step: Step)
    requires TrackedInv(t) && Enabled(t.s, step)
    ensures TrackedInv(Track(t, step))
  {
    CacheInvOf(t.s);
    hide SystemInv, Manager.Inv, ByLastUse, Next, Enabled, OrderStep, UsedBy;
    StepKeeps(t.s, step);
    TrackIsOrderStep(t, step);
    OrderStepKeepsOrder(t, step, Track(t, step).s.cache.order, Track(t, step).lastUse);
  }

  lemma CacheInvOf(s: System)
    requires SystemInv(s)
    ensures Manager.Inv(s.cache)
  {
  }

  lemma FreshInsert(c: Cache, key: string, built: Provider, createdAt: int, now: int)
    requires Fresh(c, key, now)
    ensures Inserted(c, key, built, createdAt, now) == c
  {
  }

  ghost predicate TrackedRun(t: Tracked, steps: seq<Step>, final: Tracked)
    decreases |steps|
  {
    if steps == [] then final == t
    else Enabled(t.s, steps[0]) && TrackedRun(Track(t, steps[0]), steps[1..], final)
  }

  lemma {:induction false} TrackedRunKeeps(t: Tracked, steps: seq<Step>, final: Tracked)
    requires TrackedInv(t) && TrackedRun(t, steps, final)
    ensures TrackedInv(final)
    decreases |steps|
  {
    hide TrackedInv, Track, Enabled;
    if steps != [] {
      TrackKeeps(t, steps[0]);
      TrackedRunKeeps(Track(t, steps[0]), steps[1..], final);
    }
  }

  /** Main result: under every interleaving, whenever an insertion takes another key out of the cache, that key's last
      hit or insertion lies before the last one of every other cached key. */
  lemma EvictedKeyIsLeastRecentlyUsed(ttl: int, maxSize: int, start: int, steps: seq<Step>, t: Tracked, id: nat,
                                      now: int,
                                      gone: string, other: string)
    requires TrackedRun(Tracked(NewSystem(ttl, maxSize, start), 0, map[]), steps, t) && Enabled(t.s, Step.Insert(id, now))
    requires gone in t.s.cache.providers && gone !in Next(t.s, Step.Insert(id, now)).cache.providers
    requires other in t.s.cache.providers && other != gone
    ensures gone in t.lastUse && other in t.lastUse && t.lastUse[gone] < t.lastUse[other]
  {
    assert TrackedInv(Tracked(NewSystem(ttl, maxSize, start), 0, map[]));
    hide TrackedRun, TrackedInv, Inserted, Fresh;
    TrackedRunKeeps(Tracked(NewSystem(ttl, maxSize, start), 0, map[]), steps, t);
    var b := t.s.calls[id];
    TrackedParts(t);
    hide ByLastUse, Manager.Inv;
    OldestGoes(t.s.cache, b.key, b.provider, b.createdAt, now, t.lastUse, t.tick, gone, other);
  }

  lemma TrackedParts(t: Tracked)
    requires TrackedInv(t)
    ensures Manager.Inv(t.s.cache) && ByLastUse(t.s.cache.order, t.lastUse, t.tick)
  {
  }

  lemma OldestGoes(c: Cache, key: string, built: Provider, createdAt: int, now: int, lastUse: map<string, nat>, tick: nat,
                   gone: string, other: string)
    requires Manager.Inv(c) && ByLastUse(c.order, lastUse, tick) && gone in c.providers && other in c.providers && other != gone
    requires gone !in Inserted(c, key, built, createdAt, now).providers
    ensures gone in lastUse && other in lastUse && lastUse[gone] < lastUse[other]
  {
    hide Inserted, Manager.Inv;
    DroppedIsFirst(c, key, built, createdAt, now, gone, other);
    assert c.order == [gone] + c.order[1..];
  }

  lemma DroppedIsFirst(c: Cache, key: string, built: Provider, createdAt: int, now: int, gone: string, other: string)
    requires Manager.Inv(c) && gone in c.providers && other in c.providers
    requires gone !in Inserted(c, key, built, createdAt, now).providers
    ensures c.order != [] && gone == c.order[0] && other in c.order
  {
    if Limited(c) { EvictionDropsOldest(c, key); }
    hide Evicted, Touch, NoDuplicates;
  }
}
