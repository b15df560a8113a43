/** Concurrent callers of the provider cache: one step for each critical section, interleaved freely. */
module ManagerRuns {
  import opened Basics
  import opened Manager

  /** Where one Get stands. A hit still has to refresh recency; a built provider still has to be inserted. */
  datatype Call =
    | HitPending(key: string, provider: Provider, time: int)
    | Building(key: string)
    | Built(key: string, provider: Provider, createdAt: int)
    | Returned(key: string, provider: Provider)
    | Failed(key: string)

  /** `made` lists every construction with its key and time, `hits` every lookup that hit, with its time. */
  datatype System = System(cache: Cache, clock: int, calls: map<nat, Call>,
                           made: set<(string, Provider, int)>, hits: set<(string, Provider, int)>)

  datatype Step =
    | Lookup(id: nat, key: string, now: int)
    | Refresh(id: nat)
    | Construct(id: nat, provider: Provider, now: int)
    | ConstructFails(id: nat)
    | Insert(id: nat, now: int)
    | Remove(key: string)
    | Purge
    | Cleanup(now: int)

  /** The clock never runs backwards, and every construction makes a new provider. */
  predicate Enabled(s: System, step: Step) {
    match step
    case Lookup(id, _, now) => id !in s.calls && s.clock <= now
    case Refresh(id) => id in s.calls && s.calls[id].HitPending?
    case Construct(id, p, now) => id in s.calls && s.calls[id].Building? && s.clock <= now
                                && forall m :: m in s.made ==> m.1 != p
    case ConstructFails(id) => id in s.calls && s.calls[id].Building?
    case Insert(id, now) => id in s.calls && s.calls[id].Built? && s.clock <= now
    case Cleanup(now) => s.clock <= now
    case _ => true
  }

  function Next(s: System, step: Step): System
    requires Enabled(s, step)
  {
    match step
    case Lookup(id, key, now) =>
      if Fresh(s.cache, key, now) then
        var p := s.cache.providers[key].provider;
        s.(clock := now, calls := s.calls[id := HitPending(key, p, now)], hits := s.hits + {(key, p, now)})
      else s.(clock := now, cache := Missed(s.cache), calls := s.calls[id := Building(key)])
    case Refresh(id) =>
      var key := s.calls[id].key;
      s.(cache := Refreshed(s.cache, key), calls := s.calls[id := Returned(key, s.calls[id].provider)])
    case Construct(id, p, now) =>
      var key := s.calls[id].key;
      s.(clock := now, calls := s.calls[id := Built(key, p, now)], made := s.made + {(key, p, now)})
    case ConstructFails(id) => s.(calls := s.calls[id := Failed(s.calls[id].key)])
    case Insert(id, now) =>
      var b := s.calls[id];
      s.(clock := now, cache := Inserted(s.cache, b.key, b.provider, b.createdAt, now),
         calls := s.calls[id := Returned(b.key, Chosen(s.cache, b.key, b.provider, now))])
    case Remove(key) => s.(cache := Forgotten(s.cache, key))
    case Purge => s.(cache := Purged(s.cache))
    case Cleanup(now) => s.(clock := now, cache := if s.cache.ttl == 0 then s.cache else Cleaned(s.cache, now))
  }

  // ---------------------------------------------------------------- what every step keeps

  /** The provider was made for this key and was within the TTL at the given time. */
  ghost predicate LiveAt(s: System, key: string, p: Provider, time: int) {
    exists t :: (key, p, t) in s.made && t <= time && (s.cache.ttl == 0 || time - t < s.cache.ttl)
  }

  ghost predicate MadeFor(s: System, key: string, p: Provider) {
    exists t :: (key, p, t) in s.made
  }

  ghost predicate SystemInv(s: System) {
    && Manager.Inv(s.cache)
    && (forall k :: k in s.cache.providers ==> (k, s.cache.providers[k].provider, s.cache.providers[k].createdAt) in s.made)
    && (forall m :: m in s.made ==> m.2 <= s.clock)
    && (forall h :: h in s.hits ==> LiveAt(s, h.0, h.1, h.2))
    && (forall id :: id in s.calls && s.calls[id].Built? ==>
          (s.calls[id].key, s.calls[id].provider, s.calls[id].createdAt) in s.made)
    && (forall id :: id in s.calls && (s.calls[id].HitPending? || s.calls[id].Returned?) ==>
          MadeFor(s, s.calls[id].key, s.calls[id].provider))
  }

  /** A change of cache and clock that leaves constructions, hits and calls alone. */
  lemma CacheStepKeeps(s: System, s': System)
    requires SystemInv(s) && Manager.Inv(s'.cache) && s'.cache.ttl == s.cache.ttl && s.clock <= s'.clock
    requires s'.calls == s.calls && s'.made == s.made && s'.hits == s.hits
    requires forall k :: k in s'.cache.providers ==> k in s.cache.providers && s'.cache.providers[k] == s.cache.providers[k]
    ensures SystemInv(s')
  {
    forall h | h in s'.hits ensures LiveAt(s', h.0, h.1, h.2) {
      assert LiveAt(s, h.0, h.1, h.2);
    }
    forall id | id in s'.calls && (s'.calls[id].HitPending? || s'.calls[id].Returned?)
      ensures MadeFor(s', s'.calls[id].key, s'.calls[id].provider)
    {
      assert MadeFor(s, s.calls[id].key, s.calls[id].provider);
    }
  }

  lemma LookupKeeps(s: System, id: nat, key: string, now: int)
    requires SystemInv(s) && Enabled(s, Lookup(id, key, now))
    ensures SystemInv(Next(s, Lookup(id, key, now)))
  {
    hide Manager.Inv, Inserted, Cleaned, Refreshed, Forgotten, Purged;
    var s' := Next(s, Lookup(id, key, now));
    OthersKeepInv(s.cache, key, now);
    forall h | h in s'.hits ensures LiveAt(s', h.0, h.1, h.2) {
      if h in s.hits {
        assert LiveAt(s, h.0, h.1, h.2);
      } else {
        assert (key, s.cache.providers[key].provider, s.cache.providers[key].createdAt) in s'.made;
      }
    }
    forall i | i in s'.calls && (s'.calls[i].HitPending? || s'.calls[i].Returned?)
      ensures MadeFor(s', s'.calls[i].key, s'.calls[i].provider)
    {
      if i != id {
        assert MadeFor(s, s.calls[i].key, s.calls[i].provider);
      } else {
        assert (key, s.cache.providers[key].provider, s.cache.providers[key].createdAt) in s'.made;
      }
    }
  }

  lemma CallMoves(s: System, s': System, id: nat)
    requires SystemInv(s) && Manager.Inv(s'.cache) && s'.cache.ttl == s.cache.ttl && s.clock <= s'.clock
    requires id in s.calls && id in s'.calls && s'.calls == s.calls[id := s'.calls[id]]
    requires s'.hits == s.hits && s.made <= s'.made && (forall m :: m in s'.made ==> m.2 <= s'.clock)
    requires forall k :: k in s'.cache.providers ==>
      (k, s'.cache.providers[k].provider, s'.cache.providers[k].createdAt) in s'.made
    requires match s'.calls[id]
             case Built(key, p, t) => (key, p, t) in s'.made
             case HitPending(_, _, _) => false
             case Returned(key, p) => MadeFor(s', key, p)
             case _ => true
    ensures SystemInv(s')
  {
    forall h | h in s'.hits ensures LiveAt(s', h.0, h.1, h.2) {
      assert LiveAt(s, h.0, h.1, h.2);
      var t :| (h.0, h.1, t) in s.made && t <= h.2 && (s.cache.ttl == 0 || h.2 - t < s.cache.ttl);
      assert (h.0, h.1, t) in s'.made;
    }
    forall i | i in s'.calls && (s'.calls[i].HitPending? || s'.calls[i].Returned?)
      ensures MadeFor(s', s'.calls[i].key, s'.calls[i].provider)
    {
      if i != id {
        assert s'.calls[i] == s.calls[i];
        var t :| (s.calls[i].key, s.calls[i].provider, t) in s.made;
        assert (s.calls[i].key, s.calls[i].provider, t) in s'.made;
      }
    }
    forall i | i in s'.calls && s'.calls[i].Built?
      ensures (s'.calls[i].key, s'.calls[i].provider, s'.calls[i].createdAt) in s'.made
    {
      if i != id {
        assert s'.calls[i] == s.calls[i];
      }
    }
  }

  lemma InsertKeepsEntries(c: Cache, key: string, built: Provider, createdAt: int, now: int)
    requires Manager.Inv(c)
    ensures
      var c' := Inserted(c, key, built, createdAt, now);
      c'.ttl == c.ttl && forall k :: k in c'.providers ==>
        (k in c.providers && c'.providers[k] == c.providers[k]) || (k == key && c'.providers[k] == Cached(built, createdAt))
  {
    if Limited(c) {
      EvictionDropsOldest(c, key);
    }
  }

  lemma InsertStepKeeps(s: System, id: nat, now: int)
    requires SystemInv(s) && Enabled(s, Insert(id, now))
    ensures SystemInv(Next(s, Insert(id, now)))
  {
    hide Inserted, Manager.Inv;
    var b := s.calls[id];
    var s' := Next(s, Insert(id, now));
    InsertKeepsInv(s.cache, b.key, b.provider, b.createdAt, now);
    InsertKeepsEntries(s.cache, b.key, b.provider, b.createdAt, now);
    assert (b.key, b.provider, b.createdAt) in s'.made;
    if Fresh(s.cache, b.key, now) {
      assert (b.key, s.cache.providers[b.key].provider, s.cache.providers[b.key].createdAt) in s'.made;
    }
    assert MadeFor(s', b.key, s'.calls[id].provider);
    CallMoves(s, s', id);
  }

  lemma StepKeeps(s: System, step: Step)
    requires SystemInv(s) && Enabled(s, step)
    ensures SystemInv(Next(s, step))
  {
    hide Inserted, Manager.Inv, SystemInv, MadeFor, LiveAt;
    match step
    case Lookup(id, key, now) => LookupKeeps(s, id, key, now);
    case Insert(id, now) => InsertStepKeeps(s, id, now);
    case Refresh(id) => RefreshKeeps(s, id);
    case Construct(id, p, now) => ConstructKeeps(s, id, p, now);
    case ConstructFails(id) => ConstructFailsKeeps(s, id);
    case Remove(key) => DropsKeep(s, step, key, s.clock);
    case Purge => DropsKeep(s, step, "", s.clock);
    case Cleanup(now) => DropsKeep(s, step, "", now);
  }

  lemma RefreshKeeps(s: System, id: nat)
    requires SystemInv(s) && Enabled(s, Refresh(id))
    ensures SystemInv(Next(s, Refresh(id)))
  {
    OthersKeepInv(s.cache, s.calls[id].key, s.clock);
    var s' := Next(s, Refresh(id));
    var t :| (s.calls[id].key, s.calls[id].provider, t) in s.made;
    assert (s.calls[id].key, s.calls[id].provider, t) in s'.made;
    CallMoves(s, s', id);
  }

  lemma ConstructKeeps(s: System, id: nat, p: Provider, now: int)
    requires SystemInv(s) && Enabled(s, Construct(id, p, now))
    ensures SystemInv(Next(s, Construct(id, p, now)))
  {
    CallMoves(s, Next(s, Construct(id, p, now)), id);
  }

  lemma ConstructFailsKeeps(s: System, id: nat)
    requires SystemInv(s) && Enabled(s, ConstructFails(id))
    ensures SystemInv(Next(s, ConstructFails(id)))
  {
    CallMoves(s, Next(s, ConstructFails(id)), id);
  }

  lemma DropsOnly(s: System, step: Step, key: string, now: int)
    requires Manager.Inv(s.cache) && Enabled(s, step) && (step == Remove(key) || step == Purge || step == Cleanup(now))
    ensures
      var s' := Next(s, step);
      && s'.cache.ttl == s.cache.ttl && s.clock <= s'.clock && s'.calls == s.calls && s'.made == s.made && s'.hits == s.hits
      && Manager.Inv(s'.cache)
      && forall k :: k in s'.cache.providers ==> k in s.cache.providers && s'.cache.providers[k] == s.cache.providers[k]
  {
    hide Manager.Inv, WithoutAll;
    OthersKeepInv(s.cache, key, now);
  }

  lemma DropsKeep(s: System, step: Step, key: string, now: int)
    requires SystemInv(s) && Enabled(s, step)
    requires step == Remove(key) || step == Purge || step == Cleanup(now)
    ensures SystemInv(Next(s, step))
  {
    DropsOnly(s, step, key, now);
    var s' := Next(s, step);
    hide Next, Enabled, Manager.Inv;
    CacheStepKeeps(s, s');
  }

  // ---------------------------------------------------------------- every interleaving

  ghost predicate Runs(s: System, steps: seq<Step>, final: System)
    decreases |steps|
  {
    if steps == [] then final == s
    else Enabled(s, steps[0]) && Runs(Next(s, steps[0]), steps[1..], final)
  }

  lemma {:induction false} RunKeeps(s: System, steps: seq<Step>, final: System)
    requires SystemInv(s) && Runs(s, steps, final)
    ensures SystemInv(final) && final.cache.ttl == s.cache.ttl && final.cache.maxSize == s.cache.maxSize
    decreases |steps|
  {
    if steps != [] {
      StepKeeps(s, steps[0]);
      SettingsStay(s, steps[0]);
      RunKeeps(Next(s, steps[0]), steps[1..], final);
    }
  }

  lemma SettingsStay(s: System, step: Step)
    requires SystemInv(s) && Enabled(s, step)
    ensures Next(s, step).cache.ttl == s.cache.ttl && Next(s, step).cache.maxSize == s.cache.maxSize
  {
    if step.Insert? && Limited(s.cache) {
      EvictionDropsOldest(s.cache, s.calls[step.id].key);
    }
  }

  function NewSystem(ttl: int, maxSize: int, start: int): System {
    System(Cache(map[], [], ttl, maxSize, 0, 0, 0, 0, 0), start, map[], {}, {})
  }

  /** Main result: under every interleaving of Get, hit refresh, Remove, Purge and Cleanup, the LRU order and the map
      hold the same keys, the size stays within the limit, insertions of absent keys equal size plus evictions plus
      explicit removals, every hit was within the TTL when it hit, and every returned provider was made for its key. */
  lemma CacheStaysConsistent(ttl: int, maxSize: int, start: int, steps: seq<Step>, final: System)
    requires Runs(NewSystem(ttl, maxSize, start), steps, final)
    ensures maxSize > 0 ==>
      |final.cache.providers| <= maxSize && forall k :: k in final.cache.order <==> k in final.cache.providers
    ensures final.cache.inserted == |final.cache.providers| + final.cache.evictions + final.cache.removed
    ensures final.cache.ttl == ttl && forall h :: h in final.hits ==> LiveAt(final, h.0, h.1, h.2)
    ensures forall id :: id in final.calls && final.calls[id].Returned? ==>
      MadeFor(final, final.calls[id].key, final.calls[id].provider)
  {
    RunKeeps(NewSystem(ttl, maxSize, start), steps, final);
    if maxSize > 0 {
      MirroredSize(final.cache);
    }
  }

  /** Corollary: a Cleanup drops exactly the entries older than the TTL, so never one that a lookup at that moment
      would hit. */
  lemma CleanupRespectsTTL(c: Cache, now: int, key: string)
    requires Manager.Inv(c) && c.ttl != 0
    ensures key in Cleaned(c, now).providers <==> key in c.providers && now - c.providers[key].createdAt <= c.ttl
    ensures Fresh(c, key, now) ==> Fresh(Cleaned(c, now), key, now) && Cleaned(c, now).providers[key] == c.providers[key]
  {
  }

  /** Eviction for room takes the least recently used key and no other, and at most one. */
  lemma InsertEvictsOnlyTheOldest(c: Cache, key: string, built: Provider, createdAt: int, now: int, other: string)
    requires Manager.Inv(c) && !Fresh(c, key, now) && other != key && other in c.providers
    ensures other in Inserted(c, key, built, createdAt, now).providers
            <==> !(Limited(c) && |c.order| == c.maxSize && c.order[0] == other)
  {
    if Limited(c) {
      EvictionDropsOldest(c, key);
    }
  }
}
