/** When the provider cache hits, and who shares a provider: in terms of keys and times. */
module ManagerHits {
  import opened Basics
  import opened Manager
  import opened ManagerRuns

  /** The entry under a key is within its time to live; a TTL of 0 never ends. */
  predicate Alive(s: System, key: string, now: int) {
    key in s.cache.providers && (s.cache.ttl == 0 || now - s.cache.providers[key].createdAt < s.cache.ttl)
  }

  /** Main result: in every system a lookup hits exactly when there is an entry under the key within its time to live.
      A hit hands out the cached provider and counts no miss; a miss counts one and leads to a construction. */
  lemma LookupHitsIff(s: System, id: nat, key: string, now: int)
    requires Enabled(s, Step.Lookup(id, key, now))
    ensures
      var s' := Next(s, Step.Lookup(id, key, now));
      && s'.cache.providers == s.cache.providers
      && if key in s.cache.providers && (s.cache.ttl == 0 || now - s.cache.providers[key].createdAt < s.cache.ttl) then
           s'.calls[id] == HitPending(key, s.cache.providers[key].provider, now) && s'.cache.misses == s.cache.misses
         else s'.calls[id] == Building(key) && s'.cache.misses == s.cache.misses + 1
  {
  }

  /** A step that cannot take the entry under the key away: no Remove of it, no Purge, no Cleanup, and no insertion of
      another key into a full cache. */
  predicate Spares(s: System, step: Step, key: string) {
    match step
    case Remove(k) => k != key
    case Purge => false
    case Cleanup(_) => false
    case Insert(id, _) => id in s.calls && (s.calls[id].key == key || !Limited(s.cache) || |s.cache.order| < s.cache.maxSize)
    case _ => true
  }

  /** Such a step keeps the very entry while it is alive. */
  lemma SparedEntryStays(s: System, step: Step, key: string)
    requires SystemInv(s) && Enabled(s, step) && Spares(s, step, key) && Alive(s, key, Next(s, step).clock)
    ensures
      var s' := Next(s, step);
      key in s'.cache.providers && s'.cache.providers[key] == s.cache.providers[key] && s'.cache.ttl == s.cache.ttl
  {
    hide SystemInv, WithoutAll, StaleKeys;
    if step.Insert? && Limited(s.cache) {
      hide Evicted;
      assert Manager.Inv(s.cache) by { InvOf(s); }
      EvictionDropsOldest(s.cache, s.calls[step.id].key);
    }
  }

  lemma InvOf(s: System)
    requires SystemInv(s)
    ensures Manager.Inv(s.cache)
  {
  }

  lemma ClockNeverGoesBack(s: System, step: Step)
    requires SystemInv(s) && Enabled(s, step)
    ensures s.clock <= Next(s, step).clock
  {
  }

  /** A run of steps that spare the key. */
  ghost predicate SparingRun(s: System, steps: seq<Step>, final: System, key: string)
    decreases |steps|
  {
    if steps == [] then final == s
    else Enabled(s, steps[0]) && Spares(s, steps[0], key) && SparingRun(Next(s, steps[0]), steps[1..], final, key)
  }

  lemma {:induction false} SparedEntryStaysInRun(s: System, steps: seq<Step>, final: System, key: string)
    requires SystemInv(s) && SparingRun(s, steps, final, key) && Alive(s, key, final.clock)
    ensures SystemInv(final) && s.clock <= final.clock
    ensures key in final.cache.providers && final.cache.providers[key] == s.cache.providers[key] && final.cache.ttl == s.cache.ttl
    decreases |steps|
  {
    hide SystemInv, Next, Spares, Enabled;
    if steps != [] {
      var s' := Next(s, steps[0]);
      StepKeeps(s, steps[0]);
      ClockInRun(s', steps[1..], final, key);
      ClockNeverGoesBack(s, steps[0]);
      SparedEntryStays(s, steps[0], key);
      SparedEntryStaysInRun(s', steps[1..], final, key);
    }
  }

  lemma {:induction false} ClockInRun(s: System, steps: seq<Step>, final: System, key: string)
    requires SystemInv(s) && SparingRun(s, steps, final, key)
    ensures s.clock <= final.clock
    decreases |steps|
  {
    hide SystemInv, Next, Spares, Enabled;
    if steps != [] {
      StepKeeps(s, steps[0]);
      ClockNeverGoesBack(s, steps[0]);
      ClockInRun(Next(s, steps[0]), steps[1..], final, key);
    }
  }

  /** After an insertion the provider that was returned is the one under the key. */
  lemma InsertedIsCached(s: System, id: nat, now: int)
    requires SystemInv(s) && Enabled(s, Step.Insert(id, now))
    ensures
      var key, s' := s.calls[id].key, Next(s, Step.Insert(id, now));
      && s'.calls[id].Returned? && key in s'.cache.providers
      && s'.calls[id] == Returned(key, s'.cache.providers[key].provider)
      && s'.made == s.made
      && (if Alive(s, key, now) then s'.cache.providers[key] == s.cache.providers[key]
          else s'.cache.providers[key] == Cached(s.calls[id].provider, s.calls[id].createdAt))
  {
  }

  /** Main result: two Gets of one key share one construction. After the first has inserted, any steps may follow that
      spare the key; a second Get within the time to live hits, returns the first one's provider and constructs
      nothing. */
  lemma SecondGetShares(s: System, first: nat, t: int, steps: seq<Step>, mid: System, second: nat, key: string,
                        now: int)
    requires SystemInv(s) && Enabled(s, Step.Insert(first, t)) && s.calls[first].key == key
    requires SparingRun(Next(s, Step.Insert(first, t)), steps, mid, key)
    requires Enabled(mid, Step.Lookup(second, key, now)) && Alive(Next(s, Step.Insert(first, t)), key, now)
    ensures
      var p := Next(s, Step.Insert(first, t)).calls[first].provider;
      var hit := Next(mid, Step.Lookup(second, key, now));
      && hit.calls[second] == HitPending(key, p, now)
      && Enabled(hit, Step.Refresh(second))
      && Next(hit, Step.Refresh(second)).calls[second] == Returned(key, p)
      && Next(hit, Step.Refresh(second)).made == mid.made && Next(hit, Step.Refresh(second)).cache.misses == mid.cache.misses
  {
    var s1 := Next(s, Step.Insert(first, t));
    StepKeeps(s, Step.Insert(first, t));
    InsertedIsCached(s, first, t);
    ClockInRun(s1, steps, mid, key);
    assert mid.clock <= now;
    hide SystemInv, SparingRun;
    SparedEntryStaysInRun(s1, steps, mid, key);
    LookupHitsIff(mid, second, key, now);
  }

  /** Main result: of two racing Gets that both missed and constructed, the one that inserts second returns the first
      one's provider, and leaves it in the cache, while that is within its time to live. */
  lemma RacingGetShares(s: System, first: nat, t: int, steps: seq<Step>, mid: System, second: nat, key: string,
                        now: int)
    requires SystemInv(s) && Enabled(s, Step.Insert(first, t)) && s.calls[first].key == key
    requires SparingRun(Next(s, Step.Insert(first, t)), steps, mid, key)
    requires Enabled(mid, Step.Insert(second, now)) && mid.calls[second].key == key
    requires Alive(Next(s, Step.Insert(first, t)), key, now)
    ensures
      var p := Next(s, Step.Insert(first, t)).calls[first].provider;
      var s' := Next(mid, Step.Insert(second, now));
      s'.calls[second] == Returned(key, p) && key in s'.cache.providers && s'.cache.providers[key].provider == p
  {
    var s1 := Next(s, Step.Insert(first, t));
    StepKeeps(s, Step.Insert(first, t));
    InsertedIsCached(s, first, t);
    ClockInRun(s1, steps, mid, key);
    SparedEntryStaysInRun(s1, steps, mid, key);
    InsertedIsCached(mid, second, now);
  }

  /** Only a construction makes a provider, and it makes one. */
  lemma ConstructionsAreCounted(s: System, step: Step)
    requires SystemInv(s) && Enabled(s, step)
    ensures Next(s, step).made == s.made
            || (step.Construct? && |Next(s, step).made| == |s.made| + 1 && s.calls[step.id].Building?)
  {
  }
}
