/** The provider cache: a TTL map whose capacity is enforced by a mirrored LRU order. */
module Manager {
  import opened Basics
  import opened Lru
  import opened Separators

  /** What NewProvider returns; `id` tells two constructions apart. */
  datatype Provider = Provider(id: nat)

  datatype Cached = Cached(provider: Provider, createdAt: int)

  /** `order` is the recency list of the bounded cache, least recently used first; it stays empty when maxSize <= 0.
      `inserted` and `removed` count insertions of absent keys and explicit removals of present ones. */
  datatype Cache = Cache(providers: map<string, Cached>, order: seq<string>, ttl: int, maxSize: int,
                         hits: nat, misses: nat, evictions: nat, inserted: nat, removed: nat)

  predicate Fresh(c: Cache, key: string, now: int) {
    key in c.providers && (c.ttl == 0 || now - c.providers[key].createdAt < c.ttl)
  }

  predicate Limited(c: Cache) {
    c.maxSize > 0
  }

  // ---------------------------------------------------------------- the critical sections

  /** A hit refreshes recency on the order's own lock; the key may be gone by then. */
  function Refreshed(c: Cache, key: string): Cache {
    var counted := c.(hits := c.hits + 1);
    if Limited(c) && key in c.order then counted.(order := Touch(c.order, key)) else counted
  }

  function Missed(c: Cache): Cache {
    c.(misses := c.misses + 1)
  }

  function Dropped(c: Cache, key: string): Cache {
    c.(providers := c.providers - {key}, order := Without(c.order, key))
  }

  /** The eviction loop: drop the least recently used key until there is room or the key to insert was dropped. */
  function Evicted(c: Cache, key: string): Cache
    decreases |c.order|
  {
    if c.order == [] || |c.order| < c.maxSize then c
    else
      var victim := c.order[0];
      var rest := c.(order := c.order[1..],
                     providers := c.providers - {victim},
                     evictions := c.evictions + if victim in c.providers then 1 else 0);
      if victim == key then rest else Evicted(rest, key)
  }

  /** The write-locked part of Get: `built` was constructed at `createdAt`, the recheck reads the clock at `now`. */
  function Inserted(c: Cache, key: string, built: Provider, createdAt: int, now: int): Cache {
    if Fresh(c, key, now) then c
    else
      var room := if Limited(c) then Evicted(c, key) else c;
      room.(providers := room.providers[key := Cached(built, createdAt)],
            order := if Limited(c) then Touch(room.order, key) else room.order,
            inserted := room.inserted + if key in room.providers then 0 else 1)
  }

  /** What Get returns after the write-locked part. */
  function Chosen(c: Cache, key: string, built: Provider, now: int): Provider {
    if Fresh(c, key, now) then c.providers[key].provider else built
  }

  function Forgotten(c: Cache, key: string): Cache {
    Dropped(c, key).(removed := c.removed + if key in c.providers then 1 else 0)
  }

  function Purged(c: Cache): Cache {
    c.(providers := map[], order := [], removed := c.removed + |c.providers|)
  }

  predicate Stale(c: Cache, key: string, now: int) {
    c.ttl != 0 && key in c.providers && c.providers[key].createdAt < now - c.ttl
  }

  function StaleKeys(c: Cache, now: int): set<string> {
    set k | k in c.providers && Stale(c, k, now)
  }

  function WithoutAll(s: seq<string>, ks: set<string>): seq<string> {
    if s == [] then [] else if s[0] in ks then WithoutAll(s[1..], ks) else [s[0]] + WithoutAll(s[1..], ks)
  }

  function WithoutKeys(c: Cache, ks: set<string>): Cache {
    c.(providers := c.providers - ks, order := WithoutAll(c.order, ks), evictions := c.evictions + |ks|)
  }

  function Cleaned(c: Cache, now: int): Cache {
    WithoutKeys(c, StaleKeys(c, now))
  }

  // ---------------------------------------------------------------- the cache in place

  class ProviderCache {
    var providers: map<string, Cached>
    var order: seq<string>
    const ttl: int
    const maxSize: int
    var hits: nat
    var misses: nat
    var evictions: nat
    ghost var inserted: nat
    ghost var removed: nat

    ghost function State(): Cache
      reads this
    {
      Cache(providers, order, ttl, maxSize, hits, misses, evictions, inserted, removed)
    }

    constructor (ttl: int, maxSize: int)
      ensures State() == Cache(map[], [], ttl, maxSize, 0, 0, 0, 0, 0)
    {
      this.ttl, this.maxSize := ttl, maxSize;
      providers, order, hits, misses, evictions, inserted, removed := map[], [], 0, 0, 0, 0, 0;
    }

    /** The read-locked lookup of Get. */
    method Lookup(key: string, now: int) returns (hit: Option<Provider>)
      modifies this`misses
      ensures hit == old(if Fresh(State(), key, now) then Some(providers[key].provider) else None)
      ensures State() == if hit.Some? then old(State()) else old(Missed(State()))
      ensures hit.Some? <==> key in old(providers) && (ttl == 0 || now - old(providers)[key].createdAt < ttl)
    {
      if key in providers && (ttl == 0 || now - providers[key].createdAt < ttl) {
        return Some(providers[key].provider);
      }
      misses := misses + 1;
      hit := None;
    }

    method Refresh(key: string)
      modifies this`order, this`hits
      ensures State() == old(Refreshed(State(), key))
    {
      if maxSize > 0 && key in order {
        order := Touch(order, key);
      }
      hits := hits + 1;
    }

    method Insert(key: string, built: Provider, createdAt: int, now: int) returns (p: Provider)
      modifies this`providers, this`order, this`evictions, this`inserted
      ensures p == old(Chosen(State(), key, built, now))
      ensures State() == old(Inserted(State(), key, built, createdAt, now))
    {
      if key in providers && (ttl == 0 || now - providers[key].createdAt < ttl) {
        return providers[key].provider;
      }
      if maxSize > 0 {
        ghost var before := State();
        var inserting := false;
        while !inserting && order != [] && |order| >= maxSize
          invariant State().(providers := before.providers, order := before.order, evictions := before.evictions) == before
          invariant Evicted(before, key) == if inserting then State() else Evicted(State(), key)
          decreases |order|
        {
          var victim := order[0];
          order := order[1..];
          if victim in providers {
            providers := providers - {victim};
            evictions := evictions + 1;
          } else {
            assert providers - {victim} == providers;
          }
          if victim == key {
            inserting := true;
          }
        }
        order := Touch(order, key);
      }
      if key !in providers {
        inserted := inserted + 1;
      }
      providers := providers[key := Cached(built, createdAt)];
      p := built;
    }

    /** A sequential Get; `fails` makes the construction fail, the clock is read at `t0 <= t1 <= t2`. */
    method Get(key: string, construct: Provider, fails: bool, t0: int, t1: int, t2: int) returns (p: Option<Provider>)
      modifies this
      ensures old(Fresh(State(), key, t0)) ==> p == Some(old(providers[key].provider)) && State() == old(Refreshed(State(), key))
      ensures !old(Fresh(State(), key, t0)) && fails ==> p == None && State() == old(Missed(State()))
      ensures !old(Fresh(State(), key, t0)) && !fails ==>
        && p == Some(old(Chosen(Missed(State()), key, construct, t2)))
        && State() == old(Inserted(Missed(State()), key, construct, t1, t2))
      ensures key in old(providers) && (ttl == 0 || t0 - old(providers)[key].createdAt < ttl) ==>
        p == Some(old(providers)[key].provider) && hits == old(hits) + 1 && misses == old(misses) && providers == old(providers)
      ensures !(key in old(providers) && (ttl == 0 || t0 - old(providers)[key].createdAt < ttl)) ==>
        hits == old(hits) && misses == old(misses) + 1 && (fails ==> p == None && providers == old(providers))
    {
      p := Lookup(key, t0);
      if p.Some? {
        Refresh(key);
        return;
      }
      if fails {
        return None;
      }
      var q := Insert(key, construct, t1, t2);
      p := Some(q);
    }

    method Remove(key: string)
      modifies this`providers, this`order, this`removed
      ensures State() == old(Forgotten(State(), key))
    {
      if key in providers {
        removed := removed + 1;
      }
      providers, order := providers - {key}, Without(order, key);
    }

    method Purge()
      modifies this`providers, this`order, this`removed
      ensures State() == old(Purged(State()))
    {
      removed := removed + |providers|;
      providers, order := map[], [];
    }

    /** Visits the entries in any order and drops those created before the cutoff. */
    method Cleanup(now: int)
      modifies this`providers, this`order, this`evictions
      ensures State() == old(Cleaned(State(), now))
    {
      hide WithoutAll, Without;
      ghost var before := State();
      WithoutNothing(order);
      if ttl == 0 {
        assert StaleKeys(before, now) == {};
        return;
      }
      var cutoff := now - ttl;
      var todo := providers.Keys;
      ghost var gone: set<string> := {};
      while todo != {}
        invariant todo <= before.providers.Keys
        invariant forall k :: k in gone <==> k in StaleKeys(before, now) && k !in todo
        invariant State() == WithoutKeys(before, gone)
        decreases todo
      {
        var k :| k in todo;
        assert k !in gone && k in providers && providers[k] == before.providers[k];
        if providers[k].createdAt < cutoff {
          DropOneMore(before, gone, k);
          DropExpired(k);
          gone := gone + {k};
        }
        todo := todo - {k};
      }
      assert gone == StaleKeys(before, now);
    }

    method DropExpired(k: string)
      modifies this`providers, this`order, this`evictions
      ensures State() == old(var d := State();
                             d.(providers := d.providers - {k}, order := Without(d.order, k), evictions := d.evictions + 1))
    {
      providers, order, evictions := providers - {k}, Without(order, k), evictions + 1;
    }
  }

  lemma {:induction false} WithoutNothing(s: seq<string>)
    ensures WithoutAll(s, {}) == s
  {
    if s != [] { WithoutNothing(s[1..]); }
  }

  lemma {:induction false} WithoutOneMore(s: seq<string>, ks: set<string>, k: string)
    ensures Without(WithoutAll(s, ks), k) == WithoutAll(s, ks + {k})
  {
    if s != [] {
      WithoutOneMore(s[1..], ks, k);
    }
  }

  lemma DropOneMore(c: Cache, ks: set<string>, k: string)
    requires k !in ks
    ensures
      var d := WithoutKeys(c, ks);
      WithoutKeys(c, ks + {k})
      == d.(providers := d.providers - {k}, order := Without(d.order, k), evictions := d.evictions + 1)
  {
    WithoutOneMore(c.order, ks, k);
    assert c.providers - ks - {k} == c.providers - (ks + {k});
  }

  lemma {:induction false} WithoutAllMembers(s: seq<string>, ks: set<string>)
    ensures forall x :: x in WithoutAll(s, ks) <==> x in s && x !in ks
    ensures NoDuplicates(s) ==> NoDuplicates(WithoutAll(s, ks))
  {
    if s != [] {
      WithoutAllMembers(s[1..], ks);
      assert s == [s[0]] + s[1..];
      if NoDuplicates(s) {
        assert s[0] !in s[1..];
      }
    }
  }

  // ---------------------------------------------------------------- the invariant

  /** Order and map hold the same keys, the size limit holds, and every insertion is accounted for. */
  ghost predicate Inv(c: Cache) {
    && (Limited(c) ==> Mirrored(c) && |c.order| <= c.maxSize)
    && (!Limited(c) ==> c.order == [])
    && c.inserted == |c.providers| + c.evictions + c.removed
  }

  ghost predicate Mirrored(c: Cache) {
    NoDuplicates(c.order) && forall k :: k in c.order <==> k in c.providers
  }

  lemma MirroredSize(c: Cache)
    requires Mirrored(c)
    ensures |c.order| == |c.providers|
  {
    DistinctCount(c.order, c.providers.Keys);
    assert |c.providers.Keys| == |c.providers|;
  }

  lemma DropSize(m: map<string, Cached>, key: string)
    ensures |m - {key}| == |m| - if key in m then 1 else 0
  {
    assert (m - {key}).Keys == m.Keys - {key};
    assert |m.Keys| == |m| && |(m - {key}).Keys| == |m - {key}|;
  }

  function WithoutOldest(c: Cache): Cache
    requires c.order != []
  {
    c.(order := c.order[1..], providers := c.providers - {c.order[0]}, evictions := c.evictions + 1)
  }

  lemma DropOldest(c: Cache)
    requires c.order != [] && Mirrored(c)
    ensures Mirrored(WithoutOldest(c)) && |WithoutOldest(c).providers| == |c.providers| - 1 && c.order[0] in c.providers
  {
    var victim := c.order[0];
    assert c.order == [victim] + c.order[1..];
    assert victim in c.order && victim !in c.order[1..];
    DropSize(c.providers, victim);
  }

  /** On a mirrored cache the eviction loop drops at most one key, the least recently used, and stops. */
  lemma EvictionDropsOldest(c: Cache, key: string)
    requires Limited(c) && Inv(c)
    ensures
      var e := Evicted(c, key);
      && Mirrored(e) && |e.order| < e.maxSize
      && e == (if |c.order| < c.maxSize then c else WithoutOldest(c))
      && e.inserted == |e.providers| + e.evictions + e.removed
  {
    if |c.order| >= c.maxSize {
      DropOldest(c);
      var rest := WithoutOldest(c);
      assert Evicted(rest, key) == rest;
    }
    hide Evicted;
    MirroredSize(Evicted(c, key));
  }

  lemma AddSize(m: map<string, Cached>, key: string, entry: Cached)
    ensures |m[key := entry]| == |m| + if key in m then 0 else 1
  {
    assert m[key := entry].Keys == m.Keys + {key};
    assert |m[key := entry].Keys| == |m[key := entry]| && |m.Keys| == |m|;
  }

  /** Adding one key where there is room. */
  lemma AddKeepsInv(room: Cache, key: string, entry: Cached)
    requires Inv(room) && (Limited(room) ==> |room.order| < room.maxSize)
    ensures Inv(room.(providers := room.providers[key := entry],
                      order := if Limited(room) then Touch(room.order, key) else room.order,
                      inserted := room.inserted + if key in room.providers then 0 else 1))
  {
    hide Without;
    WithoutMembers(room.order, key);
    AddSize(room.providers, key, entry);
  }

  lemma InsertKeepsInv(c: Cache, key: string, built: Provider, createdAt: int, now: int)
    requires Inv(c)
    ensures Inv(Inserted(c, key, built, createdAt, now))
  {
    hide Evicted, Touch, NoDuplicates;
    if !Fresh(c, key, now) {
      if Limited(c) {
        EvictionDropsOldest(c, key);
      }
      AddKeepsInv(if Limited(c) then Evicted(c, key) else c, key, Cached(built, createdAt));
    }
  }

  lemma RefreshKeepsInv(c: Cache, key: string)
    requires Inv(c)
    ensures Inv(Refreshed(c, key)) && Inv(Missed(c))
  {
    hide Without;
    WithoutMembers(c.order, key);
  }

  lemma ForgetKeepsInv(c: Cache, key: string)
    requires Inv(c)
    ensures Inv(Forgotten(c, key))
  {
    hide Without, NoDuplicates;
    WithoutMembers(c.order, key);
    DropSize(c.providers, key);
  }

  lemma PurgeKeepsInv(c: Cache)
    requires Inv(c)
    ensures Inv(Purged(c))
  {
  }

  lemma DropSizes(m: map<string, Cached>, ks: set<string>)
    requires ks <= m.Keys
    ensures |m - ks| == |m| - |ks|
  {
    assert (m - ks).Keys == m.Keys - ks;
    assert |m.Keys| == |m| && |(m - ks).Keys| == |m - ks|;
  }

  lemma CleanupKeepsInv(c: Cache, now: int)
    requires Inv(c)
    ensures Inv(Cleaned(c, now))
  {
    var ks := StaleKeys(c, now);
    assert ks <= c.providers.Keys;
    hide StaleKeys, WithoutAll;
    WithoutAllMembers(c.order, ks);
    DropSizes(c.providers, ks);
    if Limited(c) {
      MirroredSize(c);
      assert Mirrored(Cleaned(c, now));
      MirroredSize(Cleaned(c, now));
    }
  }

  lemma OthersKeepInv(c: Cache, key: string, now: int)
    requires Inv(c)
    ensures Inv(Refreshed(c, key)) && Inv(Missed(c)) && Inv(Forgotten(c, key)) && Inv(Purged(c)) && Inv(Cleaned(c, now))
  {
    hide Inv;
    RefreshKeepsInv(c, key);
    ForgetKeepsInv(c, key);
    PurgeKeepsInv(c);
    CleanupKeepsInv(c, now);
  }

  // ---------------------------------------------------------------- the cache key

  datatype Config = Config(platform: string, baseURL: string, tokenHash: string, skipTLS: bool)

  function BoolText(b: bool): string {
    if b then "true" else "false"
  }

  function BuildKey(cfg: Config): string {
    cfg.platform + ":" + cfg.baseURL + ":" + cfg.tokenHash + ":" + BoolText(cfg.skipTLS)
  }

  /** Main result: although base URLs contain the separator, keys tell configurations apart as long as platform names
      and token hashes do not contain it. */
  lemma KeysAreDistinct(a: Config, b: Config)
    requires ':' !in a.platform && ':' !in b.platform && ':' !in a.tokenHash && ':' !in b.tokenHash
    ensures BuildKey(a) == BuildKey(b) <==> a == b
  {
    if BuildKey(a) == BuildKey(b) {
      var ua, ub := a.baseURL + [':'] + a.tokenHash, b.baseURL + [':'] + b.tokenHash;
      assert BuildKey(a) == a.platform + [':'] + (ua + [':'] + BoolText(a.skipTLS));
      assert BuildKey(b) == b.platform + [':'] + (ub + [':'] + BoolText(b.skipTLS));
      FirstPartUnique(':', a.platform, ua + [':'] + BoolText(a.skipTLS), b.platform, ub + [':'] + BoolText(b.skipTLS));
      LastPartUnique(':', ua, BoolText(a.skipTLS), ub, BoolText(b.skipTLS));
      LastPartUnique(':', a.baseURL, a.tokenHash, b.baseURL, b.tokenHash);
    }
  }

  /** A custom hasher that returns the separator can make two configurations share an entry. */
  lemma HashWithSeparatorCollides()
    ensures exists a, b :: a != b && BuildKey(a) == BuildKey(b)
  {
    var a, b := Config("p", "u", "h:x", false), Config("p", "u:h", "x", false);
    assert BuildKey(a) == "p:u:h:x:false" == BuildKey(b);
  }
}
