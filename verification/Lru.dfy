/** What the caches rely on in the LRU library: a bounded map with a recency order. */
module Lru {
  import opened Basics

  /** `order` lists the keys, least recently used first. */
  datatype Lru<V> = Lru(order: seq<string>, entries: map<string, V>, capacity: nat) {
    ghost predicate Valid() {
      && capacity > 0 && |order| <= capacity
      && NoDuplicates(order)
      && forall k :: k in order <==> k in entries
    }
  }

  function Without(s: seq<string>, k: string): seq<string> {
    if s == [] then [] else if s[0] == k then Without(s[1..], k) else [s[0]] + Without(s[1..], k)
  }

  function Touch(s: seq<string>, k: string): seq<string> {
    Without(s, k) + [k]
  }

  /** Get: a hit becomes the most recently used key. */
  function Got<V>(c: Lru<V>, k: string): Lru<V> {
    if k in c.entries then c.(order := Touch(c.order, k)) else c
  }

  function Removed<V>(c: Lru<V>, k: string): Lru<V> {
    c.(order := Without(c.order, k), entries := c.entries - {k})
  }

  function Added<V>(c: Lru<V>, k: string, v: V): Lru<V>
    requires c.Valid()
  {
    var room := if k !in c.entries && |c.order| == c.capacity then Removed(c, c.order[0]) else c;
    room.(order := Touch(room.order, k), entries := room.entries[k := v])
  }

  lemma {:induction false} WithoutMembers(s: seq<string>, k: string)
    ensures forall x :: x in Without(s, k) <==> x in s && x != k
    ensures |Without(s, k)| <= |s| && (k in s ==> |Without(s, k)| < |s|)
    ensures k !in s ==> Without(s, k) == s
    ensures NoDuplicates(s) ==> NoDuplicates(Without(s, k)) && (k in s ==> |Without(s, k)| == |s| - 1)
  {
    if s != [] {
      WithoutMembers(s[1..], k);
      assert s == [s[0]] + s[1..];
      if NoDuplicates(s) {
        assert s[0] !in s[1..];
      }
    }
  }

  lemma OperationsKeepValid<V>(c: Lru<V>, k: string, v: V)
    requires c.Valid()
    ensures Got(c, k).Valid() && Got(c, k).entries == c.entries
    ensures Removed(c, k).Valid() && Removed(c, k).entries == c.entries - {k}
    ensures Added(c, k, v).Valid() && k in Added(c, k, v).entries && Added(c, k, v).entries[k] == v
    ensures forall x :: x in Added(c, k, v).entries && x != k ==> x in c.entries && Added(c, k, v).entries[x] == c.entries[x]
  {
    WithoutMembers(c.order, k);
    if k !in c.entries && |c.order| == c.capacity {
      WithoutMembers(c.order, c.order[0]);
      WithoutMembers(Removed(c, c.order[0]).order, k);
    }
  }

  /** An addition drops another entry only when the cache is full and the key is new, and then the least recently used
      one; the key added and a key looked up become the most recent. */
  lemma AddDropsOnlyTheOldest<V>(c: Lru<V>, k: string, v: V, x: string)
    requires c.Valid() && x in c.entries && x != k
    ensures x !in Added(c, k, v).entries <==> k !in c.entries && |c.order| == c.capacity && x == c.order[0]
    ensures Added(c, k, v).order[|Added(c, k, v).order| - 1] == k
    ensures Got(c, x).order == Without(c.order, x) + [x]
  {
  }

  lemma {:induction false} DistinctCount(s: seq<string>, keys: set<string>)
    requires NoDuplicates(s) && forall k :: k in s <==> k in keys
    ensures |s| == |keys|
    decreases |s|
  {
    if s != [] {
      assert s == [s[0]] + s[1..];
      assert s[0] !in s[1..];
      DistinctCount(s[1..], keys - {s[0]});
    }
  }

  /** The recency order has one place for each entry. */
  lemma OrderCounts<V>(c: Lru<V>)
    requires c.Valid()
    ensures |c.order| == |c.entries|
  {
    DistinctCount(c.order, c.entries.Keys);
    assert |c.entries.Keys| == |c.entries|;
  }
}
