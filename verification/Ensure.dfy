/** Desired-state convergence of webhooks and deploy keys on a platform that can only list, add and delete. */
module Ensure {
  import opened Basics

  // ---------------------------------------------------------------- sequences

  /** The elements that satisfy a predicate, in order. */
  function Keep<T>(s: seq<T>, p: T -> bool): seq<T> {
    if s == [] then []
    else if p(s[0]) then [s[0]] + Keep(s[1..], p)
    else Keep(s[1..], p)
  }

  function InsertAt<T>(s: seq<T>, i: nat, x: T): seq<T>
    requires i <= |s|
  {
    s[..i] + [x] + s[i..]
  }

  function RemoveAt<T>(s: seq<T>, i: nat): seq<T>
    requires i < |s|
  {
    s[..i] + s[i + 1..]
  }

  lemma {:induction false} KeepAppend<T>(a: seq<T>, b: seq<T>, p: T -> bool)
    ensures Keep(a + b, p) == Keep(a, p) + Keep(b, p)
  {
    if a == [] {
      assert a + b == b;
    } else {
      assert (a + b)[1..] == a[1..] + b;
      KeepAppend(a[1..], b, p);
    }
  }

  lemma {:induction false} KeepMembers<T>(s: seq<T>, p: T -> bool)
    ensures forall x :: x in Keep(s, p) <==> x in s && p(x)
  {
    if s != [] {
      KeepMembers(s[1..], p);
      assert s == [s[0]] + s[1..];
    }
  }

  lemma KeepOne<T>(x: T, p: T -> bool)
    ensures Keep([x], p) == if p(x) then [x] else []
  {
    assert [x][1..] == [];
  }

  /** Inserting an element that is not kept changes nothing; one that is kept is alone if nothing else was. */
  lemma {:induction false} KeepInsert<T>(s: seq<T>, i: nat, x: T, p: T -> bool)
    requires i <= |s|
    ensures !p(x) ==> Keep(InsertAt(s, i, x), p) == Keep(s, p)
    ensures p(x) && Keep(s, p) == [] ==> Keep(InsertAt(s, i, x), p) == [x]
  {
    if i == 0 {
      assert InsertAt(s, 0, x)[1..] == s;
    } else {
      assert InsertAt(s, i, x)[1..] == InsertAt(s[1..], i - 1, x);
      KeepInsert(s[1..], i - 1, x, p);
    }
  }

  /** Removing an element that is not kept changes nothing; removing the first one kept drops the head. */
  lemma {:induction false} KeepRemove<T>(s: seq<T>, i: nat, p: T -> bool)
    requires i < |s|
    ensures !p(s[i]) ==> Keep(RemoveAt(s, i), p) == Keep(s, p)
    ensures p(s[i]) && (forall j :: 0 <= j < i ==> !p(s[j])) ==> Keep(s, p) == [s[i]] + Keep(RemoveAt(s, i), p)
  {
    if i == 0 {
      assert RemoveAt(s, 0) == s[1..];
    } else {
      assert RemoveAt(s, i)[1..] == RemoveAt(s[1..], i - 1);
      assert s[1..][i - 1] == s[i];
      KeepRemove(s[1..], i - 1, p);
    }
  }

  // ---------------------------------------------------------------- sorting event names

  /** Byte order of strings. */
  predicate AtMost(a: string, b: string) {
    a == "" || (b != "" && (a[0] < b[0] || (a[0] == b[0] && AtMost(a[1..], b[1..]))))
  }

  lemma {:induction false} AtMostIsTotalOrder(a: string, b: string, c: string)
    ensures AtMost(a, b) || AtMost(b, a)
    ensures AtMost(a, b) && AtMost(b, a) ==> a == b
    ensures AtMost(a, b) && AtMost(b, c) ==> AtMost(a, c)
    decreases |a| + |b| + |c|
  {
    if a != "" && b != "" && c != "" {
      AtMostIsTotalOrder(a[1..], b[1..], c[1..]);
      assert a == [a[0]] + a[1..] && b == [b[0]] + b[1..];
    } else if a != "" && b != "" {
      AtMostIsTotalOrder(a[1..], b[1..], c);
      assert a == [a[0]] + a[1..] && b == [b[0]] + b[1..];
    }
  }

  function Insert(x: string, s: seq<string>): seq<string> {
    if s == [] || AtMost(x, s[0]) then [x] + s else [s[0]] + Insert(x, s[1..])
  }

  /** The list in byte order. */
  function Sort(s: seq<string>): seq<string> {
    if s == [] then [] else Insert(s[0], Sort(s[1..]))
  }

  predicate Sorted(s: seq<string>) {
    |s| > 1 ==> AtMost(s[0], s[1]) && Sorted(s[1..])
  }

  lemma {:induction false} InsertSorts(x: string, s: seq<string>)
    requires Sorted(s)
    ensures Sorted(Insert(x, s)) && multiset(Insert(x, s)) == multiset{x} + multiset(s)
  {
    if s != [] {
      AtMostIsTotalOrder(x, s[0], "");
      assert s == [s[0]] + s[1..];
      assert ([x] + s)[1..] == s;
      if !AtMost(x, s[0]) {
        InsertSorts(x, s[1..]);
        assert Insert(x, s)[1..] == Insert(x, s[1..]);
      }
    }
  }

  lemma {:induction false} SortSorts(s: seq<string>)
    ensures Sorted(Sort(s)) && multiset(Sort(s)) == multiset(s)
  {
    if s != [] {
      SortSorts(s[1..]);
      InsertSorts(s[0], Sort(s[1..]));
      assert s == [s[0]] + s[1..];
    }
  }

  lemma {:induction false} HeadIsLeast(s: seq<string>, x: string)
    requires Sorted(s) && x in s
    ensures AtMost(s[0], x)
  {
    AtMostIsTotalOrder(s[0], s[0], s[0]);
    if x != s[0] {
      assert s == [s[0]] + s[1..];
      HeadIsLeast(s[1..], x);
      AtMostIsTotalOrder(s[0], s[1], x);
    }
  }

  lemma TailMultiset(s: seq<string>)
    requires s != []
    ensures multiset(s[1..]) == multiset(s) - multiset{s[0]}
  {
    assert s == [s[0]] + s[1..];
  }

  lemma {:induction false} SortedIsUnique(a: seq<string>, b: seq<string>)
    requires Sorted(a) && Sorted(b) && multiset(a) == multiset(b)
    ensures a == b
  {
    if a == [] {
      assert |multiset(b)| == 0;
    } else {
      hide AtMost;
      assert |multiset(a)| == |a| == |b| == |multiset(b)|;
      assert a[0] in multiset(b) && b[0] in multiset(a);
      HeadIsLeast(a, b[0]);
      HeadIsLeast(b, a[0]);
      AtMostIsTotalOrder(a[0], b[0], "");
      TailMultiset(a);
      TailMultiset(b);
      SortedIsUnique(a[1..], b[1..]);
      assert a == [a[0]] + a[1..] && b == [b[0]] + b[1..];
    }
  }

  /** equalEvents: the given list, sorted, against an already sorted one. */
  predicate EqualEvents(a: seq<string>, sortedB: seq<string>) {
    Sort(a) == sortedB
  }

  /** Comparing sorted clones compares multisets: order is ignored, repetition is not. */
  lemma EqualEventsIsSameMultiset(a: seq<string>, b: seq<string>)
    ensures EqualEvents(a, Sort(b)) <==> multiset(a) == multiset(b)
  {
    SortSorts(a);
    SortSorts(b);
    if multiset(a) == multiset(b) { SortedIsUnique(Sort(a), Sort(b)); }
  }

  // ---------------------------------------------------------------- the platform

  datatype Entry<+D> = Entry(id: nat, data: D)

  predicate DistinctIds<D>(entries: seq<Entry<D>>) {
    forall j, k :: 0 <= j < k < |entries| ==> entries[j].id != entries[k].id
  }

  /** A platform's list of webhooks or deploy keys. Any call may fail, and then changes nothing. */
  class Registry<D(!new)> {
    var entries: seq<Entry<D>>
    var nextId: nat
    /** Additions and deletions carried out. */
    var writes: nat

    ghost predicate Valid()
      reads this
    {
      && (forall i :: 0 <= i < |entries| ==> entries[i].id < nextId)
      && DistinctIds(entries)
    }

    constructor ()
      ensures Valid() && entries == [] && writes == 0
    {
      entries, nextId, writes := [], 0, 0;
    }

    method List() returns (r: Option<seq<Entry<D>>>)
      ensures r.Some? ==> r.value == entries
    {
      var up: bool := *;
      r := if up then Some(entries) else None;
    }

    /** The platform lists the new entry wherever it likes. */
    method Add(data: D) returns (r: Option<Entry<D>>, ghost place: nat)
      requires Valid()
      modifies this
      ensures Valid() && place <= |old(entries)|
      ensures r.Some? ==> r.value.data == data && entries == InsertAt(old(entries), place, r.value) && writes == old(writes) + 1
      ensures r.None? ==> entries == old(entries) && writes == old(writes)
    {
      place := 0;
      var up: bool := *;
      if !up {
        return None, 0;
      }
      var at: nat :| at <= |entries|;
      place := at;
      var e := Entry(nextId, data);
      entries, nextId, writes := InsertAt(entries, at, e), nextId + 1, writes + 1;
      r := Some(e);
    }

    method Delete(id: nat) returns (ok: bool)
      requires Valid()
      modifies this
      ensures Valid()
      ensures ok ==> exists i :: 0 <= i < |old(entries)| && old(entries)[i].id == id && entries == RemoveAt(old(entries), i)
      ensures writes == old(writes) + if ok then 1 else 0
      ensures !ok ==> entries == old(entries)
    {
      var up: bool := *;
      if !up {
        return false;
      }
      for i := 0 to |entries|
        invariant entries == old(entries) && writes == old(writes) && Valid()
      {
        if entries[i].id == id {
          entries, writes := RemoveAt(entries, i), writes + 1;
          return true;
        }
      }
      ok := false;
    }
  }

  // ---------------------------------------------------------------- webhooks

  datatype Hook = Hook(url: string, events: seq<string>)

  datatype Action = Created | Updated | Unchanged

  datatype Result<+D> = Failed | Ensured(action: Action, entry: Entry<D>)

  /** Without events the platform default is asked for. */
  function Wanted(events: seq<string>): seq<string> {
    if events == [] then ["push", "pull_request"] else events
  }

  function HasUrl(url: string): Entry<Hook> -> bool {
    (h: Entry<Hook>) => h.data.url == url
  }

  function OtherUrl(url: string): Entry<Hook> -> bool {
    (h: Entry<Hook>) => h.data.url != url
  }

  /** The platform carries exactly one hook for the URL, with the desired events in some order. */
  ghost predicate Converged(hooks: seq<Entry<Hook>>, url: string, events: seq<string>) {
    var ours := Keep(hooks, HasUrl(url));
    |ours| == 1 && multiset(ours[0].data.events) == multiset(Wanted(events))
  }

  /** The platform may list the events of a new hook in another order. */
  method CreateWebhook(p: Registry<Hook>, url: string, events: seq<string>)
    returns (r: Option<Entry<Hook>>, ghost place: nat)
    requires p.Valid()
    modifies p
    ensures p.Valid() && place <= |old(p.entries)|
    ensures r.Some? ==> r.value.data.url == url && multiset(r.value.data.events) == multiset(events)
                        && p.entries == InsertAt(old(p.entries), place, r.value) && p.writes == old(p.writes) + 1
    ensures r.None? ==> p.entries == old(p.entries) && p.writes == old(p.writes)
  {
    assert multiset(events) == multiset(events);
    var listed: seq<string> :| multiset(listed) == multiset(events);
    r, place := p.Add(Hook(url, listed));
  }

  /** The id of the first hook of the URL finds that hook. */
  lemma {:induction false} FirstById(hooks: seq<Entry<Hook>>, i: nat, url: string)
    requires i < |hooks| && DistinctIds(hooks)
    requires Keep(hooks, HasUrl(url)) != [] && Keep(hooks, HasUrl(url))[0].id == hooks[i].id
    ensures HasUrl(url)(hooks[i]) && forall j :: 0 <= j < i ==> !HasUrl(url)(hooks[j])
  {
    if !HasUrl(url)(hooks[0]) {
      var first := Keep(hooks, HasUrl(url))[0];
      KeepMembers(hooks[1..], HasUrl(url));
      assert first in hooks[1..];
      FirstById(hooks[1..], i - 1, url);
      assert forall j :: 0 < j < i ==> hooks[j] == hooks[1..][j - 1];
    }
  }

  /** Deleting the first hook of the URL. */
  lemma DeleteFirst(hooks: seq<Entry<Hook>>, i: nat, url: string)
    requires i < |hooks| && DistinctIds(hooks)
    requires Keep(hooks, HasUrl(url)) != [] && Keep(hooks, HasUrl(url))[0].id == hooks[i].id
    ensures Keep(RemoveAt(hooks, i), HasUrl(url)) == Keep(hooks, HasUrl(url))[1..]
    ensures Keep(RemoveAt(hooks, i), OtherUrl(url)) == Keep(hooks, OtherUrl(url))
  {
    hide Keep, RemoveAt;
    FirstById(hooks, i, url);
    KeepRemove(hooks, i, HasUrl(url));
    KeepRemove(hooks, i, OtherUrl(url));
  }

  /** Main result: a successful call leaves exactly one hook for the URL, with the desired events, and every other hook
      as it was and in the same order; it reports what it did; on a converged platform it writes nothing, so a rerun is
      unchanged. A failed call has at most deleted hooks of the URL, in listing order. */
  method EnsureWebhook(p: Registry<Hook>, url: string, opts: seq<string>) returns (r: Result<Hook>)
    requires p.Valid()
    modifies p
    ensures p.Valid()
    ensures Keep(p.entries, OtherUrl(url)) == old(Keep(p.entries, OtherUrl(url)))
    ensures r.Ensured? ==> Converged(p.entries, url, opts) && Keep(p.entries, HasUrl(url)) == [r.entry]
    ensures r.Ensured? ==> r.entry.data.url == url
                           && multiset(r.entry.data.events)
                              == if opts == [] then multiset{"push", "pull_request"} else multiset(opts)
    ensures r.Ensured? ==> (r.action == Unchanged <==> old(Converged(p.entries, url, opts)))
                           && (r.action == Created <==> old(Keep(p.entries, HasUrl(url))) == [])
    ensures old(Converged(p.entries, url, opts)) ==> p.entries == old(p.entries) && p.writes == old(p.writes)
    ensures r.Failed? ==> exists k :: 0 <= k <= |old(Keep(p.entries, HasUrl(url)))|
                                      && Keep(p.entries, HasUrl(url)) == old(Keep(p.entries, HasUrl(url)))[k..]
  {
    var events := if opts == [] then ["push", "pull_request"] else opts;
    var desired := Sort(events);
    ghost var ours := Keep(p.entries, HasUrl(url));
    assert ours[0..] == ours;
    var listing := p.List();
    if listing.None? {
      return Failed;
    }
    var existing := listing.value;
    var matches: seq<Entry<Hook>> := [];
    for i := 0 to |existing|
      invariant unchanged(p) && matches == Keep(existing[..i], HasUrl(url))
    {
      assert existing[..i + 1] == existing[..i] + [existing[i]];
      KeepAppend(existing[..i], [existing[i]], HasUrl(url));
      KeepOne(existing[i], HasUrl(url));
      if existing[i].data.url == url {
        matches := matches + [existing[i]];
      }
    }
    assert existing[..|existing|] == existing;
    if |matches| == 1 {
      EqualEventsIsSameMultiset(matches[0].data.events, events);
      if EqualEvents(matches[0].data.events, desired) {
        KeepMembers(existing, HasUrl(url));
        assert matches[0] in matches;
        return Ensured(Unchanged, matches[0]);
      }
    }
    for k := 0 to |matches|
      invariant p.Valid() && Keep(p.entries, HasUrl(url)) == matches[k..]
      invariant Keep(p.entries, OtherUrl(url)) == old(Keep(p.entries, OtherUrl(url)))
    {
      ghost var was := p.entries;
      var ok := p.Delete(matches[k].id);
      if !ok {
        return Failed;
      }
      ghost var i :| 0 <= i < |was| && was[i].id == matches[k].id && p.entries == RemoveAt(was, i);
      DeleteFirst(was, i, url);
    }
    ghost var was := p.entries;
    var hook, place := CreateWebhook(p, url, events);
    if hook.None? {
      return Failed;
    }
    KeepInsert(was, place, hook.value, HasUrl(url));
    KeepInsert(was, place, hook.value, OtherUrl(url));
    r := Ensured(if |matches| == 0 then Created else Updated, hook.value);
  }

  // ---------------------------------------------------------------- deploy keys

  datatype Key = Key(title: string, material: string, readOnly: bool)

  /** Same title, other content: what a run may have to replace. */
  function Mismatch(want: Key): Entry<Key> -> bool {
    (k: Entry<Key>) => k.data.title == want.title && k.data != want
  }

  function OtherTitle(want: Key): Entry<Key> -> bool {
    (k: Entry<Key>) => k.data.title != want.title
  }

  function Mismatches(keys: seq<Entry<Key>>, want: Key): nat {
    |Keep(keys, Mismatch(want))|
  }

  /** The index of the first key with the title; |keys| if there is none. */
  function FirstTitled(keys: seq<Entry<Key>>, want: Key): (i: nat)
    ensures i <= |keys|
  {
    if keys == [] || keys[0].data.title == want.title then 0 else 1 + FirstTitled(keys[1..], want)
  }

  lemma {:induction false} FirstTitledIsFirst(keys: seq<Entry<Key>>, want: Key, i: nat)
    requires i <= |keys| && (forall j :: 0 <= j < i ==> keys[j].data.title != want.title)
    requires i < |keys| ==> keys[i].data.title == want.title
    ensures FirstTitled(keys, want) == i
  {
    if i > 0 {
      FirstTitledIsFirst(keys[1..], want, i - 1);
    }
  }

  lemma {:induction false} FirstTitledMeans(keys: seq<Entry<Key>>, want: Key)
    ensures var i := FirstTitled(keys, want);
            && (forall j :: 0 <= j < i ==> keys[j].data.title != want.title)
            && (i < |keys| ==> keys[i].data.title == want.title)
  {
    if keys != [] && keys[0].data.title != want.title {
      FirstTitledMeans(keys[1..], want);
      var i := FirstTitled(keys, want);
      forall j | 0 <= j < i ensures keys[j].data.title != want.title {
        if j > 0 { assert keys[j] == keys[1..][j - 1]; }
      }
    }
  }

  /** What one successful run does to the listing. */
  ghost predicate KeyRun(before: seq<Entry<Key>>, after: seq<Entry<Key>>, want: Key, action: Action) {
    var i := FirstTitled(before, want);
    match action
    case Unchanged => i < |before| && before[i].data == want && after == before
    case Created =>
      && i == |before|
      && exists place: nat, e: Entry<Key> ::
           place <= |before| && e.data == want && after == InsertAt(before, place, e)
    case Updated =>
      && i < |before| && before[i].data != want
      && exists place: nat, e: Entry<Key> ::
           place < |before| && e.data == want && after == InsertAt(RemoveAt(before, i), place, e)
  }

  method EnsureDeployKey(p: Registry<Key>, want: Key) returns (r: Result<Key>)
    requires p.Valid()
    modifies p
    ensures p.Valid()
    ensures r.Ensured? ==> r.entry in p.entries && r.entry.data == want && KeyRun(old(p.entries), p.entries, want, r.action)
    ensures r.Ensured? && r.action == Unchanged ==> p.writes == old(p.writes)
    ensures r.Failed? ==> p.entries == old(p.entries)
                          || (FirstTitled(old(p.entries), want) < |old(p.entries)|
                              && p.entries == RemoveAt(old(p.entries), FirstTitled(old(p.entries), want)))
  {
    var listing := p.List();
    if listing.None? {
      return Failed;
    }
    var existing := listing.value;
    for i := 0 to |existing|
      invariant p.Valid() && p.entries == old(p.entries) && p.writes == old(p.writes)
      invariant forall j :: 0 <= j < i ==> existing[j].data.title != want.title
    {
      var k := existing[i];
      if k.data.title != want.title {
        continue;
      }
      FirstTitledIsFirst(existing, want, i);
      if k.data.material == want.material && k.data.readOnly == want.readOnly {
        return Ensured(Unchanged, k);
      }
      var ok := p.Delete(k.id);
      if !ok {
        return Failed;
      }
      ghost var at :| 0 <= at < |existing| && existing[at].id == k.id && p.entries == RemoveAt(existing, at);
      assert at == i;
      var out, place := p.Add(want);
      if out.None? {
        return Failed;
      }
      return Ensured(Updated, out.value);
    }
    FirstTitledIsFirst(existing, want, |existing|);
    var out, place := p.Add(want);
    if out.None? {
      return Failed;
    }
    r := Ensured(Created, out.value);
  }

  /** Main result: an updating run lowers the number of mismatching keys by exactly one, a creating run leaves none,
      and keys with other titles never change. */
  lemma KeyRunLowersMismatches(before: seq<Entry<Key>>, after: seq<Entry<Key>>, want: Key, action: Action)
    requires KeyRun(before, after, want, action)
    ensures Mismatches(after, want) == Mismatches(before, want) - if action == Updated then 1 else 0
    ensures action == Created ==> Mismatches(after, want) == 0
    ensures action != Unchanged ==> FirstTitled(after, want) < |after|
    ensures Keep(after, OtherTitle(want)) == Keep(before, OtherTitle(want))
  {
    hide Keep, FirstTitled;
    FirstTitledMeans(before, want);
    FirstTitledMeans(after, want);
    if action == Created {
      var place: nat, e: Entry<Key> :| place <= |before| && e.data == want && after == InsertAt(before, place, e);
      AddedKey(before, place, e, want);
      NothingTitled(before, want);
    } else if action == Updated {
      var i := FirstTitled(before, want);
      var place: nat, e: Entry<Key> :| place < |before| && e.data == want && after == InsertAt(RemoveAt(before, i), place, e);
      AddedKey(RemoveAt(before, i), place, e, want);
      KeepRemove(before, i, Mismatch(want));
      KeepRemove(before, i, OtherTitle(want));
    }
  }

  lemma {:induction false} NothingTitled(keys: seq<Entry<Key>>, want: Key)
    requires FirstTitled(keys, want) == |keys|
    ensures Mismatches(keys, want) == 0
  {
    if keys != [] { NothingTitled(keys[1..], want); }
  }

  lemma AddedKey(keys: seq<Entry<Key>>, place: nat, e: Entry<Key>, want: Key)
    requires place <= |keys| && e.data == want
    ensures e in InsertAt(keys, place, e)
    ensures Mismatches(InsertAt(keys, place, e), want) == Mismatches(keys, want)
    ensures Keep(InsertAt(keys, place, e), OtherTitle(want)) == Keep(keys, OtherTitle(want))
  {
    hide Keep;
    KeepInsert(keys, place, e, Mismatch(want));
    KeepInsert(keys, place, e, OtherTitle(want));
    assert InsertAt(keys, place, e)[place] == e;
  }

  /** Successive successful runs. */
  ghost predicate KeyRuns(listings: seq<seq<Entry<Key>>>, actions: seq<Action>, want: Key) {
    |listings| == |actions| + 1 && forall i :: 0 <= i < |actions| ==> KeyRun(listings[i], listings[i + 1], want, actions[i])
  }

  /** Main result: runs that keep changing something are at most as many as there were mismatching keys with the
      title, or one if there was no key with the title at all; the next run is unchanged, and stays so. */
  lemma {:induction false} KeysConverge(listings: seq<seq<Entry<Key>>>, actions: seq<Action>, want: Key)
    requires KeyRuns(listings, actions, want)
    ensures (forall i :: 0 <= i < |actions| ==> actions[i] != Unchanged) ==>
      |actions| <= if FirstTitled(listings[0], want) == |listings[0]| then 1 else Mismatches(listings[0], want)
    ensures forall i, j :: 0 <= i < j < |actions| && actions[i] == Unchanged ==> actions[j] == Unchanged
    decreases |actions|
  {
    if actions != [] {
      var later, rest := listings[1..], actions[1..];
      assert KeyRuns(later, rest, want) by {
        forall i | 0 <= i < |rest| ensures KeyRun(later[i], later[i + 1], want, rest[i]) {
          assert KeyRun(listings[i + 1], listings[i + 2], want, actions[i + 1]);
        }
      }
      assert KeyRun(listings[0], listings[1], want, actions[0]);
      KeyRunLowersMismatches(listings[0], listings[1], want, actions[0]);
      KeysConverge(later, rest, want);
      if actions[0] == Unchanged && |actions| > 1 {
        assert KeyRun(listings[1], listings[2], want, actions[1]);
        assert rest[0] == Unchanged;
      }
      forall i, j | 0 <= i < j < |actions| && actions[i] == Unchanged ensures actions[j] == Unchanged {
        if i > 0 { assert rest[i - 1] == Unchanged && rest[j - 1] == actions[j]; }
        else if j > 1 { assert rest[0] == Unchanged && rest[j - 1] == actions[j]; }
      }
    }
  }

  /** An unchanged report does not mean a single key: mismatching duplicates behind the first key stay. */
  lemma UnchangedCanLeaveDuplicates(want: Key, other: Key)
    requires other.title == want.title && other != want
    ensures exists keys: seq<Entry<Key>> :: KeyRun(keys, keys, want, Unchanged) && Mismatches(keys, want) == 1
  {
    var keys := [Entry(0, want), Entry(1, other)];
    KeepAppend([keys[0]], [keys[1]], Mismatch(want));
    KeepOne(keys[0], Mismatch(want));
    KeepOne(keys[1], Mismatch(want));
    assert keys == [keys[0]] + [keys[1]];
    assert KeyRun(keys, keys, want, Unchanged) && Mismatches(keys, want) == 1;
  }
}
