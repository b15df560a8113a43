/** What a fetch changed, from the refs before and after it, as both backends compute it. */
module FetchRefs {
  import opened Basics

  type Ref = string
  type Hash = string
  type Refs = map<Ref, Hash>

  datatype FetchResult = FetchResult(fetched: seq<Ref>, newBranches: seq<string>, newTags: seq<string>, updated: seq<string>,
                                     deleted: seq<string>)

  const EMPTY := FetchResult([], [], [], [], [])
  const TAGS := "refs/tags/"

  function RemotePrefix(remote: string): string {
    "refs/remotes/" + remote + "/"
  }

  predicate HasPrefix(s: string, prefix: string) {
    prefix <= s
  }

  function TrimPrefix(s: string, prefix: string): string {
    if HasPrefix(s, prefix) then s[|prefix|..] else s
  }

  // ---------------------------------------------------------------- reference meaning

  /** Refs the fetch created or moved. */
  function Fetched(before: Refs, after: Refs): set<Ref> {
    set r <- after | r !in before || before[r] != after[r]
  }

  function Created(before: Refs, after: Refs, prefix: string): set<Ref> {
    set r <- after | r !in before && HasPrefix(r, prefix)
  }

  function Moved(before: Refs, after: Refs, prefix: string): set<Ref> {
    set r <- after | r in before && before[r] != after[r] && HasPrefix(r, prefix)
  }

  /** Refs pruned away. */
  function Pruned(before: Refs, after: Refs, prefix: string): set<Ref> {
    set r <- before | r !in after && HasPrefix(r, prefix)
  }

  /** The list holds the short names of exactly these refs, each once: adding the prefix again gives the refs back. */
  ghost predicate Lists(names: seq<string>, prefix: string, refs: set<Ref>) {
    && NoDuplicates(names)
    && (forall n <- names :: prefix + n in refs)
    && (forall r <- refs :: HasPrefix(r, prefix) && TrimPrefix(r, prefix) in names)
  }

  ghost predicate Describes(result: FetchResult, remote: string, before: Refs, after: Refs) {
    var prefix := RemotePrefix(remote);
    && Lists(result.fetched, "", Fetched(before, after))
    && Lists(result.newBranches, prefix, Created(before, after, prefix))
    && Lists(result.newTags, TAGS, Created(before, after, TAGS))
    && Lists(result.updated, prefix, Moved(before, after, prefix))
    && Lists(result.deleted, prefix, Pruned(before, after, prefix))
  }

  // ---------------------------------------------------------------- one step of a loop

  lemma PrefixesAreDisjoint(remote: string, r: Ref)
    ensures !(HasPrefix(r, RemotePrefix(remote)) && HasPrefix(r, TAGS))
  {
    if HasPrefix(r, RemotePrefix(remote)) {
      assert r[5] == RemotePrefix(remote)[5] == 'r' != TAGS[5];
    }
  }

  /** A list extended by one visited ref. */
  lemma ListsOneMore(names: seq<string>, prefix: string, refs: set<Ref>, done: set<Ref>, r: Ref)
    requires Lists(names, prefix, refs * done) && r !in done
    requires r in refs ==> HasPrefix(r, prefix)
    ensures Lists(if r in refs then names + [TrimPrefix(r, prefix)] else names, prefix, refs * (done + {r}))
  {
    if r in refs {
      var short := TrimPrefix(r, prefix);
      assert prefix + short == r;
      assert short !in names;
      assert (names + [short])[|names|] == short;
      assert forall n <- names :: n in names + [short];
    }
  }

  lemma ListsNothing(prefix: string, refs: set<Ref>)
    ensures Lists([], prefix, refs * {})
  {
  }

  /** The lists about the refs after the fetch, for the refs visited so far. */
  ghost predicate Visited(result: FetchResult, remote: string, before: Refs, after: Refs, done: set<Ref>) {
    var prefix := RemotePrefix(remote);
    && Lists(result.fetched, "", Fetched(before, after) * done)
    && Lists(result.newBranches, prefix, Created(before, after, prefix) * done)
    && Lists(result.newTags, TAGS, Created(before, after, TAGS) * done)
    && Lists(result.updated, prefix, Moved(before, after, prefix) * done)
    && result.deleted == []
  }

  /** The result after visiting one more ref of the refs after the fetch. */
  ghost function Visit(result: FetchResult, remote: string, before: Refs, after: Refs, r: Ref): FetchResult {
    var prefix := RemotePrefix(remote);
    FetchResult(
      if r in Fetched(before, after) then result.fetched + [r] else result.fetched,
      if r in Created(before, after, prefix) then result.newBranches + [TrimPrefix(r, prefix)] else result.newBranches,
      if r in Created(before, after, TAGS) then result.newTags + [TrimPrefix(r, TAGS)] else result.newTags,
      if r in Moved(before, after, prefix) then result.updated + [TrimPrefix(r, prefix)] else result.updated,
      result.deleted)
  }

  lemma VisitedOneMore(result: FetchResult, remote: string, before: Refs, after: Refs, done: set<Ref>, r: Ref)
    requires Visited(result, remote, before, after, done) && r !in done
    ensures Visited(Visit(result, remote, before, after, r), remote, before, after, done + {r})
  {
    hide Lists;
    var prefix := RemotePrefix(remote);
    assert TrimPrefix(r, "") == r;
    ListsOneMore(result.fetched, "", Fetched(before, after), done, r);
    ListsOneMore(result.newBranches, prefix, Created(before, after, prefix), done, r);
    ListsOneMore(result.newTags, TAGS, Created(before, after, TAGS), done, r);
    ListsOneMore(result.updated, prefix, Moved(before, after, prefix), done, r);
  }

  lemma NothingVisited(remote: string, before: Refs, after: Refs)
    ensures Visited(EMPTY, remote, before, after, {})
  {
    var prefix := RemotePrefix(remote);
    ListsNothing("", Fetched(before, after));
    ListsNothing(prefix, Created(before, after, prefix));
    ListsNothing(TAGS, Created(before, after, TAGS));
    ListsNothing(prefix, Moved(before, after, prefix));
  }

  lemma AllVisited(result: FetchResult, remote: string, before: Refs, after: Refs)
    requires Visited(result, remote, before, after, after.Keys)
    ensures var prefix := RemotePrefix(remote);
            && Lists(result.fetched, "", Fetched(before, after))
            && Lists(result.newBranches, prefix, Created(before, after, prefix))
            && Lists(result.newTags, TAGS, Created(before, after, TAGS))
            && Lists(result.updated, prefix, Moved(before, after, prefix))
  {
    var prefix := RemotePrefix(remote);
    hide Lists;
    assert Fetched(before, after) * after.Keys == Fetched(before, after);
    assert Created(before, after, prefix) * after.Keys == Created(before, after, prefix);
    assert Created(before, after, TAGS) * after.Keys == Created(before, after, TAGS);
    assert Moved(before, after, prefix) * after.Keys == Moved(before, after, prefix);
  }

  // ---------------------------------------------------------------- the two backends

  /** The second loop, over the refs before the fetch; it is the same in both backends. */
  method CollectPruned(result: FetchResult, remote: string, before: Refs, after: Refs) returns (out: FetchResult)
    requires result.deleted == []
    ensures out == result.(deleted := out.deleted)
    ensures Lists(out.deleted, RemotePrefix(remote), Pruned(before, after, RemotePrefix(remote)))
  {
    var prefix := RemotePrefix(remote);
    var todo := before.Keys;
    out := result;
    ListsNothing(prefix, Pruned(before, after, prefix));
    while todo != {}
      invariant todo <= before.Keys && out == result.(deleted := out.deleted)
      invariant Lists(out.deleted, prefix, Pruned(before, after, prefix) * (before.Keys - todo))
    {
      var r :| r in todo;
      ListsOneMore(out.deleted, prefix, Pruned(before, after, prefix), before.Keys - todo, r);
      assert before.Keys - (todo - {r}) == before.Keys - todo + {r};
      todo := todo - {r};
      if r !in after && HasPrefix(r, prefix) {
        out := out.(deleted := out.deleted + [TrimPrefix(r, prefix)]);
      }
    }
    assert Pruned(before, after, prefix) * (before.Keys - {}) == Pruned(before, after, prefix);
  }

  /** The native backend. The refs come in any order. */
  method DiffFetchRefs(remote: string, before: Refs, after: Refs) returns (result: FetchResult)
    ensures Describes(result, remote, before, after)
  {
    hide Lists;
    var remotePrefix := RemotePrefix(remote);
    result := EMPTY;
    NothingVisited(remote, before, after);
    var todo := after.Keys;
    assert after.Keys - todo == {};
    while todo != {}
      invariant todo <= after.Keys && Visited(result, remote, before, after, after.Keys - todo)
    {
      var ref :| ref in todo;
      VisitedOneMore(result, remote, before, after, after.Keys - todo, ref);
      PrefixesAreDisjoint(remote, ref);
      ghost var was := result;
      assert after.Keys - (todo - {ref}) == after.Keys - todo + {ref};
      todo := todo - {ref};
      var hash, existed := after[ref], ref in before;
      if !existed {
        result := result.(fetched := result.fetched + [ref]);
        if HasPrefix(ref, remotePrefix) {
          result := result.(newBranches := result.newBranches + [TrimPrefix(ref, remotePrefix)]);
        } else if HasPrefix(ref, TAGS) {
          result := result.(newTags := result.newTags + [TrimPrefix(ref, TAGS)]);
        }
      } else if before[ref] != hash {
        result := result.(fetched := result.fetched + [ref]);
        if HasPrefix(ref, remotePrefix) {
          result := result.(updated := result.updated + [TrimPrefix(ref, remotePrefix)]);
        }
      }
      assert result == Visit(was, remote, before, after, ref);
    }
    assert after.Keys - {} == after.Keys;
    AllVisited(result, remote, before, after);
    result := CollectPruned(result, remote, before, after);
  }

  /** The refs a fetch can move: the remote's tracking refs and the tags. */
  function Snapshot(refs: Refs, remote: string): Refs {
    map r <- refs | HasPrefix(r, RemotePrefix(remote)) || HasPrefix(r, TAGS) :: refs[r]
  }

  /** The go-git backend takes its snapshots itself, in two passes over the repository's refs. */
  method CollectFetchRefs(refs: Refs, remote: string) returns (target: Refs)
    ensures target == Snapshot(refs, remote)
  {
    target := map[];
    var todo := refs.Keys;
    while todo != {}
      invariant todo <= refs.Keys
      invariant forall r :: r in target <==> r in refs && r !in todo && HasPrefix(r, RemotePrefix(remote))
      invariant forall r <- target :: target[r] == refs[r]
    {
      var r :| r in todo;
      todo := todo - {r};
      if HasPrefix(r, RemotePrefix(remote)) {
        target := target[r := refs[r]];
      }
    }
    todo := refs.Keys;
    while todo != {}
      invariant todo <= refs.Keys
      invariant forall r :: r in target <==>
          r in refs && (HasPrefix(r, RemotePrefix(remote)) || (r !in todo && HasPrefix(r, TAGS)))
      invariant forall r <- target :: target[r] == refs[r]
    {
      var r :| r in todo;
      todo := todo - {r};
      if HasPrefix(r, TAGS) {
        target := target[r := refs[r]];
      }
    }
  }

  /** The go-git backend, from the repository's refs before and after the fetch. */
  method Fetch(remote: string, refsBefore: Refs, refsAfter: Refs) returns (result: FetchResult)
    ensures Describes(result, remote, Snapshot(refsBefore, remote), Snapshot(refsAfter, remote))
  {
    hide Lists;
    var before := CollectFetchRefs(refsBefore, remote);
    var after := CollectFetchRefs(refsAfter, remote);
    result := EMPTY;
    NothingVisited(remote, before, after);
    var todo := after.Keys;
    assert after.Keys - todo == {};
    while todo != {}
      invariant todo <= after.Keys && Visited(result, remote, before, after, after.Keys - todo)
    {
      var ref :| ref in todo;
      VisitedOneMore(result, remote, before, after, after.Keys - todo, ref);
      PrefixesAreDisjoint(remote, ref);
      ghost var was := result;
      assert after.Keys - (todo - {ref}) == after.Keys - todo + {ref};
      todo := todo - {ref};
      if ref !in before {
        result := result.(fetched := result.fetched + [ref]);
        if HasPrefix(ref, RemotePrefix(remote)) {
          result := result.(newBranches := result.newBranches + [TrimPrefix(ref, RemotePrefix(remote))]);
        } else if HasPrefix(ref, TAGS) {
          result := result.(newTags := result.newTags + [TrimPrefix(ref, TAGS)]);
        }
      } else if before[ref] != after[ref] {
        result := result.(fetched := result.fetched + [ref]);
        if HasPrefix(ref, RemotePrefix(remote)) {
          result := result.(updated := result.updated + [TrimPrefix(ref, RemotePrefix(remote))]);
        }
      }
      assert result == Visit(was, remote, before, after, ref);
    }
    assert after.Keys - {} == after.Keys;
    AllVisited(result, remote, before, after);
    result := CollectPruned(result, remote, before, after);
  }

  // ---------------------------------------------------------------- what a result means

  lemma {:induction false} SameNames(a: seq<string>, b: seq<string>, prefix: string, refs: set<Ref>)
    requires Lists(a, prefix, refs) && Lists(b, prefix, refs)
    ensures multiset(a) == multiset(b)
  {
    hide Lists;
    forall n ensures multiset(a)[n] == multiset(b)[n] {
      Multiplicity(a, prefix, refs, n);
      Multiplicity(b, prefix, refs, n);
    }
  }

  lemma Multiplicity(names: seq<string>, prefix: string, refs: set<Ref>, n: string)
    requires Lists(names, prefix, refs)
    ensures multiset(names)[n] == if prefix + n in refs then 1 else 0
  {
    OnceIfPresent(names, n);
    if prefix + n in refs {
      assert TrimPrefix(prefix + n, prefix) == n;
    }
  }

  lemma {:induction false} OnceIfPresent(names: seq<string>, n: string)
    requires NoDuplicates(names)
    ensures multiset(names)[n] == if n in names then 1 else 0
  {
    if names != [] {
      assert names == [names[0]] + names[1..];
      OnceIfPresent(names[1..], n);
    }
  }

  /** Main result: whatever the iteration orders, any two results for the same refs hold the same names in each list. */
  lemma ResultsAgree(a: FetchResult, b: FetchResult, remote: string, before: Refs, after: Refs)
    requires Describes(a, remote, before, after) && Describes(b, remote, before, after)
    ensures multiset(a.fetched) == multiset(b.fetched) && multiset(a.newBranches) == multiset(b.newBranches)
    ensures multiset(a.newTags) == multiset(b.newTags) && multiset(a.updated) == multiset(b.updated)
    ensures multiset(a.deleted) == multiset(b.deleted)
  {
    hide Lists;
    var prefix := RemotePrefix(remote);
    SameNames(a.fetched, b.fetched, "", Fetched(before, after));
    SameNames(a.newBranches, b.newBranches, prefix, Created(before, after, prefix));
    SameNames(a.newTags, b.newTags, TAGS, Created(before, after, TAGS));
    SameNames(a.updated, b.updated, prefix, Moved(before, after, prefix));
    SameNames(a.deleted, b.deleted, prefix, Pruned(before, after, prefix));
  }

  /** Main result: a remote-tracking branch that was fetched is in exactly one of the new and the updated branches, one
      that was not is in neither, and a deleted one is in none of the other lists. */
  lemma EachFetchedBranchIsInOneList(result: FetchResult, remote: string, before: Refs, after: Refs, name: string)
    requires Describes(result, remote, before, after)
    ensures var ref := RemotePrefix(remote) + name;
            && (ref in result.fetched <==> name in result.newBranches || name in result.updated)
            && !(name in result.newBranches && name in result.updated)
            && (name in result.deleted ==> ref !in result.fetched)
  {
    var prefix := RemotePrefix(remote);
    var ref := prefix + name;
    assert TrimPrefix(ref, prefix) == name && TrimPrefix(ref, "") == ref && "" + ref == ref;
  }

  /** The short name of a branch of the remote, and of a tag, is what follows the prefix; a branch of a remote whose
      name only starts alike is no branch of this one. */
  lemma ShortNames(remote: string, name: string, more: string)
    requires '/' !in remote && '/' !in more && more != ""
    ensures TrimPrefix("refs/remotes/" + remote + "/" + name, RemotePrefix(remote)) == name
    ensures HasPrefix("refs/remotes/" + remote + "/" + name, RemotePrefix(remote))
    ensures TrimPrefix("refs/tags/" + name, TAGS) == name && HasPrefix("refs/tags/" + name, TAGS)
    ensures !HasPrefix("refs/remotes/" + remote + more + "/" + name, RemotePrefix(remote))
  {
    var p := RemotePrefix(remote);
    assert "refs/remotes/" + remote + "/" + name == p + name;
    var other := "refs/remotes/" + remote + more + "/" + name;
    var at := |"refs/remotes/" + remote|;
    assert p[at] == '/' && other[at] == more[0];
  }

  /** A snapshot holds exactly the remote's tracking refs and the tags, with their hashes. */
  lemma SnapshotHolds(refs: Refs, remote: string, r: Ref)
    ensures r in Snapshot(refs, remote) <==> r in refs && (("refs/remotes/" + remote + "/") <= r || "refs/tags/" <= r)
    ensures r in Snapshot(refs, remote) ==> Snapshot(refs, remote)[r] == refs[r]
  {
  }

  /** The remote-tracking refs of a snapshot. */
  function Tracked(refs: Refs, remote: string): set<Ref> {
    set r <- refs | HasPrefix(r, RemotePrefix(remote))
  }

  function WithPrefix(prefix: string, names: seq<string>): set<Ref> {
    set n <- names :: prefix + n
  }

  /** Main result, conservation: the tracking refs after the fetch are those before it without the deleted and with the
      new ones; and the names carry no tag and no branch of another remote. */
  lemma ListsAccountForEveryRef(result: FetchResult, remote: string, before: Refs, after: Refs)
    requires Describes(result, remote, before, after)
    ensures Tracked(after, remote)
            == Tracked(before, remote) - WithPrefix(RemotePrefix(remote), result.deleted)
               + WithPrefix(RemotePrefix(remote), result.newBranches)
    ensures WithPrefix(TAGS, result.newTags) <= after.Keys - before.Keys
  {
    hide Lists, WithPrefix;
    var prefix := RemotePrefix(remote);
    PrefixedIs(result.deleted, prefix, Pruned(before, after, prefix));
    PrefixedIs(result.newBranches, prefix, Created(before, after, prefix));
    PrefixedIs(result.newTags, TAGS, Created(before, after, TAGS));
    TrackedAfter(remote, before, after);
  }

  lemma TrackedAfter(remote: string, before: Refs, after: Refs)
    ensures Tracked(after, remote)
            == Tracked(before, remote) - Pruned(before, after, RemotePrefix(remote))
               + Created(before, after, RemotePrefix(remote))
  {
  }

  /** Adding the prefix again recovers the refs. */
  lemma PrefixedIs(names: seq<string>, prefix: string, refs: set<Ref>)
    requires Lists(names, prefix, refs)
    ensures WithPrefix(prefix, names) == refs && |names| == |refs|
  {
    forall r <- refs ensures r in WithPrefix(prefix, names) {
      assert prefix + TrimPrefix(r, prefix) == r;
    }
    CountNames(names, prefix);
  }

  lemma {:induction false} CountNames(names: seq<string>, prefix: string)
    requires NoDuplicates(names)
    ensures |WithPrefix(prefix, names)| == |names|
  {
    if names != [] {
      var n := |names| - 1;
      var last, rest := names[n], names[..n];
      CountNames(rest, prefix);
      assert names == rest + [last];
      assert WithPrefix(prefix, names) == WithPrefix(prefix, rest) + {prefix + last};
      forall m <- rest ensures prefix + m != prefix + last {
        assert m != last;
        assert (prefix + m)[|prefix|..] == m && (prefix + last)[|prefix|..] == last;
      }
    }
  }
}
