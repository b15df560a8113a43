/** Commit history: an append-only store, ancestry, merge bases and the log walk. */
module History {
  import opened Basics
  import opened Trees

  datatype Commit = Commit(parents: seq<nat>, tree: Tree, message: string, author: string)

  /** A commit is named by its position; parents are always older. Positions follow commit date. */
  type Store = s: seq<Commit> | ParentsAreOlder(s) witness []

  predicate ParentsAreOlder(s: seq<Commit>) {
    forall i, j :: 0 <= i < |s| && 0 <= j < |s[i].parents| ==> s[i].parents[j] < i
  }

  predicate IsAncestor(s: Store, a: nat, d: nat)
    requires d < |s|
    decreases d
  {
    a == d || exists j :: 0 <= j < |s[d].parents| && IsAncestor(s, a, s[d].parents[j])
  }

  /** The newest commit below `bound` that both sides descend from. */
  function CommonBelow(s: Store, a: nat, b: nat, bound: nat): Option<nat>
    requires a < |s| && b < |s|
  {
    if bound == 0 then None
    else if IsAncestor(s, bound - 1, a) && IsAncestor(s, bound - 1, b) then Some(bound - 1)
    else CommonBelow(s, a, b, bound - 1)
  }

  function MergeBase(s: Store, a: nat, b: nat): Option<nat>
    requires a < |s| && b < |s|
  {
    CommonBelow(s, a, b, a + 1)
  }

  /** Some commit is an ancestor of both. */
  ghost predicate Related(s: Store, a: nat, b: nat)
    requires a < |s| && b < |s|
  {
    exists x: nat :: IsAncestor(s, x, a) && IsAncestor(s, x, b)
  }

  predicate InStore(s: Store, cs: seq<nat>) {
    forall i :: 0 <= i < |cs| ==> cs[i] < |s|
  }

  function Unseen(s: Store, seen: set<nat>): set<nat> {
    set i: nat | i < |s| && i !in seen
  }

  /** Preorder walk over the history, each commit once: the order of the log iterator. */
  function Walk(s: Store, pending: seq<nat>, seen: set<nat>): seq<nat>
    requires InStore(s, pending)
    decreases Unseen(s, seen), |pending|
  {
    if pending == [] then []
    else if pending[0] in seen then
      Walk(s, pending[1..], seen)
    else
      var c := pending[0];
      assert c in Unseen(s, seen) && c !in Unseen(s, seen + {c});
      [c] + Walk(s, s[c].parents + pending[1..], seen + {c})
  }

  function Before(xs: seq<nat>, x: nat): seq<nat> {
    if xs == [] || xs[0] == x then [] else [xs[0]] + Before(xs[1..], x)
  }

  /** The commits the log shows from `tip` before it meets `base`, newest first. */
  function Between(s: Store, base: nat, tip: nat): seq<nat>
    requires tip < |s|
  {
    Before(Walk(s, [tip], {}), base)
  }

  method GetCommitsBetween(s: Store, base: nat, tip: nat) returns (commits: seq<nat>)
    requires tip < |s|
    ensures commits == Between(s, base, tip)
  {
    var log := Walk(s, [tip], {});
    commits := [];
    var i := 0;
    while i < |log| && log[i] != base
      invariant 0 <= i <= |log|
      invariant commits + Before(log[i..], base) == Before(log, base)
    {
      commits := commits + [log[i]];
      assert log[i..][1..] == log[i + 1..];
      i := i + 1;
    }
  }

  // ---------------------------------------------------------------- ancestry

  lemma {:induction false} AncestorNotNewer(s: Store, a: nat, d: nat)
    requires d < |s| && IsAncestor(s, a, d)
    ensures a <= d
    decreases d
  {
    if a != d {
      var j :| 0 <= j < |s[d].parents| && IsAncestor(s, a, s[d].parents[j]);
      AncestorNotNewer(s, a, s[d].parents[j]);
    }
  }

  lemma {:induction false} AncestorTransitive(s: Store, a: nat, b: nat, c: nat)
    requires b < |s| && c < |s|
    requires IsAncestor(s, a, b) && IsAncestor(s, b, c)
    ensures IsAncestor(s, a, c)
    decreases c
  {
    if b != c {
      var j :| 0 <= j < |s[c].parents| && IsAncestor(s, b, s[c].parents[j]);
      AncestorTransitive(s, a, b, s[c].parents[j]);
    }
  }

  lemma {:induction false} CommonBelowIsNewest(s: Store, a: nat, b: nat, bound: nat)
    requires a < |s| && b < |s|
    ensures match CommonBelow(s, a, b, bound)
            case Some(m) => m < bound && IsAncestor(s, m, a) && IsAncestor(s, m, b)
                            && forall x: nat :: m < x < bound ==> !(IsAncestor(s, x, a) && IsAncestor(s, x, b))
            case None => forall x: nat :: x < bound ==> !(IsAncestor(s, x, a) && IsAncestor(s, x, b))
  {
    if bound > 0 {
      CommonBelowIsNewest(s, a, b, bound - 1);
    }
  }

  /** The merge base is a common ancestor, and every common ancestor is at most as new;
      so none of them descends from it. */
  lemma MergeBaseIsBest(s: Store, a: nat, b: nat)
    requires a < |s| && b < |s|
    ensures match MergeBase(s, a, b)
            case Some(m) => IsAncestor(s, m, a) && IsAncestor(s, m, b)
                            && forall x: nat :: IsAncestor(s, x, a) && IsAncestor(s, x, b) ==> x <= m
            case None => forall x: nat :: !(IsAncestor(s, x, a) && IsAncestor(s, x, b))
  {
    CommonBelowIsNewest(s, a, b, a + 1);
    forall x: nat | IsAncestor(s, x, a) ensures x < a + 1 {
      AncestorNotNewer(s, x, a);
    }
  }

  lemma MergeBaseSymmetric(s: Store, a: nat, b: nat)
    requires a < |s| && b < |s|
    ensures MergeBase(s, a, b) == MergeBase(s, b, a)
  {
    MergeBaseIsBest(s, a, b);
    MergeBaseIsBest(s, b, a);
  }

  /** When one side is an ancestor of the other it is the merge base. */
  lemma MergeBaseOfAncestor(s: Store, a: nat, b: nat)
    requires a < |s| && b < |s| && IsAncestor(s, a, b)
    ensures MergeBase(s, a, b) == Some(a)
  {
    MergeBaseIsBest(s, a, b);
    assert IsAncestor(s, a, a);
    forall x: nat | IsAncestor(s, x, a) ensures x <= a {
      AncestorNotNewer(s, x, a);
    }
  }

  // ------------------------------------------------- growing the store changes no old answer

  lemma {:induction false} AncestorStable(s: Store, grown: Store, a: nat, d: nat)
    requires s <= grown && d < |s|
    ensures IsAncestor(s, a, d) == IsAncestor(grown, a, d)
    decreases d
  {
    assert s[d] == grown[d];
    forall j | 0 <= j < |s[d].parents|
      ensures IsAncestor(s, a, s[d].parents[j]) == IsAncestor(grown, a, s[d].parents[j])
    {
      AncestorStable(s, grown, a, s[d].parents[j]);
    }
  }

  lemma {:induction false} CommonBelowStable(s: Store, grown: Store, a: nat, b: nat, bound: nat)
    requires s <= grown && a < |s| && b < |s|
    ensures CommonBelow(s, a, b, bound) == CommonBelow(grown, a, b, bound)
  {
    if bound > 0 {
      AncestorStable(s, grown, bound - 1, a);
      AncestorStable(s, grown, bound - 1, b);
      CommonBelowStable(s, grown, a, b, bound - 1);
    }
  }

  lemma {:induction false} WalkStable(s: Store, grown: Store, pending: seq<nat>, seen: set<nat>)
    requires s <= grown
    requires InStore(s, pending)
    ensures Walk(s, pending, seen) == Walk(grown, pending, seen)
    decreases Unseen(s, seen), |pending|
  {
    if pending == [] {
    } else if pending[0] in seen {
      WalkStable(s, grown, pending[1..], seen);
    } else {
      var c := pending[0];
      assert s[c] == grown[c];
      assert c in Unseen(s, seen) && c !in Unseen(s, seen + {c});
      WalkStable(s, grown, s[c].parents + pending[1..], seen + {c});
    }
  }

  /** The commits to replay, computed again after any number of new commits, are the same list. */
  lemma PlanStable(s: Store, grown: Store, a: nat, b: nat)
    requires s <= grown && a < |s| && b < |s|
    ensures MergeBase(s, a, b) == MergeBase(grown, a, b)
    ensures forall base: nat :: Between(s, base, a) == Between(grown, base, a)
  {
    CommonBelowStable(s, grown, a, b, a + 1);
    WalkStable(s, grown, [a], {});
  }

  lemma {:induction false} WalkInStore(s: Store, pending: seq<nat>, seen: set<nat>)
    requires InStore(s, pending)
    ensures InStore(s, Walk(s, pending, seen))
    decreases Unseen(s, seen), |pending|
  {
    if pending == [] {
    } else if pending[0] in seen {
      WalkInStore(s, pending[1..], seen);
    } else {
      var c := pending[0];
      assert c in Unseen(s, seen) && c !in Unseen(s, seen + {c});
      WalkInStore(s, s[c].parents + pending[1..], seen + {c});
    }
  }

  lemma {:induction false} BeforeWithin(xs: seq<nat>, x: nat)
    ensures forall c :: c in Before(xs, x) ==> c in xs && c != x
  {
    if xs != [] && xs[0] != x {
      BeforeWithin(xs[1..], x);
    }
  }

  lemma BetweenInStore(s: Store, base: nat, tip: nat)
    requires tip < |s|
    ensures InStore(s, Between(s, base, tip)) && base !in Between(s, base, tip)
  {
    WalkInStore(s, [tip], {});
    BeforeWithin(Walk(s, [tip], {}), base);
    var cs := Between(s, base, tip);
    forall i | 0 <= i < |cs| ensures cs[i] < |s| {
      assert cs[i] in Walk(s, [tip], {});
    }
  }

  // ---------------------------------------------------------------- single-parent histories

  /** Every commit after `base` up to `tip` has exactly one parent. */
  predicate Linear(s: Store, base: nat, tip: nat)
    requires tip < |s|
    decreases tip
  {
    base == tip || (|s[tip].parents| == 1 && Linear(s, base, s[tip].parents[0]))
  }

  /** The commits after `base` up to `tip` on a linear history, newest first. */
  function Chain(s: Store, base: nat, tip: nat): seq<nat>
    requires tip < |s| && Linear(s, base, tip)
    decreases tip
  {
    if base == tip then [] else [tip] + Chain(s, base, s[tip].parents[0])
  }

  lemma {:induction false} WalkOfLinear(s: Store, base: nat, tip: nat, seen: set<nat>)
    requires tip < |s| && Linear(s, base, tip)
    requires forall c :: c in seen ==> tip < c
    ensures Before(Walk(s, [tip], seen), base) == Chain(s, base, tip)
    decreases tip
  {
    if base != tip {
      var p := s[tip].parents[0];
      assert s[tip].parents + [tip][1..] == [p];
      WalkOfLinear(s, base, p, seen + {tip});
      assert Walk(s, [tip], seen) == [tip] + Walk(s, [p], seen + {tip});
    }
  }

  lemma {:induction false} ChainMembers(s: Store, base: nat, tip: nat, c: nat)
    requires tip < |s| && Linear(s, base, tip)
    ensures base <= tip && IsAncestor(s, base, tip)
    ensures c in Chain(s, base, tip) ==> base < c <= tip
    ensures c in Chain(s, base, tip) <==> IsAncestor(s, c, tip) && !IsAncestor(s, c, base)
    decreases tip
  {
    if base == tip {
    } else {
      var p := s[tip].parents[0];
      ChainMembers(s, base, p, c);
      assert IsAncestor(s, base, s[tip].parents[0]);
      assert IsAncestor(s, c, tip) <==> c == tip || IsAncestor(s, c, p);
      if IsAncestor(s, c, base) { AncestorNotNewer(s, c, base); }
    }
  }

  /** On a single-parent history GetCommitsBetween(base, tip) is exactly the commits that are
      reachable from `tip` and not from `base`. */
  lemma BetweenIsExact(s: Store, base: nat, tip: nat, c: nat)
    requires base < |s| && tip < |s| && Linear(s, base, tip)
    ensures Between(s, base, tip) == Chain(s, base, tip)
    ensures c in Between(s, base, tip) <==> IsAncestor(s, c, tip) && !IsAncestor(s, c, base)
  {
    WalkOfLinear(s, base, tip, {});
    ChainMembers(s, base, tip, c);
  }
}
