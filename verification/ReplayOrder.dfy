/** What a replay leaves at each path, and when that is the branch's net change. */
module ReplayOrder {
  import opened Basics
  import opened Trees
  import opened History
  import opened Repository
  import opened RebaseProgress
  import opened RebaseTheorems

  /** Commit `c` itself changes path p. */
  predicate Touches(s: Store, c: nat, p: Path) {
    c < |s| && s[c].parents != [] && At(ParentTree(s, c), p) != At(s[c].tree, p)
  }

  predicate TouchedBy(s: Store, order: seq<nat>, p: Path) {
    exists j :: 0 <= j < |order| && Touches(s, order[j], p)
  }

  lemma NextTreeAt(s: Store, c: nat, t: Tree, p: Path)
    requires c < |s|
    ensures At(NextTree(s, c, t), p) == if Touches(s, c, p) then At(s[c].tree, p) else At(t, p)
  {
    if s[c].parents != [] {
      OverlayAt(t, ParentTree(s, c), s[c].tree, p);
    }
  }

  /** A path no step from j on touches keeps what step j left there. */
  lemma {:induction false} UntouchedStays(s: Store, order: seq<nat>, t: Tree, j: nat, k: nat, p: Path)
    requires InStore(s, order) && j <= k <= |order|
    requires forall i :: j <= i < k ==> !Touches(s, order[i], p)
    ensures At(TreeAfter(s, order, t, k), p) == At(TreeAfter(s, order, t, j), p)
    decreases k
  {
    if j < k {
      UntouchedStays(s, order, t, j, k - 1, p);
      NextTreeAt(s, order[k - 1], TreeAfter(s, order, t, k - 1), p);
    }
  }

  /** Whatever was there before, the last step that touches a path decides it. */
  lemma LastTouchDecides(s: Store, order: seq<nat>, t: Tree, j: nat, p: Path)
    requires InStore(s, order) && j < |order| && Touches(s, order[j], p)
    requires forall i :: j < i < |order| ==> !Touches(s, order[i], p)
    ensures At(TreeAfter(s, order, t, |order|), p) == At(s[order[j]].tree, p)
  {
    NextTreeAt(s, order[j], TreeAfter(s, order, t, j), p);
    UntouchedStays(s, order, t, j + 1, |order|, p);
  }

  lemma {:induction false} LastTouch(s: Store, order: seq<nat>, k: nat, p: Path) returns (j: nat)
    requires k <= |order| && exists i :: 0 <= i < k && Touches(s, order[i], p)
    ensures j < k && Touches(s, order[j], p) && forall i :: j < i < k ==> !Touches(s, order[i], p)
  {
    j := k - 1;
    if !Touches(s, order[j], p) {
      j := LastTouch(s, order, k - 1, p);
    }
  }

  // ---------------------------------------------------------------- linear histories

  lemma {:induction false} ChainInStore(s: Store, base: nat, tip: nat)
    requires tip < |s| && Linear(s, base, tip)
    ensures InStore(s, Chain(s, base, tip))
    ensures forall i, j :: 0 <= i < j < |Chain(s, base, tip)| ==> Chain(s, base, tip)[i] > Chain(s, base, tip)[j]
    ensures forall i :: 0 <= i < |Chain(s, base, tip)| ==> base < Chain(s, base, tip)[i] <= tip
    decreases tip
  {
    if base != tip {
      ChainInStore(s, base, s[tip].parents[0]);
      ChainMembers(s, base, s[tip].parents[0], base);
    }
  }

  /** Across a linear history a path changes only where a commit touches it. */
  lemma {:induction false} UntouchedInHistory(s: Store, base: nat, tip: nat, p: Path)
    requires tip < |s| && base < |s| && Linear(s, base, tip) && !TouchedBy(s, Chain(s, base, tip), p)
    ensures At(s[base].tree, p) == At(s[tip].tree, p)
    decreases tip
  {
    if base != tip {
      var parent := s[tip].parents[0];
      var chain := Chain(s, base, tip);
      assert !Touches(s, chain[0], p);
      forall j | 0 <= j < |Chain(s, base, parent)| ensures !Touches(s, Chain(s, base, parent)[j], p) {
        assert chain[j + 1] == Chain(s, base, parent)[j];
      }
      UntouchedInHistory(s, base, parent, p);
    }
  }

  /** The newest commit that touches a path decides the branch's entry. */
  lemma {:induction false} NewestTouchAtTip(s: Store, base: nat, tip: nat, i: nat, p: Path)
    requires tip < |s| && Linear(s, base, tip) && i < |Chain(s, base, tip)| && Touches(s, Chain(s, base, tip)[i], p)
    requires forall j :: 0 <= j < i ==> !Touches(s, Chain(s, base, tip)[j], p)
    ensures At(s[tip].tree, p) == At(s[Chain(s, base, tip)[i]].tree, p)
    decreases tip
  {
    if i > 0 {
      var chain, rest := Chain(s, base, tip), Chain(s, base, s[tip].parents[0]);
      assert chain[1..] == rest && !Touches(s, chain[0], p);
      forall j | 0 <= j < i - 1 ensures !Touches(s, rest[j], p) {
        assert rest[j] == chain[j + 1];
      }
      NewestTouchAtTip(s, base, s[tip].parents[0], i - 1, p);
    }
  }

  /** The oldest commit that touches a path changes it from the base's entry. */
  lemma {:induction false} OldestTouchAtBase(s: Store, base: nat, tip: nat, i: nat, p: Path)
    requires tip < |s| && base < |s| && Linear(s, base, tip)
    requires i < |Chain(s, base, tip)| && Touches(s, Chain(s, base, tip)[i], p)
    requires forall j :: i < j < |Chain(s, base, tip)| ==> !Touches(s, Chain(s, base, tip)[j], p)
    ensures At(s[base].tree, p) == At(ParentTree(s, Chain(s, base, tip)[i]), p)
    decreases tip
  {
    var chain, rest := Chain(s, base, tip), Chain(s, base, s[tip].parents[0]);
    assert chain[1..] == rest;
    forall j | i <= j < |rest| ensures !Touches(s, rest[j], p) {
      assert rest[j] == chain[j + 1];
    }
    if i == 0 {
      UntouchedInHistory(s, base, s[tip].parents[0], p);
    } else {
      OldestTouchAtBase(s, base, s[tip].parents[0], i - 1, p);
    }
  }

  // ---------------------------------------------------------------- disjoint commits

  /** No path is touched by two of the replayed commits. */
  ghost predicate PairwiseDisjoint(s: Store, commits: seq<nat>) {
    forall c: nat, d: nat, p: Path :: c in commits && d in commits && Touches(s, c, p) && Touches(s, d, p) ==> c == d
  }

  /** Main result: on a single-parent history of path-disjoint commits every replay order ends in `onto` overlaid with
      the net change from the base to the branch tip, so no other file of `onto` is lost. */
  lemma DisjointReplayIsNetChange(s: Store, base: nat, tip: nat, onto: Tree, order: seq<nat>)
    requires tip < |s| && base < |s| && Linear(s, base, tip)
    requires multiset(order) == multiset(Chain(s, base, tip)) && PairwiseDisjoint(s, order)
    ensures InStore(s, order)
    ensures TreeAfter(s, order, onto, |order|) == Overlay(onto, s[base].tree, s[tip].tree)
  {
    var chain := Chain(s, base, tip);
    ChainInStore(s, base, tip);
    SameMembers(order, chain);
    forall i | 0 <= i < |order| ensures order[i] < |s| {
      assert order[i] in chain;
    }
    var result, wanted := TreeAfter(s, order, onto, |order|), Overlay(onto, s[base].tree, s[tip].tree);
    forall p: Path ensures At(result, p) == At(wanted, p) {
      OverlayAt(onto, s[base].tree, s[tip].tree, p);
      if TouchedBy(s, order, p) {
        var j := LastTouch(s, order, |order|, p);
        LastTouchDecides(s, order, onto, j, p);
        OnlyToucher(s, base, tip, order, order[j], p);
      } else {
        UntouchedStays(s, order, onto, 0, |order|, p);
        forall i | 0 <= i < |chain| ensures !Touches(s, chain[i], p) {
          assert chain[i] in order;
        }
        UntouchedInHistory(s, base, tip, p);
      }
    }
    SameTree(result, wanted);
  }

  lemma SameMembers(a: seq<nat>, b: seq<nat>)
    requires multiset(a) == multiset(b)
    ensures forall c :: c in a <==> c in b
  {
    forall c ensures c in a <==> c in b {
      assert c in multiset(a) <==> c in multiset(b);
    }
  }

  lemma OnlyToucher(s: Store, base: nat, tip: nat, order: seq<nat>, c: nat, p: Path)
    requires tip < |s| && base < |s| && Linear(s, base, tip)
    requires (forall d :: d in order <==> d in Chain(s, base, tip)) && PairwiseDisjoint(s, order)
    requires c in order && Touches(s, c, p)
    ensures At(s[tip].tree, p) == At(s[c].tree, p) && At(s[base].tree, p) == At(ParentTree(s, c), p)
  {
    var chain := Chain(s, base, tip);
    ChainInStore(s, base, tip);
    var i :| 0 <= i < |chain| && chain[i] == c;
    forall j | 0 <= j < |chain| && j != i ensures !Touches(s, chain[j], p) {
      assert chain[j] in chain && chain[j] != c;
    }
    NewestTouchAtTip(s, base, tip, i, p);
    OldestTouchAtBase(s, base, tip, i, p);
  }

  // ---------------------------------------------------------------- the order the code uses

  /** No commit of the chain older than c touches p. */
  predicate OldestTouch(s: Store, chain: seq<nat>, c: nat, p: Path) {
    c in chain && Touches(s, c, p) && forall d :: d in chain && d < c ==> !Touches(s, d, p)
  }

  /** Replaying newest first, the OLDEST commit that touches a path decides it. */
  lemma OldestTouchDecides(s: Store, base: nat, tip: nat, onto: Tree, c: nat, p: Path)
    requires tip < |s| && Linear(s, base, tip) && OldestTouch(s, Chain(s, base, tip), c, p)
    ensures InStore(s, Chain(s, base, tip))
    ensures At(TreeAfter(s, Chain(s, base, tip), onto, |Chain(s, base, tip)|), p) == At(s[c].tree, p)
  {
    var chain := Chain(s, base, tip);
    ChainInStore(s, base, tip);
    var i :| 0 <= i < |chain| && chain[i] == c;
    forall j | i < j < |chain| ensures !Touches(s, chain[j], p) {
      assert chain[j] in chain && chain[j] < c;
    }
    LastTouchDecides(s, chain, onto, i, p);
  }

  /** What the net change on top of `onto` leaves at a path. */
  function NetChangeAt(s: Store, base: nat, tip: nat, onto: Tree, p: Path): Option<Entry>
    requires tip < |s| && base < |s|
  {
    if At(s[base].tree, p) != At(s[tip].tree, p) then At(s[tip].tree, p) else At(onto, p)
  }

  /** For every path some replayed commit touches: its oldest version on the branch is the newest one,
      or, where the branch ends as it began, what `onto` holds. */
  ghost predicate OldestVersionsAgree(s: Store, base: nat, tip: nat, onto: Tree)
    requires tip < |s| && base < |s| && Linear(s, base, tip)
  {
    forall c: nat, p: Path :: OldestTouch(s, Chain(s, base, tip), c, p) ==>
      At(s[c].tree, p) == NetChangeAt(s, base, tip, onto, p)
  }

  /** Where nothing or an agreeing oldest version decides, the replay leaves the net change. */
  lemma ReplayedPathIsNetChange(s: Store, base: nat, tip: nat, onto: Tree, chain: seq<nat>, p: Path)
    requires tip < |s| && base < |s| && Linear(s, base, tip) && chain == Chain(s, base, tip) && InStore(s, chain)
    requires OldestVersionsAgree(s, base, tip, onto)
    ensures At(TreeAfter(s, chain, onto, |chain|), p) == NetChangeAt(s, base, tip, onto, p)
  {
    hide TreeAfter, Linear, Chain;
    if TouchedBy(s, chain, p) {
      ChainInStore(s, base, tip);
      var j := LastTouch(s, chain, |chain|, p);
      assert OldestTouch(s, chain, chain[j], p);
      OldestTouchDecides(s, base, tip, onto, chain[j], p);
    } else {
      UntouchedStays(s, chain, onto, 0, |chain|, p);
      UntouchedInHistory(s, base, tip, p);
      assert TreeAfter(s, chain, onto, 0) == onto by { StartOfReplay(s, chain, onto); }
    }
  }

  lemma StartOfReplay(s: Store, order: seq<nat>, t: Tree)
    requires InStore(s, order)
    ensures TreeAfter(s, order, t, 0) == t
  {
  }

  /** Main result: on a single-parent history the rebased tree is the branch's net change on top of `onto` exactly
      when for every touched path the oldest version agrees with the wanted one. */
  lemma RebasedTreeIsNetChangeIff(s: Store, base: nat, tip: nat, onto: Tree)
    requires tip < |s| && base < |s| && Linear(s, base, tip)
    ensures InStore(s, Chain(s, base, tip))
    ensures TreeAfter(s, Chain(s, base, tip), onto, |Chain(s, base, tip)|) == Overlay(onto, s[base].tree, s[tip].tree)
            <==> OldestVersionsAgree(s, base, tip, onto)
  {
    var chain := Chain(s, base, tip);
    ChainInStore(s, base, tip);
    hide TreeAfter, Linear, Chain, Overlay;
    var result, wanted := TreeAfter(s, chain, onto, |chain|), Overlay(onto, s[base].tree, s[tip].tree);
    forall p: Path ensures At(wanted, p) == NetChangeAt(s, base, tip, onto, p) {
      OverlayAt(onto, s[base].tree, s[tip].tree, p);
    }
    if result == wanted {
      forall c: nat, p: Path | OldestTouch(s, chain, c, p) ensures At(s[c].tree, p) == NetChangeAt(s, base, tip, onto, p) {
        OldestTouchDecides(s, base, tip, onto, c, p);
      }
    }
    if OldestVersionsAgree(s, base, tip, onto) {
      forall p: Path ensures At(result, p) == At(wanted, p) {
        ReplayedPathIsNetChange(s, base, tip, onto, chain, p);
      }
      SameTree(result, wanted);
    }
  }

  /** The finished rebase of such a history carries exactly the net change under the same condition. */
  lemma RebaseKeepsNetChange(o: Repo, onto: nat, base: nat, plan: seq<nat>, ios: Script, after: Repo)
    requires Planned(o, onto, plan) && Honest(o.store, plan, ios)
    requires MergeBase(o.store, Tip(o), onto) == Some(base) && base < |o.store| && Linear(o.store, base, Tip(o))
    requires RebaseStep(o, Some(onto), SetupWorks, ios, Done, after)
    ensures HeadTree(after) == Overlay(o.store[onto].tree, o.store[base].tree, HeadTree(o))
            <==> OldestVersionsAgree(o.store, base, Tip(o), o.store[onto].tree)
    ensures PairwiseDisjoint(o.store, plan) ==> HeadTree(after) == Overlay(o.store[onto].tree, o.store[base].tree, HeadTree(o))
  {
    hide RebaseStep, Honest, TreeAfter, LogAfter, BranchLog, OldestVersionsAgree, Overlay;
    StartKeeps(o, onto, plan, ios, Done, after);
    BetweenIsExact(o.store, base, Tip(o), base);
    RebasedTreeIsNetChangeIff(o.store, base, Tip(o), o.store[onto].tree);
    if PairwiseDisjoint(o.store, plan) {
      DisjointReplayIsNetChange(o.store, base, Tip(o), o.store[onto].tree, plan);
    }
  }

  /** Replayed onto its own base, a branch of path-disjoint commits gives its own tip back. */
  lemma ReplayOnBaseIsTheBranch(s: Store, base: nat, tip: nat, order: seq<nat>)
    requires tip < |s| && base < |s| && Linear(s, base, tip)
    requires multiset(order) == multiset(Chain(s, base, tip)) && PairwiseDisjoint(s, order)
    ensures InStore(s, order) && TreeAfter(s, order, s[base].tree, |order|) == s[tip].tree
  {
    DisjointReplayIsNetChange(s, base, tip, s[base].tree, order);
    OverlayOfBase(s[base].tree, s[tip].tree);
  }

  // ---------------------------------------------------------------- a rebase that keeps the older edit

  /** A branch whose two commits edit one file, and a commit beside it. */
  function TwoEdits(): Store {
    [Commit([], map[], "base", ""),
     Commit([0], map["f" := "first"], "one", ""),
     Commit([1], map["f" := "second"], "two", ""),
     Commit([0], map["g" := "other"], "onto", "")]
  }

  /** The branch of the edits is checked out and clean. */
  function TwoEditsBranch(): Repo {
    var t: Tree := map["f" := "second"];
    Snapshot(TwoEdits(), map["refs/heads/topic" := 2], "refs/heads/topic", t, t, None)
  }

  lemma TwoEditsPlan(s: Store)
    requires s == TwoEdits()
    ensures Linear(s, 0, 2) && Chain(s, 0, 2) == [2, 1]
    ensures MergeBase(s, 2, 3) == Some(0) && Plan(s, 2, 3) == Some([2, 1])
  {
    assert !IsAncestor(s, 2, 0) && !IsAncestor(s, 1, 0) && !IsAncestor(s, 2, 3) && !IsAncestor(s, 1, 3);
    assert IsAncestor(s, 0, s[1].parents[0]) && IsAncestor(s, 0, s[2].parents[0]) && IsAncestor(s, 0, s[3].parents[0]);
    assert CommonBelow(s, 2, 3, 1) == Some(0) && CommonBelow(s, 2, 3, 2) == Some(0) && CommonBelow(s, 2, 3, 3) == Some(0);
    assert Linear(s, 0, 0) && Linear(s, 0, 1) && Linear(s, 0, 2);
    assert Chain(s, 0, 1) == [1] + Chain(s, 0, 0);
    BetweenIsExact(s, 0, 2, 1);
  }

  lemma TwoEditsTrees(s: Store, t: Tree)
    requires s == TwoEdits() && t == s[3].tree
    ensures At(TreeAfter(s, [2, 1], t, 0), "f") == None
    ensures At(TreeAfter(s, [2, 1], t, 1), "f") == Some("second")
    ensures At(TreeAfter(s, [2, 1], t, 2), "f") == Some("first")
  {
    NextTreeAt(s, 2, TreeAfter(s, [2, 1], t, 0), "f");
    NextTreeAt(s, 1, TreeAfter(s, [2, 1], t, 1), "f");
  }

  lemma TwoEditsIsPlanned(o: Repo)
    requires o == TwoEditsBranch()
    ensures Planned(o, 3, [2, 1]) && Plan(o.store, 2, 3) == Some([2, 1]) && At(HeadTree(o), "f") == Some("second")
  {
    TwoEditsPlan(o.store);
    hide Plan;
    assert Tip(o) == 2 && |o.store| == 4;
  }

  /** Both steps change the tree they land on, and no fault touches them. */
  lemma TwoEditsStepsWork(o: Repo)
    requires o.store == TwoEdits() && Known(o, 3, [2, 1])
    ensures AllChange(o, 3, [2, 1], 0) && Honest(o.store, [2, 1], FAULTLESS)
    ensures At(TreeAfter(o.store, [2, 1], o.store[3].tree, 2), "f") == Some("first")
  {
    TwoEditsTrees(o.store, o.store[3].tree);
    hide TreeAfter, TwoEdits, Diff;
  }

  /** The net change is not always kept: without any fault this Rebase call completes, and the branch ends with its
      first edit. */
  lemma RebaseCanKeepTheOlderEdit(out: Outcome, after: Repo)
    requires RebaseStep(TwoEditsBranch(), Some(3), SetupWorks, FAULTLESS, out, after)
    ensures out == Done && At(HeadTree(TwoEditsBranch()), "f") == Some("second") && At(HeadTree(after), "f") == Some("first")
    ensures Plan(TwoEdits(), 2, 3) == Some([2, 1])
  {
    var o := TwoEditsBranch();
    TwoEditsIsPlanned(o);
    TwoEditsStepsWork(o);
    hide TwoEdits, Planned, Known, Honest, AllChange, RebaseStep, TreeAfter, LogAfter, BranchLog, Plan;
    UndisturbedRebaseCompletes(o, 3, [2, 1], FAULTLESS, out, after);
    StartKeeps(o, 3, [2, 1], FAULTLESS, out, after);
  }
}
