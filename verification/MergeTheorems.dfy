/** What a merge does to the content of a branch. */
module MergeTheorems {
  import opened Basics
  import opened Trees
  import opened History
  import opened Repository

  predicate Clean(r: Repo)
  {
    r.index == HeadTree(r) && r.work == HeadTree(r)
  }

  lemma MergeKeepsRepo(r: Repo, branch: string, opts: MergeOptions, io: IO, me: string, out: Outcome, after: Repo)
    requires MergeStep(r, branch, opts, io, me, out, after)
    ensures r.store <= after.store && after.head == r.head && after.rebase == r.rebase
    ensures forall n :: n != r.head ==> (n in after.refs <==> n in r.refs)
    ensures forall n :: n != r.head && n in r.refs ==> after.refs[n] == r.refs[n]
    ensures out != Done ==> after.store == r.store && after.refs == r.refs
  {
  }

  /** The base of related histories is the tree of a newest common ancestor, that of unrelated ones is empty. */
  lemma BaseIsNewestCommon(s: Store, a: nat, b: nat)
    requires a < |s| && b < |s|
    ensures Related(s, a, b) <==> MergeBase(s, a, b).Some?
    ensures !Related(s, a, b) ==> ChosenBase(s, a, b) == map[]
    ensures Related(s, a, b) ==>
      exists m: nat :: m < |s| && IsAncestor(s, m, a) && IsAncestor(s, m, b) && ChosenBase(s, a, b) == s[m].tree
                       && forall x: nat :: IsAncestor(s, x, a) && IsAncestor(s, x, b) ==> x <= m
  {
    MergeBaseIsBest(s, a, b);
    CommonBelowIsNewest(s, a, b, a + 1);
    hide IsAncestor, CommonBelow;
  }

  /** Main result, refusals: which merges are refused, by the branch, the ancestry and the options alone, and that a
      refused merge touches nothing. A fast-forward-only merge never does more than move HEAD's branch to a
      descendant. */
  lemma MergeRefusals(r: Repo, branch: string, opts: MergeOptions, io: IO, me: string, out: Outcome, after: Repo)
    requires MergeStep(r, branch, opts, io, me, out, after)
    ensures out == BranchNotFound <==> "refs/heads/" + branch !in r.refs
    ensures "refs/heads/" + branch in r.refs ==>
      var b := r.refs["refs/heads/" + branch];
      && (out == NotFastForward <==> opts.ffOnly && !IsAncestor(r.store, Tip(r), b))
      && (out == NoCommonAncestor <==> !opts.ffOnly && !opts.allowUnrelated && !Related(r.store, Tip(r), b))
    ensures out in {BranchNotFound, NotFastForward, NoCommonAncestor, MergeConflict} ==> after == r
    ensures opts.ffOnly ==>
      && after.store == r.store && after.index == r.index && after.work == r.work && after.rebase == r.rebase
      && (after.refs == r.refs
          || ("refs/heads/" + branch in r.refs && IsAncestor(r.store, Tip(r), r.refs["refs/heads/" + branch])
              && after.refs == r.refs[r.head := r.refs["refs/heads/" + branch]]))
  {
    if BranchRef(branch) in r.refs {
      var b := r.refs[BranchRef(branch)];
      BaseIsNewestCommon(r.store, Tip(r), b);
      assert IsAncestor(r.store, b, b);
      assert IsAncestor(r.store, Tip(r), b) ==> Related(r.store, Tip(r), b) by {
        assert IsAncestor(r.store, Tip(r), Tip(r));
      }
      hide IsAncestor, ChosenBase, MergeBase, Related, Committed, StagedIndex, StagedWork, ApplyFails, PartlyStaged;
    }
  }

  /** Main result, the other kinds: a merge of a branch that is HEAD reports success and does nothing; one of a
      descendant moves HEAD's branch there and nothing else. Everything else is attempted as a three-way merge, unless
      refused. */
  lemma MergeKinds(r: Repo, branch: string, opts: MergeOptions, io: IO, me: string, out: Outcome, after: Repo)
    requires MergeStep(r, branch, opts, io, me, out, after) && "refs/heads/" + branch in r.refs
    ensures
      var b := r.refs["refs/heads/" + branch];
      && (b == Tip(r) ==> out == Done && after == r)
      && (IsAncestor(r.store, Tip(r), b) ==> out == Done && after == r.(refs := r.refs[r.head := b]))
      && (MergeVerdict(r, branch, opts).ThreeWay? <==>
          out !in {BranchNotFound, NotFastForward, NoCommonAncestor, MergeConflict} && !IsAncestor(r.store, Tip(r), b))
  {
    var b := r.refs[BranchRef(branch)];
    assert IsAncestor(r.store, b, b);
    assert r.refs[r.head := Tip(r)] == r.refs;
    hide IsAncestor, ChosenBase, MergeBase, Committed, StagedIndex, StagedWork, ApplyFails, PartlyStaged;
  }

  /** The tree a merge produces: staged when the commit is left to the caller, committed otherwise. */
  function ResultTree(r: Repo, branch: string, opts: MergeOptions, after: Repo): Tree
  {
    if MergeVerdict(r, branch, opts).ThreeWay? && opts.noCommit then after.index else HeadTree(after)
  }

  /** What a merge should leave at `p`: the branch's entry where the branch changed it, HEAD's elsewhere. */
  function Wanted(base: Tree, head: Tree, branch: Tree, p: Path): Option<Entry> {
    if At(base, p) != At(branch, p) then At(branch, p) else At(head, p)
  }

  /** Some path the branch deleted could not be deleted; nothing reports this. */
  predicate LosesDeletion(base: Tree, branch: Tree, io: IO) {
    exists p :: p in Diff(base, branch) && p !in branch && p in io
  }

  lemma FastForwardBase(r: Repo, branch: string, opts: MergeOptions)
    requires (MergeVerdict(r, branch, opts).FastForward? || MergeVerdict(r, branch, opts).UpToDate?)
    ensures ChosenBase(r.store, Tip(r), r.refs[BranchRef(branch)]) == HeadTree(r)
  {
    var h, b := Tip(r), r.refs[BranchRef(branch)];
    assert IsAncestor(r.store, h, b);
    MergeBaseOfAncestor(r.store, h, b);
  }

  /** Main result: a successful merge from a clean repository, whatever its kind, gives every path the branch's entry
      where the branch differs from the chosen base and HEAD's entry elsewhere. A three-way merge
      does so exactly when no deletion was lost. */
  lemma MergeGivesBothSides(r: Repo, branch: string, opts: MergeOptions, io: IO, me: string, out: Outcome, after: Repo)
    requires Clean(r) && MergeStep(r, branch, opts, io, me, out, after) && out == Done
    ensures BranchRef(branch) in r.refs
    ensures
      var b := r.refs[BranchRef(branch)];
      var base := ChosenBase(r.store, Tip(r), b);
      (MergeVerdict(r, branch, opts).ThreeWay? ==> !LosesDeletion(base, r.store[b].tree, io))
      <==> forall p: Path :: At(ResultTree(r, branch, opts, after), p) == Wanted(base, HeadTree(r), r.store[b].tree, p)
  {
    MergeKeepsRepo(r, branch, opts, io, me, out, after);
    var b := r.refs[BranchRef(branch)];
    var base, head, source := ChosenBase(r.store, Tip(r), b), HeadTree(r), r.store[b].tree;
    var result := ResultTree(r, branch, opts, after);
    match MergeVerdict(r, branch, opts)
    case UpToDate => FastForwardBase(r, branch, opts);
    case FastForward(_) => FastForwardBase(r, branch, opts);
    case ThreeWay(_, _) =>
      assert result == StagedIndex(head, base, source, io);
      forall p: Path
        ensures At(result, p) == Wanted(base, head, source, p)
                <==> !(p in Diff(base, source) && p !in source && p in io)
      {
        OverlayKeepingAt(head, base, source, io.Keys, p);
        DiffAt(base, source, p);
        DiffAt(base, head, p);
        assert p !in Diff(base, head) * Diff(base, source);
      }
  }

  /** Main result: once a three-way merge is attempted, it reports a conflict exactly when some path changed on both
      sides. */
  lemma ConflictExactlyWhenBothChanged(r: Repo, branch: string, opts: MergeOptions, io: IO, me: string, out: Outcome,
                                       after: Repo)
    requires MergeStep(r, branch, opts, io, me, out, after)
    requires BranchRef(branch) in r.refs && !IsAncestor(r.store, Tip(r), r.refs[BranchRef(branch)]) && !opts.ffOnly
    requires MergeBase(r.store, Tip(r), r.refs[BranchRef(branch)]).Some? || opts.allowUnrelated
    ensures
      var b := r.refs[BranchRef(branch)];
      var base := ChosenBase(r.store, Tip(r), b);
      out == MergeConflict
      <==> exists p: Path :: At(base, p) != At(HeadTree(r), p) && At(base, p) != At(r.store[b].tree, p)
    ensures out == MergeConflict ==> after == r
  {
    var b := r.refs[BranchRef(branch)];
    var base, head, source := ChosenBase(r.store, Tip(r), b), HeadTree(r), r.store[b].tree;
    forall p: Path
      ensures p in Diff(base, head) * Diff(base, source) <==> At(base, p) != At(head, p) && At(base, p) != At(source, p)
    {
      DiffAt(base, head, p);
      DiffAt(base, source, p);
    }
    assert Diff(base, head) * Diff(base, source) != {} <==> exists p :: p in Diff(base, head) * Diff(base, source);
  }

  /** The same repository with the two branch tips exchanged and checked out. */
  function Swapped(r: Repo, branch: string): (s: Repo)
    requires BranchRef(branch) in r.refs && BranchRef(branch) != r.head
    ensures Clean(s) && Tip(s) == r.refs[BranchRef(branch)]
    ensures BranchRef(branch) in s.refs && s.refs[BranchRef(branch)] == Tip(r)
  {
    var b := r.refs[BranchRef(branch)];
    r.(refs := r.refs[r.head := b][BranchRef(branch) := Tip(r)], index := r.store[b].tree, work := r.store[b].tree)
  }

  /** Main result: on diverged branches the conflict verdict and the merged tree do not depend on which side is checked
      out. */
  lemma MergeIsSymmetric(r: Repo, branch: string, opts: MergeOptions, me: string,
                         out: Outcome, after: Repo, out': Outcome, after': Repo)
    requires Clean(r) && BranchRef(branch) in r.refs && BranchRef(branch) != r.head
    requires !IsAncestor(r.store, Tip(r), r.refs[BranchRef(branch)])
    requires !IsAncestor(r.store, r.refs[BranchRef(branch)], Tip(r))
    requires MergeStep(r, branch, opts, map[], me, out, after)
    requires MergeStep(Swapped(r, branch), branch, opts, map[], me, out', after')
    ensures out == MergeConflict <==> out' == MergeConflict
    ensures out == Done && out' == Done ==>
      ResultTree(r, branch, opts, after) == ResultTree(Swapped(r, branch), branch, opts, after')
  {
    var r' := Swapped(r, branch);
    MergeKeepsRepo(r, branch, opts, map[], me, out, after);
    MergeKeepsRepo(r', branch, opts, map[], me, out', after');
    SwappedVerdict(r, branch, opts);
    FaultlessTree(r, branch, opts, me, out, after);
    FaultlessTree(r', branch, opts, me, out', after');
    var v := MergeVerdict(r, branch, opts);
    if v.ThreeWay? {
      OverlayCommutes(v.base, HeadTree(r), r.store[v.other].tree);
    }
  }

  lemma SwappedVerdict(r: Repo, branch: string, opts: MergeOptions)
    requires BranchRef(branch) in r.refs && BranchRef(branch) != r.head
    requires !IsAncestor(r.store, Tip(r), r.refs[BranchRef(branch)])
    requires !IsAncestor(r.store, r.refs[BranchRef(branch)], Tip(r))
    ensures
      var v, v' := MergeVerdict(r, branch, opts), MergeVerdict(Swapped(r, branch), branch, opts);
      if v.ThreeWay? then
        && v.other == r.refs[BranchRef(branch)] && Diff(v.base, HeadTree(r)) * Diff(v.base, r.store[v.other].tree) == {}
        && v' == ThreeWay(v.base, Tip(r))
      else v.Refused? && v' == v
  {
    var h, b := Tip(r), r.refs[BranchRef(branch)];
    MergeBaseSymmetric(r.store, h, b);
    var base, head, source := ChosenBase(r.store, h, b), r.store[h].tree, r.store[b].tree;
    assert Diff(base, head) * Diff(base, source) == Diff(base, source) * Diff(base, head);
  }

  lemma FaultlessTree(r: Repo, branch: string, opts: MergeOptions, me: string, out: Outcome, after: Repo)
    requires Clean(r) && MergeStep(r, branch, opts, map[], me, out, after) && ValidRepo(after)
    ensures
      var v := MergeVerdict(r, branch, opts);
      && (out == MergeConflict <==> v == Refused(MergeConflict))
      && (out == Done && v.ThreeWay? ==>
            ResultTree(r, branch, opts, after) == Overlay(HeadTree(r), v.base, r.store[v.other].tree))
      && (out == Done ==> !v.Refused?)
  {
    var none: IO := map[];
    assert none.Keys == {};
  }

  /** Without disk faults a diverged, conflict-free merge is refused as empty exactly when the branch
      as a whole changed nothing since the base; otherwise it adds one commit with the documented parents. */
  lemma MergeCommitsOnce(r: Repo, branch: string, opts: MergeOptions, me: string, out: Outcome, after: Repo)
    requires Clean(r) && MergeStep(r, branch, opts, map[], me, out, after)
    requires MergeVerdict(r, branch, opts).ThreeWay? && !opts.noCommit
    ensures
      var v := MergeVerdict(r, branch, opts);
      out == (if v.base == r.store[v.other].tree then EmptyCommit else Done)
    ensures out == Done ==>
      && after.store[..|r.store|] == r.store && |after.store| == |r.store| + 1 && after.refs[r.head] == |r.store|
      && after.store[|r.store|].parents == (if opts.squash then [Tip(r)] else [Tip(r), MergeVerdict(r, branch, opts).other])
  {
    var v := MergeVerdict(r, branch, opts);
    var base, head, source := v.base, HeadTree(r), r.store[v.other].tree;
    assert Diff(base, head) * Diff(base, source) == {};
    EmptyMergeIff(base, head, source);
    var none: IO := map[];
    assert none.Keys == {} && !ApplyFails(base, source, none);
    hide MergeVerdict, OverlayKeeping, ApplyFails;
  }

  /** What a fault-free three-way merge of a clean repository leaves: one new commit under the given or the default
      message with the staged tree, checked out and clean; with no-commit the same tree staged and checked out, and
      nothing else changed. */
  lemma MergeLeavesCleanTree(r: Repo, branch: string, opts: MergeOptions, me: string, out: Outcome, after: Repo)
    requires Clean(r) && MergeStep(r, branch, opts, map[], me, out, after) && out == Done
    requires MergeVerdict(r, branch, opts).ThreeWay?
    ensures after.index == after.work == ResultTree(r, branch, opts, after)
    ensures opts.noCommit ==> after.store == r.store && after.refs == r.refs
    ensures !opts.noCommit ==>
      && r.store <= after.store && after.refs == r.refs[r.head := |r.store|] && |after.store| == |r.store| + 1
      && after.store[|r.store|].author == me && after.store[|r.store|].tree == after.index
      && after.store[|r.store|].message == (if opts.message == "" then "Merge branch '" + branch + "'" else opts.message)
  {
    var v := MergeVerdict(r, branch, opts);
    NoFaults(r.index, v.base, r.store[v.other].tree);
    hide MergeVerdict, StagedIndex, StagedWork, ApplyFails;
  }

  lemma NoFaults(t: Tree, base: Tree, source: Tree)
    ensures !ApplyFails(base, source, map[])
    ensures StagedIndex(t, base, source, map[]) == StagedWork(t, base, source, map[]) == Overlay(t, base, source)
  {
    var none: IO := map[];
    assert none.Keys == {};
  }

  /** What a three-way merge leaves in the working tree at a path, and in the index when it fails. A file whose removal
      fails stays in the working tree; a failed merge leaves each path of the index as it was or as the branch has
      it. */
  lemma MergedFiles(r: Repo, branch: string, opts: MergeOptions, io: IO, me: string, out: Outcome, after: Repo, p: Path)
    requires MergeStep(r, branch, opts, io, me, out, after) && MergeVerdict(r, branch, opts).ThreeWay?
    ensures
      var base, source := MergeVerdict(r, branch, opts).base, r.store[MergeVerdict(r, branch, opts).other].tree;
      if out == ApplyFailed then
        At(after.index, p) == At(r.index, p) || (At(base, p) != At(source, p) && At(after.index, p) == At(source, p))
      else
        At(after.work, p) == if At(base, p) != At(source, p) && (p in source || !(p in io && io[p].WriteFails?))
                             then At(source, p) else At(r.work, p)
  {
    var base, source := MergeVerdict(r, branch, opts).base, r.store[MergeVerdict(r, branch, opts).other].tree;
    var stuck := set q | q in io && io[q].WriteFails?;
    OverlayKeepingAt(r.work, base, source, stuck, p);
    hide MergeVerdict, StagedIndex, ApplyFails, OverlayKeeping;
  }

  /** A three-way merge fails while writing exactly when a file the branch changed or added cannot be written or
      staged; a deletion that fails is not among the reasons. */
  lemma ApplyFailsExactlyWhen(r: Repo, branch: string, opts: MergeOptions, io: IO, me: string, out: Outcome,
                              after: Repo)
    requires MergeStep(r, branch, opts, io, me, out, after) && MergeVerdict(r, branch, opts).ThreeWay?
    ensures
      var base, source := MergeVerdict(r, branch, opts).base, r.store[MergeVerdict(r, branch, opts).other].tree;
      out == ApplyFailed <==> exists p :: p in source && At(base, p) != At(source, p) && p in io
  {
    var base, source := MergeVerdict(r, branch, opts).base, r.store[MergeVerdict(r, branch, opts).other].tree;
    hide MergeVerdict, StagedIndex, StagedWork, Committed, PartlyStaged;
    forall p ensures p in Diff(base, source) <==> At(base, p) != At(source, p) {
      DiffAt(base, source, p);
    }
  }

  /** Replaying a change that is disjoint from one's own does nothing exactly when it is no change. */
  lemma EmptyMergeIff(base: Tree, head: Tree, source: Tree)
    requires Diff(base, head) * Diff(base, source) == {}
    ensures Overlay(head, base, source) == head <==> base == source
  {
    if base == source {
      assert Diff(base, source) == {};
    } else {
      if forall p: Path :: At(base, p) == At(source, p) {
        SameTree(base, source);
      }
      var p: Path :| At(base, p) != At(source, p);
      OverlayAt(head, base, source, p);
      DiffAt(base, source, p);
      DiffAt(base, head, p);
      assert p !in Diff(base, head) * Diff(base, source);
    }
  }

  /** A fast-forward moves the ref and nothing else: the index still holds the old tree, so the
      repository is dirty unless the trees agree, and a commit of that index takes the branch's change back out. */
  lemma FastForwardLeavesOldIndex(r: Repo, branch: string, opts: MergeOptions, io: IO, me: string, out: Outcome,
                                  after: Repo,
                                  message: string)
    requires Clean(r) && MergeStep(r, branch, opts, io, me, out, after)
    requires MergeVerdict(r, branch, opts).FastForward?
    ensures out == Done && Tip(after) == r.refs[BranchRef(branch)] && after.store == r.store
    ensures Dirty(after) <==> HeadTree(after) != HeadTree(r)
    ensures HeadTree(Committed(after, [Tip(after)], message, me)) == HeadTree(r)
  {
  }

  // ---------------------------------------------------------------- a merge that loses a deletion

  /** The topic branch deletes a file and adds one, beside a commit that adds another. */
  function Deletion(): Store {
    [Commit([], map["f" := "x"], "base", ""),
     Commit([0], map["f" := "x", "g" := "y"], "ours", ""),
     Commit([0], map["h" := "z"], "theirs", "")]
  }

  function DeletionRepo(): Repo {
    var t: Tree := map["f" := "x", "g" := "y"];
    Snapshot(Deletion(), map["refs/heads/main" := 1, "refs/heads/topic" := 2], "refs/heads/main", t, t, None)
  }

  lemma DeletionBase(s: Store)
    requires s == Deletion()
    ensures MergeBase(s, 1, 2) == Some(0) && !IsAncestor(s, 1, 2)
  {
    assert !IsAncestor(s, 1, 0) && !IsAncestor(s, 1, 2);
    assert IsAncestor(s, 0, s[1].parents[0]) && IsAncestor(s, 0, s[2].parents[0]);
    assert CommonBelow(s, 1, 2, 1) == Some(0) && CommonBelow(s, 1, 2, 2) == Some(0);
  }

  lemma DeletionVerdict(r: Repo, opts: MergeOptions)
    requires r == DeletionRepo() && !opts.ffOnly
    ensures MergeVerdict(r, "topic", opts) == ThreeWay(r.store[0].tree, 2) && BranchRef("topic") == "refs/heads/topic"
  {
    var s := r.store;
    DeletionBase(s);
    assert BranchRef("topic") == "refs/heads/topic";
    assert Diff(s[0].tree, s[1].tree) == {"g"};
    assert Diff(s[0].tree, s[2].tree) == {"f", "h"};
    hide IsAncestor, CommonBelow, MergeBase;
  }

  /** A merge of any kind reports success although the deleted file stays in the result. */
  lemma MergeCanLoseADeletion(r: Repo, opts: MergeOptions, me: string, out: Outcome, after: Repo)
    requires r == DeletionRepo() && !opts.ffOnly
    requires MergeStep(r, "topic", opts, map["f" := WriteFails("")], me, out, after)
    ensures out == Done && Clean(r)
    ensures At(r.store[0].tree, "f") == At(HeadTree(r), "f") == Some("x") && At(r.store[2].tree, "f") == None
    ensures At(ResultTree(r, "topic", opts, after), "f") == Some("x")
  {
    DeletionVerdict(r, opts);
    var base, source, io: IO := r.store[0].tree, r.store[2].tree, map["f" := WriteFails("")];
    hide MergeVerdict, Deletion;
    assert !ApplyFails(base, source, io);
    OverlayKeepingAt(r.index, base, source, io.Keys, "f");
    OverlayKeepingAt(r.index, base, source, io.Keys, "h");
    assert At(StagedIndex(r.index, base, source, io), "h") != At(HeadTree(r), "h");
  }
}
