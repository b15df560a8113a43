/** The pure-Go git backend: one repository whose refs, index, working tree and rebase files change in place. */
module GoGitBackends {
  import opened Basics
  import opened Trees
  import opened History
  import opened Repository

  /** The changed paths between two trees, in some order. */
  method DiffTree(a: Tree, b: Tree) returns (changes: seq<Path>)
    ensures forall p :: p in changes <==> p in Diff(a, b)
  {
    changes := [];
    var todo := Diff(a, b);
    while todo != {}
      invariant todo <= Diff(a, b)
      invariant forall p :: p in changes <==> p in Diff(a, b) - todo
      decreases todo
    {
      var p :| p in todo;
      changes, todo := changes + [p], todo - {p};
    }
  }

  /** Whether both sides of a merge change a common path. */
  method BothChanged(baseToHead: seq<Path>, baseToBranch: seq<Path>) returns (conflict: bool)
    ensures conflict <==> exists p :: p in baseToHead && p in baseToBranch
  {
    var headChanges: set<Path> := {};
    for i := 0 to |baseToHead|
      invariant headChanges == set j | 0 <= j < i :: baseToHead[j]
    {
      headChanges := headChanges + {baseToHead[i]};
      assert baseToHead[..i + 1] == baseToHead[..i] + [baseToHead[i]];
    }
    assert baseToHead[..|baseToHead|] == baseToHead;
    for i := 0 to |baseToBranch|
      invariant forall j :: 0 <= j < i ==> baseToBranch[j] !in headChanges
    {
      if baseToBranch[i] in headChanges {
        assert baseToBranch[i] in baseToHead && baseToBranch[i] in baseToBranch;
        return true;
      }
    }
    conflict := false;
  }

  lemma SharedPath(xs: seq<Path>, ys: seq<Path>, a: set<Path>, b: set<Path>)
    requires (forall p :: p in xs <==> p in a) && (forall p :: p in ys <==> p in b)
    ensures (exists p :: p in xs && p in ys) <==> a * b != {}
  {
    forall p ensures p in xs && p in ys <==> p in a * b {
    }
  }

  class GoGitBackend {
    var store: Store
    var refs: map<string, nat>
    var head: string
    var index: Tree
    var work: Tree
    var rebase: Option<RebaseFiles>
    const me: string

    function State(): Snapshot
      reads this
    {
      Snapshot(store, refs, head, index, work, rebase)
    }

    predicate Valid()
      reads this
    {
      ValidRepo(State())
    }

    constructor (r: Repo, me: string)
      ensures Valid() && State() == r && this.me == me
    {
      store, refs, head, index, work, rebase := r.store, r.refs, r.head, r.index, r.work, r.rebase;
      this.me := me;
    }

    /** Writes and stages one changed file, or removes it when the source lacks it. */
    method StageChange(p: Path, source: Tree, io: IO) returns (ok: bool)
      modifies this`index, this`work
      ensures ok <==> p !in source || p !in io
      ensures forall q: Path :: q != p ==> At(index, q) == At(old(index), q) && At(work, q) == At(old(work), q)
      ensures !ok ==> index == old(index)
      ensures ok ==> At(index, p) == if p in source then Some(source[p]) else if p in io then At(old(index), p) else None
      ensures ok ==> At(work, p) == if p in source then Some(source[p])
                                    else if p in io && io[p].WriteFails? then At(old(work), p) else None
    {
      ok := p !in source || p !in io;
      if p in source {
        if p in io {
          work := work[p := if io[p].WriteFails? then io[p].left else source[p]];
        } else {
          work := work[p := source[p]];
          index := index[p := source[p]];
        }
      } else {
        if p !in io || io[p].StageFails? {
          work := work - {p};
        }
        if p !in io {
          index := index - {p};
        }
      }
    }

    /** Replays base -> source on the working tree and stages each file; failed deletions go unnoticed. */
    method ApplyChangesToWorktree(base: Tree, source: Tree, io: IO) returns (ok: bool)
      modifies this`index, this`work
      ensures ok <==> !ApplyFails(base, source, io)
      ensures ok ==> index == StagedIndex(old(index), base, source, io)
      ensures ok ==> work == StagedWork(old(work), base, source, io)
      ensures !ok ==> PartlyStaged(old(index), index, base, source)
    {
      hide OverlayKeeping, PartlyStaged;
      var changes := DiffTree(base, source);
      ghost var kept := set p | p in io && io[p].WriteFails?;
      ghost var indexGoal, workGoal := StagedIndex(index, base, source, io), StagedWork(work, base, source, io);
      for i := 0 to |changes|
        invariant forall j :: 0 <= j < i ==> changes[j] !in source || changes[j] !in io
        invariant Reached(index, old(index), indexGoal, changes[..i])
        invariant Reached(work, old(work), workGoal, changes[..i])
      {
        var p := changes[i];
        ghost var index0, work0 := index, work;
        assert p in changes && p in Diff(base, source);
        GoalAt(old(index), base, source, io.Keys, p);
        GoalAt(old(work), base, source, kept, p);
        ok := StageChange(p, source, io);
        if !ok {
          HalfStaged(old(index), index, base, source, io, changes[..i]);
          return;
        }
        assert changes[..i + 1] == changes[..i] + [p];
        Advance(index0, index, old(index), indexGoal, changes[..i], p);
        Advance(work0, work, old(work), workGoal, changes[..i], p);
      }
      ok := true;
      assert changes[..|changes|] == changes;
      AllReached(index, old(index), base, source, io.Keys, changes);
      AllReached(work, old(work), base, source, kept, changes);
    }

    /** Commits the index on top of `parents`; an index equal to the first parent's tree is refused. */
    method Commit(parents: seq<nat>, message: string, author: string) returns (ok: bool)
      requires Valid() && parents != [] && InStore(store, parents)
      modifies this`store, this`refs
      ensures Valid()
      ensures ok <==> old(index != store[parents[0]].tree)
      ensures State() == if ok then Committed(old(State()), parents, message, author) else old(State())
    {
      if index == store[parents[0]].tree {
        return false;
      }
      store, refs := store + [History.Commit(parents, index, message, author)], refs[head := |store|];
      ok := true;
    }

    method HardReset(c: nat)
      requires Valid() && c < |store|
      modifies this`refs, this`index, this`work
      ensures Valid() && State() == ResetTo(old(State()), c)
    {
      refs, index, work := refs[head := c], store[c].tree, store[c].tree;
    }

    method Merge(branch: string, opts: MergeOptions, io: IO) returns (out: Outcome)
      requires Valid()
      modifies this`store, this`refs, this`index, this`work
      ensures Valid() && MergeStep(old(State()), branch, opts, io, me, out, State())
    {
      hide OverlayKeeping, PartlyStaged, ApplyFails, StagedIndex, StagedWork, CommonBelow, MergeMessage;
      if BranchRef(branch) !in refs {
        return BranchNotFound;
      }
      var h, b := refs[head], refs[BranchRef(branch)];
      if h == b {
        return Done;
      }
      if IsAncestor(store, h, b) {
        refs := refs[head := b];
        return Done;
      }
      if opts.ffOnly {
        return NotFastForward;
      }
      var mergeBase := MergeBase(store, h, b);
      if mergeBase.None? && !opts.allowUnrelated {
        return NoCommonAncestor;
      }
      var headTree, branchTree, baseTree := store[h].tree, store[b].tree, ChosenBase(store, h, b);
      var baseToHead := DiffTree(baseTree, headTree);
      var baseToBranch := DiffTree(baseTree, branchTree);
      var conflict := BothChanged(baseToHead, baseToBranch);
      SharedPath(baseToHead, baseToBranch, Diff(baseTree, headTree), Diff(baseTree, branchTree));
      if conflict {
        return MergeConflict;
      }
      assert MergeVerdict(State(), branch, opts) == ThreeWay(baseTree, b);
      var applied := ApplyChangesToWorktree(baseTree, branchTree, io);
      if !applied {
        return ApplyFailed;
      }
      if opts.noCommit {
        return Done;
      }
      var ok := Commit(if opts.squash then [h] else [h, b], MergeMessage(branch, opts), me);
      out := if ok then Done else EmptyCommit;
    }

    /** Replays the change of one commit on HEAD and commits it with its message and author. */
    method ApplyRebaseCommit(c: nat, io: IO) returns (out: Outcome)
      requires Valid() && c < |store|
      modifies this`store, this`refs, this`index, this`work
      ensures Valid()
      ensures old(ReplayStops(State(), c, io)) ==> out != Done && StoppedReplay(old(State()), c, io, out, State())
      ensures !old(ReplayStops(State(), c, io)) ==> out == Done && State() == Replayed(old(State()), c, io)
    {
      var commit := store[c];
      if commit.parents == [] {
        return NoParent;
      }
      var ok := ApplyChangesToWorktree(store[commit.parents[0]].tree, commit.tree, io);
      if !ok {
        return MergeConflict;
      }
      ok := Commit([refs[head]], commit.message, commit.author);
      out := if ok then Done else EmptyCommit;
    }

    /** The replay loop shared by starting and resuming a rebase. */
    method ReplayFrom(commits: seq<nat>, end: nat, start: nat, ios: Script) returns (out: Outcome)
      requires Valid() && rebase.Some? && InStore(store, commits)
      modifies this`store, this`refs, this`index, this`work, this`rebase
      ensures Valid() && Replays(old(State()), commits, end, start, ios, out, State())
    {
      ghost var before := State();
      var i := start;
      while i < end
        invariant Valid() && rebase.Some? && InStore(store, commits)
        invariant forall o: Outcome, after: Repo ::
            Replays(State(), commits, end, i, ios, o, after) ==> Replays(before, commits, end, start, ios, o, after)
      {
        ghost var r := State();
        rebase := Some(rebase.value.(msgnum := Some(i)));
        assert State() == AtMessage(r, i);
        if i >= |commits| {
          assert Replays(r, commits, end, i, ios, IndexOutOfRange, State());
          return IndexOutOfRange;
        }
        out := ApplyRebaseCommit(commits[i], ios(i));
        if out != Done {
          assert Replays(r, commits, end, i, ios, out, State());
          return;
        }
        assert forall o: Outcome, after: Repo ::
            Replays(State(), commits, end, i + 1, ios, o, after) ==> Replays(r, commits, end, i, ios, o, after);
        i := i + 1;
      }
      ghost var r := State();
      rebase := None;
      out := Done;
      assert Replays(r, commits, end, i, ios, out, State());
    }

    method Rebase(onto: Option<nat>, setup: Setup, ios: Script) returns (out: Outcome)
      requires Valid() && (onto.Some? ==> onto.value < |store|)
      modifies this`store, this`refs, this`index, this`work, this`rebase
      ensures Valid() && RebaseStep(old(State()), onto, setup, ios, out, State())
    {
      if onto.None? {
        return BranchNotFound;
      }
      var h := refs[head];
      if h == onto.value {
        return Done;
      }
      var base := MergeBase(store, h, onto.value);
      if base.None? {
        return NoCommonAncestor;
      }
      var commits := GetCommitsBetween(store, base.value, h);
      BetweenInStore(store, base.value, h);
      if commits == [] {
        return Done;
      }
      rebase := Some(RebaseFiles(h, onto.value, head, |commits|, if rebase.Some? then rebase.value.msgnum else None));
      assert State() == RebaseRecorded(old(State()), onto.value, |commits|);
      if setup == RefFails {
        return RefNotMoved;
      }
      refs := refs[head := onto.value];
      if setup == ResetFails {
        return ResetFailed;
      }
      HardReset(onto.value);
      assert State() == ResetTo(RebaseRecorded(old(State()), onto.value, |commits|), onto.value);
      out := ReplayFrom(commits, |commits|, 0, ios);
    }

    method RebaseContinue(ios: Script) returns (out: Outcome)
      requires Valid()
      modifies this`store, this`refs, this`index, this`work, this`rebase
      ensures Valid() && ContinueStep(old(State()), ios, out, State())
    {
      if rebase.None? {
        return NoRebaseInProgress;
      }
      if rebase.value.msgnum.None? {
        return StateFileMissing;
      }
      var f := rebase.value;
      var base := MergeBase(store, f.origHead, f.onto);
      if base.None? {
        return NoCommonAncestor;
      }
      var commits := GetCommitsBetween(store, base.value, f.origHead);
      BetweenInStore(store, base.value, f.origHead);
      var k := f.msgnum.value;
      if Dirty(State()) && k < |commits| {
        var c := store[commits[k]];
        var ok := Commit([refs[head]], c.message, c.author);
        if !ok {
          return EmptyCommit;
        }
      }
      out := ReplayFrom(commits, f.end, k + 1, ios);
    }

    method RebaseAbort(setup: Setup) returns (out: Outcome)
      requires Valid()
      modifies this`refs, this`index, this`work, this`rebase
      ensures Valid() && AbortStep(old(State()), setup, out, State())
    {
      if rebase.None? {
        return NoRebaseInProgress;
      }
      if setup == RefFails {
        return RefNotMoved;
      }
      var f := rebase.value;
      refs := refs[f.headName := f.origHead];
      if setup == ResetFails {
        refs := refs[head := f.origHead];
        return ResetFailed;
      }
      HardReset(f.origHead);
      rebase := None;
      out := Done;
    }
  }

  // ---------------------------------------------------------------- progress of one application

  /** `current` is `before` with the paths in `handled` as in `goal`. */
  ghost predicate Reached(current: Tree, before: Tree, goal: Tree, handled: seq<Path>) {
    forall p: Path :: At(current, p) == if p in handled then At(goal, p) else At(before, p)
  }

  lemma GoalAt(before: Tree, base: Tree, source: Tree, kept: set<Path>, p: Path)
    requires p in Diff(base, source)
    ensures At(OverlayKeeping(before, base, source, kept), p)
            == if p in source then Some(source[p]) else if p in kept then At(before, p) else None
  {
    DiffAt(base, source, p);
    OverlayKeepingAt(before, base, source, kept, p);
  }

  lemma Advance(current: Tree, next: Tree, before: Tree, goal: Tree, handled: seq<Path>, p: Path)
    requires Reached(current, before, goal, handled)
    requires At(next, p) == At(goal, p) || (At(next, p) == At(current, p) && At(goal, p) == At(before, p))
    requires forall q: Path :: q != p ==> At(next, q) == At(current, q)
    ensures Reached(next, before, goal, handled + [p])
  {
    forall q: Path
      ensures At(next, q) == if q in handled + [p] then At(goal, q) else At(before, q)
    {
      assert q in handled + [p] <==> q in handled || q == p;
    }
  }

  lemma AllReached(current: Tree, before: Tree, base: Tree, source: Tree, kept: set<Path>, changes: seq<Path>)
    requires forall p :: p in changes <==> p in Diff(base, source)
    requires Reached(current, before, OverlayKeeping(before, base, source, kept), changes)
    ensures current == OverlayKeeping(before, base, source, kept)
  {
    var goal := OverlayKeeping(before, base, source, kept);
    forall p: Path ensures At(current, p) == At(goal, p) {
      DiffAt(base, source, p);
      OverlayKeepingAt(before, base, source, kept, p);
    }
    SameTree(current, goal);
  }

  /** What a half-applied change has done so far stays between the old index and the wanted one. */
  lemma HalfStaged(before: Tree, after: Tree, base: Tree, source: Tree, io: IO, handled: seq<Path>)
    requires Reached(after, before, StagedIndex(before, base, source, io), handled)
    ensures PartlyStaged(before, after, base, source)
  {
    forall p: Path
      ensures At(after, p) == At(before, p) || (At(base, p) != At(source, p) && At(after, p) == At(source, p))
    {
      OverlayKeepingAt(before, base, source, io.Keys, p);
    }
  }
}
