/** When the rebase calls do nothing, when they refuse, and what a failed setup leaves: in terms of ancestry and of the
    parts of a repository. */
module RebaseOutcomes {
  import opened Basics
  import opened Trees
  import opened History
  import opened Repository
  import opened RebaseProgress

  /** What the user of a repository sees: refs, index, working tree and rebase state, and HEAD's branch. */
  predicate Untouched(r: Repo, after: Repo) {
    after.refs == r.refs && after.head == r.head && after.index == r.index && after.work == r.work
    && after.rebase == r.rebase && after.store == r.store
  }

  /** The log of a commit starts with the commit itself. */
  lemma WalkStartsWith(s: Store, pending: seq<nat>, seen: set<nat>)
    requires InStore(s, pending) && pending != [] && pending[0] !in seen
    ensures Walk(s, pending, seen) != [] && Walk(s, pending, seen)[0] == pending[0]
  {
    hide InStore, ParentsAreOlder;
  }

  lemma BetweenStartsAtTip(s: Store, base: nat, tip: nat)
    requires tip < |s|
    ensures Between(s, base, tip) == [] <==> base == tip
    ensures base != tip ==> Between(s, base, tip)[0] == tip
  {
    WalkStartsWith(s, [tip], {});
    hide Walk;
  }

  /** There is something to replay exactly when HEAD has a commit that `onto` has not, its own tip; that comes first. */
  lemma SomethingToReplayIff(s: Store, head: nat, onto: nat)
    requires head < |s| && onto < |s|
    ensures Plan(s, head, onto).Some? <==> Related(s, head, onto)
    ensures Plan(s, head, onto).Some? ==> (Plan(s, head, onto).value == [] <==> IsAncestor(s, head, onto))
    ensures Plan(s, head, onto).Some? && Plan(s, head, onto).value != [] ==> Plan(s, head, onto).value[0] == head
  {
    MergeBaseIsBest(s, head, onto);
    if IsAncestor(s, head, onto) {
      MergeBaseOfAncestor(s, head, onto);
    }
    hide IsAncestor, Between, CommonBelow;
    match MergeBase(s, head, onto)
    case None =>
    case Some(m) =>
      assert IsAncestor(s, m, head) && IsAncestor(s, m, onto);
      BetweenStartsAtTip(s, m, head);
  }

  /** Main result: a Rebase of a branch that `onto` already contains reports success and touches nothing, whatever is
      staged or edited; an unknown revision and an unrelated history are refused, and touch nothing either. */
  lemma RebaseWithoutCommits(r: Repo, onto: Option<nat>, setup: Setup, ios: Script, out: Outcome, after: Repo)
    requires onto.Some? ==> onto.value < |r.store|
    requires RebaseStep(r, onto, setup, ios, out, after)
    ensures onto.None? ==> out == BranchNotFound && Untouched(r, after)
    ensures onto.Some? && !Related(r.store, Tip(r), onto.value) ==> out == NoCommonAncestor && Untouched(r, after)
    ensures onto.Some? && IsAncestor(r.store, Tip(r), onto.value) ==> out == Done && Untouched(r, after)
  {
    if onto.Some? {
      SomethingToReplayIff(r.store, Tip(r), onto.value);
      assert IsAncestor(r.store, Tip(r), Tip(r));
      hide IsAncestor, Plan, Replays;
    }
  }

  /** A replay that reports success added a commit for every step it had to take. */
  lemma {:induction false} DoneReplayAddsCommits(s: Repo, plan: seq<nat>, end: nat, i: nat, ios: Script, after: Repo)
    requires Replays(s, plan, end, i, ios, Done, after) && i <= end
    ensures |after.store| == |s.store| + (end - i)
    decreases end - i
  {
    hide StagedIndex, StagedWork, ApplyFails, PartlyStaged;
    if i < end && i < |plan| && !ReplayStops(AtMessage(s, i), plan[i], ios(i)) {
      DoneReplayAddsCommits(Replayed(AtMessage(s, i), plan[i], ios(i)), plan, end, i + 1, ios, after);
    }
  }

  /** Main result: with no rebase in progress, Rebase leaves a trace exactly when HEAD has a commit that `onto` has not
      and the histories are related. */
  lemma RebaseTouchesIff(r: Repo, onto: nat, setup: Setup, ios: Script, out: Outcome, after: Repo)
    requires onto < |r.store| && r.rebase == None && RebaseStep(r, Some(onto), setup, ios, out, after)
    ensures !Untouched(r, after) <==> Related(r.store, Tip(r), onto) && !IsAncestor(r.store, Tip(r), onto)
  {
    RebaseWithoutCommits(r, Some(onto), setup, ios, out, after);
    SomethingToReplayIff(r.store, Tip(r), onto);
    if Related(r.store, Tip(r), onto) && !IsAncestor(r.store, Tip(r), onto) {
      StartedRebaseLeavesTrace(r, onto, Plan(r.store, Tip(r), onto).value, setup, ios, out, after);
    }
  }

  lemma StartedRebaseLeavesTrace(r: Repo, onto: nat, plan: seq<nat>, setup: Setup, ios: Script, out: Outcome,
                                 after: Repo)
    requires onto < |r.store| && r.rebase == None && RebaseStep(r, Some(onto), setup, ios, out, after)
    requires Plan(r.store, Tip(r), onto) == Some(plan) && plan != [] && !IsAncestor(r.store, Tip(r), onto)
    ensures !Untouched(r, after)
  {
    assert IsAncestor(r.store, Tip(r), Tip(r));
    assert Tip(r) != onto;
    BetweenInStore(r.store, MergeBase(r.store, Tip(r), onto).value, Tip(r));
    hide IsAncestor, Plan, Replays, Started;
    StartRecords(r, onto, plan, setup, ios, out, after);
    if out == Done && setup == SetupWorks {
      DoneReplayAddsCommits(ResetTo(RebaseRecorded(r, onto, |plan|), onto), plan, |plan|, 0, ios, after);
    }
  }

  /** What a start that fails before the replay leaves: the files are written, but for a `msgnum` of an older rebase,
      which stays; if the ref could not be moved nothing else happened, and if the reset failed only HEAD's branch is
      known to have moved. */
  lemma FailedSetups(r: Repo, onto: nat, plan: seq<nat>, setup: Setup, ios: Script, out: Outcome, after: Repo)
    requires Planned(r, onto, plan) && RebaseStep(r, Some(onto), setup, ios, out, after) && setup != SetupWorks
    ensures out == (if setup == RefFails then RefNotMoved else ResetFailed)
    ensures after.store == r.store && after.head == r.head
    ensures after.rebase == Some(RebaseFiles(Tip(r), onto, r.head, |plan|,
                                             if r.rebase.Some? then r.rebase.value.msgnum else None))
    ensures setup == RefFails ==> after.refs == r.refs && after.index == r.index && after.work == r.work
    ensures setup == ResetFails ==> after.refs == r.refs[r.head := onto]
  {
  }

  /** How a replay loop can end. */
  lemma {:induction false} ReplayOutcomes(s: Repo, plan: seq<nat>, end: nat, i: nat, ios: Script, out: Outcome,
                                          after: Repo)
    requires Replays(s, plan, end, i, ios, out, after)
    ensures out in {Done, NoParent, MergeConflict, EmptyCommit, IndexOutOfRange}
    decreases end - i
  {
    hide StagedIndex, StagedWork, ApplyFails, PartlyStaged;
    if i < end && i < |plan| && !ReplayStops(AtMessage(s, i), plan[i], ios(i)) {
      ReplayOutcomes(Replayed(AtMessage(s, i), plan[i], ios(i)), plan, end, i + 1, ios, out, after);
    }
  }

  /** Without a recorded rebase a continue and an abort are refused and touch nothing; so is a continue without a
      recorded step. */
  lemma NothingInProgress(r: Repo, setup: Setup, ios: Script, out: Outcome, after: Repo, out': Outcome, after': Repo)
    requires ContinueStep(r, ios, out, after) && AbortStep(r, setup, out', after')
    ensures out == NoRebaseInProgress <==> r.rebase.None?
    ensures out' == NoRebaseInProgress <==> r.rebase.None?
    ensures out == StateFileMissing <==> r.rebase.Some? && r.rebase.value.msgnum.None?
    ensures out == NoRebaseInProgress || out == StateFileMissing ==> Untouched(r, after)
    ensures out' == NoRebaseInProgress ==> Untouched(r, after')
  {
    if r.rebase.Some? && r.rebase.value.msgnum.Some? {
      OtherOutcomes(r, ios, out, after);
    }
    hide Replays, Plan, Dirty;
  }

  lemma OtherOutcomes(r: Repo, ios: Script, out: Outcome, after: Repo)
    requires ContinueStep(r, ios, out, after) && r.rebase.Some? && r.rebase.value.msgnum.Some?
    ensures out != NoRebaseInProgress && out != StateFileMissing
  {
    hide Replays, Committed;
    var f := r.rebase.value;
    var plan := Plan(r.store, f.origHead, f.onto);
    if plan.Some? {
      BetweenInStore(r.store, MergeBase(r.store, f.origHead, f.onto).value, f.origHead);
      var k := f.msgnum.value;
      if !(Dirty(r) && k < |plan.value|) {
        ReplayOutcomes(r, plan.value, f.end, k + 1, ios, out, after);
      } else if r.index != HeadTree(r) {
        var c := r.store[plan.value[k]];
        ReplayOutcomes(Committed(r, [Tip(r)], c.message, c.author), plan.value, f.end, k + 1, ios, out, after);
      }
    }
  }

  /** A replay step that cannot write a file leaves each path of the index as it was or as the replayed commit has it,
      and moves nothing else. */
  lemma ConflictLeavesMixture(m: Repo, c: nat, io: IO, out: Outcome, after: Repo, p: Path)
    requires c < |m.store| && ReplayStops(m, c, io) && StoppedReplay(m, c, io, out, after) && out == MergeConflict
    ensures m.store[c].parents != [] && after.store == m.store && after.refs == m.refs && after.rebase == m.rebase
    ensures At(after.index, p) == At(m.index, p)
            || (At(ParentTree(m.store, c), p) != At(m.store[c].tree, p) && At(after.index, p) == At(m.store[c].tree, p))
  {
    hide ApplyFails, ReplayStaged;
  }

  /** Main result: an abort that fails keeps the rebase in progress, and repeated it ends as it would have at once. */
  lemma AbortCanBeRepeated(r: Repo, setup: Setup, out: Outcome, mid: Repo, out': Outcome, after: Repo, out'': Outcome,
                           direct: Repo)
    requires r.rebase.Some? && setup != SetupWorks && AbortStep(r, setup, out, mid)
    requires AbortStep(mid, SetupWorks, out', after) && AbortStep(r, SetupWorks, out'', direct)
    ensures out == (if setup == RefFails then RefNotMoved else ResetFailed)
    ensures mid.rebase == r.rebase && mid.store == r.store && (setup == RefFails ==> Untouched(r, mid))
    ensures out' == out'' == Done && after == direct
    ensures after.refs == r.refs[r.rebase.value.headName := r.rebase.value.origHead][r.head := r.rebase.value.origHead]
    ensures after.rebase == None && after.store == r.store && after.index == after.work == r.store[r.rebase.value.origHead].tree
  {
  }
}
