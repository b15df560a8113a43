/** What every rebase in progress has recorded, whatever faults it met and whatever the user staged in between. */
module RebaseProgress {
  import opened Basics
  import opened Trees
  import opened History
  import opened Repository

  predicate Known(o: Repo, onto: nat, plan: seq<nat>) {
    onto < |o.store| && InStore(o.store, plan)
  }

  /** The repository `o` has the commits of `plan` to replay onto `onto`. */
  predicate Planned(o: Repo, onto: nat, plan: seq<nat>) {
    Known(o, onto, plan) && Tip(o) != onto && Plan(o.store, Tip(o), onto) == Some(plan) && plan != []
  }

  /** At most the checked-out branch moved, and no commit was lost. */
  predicate SameBranch(o: Repo, s: Repo) {
    o.store <= s.store && s.head == o.head && s.refs == o.refs[o.head := Tip(s)]
  }

  /** `s` came from a rebase of `o`: all that differs is the branch ref, the index, the working tree, new commits and
      the state files, which record that rebase. Only a `msgnum` left over from an older rebase may be out of range. */
  predicate Started(o: Repo, onto: nat, plan: seq<nat>, s: Repo) {
    && SameBranch(o, s)
    && s.rebase.Some?
    && s.rebase.value.(msgnum := None) == RebaseFiles(Tip(o), onto, o.head, |plan|, None)
    && (o.rebase == None && s.rebase.value.msgnum.Some? ==> s.rebase.value.msgnum.value < |plan|)
  }

  /** Where a call that started or resumed the rebase of `o` at position `i` left it: finished, or stopped at a step
      from `i` on. */
  predicate LeftAt(o: Repo, onto: nat, plan: seq<nat>, i: nat, out: Outcome, after: Repo) {
    if out == Done then after.rebase.None?
    else out != IndexOutOfRange && Started(o, onto, plan, after)
         && after.rebase.value.msgnum.Some? && i <= after.rebase.value.msgnum.value < |plan|
  }

  // ---------------------------------------------------------------- every step keeps the record

  lemma ReplayedKeepsStarted(o: Repo, onto: nat, plan: seq<nat>, s: Repo, i: nat, io: IO)
    requires Started(o, onto, plan, s) && i < |plan| && plan[i] < |s.store| && !ReplayStops(AtMessage(s, i), plan[i], io)
    ensures Started(o, onto, plan, Replayed(AtMessage(s, i), plan[i], io))
  {
    hide OverlayKeeping, StagedIndex, StagedWork, ApplyFails;
  }

  lemma StoppedKeepsStarted(o: Repo, onto: nat, plan: seq<nat>, s: Repo, i: nat, io: IO, out: Outcome, after: Repo)
    requires Started(o, onto, plan, s) && i < |plan| && plan[i] < |s.store|
    requires ReplayStops(AtMessage(s, i), plan[i], io) && StoppedReplay(AtMessage(s, i), plan[i], io, out, after)
    ensures LeftAt(o, onto, plan, i, out, after)
  {
    hide OverlayKeeping, StagedIndex, StagedWork, ApplyFails, PartlyStaged;
  }

  /** One round of the replay loop. */
  lemma ReplayRound(s: Repo, plan: seq<nat>, i: nat, ios: Script, out: Outcome, after: Repo)
    requires Replays(s, plan, |plan|, i, ios, out, after)
    ensures InStore(s.store, plan) && s.rebase.Some?
    ensures i >= |plan| ==> out == Done && after == s.(rebase := None)
    ensures i < |plan| ==>
      && plan[i] < |s.store|
      && if ReplayStops(AtMessage(s, i), plan[i], ios(i)) then StoppedReplay(AtMessage(s, i), plan[i], ios(i), out, after)
         else Replays(Replayed(AtMessage(s, i), plan[i], ios(i)), plan, |plan|, i + 1, ios, out, after)
  {
    hide ReplayStops, StoppedReplay, Replayed;
  }

  lemma LeftLater(o: Repo, onto: nat, plan: seq<nat>, i: nat, out: Outcome, after: Repo)
    requires LeftAt(o, onto, plan, i + 1, out, after)
    ensures LeftAt(o, onto, plan, i, out, after)
  {
    hide Started;
  }

  lemma FinishedIsLeft(o: Repo, onto: nat, plan: seq<nat>, s: Repo, i: nat, ios: Script, out: Outcome, after: Repo)
    requires i >= |plan| && Replays(s, plan, |plan|, i, ios, out, after)
    ensures LeftAt(o, onto, plan, i, out, after)
  {
    hide Started;
  }

  lemma RoundKeepsStarted(o: Repo, onto: nat, plan: seq<nat>, s: Repo, i: nat, ios: Script, out: Outcome, after: Repo)
    returns (stops: bool, next: Repo)
    requires Started(o, onto, plan, s) && i < |plan| && Replays(s, plan, |plan|, i, ios, out, after)
    ensures if stops then LeftAt(o, onto, plan, i, out, after)
            else Started(o, onto, plan, next) && Replays(next, plan, |plan|, i + 1, ios, out, after)
  {
    ReplayRound(s, plan, i, ios, out, after);
    hide Replays, ReplayStops, Replayed, StoppedReplay, Started, LeftAt;
    stops, next := ReplayStops(AtMessage(s, i), plan[i], ios(i)), s;
    if stops {
      StoppedKeepsStarted(o, onto, plan, s, i, ios(i), out, after);
    } else {
      next := Replayed(AtMessage(s, i), plan[i], ios(i));
      ReplayedKeepsStarted(o, onto, plan, s, i, ios(i));
    }
  }

  lemma {:induction false} ReplaysKeepStarted(o: Repo, onto: nat, plan: seq<nat>, s: Repo, i: nat, ios: Script,
                                              out: Outcome, after: Repo)
    requires Started(o, onto, plan, s) && Replays(s, plan, |plan|, i, ios, out, after)
    ensures LeftAt(o, onto, plan, i, out, after)
    decreases |plan| - i
  {
    hide Replays, Started, LeftAt;
    if i < |plan| {
      var stops, next := RoundKeepsStarted(o, onto, plan, s, i, ios, out, after);
      if !stops {
        ReplaysKeepStarted(o, onto, plan, next, i + 1, ios, out, after);
        LeftLater(o, onto, plan, i, out, after);
      }
    } else {
      FinishedIsLeft(o, onto, plan, s, i, ios, out, after);
    }
  }

  lemma StartIsStarted(o: Repo, onto: nat, plan: seq<nat>)
    requires Planned(o, onto, plan)
    ensures Started(o, onto, plan, RebaseRecorded(o, onto, |plan|))
    ensures Started(o, onto, plan, ResetTo(RebaseRecorded(o, onto, |plan|), onto))
  {
  }

  /** Starting: the rebase finishes, or its state is recorded, whatever fails. */
  lemma StartRecords(o: Repo, onto: nat, plan: seq<nat>, setup: Setup, ios: Script, out: Outcome, s: Repo)
    requires Planned(o, onto, plan) && RebaseStep(o, Some(onto), setup, ios, out, s)
    ensures s.rebase.Some? ==> Started(o, onto, plan, s)
    ensures out != IndexOutOfRange && (out == Done <==> s.rebase.None?)
  {
    hide Replays;
    StartIsStarted(o, onto, plan);
    if setup == SetupWorks {
      ReplaysKeepStarted(o, onto, plan, ResetTo(RebaseRecorded(o, onto, |plan|), onto), 0, ios, out, s);
    }
  }

  lemma CommitKeepsStarted(o: Repo, onto: nat, plan: seq<nat>, s: Repo, message: string, author: string)
    requires Started(o, onto, plan, s)
    ensures Started(o, onto, plan, Committed(s, [Tip(s)], message, author))
  {
  }

  /** New commits do not change the list that RebaseContinue computes again. */
  lemma StartedPlan(o: Repo, onto: nat, plan: seq<nat>, s: Repo)
    requires Planned(o, onto, plan) && Started(o, onto, plan, s)
    ensures Plan(s.store, s.rebase.value.origHead, s.rebase.value.onto) == Some(plan)
    ensures InStore(s.store, plan) && s.rebase.value.end == |plan|
  {
    PlanStable(o.store, s.store, Tip(o), onto);
  }

  /** The state files name step k. */
  predicate Names(s: Repo, k: nat) {
    s.rebase.Some? && s.rebase.value.msgnum == Some(k)
  }

  /** A commit was made of what is staged, under the name of step k. */
  function ResolutionCommitted(plan: seq<nat>, k: nat, s: Repo): Repo
    requires InStore(s.store, plan) && k < |plan|
  {
    Committed(s, [Tip(s)], s.store[plan[k]].message, s.store[plan[k]].author)
  }

  /** A continue that finds step k refuses, or replays what comes after that step. */
  ghost predicate GoesOn(plan: seq<nat>, k: nat, s: Repo, ios: Script, out: Outcome, after: Repo)
    requires InStore(s.store, plan) && k < |plan|
  {
    if !Dirty(s) then Replays(s, plan, |plan|, k + 1, ios, out, after)
    else if s.index == HeadTree(s) then out == EmptyCommit && after == s
    else Replays(ResolutionCommitted(plan, k, s), plan, |plan|, k + 1, ios, out, after)
  }

  lemma ContinueReplaysTheRest(o: Repo, onto: nat, plan: seq<nat>, k: nat, s: Repo, ios: Script, out: Outcome,
                               after: Repo)
    requires Planned(o, onto, plan) && Started(o, onto, plan, s) && InStore(s.store, plan)
    requires Names(s, k) && k < |plan| && ContinueStep(s, ios, out, after)
    ensures GoesOn(plan, k, s, ios, out, after)
  {
    hide Replays, Committed, Dirty, Plan;
    StartedPlan(o, onto, plan, s);
  }

  /** Finished, stopped at a step after k, or refused for an empty resolution without touching anything. */
  predicate GoneOn(o: Repo, onto: nat, plan: seq<nat>, k: nat, s: Repo, out: Outcome, after: Repo) {
    LeftAt(o, onto, plan, k + 1, out, after) || (out == EmptyCommit && after == s && Dirty(s) && s.index == HeadTree(s))
  }

  lemma ContinueFromStep(o: Repo, onto: nat, plan: seq<nat>, k: nat, s: Repo, ios: Script, out: Outcome, after: Repo)
    requires Started(o, onto, plan, s) && InStore(s.store, plan) && k < |plan| && GoesOn(plan, k, s, ios, out, after)
    ensures GoneOn(o, onto, plan, k, s, out, after)
  {
    hide Started, Replays, Dirty, Committed, LeftAt;
    if !Dirty(s) {
      ReplaysKeepStarted(o, onto, plan, s, k + 1, ios, out, after);
    } else if s.index != HeadTree(s) {
      var c := s.store[plan[k]];
      CommitKeepsStarted(o, onto, plan, s, c.message, c.author);
      ReplaysKeepStarted(o, onto, plan, ResolutionCommitted(plan, k, s), k + 1, ios, out, after);
    }
  }

  /** Where the state files name no step of the plan: nothing to go on from, or nothing left to replay. */
  lemma ContinueWithoutStep(o: Repo, onto: nat, plan: seq<nat>, s: Repo, ios: Script, out: Outcome, after: Repo)
    requires Planned(o, onto, plan) && Started(o, onto, plan, s) && ContinueStep(s, ios, out, after)
    requires s.rebase.value.msgnum.Some? ==> s.rebase.value.msgnum.value >= |plan|
    ensures if s.rebase.value.msgnum.None? then out == StateFileMissing && after == s
            else Replays(s, plan, |plan|, s.rebase.value.msgnum.value + 1, ios, out, after)
  {
    hide Replays, Committed, Dirty, Plan;
    StartedPlan(o, onto, plan, s);
  }

  /** A continue from any recorded state: with whatever is staged it finishes, stops at a later step, or refuses an
      empty resolution and changes nothing; it never runs past the list. */
  lemma ContinueKeepsStarted(o: Repo, onto: nat, plan: seq<nat>, s: Repo, ios: Script, out: Outcome, after: Repo)
    requires Planned(o, onto, plan) && Started(o, onto, plan, s) && ContinueStep(s, ios, out, after)
    ensures after.rebase.Some? ==> Started(o, onto, plan, after)
    ensures out != IndexOutOfRange && (out == Done <==> after.rebase.None?)
    ensures s.rebase.value.msgnum.None? ==> out == StateFileMissing && after == s
    ensures forall k: nat :: Names(s, k) && k < |plan| ==> GoneOn(o, onto, plan, k, s, out, after)
  {
    StartedPlan(o, onto, plan, s);
    assert s.rebase.Some?;
    hide Plan, Started, Replays, Planned, ContinueStep, Dirty, GoesOn;
    if s.rebase.value.msgnum.Some? && s.rebase.value.msgnum.value < |plan| {
      var k := s.rebase.value.msgnum.value;
      ContinueReplaysTheRest(o, onto, plan, k, s, ios, out, after);
      ContinueFromStep(o, onto, plan, k, s, ios, out, after);
    } else {
      ContinueWithoutStep(o, onto, plan, s, ios, out, after);
      if s.rebase.value.msgnum.Some? {
        ReplaysKeepStarted(o, onto, plan, s, s.rebase.value.msgnum.value + 1, ios, out, after);
      }
    }
  }

  // ---------------------------------------------------------------- every call has an outcome

  lemma StopHasOutcome(m: Repo, c: nat, io: IO) returns (out: Outcome, after: Repo)
    requires c < |m.store| && ReplayStops(m, c, io)
    ensures StoppedReplay(m, c, io, out, after)
  {
    if m.store[c].parents == [] { return NoParent, m; }
    if ApplyFails(ParentTree(m.store, c), m.store[c].tree, io) { return MergeConflict, m; }
    out, after := EmptyCommit, ReplayStaged(m, c, io);
  }

  lemma {:induction false} ReplayHasOutcome(s: Repo, plan: seq<nat>, end: nat, i: nat, ios: Script)
    returns (out: Outcome, after: Repo)
    requires InStore(s.store, plan) && s.rebase.Some?
    ensures Replays(s, plan, end, i, ios, out, after)
    decreases end - i
  {
    hide ReplayStops, StoppedReplay, Replayed;
    if i >= end { return Done, s.(rebase := None); }
    var m := AtMessage(s, i);
    if i >= |plan| { return IndexOutOfRange, m; }
    if ReplayStops(m, plan[i], ios(i)) {
      out, after := StopHasOutcome(m, plan[i], ios(i));
    } else {
      var next := Replayed(m, plan[i], ios(i));
      ReplayedKeepsFiles(m, plan[i], ios(i));
      out, after := ReplayHasOutcome(next, plan, end, i + 1, ios);
    }
  }

  lemma ReplayedKeepsFiles(m: Repo, c: nat, io: IO)
    requires c < |m.store| && !ReplayStops(m, c, io)
    ensures m.store <= Replayed(m, c, io).store && Replayed(m, c, io).rebase == m.rebase
  {
    hide StagedIndex, StagedWork, ApplyFails;
  }

  /** Whatever the state and the faults, a continue has an outcome. */
  lemma ContinueHasOutcome(s: Repo, ios: Script) returns (out: Outcome, after: Repo)
    ensures ContinueStep(s, ios, out, after)
  {
    hide Replays, Committed;
    if s.rebase.None? { return NoRebaseInProgress, s; }
    var f := s.rebase.value;
    if f.msgnum.None? { return StateFileMissing, s; }
    var plan := Plan(s.store, f.origHead, f.onto);
    if plan.None? { return NoCommonAncestor, s; }
    BetweenInStore(s.store, MergeBase(s.store, f.origHead, f.onto).value, f.origHead);
    hide Plan, Dirty;
    var k := f.msgnum.value;
    var from := s;
    if Dirty(s) && k < |plan.value| {
      if s.index == HeadTree(s) { return EmptyCommit, s; }
      var c := s.store[plan.value[k]];
      from := Committed(s, [Tip(s)], c.message, c.author);
      CommittedKeepsFiles(s, c.message, c.author);
    }
    out, after := ReplayHasOutcome(from, plan.value, f.end, k + 1, ios);
  }

  lemma CommittedKeepsFiles(s: Repo, message: string, author: string)
    ensures Committed(s, [Tip(s)], message, author).rebase == s.rebase
  {
  }

  /** The same for the first call. */
  lemma RebaseHasOutcome(o: Repo, onto: nat, plan: seq<nat>, ios: Script) returns (out: Outcome, after: Repo)
    requires Planned(o, onto, plan)
    ensures RebaseStep(o, Some(onto), SetupWorks, ios, out, after)
  {
    hide Replays;
    out, after := ReplayHasOutcome(ResetTo(RebaseRecorded(o, onto, |plan|), onto), plan, |plan|, 0, ios);
  }

  // ---------------------------------------------------------------- runs with any edits

  /** One RebaseContinue call. */
  datatype Call = Call(ios: Script, out: Outcome, after: Repo)

  /** One RebaseContinue after the user left any index and working tree. */
  datatype EditedCall = EditedCall(index: Tree, work: Tree, call: Call)

  function Edited(s: Repo, e: EditedCall): Repo {
    s.(index := e.index, work := e.work)
  }

  ghost predicate EditedRun(s: Repo, calls: seq<EditedCall>)
    decreases |calls|
  {
    calls == []
    || (ContinueStep(Edited(s, calls[0]), calls[0].call.ios, calls[0].call.out, calls[0].call.after)
        && EditedRun(calls[0].call.after, calls[1..]))
  }

  function EndOf(s: Repo, calls: seq<EditedCall>): Repo {
    if calls == [] then s else calls[|calls| - 1].call.after
  }

  lemma EditKeepsStarted(o: Repo, onto: nat, plan: seq<nat>, s: Repo, e: EditedCall)
    requires Started(o, onto, plan, s)
    ensures Started(o, onto, plan, Edited(s, e))
  {
  }

  lemma EditedCallKeepsStarted(o: Repo, onto: nat, plan: seq<nat>, s: Repo, e: EditedCall)
    requires Planned(o, onto, plan) && (s.rebase.Some? ==> Started(o, onto, plan, s))
    requires ContinueStep(Edited(s, e), e.call.ios, e.call.out, e.call.after)
    ensures e.call.after.rebase.Some? ==> Started(o, onto, plan, e.call.after)
    ensures e.call.out != IndexOutOfRange
  {
    hide Planned, Plan;
    if s.rebase.Some? {
      EditKeepsStarted(o, onto, plan, s, e);
      hide Started, ContinueStep, Dirty;
      ContinueKeepsStarted(o, onto, plan, Edited(s, e), e.call.ios, e.call.out, e.call.after);
    }
  }

  lemma {:induction false} EditedRunKeepsStarted(o: Repo, onto: nat, plan: seq<nat>, s: Repo, calls: seq<EditedCall>)
    requires Planned(o, onto, plan) && (s.rebase.Some? ==> Started(o, onto, plan, s))
    requires EditedRun(s, calls)
    ensures EndOf(s, calls).rebase.Some? ==> Started(o, onto, plan, EndOf(s, calls))
    ensures forall i :: 0 <= i < |calls| ==> calls[i].call.out != IndexOutOfRange
    decreases |calls|
  {
    hide Planned, Started, ContinueStep, Edited;
    if calls != [] {
      EditedCallKeepsStarted(o, onto, plan, s, calls[0]);
      EditedRunKeepsStarted(o, onto, plan, calls[0].call.after, calls[1..]);
      forall i | 0 <= i < |calls| ensures calls[i].call.out != IndexOutOfRange {
        if i > 0 { assert calls[i] == calls[1..][i - 1]; }
      }
    }
  }

  /** Main result: in every in-progress state, after any faults at any steps, any edits by the user and any number of
      continues, the list that RebaseContinue computes again is the one Rebase planned, and `end` is its length;
      `msgnum`, once written, indexes it if no older rebase was under way. So no continue ever indexes past the
      list. */
  lemma RecomputedPlanIsThePlan(o: Repo, onto: nat, plan: seq<nat>, setup: Setup, ios: Script, out: Outcome, s: Repo,
                                calls: seq<EditedCall>)
    requires Planned(o, onto, plan) && RebaseStep(o, Some(onto), setup, ios, out, s) && EditedRun(s, calls)
    ensures
      var e := EndOf(s, calls);
      e.rebase.Some? ==>
        && Plan(e.store, e.rebase.value.origHead, e.rebase.value.onto) == Some(plan)
        && e.rebase.value.end == |plan|
        && (o.rebase == None && e.rebase.value.msgnum.Some? ==> e.rebase.value.msgnum.value < |plan|)
    ensures out != IndexOutOfRange && forall i :: 0 <= i < |calls| ==> calls[i].call.out != IndexOutOfRange
  {
    hide RebaseStep, EditedRun, Plan;
    StartRecords(o, onto, plan, setup, ios, out, s);
    EditedRunKeepsStarted(o, onto, plan, s, calls);
    if EndOf(s, calls).rebase.Some? {
      StartedPlan(o, onto, plan, EndOf(s, calls));
    }
  }

  // ---------------------------------------------------------------- a continue on a clean tree

  /** The call went past step k and the staged tree was not committed in its place. */
  predicate Skipped(plan: seq<nat>, k: nat, s: Repo, out: Outcome, after: Repo)
    requires InStore(s.store, plan) && k < |plan|
  {
    && (out == Done || exists j: nat :: k < j < |plan| && Names(after, j))
    && !(ResolutionCommitted(plan, k, s).store <= after.store)
  }

  /** A replay only adds commits, and the first one it adds changes the tree it lands on. */
  lemma {:induction false} ReplayAddsChanges(s: Repo, plan: seq<nat>, end: nat, i: nat, ios: Script, out: Outcome,
                                             after: Repo)
    requires Replays(s, plan, end, i, ios, out, after)
    ensures s.store <= after.store
    ensures |after.store| > |s.store| ==> after.store[|s.store|].tree != HeadTree(s)
    decreases end - i
  {
    hide StagedIndex, StagedWork, ApplyFails, PartlyStaged;
    if i < end && i < |plan| && !ReplayStops(AtMessage(s, i), plan[i], ios(i)) {
      ReplayAddsChanges(Replayed(AtMessage(s, i), plan[i], ios(i)), plan, end, i + 1, ios, out, after);
    }
  }

  lemma CleanSkips(o: Repo, onto: nat, plan: seq<nat>, k: nat, s: Repo, ios: Script, out: Outcome, after: Repo)
    requires InStore(s.store, plan) && k < |plan| && !Dirty(s) && GoneOn(o, onto, plan, k, s, out, after)
    requires Replays(s, plan, |plan|, k + 1, ios, out, after)
    ensures Skipped(plan, k, s, out, after)
  {
    hide Replays;
    ReplayAddsChanges(s, plan, |plan|, k + 1, ios, out, after);
    assert out == Done || Names(after, after.rebase.value.msgnum.value);
    assert ResolutionCommitted(plan, k, s).store[|s.store|].tree == s.index == HeadTree(s);
  }

  lemma DirtyDoesNot(plan: seq<nat>, k: nat, s: Repo, ios: Script, out: Outcome, after: Repo)
    requires InStore(s.store, plan) && k < |plan| && Dirty(s) && GoesOn(plan, k, s, ios, out, after)
    requires out == EmptyCommit && after == s ==> Names(s, k)
    ensures !Skipped(plan, k, s, out, after)
  {
    hide Replays, ResolutionCommitted;
    if s.index != HeadTree(s) {
      ReplayAddsChanges(ResolutionCommitted(plan, k, s), plan, |plan|, k + 1, ios, out, after);
    }
  }

  /** Main result: a continue drops the stopped commit's change, without an error, exactly when index and working tree
      are clean. On a dirty tree it commits what is staged in its place, or refuses when that changes nothing. */
  lemma CleanContinueSkips(o: Repo, onto: nat, plan: seq<nat>, k: nat, s: Repo, ios: Script, out: Outcome, after: Repo)
    requires Planned(o, onto, plan) && Started(o, onto, plan, s) && InStore(s.store, plan)
    requires Names(s, k) && k < |plan| && ContinueStep(s, ios, out, after)
    ensures Skipped(plan, k, s, out, after) <==> s.index == HeadTree(s) && s.work == s.index
    ensures s.index == HeadTree(s) && s.work != s.index ==> out == EmptyCommit && after == s
  {
    assert Dirty(s) <==> !(s.index == HeadTree(s) && s.work == s.index);
    hide Planned, ContinueStep, Replays, Plan, Started, Dirty, Skipped, GoneOn;
    ContinueReplaysTheRest(o, onto, plan, k, s, ios, out, after);
    ContinueFromStep(o, onto, plan, k, s, ios, out, after);
    if !Dirty(s) {
      CleanSkips(o, onto, plan, k, s, ios, out, after);
    } else {
      DirtyDoesNot(plan, k, s, ios, out, after);
    }
  }
}
