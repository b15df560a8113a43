/** Rebase over whole runs: interruption and resumption, abort, and what the replayed branch contains. */
module RebaseTheorems {
  import opened Basics
  import opened Trees
  import opened History
  import opened Repository
  import opened RebaseProgress

  // ---------------------------------------------------------------- what the replay should produce

  /** The tree the replay of `c` stages on top of `t`; a commit without parents has no change to replay. */
  function NextTree(s: Store, c: nat, t: Tree): Tree
    requires c < |s|
  {
    if s[c].parents == [] then t else Overlay(t, ParentTree(s, c), s[c].tree)
  }

  function TreeAfter(s: Store, plan: seq<nat>, t: Tree, k: nat): Tree
    requires InStore(s, plan) && k <= |plan|
  {
    if k == 0 then t else NextTree(s, plan[k - 1], TreeAfter(s, plan, t, k - 1))
  }

  datatype LogEntry = LogEntry(message: string, author: string, tree: Tree)

  /** The commits the first k steps should have added: one for each step that changes the tree. */
  function LogAfter(s: Store, plan: seq<nat>, t: Tree, k: nat): seq<LogEntry>
    requires InStore(s, plan) && k <= |plan|
  {
    if k == 0 then []
    else
      var after := TreeAfter(s, plan, t, k);
      LogAfter(s, plan, t, k - 1)
      + if after == TreeAfter(s, plan, t, k - 1) then []
        else [LogEntry(s[plan[k - 1]].message, s[plan[k - 1]].author, after)]
  }

  /** The commits of a branch after `onto`, oldest first, following first parents. */
  function BranchLog(s: Store, onto: nat, tip: nat): seq<LogEntry>
    requires tip < |s|
    decreases tip
  {
    if tip == onto || s[tip].parents == [] then []
    else BranchLog(s, onto, s[tip].parents[0]) + [LogEntry(s[tip].message, s[tip].author, s[tip].tree)]
  }

  lemma {:induction false} BranchLogStable(s: Store, grown: Store, onto: nat, tip: nat)
    requires s <= grown && tip < |s|
    ensures BranchLog(s, onto, tip) == BranchLog(grown, onto, tip)
    decreases tip
  {
    assert s[tip] == grown[tip];
    if tip != onto && s[tip].parents != [] {
      BranchLogStable(s, grown, onto, s[tip].parents[0]);
    }
  }

  // ---------------------------------------------------------------- states of a rebase in progress

  /** `s` is a rebase of `o` whose first i steps are done. */
  ghost predicate AtStep(o: Repo, onto: nat, plan: seq<nat>, s: Repo, i: nat) {
    && Known(o, onto, plan) && i <= |plan|
    && SameBranch(o, s)
    && HeadTree(s) == TreeAfter(o.store, plan, o.store[onto].tree, i)
    && BranchLog(s.store, onto, Tip(s)) == LogAfter(o.store, plan, o.store[onto].tree, i)
    && s.rebase.Some?
    && s.rebase.value.(msgnum := None) == RebaseFiles(Tip(o), onto, o.head, |plan|, None)
  }

  /** `s` is a rebase of `o` stopped at the step that `msgnum` names. */
  ghost predicate Interrupted(o: Repo, onto: nat, plan: seq<nat>, s: Repo) {
    && s.rebase.Some? && s.rebase.value.msgnum.Some? && s.rebase.value.msgnum.value < |plan|
    && AtStep(o, onto, plan, s, s.rebase.value.msgnum.value)
  }

  ghost predicate Completed(o: Repo, onto: nat, plan: seq<nat>, s: Repo) {
    && Known(o, onto, plan)
    && SameBranch(o, s)
    && s.rebase.None?
    && s.index == HeadTree(s)
    && HeadTree(s) == TreeAfter(o.store, plan, o.store[onto].tree, |plan|)
    && BranchLog(s.store, onto, Tip(s)) == LogAfter(o.store, plan, o.store[onto].tree, |plan|)
  }

  /** The step that the state files name. */
  function Position(s: Repo): int {
    if s.rebase.Some? && s.rebase.value.msgnum.Some? then s.rebase.value.msgnum.value else -1
  }

  /** Where the call that reported `out` left the rebase. */
  ghost predicate Settled(o: Repo, onto: nat, plan: seq<nat>, out: Outcome, s: Repo) {
    if out == Done then Completed(o, onto, plan, s) else Interrupted(o, onto, plan, s)
  }

  /** The faults of a step stop it or do not touch its deletions: no failed deletion passes unnoticed. */
  predicate HonestStep(s: Store, c: nat, io: IO)
    requires c < |s|
  {
    || s[c].parents == []
    || ApplyFails(ParentTree(s, c), s[c].tree, io)
    || forall p :: p in Diff(ParentTree(s, c), s[c].tree) && p !in s[c].tree ==> p !in io
  }

  predicate Honest(s: Store, plan: seq<nat>, ios: Script)
    requires InStore(s, plan)
  {
    forall i :: 0 <= i < |plan| ==> HonestStep(s, plan[i], ios(i))
  }

  /** A step that goes through stages the intended tree exactly when no deletion of a present file was lost. */
  lemma StepIsExact(r: Repo, c: nat, io: IO)
    requires c < |r.store| && r.store[c].parents != []
    requires !ApplyFails(ParentTree(r.store, c), r.store[c].tree, io)
    ensures ReplayStaged(r, c, io).index == NextTree(r.store, c, r.index)
            <==> forall p ::
              p in Diff(ParentTree(r.store, c), r.store[c].tree) && p !in r.store[c].tree && p in io ==> p !in r.index
  {
    var base, source := ParentTree(r.store, c), r.store[c].tree;
    var staged, wanted := ReplayStaged(r, c, io).index, NextTree(r.store, c, r.index);
    forall p: Path
      ensures At(staged, p) == At(wanted, p) <==> !(p in Diff(base, source) && p !in source && p in io && p in r.index)
    {
      OverlayKeepingAt(r.index, base, source, io.Keys, p);
      OverlayAt(r.index, base, source, p);
      DiffAt(base, source, p);
    }
    if forall p: Path :: At(staged, p) == At(wanted, p) {
      SameTree(staged, wanted);
    }
  }

  // ---------------------------------------------------------------- the replay loop keeps the invariant

  lemma CommitAdvances(o: Repo, onto: nat, plan: seq<nat>, s: Repo, i: nat)
    requires AtStep(o, onto, plan, s, i) && i < |plan|
    requires s.index == TreeAfter(o.store, plan, o.store[onto].tree, i + 1) && s.index != HeadTree(s)
    ensures
      var c := s.store[plan[i]];
      AtStep(o, onto, plan, Committed(s, [Tip(s)], c.message, c.author), i + 1)
  {
    var c := s.store[plan[i]];
    assert c == o.store[plan[i]];
    var after := Committed(s, [Tip(s)], c.message, c.author);
    LogGrows(o.store, plan, o.store[onto].tree, i);
    hide TreeAfter, LogAfter, BranchLog, NextTree, SameBranch, Committed;
    CommitExtendsLog(s, onto, c.message, c.author);
    CommitStaysOnBranch(o, s, c.message, c.author);
  }

  lemma CommitStaysOnBranch(o: Repo, s: Repo, message: string, author: string)
    requires SameBranch(o, s)
    ensures SameBranch(o, Committed(s, [Tip(s)], message, author))
    ensures Committed(s, [Tip(s)], message, author).rebase == s.rebase
  {
  }

  lemma LogGrows(s: Store, plan: seq<nat>, t: Tree, i: nat)
    requires InStore(s, plan) && i < |plan| && TreeAfter(s, plan, t, i + 1) != TreeAfter(s, plan, t, i)
    ensures LogAfter(s, plan, t, i + 1)
            == LogAfter(s, plan, t, i) + [LogEntry(s[plan[i]].message, s[plan[i]].author, TreeAfter(s, plan, t, i + 1))]
  {
    hide TreeAfter;
  }

  /** A commit on a branch that contains `onto` adds one entry to its log. */
  lemma CommitExtendsLog(s: Repo, onto: nat, message: string, author: string)
    requires onto < |s.store|
    ensures
      var after := Committed(s, [Tip(s)], message, author);
      BranchLog(after.store, onto, Tip(after)) == BranchLog(s.store, onto, Tip(s)) + [LogEntry(message, author, s.index)]
  {
    var after := Committed(s, [Tip(s)], message, author);
    BranchLogStable(s.store, after.store, onto, Tip(s));
    assert Tip(after) != onto;
  }

  lemma SameCommit(s: Store, grown: Store, c: nat)
    requires s <= grown && c < |s|
    ensures s[c] == grown[c]
    ensures s[c].parents != [] ==> ParentTree(s, c) == ParentTree(grown, c)
    ensures forall t :: NextTree(s, c, t) == NextTree(grown, c, t)
  {
    assert s[c] == grown[c];
  }

  /** An honest step that goes through commits the next planned tree. */
  lemma StepKeeps(o: Repo, onto: nat, plan: seq<nat>, m: Repo, i: nat, io: IO)
    requires AtStep(o, onto, plan, m, i) && i < |plan| && m.index == HeadTree(m)
    requires HonestStep(o.store, plan[i], io) && plan[i] < |m.store| && !ReplayStops(m, plan[i], io)
    ensures AtStep(o, onto, plan, Replayed(m, plan[i], io), i + 1)
    ensures Replayed(m, plan[i], io).index == HeadTree(Replayed(m, plan[i], io))
  {
    SameCommit(o.store, m.store, plan[i]);
    StepIsExact(m, plan[i], io);
    var staged := ReplayStaged(m, plan[i], io);
    assert AtStep(o, onto, plan, staged, i);
    CommitAdvances(o, onto, plan, staged, i);
  }

  lemma StopKeeps(o: Repo, onto: nat, plan: seq<nat>, s: Repo, i: nat, io: IO, out: Outcome, after: Repo)
    requires AtStep(o, onto, plan, s, i) && i < |plan|
    requires plan[i] < |s.store| && ReplayStops(AtMessage(s, i), plan[i], io)
    requires StoppedReplay(AtMessage(s, i), plan[i], io, out, after)
    ensures out != Done && Settled(o, onto, plan, out, after) && Position(after) == i
  {
    hide TreeAfter, LogAfter, BranchLog, StagedIndex, StagedWork, ApplyFails, PartlyStaged;
  }

  lemma AtStepBounds(o: Repo, onto: nat, plan: seq<nat>, s: Repo, i: nat)
    requires AtStep(o, onto, plan, s, i)
    ensures Known(o, onto, plan) && i <= |plan|
  {
  }

  /** After the last step the state files go and the rebase is complete. */
  lemma FinishKeeps(o: Repo, onto: nat, plan: seq<nat>, s: Repo, ios: Script, out: Outcome, after: Repo)
    requires AtStep(o, onto, plan, s, |plan|) && s.index == HeadTree(s) && Replays(s, plan, |plan|, |plan|, ios, out, after)
    ensures out == Done && Settled(o, onto, plan, out, after)
  {
    hide TreeAfter, LogAfter, BranchLog;
  }

  lemma HonestAt(s: Store, plan: seq<nat>, ios: Script, i: nat)
    requires InStore(s, plan) && Honest(s, plan, ios) && i < |plan|
    ensures HonestStep(s, plan[i], ios(i))
  {
  }

  /** Writing `msgnum` changes nothing but the state files. */
  lemma NamedStepIsStep(o: Repo, onto: nat, plan: seq<nat>, s: Repo, i: nat)
    requires AtStep(o, onto, plan, s, i)
    ensures AtStep(o, onto, plan, AtMessage(s, i), i)
    ensures AtMessage(s, i).index == s.index && HeadTree(AtMessage(s, i)) == HeadTree(s)
  {
    hide TreeAfter, LogAfter, BranchLog;
  }

  /** One round of an honest replay: it stops at step i, or goes on from the next step with a clean index. */
  lemma RoundKeeps(o: Repo, onto: nat, plan: seq<nat>, s: Repo, i: nat, ios: Script, out: Outcome, after: Repo)
    returns (stops: bool, next: Repo)
    requires AtStep(o, onto, plan, s, i) && s.index == HeadTree(s) && i < |plan|
    requires Honest(o.store, plan, ios) && Replays(s, plan, |plan|, i, ios, out, after)
    ensures plan[i] < |s.store| && stops == ReplayStops(AtMessage(s, i), plan[i], ios(i))
    ensures if stops then out != Done && Settled(o, onto, plan, out, after) && Position(after) == i
            else AtStep(o, onto, plan, next, i + 1) && next.index == HeadTree(next)
                 && Replays(next, plan, |plan|, i + 1, ios, out, after)
  {
    AtStepBounds(o, onto, plan, s, i);
    ReplayRound(s, plan, i, ios, out, after);
    HonestAt(o.store, plan, ios, i);
    NamedStepIsStep(o, onto, plan, s, i);
    var m, c, io := AtMessage(s, i), plan[i], ios(i);
    stops, next := ReplayStops(m, c, io), s;
    hide Replays, ReplayStops, StoppedReplay, Replayed, AtStep, Honest, HonestStep, Settled, Position, Known, AtMessage;
    if stops {
      StopKeeps(o, onto, plan, s, i, io, out, after);
    } else {
      next := Replayed(m, c, io);
      StepKeeps(o, onto, plan, m, i, io);
    }
  }

  lemma {:induction false} ReplaysKeeps(o: Repo, onto: nat, plan: seq<nat>, s: Repo, i: nat, ios: Script,
                                        out: Outcome, after: Repo)
    requires AtStep(o, onto, plan, s, i) && s.index == HeadTree(s)
    requires Honest(o.store, plan, ios) && Replays(s, plan, |plan|, i, ios, out, after)
    ensures Settled(o, onto, plan, out, after)
    ensures out != Done ==> Position(after) >= i
    decreases |plan| - i
  {
    hide Replays, AtStep, Honest, Settled, Position, Known, InStore, ReplayStops;
    AtStepBounds(o, onto, plan, s, i);
    if i == |plan| {
      FinishKeeps(o, onto, plan, s, ios, out, after);
    } else {
      var stops, next := RoundKeeps(o, onto, plan, s, i, ios, out, after);
      if !stops { ReplaysKeeps(o, onto, plan, next, i + 1, ios, out, after); }
    }
  }

  /** Where the replay starts: on `onto`, with the state files written. */
  lemma StartsAtStepZero(o: Repo, onto: nat, plan: seq<nat>)
    requires Known(o, onto, plan)
    ensures AtStep(o, onto, plan, ResetTo(RebaseRecorded(o, onto, |plan|), onto), 0)
  {
  }

  lemma StartReplays(o: Repo, onto: nat, plan: seq<nat>, ios: Script, out: Outcome, after: Repo)
    requires Planned(o, onto, plan) && RebaseStep(o, Some(onto), SetupWorks, ios, out, after)
    ensures Replays(ResetTo(RebaseRecorded(o, onto, |plan|), onto), plan, |plan|, 0, ios, out, after)
  {
  }

  /** Starting: the rebase completes, or stops in a state that satisfies the invariant. */
  lemma StartKeeps(o: Repo, onto: nat, plan: seq<nat>, ios: Script, out: Outcome, after: Repo)
    requires Planned(o, onto, plan) && Honest(o.store, plan, ios)
    requires RebaseStep(o, Some(onto), SetupWorks, ios, out, after)
    ensures Settled(o, onto, plan, out, after)
  {
    StartsAtStepZero(o, onto, plan);
    StartReplays(o, onto, plan, ios, out, after);
    ReplaysKeeps(o, onto, plan, ResetTo(RebaseRecorded(o, onto, |plan|), onto), 0, ios, out, after);
  }

  /** An interrupted state records the rebase and the step it stopped at. */
  lemma InterruptedIsStarted(o: Repo, onto: nat, plan: seq<nat>, s: Repo)
    requires Planned(o, onto, plan) && Interrupted(o, onto, plan, s)
    ensures Started(o, onto, plan, s) && CanResume(plan, s)
  {
    StartedPlan(o, onto, plan, s);
  }

  predicate CanResume(plan: seq<nat>, s: Repo) {
    InStore(s.store, plan) && s.rebase.Some? && s.rebase.value.msgnum.Some? && s.rebase.value.msgnum.value < |plan|
  }

  /** The user's resolution of step k: the tree it would have staged on HEAD, staged and checked out. */
  function ResolvedStep(plan: seq<nat>, k: nat, s: Repo): Repo
    requires InStore(s.store, plan) && k < |plan|
  {
    var t := NextTree(s.store, plan[k], HeadTree(s));
    s.(index := t, work := t)
  }

  /** The resolution of the step that the state files name. */
  function Resolved(plan: seq<nat>, s: Repo): Repo
    requires CanResume(plan, s)
  {
    ResolvedStep(plan, s.rebase.value.msgnum.value, s)
  }

  /** The state the resuming loop starts from: the resolution committed, unless it changes nothing. */
  function AfterResolution(plan: seq<nat>, k: nat, r: Repo): Repo
    requires InStore(r.store, plan) && k < |plan|
  {
    if Dirty(r) then ResolutionCommitted(plan, k, r) else r
  }

  lemma ResolutionAdvances(o: Repo, onto: nat, plan: seq<nat>, k: nat, s: Repo)
    requires AtStep(o, onto, plan, s, k) && InStore(s.store, plan) && k < |plan|
    ensures
      var r := AfterResolution(plan, k, ResolvedStep(plan, k, s));
      AtStep(o, onto, plan, r, k + 1) && r.index == HeadTree(r)
  {
    SameCommit(o.store, s.store, plan[k]);
    var r := ResolvedStep(plan, k, s);
    assert AtStep(o, onto, plan, r, k);
    if Dirty(r) {
      CommitAdvances(o, onto, plan, r, k);
    }
  }

  /** A continue on a resolution commits it, unless it changes nothing, and replays the rest. */
  lemma ContinueReplays(o: Repo, onto: nat, plan: seq<nat>, k: nat, r: Repo, ios: Script, out: Outcome, after: Repo)
    requires Planned(o, onto, plan) && Started(o, onto, plan, r) && InStore(r.store, plan) && Names(r, k) && k < |plan|
    requires r.index == r.work && ContinueStep(r, ios, out, after)
    ensures InStore(AfterResolution(plan, k, r).store, plan)
    ensures Replays(AfterResolution(plan, k, r), plan, |plan|, k + 1, ios, out, after)
  {
    hide Planned, ContinueStep, Replays, Started;
    ContinueReplaysTheRest(o, onto, plan, k, r, ios, out, after);
  }

  lemma ResolvedIsStarted(o: Repo, onto: nat, plan: seq<nat>, k: nat, s: Repo)
    requires Started(o, onto, plan, s) && InStore(s.store, plan) && Names(s, k) && k < |plan|
    ensures
      var r := ResolvedStep(plan, k, s);
      Started(o, onto, plan, r) && Names(r, k) && InStore(r.store, plan) && r.index == r.work
  {
    hide NextTree;
  }

  /** Resolving and continuing completes the rebase or stops it at a later step. */
  lemma ContinueKeeps(o: Repo, onto: nat, plan: seq<nat>, s: Repo, ios: Script, out: Outcome, after: Repo)
    requires Planned(o, onto, plan) && Interrupted(o, onto, plan, s) && CanResume(plan, s) && Honest(o.store, plan, ios)
    requires ContinueStep(Resolved(plan, s), ios, out, after)
    ensures Settled(o, onto, plan, out, after)
    ensures out != Done ==> Position(after) > Position(s)
  {
    var k := s.rebase.value.msgnum.value;
    InterruptedIsStarted(o, onto, plan, s);
    ResumeKeeps(o, onto, plan, k, s, ios, out, after);
  }

  lemma ResumeKeeps(o: Repo, onto: nat, plan: seq<nat>, k: nat, s: Repo, ios: Script, out: Outcome, after: Repo)
    requires Planned(o, onto, plan) && Started(o, onto, plan, s) && AtStep(o, onto, plan, s, k) && Honest(o.store, plan, ios)
    requires InStore(s.store, plan) && Names(s, k) && k < |plan|
    requires ContinueStep(ResolvedStep(plan, k, s), ios, out, after)
    ensures Settled(o, onto, plan, out, after)
    ensures out != Done ==> Position(after) > k
  {
    hide Replays, AfterResolution, ResolvedStep, ContinueStep, Honest, AtStep, Planned, Started, Settled, Names;
    var r := ResolvedStep(plan, k, s);
    ResolvedIsStarted(o, onto, plan, k, s);
    ResolutionAdvances(o, onto, plan, k, s);
    ContinueReplays(o, onto, plan, k, r, ios, out, after);
    ReplaysKeeps(o, onto, plan, AfterResolution(plan, k, r), k + 1, ios, out, after);
  }

  // ---------------------------------------------------------------- whole runs

  /** From `s`: resolve and continue, once for each call. */
  ghost predicate ResumedRun(plan: seq<nat>, s: Repo, calls: seq<Call>)
    decreases |calls|
  {
    calls == []
    || (&& CanResume(plan, s)
        && ContinueStep(Resolved(plan, s), calls[0].ios, calls[0].out, calls[0].after)
        && ResumedRun(plan, calls[0].after, calls[1..]))
  }

  function LastOutcome(out: Outcome, calls: seq<Call>): Outcome {
    if calls == [] then out else calls[|calls| - 1].out
  }

  function LastState(s: Repo, calls: seq<Call>): Repo {
    if calls == [] then s else calls[|calls| - 1].after
  }

  lemma LastOfTail(out: Outcome, s: Repo, calls: seq<Call>)
    ensures calls == [] ==> LastOutcome(out, calls) == out && LastState(s, calls) == s
    ensures calls != [] ==> LastOutcome(out, calls) == LastOutcome(calls[0].out, calls[1..])
                            && LastState(s, calls) == LastState(calls[0].after, calls[1..])
  {
  }

  lemma CallKeeps(o: Repo, onto: nat, plan: seq<nat>, out: Outcome, s: Repo, call: Call)
    requires Planned(o, onto, plan) && Settled(o, onto, plan, out, s) && CanResume(plan, s)
    requires ContinueStep(Resolved(plan, s), call.ios, call.out, call.after) && Honest(o.store, plan, call.ios)
    ensures Settled(o, onto, plan, call.out, call.after)
    ensures if call.out == Done then !CanResume(plan, call.after) else Position(call.after) > Position(s)
    ensures Position(s) < |plan|
  {
    hide AtStep, Plan, Honest, Resolved, ContinueStep;
    ContinueKeeps(o, onto, plan, s, call.ios, call.out, call.after);
  }

  lemma {:induction false} RunKeeps(o: Repo, onto: nat, plan: seq<nat>, out: Outcome, s: Repo, calls: seq<Call>)
    requires Planned(o, onto, plan) && ResumedRun(plan, s, calls)
    requires Settled(o, onto, plan, out, s)
    requires forall j :: 0 <= j < |calls| ==> Honest(o.store, plan, calls[j].ios)
    ensures Settled(o, onto, plan, LastOutcome(out, calls), LastState(s, calls))
    ensures LastOutcome(out, calls) != Done ==> Position(LastState(s, calls)) >= Position(s) + |calls|
    ensures calls != [] ==> Position(s) + |calls| <= |plan|
    decreases |calls|
  {
    hide Settled, Honest, Plan, Resolved, ContinueStep, CanResume, LastOutcome, LastState, Position;
    LastOfTail(out, s, calls);
    if calls != [] {
      CallKeeps(o, onto, plan, out, s, calls[0]);
      LastOfTail(calls[0].out, calls[0].after, calls[1..]);
      RunKeeps(o, onto, plan, calls[0].out, calls[0].after, calls[1..]);
    }
  }

  /** Main result: resuming ends. As long as the rebase has not finished another continue is possible, and after the
      first call no more than |plan| continues are, of which fewer than |plan| fail. */
  lemma ResumedRunsEnd(o: Repo, onto: nat, plan: seq<nat>, ios: Script, out: Outcome, s: Repo, calls: seq<Call>)
    requires Planned(o, onto, plan) && Honest(o.store, plan, ios)
    requires RebaseStep(o, Some(onto), SetupWorks, ios, out, s) && ResumedRun(plan, s, calls)
    requires forall j :: 0 <= j < |calls| ==> Honest(o.store, plan, calls[j].ios)
    ensures |calls| <= |plan|
    ensures LastOutcome(out, calls) != Done ==> |calls| < |plan| && CanResume(plan, LastState(s, calls))
  {
    hide RebaseStep, Honest, AtStep, Planned, Completed;
    StartKeeps(o, onto, plan, ios, out, s);
    RunKeeps(o, onto, plan, out, s, calls);
    if LastOutcome(out, calls) != Done { InterruptedIsStarted(o, onto, plan, LastState(s, calls)); }
    if calls != [] { assert CanResume(plan, s); }
  }

  /** Two finished rebases of `o` that nothing in refs, tree, index or the replayed commits tells apart. */
  ghost predicate SameResult(o: Repo, onto: nat, a: Repo, b: Repo) {
    && HeadTree(a) == HeadTree(b)
    && BranchLog(a.store, onto, Tip(a)) == BranchLog(b.store, onto, Tip(b))
    && a.index == b.index && a.rebase == b.rebase == None
    && a.refs[o.head := Tip(b)] == b.refs
  }

  /** Two rebases of `o` that complete: one in a first call that reports `out` and any number of resumed ones, and one
      in a single call. */
  ghost predicate TwoRuns(o: Repo, onto: nat, plan: seq<nat>, ios: Script, out: Outcome, s: Repo, calls: seq<Call>,
                          straightIos: Script, straight: Repo) {
    && Planned(o, onto, plan) && Honest(o.store, plan, ios) && Honest(o.store, plan, straightIos)
    && RebaseStep(o, Some(onto), SetupWorks, ios, out, s) && ResumedRun(plan, s, calls)
    && (forall j :: 0 <= j < |calls| ==> Honest(o.store, plan, calls[j].ios))
    && LastOutcome(out, calls) == Done
    && RebaseStep(o, Some(onto), SetupWorks, straightIos, Done, straight)
  }

  /** Main result: a rebase interrupted at any steps, any number of times, and resumed each time with the tree the
      stopped step would have staged ends, when it ends, with the tree, the messages and the authors of any other run
      that completes, and in particular of an uninterrupted one. */
  lemma InterruptionsDoNotMatter(o: Repo, onto: nat, plan: seq<nat>, ios: Script, out: Outcome, s: Repo,
                                 calls: seq<Call>,
                                 straightIos: Script, straight: Repo)
    requires TwoRuns(o, onto, plan, ios, out, s, calls, straightIos, straight)
    ensures SameResult(o, onto, LastState(s, calls), straight)
  {
    hide RebaseStep, ResumedRun, Interrupted, Honest, Plan, TreeAfter, LogAfter, BranchLog;
    StartKeeps(o, onto, plan, ios, out, s);
    RunKeeps(o, onto, plan, out, s, calls);
    StartKeeps(o, onto, plan, straightIos, Done, straight);
  }

  /** Every step from i on changes the tree it lands on. */
  ghost predicate AllChange(o: Repo, onto: nat, plan: seq<nat>, i: nat)
    requires Known(o, onto, plan)
  {
    forall j: nat :: i <= j < |plan| ==>
      TreeAfter(o.store, plan, o.store[onto].tree, j + 1) != TreeAfter(o.store, plan, o.store[onto].tree, j)
  }

  lemma UndisturbedStep(o: Repo, onto: nat, plan: seq<nat>, m: Repo, i: nat, io: IO)
    requires AtStep(o, onto, plan, m, i) && i < |plan| && m.index == HeadTree(m)
    requires plan[i] < |m.store| && io == map[]
    ensures ReplayStops(m, plan[i], io)
            <==> TreeAfter(o.store, plan, o.store[onto].tree, i + 1) == TreeAfter(o.store, plan, o.store[onto].tree, i)
  {
    SameCommit(o.store, m.store, plan[i]);
    if m.store[plan[i]].parents != [] {
      StepIsExact(m, plan[i], io);
    }
  }

  lemma FaultlessIsHonest(s: Store, plan: seq<nat>, ios: Script)
    requires InStore(s, plan) && forall j: nat :: ios(j) == map[]
    ensures Honest(s, plan, ios)
  {
  }

  lemma KnownInStore(o: Repo, onto: nat, plan: seq<nat>)
    requires Known(o, onto, plan)
    ensures InStore(o.store, plan) && onto < |o.store|
  {
  }

  lemma AllChangeFrom(o: Repo, onto: nat, plan: seq<nat>, i: nat)
    requires Known(o, onto, plan) && i < |plan|
    ensures AllChange(o, onto, plan, i)
            <==> TreeAfter(o.store, plan, o.store[onto].tree, i + 1) != TreeAfter(o.store, plan, o.store[onto].tree, i)
                 && AllChange(o, onto, plan, i + 1)
  {
    hide TreeAfter;
  }

  lemma AllChangeAtEnd(o: Repo, onto: nat, plan: seq<nat>)
    requires Known(o, onto, plan)
    ensures AllChange(o, onto, plan, |plan|)
  {
  }

  lemma {:induction false} UndisturbedReplay(o: Repo, onto: nat, plan: seq<nat>, s: Repo, i: nat, ios: Script,
                                             out: Outcome, after: Repo)
    requires AtStep(o, onto, plan, s, i) && s.index == HeadTree(s) && Known(o, onto, plan)
    requires Replays(s, plan, |plan|, i, ios, out, after) && forall j: nat :: ios(j) == map[]
    ensures out == Done <==> AllChange(o, onto, plan, i)
    decreases |plan| - i
  {
    hide Replays, AtStep, Honest, Settled, Position, TreeAfter, ReplayStops, Known, InStore, AllChange;
    AtStepBounds(o, onto, plan, s, i);
    if i < |plan| {
      KnownInStore(o, onto, plan);
      FaultlessIsHonest(o.store, plan, ios);
      var stops, next := RoundKeeps(o, onto, plan, s, i, ios, out, after);
      UndisturbedRound(o, onto, plan, s, i, ios(i));
      AllChangeFrom(o, onto, plan, i);
      if !stops { UndisturbedReplay(o, onto, plan, next, i + 1, ios, out, after); }
    } else {
      FinishKeeps(o, onto, plan, s, ios, out, after);
      AllChangeAtEnd(o, onto, plan);
    }
  }

  /** Without faults a step stops exactly when it changes nothing. */
  lemma UndisturbedRound(o: Repo, onto: nat, plan: seq<nat>, s: Repo, i: nat, io: IO)
    requires AtStep(o, onto, plan, s, i) && s.index == HeadTree(s) && Known(o, onto, plan)
    requires i < |plan| && plan[i] < |s.store| && io == map[]
    ensures ReplayStops(AtMessage(s, i), plan[i], io)
            <==> TreeAfter(o.store, plan, o.store[onto].tree, i + 1) == TreeAfter(o.store, plan, o.store[onto].tree, i)
  {
    NamedStepIsStep(o, onto, plan, s, i);
    var m := AtMessage(s, i);
    hide AtStep, AtMessage, TreeAfter, ReplayStops;
    UndisturbedStep(o, onto, plan, m, i, io);
  }

  /** Without disk faults a rebase runs through in one call exactly when every step changes the tree it lands on. */
  lemma UndisturbedRebaseCompletes(o: Repo, onto: nat, plan: seq<nat>, ios: Script, out: Outcome, after: Repo)
    requires Planned(o, onto, plan) && forall j: nat :: ios(j) == map[]
    requires RebaseStep(o, Some(onto), SetupWorks, ios, out, after)
    ensures out == Done <==> AllChange(o, onto, plan, 0)
  {
    StartsAtStepZero(o, onto, plan);
    StartReplays(o, onto, plan, ios, out, after);
    UndisturbedReplay(o, onto, plan, ResetTo(RebaseRecorded(o, onto, |plan|), onto), 0, ios, out, after);
  }
}
