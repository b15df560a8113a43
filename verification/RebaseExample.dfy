/** A small rebase that is interrupted, resumed and could be aborted: the theorems about such runs speak of
    something. */
module RebaseExample {
  import opened Basics
  import opened Trees
  import opened History
  import opened Repository
  import opened RebaseProgress
  import opened RebaseTheorems

  const EDITED: Tree := map["f" := "a"]
  const OTHER: Tree := map["g" := "b"]
  const BOTH: Tree := map["g" := "b", "f" := "a"]
  const BRANCH := "refs/heads/topic"

  /** A branch with one commit, and one commit beside it. */
  function Commits(): Store {
    [Commit([], map[], "base", "me"), Commit([0], EDITED, "edit", "me"), Commit([0], OTHER, "other", "you")]
  }

  function Start(): Repo {
    Snapshot(Commits(), map[BRANCH := 1], BRANCH, EDITED, EDITED, None)
  }

  /** The file of the replayed commit cannot be written. */
  const BROKEN: Script := i => map["f" := WriteFails("")]

  lemma PlanIsOneCommit(s: Store)
    requires s == Commits()
    ensures MergeBase(s, 1, 2) == Some(0) && Plan(s, 1, 2) == Some([1]) && InStore(s, [1])
  {
    assert !IsAncestor(s, 1, 0) && !IsAncestor(s, 1, 2);
    assert IsAncestor(s, 0, 0) && IsAncestor(s, 0, s[1].parents[0]) && IsAncestor(s, 0, s[2].parents[0]);
    assert CommonBelow(s, 1, 2, 1) == Some(0) && CommonBelow(s, 1, 2, 2) == Some(0);
    assert Linear(s, 0, 0) && Linear(s, 0, 1);
    BetweenIsExact(s, 0, 1, 1);
    assert Chain(s, 0, 0) == [] && Chain(s, 0, 1) == [1];
  }

  /** The state in which the first call stops. */
  function Stopped(): Repo {
    AtMessage(ResetTo(RebaseRecorded(Start(), 2, 1), 2), 0)
  }

  lemma FirstCallStops()
    ensures RebaseStep(Start(), Some(2), SetupWorks, BROKEN, MergeConflict, Stopped())
    ensures Planned(Start(), 2, [1]) && Honest(Commits(), [1], BROKEN)
  {
    PlanIsOneCommit(Commits());
    var r := ResetTo(RebaseRecorded(Start(), 2, 1), 2);
    assert "f" in Diff(map[], EDITED);
    assert ApplyFails(ParentTree(r.store, 1), r.store[1].tree, BROKEN(0));
    assert StoppedReplay(AtMessage(r, 0), 1, BROKEN(0), MergeConflict, Stopped());
    assert Replays(r, [1], 1, 0, BROKEN, MergeConflict, Stopped());
  }

  lemma StagedBoth()
    ensures Overlay(OTHER, map[], EDITED) == BOTH && BOTH != OTHER
    ensures StagedIndex(OTHER, map[], EDITED, map[]) == BOTH == StagedWork(OTHER, map[], EDITED, map[])
  {
    var none: IO := map[];
    assert none.Keys == {};
    assert Diff(map[], EDITED) == {"f"};
  }

  /** The replayed commit on top of the other one. */
  function Finished(r: Repo): Repo {
    Committed(r.(index := BOTH, work := BOTH), [Tip(r)], "edit", "me").(rebase := None)
  }

  lemma SecondCallCompletes()
    ensures CanResume([1], Stopped()) && ContinueStep(Resolved([1], Stopped()), FAULTLESS, Done, Finished(Stopped()))
  {
    PlanIsOneCommit(Commits());
    StagedBoth();
    var r := Resolved([1], Stopped());
    assert r == Stopped().(index := BOTH, work := BOTH);
    assert Dirty(r);
    var next := Committed(r, [Tip(r)], "edit", "me");
    assert Replays(next, [1], 1, 1, FAULTLESS, Done, Finished(Stopped()));
  }

  lemma SingleCallCompletes()
    ensures RebaseStep(Start(), Some(2), SetupWorks, FAULTLESS, Done, Finished(Stopped())) && Honest(Commits(), [1], FAULTLESS)
  {
    PlanIsOneCommit(Commits());
    StagedBoth();
    var r := ResetTo(RebaseRecorded(Start(), 2, 1), 2);
    var m := AtMessage(r, 0);
    assert !ApplyFails(ParentTree(m.store, 1), m.store[1].tree, FAULTLESS(0));
    assert ReplayStaged(m, 1, FAULTLESS(0)) == m.(index := BOTH, work := BOTH);
    var next := Replayed(m, 1, FAULTLESS(0));
    assert Replays(next, [1], 1, 1, FAULTLESS, Done, Finished(Stopped()));
    assert Replays(r, [1], 1, 0, FAULTLESS, Done, Finished(Stopped()));
  }

  /** Interrupted and resumed runs exist: the premises of the main rebase theorem can be met by a run with an
      interruption. */
  lemma AnInterruptedRunExists()
    ensures exists o, onto, plan, ios, s, calls, straightIos, straight ::
      TwoRuns(o, onto, plan, ios, MergeConflict, s, calls, straightIos, straight) && |calls| == 1
  {
    hide RebaseStep, ContinueStep, CanResume, Resolved, Planned, Honest, Finished, Stopped;
    FirstCallStops();
    SecondCallCompletes();
    SingleCallCompletes();
    var calls := [Call(FAULTLESS, Done, Finished(Stopped()))];
    assert calls[1..] == [];
    assert ResumedRun([1], Finished(Stopped()), []);
    assert ResumedRun([1], Stopped(), calls);
    assert TwoRuns(Start(), 2, [1], BROKEN, MergeConflict, Stopped(), calls, FAULTLESS, Finished(Stopped()));
  }

  /** So do aborted ones, and the abort of this one gives back the state before the rebase. */
  lemma AnAbortedRunExists()
    ensures RebaseStep(Start(), Some(2), SetupWorks, BROKEN, MergeConflict, Stopped())
    ensures AbortStep(Stopped(), SetupWorks, Done, Start())
  {
    FirstCallStops();
    assert Stopped().refs[BRANCH := 1] == Start().refs;
  }
}
