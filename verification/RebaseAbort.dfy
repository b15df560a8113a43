/** Aborting a rebase from anywhere. */
module RebaseAbortTheorems {
  import opened Basics
  import opened Trees
  import opened History
  import opened Repository
  import opened RebaseProgress
  import opened MergeTheorems

  /** Main result: whatever faults stop the start, whatever the user stages, however many continues follow, as long as
      the rebase is still in progress an abort puts every ref back, and index and working tree at the original commit;
      on a clean repository start, continues and abort together change nothing but the commit store. */
  lemma AbortRestores(o: Repo, onto: nat, plan: seq<nat>, setup: Setup, ios: Script, out: Outcome, s: Repo,
                      calls: seq<EditedCall>, out': Outcome, after: Repo)
    requires Planned(o, onto, plan) && RebaseStep(o, Some(onto), setup, ios, out, s) && EditedRun(s, calls)
    requires EndOf(s, calls).rebase.Some? && AbortStep(EndOf(s, calls), SetupWorks, out', after)
    ensures out' == Done && after.refs == o.refs && after.head == o.head && after.rebase == None
    ensures after.index == HeadTree(o) && after.work == HeadTree(o) && o.store <= after.store
    ensures Clean(o) && o.rebase == None ==> after == o.(store := after.store)
  {
    hide RebaseStep, EditedRun, Planned;
    StartRecords(o, onto, plan, setup, ios, out, s);
    EditedRunKeepsStarted(o, onto, plan, s, calls);
    assert after.refs == o.refs;
  }
}
