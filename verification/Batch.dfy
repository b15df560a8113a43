/** The bounded-concurrency batch: a loop that starts one goroutine per item behind a semaphore, and the goroutines it
    starts, as one step machine. Every step is atomic; any interleaving of them is a run. */
module Batch {
  import opened Basics

  const DEFAULT_CONCURRENCY := 4
  const MAX_CONCURRENCY := 16

  /** An option value out of range takes the default or the cap. */
  function Normalized(concurrency: int): (limit: nat)
    ensures 1 <= limit <= MAX_CONCURRENCY
    ensures 1 <= concurrency <= 16 ==> limit == concurrency
    ensures concurrency <= 0 ==> limit == 4
    ensures concurrency > 16 ==> limit == 16
  {
    if concurrency <= 0 then DEFAULT_CONCURRENCY
    else if concurrency > MAX_CONCURRENCY then MAX_CONCURRENCY
    else concurrency
  }

  /** An input, the name it is reported under, and what a call of `fn` returns (value and error together). */
  type Item = string
  type Key = string
  type Value = int

  /** What `fn` returned for an item, or the context's error. */
  datatype Outcome = Done(value: Value) | Cancelled

  datatype Slot = Slot(key: Option<Key>, outcome: Option<Outcome>)

  /** How far an item is: not reached, its goroutine inside `fn`, result written, semaphore released, wait group told;
      or failed by the loop itself. */
  datatype Phase = Fresh | Running | Wrote | Freed | Gone | Skipped

  /** Where the calling goroutine is. */
  datatype Loop = Check(i: nat) | Select(i: nat) | Launch(i: nat) | Waiting | Returned

  datatype Job = Job(items: seq<Item>, concurrency: int, key: Item -> Key, allows: (Item, Value) -> bool)

  /** `sem` tokens are in the channel, `wg` is the wait group's counter; `writes` counts the outcomes written to each
      slot and `late` the operations started after the cancellation. */
  datatype State = State(at: Loop, sem: nat, wg: nat, cancelled: bool, phases: seq<Phase>, slots: seq<Slot>,
                         writes: seq<nat>, late: nat)

  datatype Action =
    | LoopCheck | Acquire | SelectDone | Spawn | Return
    | FnReturns(j: nat, value: Value) | Release(j: nat) | WgDone(j: nat)
    | Cancel

  function Start(job: Job): State {
    var n := |job.items|;
    State(if n == 0 then Returned else Check(0), 0, 0, false, seq(n, _ => Fresh), seq(n, _ => Slot(None, None)),
          seq(n, _ => 0), 0)
  }

  function Next(job: Job, i: nat): Loop {
    if i + 1 < |job.items| then Check(i + 1) else Waiting
  }

  /** The sequences describe the job's items and the loop is at one of them. */
  predicate Shaped(job: Job, s: State) {
    && |s.phases| == |s.slots| == |s.writes| == |job.items|
    && (s.at.Check? || s.at.Select? || s.at.Launch? ==> s.at.i < |job.items|)
  }

  function WithOutcome(s: State, j: nat, o: Outcome, p: Phase): State
    requires j < |s.phases| == |s.slots| == |s.writes|
  {
    s.(slots := s.slots[j := s.slots[j].(outcome := Some(o))], writes := s.writes[j := s.writes[j] + 1],
       phases := s.phases[j := p])
  }

  /** The loop fails item i with the context's error and goes on. */
  function Skip(job: Job, s: State, i: nat): State
    requires Shaped(job, s) && i < |job.items|
  {
    WithOutcome(s, i, Cancelled, Skipped).(at := Next(job, i))
  }

  predicate InPhase(s: State, j: nat, p: Phase) {
    j < |s.phases| && s.phases[j] == p
  }

  /** The state after an action; None when it is not enabled. A full channel, an empty channel and a positive wait
      group block. */
  function Apply(job: Job, s: State, a: Action): (t: Option<State>)
    requires Shaped(job, s)
    ensures t.Some? ==> Shaped(job, t.value)
  {
    match a
    case LoopCheck =>
      if !s.at.Check? then None
      else
        var keyed := s.(slots := s.slots[s.at.i := s.slots[s.at.i].(key := Some(job.key(job.items[s.at.i])))]);
        if s.cancelled then Some(Skip(job, keyed, s.at.i)) else Some(keyed.(at := Select(s.at.i)))
    case Acquire =>
      if s.at.Select? && s.sem < Normalized(job.concurrency) then Some(s.(sem := s.sem + 1, at := Launch(s.at.i))) else None
    case SelectDone =>
      if s.at.Select? && s.cancelled then Some(Skip(job, s, s.at.i)) else None
    case Spawn =>
      if !s.at.Launch? then None
      else
        Some(s.(wg := s.wg + 1, phases := s.phases[s.at.i := Running], at := Next(job, s.at.i),
                late := s.late + if s.cancelled then 1 else 0))
    case Return =>
      if s.at.Waiting? && s.wg == 0 then Some(s.(at := Returned)) else None
    case FnReturns(j, v) =>
      if InPhase(s, j, Running) && job.allows(job.items[j], v) then Some(WithOutcome(s, j, Done(v), Wrote)) else None
    case Release(j) =>
      if InPhase(s, j, Wrote) && s.sem > 0 then Some(s.(sem := s.sem - 1, phases := s.phases[j := Freed])) else None
    case WgDone(j) =>
      if InPhase(s, j, Freed) && s.wg > 0 then Some(s.(wg := s.wg - 1, phases := s.phases[j := Gone])) else None
    case Cancel =>
      Some(s.(cancelled := true))
  }

  // ---------------------------------------------------------------- counting phases

  /** The sum of a weight over the items. */
  function Tally(phases: seq<Phase>, weight: Phase -> nat): nat {
    if phases == [] then 0 else weight(phases[0]) + Tally(phases[1..], weight)
  }

  lemma {:induction false} TallyUpdate(phases: seq<Phase>, j: nat, p: Phase, weight: Phase -> nat)
    requires j < |phases|
    ensures Tally(phases[j := p], weight) == Tally(phases, weight) - weight(phases[j]) + weight(p)
    ensures Tally(phases, weight) >= weight(phases[j])
  {
    if j == 0 {
      assert phases[0 := p][1..] == phases[1..];
    } else {
      assert phases[j := p][1..] == phases[1..][j - 1 := p];
      TallyUpdate(phases[1..], j - 1, p, weight);
    }
  }

  lemma {:induction false} TallyOfZeros(phases: seq<Phase>, weight: Phase -> nat)
    ensures Tally(phases, weight) == 0 <==> forall j :: 0 <= j < |phases| ==> weight(phases[j]) == 0
  {
    if phases != [] {
      TallyOfZeros(phases[1..], weight);
      assert phases[1..] == phases[1..|phases|];
      assert forall j :: 0 < j < |phases| ==> phases[j] == phases[1..][j - 1];
    }
  }

  lemma {:induction false} TallyMonotone(phases: seq<Phase>, small: Phase -> nat, large: Phase -> nat)
    requires forall p :: small(p) <= large(p)
    ensures Tally(phases, small) <= Tally(phases, large)
  {
    if phases != [] { TallyMonotone(phases[1..], small, large); }
  }

  lemma {:induction false} TallyOfFresh(n: nat, weight: Phase -> nat)
    ensures Tally(seq(n, _ => Fresh), weight) == n * weight(Fresh)
  {
    if n > 0 {
      assert seq(n, _ => Fresh)[1..] == seq(n - 1, _ => Fresh);
      TallyOfFresh(n - 1, weight);
    }
  }

  const IN_FN: Phase -> nat := p => if p == Running then 1 else 0
  const HOLDS_SLOT: Phase -> nat := p => if p == Running || p == Wrote then 1 else 0
  const UNDER_WG: Phase -> nat := p => if p == Running || p == Wrote || p == Freed then 1 else 0
  /** Steps an item still needs. */
  const STEPS_LEFT: Phase -> nat := (p: Phase) =>
    match p case Fresh => 6 case Running => 3 case Wrote => 2 case Freed => 1 case _ => 0

  /** Operations in flight: goroutines inside `fn`. */
  function InFlight(s: State): nat {
    Tally(s.phases, IN_FN)
  }

  // ---------------------------------------------------------------- the invariant

  /** Items the loop has dealt with. */
  function Reached(job: Job, at: Loop): nat {
    match at case Waiting => |job.items| case Returned => |job.items| case _ => at.i
  }

  /** An item's slot and write count say what its phase says. */
  ghost predicate ItemOk(job: Job, s: State, j: nat)
    requires Shaped(job, s) && j < |job.items|
  {
    var slot, p := s.slots[j], s.phases[j];
    && (p == Fresh <==> j >= Reached(job, s.at))
    && (p != Fresh || (j == Reached(job, s.at) && !s.at.Check?) ==> slot.key == Some(job.key(job.items[j])))
    && s.writes[j] == (if p == Fresh || p == Running then 0 else 1)
    && (slot.outcome.Some? <==> s.writes[j] == 1)
    && (p == Skipped ==> slot.outcome == Some(Cancelled) && s.cancelled)
    && (p == Wrote || p == Freed || p == Gone ==>
          slot.outcome.value.Done? && job.allows(job.items[j], slot.outcome.value.value))
  }

  ghost predicate ItemsOk(job: Job, s: State)
    requires Shaped(job, s)
  {
    forall j :: 0 <= j < |job.items| ==> ItemOk(job, s, j)
  }

  /** The semaphore counts the goroutines that hold a slot and the loop between acquiring and launching; the wait group
      counts the goroutines not yet gone. */
  predicate CountersOk(job: Job, s: State) {
    && s.sem == Tally(s.phases, HOLDS_SLOT) + (if s.at.Launch? then 1 else 0)
    && s.sem <= Normalized(job.concurrency)
    && s.wg == Tally(s.phases, UNDER_WG)
    && (s.at.Returned? ==> s.wg == 0)
  }

  predicate LateOk(s: State) {
    && s.late <= (if s.cancelled then 1 else 0)
    && (s.at.Select? || s.at.Launch? ==> s.late == 0)
  }

  ghost predicate Inv(job: Job, s: State) {
    Shaped(job, s) && ItemsOk(job, s) && CountersOk(job, s) && LateOk(s)
  }

  lemma StartIsOk(job: Job)
    ensures Inv(job, Start(job))
    ensures Measure(Start(job)) <= 6 * |job.items| + 3
  {
    TallyOfFresh(|job.items|, HOLDS_SLOT);
    TallyOfFresh(|job.items|, UNDER_WG);
    TallyOfFresh(|job.items|, STEPS_LEFT);
  }

  // ---------------------------------------------------------------- progress measure

  /** Steps left before the call returns, the caller's own included. */
  function Measure(s: State): nat {
    Tally(s.phases, STEPS_LEFT)
    + match s.at case Check(_) => 3 case Select(_) => 2 case Launch(_) => 1 case Waiting => 1 case Returned => 0
  }

  /** The item an action concerns, with the phase it moves to. */
  function Moves(job: Job, s: State, a: Action): (int, Phase) {
    match a
    case LoopCheck => (if s.at.Check? && s.cancelled then s.at.i else -1, Skipped)
    case SelectDone => (if s.at.Select? then s.at.i else -1, Skipped)
    case Spawn => (if s.at.Launch? then s.at.i else -1, Running)
    case FnReturns(j, _) => (j, Wrote)
    case Release(j) => (j, Freed)
    case WgDone(j) => (j, Gone)
    case _ => (-1, Gone)
  }

  lemma TalliesMove(job: Job, s: State, a: Action, weight: Phase -> nat)
    requires Shaped(job, s) && Apply(job, s, a).Some?
    ensures var (j, p) := Moves(job, s, a);
            var t := Apply(job, s, a).value;
            if j < 0 then t.phases == s.phases
            else && j < |s.phases| && t.phases == s.phases[j := p] && Tally(s.phases, weight) >= weight(s.phases[j])
                 && Tally(t.phases, weight) == Tally(s.phases, weight) - weight(s.phases[j]) + weight(p)
  {
    var (j, p) := Moves(job, s, a);
    if j >= 0 { TallyUpdate(s.phases, j, p, weight); }
  }

  lemma StepKeepsItems(job: Job, s: State, a: Action)
    requires Shaped(job, s) && ItemsOk(job, s) && Apply(job, s, a).Some?
    ensures Shaped(job, Apply(job, s, a).value) && ItemsOk(job, Apply(job, s, a).value)
  {
    var t := Apply(job, s, a).value;
    forall j | 0 <= j < |job.items| ensures ItemOk(job, t, j) {
      assert ItemOk(job, s, j);
      if s.at.Check? || s.at.Select? || s.at.Launch? { assert ItemOk(job, s, s.at.i); }
    }
  }

  lemma StepKeepsCounters(job: Job, s: State, a: Action)
    requires Inv(job, s) && Apply(job, s, a).Some?
    ensures CountersOk(job, Apply(job, s, a).value) && LateOk(Apply(job, s, a).value)
    ensures Measure(Apply(job, s, a).value) < Measure(s) || (a.Cancel? && Measure(Apply(job, s, a).value) == Measure(s))
  {
    hide Tally;
    if s.at.Check? || s.at.Select? || s.at.Launch? { assert ItemOk(job, s, s.at.i); }
    TalliesMove(job, s, a, HOLDS_SLOT);
    TalliesMove(job, s, a, UNDER_WG);
    TalliesMove(job, s, a, STEPS_LEFT);
  }

  /** Every step keeps the invariant, and every step but a cancellation brings the return nearer. */
  lemma StepKeeps(job: Job, s: State, a: Action)
    requires Inv(job, s) && Apply(job, s, a).Some?
    ensures Inv(job, Apply(job, s, a).value)
    ensures Measure(Apply(job, s, a).value) < Measure(s) || (a.Cancel? && Measure(Apply(job, s, a).value) == Measure(s))
  {
    StepKeepsItems(job, s, a);
    StepKeepsCounters(job, s, a);
  }

  // ---------------------------------------------------------------- runs

  /** The state after a schedule; None when some action was not enabled. */
  function Run(job: Job, s: State, schedule: seq<Action>): Option<State>
    requires Shaped(job, s)
    decreases |schedule|
  {
    if schedule == [] then Some(s)
    else
      var t := Apply(job, s, schedule[0]);
      if t.None? then None else Run(job, t.value, schedule[1..])
  }

  function StepsIn(schedule: seq<Action>): nat {
    if schedule == [] then 0 else (if schedule[0].Cancel? then 0 else 1) + StepsIn(schedule[1..])
  }

  lemma {:induction false} RunKeeps(job: Job, s: State, schedule: seq<Action>)
    requires Inv(job, s) && Run(job, s, schedule).Some?
    ensures Inv(job, Run(job, s, schedule).value)
    ensures StepsIn(schedule) + Measure(Run(job, s, schedule).value) <= Measure(s)
    decreases |schedule|
  {
    if schedule != [] {
      StepKeeps(job, s, schedule[0]);
      RunKeeps(job, Apply(job, s, schedule[0]).value, schedule[1..]);
    }
  }

  /** Main result, safety: in every state of every schedule at most the normalized limit is in flight, no slot was
      written twice, and at most one operation started after a cancellation; no schedule has more than 6n + 3 steps. */
  lemma EveryScheduleIsSafe(job: Job, schedule: seq<Action>)
    requires Run(job, Start(job), schedule).Some?
    ensures var s := Run(job, Start(job), schedule).value;
            && InFlight(s) <= Normalized(job.concurrency)
            && (forall j :: 0 <= j < |s.writes| ==> s.writes[j] <= 1)
            && s.late <= 1
    ensures StepsIn(schedule) <= 6 * |job.items| + 3
  {
    StartIsOk(job);
    RunKeeps(job, Start(job), schedule);
    var s := Run(job, Start(job), schedule).value;
    TallyMonotone(s.phases, IN_FN, HOLDS_SLOT);
    forall j | 0 <= j < |s.writes| ensures s.writes[j] <= 1 { assert ItemOk(job, s, j); }
  }

  /** The result slice is complete: each item has one outcome, written once, at its own index under its own key; it is
      what `fn` returned for that very item, or the context's error, and the latter only after a cancellation. */
  ghost predicate Complete(job: Job, s: State) {
    && |s.slots| == |s.writes| == |job.items|
    && forall j :: 0 <= j < |job.items| ==> s.writes[j] == 1 && Answered(job, s, j)
  }

  predicate Answered(job: Job, s: State, j: nat)
    requires |s.slots| == |job.items| && j < |job.items|
  {
    && s.slots[j].key == Some(job.key(job.items[j]))
    && s.slots[j].outcome.Some?
    && match s.slots[j].outcome.value
       case Done(v) => job.allows(job.items[j], v)
       case Cancelled => s.cancelled
  }

  /** Main result, outcome: whenever the call has returned, the results are complete and no goroutine is left. */
  lemma ReturnedResultsAreComplete(job: Job, schedule: seq<Action>)
    requires Run(job, Start(job), schedule).Some? && Run(job, Start(job), schedule).value.at.Returned?
    ensures var s := Run(job, Start(job), schedule).value;
            && Complete(job, s)
            && forall j :: 0 <= j < |s.phases| ==> s.phases[j] == Gone || s.phases[j] == Skipped
  {
    StartIsOk(job);
    RunKeeps(job, Start(job), schedule);
    var s := Run(job, Start(job), schedule).value;
    TallyOfZeros(s.phases, UNDER_WG);
    forall j | 0 <= j < |job.items|
      ensures (s.phases[j] == Gone || s.phases[j] == Skipped) && s.writes[j] == 1 && Answered(job, s, j)
    {
      assert ItemOk(job, s, j) && UNDER_WG(s.phases[j]) == 0;
    }
  }

  // ---------------------------------------------------------------- after a cancellation

  /** Items the loop has not begun with: those after the one it is at, and that one too before its check. */
  predicate NotBegun(job: Job, s: State, j: nat) {
    match s.at
    case Check(i) => i <= j < |job.items|
    case Select(i) => i < j < |job.items|
    case Launch(i) => i < j < |job.items|
    case _ => false
  }

  predicate NeverRan(s: State, j: nat) {
    j < |s.phases| && (s.phases[j] == Fresh || s.phases[j] == Skipped)
  }

  lemma CancelledStep(job: Job, s: State, a: Action, j: nat)
    requires Inv(job, s) && s.cancelled && Apply(job, s, a).Some?
    requires NotBegun(job, s, j) || (NeverRan(s, j) && s.phases[j] == Skipped)
    ensures
      var t := Apply(job, s, a).value;
      t.cancelled && NeverRan(s, j) && (NotBegun(job, t, j) || (NeverRan(t, j) && t.phases[j] == Skipped))
  {
    assert ItemOk(job, s, j);
  }

  lemma {:induction false} CancelledRun(job: Job, s: State, schedule: seq<Action>, j: nat)
    requires Inv(job, s) && s.cancelled && Run(job, s, schedule).Some?
    requires NotBegun(job, s, j) || (NeverRan(s, j) && s.phases[j] == Skipped)
    ensures
      var t := Run(job, s, schedule).value;
      Inv(job, t) && t.cancelled && (NotBegun(job, t, j) || (NeverRan(t, j) && t.phases[j] == Skipped))
    decreases |schedule|
  {
    hide ItemsOk, CountersOk, LateOk, Apply, NotBegun, NeverRan;
    if schedule != [] {
      StepKeeps(job, s, schedule[0]);
      CancelledStep(job, s, schedule[0], j);
      CancelledRun(job, Apply(job, s, schedule[0]).value, schedule[1..], j);
    }
  }

  /** Main result: the cancellation is noticed. An item that the loop has not begun with when the context is cancelled
      never runs, and when the call has returned it holds the context's error. */
  lemma RemainingItemsFailFast(job: Job, s: State, schedule: seq<Action>, j: nat)
    requires Inv(job, s) && NotBegun(job, s, j) && Run(job, Apply(job, s, Cancel).value, schedule).Some?
    ensures
      var t := Run(job, Apply(job, s, Cancel).value, schedule).value;
      && NeverRan(t, j)
      && j < |t.slots| && (t.at.Returned? ==> t.slots[j].outcome == Some(Cancelled))
  {
    StepKeeps(job, s, Cancel);
    CancelledRun(job, Apply(job, s, Cancel).value, schedule, j);
    assert ItemOk(job, Run(job, Apply(job, s, Cancel).value, schedule).value, j);
  }

  // ---------------------------------------------------------------- no schedule gets stuck

  /** Every call of `fn` can return. */
  ghost predicate FnReturnsSomething(job: Job) {
    forall item <- job.items :: exists v :: job.allows(item, v)
  }

  /** Some step other than a cancellation is possible in every state before the return. */
  lemma NeverStuck(job: Job, s: State) returns (a: Action)
    requires Inv(job, s) && !s.at.Returned? && FnReturnsSomething(job)
    ensures !a.Cancel? && Apply(job, s, a).Some?
  {
    hide Tally;
    if s.at.Check? { return LoopCheck; }
    if s.at.Launch? { return Spawn; }
    if s.at.Select? && s.sem < Normalized(job.concurrency) { return Acquire; }
    if s.at.Waiting? && s.wg == 0 { return Return; }
    TallyOfZeros(s.phases, HOLDS_SLOT);
    TallyOfZeros(s.phases, UNDER_WG);
    var j: nat :| j < |s.phases| && UNDER_WG(s.phases[j]) != 0;
    TallyUpdate(s.phases, j, Gone, HOLDS_SLOT);
    TallyUpdate(s.phases, j, Gone, UNDER_WG);
    if s.phases[j] == Running {
      assert job.items[j] in job.items;
      var v :| job.allows(job.items[j], v);
      return FnReturns(j, v);
    }
    a := if s.phases[j] == Wrote then Release(j) else WgDone(j);
  }

  /** After a cancellation the loop never waits for a goroutine to finish: it has a step of its own until it waits for
      the group. */
  lemma CancelledLoopNeverBlocks(job: Job, s: State)
    requires Inv(job, s) && s.cancelled && !s.at.Waiting? && !s.at.Returned?
    ensures exists a: Action :: (a.LoopCheck? || a.SelectDone? || a.Spawn?) && Apply(job, s, a).Some?
  {
    var a: Action := match s.at case Check(_) => LoopCheck case Select(_) => SelectDone case _ => Spawn;
    assert Apply(job, s, a).Some?;
  }

  /** Main result, liveness: if every call of `fn` returns, every state of every schedule can be brought to the return,
      and by the step bound no schedule avoids it for ever. */
  lemma {:induction false} EveryStateCanReturn(job: Job, s: State) returns (rest: seq<Action>)
    requires Inv(job, s) && FnReturnsSomething(job)
    ensures Run(job, s, rest).Some? && Run(job, s, rest).value.at.Returned?
    ensures StepsIn(rest) == |rest| <= Measure(s)
    decreases Measure(s)
  {
    if s.at.Returned? { return []; }
    var a := NeverStuck(job, s);
    StepKeeps(job, s, a);
    var later := EveryStateCanReturn(job, Apply(job, s, a).value);
    rest := [a] + later;
    assert rest[1..] == later;
  }
}
