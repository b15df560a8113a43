/** The background janitor of the provider cache: launching, cancelling and stopping it, one step for each critical
    section. */
module Janitor {
  import opened Basics

  /** Running its loop; past the loop but not yet reset; state reset; done channel closed. */
  datatype Phase = Running | Exiting | Cleared | Exited

  /** A Stop call that found janitor `found`: blocked on its done channel, about to take the lock again, or returned.
      A call that found no janitor has returned with None. */
  datatype StopCall = Waiting(found: nat, channel: nat) | Woken(found: nat) | Returned(target: Option<nat>)

  /** `stopCloses` and `doneCloses` count how often the channels were closed. */
  datatype Goroutine = Goroutine(phase: Phase, cancelled: bool, stopCloses: nat, doneCloses: nat)

  /** `stop` and `done` are the fields janitorStop and janitorDone, naming the janitor that owns the channel;
      `overlapped` are the janitors launched while some Stop call was in flight. */
  datatype State = State(stop: Option<nat>, done: Option<nat>, janitors: seq<Goroutine>, stops: map<nat, StopCall>,
                         overlapped: set<nat>)

  datatype Step =
    | Start
    | Cancel(j: nat)
    | Quit(j: nat)
    | Clear(j: nat)
    | CloseDone(j: nat)
    | StopEnter(id: nat)
    | StopWake(id: nat)
    | StopLeave(id: nat)

  predicate InFlight(s: State, id: nat) {
    id in s.stops && !s.stops[id].Returned?
  }

  predicate SomeStopInFlight(s: State) {
    exists id :: id in s.stops && InFlight(s, id)
  }

  predicate Enabled(s: State, step: Step) {
    match step
    case Start => true
    case Cancel(j) => j < |s.janitors|
    case Quit(j) => j < |s.janitors| && s.janitors[j].phase == Running
                    && (s.janitors[j].cancelled || s.janitors[j].stopCloses > 0)
    case Clear(j) => j < |s.janitors| && s.janitors[j].phase == Exiting
    case CloseDone(j) => j < |s.janitors| && s.janitors[j].phase == Cleared
    case StopEnter(id) => id !in s.stops && (s.stop.Some? ==> s.stop.value < |s.janitors|)
    case StopWake(id) =>
      id in s.stops && s.stops[id].Waiting? && s.stops[id].channel < |s.janitors|
      && s.janitors[s.stops[id].channel].doneCloses > 0
    case StopLeave(id) => id in s.stops && s.stops[id].Woken?
  }

  function Next(s: State, step: Step): State
    requires Enabled(s, step)
  {
    match step
    case Start =>
      if s.stop.Some? then s
      else
        var j := |s.janitors|;
        State(Some(j), Some(j), s.janitors + [Goroutine(Running, false, 0, 0)], s.stops,
              if SomeStopInFlight(s) then s.overlapped + {j} else s.overlapped)
    case Cancel(j) => s.(janitors := s.janitors[j := s.janitors[j].(cancelled := true)])
    case Quit(j) => s.(janitors := s.janitors[j := s.janitors[j].(phase := Exiting)])
    case Clear(j) =>
      s.(janitors := s.janitors[j := s.janitors[j].(phase := Cleared)],
         stop := if s.stop == Some(j) then None else s.stop,
         done := if s.done == Some(j) then None else s.done)
    case CloseDone(j) =>
      var g := s.janitors[j];
      s.(janitors := s.janitors[j := g.(phase := Exited, doneCloses := g.doneCloses + 1)])
    case StopEnter(id) =>
      if s.stop.None? then s.(stops := s.stops[id := Returned(None)])
      else
        var j := s.stop.value;
        var g := s.janitors[j];
        s.(janitors := s.janitors[j := g.(stopCloses := g.stopCloses + 1)],
           stop := None,
           stops := s.stops[id := if s.done.Some? then Waiting(j, s.done.value) else Woken(j)])
    case StopWake(id) => s.(stops := s.stops[id := Woken(s.stops[id].found)])
    case StopLeave(id) => s.(done := None, stops := s.stops[id := Returned(Some(s.stops[id].found))])
  }

  // ---------------------------------------------------------------- the invariant

  predicate Gone(s: State, j: nat) {
    j < |s.janitors| && (s.janitors[j].phase == Cleared || s.janitors[j].phase == Exited)
  }

  /** No channel is closed twice, and a done channel is closed exactly when its janitor has exited. */
  ghost predicate ChannelsClosedOnce(s: State) {
    forall j :: 0 <= j < |s.janitors| ==>
      s.janitors[j].stopCloses <= 1 && s.janitors[j].doneCloses == if s.janitors[j].phase == Exited then 1 else 0
  }

  /** janitorStop names the one janitor that is neither signalled nor gone, if there is one. */
  ghost predicate StopNamesTheLiveOne(s: State) {
    && (s.stop.Some? ==> s.stop.value < |s.janitors|)
    && forall j :: 0 <= j < |s.janitors| ==> (s.stop == Some(j) <==> s.janitors[j].stopCloses == 0 && !Gone(s, j))
  }

  ghost predicate DoneNamesTheSame(s: State) {
    && (s.done.Some? ==> s.done.value < |s.janitors| && !Gone(s, s.done.value))
    && (s.stop.Some? && s.done.Some? ==> s.stop == s.done)
    && (s.stop.Some? && s.done.None? ==> s.stop.value in s.overlapped)
    && (s.stop.Some? && SomeStopInFlight(s) ==> s.stop.value in s.overlapped)
  }

  /** A Stop call waits for the janitor it found, and one that no longer waits found it exited or overlapped. */
  ghost predicate StopsWaitRightly(s: State) {
    forall id :: id in s.stops ==>
      match s.stops[id]
      case Waiting(j, channel) => channel == j < |s.janitors| && s.janitors[j].stopCloses == 1
      case Woken(j) => j < |s.janitors| && (s.janitors[j].phase == Exited || j in s.overlapped)
      case Returned(None) => true
      case Returned(Some(j)) => j < |s.janitors| && (s.janitors[j].phase == Exited || j in s.overlapped)
  }

  ghost predicate Inv(s: State) {
    ChannelsClosedOnce(s) && StopNamesTheLiveOne(s) && DoneNamesTheSame(s) && StopsWaitRightly(s)
  }

  /** A step that keeps the set of Stop calls in flight. */
  lemma SameStops(s: State, s': State)
    requires s'.stops == s.stops
    ensures SomeStopInFlight(s') == SomeStopInFlight(s)
  {
    assert forall i :: InFlight(s', i) == InFlight(s, i);
  }

  lemma StartKeepsInv(s: State)
    requires Inv(s)
    ensures Inv(Next(s, Start))
  {
    var s' := Next(s, Start);
    SameStops(s, s');
    assert forall j :: 0 <= j < |s.janitors| ==> s'.janitors[j] == s.janitors[j];
  }

  /** Cancellation and the janitor's own steps. */
  lemma JanitorKeepsInv(s: State, step: Step)
    requires Inv(s) && Enabled(s, step) && (step.Cancel? || step.Quit? || step.CloseDone?)
    ensures Inv(Next(s, step))
  {
    hide SomeStopInFlight, InFlight;
    var s' := Next(s, step);
    SameStops(s, s');
    assert forall i :: 0 <= i < |s.janitors| && i != step.j ==> s'.janitors[i] == s.janitors[i];
  }

  lemma ClearKeepsInv(s: State, step: Step)
    requires Inv(s) && Enabled(s, step) && step.Clear?
    ensures Inv(Next(s, step))
  {
    hide SomeStopInFlight, InFlight;
    var s' := Next(s, step);
    SameStops(s, s');
    assert forall i :: 0 <= i < |s.janitors| && i != step.j ==> s'.janitors[i] == s.janitors[i];
  }

  lemma StopEnterKeepsInv(s: State, id: nat)
    requires Inv(s) && Enabled(s, StopEnter(id))
    ensures Inv(Next(s, StopEnter(id)))
  {
    var s' := Next(s, StopEnter(id));
    if s.stop.Some? {
      assert forall i :: 0 <= i < |s.janitors| && i != s.stop.value ==> s'.janitors[i] == s.janitors[i];
      assert ChannelsClosedOnce(s') && StopNamesTheLiveOne(s') && DoneNamesTheSame(s');
    }
  }

  lemma StopExitKeepsInv(s: State, id: nat, step: Step)
    requires Inv(s) && Enabled(s, step) && (step == StopWake(id) || step == StopLeave(id))
    ensures Inv(Next(s, step))
  {
    var s' := Next(s, step);
    assert InFlight(s, id);
    assert SomeStopInFlight(s);
    assert DoneNamesTheSame(s');
  }

  lemma StepKeepsInv(s: State, step: Step)
    requires Inv(s) && Enabled(s, step)
    ensures Inv(Next(s, step))
  {
    hide Inv;
    match step
    case Start => StartKeepsInv(s);
    case StopEnter(id) => StopEnterKeepsInv(s, id);
    case StopWake(id) => StopExitKeepsInv(s, id, step);
    case StopLeave(id) => StopExitKeepsInv(s, id, step);
    case Clear(j) => ClearKeepsInv(s, step);
    case _ => JanitorKeepsInv(s, step);
  }

  ghost predicate Runs(s: State, steps: seq<Step>, final: State)
    decreases |steps|
  {
    if steps == [] then final == s
    else Enabled(s, steps[0]) && Runs(Next(s, steps[0]), steps[1..], final)
  }

  lemma {:induction false} RunKeepsInv(s: State, steps: seq<Step>, final: State)
    requires Inv(s) && Runs(s, steps, final)
    ensures Inv(final)
    decreases |steps|
  {
    if steps != [] {
      StepKeepsInv(s, steps[0]);
      RunKeepsInv(Next(s, steps[0]), steps[1..], final);
    }
  }

  const INITIAL := State(None, None, [], map[], {})

  /** Main result: under every interleaving no channel is closed twice and at most one janitor is neither signalled nor
      exiting. */
  lemma AtMostOneJanitor(steps: seq<Step>, final: State)
    requires Runs(INITIAL, steps, final)
    ensures forall j :: 0 <= j < |final.janitors| ==> final.janitors[j].stopCloses <= 1 && final.janitors[j].doneCloses <= 1
    ensures forall i, j :: 0 <= i < j < |final.janitors| ==>
      !(final.janitors[i].phase == Running && final.janitors[i].stopCloses == 0
        && final.janitors[j].phase == Running && final.janitors[j].stopCloses == 0)
  {
    RunKeepsInv(INITIAL, steps, final);
  }

  /** Main result: StartJanitor launches a new janitor exactly when every earlier one was signalled or has reset the
      state, so one that died by cancellation can be replaced. */
  lemma RelaunchExactlyWhenNoneIsLive(steps: seq<Step>, s: State)
    requires Runs(INITIAL, steps, s)
    ensures Next(s, Start) != s <==> forall j :: 0 <= j < |s.janitors| ==> s.janitors[j].stopCloses > 0 || Gone(s, j)
    ensures Next(s, Start) != s ==> |Next(s, Start).janitors| == |s.janitors| + 1 && Next(s, Start).stop == Some(|s.janitors|)
  {
    RunKeepsInv(INITIAL, steps, s);
    if s.stop.None? {
      assert |Next(s, Start).janitors| == |s.janitors| + 1;
    }
  }

  /** Main result: a Stop that found a janitor has returned only after that janitor exited, unless the janitor was
      launched while another Stop call was still in flight. */
  lemma StopWaitsForExit(steps: seq<Step>, final: State, id: nat, j: nat)
    requires Runs(INITIAL, steps, final)
    requires id in final.stops && final.stops[id] == Returned(Some(j)) && j !in final.overlapped
    ensures j < |final.janitors| && final.janitors[j].phase == Exited
  {
    RunKeepsInv(INITIAL, steps, final);
  }

  /** A waiting Stop is never stuck: its janitor can take its next step, or the Stop itself can. */
  lemma WaitingStopProgresses(steps: seq<Step>, s: State, id: nat)
    requires Runs(INITIAL, steps, s) && id in s.stops && s.stops[id].Waiting?
    ensures
      var j := s.stops[id].channel;
      j < |s.janitors|
      && Enabled(s, match s.janitors[j].phase
                    case Running => Quit(j)
                    case Exiting => Clear(j)
                    case Cleared => CloseDone(j)
                    case Exited => StopWake(id))
  {
    RunKeepsInv(INITIAL, steps, s);
  }

  // ---------------------------------------------------------------- why and how a janitor ends

  /** A janitor past its loop was cancelled or signalled. */
  predicate EndsForAReason(s: State) {
    forall j :: 0 <= j < |s.janitors| ==>
      s.janitors[j].phase == Running || s.janitors[j].cancelled || s.janitors[j].stopCloses > 0
  }

  lemma {:induction false} RunEndsForAReason(s: State, steps: seq<Step>, final: State)
    requires EndsForAReason(s) && Runs(s, steps, final)
    ensures EndsForAReason(final)
    decreases |steps|
  {
    if steps != [] {
      assert EndsForAReason(Next(s, steps[0]));
      RunEndsForAReason(Next(s, steps[0]), steps[1..], final);
    }
  }

  /** Main result: no janitor ends unless its context was cancelled or a Stop signalled it. */
  lemma NobodyQuitsUnasked(steps: seq<Step>, final: State, j: nat)
    requires Runs(INITIAL, steps, final) && j < |final.janitors| && !final.janitors[j].cancelled && final.janitors[j].stopCloses == 0
    ensures final.janitors[j].phase == Running
  {
    RunEndsForAReason(INITIAL, steps, final);
  }

  /** The steps by which a janitor ends. */
  function EndSteps(s: State, j: nat): seq<Step>
    requires j < |s.janitors|
  {
    match s.janitors[j].phase
    case Running => [Quit(j), Clear(j), CloseDone(j)]
    case Exiting => [Clear(j), CloseDone(j)]
    case Cleared => [CloseDone(j)]
    case Exited => []
  }

  /** Main result: from every reachable state a cancelled or signalled janitor can end by its own steps alone, whatever
      the Stop calls do; its done channel is then closed, it no longer counts as running, and if no newer janitor runs,
      StartJanitor launches one. */
  lemma {:induction false} CanEndAndBeReplaced(s: State, j: nat) returns (final: State)
    requires Inv(s) && j < |s.janitors| && (s.janitors[j].cancelled || s.janitors[j].stopCloses > 0)
    ensures Runs(s, EndSteps(s, j), final) && Inv(final) && |final.janitors| == |s.janitors| && final.stops == s.stops
    ensures final.janitors[j].phase == Exited && final.janitors[j].doneCloses == 1
    ensures final.stop != Some(j) && final.done != Some(j) && (s.stop != Some(j) ==> final.stop == s.stop)
    ensures s.stop == Some(j) || s.stop == None ==>
      Enabled(final, Start) && |Next(final, Start).janitors| == |s.janitors| + 1
      && Next(final, Start).janitors[|s.janitors|] == Goroutine(Running, false, 0, 0)
    decreases |EndSteps(s, j)|
  {
    final := s;
    if s.janitors[j].phase != Exited {
      var steps := EndSteps(s, j);
      StepKeepsInv(s, steps[0]);
      var next := Next(s, steps[0]);
      assert EndSteps(next, j) == steps[1..];
      hide Inv;
      final := CanEndAndBeReplaced(next, j);
    }
  }

  /** A Stop that finds no janitor returns at once and touches nothing; one that finds a janitor signals it, and waits
      for it if its done channel is still known. */
  lemma WhatStopDoes(s: State, id: nat)
    requires Inv(s) && Enabled(s, StopEnter(id))
    ensures
      var s' := Next(s, StopEnter(id));
      match s.stop
      case None =>
        s'.stops == s.stops[id := Returned(None)] && s'.janitors == s.janitors && s'.stop == s.stop && s'.done == s.done
      case Some(j) =>
        && j < |s.janitors| && s'.janitors[j].stopCloses == 1 && s'.stop == None && s'.done == s.done
        && s'.stops == s.stops[id := if s.done.Some? then Waiting(j, j) else Woken(j)]
  {
  }

  // ---------------------------------------------------------------- why overlapping launches are the exception

  lemma {:induction false} RunsAppend(s: State, steps: seq<Step>, mid: State, step: Step)
    requires Runs(s, steps, mid) && Enabled(mid, step)
    ensures Runs(s, steps + [step], Next(mid, step))
    decreases |steps|
  {
    if steps != [] {
      assert (steps + [step])[0] == steps[0] && (steps + [step])[1..] == steps[1..] + [step];
      RunsAppend(Next(s, steps[0]), steps[1..], mid, step);
    }
  }

  /** The steps that let a Stop call in flight get past its wait. */
  function DrainSteps(s: State, a: nat): seq<Step>
    requires a in s.stops && (s.stops[a].Waiting? ==> s.stops[a].channel < |s.janitors|)
  {
    match s.stops[a]
    case Waiting(j, channel) =>
      (match s.janitors[channel].phase
       case Running => [Quit(channel), Clear(channel), CloseDone(channel), StopWake(a)]
       case Exiting => [Clear(channel), CloseDone(channel), StopWake(a)]
       case Cleared => [CloseDone(channel), StopWake(a)]
       case Exited => [StopWake(a)])
    case _ => []
  }

  lemma {:induction false} Drained(s: State, a: nat, live: nat) returns (s': State)
    requires Inv(s) && InFlight(s, a) && s.stop == Some(live) && s.janitors[live].phase == Running
    ensures Runs(s, DrainSteps(s, a), s') && Inv(s')
    ensures a in s'.stops && s'.stops[a].Woken? && s'.stop == Some(live)
    ensures live < |s'.janitors| && s'.janitors[live].phase == Running && s'.stops.Keys == s.stops.Keys
    decreases if s.stops[a].Woken? then 0
              else match s.janitors[s.stops[a].found].phase
                   case Running => 4 case Exiting => 3 case Cleared => 2 case Exited => 1
  {
    s' := s;
    if s.stops[a].Waiting? {
      var j := s.stops[a].channel;
      assert j != live;
      var steps := DrainSteps(s, a);
      StepKeepsInv(s, steps[0]);
      var next := Next(s, steps[0]);
      assert DrainSteps(next, a) == steps[1..];
      s' := Drained(next, a, live);
    }
  }

  /** Main result: the exception is real from everywhere. If StartJanitor launches while a Stop call is in flight, some
      continuation lets a later Stop return while the janitor it signalled is still running. */
  lemma OverlapLetsStopReturnEarly(before: seq<Step>, s: State, a: nat, b: nat) returns (rest: seq<Step>, final: State)
    requires Runs(INITIAL, before, s) && InFlight(s, a) && b !in s.stops && Next(s, Start) != s
    ensures Runs(Next(s, Start), rest, final) && |final.janitors| == |s.janitors| + 1
    ensures b in final.stops && final.stops[b] == Returned(Some(|s.janitors|)) && final.janitors[|s.janitors|].phase == Running
  {
    RunKeepsInv(INITIAL, before, s);
    StepKeepsInv(s, Start);
    var j, s0 := |s.janitors|, Next(s, Start);
    assert InFlight(s0, a) && s0.stop == Some(j) && s0.janitors[j].phase == Running && |s0.janitors| == j + 1;
    var s1 := Drained(s0, a, j);
    rest := DrainSteps(s0, a);
    RunsLength(s0, rest, s1);
    assert |s1.janitors| == j + 1 && b !in s1.stops;
    hide DrainSteps, Inv, Next;
    var last := LateStop(s1, a, b, j);
    final := last;
    RunsAppend(s0, rest, s1, StopLeave(a));
    RunsAppend(s0, rest + [StopLeave(a)], Next(s1, StopLeave(a)), StopEnter(b));
    RunsAppend(s0, rest + [StopLeave(a)] + [StopEnter(b)], Next(Next(s1, StopLeave(a)), StopEnter(b)), StopLeave(b));
    rest := rest + [StopLeave(a)] + [StopEnter(b)] + [StopLeave(b)];
  }

  /** A woken Stop clears the done field of the newer janitor, so a later Stop signals that one and does not wait. */
  lemma LateStop(s: State, a: nat, b: nat, live: nat) returns (final: State)
    requires a in s.stops && s.stops[a].Woken? && b !in s.stops && s.stop == Some(live)
    requires live < |s.janitors| && s.janitors[live].phase == Running
    ensures
      && Enabled(s, StopLeave(a)) && Enabled(Next(s, StopLeave(a)), StopEnter(b))
      && Enabled(Next(Next(s, StopLeave(a)), StopEnter(b)), StopLeave(b))
      && final == Next(Next(Next(s, StopLeave(a)), StopEnter(b)), StopLeave(b))
    ensures |final.janitors| == |s.janitors| && final.janitors[live].phase == Running
    ensures b in final.stops && final.stops[b] == Returned(Some(live))
  {
    final := Next(Next(Next(s, StopLeave(a)), StopEnter(b)), StopLeave(b));
  }

  lemma {:induction false} RunsLength(s: State, steps: seq<Step>, final: State)
    requires Runs(s, steps, final) && forall i :: 0 <= i < |steps| ==> steps[i] != Start
    ensures |final.janitors| == |s.janitors|
    decreases |steps|
  {
    if steps != [] {
      RunsLength(Next(s, steps[0]), steps[1..], final);
    }
  }
}
