/** Commit statuses: the fold of a status history into one verdict, and the loop that polls until the verdict is
    final. */
module CommitStatus {
  import opened Basics

  /** A state as a backend reports it; `Unknown` is any other text, the empty one included. */
  datatype State = Pending | Running | Success | Failure | Error | Canceled | Unknown(text: string)

  type Context = string

  datatype Status = Status(context: Context, state: State)

  predicate Terminal(s: State) {
    s == Success || s == Failure || s == Error || s == Canceled
  }

  predicate Waits(s: State) {
    s == Pending || s == Running
  }

  // ---------------------------------------------------------------- reference meaning

  /** The newest report of each context: listings are newest first, so the first one. */
  function Latest(statuses: seq<Status>): map<Context, State> {
    if statuses == [] then map[] else Latest(statuses[1..])[statuses[0].context := statuses[0].state]
  }

  /** The contexts that count: all that reported, or the wanted ones. */
  function VotesOf(latest: map<Context, State>, want: set<Context>): map<Context, State> {
    map c | c in latest && (want == {} || c in want) :: latest[c]
  }

  function Votes(statuses: seq<Status>, want: set<Context>): map<Context, State> {
    VotesOf(Latest(statuses), want)
  }

  /** The combined state of a set of states: error beats failure beats canceled beats pending beats success. */
  function Combined(states: set<State>): State {
    if Error in states then Error
    else if Failure in states then Failure
    else if Canceled in states then Canceled
    else if Pending in states || Running in states then Pending
    else if Success in states then Success
    else Pending
  }

  /** The verdict on a status history. */
  datatype Verdict = Verdict(state: State, contexts: map<Context, State>, done: bool)

  function FoldOf(statuses: seq<Status>, want: set<Context>): Verdict {
    var votes := Votes(statuses, want);
    if !(want <= votes.Keys) then Verdict(Pending, map[], false)
    else Verdict(Combined(votes.Values), votes, Terminal(Combined(votes.Values)))
  }

  // ---------------------------------------------------------------- the loops

  /** The contexts of a list and its states, as sets. */
  function Contexts(statuses: seq<Status>): set<Context> {
    set s <- statuses :: s.context
  }

  /** The history without the reports of contexts that came up before. */
  function Collapsed(statuses: seq<Status>): seq<Status> {
    if statuses == [] then []
    else
      var n := |statuses| - 1;
      Collapsed(statuses[..n]) + if statuses[n].context in Contexts(statuses[..n]) then [] else [statuses[n]]
  }

  /** The list holds one status per context of the history, the newest. */
  ghost predicate FirstPerContext(statuses: seq<Status>, out: seq<Status>) {
    && (forall i, j :: 0 <= i < j < |out| ==> out[i].context != out[j].context)
    && Latest(out) == Latest(statuses)
  }

  lemma {:induction false} LatestOfAppend(older: seq<Status>, statuses: seq<Status>)
    ensures Latest(statuses + older) == Latest(older) + Latest(statuses)
  {
    if statuses == [] {
      assert statuses + older == older;
    } else {
      assert (statuses + older)[1..] == statuses[1..] + older;
      LatestOfAppend(older, statuses[1..]);
    }
  }

  lemma {:induction false} LatestKeys(statuses: seq<Status>)
    ensures Latest(statuses).Keys == Contexts(statuses)
  {
    if statuses != [] {
      LatestKeys(statuses[1..]);
      assert statuses == [statuses[0]] + statuses[1..];
    }
  }

  method LatestCommitStatuses(statuses: seq<Status>) returns (out: seq<Status>)
    ensures out == Collapsed(statuses)
  {
    var seen: set<Context> := {};
    out := [];
    for i := 0 to |statuses|
      invariant seen == Contexts(statuses[..i]) && out == Collapsed(statuses[..i])
    {
      var s := statuses[i];
      assert statuses[..i + 1] == statuses[..i] + [s] && statuses[..i + 1][..i] == statuses[..i];
      ContextsOfAppend(statuses[..i], s);
      if s.context in seen {
        continue;
      }
      seen := seen + {s.context};
      out := out + [s];
    }
    assert statuses[..|statuses|] == statuses;
  }

  lemma ContextsOfAppend(statuses: seq<Status>, s: Status)
    ensures Contexts(statuses + [s]) == Contexts(statuses) + {s.context}
  {
    assert (statuses + [s])[|statuses|] == s;
    assert forall x <- statuses :: x in statuses + [s];
  }

  lemma LatestOfOne(s: Status)
    ensures Latest([s]) == map[s.context := s.state]
  {
    assert [s][1..] == [];
  }

  /** One more, older report adds to the list only if its context is new. */
  lemma CollapseOne(rest: seq<Status>, s: Status, out: seq<Status>)
    requires FirstPerContext(rest, out)
    ensures FirstPerContext(rest + [s], if s.context in Contexts(rest) then out else out + [s])
  {
    LatestOfOne(s);
    LatestOfAppend([s], rest);
    LatestOfAppend([s], out);
    LatestKeys(rest);
    LatestKeys(out);
    hide Latest;
    if s.context in Contexts(rest) {
      assert Latest([s]) + Latest(rest) == Latest(rest);
    }
  }

  /** The collapsed list is the newest report of each context, once. */
  lemma {:induction false} CollapsedIsFirstPerContext(statuses: seq<Status>)
    ensures FirstPerContext(statuses, Collapsed(statuses))
  {
    hide Latest, FirstPerContext;
    if statuses == [] {
      NothingCollapsed();
    } else {
      var n := |statuses| - 1;
      var s, rest := statuses[n], statuses[..n];
      assert statuses == rest + [s];
      CollapsedIsFirstPerContext(rest);
      CollapseOne(rest, s, Collapsed(rest));
      assert Collapsed(rest) + [] == Collapsed(rest);
    }
  }

  lemma NothingCollapsed()
    ensures FirstPerContext([], [])
  {
  }

  function StatesIn(states: seq<State>): set<State> {
    set s <- states
  }

  lemma StatesOfAppend(states: seq<State>, s: State)
    ensures StatesIn(states + [s]) == StatesIn(states) + {s}
  {
    assert (states + [s])[|states|] == s;
    assert forall x <- states :: x in states + [s];
  }

  method CombineCommitStatusStates(states: seq<State>) returns (combined: State)
    ensures combined == Combined(StatesIn(states))
  {
    var hasError, hasFailure, hasCanceled, hasRunning, hasSuccess := false, false, false, false, false;
    for i := 0 to |states|
      invariant hasError <==> Error in states[..i]
      invariant hasFailure <==> Failure in states[..i]
      invariant hasCanceled <==> Canceled in states[..i]
      invariant hasRunning <==> Pending in states[..i] || Running in states[..i]
      invariant hasSuccess <==> Success in states[..i]
    {
      assert states[..i + 1] == states[..i] + [states[i]];
      match states[i] {
        case Error => hasError := true;
        case Failure => hasFailure := true;
        case Canceled => hasCanceled := true;
        case Pending => hasRunning := true;
        case Running => hasRunning := true;
        case Success => hasSuccess := true;
        case Unknown(_) =>
      }
    }
    assert states[..|states|] == states;
    combined := if hasError then Error
                else if hasFailure then Failure
                else if hasCanceled then Canceled
                else if hasRunning then Pending
                else if hasSuccess then Success
                else Pending;
  }

  /** The `reported` counter against the number of wanted contexts is the test that each of them has reported. */
  lemma CountIsCoverage(reported: set<Context>, want: set<Context>)
    requires reported <= want
    ensures |reported| < |want| <==> !(want <= reported)
  {
    Covers(reported, want);
    if want <= reported { assert reported == want; }
  }

  lemma {:induction false} Covers<T>(a: set<T>, b: set<T>)
    requires a <= b
    ensures |a| <= |b| && (|a| == |b| ==> a == b)
  {
    assert b == a + (b - a);
    assert |b| == |a| + |b - a|;
  }

  lemma ValuesOfInsert(m: map<Context, State>, c: Context, s: State)
    requires c !in m
    ensures m[c := s].Values == m.Values + {s}
  {
    assert m[c := s][c] == s;
    forall k | k in m ensures m[c := s][k] == m[k] {}
    forall v | v in m.Values ensures v in m[c := s].Values {
      var k :| k in m && m[k] == v;
      assert k in m[c := s] && m[c := s][k] == v;
    }
  }

  lemma SizeOfInsert(m: map<Context, State>, c: Context, s: State)
    requires c !in m
    ensures |m[c := s].Keys| == |m.Keys| + 1
  {
    assert m[c := s].Keys == m.Keys + {c};
  }

  lemma VotesOfAppend(out: seq<Status>, s: Status, want: set<Context>)
    requires s.context !in Contexts(out)
    ensures s.context !in Votes(out, want)
    ensures Votes(out + [s], want)
            == if want == {} || s.context in want then Votes(out, want)[s.context := s.state] else Votes(out, want)
  {
    LatestOfOne(s);
    LatestOfAppend([s], out);
    LatestKeys(out);
  }

  /** What the loop has gathered from a prefix of the collapsed list. */
  ghost predicate Gathered(out: seq<Status>, want: set<Context>, contexts: map<Context, State>, states: seq<State>,
                           reported: int) {
    contexts == Votes(out, want) && contexts.Values == StatesIn(states)
    && reported == if want == {} then 0 else |contexts.Keys|
  }

  lemma GatheredNothing(want: set<Context>)
    ensures Gathered([], want, map[], [], 0)
  {
    assert Votes([], want) == map[];
  }

  lemma GatherOne(out: seq<Status>, s: Status, want: set<Context>, contexts: map<Context, State>, states: seq<State>,
                  reported: int)
    requires Gathered(out, want, contexts, states, reported) && s.context !in Contexts(out)
    ensures if want == {} then Gathered(out + [s], want, contexts[s.context := s.state], states + [s.state], reported)
            else if s.context in want then
              Gathered(out + [s], want, contexts[s.context := s.state], states + [s.state], reported + 1)
            else Gathered(out + [s], want, contexts, states, reported)
  {
    hide Votes, StatesIn;
    VotesOfAppend(out, s, want);
    ValuesOfInsert(contexts, s.context, s.state);
    StatesOfAppend(states, s.state);
    SizeOfInsert(contexts, s.context, s.state);
  }

  lemma GatheredAll(out: seq<Status>, want: set<Context>, contexts: map<Context, State>, states: seq<State>,
                    reported: int)
    requires Gathered(out, want, contexts, states, reported)
    ensures contexts == Votes(out, want) && contexts.Values == StatesIn(states)
    ensures want != {} ==> reported == |contexts.Keys|
  {
  }

  method FoldTerminalStates(statuses: seq<Status>, want: set<Context>) returns (v: Verdict)
    ensures v == FoldOf(statuses, want)
  {
    var latest := LatestCommitStatuses(statuses);
    CollapsedIsFirstPerContext(statuses);
    assert Votes(latest, want) == Votes(statuses, want) && (want != {} ==> Votes(latest, want).Keys <= want);
    GatheredNothing(want);
    hide Latest, Collapsed, Votes, Combined, Terminal, StatesIn, Gathered;
    var contexts: map<Context, State> := map[];
    var states: seq<State> := [];
    var reported := 0;
    for i := 0 to |latest|
      invariant Gathered(latest[..i], want, contexts, states, reported)
    {
      var s := latest[i];
      assert latest[..i + 1] == latest[..i] + [s];
      GatherOne(latest[..i], s, want, contexts, states, reported);
      if want != {} {
        if s.context !in want {
          continue;
        }
        reported := reported + 1;
      }
      contexts := contexts[s.context := s.state];
      states := states + [s.state];
    }
    assert latest[..|latest|] == latest;
    GatheredAll(latest, want, contexts, states, reported);
    if want != {} {
      CountIsCoverage(contexts.Keys, want);
      if reported < |want| {
        return Verdict(Pending, map[], false);
      }
    }
    var combined := CombineCommitStatusStates(states);
    v := Verdict(combined, contexts, Terminal(combined));
  }

  // ---------------------------------------------------------------- what the fold depends on

  /** Main result: a report is ignored when its context has a newer one, or is not wanted. */
  lemma FoldIgnoresOlderReports(newer: seq<Status>, s: Status, older: seq<Status>, want: set<Context>)
    requires s.context in Contexts(newer) || (want != {} && s.context !in want)
    ensures FoldOf(newer + [s] + older, want) == FoldOf(newer + older, want)
  {
    LatestKeys(newer);
    LatestOfOne(s);
    LatestOfAppend(older, newer + [s]);
    LatestOfAppend([s], newer);
    LatestOfAppend(older, newer);
    hide Latest, VotesOf, Combined, Terminal, Contexts;
    VotesIgnore(Latest(older), s, Latest(newer), want);
  }

  lemma VotesIgnore(older: map<Context, State>, s: Status, newer: map<Context, State>, want: set<Context>)
    requires s.context in newer.Keys || (want != {} && s.context !in want)
    ensures VotesOf(older + (map[s.context := s.state] + newer), want) == VotesOf(older + newer, want)
  {
  }

  lemma LatestOfTwo(s: Status, t: Status)
    ensures Latest([s, t]) == map[t.context := t.state][s.context := s.state]
  {
    assert [s, t][1..] == [t];
    LatestOfOne(t);
  }

  /** Main result: reports of different contexts may come in either order. */
  lemma FoldIgnoresOrder(newer: seq<Status>, s: Status, t: Status, older: seq<Status>, want: set<Context>)
    requires s.context != t.context
    ensures FoldOf(newer + [s, t] + older, want) == FoldOf(newer + [t, s] + older, want)
  {
    LatestOfTwo(s, t);
    LatestOfTwo(t, s);
    SameLatest(newer, [s, t], [t, s], older);
    hide Latest, VotesOf, Combined, Terminal;
  }

  lemma SameLatest(newer: seq<Status>, a: seq<Status>, b: seq<Status>, older: seq<Status>)
    requires Latest(a) == Latest(b)
    ensures Latest(newer + a + older) == Latest(newer + b + older)
  {
    hide Latest;
    LatestOfAppend(older, newer + a);
    LatestOfAppend(a, newer);
    LatestOfAppend(older, newer + b);
    LatestOfAppend(b, newer);
  }

  /** Only a failed outcome settles the verdict while others still run. */
  predicate Failed(s: State) {
    s == Error || s == Failure || s == Canceled
  }

  /** Main result: the verdict is final exactly when every wanted context has reported and the votes hold a failed
      outcome, or a success and nothing still waiting. Then its state is terminal, and a failure unless no vote
      failed. */
  lemma DoneExactlyWhen(statuses: seq<Status>, want: set<Context>)
    ensures
      var v, votes := FoldOf(statuses, want), Votes(statuses, want).Values;
      && (v.done <==> want <= Contexts(statuses)
                      && ((exists s <- votes :: Failed(s)) || (Success in votes && forall s <- votes :: !Waits(s))))
      && (v.done <==> Terminal(v.state))
      && (v.done ==> (v.state == Success <==> forall s <- votes :: !Failed(s)))
  {
    LatestKeys(statuses);
    assert want <= Votes(statuses, want).Keys <==> want <= Contexts(statuses);
    var votes := Votes(statuses, want).Values;
    assert (exists s <- votes :: Failed(s)) <==> Error in votes || Failure in votes || Canceled in votes;
    assert (exists s <- votes :: Waits(s)) <==> Pending in votes || Running in votes;
  }

  /** Main result, precedence: once every wanted context has reported, error beats failure, failure beats cancellation,
      cancellation beats anything still waiting, and that beats success; no vote at all is pending. Before, the verdict
      is pending, whatever the votes. */
  lemma WorstVoteWins(statuses: seq<Status>, want: set<Context>)
    ensures
      var state, votes := FoldOf(statuses, want).state, Votes(statuses, want).Values;
      if !(want <= Contexts(statuses)) then state == Pending
      else
        && (state == Error <==> Error in votes)
        && (state == Failure <==> Failure in votes && Error !in votes)
        && (state == Canceled <==> Canceled in votes && forall s <- votes :: s != Error && s != Failure)
        && (state == Success <==> Success in votes && forall s <- votes :: s == Success || s.Unknown?)
        && (state in {Error, Failure, Canceled, Success, Pending})
  {
    LatestKeys(statuses);
    assert want <= Votes(statuses, want).Keys <==> want <= Contexts(statuses);
    hide Latest, VotesOf;
    var votes := Votes(statuses, want).Values;
    if Success in votes && forall s <- votes :: s == Success || s.Unknown? {
      assert Error !in votes && Failure !in votes && Canceled !in votes && Pending !in votes && Running !in votes;
    }
  }

  /** Every state comes from the unified vocabulary. */
  ghost predicate Normalized(statuses: seq<Status>) {
    forall s <- statuses :: !s.state.Unknown?
  }

  lemma {:induction false} LatestNormalized(statuses: seq<Status>)
    requires Normalized(statuses)
    ensures forall c <- Latest(statuses) :: !Latest(statuses)[c].Unknown?
  {
    if statuses != [] { LatestNormalized(statuses[1..]); }
  }

  /** Main result: on normalized statuses the verdict is final exactly when every wanted context has reported and the
      votes hold a failed outcome, or are all success and not empty. */
  lemma NormalizedDoneExactlyWhen(statuses: seq<Status>, want: set<Context>)
    requires Normalized(statuses)
    ensures
      var v, votes := FoldOf(statuses, want), Votes(statuses, want).Values;
      v.done <==> want <= Contexts(statuses)
                  && ((exists s <- votes :: Failed(s)) || (votes != {} && forall s <- votes :: s == Success))
  {
    LatestNormalized(statuses);
    DoneExactlyWhen(statuses, want);
    var votes := Votes(statuses, want).Values;
    forall s <- votes ensures s == Success || Failed(s) || Waits(s) {
      var c :| c in Votes(statuses, want) && Votes(statuses, want)[c] == s;
    }
    if votes != {} && forall s <- votes :: s == Success {
      var s :| s in votes;
      assert Success in votes;
    }
  }

  /** A state outside the vocabulary does not vote: next to a success it leaves the verdict at success. */
  lemma UnknownDoesNotVote()
    ensures exists statuses :: !Normalized(statuses) && FoldOf(statuses, {}).done && FoldOf(statuses, {}).state == Success
  {
    var a, b := Status("a", Success), Status("b", Unknown("stuck"));
    var statuses := [a, b];
    LatestOfTwo(a, b);
    assert "a" != "b";
    assert b in statuses && !Normalized(statuses);
    var votes := Votes(statuses, {});
    assert votes == map["a" := Success, "b" := Unknown("stuck")];
    assert votes["a"] == Success && Success in votes.Values;
    assert forall s <- votes.Values :: s == Success || s == Unknown("stuck");
  }

  // ---------------------------------------------------------------- the polling loop

  datatype Poll = Listed(statuses: seq<Status>) | NotFound | Transient

  /** Which channel ends a wait. */
  datatype Wake = Tick | Cancel | Budget

  /** One round: what the listing answers and what ends the wait after it. */
  datatype Round = Round(poll: Poll, wake: Wake)

  /** `StillWaiting`: the script is over and nothing has ended the loop. A timeout carries the last verdict, if a
      listing ever succeeded. */
  datatype WaitResult = Settled(state: State) | Missing | Interrupt | TimedOut(last: Option<Verdict>) | StillWaiting

  /** The loop goes on after this round. */
  predicate Inconclusive(r: Round, want: set<Context>) {
    !r.poll.NotFound? && (r.poll.Listed? ==> !FoldOf(r.poll.statuses, want).done)
  }

  /** The newest verdict of the rounds. */
  function LastVerdict(rounds: seq<Round>, want: set<Context>): Option<Verdict> {
    if rounds == [] then None
    else
      var n := |rounds| - 1;
      if rounds[n].poll.Listed? then Some(FoldOf(rounds[n].poll.statuses, want)) else LastVerdict(rounds[..n], want)
  }

  /** How a wait ends that was interrupted, or a round that ended the loop. */
  function Interrupted(w: Wake, last: Option<Verdict>): WaitResult
    requires !w.Tick?
  {
    if w.Cancel? then Interrupt else TimedOut(last)
  }

  /** The result after the first `n` rounds, the last of which is the first to end the loop. */
  ghost predicate EndsAfter(rounds: seq<Round>, want: set<Context>, n: nat, r: WaitResult)
    requires n <= |rounds|
  {
    && (forall i :: 0 <= i < n - 1 ==> Inconclusive(rounds[i], want) && rounds[i].wake.Tick?)
    && if r.StillWaiting? then n == |rounds| && (n > 0 ==> Inconclusive(rounds[n - 1], want) && rounds[n - 1].wake.Tick?)
       else n > 0 && match rounds[n - 1].poll
                     case NotFound => r == Missing
                     case _ =>
                       if !Inconclusive(rounds[n - 1], want) then r == Settled(FoldOf(rounds[n - 1].poll.statuses, want).state)
                       else !rounds[n - 1].wake.Tick? && r == Interrupted(rounds[n - 1].wake, LastVerdict(rounds[..n], want))
  }

  /** The newest verdict is that of the last round whose listing succeeded, if any did. */
  lemma {:induction false} LastVerdictIsNewest(rounds: seq<Round>, want: set<Context>)
    ensures LastVerdict(rounds, want) == None <==> forall r <- rounds :: !r.poll.Listed?
    ensures forall i :: 0 <= i < |rounds| && rounds[i].poll.Listed? && (forall j :: i < j < |rounds| ==> !rounds[j].poll.Listed?) ==>
      LastVerdict(rounds, want) == Some(FoldOf(rounds[i].poll.statuses, want))
  {
    hide FoldOf;
    if rounds != [] {
      var n := |rounds| - 1;
      LastVerdictIsNewest(rounds[..n], want);
      assert rounds == rounds[..n] + [rounds[n]];
    }
  }

  /** Why the loop ends, by the last round it went through: a listing that says "not found", a final verdict, a
      cancelled context or an expired budget. Nothing else ends it. */
  lemma WaitEndsBecause(rounds: seq<Round>, want: set<Context>, n: nat, r: WaitResult)
    requires n <= |rounds| && EndsAfter(rounds, want, n, r)
    ensures r.StillWaiting? || n > 0
    ensures n > 0 ==>
      var last := rounds[n - 1];
      var final := last.poll.Listed? && FoldOf(last.poll.statuses, want).done;
      && (r == Missing <==> last.poll == NotFound)
      && (r.Settled? <==> final)
      && (r == Interrupt <==> last.poll != NotFound && !final && last.wake == Cancel)
      && (r.TimedOut? <==> last.poll != NotFound && !final && last.wake == Budget)
      && (r == StillWaiting <==> last.poll != NotFound && !final && last.wake == Tick)
  {
    hide FoldOf, LastVerdict;
  }

  /** `delay` is what ends the initial wait, if there is one. Only the first conclusive round counts: the loop returns
      the terminal state of the first final verdict, or the definite miss, or why it stopped waiting. */
  method WaitForCommitStatus(delay: Option<Wake>, rounds: seq<Round>, want: set<Context>)
    returns (r: WaitResult, polls: nat)
    ensures polls <= |rounds|
    ensures if delay.Some? && !delay.value.Tick? then polls == 0 && r == Interrupted(delay.value, None)
            else EndsAfter(rounds, want, polls, r)
    ensures delay == Some(Cancel) <==> polls == 0 && r == Interrupt
    ensures delay == Some(Budget) <==> polls == 0 && r == TimedOut(None)
    ensures r.Settled? ==> Terminal(r.state)
    ensures r.TimedOut? && r.last.Some? ==> !Terminal(r.last.value.state)
  {
    polls := 0;
    if delay.Some? && !delay.value.Tick? {
      return Interrupted(delay.value, None), 0;
    }
    var last: Option<Verdict> := None;
    while polls < |rounds|
      invariant polls <= |rounds|
      invariant forall i :: 0 <= i < polls ==> Inconclusive(rounds[i], want) && rounds[i].wake.Tick?
      invariant last == LastVerdict(rounds[..polls], want)
      invariant last.Some? ==> !Terminal(last.value.state)
    {
      var round := rounds[polls];
      polls := polls + 1;
      assert rounds[..polls][..polls - 1] == rounds[..polls - 1];
      match round.poll {
        case NotFound =>
          return Missing, polls;
        case Transient =>
        case Listed(statuses) =>
          var snap := FoldTerminalStates(statuses, want);
          DoneExactlyWhen(statuses, want);
          if snap.done {
            return Settled(snap.state), polls;
          }
          last := Some(snap);
      }
      if !round.wake.Tick? {
        return Interrupted(round.wake, last), polls;
      }
    }
    r := StillWaiting;
  }
}
