/** The run state machine: which state may follow which, and the counters every run
    carries (crates/core/src/rules.rs, crates/core/src/state.rs). */
module RunStates {
  import opened Basics

  const SECOND := 1_000_000

  // -- States -------------------------------------------------------------------

  datatype StateType =
    Scheduled | Pending | Running | Completed | Failed | Cancelled | Crashed | Paused | Cancelling

  predicate TerminalType(t: StateType) {
    t.Completed? || t.Failed? || t.Cancelled? || t.Crashed?
  }

  function TypeText(t: StateType): string {
    match t
    case Scheduled => "Scheduled"
    case Pending => "Pending"
    case Running => "Running"
    case Completed => "Completed"
    case Failed => "Failed"
    case Cancelled => "Cancelled"
    case Crashed => "Crashed"
    case Paused => "Paused"
    case Cancelling => "Cancelling"
  }

  /** The type a recognised sub-state name stands for. */
  function TypeOfName(name: string): Option<StateType> {
    if name in ["Late", "AwaitingRetry", "AwaitingResource"] then Some(Scheduled)
    else if name == "Retrying" then Some(Running)
    else if name == "TimedOut" then Some(Failed)
    else if name in ["Cached", "Replayed", "Recovered", "Skipped"] then Some(Completed)
    else if name in ["Sleeping", "AwaitingEvent", "AwaitingTarget", "InDoubt"] then Some(Paused)
    else None
  }

  /** `forced` is the mark a forced transition leaves in the details. */
  datatype State = State(kind: StateType, name: string, timestamp: int, forced: bool)

  predicate Terminal(s: State) { TerminalType(s.kind) }

  function FromParts(kind: StateType, name: Option<string>, timestamp: int): State {
    if name.None? || name.value == "" then State(kind, TypeText(kind), timestamp, false)
    else
      var sub := TypeOfName(name.value);
      State(if sub.Some? then sub.value else kind, name.value, timestamp, false)
  }

  /** However a state arrives, it has a name, a recognised name always has its own type,
      and passing the parts of the result on gives the same state again. */
  lemma FromPartsSettles(kind: StateType, name: Option<string>, timestamp: int)
    ensures var s := FromParts(kind, name, timestamp);
            && s.name != ""
            && (TypeOfName(s.name).Some? ==> s.kind == TypeOfName(s.name).value)
            && (TypeOfName(s.name).None? ==> s.kind == kind)
            && FromParts(s.kind, Some(s.name), timestamp) == s
  {
    TypeTextIsNoName(kind);
  }

  /** The sub-states a run may be in, each with the type it belongs to. */
  const SUBSTATES: map<string, StateType> := map[
    "Late" := Scheduled, "AwaitingRetry" := Scheduled, "AwaitingResource" := Scheduled,
    "Retrying" := Running, "TimedOut" := Failed,
    "Cached" := Completed, "Replayed" := Completed, "Recovered" := Completed, "Skipped" := Completed,
    "Sleeping" := Paused, "AwaitingEvent" := Paused, "AwaitingTarget" := Paused, "InDoubt" := Paused]

  /** A state that arrives under a sub-state's name is of that sub-state's type, whatever
      type it came with; under any other name it keeps its own. */
  lemma NameDecidesType(kind: StateType, name: string, timestamp: int)
    ensures var s := FromParts(kind, Some(name), timestamp);
            && (name != "" ==> s.name == name)
            && s.kind == if name in SUBSTATES then SUBSTATES[name] else kind
  {
  }

  lemma TypeTextIsNoName(kind: StateType)
    ensures TypeText(kind) != "" && TypeOfName(TypeText(kind)).None?
  {
    var text := TypeText(kind);
    assert |text| == 9 || |text| == 7 || |text| == 6 || |text| == 10;
    assert forall name :: name in ["Late", "AwaitingRetry", "AwaitingResource", "Cached", "Replayed", "Recovered",
             "Skipped", "Sleeping", "AwaitingEvent", "AwaitingTarget", "InDoubt", "Retrying", "TimedOut"] ==>
             |name| > 4 ==> name[0] != text[0] || name[1] != text[1] || |name| != |text|;
  }

  /** The type can be read off its text. */
  lemma TypeTextsDiffer(a: StateType, b: StateType)
    ensures TypeText(a) == TypeText(b) <==> a == b
  {
    var s, t := TypeText(a), TypeText(b);
    assert s == t ==> s[0] == t[0] && s[1] == t[1];
  }

  // -- Transitions --------------------------------------------------------------

  datatype Outcome = Accept | Reject(reason: string) | Rewrite(state: State)

  datatype Result = Ok(state: State) | Err(reason: string)

  predicate Duplicate(cur: State, proposed: State) {
    && cur.kind == proposed.kind && cur.name == proposed.name
    && -SECOND < proposed.timestamp - cur.timestamp < SECOND
  }

  function Propose(current: Option<State>, proposed: State, force: bool): Outcome {
    if force then Rewrite(proposed.(forced := true))
    else if current.Some? && Terminal(current.value) then Reject("terminal")
    else if current.Some? && Duplicate(current.value, proposed) then Reject("duplicate")
    else
      var cur := if current.Some? then Some(current.value.kind) else None;
      match proposed.kind
      case Pending => if cur == None || cur == Some(Scheduled) then Accept else Reject("invalid-entry")
      case Running =>
        if cur == Some(Pending) || cur == Some(Scheduled) || cur == Some(Paused) then Accept
        else Reject("invalid-entry")
      case Cancelled =>
        if cur == Some(Cancelling) || cur == Some(Scheduled) || cur == Some(Pending)
           || cur == Some(Running) || cur == Some(Paused) then Accept
        else Reject("invalid-entry")
      case Paused => if cur == Some(Running) then Accept else Reject("invalid-entry")
      case _ => if cur == Some(Cancelling) then Reject("cancelling") else Accept
  }

  function Resolved(outcome: Outcome, proposed: State): Result {
    match outcome
    case Accept => Ok(proposed)
    case Rewrite(s) => Ok(s)
    case Reject(reason) => Err(reason)
  }

  // -- Counters -----------------------------------------------------------------

  datatype Counters = Counters(
    failureCount: nat,
    crashCount: nat,
    startTime: Option<int>,
    endTime: Option<int>,
    totalRunTime: Option<int>)

  /** The counters after one more accepted state. */
  function Applied(c: Counters, s: State): Counters {
    var start := if s.kind.Running? && c.startTime.None? then Some(s.timestamp) else c.startTime;
    Counters(
      c.failureCount + (if s.kind.Failed? || (s.kind.Scheduled? && s.name == "AwaitingRetry") then 1 else 0),
      c.crashCount + (if s.kind.Crashed? then 1 else 0),
      start,
      if Terminal(s) then Some(s.timestamp) else None,
      if !Terminal(s) then None
      else if start.Some? then Some(AtLeastZero(s.timestamp - start.value))
      else c.totalRunTime)
  }

  function AtLeastZero(x: int): int { if x < 0 then 0 else x }

  class RunCounters {
    var failureCount: nat
    var crashCount: nat
    var startTime: Option<int>
    var endTime: Option<int>
    var totalRunTime: Option<int>

    function View(): Counters
      reads this
    {
      Counters(failureCount, crashCount, startTime, endTime, totalRunTime)
    }

    constructor ()
      ensures View() == Counters(0, 0, None, None, None)
    {
      failureCount, crashCount, startTime, endTime, totalRunTime := 0, 0, None, None, None;
    }

    method Apply(accepted: State)
      modifies this
      ensures View() == Applied(old(View()), accepted)
    {
      match accepted.kind {
        case Failed => failureCount := failureCount + 1;
        case Crashed => crashCount := crashCount + 1;
        case Scheduled =>
          if accepted.name == "AwaitingRetry" {
            failureCount := failureCount + 1;
          }
        case _ =>
      }
      if accepted.kind == Running && startTime.None? {
        startTime := Some(accepted.timestamp);
      }
      if Terminal(accepted) {
        endTime := Some(accepted.timestamp);
        if startTime.Some? {
          totalRunTime := Some(AtLeastZero(accepted.timestamp - startTime.value));
        }
      } else {
        endTime := None;
        totalRunTime := None;
      }
    }
  }

  /** A failure, or a wait for the next try. */
  predicate AttemptFailed(s: State) {
    s.kind.Failed? || (s.kind.Scheduled? && s.name == "AwaitingRetry")
  }

  function Count(history: seq<State>, wanted: State -> bool): nat {
    if history == [] then 0
    else Count(history[..|history| - 1], wanted) + if wanted(history[|history| - 1]) then 1 else 0
  }

  /** When the first Running state was entered. */
  function FirstRunning(history: seq<State>): Option<int> {
    if history == [] then None
    else if history[0].kind.Running? then Some(history[0].timestamp)
    else FirstRunning(history[1..])
  }

  /** What the counters mean: a summary of the states entered so far. */
  ghost function CountersOf(history: seq<State>): Counters {
    var start := FirstRunning(history);
    var ended := history != [] && Terminal(history[|history| - 1]);
    var last := if history == [] then 0 else history[|history| - 1].timestamp;
    Counters(
      Count(history, AttemptFailed),
      Count(history, (s: State) => s.kind.Crashed?),
      start,
      if ended then Some(last) else None,
      if !ended || start.None? then None else if last < start.value then Some(0) else Some(last - start.value))
  }

  lemma {:induction false} FirstRunningAppend(history: seq<State>, s: State)
    ensures FirstRunning(history + [s])
         == if FirstRunning(history).None? && s.kind.Running? then Some(s.timestamp) else FirstRunning(history)
  {
    if history == [] {
      assert [s][1..] == [];
    } else {
      assert (history + [s])[1..] == history[1..] + [s];
      FirstRunningAppend(history[1..], s);
    }
  }

  lemma AppliedSummarises(history: seq<State>, s: State)
    ensures Applied(CountersOf(history), s) == CountersOf(history + [s])
  {
    var more := history + [s];
    assert more[..|history|] == history;
    FirstRunningAppend(history, s);
  }

  // -- Whole histories -----------------------------------------------------------

  datatype Proposal = Proposal(state: State, force: bool)

  datatype Run = Run(history: seq<State>, counters: Counters)

  function Current(history: seq<State>): Option<State> {
    if history == [] then None else Some(history[|history| - 1])
  }

  /** One transition request: a rejected proposal leaves the run as it is. */
  function Transition(run: Run, p: Proposal): Run {
    match Resolved(Propose(Current(run.history), p.state, p.force), p.state)
    case Ok(s) => Run(run.history + [s], Applied(run.counters, s))
    case Err(_) => run
  }

  function Play(proposals: seq<Proposal>): Run {
    if proposals == [] then Run([], Counters(0, 0, None, None, None))
    else Transition(Play(proposals[..|proposals| - 1]), proposals[|proposals| - 1])
  }

  /** After any proposals, forced ones included, the counters summarise the history. */
  lemma {:induction false} CountersSummarise(proposals: seq<Proposal>)
    ensures Play(proposals).counters == CountersOf(Play(proposals).history)
  {
    if proposals != [] {
      var before, p := Play(proposals[..|proposals| - 1]), proposals[|proposals| - 1];
      CountersSummarise(proposals[..|proposals| - 1]);
      var r := Resolved(Propose(Current(before.history), p.state, p.force), p.state);
      if r.Ok? {
        AppliedSummarises(before.history, r.state);
      }
    }
  }

  /** The states a run may be in before it enters `next`, unforced. */
  predicate Follows(previous: Option<State>, next: State) {
    if previous.None? then next.kind !in {Running, Cancelled, Paused}
    else
      var from := previous.value.kind;
      && from !in {Completed, Failed, Cancelled, Crashed}
      && (from == next.kind && previous.value.name == next.name ==>
           next.timestamp <= previous.value.timestamp - SECOND || previous.value.timestamp + SECOND <= next.timestamp)
      && (from.Cancelling? ==> next.kind.Cancelled?)
      && (next.kind.Pending? ==> from.Scheduled?)
      && (next.kind.Running? ==> from in {Scheduled, Pending, Paused})
      && (next.kind.Paused? ==> from.Running?)
  }

  ghost predicate Legal(history: seq<State>) {
    forall i :: 0 <= i < |history| ==> Follows(Current(history[..i]), history[i])
  }

  lemma ProposeFollows(previous: Option<State>, next: State)
    ensures Propose(previous, next, false).Accept? <==> Follows(previous, next)
    ensures !Propose(previous, next, false).Rewrite?
  {
  }

  /** No proposal without force gets a run out of its state exactly when it has completed,
      failed, crashed or been cancelled. */
  lemma FinalExactly(current: State)
    ensures (forall next :: Propose(Some(current), next, false).Reject?)
       <==> current.kind in {Completed, Failed, Cancelled, Crashed}
  {
    var way := State(if current.kind.Cancelling? then Cancelled else Completed, "", current.timestamp, false);
    if current.kind !in {Completed, Failed, Cancelled, Crashed} {
      assert !Propose(Some(current), way, false).Reject?;
    }
  }

  lemma LegalExtends(history: seq<State>, next: State)
    requires Legal(history) && Follows(Current(history), next)
    ensures Legal(history + [next])
  {
    var more := history + [next];
    forall i | 0 <= i < |more| ensures Follows(Current(more[..i]), more[i]) {
      assert more[..i] == history[..i];
      assert history[..|history|] == history;
    }
  }

  lemma {:induction false} UnforcedLegal(proposals: seq<Proposal>)
    requires NoneForced(proposals)
    ensures Legal(Play(proposals).history)
  {
    if proposals != [] {
      var before, p := Play(proposals[..|proposals| - 1]), proposals[|proposals| - 1];
      UnforcedLegal(proposals[..|proposals| - 1]);
      ProposeFollows(Current(before.history), p.state);
      if Follows(Current(before.history), p.state) {
        LegalExtends(before.history, p.state);
      }
    }
  }

  ghost predicate NoneForced(proposals: seq<Proposal>) {
    forall i :: 0 <= i < |proposals| ==> !proposals[i].force
  }

  function Unforced(history: seq<State>): (proposals: seq<Proposal>)
    ensures |proposals| == |history|
    ensures forall i :: 0 <= i < |history| ==> proposals[i] == Proposal(history[i], false)
  {
    seq(|history|, i requires 0 <= i < |history| => Proposal(history[i], false))
  }

  lemma {:induction false} LegalPlays(history: seq<State>)
    requires Legal(history)
    ensures Play(Unforced(history)).history == history
  {
    if history != [] {
      var front, last := history[..|history| - 1], history[|history| - 1];
      assert history == front + [last] && Unforced(history)[..|front|] == Unforced(front);
      LegalSplits(history);
      LegalPlays(front);
      AcceptedExtends(Play(Unforced(front)), last);
    }
  }

  lemma LegalSplits(history: seq<State>)
    requires Legal(history) && history != []
    ensures Legal(history[..|history| - 1])
    ensures Follows(Current(history[..|history| - 1]), history[|history| - 1])
  {
    var front := history[..|history| - 1];
    assert forall i :: 0 <= i < |front| ==> front[..i] == history[..i];
  }

  lemma AcceptedExtends(run: Run, next: State)
    requires Follows(Current(run.history), next)
    ensures Transition(run, Proposal(next, false)).history == run.history + [next]
  {
    ProposeFollows(Current(run.history), next);
  }

  /** The histories unforced proposals can produce are exactly the legal ones. */
  lemma HistoriesAreLegal(history: seq<State>)
    ensures Legal(history)
        <==> exists proposals :: NoneForced(proposals) && Play(proposals).history == history
  {
    if Legal(history) {
      LegalPlays(history);
      assert NoneForced(Unforced(history));
    }
    if proposals :| NoneForced(proposals) && Play(proposals).history == history {
      UnforcedLegal(proposals);
    }
  }

  /** In a history without force a terminal state is the last one, a cancelling run is
      next Cancelled, a pause comes straight after Running, and once started a run is
      never Pending again without having been Scheduled. */
  lemma LegalOrder(history: seq<State>, i: nat)
    requires Legal(history) && i < |history|
    ensures i + 1 < |history| ==> !Terminal(history[i])
    ensures i + 1 < |history| && history[i].kind.Cancelling? ==> history[i + 1].kind.Cancelled? && i + 2 == |history|
    ensures history[i].kind.Paused? ==> i > 0 && history[i - 1].kind.Running?
    ensures history[i].kind.Running? ==> i > 0 && history[i - 1].kind in {Scheduled, Pending, Paused}
    ensures history[i].kind.Pending? ==> i == 0 || history[i - 1].kind.Scheduled?
  {
    if i > 0 {
      StepFollows(history, i);
    }
    if i + 1 < |history| {
      StepFollows(history, i + 1);
    }
    if i + 2 < |history| {
      StepFollows(history, i + 2);
    }
  }

  lemma StepFollows(history: seq<State>, i: nat)
    requires Legal(history) && 0 < i < |history|
    ensures Follows(Some(history[i - 1]), history[i])
  {
    assert Current(history[..i]) == Some(history[i - 1]);
  }
}
