/** Crash chains (crates/server/src/dispatch.rs): a crashed run is rerun by a timer that
    lives in memory only, a restart loses the timers and arms them again from the store,
    and nothing stops a rerun from being armed twice. */
module CrashChains {
  import opened Basics
  import opened RunStates

  /** What never changes about a run: which attempt it is, how many crash reruns its
      flow allows, the run that led to it, and whether it is that run's crash rerun. */
  datatype Link = Link(attempt: int, limit: int, parent: Option<nat>, byCrash: bool)

  datatype RunRow = RunRow(link: Link, state: State, lease: nat)

  /** The store's runs, by id, and the pending rerun timers. */
  datatype Server = Server(runs: seq<RunRow>, timers: multiset<nat>)

  // -- The operations ------------------------------------------------------------

  predicate HasChild(runs: seq<RunRow>, id: nat) {
    exists j :: 0 <= j < |runs| && runs[j].link.parent == Some(id)
  }

  function Plain(kind: StateType, now: int): State {
    State(kind, TypeText(kind), now, false)
  }

  function Created(runs: seq<RunRow>, link: Link, now: int): seq<RunRow> {
    runs + [RunRow(link, Plain(Scheduled, now), 0)]
  }

  /** A transition through the shared rules; a terminal or paused run loses its timers. */
  function Moved(s: Server, id: nat, proposed: State, force: bool): Server
    requires id < |s.runs|
  {
    match Resolved(Propose(Some(s.runs[id].state), proposed, force), proposed)
    case Err(_) => s
    case Ok(state) =>
      Server(s.runs[id := s.runs[id].(state := state)],
             if Terminal(state) || state.kind.Paused? then s.timers[id := 0] else s.timers)
  }

  function Bumped(s: Server, id: nat): Server
    requires id < |s.runs|
  {
    s.(runs := s.runs[id := s.runs[id].(lease := s.runs[id].lease + 1)])
  }

  predicate Accepts(s: Server, id: nat, kind: StateType, now: int)
    requires id < |s.runs|
  {
    Propose(Some(s.runs[id].state), Plain(kind, now), false).Accept?
  }

  /** A crash is noticed: the run ends Crashed with a rerun armed, or Failed at the limit. */
  function CrashOf(s: Server, id: nat, now: int): Server
    requires id < |s.runs|
  {
    var kind := if s.runs[id].link.attempt < s.runs[id].link.limit then Crashed else Failed;
    var after := Moved(Bumped(s, id), id, Plain(kind, now), false);
    if kind.Crashed? && Accepts(s, id, Crashed, now) then after.(timers := after.timers[id := after.timers[id] + 1])
    else after
  }

  function RerunLink(crashed: Link, id: nat): Link {
    Link(crashed.attempt + 1, crashed.limit, Some(id), true)
  }

  /** The rerun timer of a run goes off. */
  function RerunOf(s: Server, id: nat, now: int): Server
    requires id < |s.runs|
  {
    if !s.runs[id].state.kind.Crashed? || HasChild(s.runs, id) then s
    else s.(runs := Created(s.runs, RerunLink(s.runs[id].link, id), now))
  }

  predicate Interrupted(runs: seq<RunRow>, id: nat, since: int)
    requires id < |runs|
  {
    && runs[id].state.kind.Crashed? && since <= runs[id].state.timestamp
    && !HasChild(runs, id) && runs[id].link.attempt < runs[id].link.limit
  }

  /** The timers a restart arms for the first `n` runs. */
  function Rearmed(runs: seq<RunRow>, since: int, n: nat): multiset<nat>
    requires n <= |runs|
  {
    if n == 0 then multiset{}
    else Rearmed(runs, since, n - 1) + if Interrupted(runs, n - 1, since) then multiset{n - 1} else multiset{}
  }

  class Dispatcher {
    var runs: seq<RunRow>
    var timers: multiset<nat>

    function View(): Server
      reads this
    {
      Server(runs, timers)
    }

    method TransitionRun(id: nat, proposed: State, force: bool) returns (accepted: bool)
      modifies this
      ensures View() == if id < |old(runs)| then Moved(old(View()), id, proposed, force) else old(View())
      ensures accepted <==> id < |old(runs)| && (force || Propose(Some(old(runs)[id].state), proposed, false).Accept?)
    {
      if id >= |runs| {
        return false;
      }
      var outcome := Resolved(Propose(Some(runs[id].state), proposed, force), proposed);
      if outcome.Err? {
        return false;
      }
      runs := runs[id := runs[id].(state := outcome.state)];
      if Terminal(outcome.state) || outcome.state.kind == Paused {
        timers := timers[id := 0];
      }
      return true;
    }

    method CrashRun(id: nat, now: int)
      modifies this
      ensures View() == if id < |old(runs)| then CrashOf(old(View()), id, now) else old(View())
    {
      if id >= |runs| {
        return;
      }
      runs := runs[id := runs[id].(lease := runs[id].lease + 1)];
      if runs[id].link.attempt < runs[id].link.limit {
        var accepted := TransitionRun(id, Plain(Crashed, now), false);
        if accepted {
          timers := timers[id := timers[id] + 1];
        }
      } else {
        var _ := TransitionRun(id, Plain(Failed, now), false);
      }
    }

    method HasChildRun(id: nat) returns (found: bool)
      ensures found == HasChild(runs, id)
    {
      found := false;
      var j := 0;
      while j < |runs|
        invariant 0 <= j <= |runs|
        invariant found <==> exists k :: 0 <= k < j && runs[k].link.parent == Some(id)
      {
        if runs[j].link.parent == Some(id) {
          found := true;
        }
        j := j + 1;
      }
    }

    method CrashRerun(id: nat, now: int)
      modifies this
      ensures View() == if id < |old(runs)| then RerunOf(old(View()), id, now) else old(View())
    {
      if id >= |runs| {
        return;
      }
      var found := HasChildRun(id);
      if runs[id].state.kind != Crashed || found {
        return;
      }
      runs := Created(runs, RerunLink(runs[id].link, id), now);
    }

    /** A restart: the timers are gone; arm the recent chains without a follow-up again. */
    method RearmCrashChains(since: int)
      modifies this
      ensures View() == Server(old(runs), Rearmed(old(runs), since, |old(runs)|))
    {
      timers := multiset{};
      var id := 0;
      while id < |runs|
        invariant 0 <= id <= |runs|
        invariant runs == old(runs) && timers == Rearmed(runs, since, id)
      {
        var found := HasChildRun(id);
        if runs[id].state.kind == Crashed && runs[id].state.timestamp >= since && !found
           && runs[id].link.attempt < runs[id].link.limit {
          timers := timers + multiset{id};
        }
        id := id + 1;
      }
    }
  }

  // -- Everything that can happen --------------------------------------------------

  /** Runs are created, by themselves, by a rule reacting to another run, or as a retry
      of one; any proposal may reach any run; crashes are detected, again and again;
      timers go off; the server restarts. */
  datatype Step =
    | Create(limit: int, now: int)
    | RuleRun(cause: nat, limit: int, now: int)
    | RetryRun(original: nat, now: int)
    | Move(id: nat, proposed: State, force: bool)
    | Crash(id: nat, now: int)
    | Fire(id: nat, now: int)
    | Restart(since: int)

  predicate Enabled(s: Server, step: Step) {
    match step
    case Create(_, _) => true
    case RuleRun(cause, _, _) => cause < |s.runs|
    case RetryRun(original, _) => original < |s.runs|
    case Move(id, _, _) => id < |s.runs|
    case Crash(id, _) => id < |s.runs|
    case Fire(id, _) => id in s.timers && id < |s.runs|
    case Restart(_) => true
  }

  function Do(s: Server, step: Step): Server
    requires Enabled(s, step)
  {
    match step
    case Create(limit, now) => s.(runs := Created(s.runs, Link(0, limit, None, false), now))
    case RuleRun(cause, limit, now) => s.(runs := Created(s.runs, Link(0, limit, Some(cause), false), now))
    case RetryRun(original, now) =>
      var link := s.runs[original].link;
      s.(runs := Created(s.runs, Link(link.attempt + 1, link.limit, Some(original), false), now))
    case Move(id, proposed, force) => Moved(s, id, proposed, force)
    case Crash(id, now) => CrashOf(s, id, now)
    case Fire(id, now) => RerunOf(s.(timers := s.timers - multiset{id}), id, now)
    case Restart(since) => s.(timers := Rearmed(s.runs, since, |s.runs|))
  }

  /** A step that cannot be taken changes nothing. */
  function Next(s: Server, step: Step): Server {
    if Enabled(s, step) then Do(s, step) else s
  }

  function After(steps: seq<Step>): Server {
    if steps == [] then Server([], multiset{})
    else Next(After(steps[..|steps| - 1]), steps[|steps| - 1])
  }

  // -- Chains stay linear and bounded ------------------------------------------------

  function Links(runs: seq<RunRow>): (links: seq<Link>)
    ensures |links| == |runs|
    ensures forall i :: 0 <= i < |runs| ==> links[i] == runs[i].link
  {
    seq(|runs|, i requires 0 <= i < |runs| => runs[i].link)
  }

  /** A crash rerun continues its parent's count within the limit. */
  ghost predicate Continues(links: seq<Link>) {
    forall i :: 0 <= i < |links| ==>
      && (links[i].parent.Some? ==> links[i].parent.value < i)
      && (links[i].byCrash ==>
           && links[i].parent.Some?
           && var p := links[links[i].parent.value];
              links[i].attempt == p.attempt + 1 && links[i].limit == p.limit && links[i].attempt <= links[i].limit)
  }

  /** A crash rerun is the first run that names its parent. */
  ghost predicate FirstChild(links: seq<Link>) {
    forall i, j :: 0 <= i < j < |links| && links[j].byCrash ==> links[i].parent != links[j].parent
  }

  ghost predicate TimersOk(links: seq<Link>, timers: multiset<nat>) {
    forall id :: id in timers ==> id < |links| && links[id].attempt < links[id].limit
  }

  ghost predicate Inv(s: Server) {
    Continues(Links(s.runs)) && FirstChild(Links(s.runs)) && TimersOk(Links(s.runs), s.timers)
  }

  lemma MovedKeepsLinks(s: Server, id: nat, proposed: State, force: bool)
    requires id < |s.runs|
    ensures Links(Moved(s, id, proposed, force).runs) == Links(s.runs)
    ensures forall t :: t in Moved(s, id, proposed, force).timers ==> t in s.timers
  {
  }

  /** A transition changes no link and arms nothing. */
  lemma MoveKeeps(s: Server, next: Server, id: nat, proposed: State, force: bool)
    requires Inv(s) && id < |s.runs| && next == Moved(s, id, proposed, force)
    ensures Inv(next)
  {
    MovedKeepsLinks(s, id, proposed, force);
  }

  lemma CrashKeeps(s: Server, next: Server, id: nat, now: int)
    requires Inv(s) && id < |s.runs| && next == CrashOf(s, id, now)
    ensures Inv(next)
  {
    CrashEnds(s, id, now);
    assert Links(next.runs) == Links(s.runs);
    assert Links(s.runs)[id] == s.runs[id].link;
    assert forall k :: k in next.timers ==>
             k in s.timers || (k == id && s.runs[id].link.attempt < s.runs[id].link.limit);
  }

  /** A new run that is not a crash rerun leaves every chain alone. */
  lemma PlainRunKeeps(s: Server, next: Server, link: Link, now: int)
    requires Inv(s) && !link.byCrash && (link.parent.Some? ==> link.parent.value < |s.runs|)
    requires next == s.(runs := Created(s.runs, link, now))
    ensures Inv(next)
  {
    assert Links(next.runs) == Links(s.runs) + [link];
    AppendPlain(Links(s.runs), link);
    TimersStay(Links(s.runs), link, s.timers);
  }

  lemma AppendPlain(links: seq<Link>, link: Link)
    requires Continues(links) && FirstChild(links)
    requires !link.byCrash && (link.parent.Some? ==> link.parent.value < |links|)
    ensures Continues(links + [link]) && FirstChild(links + [link])
  {
  }

  lemma FireKeeps(s: Server, next: Server, id: nat, now: int)
    requires Inv(s) && id in s.timers && id < |s.runs|
    requires next == RerunOf(s.(timers := s.timers - multiset{id}), id, now)
    ensures Inv(next)
  {
    var links, more := Links(s.runs), RerunLink(s.runs[id].link, id);
    assert links[id] == s.runs[id].link;
    TimersFewer(links, s.timers, s.timers - multiset{id});
    if s.runs[id].state.kind.Crashed? && !HasChild(s.runs, id) {
      assert Links(next.runs) == links + [more];
      assert forall i :: 0 <= i < |links| ==> links[i] == s.runs[i].link && links[i].parent != Some(id);
      AppendRerun(links, id);
      TimersStay(links, more, s.timers - multiset{id});
    }
  }

  lemma RestartKeeps(s: Server, next: Server, since: int)
    requires Inv(s) && next == s.(timers := Rearmed(s.runs, since, |s.runs|))
    ensures Inv(next)
  {
    forall id: nat | id in next.timers ensures id < |s.runs| && Links(s.runs)[id].attempt < Links(s.runs)[id].limit {
      RearmedExactly(s.runs, since, |s.runs|, id);
    }
  }

  lemma TimersFewer(links: seq<Link>, timers: multiset<nat>, fewer: multiset<nat>)
    requires TimersOk(links, timers) && fewer <= timers
    ensures TimersOk(links, fewer)
  {
  }

  lemma TimersStay(links: seq<Link>, more: Link, timers: multiset<nat>)
    requires TimersOk(links, timers)
    ensures TimersOk(links + [more], timers)
  {
  }

  lemma AppendRerun(links: seq<Link>, id: nat)
    requires Continues(links) && FirstChild(links)
    requires id < |links| && links[id].attempt < links[id].limit
    requires forall i :: 0 <= i < |links| ==> links[i].parent != Some(id)
    ensures Continues(links + [RerunLink(links[id], id)]) && FirstChild(links + [RerunLink(links[id], id)])
  {
  }

  lemma {:induction false} RearmedExactly(runs: seq<RunRow>, since: int, n: nat, id: nat)
    requires n <= |runs|
    ensures id in Rearmed(runs, since, n) <==> id < n && Interrupted(runs, id, since)
  {
    if n > 0 {
      RearmedExactly(runs, since, n - 1, id);
    }
  }

  lemma StepKeeps(s: Server, next: Server, step: Step)
    requires Inv(s) && Enabled(s, step) && next == Do(s, step)
    ensures Inv(next)
  {
    match step
    case Create(limit, now) => PlainRunKeeps(s, next, Link(0, limit, None, false), now);
    case RuleRun(cause, limit, now) => PlainRunKeeps(s, next, Link(0, limit, Some(cause), false), now);
    case RetryRun(original, now) =>
      var link := s.runs[original].link;
      PlainRunKeeps(s, next, Link(link.attempt + 1, link.limit, Some(original), false), now);
    case Move(id, proposed, force) => MoveKeeps(s, next, id, proposed, force);
    case Crash(id, now) => CrashKeeps(s, next, id, now);
    case Fire(id, now) => FireKeeps(s, next, id, now);
    case Restart(since) => RestartKeeps(s, next, since);
  }

  lemma {:induction false} AfterKeeps(steps: seq<Step>)
    ensures Inv(After(steps))
  {
    if steps != [] {
      AfterKeeps(steps[..|steps| - 1]);
      var s, step := After(steps[..|steps| - 1]), steps[|steps| - 1];
      if Enabled(s, step) {
        StepKeeps(s, Do(s, step), step);
      }
    }
  }

  /** The run a chain started with, and how many reruns led from it to run `i`. */
  ghost function Root(links: seq<Link>, i: nat): (root: nat)
    requires Continues(links) && i < |links|
    ensures root <= i && !links[root].byCrash
  {
    if links[i].byCrash then Root(links, links[i].parent.value) else i
  }

  ghost function Depth(links: seq<Link>, i: nat): nat
    requires Continues(links) && i < |links|
  {
    if links[i].byCrash then Depth(links, links[i].parent.value) + 1 else 0
  }

  lemma {:induction false} AttemptsCountReruns(links: seq<Link>, i: nat)
    requires Continues(links) && i < |links|
    ensures links[i].attempt == links[Root(links, i)].attempt + Depth(links, i)
    ensures links[i].limit == links[Root(links, i)].limit
    ensures Depth(links, i) > 0 ==> links[i].attempt <= links[i].limit
  {
    if links[i].byCrash {
      AttemptsCountReruns(links, links[i].parent.value);
    }
  }

  /** Two runs as far from one root are the same run: a chain never forks. */
  lemma {:induction false} NeverForks(links: seq<Link>, i: nat, j: nat)
    requires Continues(links) && FirstChild(links) && i < |links| && j < |links|
    requires Root(links, i) == Root(links, j) && Depth(links, i) == Depth(links, j)
    ensures i == j
  {
    if Depth(links, i) > 0 {
      NeverForks(links, links[i].parent.value, links[j].parent.value);
    }
  }

  /** Whatever happens: the run that far into a chain is one and the same, its attempt
      is the root's plus the reruns between, and no rerun goes beyond the limit. */
  lemma ChainsLinearAndBounded(steps: seq<Step>, i: nat, j: nat)
    requires i < |After(steps).runs| && j < |After(steps).runs|
    ensures var links := Links(After(steps).runs);
            && Continues(links)
            && (Root(links, i) == Root(links, j) && Depth(links, i) == Depth(links, j) ==> i == j)
            && links[i].attempt == links[Root(links, i)].attempt + Depth(links, i)
            && links[i].limit == links[Root(links, i)].limit
            && (Depth(links, i) > 0 ==> links[i].attempt <= links[i].limit)
  {
    AfterKeeps(steps);
    var links := Links(After(steps).runs);
    AttemptsCountReruns(links, i);
    if Root(links, i) == Root(links, j) && Depth(links, i) == Depth(links, j) {
      NeverForks(links, i, j);
    }
  }

  /** Each run has at most one crash rerun. */
  lemma OneRerun(steps: seq<Step>, i: nat, j: nat)
    requires i < |After(steps).runs| && j < |After(steps).runs|
    requires After(steps).runs[i].link.byCrash && After(steps).runs[j].link.byCrash
    requires After(steps).runs[i].link.parent == After(steps).runs[j].link.parent
    ensures i == j
  {
    AfterKeeps(steps);
    var links := Links(After(steps).runs);
    assert links[i] == After(steps).runs[i].link && links[j] == After(steps).runs[j].link;
  }

  // -- What a crash does --------------------------------------------------------------

  /** A detected crash ends the run, Crashed with a rerun armed below the limit and Failed
      at it, exactly when the run is neither over nor being cancelled; otherwise it
      changes the lease only. The lease always grows. */
  lemma CrashEnds(s: Server, id: nat, now: int)
    requires id < |s.runs|
    ensures var t, run := CrashOf(s, id, now), s.runs[id];
            var live := !Terminal(run.state) && !run.state.kind.Cancelling?;
            && t.runs[id].lease == run.lease + 1 && t.runs[id].link == run.link
            && (live && run.link.attempt < run.link.limit ==>
                 t.runs[id].state == Plain(Crashed, now) && t.timers == s.timers[id := 1])
            && (live && run.link.attempt >= run.link.limit ==>
                 t.runs[id].state == Plain(Failed, now) && t.timers == s.timers[id := 0])
            && (!live ==> t.runs[id].state == run.state && t.timers == s.timers)
            && t.runs == s.runs[id := t.runs[id]]
  {
    ProposeFollows(Some(s.runs[id].state), Plain(Crashed, now));
    ProposeFollows(Some(s.runs[id].state), Plain(Failed, now));
  }

  // -- No chain is left hanging ---------------------------------------------------------

  /** Run `id` waits for its rerun. */
  predicate Waits(runs: seq<RunRow>, id: nat)
    requires id < |runs|
  {
    runs[id].state.kind.Crashed? && runs[id].link.attempt < runs[id].link.limit && !HasChild(runs, id)
  }

  ghost predicate Armed(s: Server) {
    forall id :: 0 <= id < |s.runs| && Waits(s.runs, id) ==> id in s.timers
  }

  /** Nothing but crash detection makes a run Crashed, and a restart comes within the
      lookback of every chain it interrupts. */
  predicate Regular(s: Server, step: Step) {
    match step
    case Move(_, proposed, _) => !proposed.kind.Crashed?
    case Restart(since) => forall id :: 0 <= id < |s.runs| && Waits(s.runs, id) ==> since <= s.runs[id].state.timestamp
    case _ => true
  }

  lemma ChildrenStay(runs: seq<RunRow>, link: Link, now: int, id: nat)
    requires HasChild(runs, id)
    ensures HasChild(Created(runs, link, now), id)
  {
    var j :| 0 <= j < |runs| && runs[j].link.parent == Some(id);
    assert Created(runs, link, now)[j].link.parent == Some(id);
  }

  lemma SameChildren(runs: seq<RunRow>, other: seq<RunRow>, id: nat)
    requires Links(runs) == Links(other)
    ensures HasChild(runs, id) <==> HasChild(other, id)
  {
    assert forall j :: 0 <= j < |runs| ==> runs[j].link == Links(runs)[j] && other[j].link == Links(other)[j];
  }

  lemma CreatedArmed(s: Server, link: Link, now: int)
    requires Armed(s)
    ensures Armed(s.(runs := Created(s.runs, link, now)))
  {
    var more := Created(s.runs, link, now);
    forall id | 0 <= id < |more| && Waits(more, id) ensures id in s.timers {
      if HasChild(s.runs, id) {
        ChildrenStay(s.runs, link, now, id);
      }
    }
  }

  lemma FireArmed(s: Server, id: nat, now: int)
    requires Armed(s) && id < |s.runs|
    ensures Armed(RerunOf(s.(timers := s.timers - multiset{id}), id, now))
  {
    var t := s.(timers := s.timers - multiset{id});
    if s.runs[id].state.kind.Crashed? && !HasChild(s.runs, id) {
      var link := RerunLink(s.runs[id].link, id);
      var more := Created(s.runs, link, now);
      assert more[|s.runs|].link.parent == Some(id);
      forall k | 0 <= k < |more| && Waits(more, k) ensures k in t.timers {
        assert k != id;
        if HasChild(s.runs, k) {
          ChildrenStay(s.runs, link, now, k);
        }
      }
    }
  }

  lemma MoveArmed(s: Server, id: nat, proposed: State, force: bool)
    requires Armed(s) && id < |s.runs| && !proposed.kind.Crashed?
    ensures Armed(Moved(s, id, proposed, force))
  {
    var t := Moved(s, id, proposed, force);
    MovedKeepsLinks(s, id, proposed, force);
    forall k | 0 <= k < |t.runs| && Waits(t.runs, k) ensures k in t.timers {
      SameChildren(s.runs, t.runs, k);
      assert t.runs[k].link == Links(t.runs)[k];
    }
  }

  lemma CrashArmed(s: Server, id: nat, now: int)
    requires Armed(s) && id < |s.runs|
    ensures Armed(CrashOf(s, id, now))
  {
    CrashEnds(s, id, now);
    var t := CrashOf(s, id, now);
    assert Links(t.runs) == Links(s.runs) by {
      assert t.runs[id].link == s.runs[id].link;
    }
    forall k | 0 <= k < |t.runs| && Waits(t.runs, k) ensures k in t.timers {
      SameChildren(s.runs, t.runs, k);
    }
  }

  lemma RestartArmed(s: Server, since: int)
    requires Regular(s, Restart(since))
    ensures Armed(s.(timers := Rearmed(s.runs, since, |s.runs|)))
  {
    forall id | 0 <= id < |s.runs| && Waits(s.runs, id) ensures id in Rearmed(s.runs, since, |s.runs|) {
      RearmedExactly(s.runs, since, |s.runs|, id);
    }
  }

  /** A regular step never leaves a run waiting for a rerun that no timer will start. */
  lemma RegularKeepsArmed(s: Server, step: Step)
    requires Armed(s) && Enabled(s, step) && Regular(s, step)
    ensures Armed(Do(s, step))
  {
    match step
    case Create(limit, now) => CreatedArmed(s, Link(0, limit, None, false), now);
    case RuleRun(cause, limit, now) => CreatedArmed(s, Link(0, limit, Some(cause), false), now);
    case RetryRun(original, now) =>
      var link := s.runs[original].link;
      CreatedArmed(s, Link(link.attempt + 1, link.limit, Some(original), false), now);
    case Move(id, proposed, force) => MoveArmed(s, id, proposed, force);
    case Crash(id, now) => CrashArmed(s, id, now);
    case Fire(id, now) => FireArmed(s, id, now);
    case Restart(since) => RestartArmed(s, since);
  }

  /** A restart arms a waiting run again exactly when it crashed within the lookback. */
  lemma RestartArmsRecent(s: Server, since: int, id: nat)
    requires id < |s.runs| && Waits(s.runs, id)
    ensures id in Do(s, Restart(since)).timers <==> since <= s.runs[id].state.timestamp
  {
    RearmedExactly(s.runs, since, |s.runs|, id);
  }

  // -- Other children end a chain -------------------------------------------------------

  /** A rerun is created exactly when no run at all names the crashed one as its parent,
      a rule's run and a retry included. */
  lemma RerunExactlyWhenChildless(s: Server, id: nat, now: int)
    requires id < |s.runs| && s.runs[id].state.kind.Crashed?
    ensures (exists j :: |s.runs| <= j < |RerunOf(s, id, now).runs| && RerunOf(s, id, now).runs[j].link.byCrash)
       <==> !HasChild(s.runs, id)
  {
    if !HasChild(s.runs, id) {
      assert RerunOf(s, id, now).runs[|s.runs|].link == RerunLink(s.runs[id].link, id);
    }
  }

  predicate Reruns(link: Link, id: nat) {
    link.byCrash && link.parent == Some(id)
  }

  predicate NoChild(runs: seq<RunRow>, id: nat) {
    forall j :: 0 <= j < |runs| ==> runs[j].link.parent != Some(id)
  }

  /** Of everything that can happen, only the timer of a crashed run that no run names as
      its parent starts a rerun of it: one more attempt, within the same limit. */
  lemma RerunStartsExactly(s: Server, next: Server, step: Step, id: nat)
    requires Enabled(s, step) && next == Do(s, step) && id < |s.runs|
    ensures (exists j :: |s.runs| <= j < |next.runs| && Reruns(next.runs[j].link, id))
       <==> step.Fire? && step.id == id && s.runs[id].state.kind.Crashed? && NoChild(s.runs, id)
    ensures step.Fire? && step.id == id && s.runs[id].state.kind.Crashed? && NoChild(s.runs, id) ==>
              var was := s.runs[id].link;
              next.runs == s.runs + [RunRow(Link(was.attempt + 1, was.limit, Some(id), true),
                                            State(Scheduled, "Scheduled", step.now, false), 0)]
  {
    if step.Fire? && step.id == id && s.runs[id].state.kind.Crashed? && NoChild(s.runs, id) {
      assert Reruns(next.runs[|s.runs|].link, id);
    }
    match step
    case Move(moved, proposed, force) => MovedKeepsLinks(s, moved, proposed, force);
    case Crash(crashed, now) => CrashEnds(s, crashed, now);
    case _ =>
  }

  /** A transition is made by force or where it may follow, changes that run's state alone,
      and takes its timers away exactly when it ends or pauses the run. */
  lemma MovesExactly(s: Server, next: Server, id: nat, proposed: State, force: bool)
    requires id < |s.runs| && next == Do(s, Move(id, proposed, force))
    ensures var made := force || Follows(Some(s.runs[id].state), proposed);
            && (!made ==> next == s)
            && (made ==>
                 && next.runs == s.runs[id := s.runs[id].(state := next.runs[id].state)]
                 && next.runs[id].state == (if force then proposed.(forced := true) else proposed)
                 && (proposed.kind in {Completed, Failed, Cancelled, Crashed, Paused} ==>
                      next.timers == s.timers[id := 0])
                 && (proposed.kind in {Scheduled, Pending, Running, Cancelling} ==> next.timers == s.timers))
  {
    ProposeFollows(Some(s.runs[id].state), proposed);
  }

  lemma StepGrows(s: Server, step: Step)
    ensures Links(s.runs) <= Links(Next(s, step).runs)
  {
    if Enabled(s, step) {
      match step
      case Move(id, proposed, force) => MovedKeepsLinks(s, id, proposed, force);
      case Crash(id, now) => CrashEnds(s, id, now);
      case _ =>
    }
  }

  lemma {:induction false} AfterGrows(steps: seq<Step>, more: seq<Step>)
    ensures Links(After(steps).runs) <= Links(After(steps + more).runs)
    decreases |more|
  {
    if more == [] {
      assert steps + more == steps;
    } else {
      var front, last := more[..|more| - 1], more[|more| - 1];
      assert (steps + more)[..|steps + more| - 1] == steps + front;
      AfterGrows(steps, front);
      StepGrows(After(steps + front), last);
    }
  }

  /** Once another run names a run that has no rerun as its parent, nothing that happens
      later reruns it. */
  lemma OtherChildEndsChain(steps: seq<Step>, more: seq<Step>, id: nat, j: nat, k: nat)
    requires var runs := After(steps).runs;
             && j < |runs| && runs[j].link.parent == Some(id)
             && forall i :: 0 <= i < |runs| && runs[i].link.byCrash ==> runs[i].link.parent != Some(id)
    requires k < |After(steps + more).runs|
    ensures var link := After(steps + more).runs[k].link;
            link.byCrash ==> link.parent != Some(id)
  {
    AfterGrows(steps, more);
    AfterKeeps(steps + more);
    var before, after := Links(After(steps).runs), Links(After(steps + more).runs);
    assert before[j] == after[j] && after[k] == After(steps + more).runs[k].link;
    if k < |before| {
      assert before[k] == after[k] == After(steps).runs[k].link;
    }
  }

  lemma ThreeSteps(a: Step, b: Step, c: Step)
    ensures After([a, b]) == Next(Next(Server([], multiset{}), a), b)
    ensures After([a, b, c]) == Next(Next(Next(Server([], multiset{}), a), b), c)
  {
    assert [a, b, c][..2] == [a, b] && [a, b][..1] == [a] && [a][..0] == [];
    assert After([a]) == Next(After([]), a);
    assert After([a, b]) == Next(After([a]), b);
    assert After([a, b, c]) == Next(After([a, b]), c);
  }

  /** The steps of `RuleEndsChain`, from any server without runs. */
  lemma RuleTakesPlace(empty: Server, s1: Server, s2: Server, s3: Server)
    requires empty.runs == []
    requires s1 == Next(empty, Create(1, 1)) && s2 == Next(s1, Crash(0, 2)) && s3 == Next(s2, RuleRun(0, 0, 3))
    ensures |s3.runs| == 2 && s3.runs[1].link.parent == Some(0) && !s3.runs[0].link.byCrash && !s3.runs[1].link.byCrash
    ensures |s2.runs| == 1 && Waits(s2.runs, 0) && 0 in s3.timers
  {
    var link := Link(0, 1, None, false);
    assert s1.runs == [RunRow(link, Plain(Scheduled, 1), 0)];
    CrashEnds(s1, 0, 2);
    assert |s2.runs| == 1 && s2.runs[0].link == link;
    assert s3.runs[0] == s2.runs[0] && s3.runs[1].link == Link(0, 0, Some(0), false);
  }

  /** A rule that reacts to the crash takes the rerun's place: the crashed run has an
      attempt left and its timer armed, and nothing will ever rerun it. */
  lemma RuleEndsChain(more: seq<Step>, k: nat)
    ensures var steps := [Create(1, 1), Crash(0, 2), RuleRun(0, 0, 3)];
            && |After(steps).runs| == 2
            && Waits(After(steps[..2]).runs, 0) && 0 in After(steps).timers
            && (k < |After(steps + more).runs| && After(steps + more).runs[k].link.byCrash ==>
                 After(steps + more).runs[k].link.parent != Some(0))
  {
    var a, b, c := Create(1, 1), Crash(0, 2), RuleRun(0, 0, 3);
    var steps := [a, b, c];
    assert steps[..2] == [a, b];
    ThreeSteps(a, b, c);
    var empty := Server([], multiset{});
    RuleTakesPlace(empty, Next(empty, a), After(steps[..2]), After(steps));
    if k < |After(steps + more).runs| {
      OtherChildEndsChain(steps, more, 0, 1, k);
    }
  }
}
