/** Rule guards (crates/rules/src/lib.rs): cooldown, rate cap and once-per-run, decided
    from a pruned memory of earlier firings. Times are microseconds; the cooldown is
    given in the same unit. */
module Guards {
  import opened Basics

  const MINUTE := 60_000_000
  const RUNS_KEPT := 10_000
  const RUNS_DROPPED := 5_000

  datatype Rule = Rule(
    id: int,
    enabled: bool,
    allowSelf: bool,
    oncePerRun: bool,
    cooldown: int,
    maxPerMinute: int,
    afterConsecutive: int)

  /** The run an event is about: its id, where its crash chain began if it is a
      rerun, and the rule that created it, if one did. */
  datatype RunRef = RunRef(id: int, chainRoot: Option<int>, createdByRule: Option<int>)

  /** An event that matched: its run, its failure streak, and the time it is handled. */
  datatype Query = Query(run: Option<RunRef>, streak: int, now: int)

  /** A crash chain counts as one run. */
  function GuardRun(run: Option<RunRef>): Option<int> {
    if run.None? then None
    else Some(if run.value.chainRoot.Some? then run.value.chainRoot.value else run.value.id)
  }

  // -- The memory ------------------------------------------------------------------

  datatype Memory = Memory(lastFired: Option<int>, recent: seq<int>, firedRuns: seq<int>)

  function After(times: seq<int>, t: int): seq<int> {
    if times == [] then []
    else After(times[..|times| - 1], t) + if times[|times| - 1] > t then [times[|times| - 1]] else []
  }

  function Pushed(runs: seq<int>, r: int): seq<int> {
    if r in runs then runs
    else if |runs| + 1 > RUNS_KEPT then (runs + [r])[RUNS_DROPPED..]
    else runs + [r]
  }

  function Recorded(m: Memory, run: Option<int>, now: int): Memory {
    Memory(Some(now), After(m.recent + [now], now - MINUTE),
           if run.Some? then Pushed(m.firedRuns, run.value) else m.firedRuns)
  }

  class GuardState {
    var lastFired: Option<int>
    var recent: seq<int>
    var firedRuns: seq<int>

    function View(): Memory
      reads this
    {
      Memory(lastFired, recent, firedRuns)
    }

    method Record(run: Option<int>, now: int)
      modifies this
      ensures View() == Recorded(old(View()), run, now)
    {
      lastFired := Some(now);
      recent := recent + [now];
      var all, kept: seq<int>, i := recent, [], 0;
      while i < |all|
        invariant 0 <= i <= |all|
        invariant kept == After(all[..i], now - MINUTE)
        invariant lastFired == Some(now) && firedRuns == old(firedRuns)
      {
        assert all[..i + 1][..i] == all[..i];
        if all[i] > now - MINUTE {
          kept := kept + [all[i]];
        }
        i := i + 1;
      }
      assert all[..|all|] == all;
      recent := kept;
      if run.Some? && run.value !in firedRuns {
        firedRuns := firedRuns + [run.value];
        if |firedRuns| > RUNS_KEPT {
          firedRuns := firedRuns[RUNS_DROPPED..];
        }
      }
    }
  }

  // -- The decision --------------------------------------------------------------------

  datatype Decision = Fire | Skip(reason: string)

  function Check(rule: Rule, q: Query, m: Memory): Decision {
    if !rule.enabled then Skip("disabled")
    else if q.run.Some? && !rule.allowSelf && q.run.value.createdByRule == Some(rule.id) then Skip("self-trigger")
    else if q.run.Some? && rule.oncePerRun && GuardRun(q.run).value in m.firedRuns then Skip("once per run")
    else if rule.cooldown > 0 && m.lastFired.Some? && q.now - m.lastFired.value < rule.cooldown then Skip("cooldown")
    else if rule.maxPerMinute > 0 && |After(m.recent, q.now - MINUTE)| >= rule.maxPerMinute then Skip("rate cap")
    else if rule.afterConsecutive > 0 && q.streak < rule.afterConsecutive then Skip("consecutive")
    else Fire
  }

  // -- Histories -------------------------------------------------------------------------

  datatype Firing = Firing(run: Option<int>, now: int)

  datatype Trace = Trace(memory: Memory, fired: seq<Firing>)

  /** Each event is checked, and recorded when it fires. */
  function Handled(rule: Rule, t: Trace, q: Query): Trace {
    if Check(rule, q, t.memory).Fire? then
      Trace(Recorded(t.memory, GuardRun(q.run), q.now), t.fired + [Firing(GuardRun(q.run), q.now)])
    else t
  }

  function Play(rule: Rule, queries: seq<Query>): Trace {
    if queries == [] then Trace(Memory(None, [], []), [])
    else Handled(rule, Play(rule, queries[..|queries| - 1]), queries[|queries| - 1])
  }

  ghost predicate ClockAscends(queries: seq<Query>) {
    forall i, j :: 0 <= i < j < |queries| ==> queries[i].now <= queries[j].now
  }

  function Times(fired: seq<Firing>): (times: seq<int>)
    ensures |times| == |fired|
    ensures forall i :: 0 <= i < |fired| ==> times[i] == fired[i].now
  {
    seq(|fired|, i requires 0 <= i < |fired| => fired[i].now)
  }

  /** The runs fired for, in order, events without a run left out. */
  function Runs(fired: seq<Firing>): seq<int> {
    if fired == [] then []
    else
      var last := fired[|fired| - 1].run;
      Runs(fired[..|fired| - 1]) + if last.Some? then [last.value] else []
  }

  // -- Rate and cooldown -------------------------------------------------------------------

  ghost predicate Ascending(times: seq<int>) {
    forall i, j :: 0 <= i < j < |times| ==> times[i] <= times[j]
  }

  lemma {:induction false} AfterAgain(times: seq<int>, s: int, t: int)
    requires s <= t
    ensures After(After(times, s), t) == After(times, t)
  {
    if times != [] {
      var front, last := times[..|times| - 1], times[|times| - 1];
      AfterAgain(front, s, t);
      if last > s {
        AfterLast(After(front, s), last, t);
      } else {
        assert After(times, s) == After(front, s) && After(times, t) == After(front, t);
      }
    }
  }

  lemma AfterLast(times: seq<int>, x: int, t: int)
    ensures After(times + [x], t) == After(times, t) + if x > t then [x] else []
  {
    assert (times + [x])[..|times|] == times;
  }

  lemma {:induction false} AfterConcat(a: seq<int>, x: int, s: int, t: int)
    requires s <= t
    ensures After(After(a, s) + [x], t) == After(a + [x], t)
  {
    AfterLast(After(a, s), x, t);
    AfterLast(a, x, t);
    AfterAgain(a, s, t);
  }

  /** What the memory holds: the last firing, and those of the minute before it. */
  ghost predicate Remembers(m: Memory, times: seq<int>) {
    if times == [] then m.lastFired == None && m.recent == []
    else
      var last := times[|times| - 1];
      m.lastFired == Some(last) && m.recent == After(times, last - MINUTE)
  }

  lemma RecordRemembers(m: Memory, times: seq<int>, run: Option<int>, now: int)
    requires Remembers(m, times) && (times != [] ==> times[|times| - 1] <= now)
    ensures Remembers(Recorded(m, run, now), times + [now])
  {
    if times == [] {
      assert times + [now] == m.recent + [now];
    } else {
      AfterConcat(times, now, times[|times| - 1] - MINUTE, now - MINUTE);
    }
  }

  /** The firings in the minute that ends with instant `t`: after `t - MINUTE`, not after `t`. */
  function InWindow(times: seq<int>, t: int): nat {
    if times == [] then 0
    else InWindow(times[..|times| - 1], t) + if t - MINUTE < times[|times| - 1] <= t then 1 else 0
  }

  /** Every gap is at least the cooldown, if there is one. */
  ghost predicate Spaced(times: seq<int>, cooldown: int) {
    cooldown > 0 ==> forall i, j :: 0 <= i < j < |times| ==> times[j] - times[i] >= cooldown
  }

  ghost predicate Capped(times: seq<int>, max: int) {
    max > 0 ==> forall t: int :: InWindow(times, t) <= max
  }

  lemma {:induction false} WindowBelowAfter(times: seq<int>, s: int, t: int)
    requires s <= t - MINUTE
    ensures InWindow(times, t) <= |After(times, s)|
  {
    if times != [] {
      WindowBelowAfter(times[..|times| - 1], s, t);
    }
  }

  lemma WindowAppend(times: seq<int>, x: int, t: int)
    ensures InWindow(times + [x], t) == InWindow(times, t) + if t - MINUTE < x <= t then 1 else 0
  {
    assert (times + [x])[..|times|] == times;
  }

  /** A firing let through with fewer than `max` in the minute up to it keeps every
      window within the cap. */
  lemma CapKept(times: seq<int>, max: int, now: int)
    requires Capped(times, max) && (max > 0 ==> |After(times, now - MINUTE)| < max)
    ensures Capped(times + [now], max)
  {
    if max > 0 {
      forall t: int ensures InWindow(times + [now], t) <= max {
        WindowAppend(times, now, t);
        assert InWindow(times, t) <= max;
        if t - MINUTE < now <= t {
          WindowBelowAfter(times, now - MINUTE, t);
        }
      }
    }
  }

  ghost predicate InOrder(rule: Rule, m: Memory, times: seq<int>) {
    && Ascending(times) && Remembers(m, times)
    && Spaced(times, rule.cooldown) && Capped(times, rule.maxPerMinute)
  }

  ghost predicate Orderly(rule: Rule, t: Trace) {
    InOrder(rule, t.memory, Times(t.fired))
  }

  lemma TimesAppend(fired: seq<Firing>, f: Firing)
    ensures Times(fired + [f]) == Times(fired) + [f.now]
  {
  }

  /** A firing the rate cap and the cooldown leave room for. */
  ghost predicate HasRoom(rule: Rule, times: seq<int>, now: int) {
    && (times != [] ==> times[|times| - 1] <= now)
    && (rule.maxPerMinute > 0 ==> |After(times, now - MINUTE)| < rule.maxPerMinute)
    && (rule.cooldown > 0 && times != [] ==> now - times[|times| - 1] >= rule.cooldown)
  }

  lemma LetThrough(rule: Rule, q: Query, m: Memory, times: seq<int>)
    requires Remembers(m, times) && Check(rule, q, m).Fire? && (times != [] ==> times[|times| - 1] <= q.now)
    ensures HasRoom(rule, times, q.now)
  {
    if times != [] {
      AfterAgain(times, times[|times| - 1] - MINUTE, q.now - MINUTE);
    }
  }

  lemma SpacedAppend(times: seq<int>, cooldown: int, now: int)
    requires Ascending(times) && Spaced(times, cooldown) && (times != [] ==> times[|times| - 1] <= now)
    requires cooldown > 0 && times != [] ==> now - times[|times| - 1] >= cooldown
    ensures Ascending(times + [now]) && Spaced(times + [now], cooldown)
  {
  }

  lemma FiringInOrder(rule: Rule, m: Memory, next: Memory, times: seq<int>, run: Option<int>, now: int)
    requires InOrder(rule, m, times) && HasRoom(rule, times, now) && next == Recorded(m, run, now)
    ensures InOrder(rule, next, times + [now])
  {
    assert Remembers(next, times + [now]) by {
      RecordRemembers(m, times, run, now);
    }
    assert Ascending(times + [now]) && Spaced(times + [now], rule.cooldown) by {
      SpacedAppend(times, rule.cooldown, now);
    }
    CapKept(times, rule.maxPerMinute, now);
  }

  lemma HandledOrderly(rule: Rule, t: Trace, q: Query)
    requires Orderly(rule, t) && (t.fired != [] ==> t.fired[|t.fired| - 1].now <= q.now)
    ensures Orderly(rule, Handled(rule, t, q))
  {
    if Check(rule, q, t.memory).Fire? {
      var run := GuardRun(q.run);
      TimesAppend(t.fired, Firing(run, q.now));
      LetThrough(rule, q, t.memory, Times(t.fired));
      FiringInOrder(rule, t.memory, Recorded(t.memory, run, q.now), Times(t.fired), run, q.now);
    }
  }

  ghost predicate FiredBy(fired: seq<Firing>, now: int) {
    forall i :: 0 <= i < |fired| ==> fired[i].now <= now
  }

  lemma {:induction false} FiredBefore(rule: Rule, queries: seq<Query>, now: int)
    requires forall i :: 0 <= i < |queries| ==> queries[i].now <= now
    ensures FiredBy(Play(rule, queries).fired, now)
  {
    if queries != [] {
      FiredBefore(rule, queries[..|queries| - 1], now);
    }
  }

  /** Over any events handled by a clock that does not go back: no minute holds more
      firings than the cap, and any two firings are at least the cooldown apart. */
  lemma {:induction false} RateAndCooldown(rule: Rule, queries: seq<Query>)
    requires ClockAscends(queries)
    ensures Orderly(rule, Play(rule, queries))
  {
    if queries == [] {
      assert Times([]) == [];
    } else {
      var front, q := queries[..|queries| - 1], queries[|queries| - 1];
      RateAndCooldown(rule, front);
      FiredBefore(rule, front, q.now);
      HandledOrderly(rule, Play(rule, front), q);
    }
  }

  // -- Once per run ------------------------------------------------------------------------

  ghost predicate NoRepeat(runs: seq<int>) {
    forall i, j :: 0 <= i < j < |runs| ==> runs[i] != runs[j]
  }

  /** The memory holds the runs from position `d` on: all of them, or at least those the
      last pruning left, each once. */
  ghost predicate Holds(kept: seq<int>, runs: seq<int>, d: nat) {
    && d <= |runs| && kept == runs[d..] && NoRepeat(kept)
    && |kept| <= RUNS_KEPT
    && (d > 0 ==> |kept| > RUNS_KEPT - RUNS_DROPPED)
  }

  lemma PushedHolds(kept: seq<int>, runs: seq<int>, d: nat, r: int) returns (d': nat)
    requires Holds(kept, runs, d) && r !in kept
    ensures Holds(Pushed(kept, r), runs + [r], d')
  {
    assert (runs + [r])[d..] == kept + [r];
    if |kept| + 1 > RUNS_KEPT {
      d' := d + RUNS_DROPPED;
      DropMore(runs + [r], d, RUNS_DROPPED);
    } else {
      d' := d;
    }
  }

  lemma DropMore(s: seq<int>, d: nat, more: nat)
    requires d + more <= |s|
    ensures s[d..][more..] == s[d + more..]
  {
  }

  lemma {:induction false} MemoryHolds(rule: Rule, queries: seq<Query>) returns (d: nat)
    requires rule.oncePerRun
    ensures Holds(Play(rule, queries).memory.firedRuns, Runs(Play(rule, queries).fired), d)
  {
    d := 0;
    if queries != [] {
      var front, q := queries[..|queries| - 1], queries[|queries| - 1];
      d := MemoryHolds(rule, front);
      var t := Play(rule, front);
      var run := GuardRun(q.run);
      if Check(rule, q, t.memory).Fire? {
        RunsAppend(t.fired, Firing(run, q.now));
        if run.Some? {
          d := PushedHolds(t.memory.firedRuns, Runs(t.fired), d, run.value);
        }
      }
    }
  }

  lemma RunsAppend(fired: seq<Firing>, f: Firing)
    ensures Runs(fired + [f]) == Runs(fired) + if f.run.Some? then [f.run.value] else []
  {
    assert (fired + [f])[..|fired|] == fired;
  }

  /** After position `p` come at least `n` runs, different from each other and from `r`. */
  ghost predicate FollowedBy(runs: seq<int>, r: int, p: nat, n: nat) {
    exists d: nat :: p < d <= |runs| && |runs| - d >= n && NoRepeat(runs[d..]) && r !in runs[d..]
  }

  /** A rule that fires once per run fires again for a run, or a crash chain, only after
      it fired for at least 5,001 other runs since, all different. */
  lemma RefiresOnlyAfterManyRuns(rule: Rule, queries: seq<Query>, q: Query, p: nat)
    requires rule.oncePerRun && q.run.Some?
    requires Check(rule, q, Play(rule, queries).memory).Fire?
    requires var runs := Runs(Play(rule, queries).fired); p < |runs| && runs[p] == GuardRun(q.run).value
    ensures FollowedBy(Runs(Play(rule, queries).fired), GuardRun(q.run).value, p, RUNS_KEPT - RUNS_DROPPED + 1)
  {
    var runs, r := Runs(Play(rule, queries).fired), GuardRun(q.run).value;
    var d := MemoryHolds(rule, queries);
    forall k | d <= k < |runs| ensures runs[k] in runs[d..] {
      assert runs[d..][k - d] == runs[k];
    }
  }

  // -- Exactly when an event fires -------------------------------------------------------------

  lemma {:induction false} WindowIsAfter(times: seq<int>, t: int)
    requires forall i :: 0 <= i < |times| ==> times[i] <= t
    ensures InWindow(times, t) == |After(times, t - MINUTE)|
  {
    if times != [] {
      WindowIsAfter(times[..|times| - 1], t);
    }
  }

  /** The run itself, or for a crash rerun the run its chain began with. */
  predicate Counted(run: RunRef, r: int) {
    r == if run.chainRoot.None? then run.id else run.chainRoot.value
  }

  /** A switched-on rule, not reacting to a run of its own unless it may. */
  predicate Concerned(rule: Rule, q: Query) {
    rule.enabled && (q.run.None? || rule.allowSelf || q.run.value.createdByRule != Some(rule.id))
  }

  /** The event's run is not one of these. */
  predicate NewRun(q: Query, runs: seq<int>) {
    q.run.Some? ==> forall i :: 0 <= i < |runs| ==> !Counted(q.run.value, runs[i])
  }

  /** The cooldown since the last firing is over, the minute up to now has room, and the
      failure streak is long enough. */
  predicate Timely(rule: Rule, q: Query, times: seq<int>) {
    && (rule.cooldown > 0 && times != [] ==> q.now - times[|times| - 1] >= rule.cooldown)
    && (rule.maxPerMinute > 0 ==> InWindow(times, q.now) < rule.maxPerMinute)
    && (rule.afterConsecutive > 0 ==> q.streak >= rule.afterConsecutive)
  }

  lemma CheckExactly(rule: Rule, q: Query, m: Memory, times: seq<int>)
    requires Remembers(m, times) && Ascending(times) && (times != [] ==> times[|times| - 1] <= q.now)
    ensures Check(rule, q, m).Fire?
       <==> Concerned(rule, q) && (rule.oncePerRun ==> NewRun(q, m.firedRuns)) && Timely(rule, q, times)
  {
    assert |After(m.recent, q.now - MINUTE)| == InWindow(times, q.now) by {
      if times != [] {
        AfterAgain(times, times[|times| - 1] - MINUTE, q.now - MINUTE);
      }
      WindowIsAfter(times, q.now);
    }
    if q.run.Some? {
      assert NewRun(q, m.firedRuns) <==> GuardRun(q.run).value !in m.firedRuns;
    }
  }

  /** Over any events handled by a clock that does not go back, the next one fires exactly
      when the rule is concerned, nothing is too soon or too much, and, once per run, its run
      is not among those still remembered: all the rule fired for, or the newest of them, more
      than 5,000 (`Holds`). Then it is noted under its run and time. */
  lemma FiresExactly(rule: Rule, queries: seq<Query>, q: Query, t: Trace, next: Trace, d: nat)
    requires ClockAscends(queries + [q]) && t == Play(rule, queries) && next == Play(rule, queries + [q])
    requires rule.oncePerRun ==> Holds(t.memory.firedRuns, Runs(t.fired), d)
    ensures var fires := && Concerned(rule, q) && Timely(rule, q, Times(t.fired))
                         && (rule.oncePerRun ==> NewRun(q, Runs(t.fired)[d..]));
            && (!fires ==> next == t)
            && (fires ==> |next.fired| == |t.fired| + 1 && next.fired[..|t.fired|] == t.fired
                          && next.fired[|t.fired|].now == q.now
                          && (q.run.None? ==> next.fired[|t.fired|].run == None)
                          && (q.run.Some? ==> next.fired[|t.fired|].run.Some?
                                              && Counted(q.run.value, next.fired[|t.fired|].run.value)))
  {
    assert (queries + [q])[..|queries|] == queries;
    forall i | 0 <= i < |queries| ensures queries[i].now <= q.now {
      assert (queries + [q])[i] == queries[i] && (queries + [q])[|queries|] == q;
    }
    assert ClockAscends(queries) by {
      forall i, j | 0 <= i < j < |queries| ensures queries[i].now <= queries[j].now {
        assert (queries + [q])[i] == queries[i] && (queries + [q])[j] == queries[j];
      }
    }
    RateAndCooldown(rule, queries);
    FiredBefore(rule, queries, q.now);
    CheckExactly(rule, q, t.memory, Times(t.fired));
  }
}
