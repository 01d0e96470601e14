/** Intervals of a day or more: the next fire on a grid of whole local days
    (`Compiled::next_after`, wall-clock arm, in crates/core/src/schedule.rs). */
module WallClock {
  import opened Basics
  import opened Zones

  /** An anchor instant and a step of whole days, in a zone. */
  datatype Grid = Grid(zone: Zone, anchor: int, days: int)

  /** How many candidate days one search looks at. */
  const TRIES := 4

  function Date(local: int): int { local / 86_400_000_000 }

  /** The wall-clock time grid day `n` falls on. */
  function Naive(g: Grid, n: nat): int {
    if n == 0 then Local(g.zone, g.anchor) else Naive(g, n - 1) + Days(g.days)
  }

  /** The search over grid days `n`, `n+1`, ...; `candidate` is what was found last. */
  function Search(g: Grid, after: int, n: nat, left: nat, candidate: int): int
    decreases left, after
  {
    if left == 0 then candidate
    else
      var found := LocalToInstant(g.zone, Naive(g, n));
      var c := if found.Some? then found.value else candidate;
      if c > after then c else Search(g, after, n + 1, left - 1, c)
  }

  /** How many steps of `days` lead from one date to another, if any. */
  function Steps(start: int, today: int, days: int): nat
    requires days >= 1
  {
    if today < start then 0 else (today - start) / days
  }

  /** The grid day the search starts from: whole steps between the two dates. */
  function FirstStep(g: Grid, after: int): nat
    requires g.days >= 1
  {
    Steps(Date(Local(g.zone, g.anchor)), Date(Local(g.zone, after)), g.days)
  }

  function NextAfter(g: Grid, after: int): int
    requires g.days >= 1
  {
    if g.anchor > after then g.anchor else Search(g, after, FirstStep(g, after), TRIES, g.anchor)
  }

  /** The loop itself. */
  method FindNextAfter(g: Grid, after: int) returns (r: int)
    requires g.days >= 1
    ensures r == NextAfter(g, after)
  {
    var candidate := g.anchor;
    if candidate > after {
      return candidate;
    }
    var first := FirstStep(g, after);
    var i: nat := 0;
    while i < TRIES
      invariant 0 <= i <= TRIES
      invariant NextAfter(g, after) == Search(g, after, first + i, TRIES - i, candidate)
    {
      var found := FindInstant(g.zone, Naive(g, first + i));
      candidate := if found.Some? then found.value else candidate;
      if candidate > after {
        return candidate;
      }
      i := i + 1;
    }
    r := candidate;
  }

  // -- The fires ---------------------------------------------------------------

  ghost predicate Sound(g: Grid) {
    g.days >= 1 && Ordinary(g.zone)
  }

  /** Fire `n` of the grid: the anchor itself, then each later grid day at its
      local time. */
  ghost function Fire(g: Grid, n: nat): (t: int)
    requires Sound(g)
    ensures n == 0 ==> t == g.anchor
    ensures n > 0 ==> LocalToInstant(g.zone, Naive(g, n)) == Some(t)
  {
    if n == 0 then g.anchor
    else
      FireExists(g.zone, Naive(g, n));
      LocalToInstant(g.zone, Naive(g, n)).value
  }

  lemma FireExists(z: Zone, naive: int)
    requires Ordinary(z)
    ensures LocalToInstant(z, naive).Some? && FiresAt(z, naive, LocalToInstant(z, naive).value)
  {
    var t := InstantFound(z, naive);
  }

  /** A fire is at its local time, or within three hours after it. */
  lemma FireNearNaive(g: Grid, n: nat)
    requires Sound(g)
    ensures Naive(g, n) <= Local(g.zone, Fire(g, n)) <= Naive(g, n) + GAP_LIMIT
  {
    if n > 0 {
      FireExists(g.zone, Naive(g, n));
      NearLocalTime(g.zone, Naive(g, n), Fire(g, n));
    }
  }

  lemma NearLocalTime(z: Zone, naive: int, t: int)
    requires Ordinary(z) && FiresAt(z, naive, t)
    ensures naive <= Local(z, t) <= naive + GAP_LIMIT
  {
    if k: nat :| InGap(z, k, naive) {
      GapFireNear(z, k, naive, t);
    } else {
      EarliestIsLeast(z, naive);
    }
  }

  lemma GapFireNear(z: Zone, k: nat, naive: int, t: int)
    requires Ordinary(z) && InGap(z, k, naive) && t == z.transitions[k].at + Overshoot(z, k, naive)
    ensures naive <= Local(z, t) <= naive + GAP_LIMIT
  {
    LocalPastGap(z, k, t);
    OvershootBounds(z, k, naive);
  }

  lemma OvershootBounds(z: Zone, k: nat, naive: int)
    requires Ordinary(z) && InGap(z, k, naive)
    ensures naive < After(z, k) + Overshoot(z, k, naive) <= naive + GAP_LIMIT
  {
    LandingBounded(naive, After(z, k), LAST_MINUTE);
  }

  /** Grid day `n` has the anchor's wall-clock time, `n` steps of whole days on. */
  lemma {:induction false} NaiveIs(g: Grid, n: nat)
    ensures Naive(g, n) == Local(g.zone, g.anchor) + Days(n * g.days)
  {
    if n > 0 {
      NaiveIs(g, n - 1);
      assert n * g.days == (n - 1) * g.days + g.days;
    }
  }

  lemma {:induction false} NaiveSteps(g: Grid, i: nat, j: nat)
    requires g.days >= 1 && i < j
    ensures Naive(g, i) + DAY <= Naive(g, j)
    decreases j
  {
    assert Days(g.days) >= DAY;
    if i + 1 < j {
      NaiveSteps(g, i, j - 1);
    }
  }

  /** Each grid day fires once and the days fire in order. */
  lemma FiresAscend(g: Grid, i: nat, j: nat)
    requires Sound(g) && i < j
    ensures Fire(g, i) < Fire(g, j)
  {
    FireNearNaive(g, i);
    FireNearNaive(g, j);
    NaiveSteps(g, i, j);
    if Fire(g, j) <= Fire(g, i) {
      NeverFarBack(g.zone, Fire(g, j), Fire(g, i));
    }
  }

  // -- Where the search starts --------------------------------------------------

  lemma {:induction false} DateOfNaive(g: Grid, n: nat)
    ensures Date(Naive(g, n)) == Date(Local(g.zone, g.anchor)) + n * g.days
  {
    if n > 0 {
      DateOfNaive(g, n - 1);
      ShiftedDate(Naive(g, n - 1), g.days);
      assert n * g.days == (n - 1) * g.days + g.days;
    }
  }

  lemma ShiftedDate(local: int, days: int)
    ensures Date(local + Days(days)) == Date(local) + days
  {
  }

  lemma LaterDate(a: int, b: int)
    requires Date(a) < Date(b)
    ensures a < b
  {
  }

  lemma NearDate(a: int, b: int)
    requires a <= b <= a + DAY
    ensures Date(a) <= Date(b) <= Date(a) + 1
  {
  }

  lemma StepsBound(start: int, today: int, days: int, f: nat)
    requires days >= 1 && f == Steps(start, today, days)
    ensures f > 0 ==> start + f * days <= today
    ensures today < start + (f + 1) * days
  {
    if today >= start {
      assert today - start == f * days + (today - start) % days;
    }
    assert (f + 1) * days == f * days + days;
  }

  /** The first step is the last grid day whose date is not after the cursor's. */
  lemma FirstStepBounds(g: Grid, after: int)
    requires g.days >= 1
    ensures var f, today := FirstStep(g, after), Date(Local(g.zone, after));
            && (f > 0 ==> Date(Naive(g, f)) <= today)
            && today < Date(Naive(g, f + 1))
  {
    var f := FirstStep(g, after);
    StepsBound(Date(Local(g.zone, g.anchor)), Date(Local(g.zone, after)), g.days, f);
    DateOfNaive(g, f);
    DateOfNaive(g, f + 1);
  }

  /** Two days past the first step the fire is always after the cursor, overlaps
      included. */
  lemma ThirdTryIsPast(g: Grid, after: int)
    requires Sound(g)
    ensures Fire(g, FirstStep(g, after) + 2) > after
  {
    var f := FirstStep(g, after);
    assert Local(g.zone, after) < Naive(g, f + 1) by {
      FirstStepBounds(g, after);
      LaterDate(Local(g.zone, after), Naive(g, f + 1));
    }
    NaiveSteps(g, f + 1, f + 2);
    PastFire(g, f + 2, after);
  }

  lemma PastFire(g: Grid, n: nat, after: int)
    requires Sound(g) && Local(g.zone, after) + DAY < Naive(g, n)
    ensures Fire(g, n) > after
  {
    FireNearNaive(g, n);
    if Fire(g, n) <= after {
      NeverFarBack(g.zone, Fire(g, n), after);
    }
  }

  // -- The one way the search can miss ------------------------------------------

  /** A local time that fires late, past the end of gap `k`, when the moment before
      its fire the wall clock already shows a later date than its own. */
  ghost predicate LateAcrossMidnight(z: Zone, naive: int, k: nat) {
    && InGap(z, k, naive)
    && Overshoot(z, k, naive) > 0
    && Date(After(z, k) + Overshoot(z, k, naive) - 1) > Date(naive)
  }

  ghost predicate Slips(g: Grid, n: nat, k: nat) {
    n >= 1 && LateAcrossMidnight(g.zone, Naive(g, n), k)
  }

  /** A grid on which no day slips, or whose step is more than one day. */
  ghost predicate Steady(g: Grid) {
    g.days >= 2 || forall n: nat, k: nat :: !Slips(g, n, k)
  }

  /** On a steady grid every fire before the first step is over. */
  lemma EarlierFiresAreOver(g: Grid, after: int, n: nat)
    requires Sound(g) && Steady(g) && g.anchor <= after && n < FirstStep(g, after)
    ensures Fire(g, n) <= after
  {
    if n > 0 && Fire(g, n) > after {
      EarlierDate(g, after, n);
      FireExists(g.zone, Naive(g, n));
      var k := LateFireIsSlip(g.zone, Naive(g, n), Fire(g, n), after, g.days);
      assert Slips(g, n, k);
    }
  }

  lemma EarlierDate(g: Grid, after: int, n: nat)
    requires g.days >= 1 && n < FirstStep(g, after)
    ensures Date(Naive(g, n)) + g.days <= Date(Local(g.zone, after))
  {
    DateOfNaive(g, n);
    StepsBefore(Date(Local(g.zone, g.anchor)), Date(Local(g.zone, after)), g.days, n);
  }

  lemma StepsBefore(start: int, today: int, days: int, n: nat)
    requires days >= 1 && n < Steps(start, today, days)
    ensures start + n * days + days <= today
  {
    var f := Steps(start, today, days);
    StepsBound(start, today, days, f);
    MulMonotone(n + 1, f, days);
    assert (n + 1) * days == n * days + days;
  }

  /** A cursor whose date is past the day's own, but which the fire has not reached,
      means a step of one day and a slip. */
  lemma LateFireIsSlip(z: Zone, naive: int, t: int, after: int, days: int) returns (k: nat)
    requires Ordinary(z) && FiresAt(z, naive, t) && after < t
    requires days >= 1 && Date(naive) + days <= Date(Local(z, after))
    ensures days == 1 && LateAcrossMidnight(z, naive, k)
  {
    LaterDate(naive, Local(z, after));
    if j: nat :| InGap(z, j, naive) {
      k := j;
      LateFireInGap(z, naive, t, after, days, k);
    } else {
      EarliestIsFirst(z, naive, t, after);
      assert false;
    }
  }

  lemma LateFireInGap(z: Zone, naive: int, t: int, after: int, days: int, k: nat)
    requires Ordinary(z) && InGap(z, k, naive) && t == z.transitions[k].at + Overshoot(z, k, naive)
    requires after < t && naive < Local(z, after)
    requires days >= 1 && Date(naive) + days <= Date(Local(z, after))
    ensures days == 1 && LateAcrossMidnight(z, naive, k)
  {
    CursorInOvershoot(z, naive, t, after, k);
    OvershootBounds(z, k, naive);
    NearDate(naive, Local(z, after));
    NearDate(Local(z, after), After(z, k) + Overshoot(z, k, naive) - 1);
  }

  lemma CursorInOvershoot(z: Zone, naive: int, t: int, after: int, k: nat)
    requires Ordinary(z) && InGap(z, k, naive) && t == z.transitions[k].at + Overshoot(z, k, naive)
    requires after < t && naive < Local(z, after)
    ensures z.transitions[k].at <= after
    ensures Local(z, after) == After(z, k) + after - z.transitions[k].at
  {
    if after < z.transitions[k].at {
      Peak(z, k, after);
      assert false;
    }
    PeriodIs(z, after, k + 1);
  }

  // -- Correctness --------------------------------------------------------------

  /** The least fire of the grid strictly after the cursor. */
  ghost predicate LeastAfter(g: Grid, after: int, r: int)
    requires Sound(g)
  {
    && r > after
    && (exists n: nat :: r == Fire(g, n))
    && (forall n: nat :: Fire(g, n) > after ==> r <= Fire(g, n))
  }

  /** No fire from `n` up to `m` is past the cursor. */
  ghost predicate NonePast(g: Grid, after: int, n: nat, m: nat)
    requires Sound(g)
  {
    forall j: nat :: n <= j < m ==> Fire(g, j) <= after
  }

  /** Looking at the fires from `n` on in order finds the first one past the
      cursor, given that one is among them. */
  lemma {:induction false} SearchFinds(g: Grid, after: int, n: nat, left: nat, candidate: int, last: nat, r: int)
    returns (m: nat)
    requires Sound(g) && g.anchor <= after && r == Search(g, after, n, left, candidate)
    requires n <= last < n + left && Fire(g, last) > after
    ensures n <= m <= last && r == Fire(g, m) > after
    ensures NonePast(g, after, n, m)
    decreases left
  {
    var c := SearchStep(g, after, n, left, candidate, r);
    if n == last || Fire(g, n) > after {
      m := n;
    } else {
      m := SearchFinds(g, after, n + 1, left - 1, c, last, r);
      NonePastFrom(g, after, n, m);
    }
  }

  lemma NonePastFrom(g: Grid, after: int, n: nat, m: nat)
    requires Sound(g) && Fire(g, n) <= after && NonePast(g, after, n + 1, m)
    ensures NonePast(g, after, n, m)
  {
  }

  /** A search ends at the day it looks at or goes on after it. */
  lemma SearchStep(g: Grid, after: int, n: nat, left: nat, candidate: int, r: int) returns (c: int)
    requires Sound(g) && g.anchor <= after && left > 0 && r == Search(g, after, n, left, candidate)
    ensures r == if Fire(g, n) > after then Fire(g, n) else Search(g, after, n + 1, left - 1, c)
  {
    FoundOnGrid(g, n);
    c := SearchLooks(g, after, n, left, candidate);
  }

  lemma SearchLooks(g: Grid, after: int, n: nat, left: nat, candidate: int) returns (c: int)
    requires left > 0 && LocalToInstant(g.zone, Naive(g, n)).Some?
    ensures c == LocalToInstant(g.zone, Naive(g, n)).value
    ensures Search(g, after, n, left, candidate) == if c > after then c else Search(g, after, n + 1, left - 1, c)
  {
    c := LocalToInstant(g.zone, Naive(g, n)).value;
  }

  lemma FoundOnGrid(g: Grid, n: nat)
    requires Sound(g)
    ensures var found := LocalToInstant(g.zone, Naive(g, n));
            found.Some? && (n > 0 ==> found.value == Fire(g, n)) && (n == 0 ==> found.value <= g.anchor)
  {
    if n == 0 {
      AnchorNotPast(g);
    } else {
      FireExists(g.zone, Naive(g, n));
    }
  }

  /** The anchor's own local time resolves to the anchor or to its earlier twin. */
  lemma AnchorNotPast(g: Grid)
    requires Sound(g)
    ensures LocalToInstant(g.zone, Naive(g, 0)).Some? && LocalToInstant(g.zone, Naive(g, 0)).value <= g.anchor
  {
    assert LocalToInstant(g.zone, Naive(g, 0)) == TryMinutes(g.zone, Naive(g, 0), LAST_MINUTE);
    EarliestIsLeast(g.zone, Naive(g, 0));
    assert Local(g.zone, g.anchor) == Naive(g, 0);
  }

  /** Three tries always suffice, so the value after the loop is never returned. */
  lemma NextAfterIsPast(g: Grid, after: int) returns (m: nat)
    requires Sound(g)
    ensures NextAfter(g, after) == Fire(g, m) > after
    ensures g.anchor > after ==> m == 0
    ensures g.anchor <= after ==>
              FirstStep(g, after) <= m <= FirstStep(g, after) + 2
              && NonePast(g, after, FirstStep(g, after), m)
  {
    if g.anchor > after {
      m := 0;
    } else {
      ThirdTryIsPast(g, after);
      var f := FirstStep(g, after);
      m := SearchFinds(g, after, f, TRIES, g.anchor, f + 2, NextAfter(g, after));
    }
  }

  lemma SteadyIsLeast(g: Grid, after: int)
    requires Sound(g) && Steady(g)
    ensures LeastAfter(g, after, NextAfter(g, after))
  {
    var m := NextAfterIsPast(g, after);
    forall n: nat | Fire(g, n) > after ensures Fire(g, m) <= Fire(g, n) {
      SteadyNotLater(g, after, m, n);
    }
  }

  lemma SteadyNotLater(g: Grid, after: int, m: nat, n: nat)
    requires Sound(g) && Steady(g) && Fire(g, n) > after
    requires if g.anchor > after then m == 0 else NonePast(g, after, FirstStep(g, after), m)
    ensures Fire(g, m) <= Fire(g, n)
  {
    if g.anchor <= after && n < FirstStep(g, after) {
      EarlierFiresAreOver(g, after, n);
    } else if m < n {
      FiresAscend(g, m, n);
    }
  }

  /** When a day slips on a one-day grid, a cursor just before its fire skips it. */
  lemma SlipIsMissed(g: Grid, n: nat, k: nat)
    requires Sound(g) && g.days == 1 && Slips(g, n, k)
    ensures !LeastAfter(g, Fire(g, n) - 1, NextAfter(g, Fire(g, n) - 1))
  {
    var after := Fire(g, n) - 1;
    SlipStartsTooLate(g, n, k);
    FiresAscend(g, 0, n);
    var m := NextAfterIsPast(g, after);
    FiresAscend(g, n, m);
  }

  lemma SlipStartsTooLate(g: Grid, n: nat, k: nat)
    requires Sound(g) && g.days == 1 && Slips(g, n, k)
    ensures FirstStep(g, Fire(g, n) - 1) > n
  {
    var after := Fire(g, n) - 1;
    DateOfNaive(g, n);
    SlipShowsLaterDate(g.zone, Naive(g, n), Fire(g, n), k);
    OneDaySteps(g, after, n);
  }

  lemma SlipShowsLaterDate(z: Zone, naive: int, t: int, k: nat)
    requires Ordinary(z) && LateAcrossMidnight(z, naive, k) && LocalToInstant(z, naive) == Some(t)
    ensures Date(Local(z, t - 1)) > Date(naive)
  {
    SlipFiresAt(z, naive, k);
    ShownBeforeFire(z, naive, t, k);
  }

  lemma SlipFiresAt(z: Zone, naive: int, k: nat)
    requires Ordinary(z) && InGap(z, k, naive)
    ensures LocalToInstant(z, naive) == Some(z.transitions[k].at + Overshoot(z, k, naive))
  {
    MinutesCrossGap(z, k, naive, LAST_MINUTE);
  }

  lemma ShownBeforeFire(z: Zone, naive: int, t: int, k: nat)
    requires Ordinary(z) && InGap(z, k, naive)
    requires Overshoot(z, k, naive) > 0 && t == z.transitions[k].at + Overshoot(z, k, naive)
    ensures Local(z, t - 1) == After(z, k) + Overshoot(z, k, naive) - 1
  {
    PeriodIs(z, t - 1, k + 1);
  }

  lemma OneDaySteps(g: Grid, after: int, n: nat)
    requires g.days == 1 && Date(Local(g.zone, after)) > Date(Local(g.zone, g.anchor)) + n
    ensures FirstStep(g, after) > n
  {
  }

  /** For every ordinary zone and every anchor: the search returns the least day-grid
      fire strictly after the cursor, for every cursor, exactly when the grid is
      steady. */
  lemma NextAfterCorrectExactly(g: Grid)
    requires Sound(g)
    ensures (forall after :: LeastAfter(g, after, NextAfter(g, after))) <==> Steady(g)
  {
    if Steady(g) {
      forall after ensures LeastAfter(g, after, NextAfter(g, after)) {
        SteadyIsLeast(g, after);
      }
    } else {
      var n: nat, k: nat :| Slips(g, n, k);
      SlipIsMissed(g, n, k);
    }
  }

  /** A zone whose clocks change on whole minutes, and a whole-minute anchor. */
  ghost predicate WholeMinutes(g: Grid) {
    && OnMinute(Local(g.zone, g.anchor))
    && forall k :: 0 <= k < |g.zone.transitions| ==> OnMinute(After(g.zone, k))
  }

  /** A whole-minute anchor never slips. */
  lemma WholeMinutesSteady(g: Grid)
    requires Sound(g) && WholeMinutes(g)
    ensures Steady(g)
  {
    forall n: nat, k: nat ensures !Slips(g, n, k) {
      if InGap(g.zone, k, Naive(g, n)) {
        NaiveOnMinute(g, n);
        OnMinuteLands(Naive(g, n), After(g.zone, k));
      }
    }
  }

  lemma {:induction false} NaiveOnMinute(g: Grid, n: nat)
    requires OnMinute(Local(g.zone, g.anchor))
    ensures OnMinute(Naive(g, n))
  {
    if n > 0 {
      NaiveOnMinute(g, n - 1);
      assert Days(g.days) == Minutes(g.days * 1440);
      MinutesAdded(Naive(g, n - 1), g.days * 1440);
    }
  }

  lemma MinutesAdded(a: int, m: int)
    requires OnMinute(a)
    ensures OnMinute(a + Minutes(m))
  {
  }

  lemma OnMinuteLands(naive: int, end: int)
    requires naive < end && OnMinute(naive) && OnMinute(end)
    ensures Landing(naive, end) == 0
  {
    LandsOnEnd(naive, end);
  }

  /** Walking the schedule fires every grid day once, in order. */
  lemma WalkVisitsEachDay(g: Grid, n: nat)
    requires Sound(g) && Steady(g)
    ensures NextAfter(g, Fire(g, n)) == Fire(g, n + 1)
  {
    FiresAscend(g, n, n + 1);
    var m := NextAfterIsPast(g, Fire(g, n));
    NotPastLaterFire(g, Fire(g, n), n + 1);
    NextIndex(g, n, m);
  }

  lemma NotPastLaterFire(g: Grid, after: int, n: nat)
    requires Sound(g) && Steady(g) && Fire(g, n) > after
    ensures NextAfter(g, after) <= Fire(g, n)
  {
    SteadyIsLeast(g, after);
  }

  lemma NextIndex(g: Grid, n: nat, m: nat)
    requires Sound(g) && Fire(g, n) < Fire(g, m) <= Fire(g, n + 1)
    ensures m == n + 1
  {
    if m < n {
      FiresAscend(g, m, n);
    } else if n + 1 < m {
      FiresAscend(g, n + 1, m);
    }
  }

  /** A zone west of Greenwich whose summer time starts at 23:00, as in Nuuk, and a
      daily schedule pinned at 23:30:30 the day before. */
  const NUUK := Grid(Zone(-2 * HOUR, [Transition(DAY + HOUR, -HOUR)]), 90 * MINUTE + MINUTE / 2, 1)

  /** Ten seconds into the new day the fire due at 00:00:30 is skipped: the search
      answers with the following evening. */
  lemma NuukSkipsAFire()
    ensures Sound(NUUK) && !Steady(NUUK)
    ensures Fire(NUUK, 1) == DAY + HOUR + MINUTE / 2
    ensures !LeastAfter(NUUK, Fire(NUUK, 1) - 1, NextAfter(NUUK, Fire(NUUK, 1) - 1))
  {
    NuukSlips();
    FireExists(NUUK.zone, Naive(NUUK, 1));
    SlipIsMissed(NUUK, 1, 0);
  }

  lemma NuukSlips()
    ensures Sound(NUUK) && Slips(NUUK, 1, 0)
    ensures Overshoot(NUUK.zone, 0, Naive(NUUK, 1)) == MINUTE / 2
  {
    var z := NUUK.zone;
    PeriodIs(z, NUUK.anchor, 0);
    var naive := DAY - 30 * MINUTE + MINUTE / 2;
    assert Naive(NUUK, 1) == Naive(NUUK, 0) + Days(NUUK.days) == naive;
    assert Before(z, 0) == DAY - HOUR && After(z, 0) == DAY;
    NuukLands(30);
    assert LateAcrossMidnight(z, naive, 0);
  }

  lemma {:induction false} NuukLands(minutes: nat)
    requires 1 <= minutes
    ensures Landing(DAY - Minutes(minutes) + MINUTE / 2, DAY) == MINUTE / 2
  {
    if minutes > 1 {
      NuukLands(minutes - 1);
    }
  }
}
