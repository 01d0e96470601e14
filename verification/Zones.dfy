/** Time zones as lists of offset transitions, and the instant a local time names
    (`local_to_instant` in crates/core/src/schedule.rs). Times are whole
    microseconds; a local time is a count of microseconds on the wall clock. */
module Zones {
  import opened Basics

  const MINUTE := 60_000_000
  const HOUR := 3_600_000_000
  const DAY := 86_400_000_000

  // The factors are written out below: a named one would make the terms nonlinear.

  function Minutes(n: int): int { 60_000_000 * n }

  function Days(n: int): int { 86_400_000_000 * n }

  predicate OnMinute(t: int) { t % 60_000_000 == 0 }

  /** The last minute the search tries. */
  const LAST_MINUTE := 180

  /** The longest gap the minute search can step over. */
  const GAP_LIMIT := 10_800_000_000

  /** Wall clocks that go back no further than this keep the days apart. */
  const OVERLAP_LIMIT := 72_000_000_000

  /** From the instant `at` on, local time is the instant plus `offset`. */
  datatype Transition = Transition(at: int, offset: int)

  /** `base` holds before the first transition; transitions are in time order. */
  datatype Zone = Zone(base: int, transitions: seq<Transition>)

  /** The offset in force before transition `k`. */
  function OffsetBefore(z: Zone, k: nat): int
    requires k <= |z.transitions|
  {
    if k == 0 then z.base else z.transitions[k - 1].offset
  }

  /** How many of the first `n` transitions have happened at instant `t`. */
  function PeriodUpto(z: Zone, t: int, n: nat): (k: nat)
    requires n <= |z.transitions|
    ensures k <= n
    ensures k > 0 ==> z.transitions[k - 1].at <= t
    ensures k < n ==> t < z.transitions[k].at
  {
    if n == 0 then 0
    else if z.transitions[n - 1].at <= t then n
    else PeriodUpto(z, t, n - 1)
  }

  function Period(z: Zone, t: int): (k: nat)
    ensures k <= |z.transitions|
  {
    PeriodUpto(z, t, |z.transitions|)
  }

  /** The wall clock at instant `t`. */
  function Local(z: Zone, t: int): int {
    t + OffsetBefore(z, Period(z, t))
  }

  /** Transitions in order, a day or more apart. */
  ghost predicate Spaced(z: Zone) {
    forall i, j :: 0 <= i < j < |z.transitions| ==> z.transitions[i].at + DAY <= z.transitions[j].at
  }

  /** The wall clock at the end of the period before transition `k`, and at the
      start of the one after it. */
  function Before(z: Zone, k: nat): int
    requires k < |z.transitions|
  {
    z.transitions[k].at + OffsetBefore(z, k)
  }

  function After(z: Zone, k: nat): int
    requires k < |z.transitions|
  {
    z.transitions[k].at + z.transitions[k].offset
  }

  /** The zones the search is written for: well spaced transitions, gaps of at most
      three hours, overlaps of at most twenty. */
  ghost predicate Ordinary(z: Zone) {
    && Spaced(z)
    && forall k :: 0 <= k < |z.transitions| ==> Before(z, k) - OVERLAP_LIMIT <= After(z, k) <= Before(z, k) + GAP_LIMIT
  }

  /** Daylight saving removes the local times from `Before` up to `After`. */
  predicate InGap(z: Zone, k: nat, local: int) {
    k < |z.transitions| && Before(z, k) <= local < After(z, k)
  }

  // -- How the wall clock moves ------------------------------------------------

  lemma PeriodIs(z: Zone, t: int, k: nat)
    requires Spaced(z) && k <= |z.transitions|
    requires k < |z.transitions| ==> t < z.transitions[k].at
    requires k > 0 ==> z.transitions[k - 1].at <= t
    ensures Period(z, t) == k
  {
  }

  /** Before transition `k` the wall clock has never shown what it shows at `k`. */
  lemma {:induction false} Peak(z: Zone, k: nat, x: int)
    requires Ordinary(z) && k < |z.transitions| && x < z.transitions[k].at
    ensures Local(z, x) < Before(z, k)
    decreases k
  {
    if k > 0 && x < z.transitions[k - 1].at {
      Peak(z, k - 1, x);
      assert Before(z, k) == After(z, k - 1) + z.transitions[k].at - z.transitions[k - 1].at;
      assert After(z, k - 1) >= Before(z, k - 1) - OVERLAP_LIMIT;
    } else {
      PeriodIs(z, x, k);
    }
  }

  lemma {:induction false} AftersAscend(z: Zone, k: nat, j: nat)
    requires Ordinary(z) && k <= j < |z.transitions|
    ensures After(z, k) <= After(z, j)
    decreases j
  {
    if k < j {
      AftersAscend(z, k, j - 1);
      assert Before(z, j) == After(z, j - 1) + z.transitions[j].at - z.transitions[j - 1].at;
      assert After(z, j) >= Before(z, j) - OVERLAP_LIMIT;
    }
  }

  /** From transition `k` on the wall clock never shows less than right after it. */
  lemma Valley(z: Zone, k: nat, x: int)
    requires Ordinary(z) && k < |z.transitions| && z.transitions[k].at <= x
    ensures After(z, k) <= Local(z, x)
  {
    var p := Period(z, x);
    assert p > k;
    AftersAscend(z, k, p - 1);
  }

  /** Later instants are never twenty hours earlier on the wall clock. */
  lemma NeverFarBack(z: Zone, x: int, y: int)
    requires Ordinary(z) && x <= y
    ensures Local(z, x) - OVERLAP_LIMIT <= Local(z, y)
  {
    var p := Period(z, y);
    if p > 0 && x < z.transitions[p - 1].at {
      Peak(z, p - 1, x);
      Valley(z, p - 1, y);
    } else {
      PeriodIs(z, x, p);
    }
  }

  /** No instant shows a local time that daylight saving removed. */
  lemma GapUnreachable(z: Zone, k: nat, local: int, x: int)
    requires Ordinary(z) && InGap(z, k, local)
    ensures Local(z, x) != local
  {
    if x < z.transitions[k].at {
      Peak(z, k, x);
    } else {
      Valley(z, k, x);
    }
  }

  // -- The earliest instant of a local time ------------------------------------

  /** The instant in period `k` or later whose wall clock first shows `local`. */
  function EarliestFrom(z: Zone, local: int, k: nat): Option<int>
    requires k <= |z.transitions|
    decreases |z.transitions| - k
  {
    var t := local - OffsetBefore(z, k);
    if Period(z, t) == k then Some(t)
    else if k == |z.transitions| then None
    else EarliestFrom(z, local, k + 1)
  }

  /** `tz.from_local_datetime(..).earliest()`. */
  function Earliest(z: Zone, local: int): Option<int> {
    EarliestFrom(z, local, 0)
  }

  lemma {:induction false} EarliestFromShows(z: Zone, local: int, k: nat)
    requires k <= |z.transitions|
    ensures match EarliestFrom(z, local, k) case Some(t) => Local(z, t) == local case None => true
    decreases |z.transitions| - k
  {
    if Period(z, local - OffsetBefore(z, k)) != k && k < |z.transitions| {
      EarliestFromShows(z, local, k + 1);
    }
  }

  lemma {:induction false} EarliestFromFirstPeriod(z: Zone, local: int, k: nat, x: int)
    requires k <= Period(z, x) && Local(z, x) == local
    ensures var r := EarliestFrom(z, local, k); r.Some? && Period(z, r.value) <= Period(z, x)
    decreases |z.transitions| - k
  {
    if Period(z, local - OffsetBefore(z, k)) != k {
      EarliestFromFirstPeriod(z, local, k + 1, x);
    }
  }

  lemma PeriodsOrdered(z: Zone, t: int, x: int)
    requires Spaced(z) && Period(z, t) < Period(z, x)
    ensures t < x
  {
  }

  /** The earliest instant is the least of the instants that show the local time,
      and there is none exactly when no instant does. */
  lemma EarliestIsLeast(z: Zone, local: int)
    requires Spaced(z)
    ensures match Earliest(z, local)
            case Some(t) => Local(z, t) == local && forall x :: Local(z, x) == local ==> t <= x
            case None => forall x :: Local(z, x) != local
  {
    EarliestFromShows(z, local, 0);
    forall x | Local(z, x) == local ensures Earliest(z, local).Some? && Earliest(z, local).value <= x {
      EarliestNotLater(z, x);
    }
  }

  lemma EarliestNotLater(z: Zone, x: int)
    requires Spaced(z)
    ensures var r := Earliest(z, Local(z, x)); r.Some? && r.value <= x
  {
    var local := Local(z, x);
    EarliestFromFirstPeriod(z, local, 0, x);
    EarliestFromShows(z, local, 0);
    var t := Earliest(z, local).value;
    if Period(z, t) < Period(z, x) {
      PeriodsOrdered(z, t, x);
    }
  }

  /** Every local time is shown at some instant or lies in a gap. */
  lemma {:induction false} ShownOrInGap(z: Zone, local: int, k: nat) returns (g: nat)
    requires Spaced(z) && k <= |z.transitions|
    requires k > 0 ==> After(z, k - 1) <= local
    ensures InGap(z, g, local) || exists x :: Local(z, x) == local
    decreases |z.transitions| - k
  {
    var t := local - OffsetBefore(z, k);
    if k == |z.transitions| || t < z.transitions[k].at {
      PeriodIs(z, t, k);
      assert Local(z, t) == local;
      g := 0;
    } else if local < After(z, k) {
      g := k;
    } else {
      g := ShownOrInGap(z, local, k + 1);
    }
  }

  /** In an ordinary zone the earliest instant is where the wall clock first gets
      that far. */
  lemma EarliestIsFirst(z: Zone, local: int, t: int, x: int)
    requires Ordinary(z) && Earliest(z, local) == Some(t) && x < t
    ensures Local(z, x) < local
  {
    EarliestIsLeast(z, local);
    var k := Period(z, t);
    if k > 0 && x < z.transitions[k - 1].at {
      Peak(z, k - 1, x);
      NotBeforePeriod(z, local, t, k);
    } else {
      PeriodIs(z, x, k);
    }
  }

  /** What a later period shows first lies past the end of the period before. */
  lemma NotBeforePeriod(z: Zone, local: int, t: int, k: nat)
    requires Ordinary(z) && Local(z, t) == local && 0 < k == Period(z, t)
    requires forall x :: Local(z, x) == local ==> t <= x
    ensures Before(z, k - 1) <= local
  {
    var u := local - OffsetBefore(z, k - 1);
    if local < Before(z, k - 1) {
      PeriodIs(z, u, k - 1);
    }
    assert local < Before(z, k - 1) ==> Local(z, u) == local;
  }

  // -- local_to_instant --------------------------------------------------------

  /** `local` and the `left` minutes after it, until one exists. */
  function TryMinutes(z: Zone, local: int, left: nat): Option<int>
    decreases left, local
  {
    var found := Earliest(z, local);
    if found.Some? then found
    else if left == 0 then None
    else TryMinutes(z, local + MINUTE, left - 1)
  }

  /** The local time itself, or the first of the next 180 minutes that exists. */
  function LocalToInstant(z: Zone, naive: int): Option<int> {
    TryMinutes(z, naive, LAST_MINUTE)
  }

  method FindInstant(z: Zone, naive: int) returns (r: Option<int>)
    ensures r == LocalToInstant(z, naive)
  {
    r := Earliest(z, naive);
    if r.Some? {
      return;
    }
    var local := naive;
    for minutes := 1 to LAST_MINUTE + 1
      invariant Earliest(z, local).None?
      invariant LocalToInstant(z, naive) == TryMinutes(z, local, LAST_MINUTE + 1 - minutes)
    {
      local := local + MINUTE;
      r := Earliest(z, local);
      if r.Some? {
        return;
      }
    }
    r := None;
  }

  /** How far past `end` the first minute step from `naive` lands. */
  function Landing(naive: int, end: int): (d: int)
    ensures 0 <= d
    ensures naive < end ==> d < MINUTE
    decreases end - naive
  {
    if naive >= end then naive - end else Landing(naive + MINUTE, end)
  }

  function Overshoot(z: Zone, k: nat, naive: int): int
    requires k < |z.transitions|
  {
    Landing(naive, After(z, k))
  }

  lemma {:induction false} LandingBounded(naive: int, end: int, minutes: nat)
    requires end <= naive + Minutes(minutes) && naive < end
    ensures naive < end + Landing(naive, end) <= naive + Minutes(minutes)
    decreases minutes
  {
    if naive + MINUTE < end {
      LandingBounded(naive + MINUTE, end, minutes - 1);
    }
  }

  /** A landing on the end itself means a whole number of minutes before it. */
  lemma {:induction false} LandsOnEnd(naive: int, end: int)
    requires naive < end
    ensures Landing(naive, end) == 0 <==> WholeMinutesBefore(naive, end)
    decreases end - naive
  {
    if naive + MINUTE < end {
      LandsOnEnd(naive + MINUTE, end);
      OneMinuteLess(end - naive);
    }
  }

  lemma OneMinuteLess(d: int)
    ensures OnMinute(d) <==> OnMinute(d - MINUTE)
  {
  }

  lemma NothingInGap(z: Zone, k: nat, local: int)
    requires Ordinary(z) && InGap(z, k, local)
    ensures Earliest(z, local) == None
  {
    EarliestIsLeast(z, local);
    forall x ensures Local(z, x) != local {
      GapUnreachable(z, k, local, x);
    }
  }

  /** Just past gap `k` each local time is shown first at the matching instant. */
  lemma JustPastGap(z: Zone, k: nat, d: int)
    requires Ordinary(z) && k < |z.transitions| && Before(z, k) < After(z, k) && 0 <= d < MINUTE
    ensures Earliest(z, After(z, k) + d) == Some(z.transitions[k].at + d)
  {
    var t, local := z.transitions[k].at + d, After(z, k) + d;
    LocalPastGap(z, k, t);
    forall x | x < t ensures Local(z, x) != local {
      NotShownBefore(z, k, d, x);
    }
    EarliestIsLeast(z, local);
  }

  lemma NotShownBefore(z: Zone, k: nat, d: int, x: int)
    requires Ordinary(z) && k < |z.transitions| && Before(z, k) < After(z, k) && d < MINUTE
    requires x < z.transitions[k].at + d
    ensures Local(z, x) < After(z, k) + d || Local(z, x) < Before(z, k)
  {
    if x < z.transitions[k].at {
      Peak(z, k, x);
    } else {
      LocalPastGap(z, k, x);
    }
  }

  lemma LocalPastGap(z: Zone, k: nat, x: int)
    requires Ordinary(z) && k < |z.transitions| && z.transitions[k].at <= x < z.transitions[k].at + MINUTE
    ensures Local(z, x) == After(z, k) + x - z.transitions[k].at
  {
    PeriodIs(z, x, k + 1);
  }

  /** Where the search lands for a local time in gap `k`: at the first whole minute
      step that reaches the end of the gap. */
  lemma {:induction false} MinutesCrossGap(z: Zone, k: nat, local: int, left: nat)
    requires Ordinary(z) && k < |z.transitions| && Before(z, k) < After(z, k)
    requires Before(z, k) <= local < After(z, k) + MINUTE && After(z, k) <= local + Minutes(left)
    ensures TryMinutes(z, local, left) == Some(z.transitions[k].at + Overshoot(z, k, local))
    decreases left
  {
    if local < After(z, k) {
      MinuteInGap(z, k, local, left);
      MinutesCrossGap(z, k, local + MINUTE, left - 1);
    } else {
      MinutePastGap(z, k, local, left);
    }
  }

  lemma MinuteInGap(z: Zone, k: nat, local: int, left: nat)
    requires Ordinary(z) && InGap(z, k, local) && left > 0
    ensures TryMinutes(z, local, left) == TryMinutes(z, local + MINUTE, left - 1)
    ensures Overshoot(z, k, local) == Overshoot(z, k, local + MINUTE)
  {
    NothingInGap(z, k, local);
  }

  lemma MinutePastGap(z: Zone, k: nat, local: int, left: nat)
    requires Ordinary(z) && k < |z.transitions| && Before(z, k) < After(z, k) <= local < After(z, k) + MINUTE
    ensures TryMinutes(z, local, left) == Some(z.transitions[k].at + Overshoot(z, k, local))
  {
    JustPastGap(z, k, local - After(z, k));
  }

  /** The instant a local time fires at, without any search: the earliest instant
      that shows it, or the end of the gap it fell into plus the overshoot. */
  ghost predicate FiresAt(z: Zone, naive: int, t: int) {
    && (forall k: nat :: InGap(z, k, naive) ==> t == z.transitions[k].at + Overshoot(z, k, naive))
    && ((forall k: nat :: !InGap(z, k, naive)) ==> Earliest(z, naive) == Some(t))
  }

  /** In an ordinary zone the bounded search always finds the instant. */
  lemma InstantFound(z: Zone, naive: int) returns (t: int)
    requires Ordinary(z)
    ensures LocalToInstant(z, naive) == Some(t) && FiresAt(z, naive, t)
  {
    EarliestIsLeast(z, naive);
    if k: nat :| InGap(z, k, naive) {
      MinutesCrossGap(z, k, naive, LAST_MINUTE);
      t := z.transitions[k].at + Overshoot(z, k, naive);
      OnlyGap(z, k, naive);
    } else {
      var g := ShownOrInGap(z, naive, 0);
      t := Earliest(z, naive).value;
    }
  }

  /** The documented instant: the wall clock has reached `naive` and never had. */
  ghost predicate FirstAtOrPast(z: Zone, naive: int, t: int) {
    Local(z, t) >= naive && forall x :: x < t ==> Local(z, x) < naive
  }

  predicate WholeMinutesBefore(naive: int, end: int) {
    OnMinute(end - naive)
  }

  /** The fire is where the gap ends exactly when the local time is a whole number of
      minutes before that. */
  lemma FirstInstantExactly(z: Zone, naive: int, t: int)
    requires Ordinary(z) && LocalToInstant(z, naive) == Some(t)
    ensures FirstAtOrPast(z, naive, t)
            <==> forall k: nat :: InGap(z, k, naive) ==> WholeMinutesBefore(naive, After(z, k))
  {
    var _ := InstantFound(z, naive);
    if k: nat :| InGap(z, k, naive) {
      OnlyGap(z, k, naive);
      FirstInstantInGap(z, k, naive, t);
    } else {
      ShownFirst(z, naive, t);
    }
  }

  lemma ShownFirst(z: Zone, naive: int, t: int)
    requires Ordinary(z) && Earliest(z, naive) == Some(t)
    ensures FirstAtOrPast(z, naive, t)
  {
    EarliestIsLeast(z, naive);
    forall x | x < t ensures Local(z, x) < naive {
      EarliestIsFirst(z, naive, t, x);
    }
  }

  lemma FirstInstantInGap(z: Zone, k: nat, naive: int, t: int)
    requires Ordinary(z) && InGap(z, k, naive) && t == z.transitions[k].at + Overshoot(z, k, naive)
    ensures FirstAtOrPast(z, naive, t) <==> WholeMinutesBefore(naive, After(z, k))
  {
    InGapFirst(z, k, naive);
    LandsOnEnd(naive, After(z, k));
  }

  /** After a gap the first instant is the transition itself. */
  lemma InGapFirst(z: Zone, k: nat, naive: int)
    requires Ordinary(z) && InGap(z, k, naive)
    ensures FirstAtOrPast(z, naive, z.transitions[k].at)
    ensures forall t :: FirstAtOrPast(z, naive, t) ==> t == z.transitions[k].at
  {
    var at := z.transitions[k].at;
    Valley(z, k, at);
    forall x | x < at ensures Local(z, x) < naive {
      Peak(z, k, x);
    }
    forall t | FirstAtOrPast(z, naive, t) ensures t == at {
      assert t > at ==> Local(z, at) < naive;
      assert t < at ==> Local(z, t) < naive;
    }
  }

  lemma OnlyGap(z: Zone, k: nat, naive: int)
    requires Ordinary(z) && InGap(z, k, naive)
    ensures forall j: nat :: InGap(z, j, naive) ==> j == k
  {
    forall j: nat | InGap(z, j, naive) ensures j == k {
      InGapFirst(z, k, naive);
      InGapFirst(z, j, naive);
    }
  }
}
