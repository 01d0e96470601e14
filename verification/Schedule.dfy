/** Next-fire computation and the two walks over a schedule's fires
    (crates/core/src/schedule.rs). Cron and recurrence rules are given by their
    oracles; intervals are computed here. */
module Schedule {
  import opened Basics
  import opened Zones
  import WallClock

  datatype Result<T> = Ok(value: T) | Err(error: string)

  /** `micros` is the interval as whole microseconds. */
  datatype Schedule =
    | Cron(next: int -> Option<int>, previous: int -> Option<int>)
    | RRule(next: int -> Option<int>)
    | Interval(micros: int, anchor: int, zone: Zone)
    | Continuous

  /** Intervals under a day: fixed time since the anchor. */
  function ElapsedNext(micros: int, anchor: int, after: int): int
    requires micros > 0
  {
    var elapsed := after - anchor;
    var steps := if elapsed < 0 then 0 else elapsed / micros + 1;
    anchor + steps * micros
  }

  /** The interval rounded to whole days, halves up, and at least one. */
  function WholeDays(micros: int): int {
    var rounded := (2 * micros + 86_400_000_000) / 172_800_000_000;
    if rounded < 1 then 1 else rounded
  }

  function DayGrid(s: Schedule): (g: WallClock.Grid)
    requires s.Interval?
    ensures g.days >= 1
  {
    WallClock.Grid(s.zone, s.anchor, WholeDays(s.micros))
  }

  /** The first fire strictly after `after`. */
  function NextAfter(s: Schedule, after: int): Result<Option<int>> {
    match s
    case Cron(next, _) => Ok(next(after))
    case RRule(next) => Ok(next(after))
    case Interval(micros, anchor, _) =>
      if micros <= 0 then Err("interval must be positive")
      else if micros < DAY then Ok(Some(ElapsedNext(micros, anchor, after)))
      else Ok(Some(WallClock.NextAfter(DayGrid(s), after)))
    case Continuous => Ok(None)
  }

  /** The fire at `after` or the nearest one before it, down to `floor`. Only cron walks
      back. */
  function PreviousFrom(s: Schedule, after: int, floor: int): Option<int> {
    match s
    case Cron(_, previous) =>
      var found := previous(after);
      if found.Some? && found.value >= floor then found else None
    case RRule(_) => None
    case Interval(_, _, _) => None
    case Continuous => None
  }

  // -- A schedule's fires as a set ----------------------------------------------

  /** `NextAfter` answers with the least member of `fires` past each instant. */
  ghost predicate Follows(s: Schedule, fires: int -> bool) {
    forall a :: FollowsAt(s, fires, a)
  }

  ghost predicate FollowsAt(s: Schedule, fires: int -> bool, a: int) {
    match NextAfter(s, a)
    case Ok(Some(n)) => n > a && fires(n) && forall x :: a < x < n ==> !fires(x)
    case Ok(None) => forall x :: x > a ==> !fires(x)
    case Err(_) => false
  }

  /** `previous` answers with the greatest member of `fires` up to each instant. */
  ghost predicate Precedes(s: Schedule, fires: int -> bool) {
    s.Cron? && forall a :: PrecedesAt(s.previous(a), fires, a)
  }

  ghost predicate PrecedesAt(found: Option<int>, fires: int -> bool, a: int) {
    match found
    case Some(p) => p <= a && fires(p) && forall x :: p < x <= a ==> !fires(x)
    case None => forall x :: x <= a ==> !fires(x)
  }

  /** The fires of an interval under a day: whole steps from the anchor on. */
  ghost predicate OnElapsedGrid(micros: int, anchor: int, x: int)
    requires micros > 0
  {
    anchor <= x && (x - anchor) % micros == 0
  }

  /** An elapsed interval answers with the least grid point strictly later, for
      every cursor, before the anchor as well as after it. */
  lemma ElapsedIsLeast(micros: int, anchor: int, after: int)
    requires micros > 0
    ensures var n := ElapsedNext(micros, anchor, after);
            && n > after && OnElapsedGrid(micros, anchor, n)
            && forall x :: after < x && OnElapsedGrid(micros, anchor, x) ==> n <= x
  {
    var n := ElapsedNext(micros, anchor, after);
    var steps := if after < anchor then 0 else (after - anchor) / micros + 1;
    StepsOnGrid(micros, steps);
    if after >= anchor {
      DivideEvenly(after - anchor, micros);
      forall x | after < x && OnElapsedGrid(micros, anchor, x) ensures n <= x {
        NoMultipleBetween(x - anchor, after - anchor, micros);
      }
    }
  }

  lemma StepsOnGrid(micros: int, steps: int)
    requires micros > 0
    ensures (steps * micros) % micros == 0
  {
    DivideEvenly(steps * micros, micros);
    SmallMultiple(steps - (steps * micros) / micros, micros);
  }

  lemma SmallMultiple(k: int, b: int)
    requires 0 <= k * b < b
    ensures k == 0
  {
    if k >= 1 {
      MulMonotone(1, k, b);
    } else if k <= -1 {
      MulMonotone(k, -1, b);
    }
  }

  lemma DivideEvenly(a: int, b: int)
    requires b > 0
    ensures a == (a / b) * b + a % b && 0 <= a % b < b
  {
  }

  lemma NoMultipleBetween(x: int, y: int, b: int)
    requires b > 0 && 0 <= y < x && x % b == 0
    ensures (y / b + 1) * b <= x
  {
    DivideEvenly(x, b);
    DivideEvenly(y, b);
    if x / b <= y / b {
      MulMonotone(x / b, y / b, b);
    } else {
      MulMonotone(y / b + 1, x / b, b);
    }
  }

  lemma ElapsedFollows(s: Schedule, fires: int -> bool)
    requires s.Interval? && 0 < s.micros < DAY
    requires forall x :: fires(x) <==> OnElapsedGrid(s.micros, s.anchor, x)
    ensures Follows(s, fires)
  {
    forall a ensures FollowsAt(s, fires, a) {
      ElapsedIsLeast(s.micros, s.anchor, a);
    }
  }

  /** `days` is the interval to the nearest whole day, the later one when it is half way. */
  predicate Nearest(micros: int, days: int) {
    -DAY < 2 * (Days(days) - micros) <= DAY
  }

  /** The step of an interval of a day or more is its nearest whole number of days, and a
      whole number of days is its own step. */
  lemma WholeDaysExactly(micros: int, days: int)
    requires DAY <= micros
    ensures WholeDays(micros) == days <==> Nearest(micros, days)
    ensures micros == Days(days) ==> WholeDays(micros) == days
  {
    var r := (2 * micros + 86_400_000_000) / 172_800_000_000;
    assert 172_800_000_000 * r <= 2 * micros + 86_400_000_000 < 172_800_000_000 * (r + 1);
  }

  /** From a day on, an interval has the grid of its nearest whole days, and answers with the
      least fire of it. */
  lemma DaysFollow(s: Schedule, days: int, grid: WallClock.Grid, fires: int -> bool)
    requires s.Interval? && DAY <= s.micros && Nearest(s.micros, days)
    requires grid == WallClock.Grid(s.zone, s.anchor, days) && WallClock.Sound(grid) && WallClock.Steady(grid)
    requires forall x :: fires(x) <==> exists n: nat :: x == WallClock.Fire(grid, n)
    ensures Follows(s, fires)
  {
    WholeDaysExactly(s.micros, days);
    assert DayGrid(s) == grid;
    forall a ensures FollowsAt(s, fires, a) {
      WallClock.SteadyIsLeast(grid, a);
    }
  }

  /** The other schedules answer as their oracles do, and a continuous one never fires. */
  lemma OraclesFollow(s: Schedule, fires: int -> bool, next: int -> Option<int>)
    requires (s.Cron? && next == s.next) || (s.RRule? && next == s.next)
             || (s.Continuous? && forall a :: next(a) == None)
    requires forall a ::
               match next(a)
               case Some(n) => n > a && fires(n) && forall x :: a < x < n ==> !fires(x)
               case None => forall x :: x > a ==> !fires(x)
    ensures Follows(s, fires)
  {
    forall a ensures FollowsAt(s, fires, a) {
      assert next(a) == next(a);
    }
  }

  /** Only an interval that is not positive fails, for every cursor. */
  lemma FailsExactly(s: Schedule, after: int)
    ensures NextAfter(s, after).Err? <==> s.Interval? && s.micros <= 0
  {
  }

  // -- Forward ------------------------------------------------------------------

  predicate Ascending(out: seq<int>) {
    forall i, j :: 0 <= i < j < |out| ==> out[i] < out[j]
  }

  /** Exactly the first fires after `start`: nothing up to `upto` is left out. */
  ghost predicate Lists(out: seq<int>, fires: int -> bool, start: int, upto: int) {
    && Ascending(out)
    && (forall i :: 0 <= i < |out| ==> start < out[i] <= upto && fires(out[i]))
    && (forall x :: start < x <= upto && fires(x) ==> x in out)
  }

  /** Where a walk that has found `out` stands. */
  function Cursor(out: seq<int>, start: int): int {
    if out == [] then start else out[|out| - 1]
  }

  lemma ListsExtends(out: seq<int>, fires: int -> bool, start: int, n: int)
    requires Lists(out, fires, start, Cursor(out, start)) && start <= Cursor(out, start) < n && fires(n)
    requires forall x :: Cursor(out, start) < x < n ==> !fires(x)
    ensures Lists(out + [n], fires, start, n)
  {
    forall x | start < x <= n && fires(x) ensures x in out + [n] {
      assert x > Cursor(out, start) ==> x == n;
    }
  }

  lemma ListsWider(out: seq<int>, fires: int -> bool, start: int, upto: int, wider: int)
    requires Lists(out, fires, start, upto) && upto <= wider
    requires forall x :: upto < x <= wider ==> !fires(x)
    ensures Lists(out, fires, start, wider)
  {
  }

  /** The fires in (`start`, `end`], cut off after `max`. */
  method FiresBetween(s: Schedule, start: int, end: int, max: nat, ghost fires: int -> bool)
    returns (r: Result<seq<int>>)
    ensures r.Err? <==> max > 0 && s.Interval? && s.micros <= 0
    ensures Follows(s, fires) ==>
              && r.Ok? && |r.value| <= max
              && Lists(r.value, fires, start, if |r.value| < max then end else Cursor(r.value, start))
              && forall i :: 0 <= i < |r.value| ==> r.value[i] <= end
  {
    var out: seq<int> := [];
    var cursor := start;
    while |out| < max
      invariant |out| <= max && cursor == Cursor(out, start)
      invariant out != [] ==> NextAfter(s, start).Ok?
      invariant out != [] ==> cursor <= end
      invariant Follows(s, fires) ==> start <= cursor && Lists(out, fires, start, cursor)
      decreases max - |out|
    {
      var next := NextAfter(s, cursor);
      assert Follows(s, fires) ==> FollowsAt(s, fires, cursor);
      if next.Err? {
        ErrorsStay(s, start, cursor);
        return Err(next.error);
      }
      if next.value.Some? && next.value.value <= end {
        if Follows(s, fires) {
          ListsExtends(out, fires, start, next.value.value);
        }
        out := out + [next.value.value];
        cursor := next.value.value;
      } else {
        if Follows(s, fires) && cursor <= end {
          ListsWider(out, fires, start, cursor, end);
        }
        break;
      }
    }
    r := Ok(out);
  }

  /** Only the interval's length can make a query fail, never the cursor. */
  lemma ErrorsStay(s: Schedule, a: int, b: int)
    ensures NextAfter(s, a).Err? == NextAfter(s, b).Err?
  {
  }

  // -- Backward -----------------------------------------------------------------

  predicate Descending(out: seq<int>) {
    forall i, j :: 0 <= i < j < |out| ==> out[i] > out[j]
  }

  /** Exactly the last fires up to `end`, newest first: nothing from `from` on is
      left out. */
  ghost predicate ListsBack(out: seq<int>, fires: int -> bool, from: int, end: int) {
    && Descending(out)
    && (forall i :: 0 <= i < |out| ==> from <= out[i] <= end && fires(out[i]))
    && (forall x :: from <= x <= end && fires(x) ==> x in out)
  }

  lemma ListsBackExtends(out: seq<int>, fires: int -> bool, cursor: int, end: int, p: int)
    requires ListsBack(out, fires, cursor + 1, end) && p <= cursor <= end && fires(p)
    requires forall x :: p < x <= cursor ==> !fires(x)
    ensures ListsBack(out + [p], fires, p, end)
  {
    forall x | p <= x <= end && fires(x) ensures x in out + [p] {
      assert x <= cursor ==> x == p;
    }
  }

  lemma ListsBackWider(out: seq<int>, fires: int -> bool, from: int, end: int, floor: int)
    requires ListsBack(out, fires, from, end) && forall i :: 0 <= i < |out| ==> floor <= out[i]
    requires forall x :: floor <= x < from ==> !fires(x)
    ensures ListsBack(out, fires, floor, end)
  {
  }

  /** The newest `count` fires in [`floor`, `end`], going back. */
  method FiresBefore(s: Schedule, end: int, floor: int, count: nat, ghost fires: int -> bool)
    returns (out: seq<int>)
    ensures |out| <= count
    ensures !s.Cron? ==> out == []
    ensures Precedes(s, fires) ==>
              && (forall i :: 0 <= i < |out| ==> floor <= out[i])
              && ListsBack(out, fires,
                           if |out| < count then floor else if out == [] then end + 1 else out[|out| - 1], end)
  {
    out := [];
    var cursor := end;
    while |out| < count
      invariant |out| <= count
      invariant !s.Cron? ==> out == []
      invariant cursor == if out == [] then end else out[|out| - 1] - 1
      invariant Precedes(s, fires) ==>
                  cursor <= end && ListsBack(out, fires, cursor + 1, end)
                  && forall i :: 0 <= i < |out| ==> floor <= out[i]
      decreases count - |out|
    {
      var previous := PreviousFrom(s, cursor, floor);
      assert Precedes(s, fires) ==> PrecedesAt(s.previous(cursor), fires, cursor);
      if previous.None? {
        if Precedes(s, fires) {
          ListsBackWider(out, fires, cursor + 1, end, floor);
        }
        break;
      }
      // A fire twice in one instant: a sound oracle never takes this branch.
      if out != [] && out[|out| - 1] == previous.value {
        assert !Precedes(s, fires);
        break;
      }
      if Precedes(s, fires) {
        ListsBackExtends(out, fires, cursor, end, previous.value);
      }
      out := out + [previous.value];
      cursor := previous.value - 1;
    }
  }

  // -- The walks agree ------------------------------------------------------------

  function Reversed(s: seq<int>): (r: seq<int>)
    ensures |r| == |s|
    ensures forall i :: 0 <= i < |s| ==> r[i] == s[|s| - 1 - i]
  {
    seq(|s|, i requires 0 <= i < |s| => s[|s| - 1 - i])
  }

  /** Over one window the backward walk is the forward walk reversed, cut to its
      newest entries when it stopped early. */
  lemma WalksAgree(forward: seq<int>, back: seq<int>, fires: int -> bool, start: int, end: int, from: int)
    requires Lists(forward, fires, start, end)
    requires ListsBack(back, fires, from, end) && start < from
    ensures |back| <= |forward| && back == Reversed(forward)[..|back|]
    ensures from == start + 1 ==> back == Reversed(forward)
  {
    forall k | 0 <= k < |back| ensures k < |forward| && back[k] == forward[|forward| - 1 - k] {
      SameNewest(forward, back, fires, start, end, from, k);
    }
    if |back| > |forward| {
      SameNewest(forward, back, fires, start, end, from, |forward|);
    }
    if from == start + 1 {
      AllNewest(forward, back);
    }
  }

  lemma AllNewest(forward: seq<int>, back: seq<int>)
    requires Ascending(forward) && |back| <= |forward|
    requires forall k :: 0 <= k < |back| ==> back[k] == forward[|forward| - 1 - k]
    requires forall i :: 0 <= i < |forward| ==> forward[i] in back
    ensures |back| == |forward|
  {
    assert forward != [] ==> forward[0] in back;
  }

  lemma {:induction false} SameNewest(forward: seq<int>, back: seq<int>, fires: int -> bool, start: int, end: int,
                                      from: int, k: nat)
    requires Lists(forward, fires, start, end)
    requires ListsBack(back, fires, from, end) && start < from && k < |back|
    ensures k < |forward| && back[k] == forward[|forward| - 1 - k]
  {
    if k > 0 {
      SameNewest(forward, back, fires, start, end, from, k - 1);
    }
    assert back[k] in forward;
    var i :| 0 <= i < |forward| && forward[i] == back[k];
    var n := |forward|;
    if i < n - 1 - k {
      var x := forward[n - 1 - k];
      assert x in back;
      var j :| 0 <= j < |back| && back[j] == x;
      assert j < k;
      SameNewest(forward, back, fires, start, end, from, j);
    }
  }
}
