/** The overlap model (benches/soak_overlap.py): what a concurrency cap and an overlap
    policy make of periodic fires, and the sweep that measures concurrency. Times are
    exact reals. */
module Overlap {
  import opened Basics

  datatype Policy = Enqueue | Skip | CancelNew

  datatype Spec = Spec(
    policy: Policy,
    interval: real,
    duration: real,
    durations: seq<real>,
    cap: nat,
    offset: Option<real>)

  /** When a run holds its slot: from its start until its end. */
  datatype Interval = Interval(start: real, end: real)

  function DurationAt(spec: Spec, tick: nat): real {
    if spec.durations != [] then spec.durations[tick % |spec.durations|] else spec.duration
  }

  /** The listed durations are used in turn, over and over; without a list all last the same. */
  lemma {:induction false} DurationsRepeat(spec: Spec, round: nat, i: nat)
    ensures spec.durations == [] ==> DurationAt(spec, i) == spec.duration
    ensures i < |spec.durations| ==> DurationAt(spec, round * |spec.durations| + i) == spec.durations[i]
  {
    var n := |spec.durations|;
    if i < n {
      InRound(round, n, i);
    }
  }

  lemma InRound(round: nat, n: nat, i: nat)
    requires i < n
    ensures (round * n + i) % n == i
  {
    var x := round * n + i;
    var q, r := x / n, x % n;
    assert x == q * n + r;
    if q < round {
      RoundsApart(q, round, n);
    } else if round < q {
      RoundsApart(round, q, n);
    }
  }

  lemma {:induction false} RoundsApart(a: nat, b: nat, n: nat)
    requires a < b
    ensures a * n + n <= b * n
  {
    if a + 1 < b {
      RoundsApart(a, b - 1, n);
    }
    assert b * n == (b - 1) * n + n;
  }

  /** What the simulation asks of a flow: fires that advance, and for a queue a slot. */
  predicate Runnable(spec: Spec) {
    spec.interval > 0.0 && (spec.policy.Enqueue? ==> spec.cap >= 1)
  }

  predicate NoNegative(spec: Spec) {
    spec.duration >= 0.0 && forall i :: 0 <= i < |spec.durations| ==> spec.durations[i] >= 0.0
  }

  // -- Fires ---------------------------------------------------------------------

  function First(spec: Spec): real {
    if spec.offset.Some? then spec.offset.value else 0.0
  }

  function FireAt(spec: Spec, i: nat): real
  {
    if i == 0 then First(spec) else FireAt(spec, i - 1) + spec.interval
  }

  /** The fires in the window: all of the grid's times before its end, in order. */
  ghost predicate AreTicks(spec: Spec, window: real, ticks: seq<real>) {
    && (forall i :: 0 <= i < |ticks| ==> ticks[i] == FireAt(spec, i) < window)
    && FireAt(spec, |ticks|) >= window
  }

  /** Fires are an interval apart, from the offset if there is one. */
  lemma {:induction false} FireAtClosed(spec: Spec, i: nat)
    ensures spec.offset.None? ==> FireAt(spec, i) == i as real * spec.interval
    ensures spec.offset.Some? ==> FireAt(spec, i) == spec.offset.value + i as real * spec.interval
  {
    if i == 0 {
      assert i as real * spec.interval == 0.0;
    } else {
      FireAtClosed(spec, i - 1);
      OneMore((i - 1) as real, spec.interval);
      assert i as real == (i - 1) as real + 1.0;
    }
  }

  lemma OneMore(a: real, x: real)
    ensures (a + 1.0) * x == a * x + x
  {
  }

  lemma QuotientDrops(left: real, interval: real)
    requires interval > 0.0
    ensures (left - interval) / interval == left / interval - 1.0
  {
    var q := left / interval - 1.0;
    OneMore(q, interval);
    QuotientIs(left - interval, interval, q);
  }

  lemma QuotientIs(a: real, b: real, q: real)
    requires b > 0.0 && a == q * b
    ensures a / b == q
  {
    var r := a / b;
    assert r * b == a;
    ProductGrows(q, r, b);
    ProductGrows(r, q, b);
  }

  lemma ProductGrows(x: real, y: real, b: real)
    requires b > 0.0
    ensures x < y ==> x * b < y * b
  {
  }

  method Ticks(spec: Spec, window: real) returns (out: seq<real>)
    requires spec.interval > 0.0
    ensures AreTicks(spec, window, out)
  {
    out := [];
    var t := First(spec);
    while t < window
      invariant t == FireAt(spec, |out|)
      invariant forall i :: 0 <= i < |out| ==> out[i] == FireAt(spec, i) < window
      decreases (window - t) / spec.interval
    {
      out := out + [t];
      QuotientDrops(window - t, spec.interval);
      t := t + spec.interval;
    }
  }

  // -- The queue ------------------------------------------------------------------

  /** The counts so far, when each taken slot is free again, and every slot holding. */
  datatype Sim = Sim(
    ends: seq<real>,
    started: nat,
    completed: nat,
    skipped: nat,
    cancelled: nat,
    pending: nat,
    holds: seq<Interval>)

  function LaterThan(ends: seq<real>, t: real): seq<real> {
    if ends == [] then []
    else if ends[0] > t then [ends[0]] + LaterThan(ends[1..], t)
    else LaterThan(ends[1..], t)
  }

  function Least(ends: seq<real>): real
    requires ends != []
  {
    if |ends| == 1 then ends[0]
    else
      var m := Least(ends[1..]);
      if ends[0] < m then ends[0] else m
  }

  /** The list without its first `x`. */
  function Without(ends: seq<real>, x: real): seq<real> {
    if ends == [] then []
    else if ends[0] == x then ends[1..]
    else [ends[0]] + Without(ends[1..], x)
  }

  lemma {:induction false} LeastBounds(ends: seq<real>)
    requires ends != []
    ensures Least(ends) in ends
    ensures forall i :: 0 <= i < |ends| ==> Least(ends) <= ends[i]
  {
    if |ends| > 1 {
      LeastBounds(ends[1..]);
    }
  }

  lemma {:induction false} WithoutOne(ends: seq<real>, x: real)
    requires x in ends
    ensures |Without(ends, x)| == |ends| - 1
    ensures forall e :: e in Without(ends, x) ==> e in ends
  {
    if ends[0] != x {
      WithoutOne(ends[1..], x);
    }
  }

  /** A slot taken from `start` on; a queued run may start only after the window. */
  function Held(s: Sim, policy: Policy, ends: seq<real>, start: real, dur: real, window: real): Sim {
    var next := s.(ends := ends + [start + dur], holds := s.holds + [Interval(start, start + dur)]);
    if policy.Enqueue? && start >= window then next.(pending := s.pending + 1)
    else next.(started := s.started + 1, completed := s.completed + if start + dur <= window then 1 else 0)
  }

  /** One fire at `t`. */
  function Tick(spec: Spec, window: real, s: Sim, t: real, dur: real): Sim
    requires Runnable(spec)
  {
    var ends := LaterThan(s.ends, t);
    if |ends| < spec.cap then Held(s, spec.policy, ends, t, dur, window)
    else match spec.policy
      case Enqueue => Held(s, Enqueue, Without(ends, Least(ends)), Least(ends), dur, window)
      case Skip => s.(ends := ends, skipped := s.skipped + 1)
      case CancelNew => s.(ends := ends, cancelled := s.cancelled + 1)
  }

  function Simulated(spec: Spec, window: real, ticks: seq<real>): Sim
    requires Runnable(spec)
  {
    if ticks == [] then Sim([], 0, 0, 0, 0, 0, [])
    else
      var n := |ticks| - 1;
      Tick(spec, window, Simulated(spec, window, ticks[..n]), ticks[n], DurationAt(spec, n))
  }

  // -- The simulation itself --------------------------------------------------------

  datatype Counts = Counts(fires: nat, started: nat, completed: nat, skipped: nat, cancelled: nat, pending: nat)

  method KeepLater(ends: seq<real>, t: real) returns (out: seq<real>)
    ensures out == LaterThan(ends, t)
  {
    out := [];
    var i := 0;
    while i < |ends|
      invariant 0 <= i <= |ends|
      invariant out + LaterThan(ends[i..], t) == LaterThan(ends, t)
    {
      assert ends[i..][1..] == ends[i + 1..];
      if ends[i] > t {
        ConcatAssociates(out, [ends[i]], LaterThan(ends[i + 1..], t));
        out := out + [ends[i]];
      }
      i := i + 1;
    }
    assert ends[|ends|..] == [];
  }

  lemma SimulatedNext(spec: Spec, window: real, ticks: seq<real>, i: nat)
    requires Runnable(spec) && i < |ticks|
    ensures Simulated(spec, window, ticks[..i + 1])
         == Tick(spec, window, Simulated(spec, window, ticks[..i]), ticks[i], DurationAt(spec, i))
  {
    assert ticks[..i + 1][..i] == ticks[..i];
  }

  /** One turn of the loop, on the variables the loop keeps. */
  method OneTick(spec: Spec, window: real, s: Sim, t: real, dur: real) returns (out: Sim)
    requires Runnable(spec)
    ensures out == Tick(spec, window, s, t, dur)
  {
    var ends := KeepLater(s.ends, t);
    if spec.policy == Enqueue {
      var start := t;
      if |ends| >= spec.cap {
        start := Least(ends);
        ends := Without(ends, start);
      }
      out := s.(ends := ends + [start + dur], holds := s.holds + [Interval(start, start + dur)]);
      if start >= window {
        return out.(pending := s.pending + 1);
      }
      out := out.(started := s.started + 1);
      if start + dur <= window {
        out := out.(completed := s.completed + 1);
      }
    } else {
      out := s.(ends := ends);
      if |ends| >= spec.cap {
        if spec.policy == Skip {
          return out.(skipped := s.skipped + 1);
        }
        return out.(cancelled := s.cancelled + 1);
      }
      out := out.(started := s.started + 1, ends := ends + [t + dur], holds := s.holds + [Interval(t, t + dur)]);
      if t + dur <= window {
        out := out.(completed := s.completed + 1);
      }
    }
  }

  method Simulate(spec: Spec, window: real) returns (out: Counts)
    requires Runnable(spec)
    ensures exists ticks :: AreTicks(spec, window, ticks)
              && var s := Simulated(spec, window, ticks);
                 out == Counts(|ticks|, s.started, s.completed, s.skipped, s.cancelled, s.pending)
    ensures out.fires == out.started + out.skipped + out.cancelled + out.pending
  {
    var ticks := Ticks(spec, window);
    var s := Sim([], 0, 0, 0, 0, 0, []);
    var i := 0;
    while i < |ticks|
      invariant 0 <= i <= |ticks|
      invariant s == Simulated(spec, window, ticks[..i])
    {
      SimulatedNext(spec, window, ticks, i);
      s := OneTick(spec, window, s, ticks[i], DurationAt(spec, i));
      i := i + 1;
    }
    assert ticks[..|ticks|] == ticks;
    FiresConserved(spec, window, ticks);
    out := Counts(|ticks|, s.started, s.completed, s.skipped, s.cancelled, s.pending);
  }

  // -- How deep the runs overlap --------------------------------------------------------

  function CountLater(ends: seq<real>, y: real): (n: nat)
    ensures n <= |ends|
  {
    if ends == [] then 0 else (if ends[0] > y then 1 else 0) + CountLater(ends[1..], y)
  }

  /** How many of the runs hold a slot at `y`. */
  function Running(holds: seq<Interval>, y: real): nat {
    if holds == [] then 0
    else
      var last := holds[|holds| - 1];
      Running(holds[..|holds| - 1], y) + if last.start <= y < last.end then 1 else 0
  }

  function EndingLater(holds: seq<Interval>, y: real): nat {
    if holds == [] then 0
    else EndingLater(holds[..|holds| - 1], y) + if y < holds[|holds| - 1].end then 1 else 0
  }

  lemma {:induction false} CountLaterConcat(a: seq<real>, x: real, y: real)
    ensures CountLater(a + [x], y) == CountLater(a, y) + if x > y then 1 else 0
  {
    if a != [] {
      assert (a + [x])[1..] == a[1..] + [x];
      CountLaterConcat(a[1..], x, y);
    }
  }

  lemma {:induction false} CountLaterKept(ends: seq<real>, t: real, y: real)
    requires t <= y
    ensures CountLater(LaterThan(ends, t), y) == CountLater(ends, y)
  {
    if ends != [] {
      CountLaterKept(ends[1..], t, y);
      if ends[0] > t {
        assert ([ends[0]] + LaterThan(ends[1..], t))[1..] == LaterThan(ends[1..], t);
      }
    }
  }

  lemma {:induction false} CountLaterWithout(ends: seq<real>, x: real, y: real)
    requires x in ends
    ensures CountLater(Without(ends, x), y) == CountLater(ends, y) - if x > y then 1 else 0
  {
    if ends[0] != x {
      assert ([ends[0]] + Without(ends[1..], x))[1..] == Without(ends[1..], x);
      CountLaterWithout(ends[1..], x, y);
    }
  }

  lemma {:induction false} AllLater(ends: seq<real>, y: real)
    requires AllAfter(ends, y)
    ensures CountLater(ends, y) == |ends| && LaterThan(ends, y) == ends
  {
    if ends != [] {
      AllLater(ends[1..], y);
    }
  }

  lemma {:induction false} LaterThanSubset(ends: seq<real>, t: real)
    ensures forall e :: e in LaterThan(ends, t) ==> e in ends && e > t
    ensures |LaterThan(ends, t)| == CountLater(ends, t)
  {
    if ends != [] {
      LaterThanSubset(ends[1..], t);
    }
  }

  ghost predicate StartedBy(holds: seq<Interval>, y: real) {
    forall i :: 0 <= i < |holds| ==> holds[i].start <= y
  }

  lemma {:induction false} RunningIsEnding(holds: seq<Interval>, y: real)
    requires StartedBy(holds, y)
    ensures Running(holds, y) == EndingLater(holds, y)
  {
    if holds != [] {
      RunningIsEnding(holds[..|holds| - 1], y);
    }
  }

  ghost predicate NeverAbove(holds: seq<Interval>, cap: nat) {
    forall y :: Running(holds, y) <= cap
  }

  /** The ends the simulation keeps count the runs still holding a slot from `b` on. */
  ghost predicate Counted(ends: seq<real>, holds: seq<Interval>, b: real) {
    forall y: real :: b <= y ==> CountLater(ends, y) == EndingLater(holds, y)
  }

  /** After the fires up to `t`: `b` is where the next run could start at the earliest,
      later than `t` only when every slot is taken. */
  ghost predicate Queue(ends: seq<real>, holds: seq<Interval>, cap: nat, t: real, b: real) {
    && t <= b && StartedBy(holds, b)
    && NoneBefore(ends, b)
    && |ends| <= cap && (t < b ==> |ends| == cap)
    && Counted(ends, holds, b)
    && NeverAbove(holds, cap)
  }

  ghost predicate NoneBefore(ends: seq<real>, b: real) {
    forall i :: 0 <= i < |ends| ==> b <= ends[i]
  }

  lemma QueueAdds(ends: seq<real>, holds: seq<Interval>, cap: nat, now: real, hold: Interval)
    requires now <= hold.start <= hold.end && StartedBy(holds, hold.start)
    requires NoneBefore(ends, hold.start) && |ends| + 1 <= cap && (now < hold.start ==> |ends| + 1 == cap)
    requires Counted(ends + [hold.end], holds + [hold], hold.start) && NeverAbove(holds + [hold], cap)
    ensures Queue(ends + [hold.end], holds + [hold], cap, now, hold.start)
  {
  }

  /** What the depth is from `b` on, in terms of the ends still later than `t`. */
  lemma RunningCounts(ends: seq<real>, holds: seq<Interval>, cap: nat, t: real, b: real, now: real, y: real)
    requires Queue(ends, holds, cap, t, b) && t <= now <= y && b <= y
    ensures Running(holds, y) == CountLater(LaterThan(ends, now), y)
  {
    RunningIsEnding(holds, y);
    CountLaterKept(ends, now, y);
  }

  /** A run that starts at `start`, when nothing started later, at most `cap - 1` deep. */
  lemma HoldAdds(holds: seq<Interval>, cap: nat, hold: Interval)
    requires NeverAbove(holds, cap)
    requires forall y: real :: hold.start <= y ==> Running(holds, y) < cap
    ensures NeverAbove(holds + [hold], cap)
  {
    forall y ensures Running(holds + [hold], y) <= cap {
      assert (holds + [hold])[..|holds|] == holds;
      assert Running(holds, y) <= cap;
    }
  }

  lemma CountedAdds(ends: seq<real>, holds: seq<Interval>, b: real, hold: Interval, start: real)
    requires Counted(ends, holds, b) && b <= start
    ensures Counted(ends + [hold.end], holds + [hold], start)
  {
    forall y: real | start <= y ensures CountLater(ends + [hold.end], y) == EndingLater(holds + [hold], y) {
      CountLaterConcat(ends, hold.end, y);
      assert (holds + [hold])[..|holds|] == holds;
    }
  }

  /** With a slot free at the fire, nothing is queued: the run starts at once. */
  lemma FreeNow(ends: seq<real>, holds: seq<Interval>, cap: nat, t: real, b: real, now: real)
    requires Queue(ends, holds, cap, t, b) && t <= now && |LaterThan(ends, now)| < cap
    ensures b <= now
  {
    if now < b {
      AllLater(ends, now);
    }
  }

  ghost predicate AllAfter(ends: seq<real>, y: real) {
    forall i :: 0 <= i < |ends| ==> ends[i] > y
  }

  lemma EndsAfterNow(ends: seq<real>, b: real, now: real)
    requires NoneBefore(ends, b)
    ensures NoneBefore(LaterThan(ends, now), b) && AllAfter(LaterThan(ends, now), now)
    ensures |LaterThan(ends, now)| <= |ends|
  {
    var later := LaterThan(ends, now);
    LaterThanSubset(ends, now);
    forall i | 0 <= i < |later| ensures b <= later[i] && later[i] > now {
      assert later[i] in ends;
    }
  }

  lemma LeastLater(later: seq<real>, b: real, now: real)
    requires later != [] && NoneBefore(later, b) && AllAfter(later, now)
    ensures Least(later) in later && now < Least(later) && b <= Least(later)
    ensures NoneBefore(Without(later, Least(later)), Least(later)) && |Without(later, Least(later))| == |later| - 1
  {
    var m := Least(later);
    LeastBounds(later);
    WithoutOne(later, m);
    forall i | 0 <= i < |Without(later, m)| ensures m <= Without(later, m)[i] {
      assert Without(later, m)[i] in later;
    }
  }

  lemma CountedLater(ends: seq<real>, holds: seq<Interval>, b: real, now: real, from: real)
    requires Counted(ends, holds, b) && b <= from && now <= from
    ensures Counted(LaterThan(ends, now), holds, from)
  {
    forall y: real | from <= y ensures CountLater(LaterThan(ends, now), y) == EndingLater(holds, y) {
      CountLaterKept(ends, now, y);
    }
  }

  lemma FreeTick(ends: seq<real>, holds: seq<Interval>, cap: nat, t: real, b: real, now: real, dur: real)
    requires Queue(ends, holds, cap, t, b) && t <= now && dur >= 0.0 && |LaterThan(ends, now)| < cap
    ensures Queue(LaterThan(ends, now) + [now + dur], holds + [Interval(now, now + dur)], cap, now, now)
  {
    var later, hold := LaterThan(ends, now), Interval(now, now + dur);
    FreeNow(ends, holds, cap, t, b, now);
    EndsAfterNow(ends, b, now);
    forall y: real | now <= y ensures Running(holds, y) < cap {
      RunningCounts(ends, holds, cap, t, b, now, y);
    }
    HoldAdds(holds, cap, hold);
    CountedLater(ends, holds, b, now, now);
    CountedAdds(later, holds, now, hold, now);
    QueueAdds(later, holds, cap, now, hold);
  }

  lemma FullNow(ends: seq<real>, holds: seq<Interval>, cap: nat, t: real, b: real, now: real)
    requires Queue(ends, holds, cap, t, b) && |LaterThan(ends, now)| >= cap
    ensures |LaterThan(ends, now)| == |ends| == cap
  {
    LaterThanSubset(ends, now);
  }

  lemma DroppedTick(ends: seq<real>, holds: seq<Interval>, cap: nat, t: real, b: real, now: real)
    requires Queue(ends, holds, cap, t, b) && t <= now && |LaterThan(ends, now)| >= cap
    ensures Queue(LaterThan(ends, now), holds, cap, now, if b < now then now else b)
  {
    FullNow(ends, holds, cap, t, b, now);
    EndsAfterNow(ends, b, now);
    CountedLater(ends, holds, b, now, if b < now then now else b);
  }

  lemma CountedWithout(ends: seq<real>, holds: seq<Interval>, b: real, x: real)
    requires Counted(ends, holds, b) && x in ends && b <= x
    ensures Counted(Without(ends, x), holds, x)
  {
    forall y: real | x <= y ensures CountLater(Without(ends, x), y) == EndingLater(holds, y) {
      CountLaterWithout(ends, x, y);
    }
  }

  /** From the moment the first slot is free again, fewer than `cap` runs hold one. */
  lemma FreeFrom(ends: seq<real>, holds: seq<Interval>, cap: nat, t: real, b: real, now: real, y: real)
    requires Queue(ends, holds, cap, t, b) && t <= now && cap >= 1 && |LaterThan(ends, now)| >= cap
    requires Least(LaterThan(ends, now)) <= y
    ensures Running(holds, y) < cap
  {
    var later := LaterThan(ends, now);
    FullNow(ends, holds, cap, t, b, now);
    EndsAfterNow(ends, b, now);
    LeastLater(later, b, now);
    RunningCounts(ends, holds, cap, t, b, now, y);
    CountLaterWithout(later, Least(later), y);
  }

  lemma QueuedTick(ends: seq<real>, holds: seq<Interval>, cap: nat, t: real, b: real, now: real, hold: Interval)
    requires Queue(ends, holds, cap, t, b) && t <= now && cap >= 1 && |LaterThan(ends, now)| >= cap
    requires hold.start == Least(LaterThan(ends, now)) <= hold.end
    ensures now < hold.start && b <= hold.start
    ensures Queue(Without(LaterThan(ends, now), hold.start) + [hold.end], holds + [hold], cap, now, hold.start)
  {
    var later := LaterThan(ends, now);
    FullNow(ends, holds, cap, t, b, now);
    EndsAfterNow(ends, b, now);
    LeastLater(later, b, now);
    QueuedDepth(ends, holds, cap, t, b, now, hold);
    QueuedCounts(ends, holds, b, now, hold);
    QueueAdds(Without(later, hold.start), holds, cap, now, hold);
  }

  lemma QueuedDepth(ends: seq<real>, holds: seq<Interval>, cap: nat, t: real, b: real, now: real, hold: Interval)
    requires Queue(ends, holds, cap, t, b) && t <= now && cap >= 1 && |LaterThan(ends, now)| >= cap
    requires hold.start == Least(LaterThan(ends, now))
    ensures NeverAbove(holds + [hold], cap)
  {
    forall y: real | hold.start <= y ensures Running(holds, y) < cap {
      FreeFrom(ends, holds, cap, t, b, now, y);
    }
    HoldAdds(holds, cap, hold);
  }

  lemma QueuedCounts(ends: seq<real>, holds: seq<Interval>, b: real, now: real, hold: Interval)
    requires Counted(ends, holds, b) && b <= hold.start && now <= hold.start && hold.start in LaterThan(ends, now)
    ensures Counted(Without(LaterThan(ends, now), hold.start) + [hold.end], holds + [hold], hold.start)
  {
    var later := LaterThan(ends, now);
    CountedLater(ends, holds, b, now, hold.start);
    CountedWithout(later, holds, hold.start, hold.start);
    CountedAdds(Without(later, hold.start), holds, hold.start, hold, hold.start);
  }

  /** Not before `t`, nor before the run that came last. */
  function Earliest(holds: seq<Interval>, t: real): real {
    if holds == [] || holds[|holds| - 1].start <= t then t else holds[|holds| - 1].start
  }

  /** What a fire at `now` changes, given the ends `later` than it: a hold is added, or
      the fire is dropped. */
  ghost predicate Fired(spec: Spec, s: Sim, later: seq<real>, now: real, dur: real, next: Sim) {
    if |later| < spec.cap then
      next.ends == later + [now + dur] && next.holds == s.holds + [Interval(now, now + dur)]
    else if spec.policy.Enqueue? && later != [] then
      var start := Least(later);
      next.ends == Without(later, start) + [start + dur] && next.holds == s.holds + [Interval(start, start + dur)]
    else
      next.ends == later && next.holds == s.holds
  }

  lemma TickFires(spec: Spec, window: real, s: Sim, now: real, dur: real)
    requires Runnable(spec)
    ensures Fired(spec, s, LaterThan(s.ends, now), now, dur, Tick(spec, window, s, now, dur))
  {
  }

  lemma FiredKeeps(spec: Spec, s: Sim, t: real, now: real, dur: real, next: Sim)
    requires Runnable(spec) && Queue(s.ends, s.holds, spec.cap, t, Earliest(s.holds, t)) && t <= now && dur >= 0.0
    requires Fired(spec, s, LaterThan(s.ends, now), now, dur, next)
    ensures Queue(next.ends, next.holds, spec.cap, now, Earliest(next.holds, now))
  {
    var b, later := Earliest(s.holds, t), LaterThan(s.ends, now);
    if |later| < spec.cap {
      EarliestIs(s.holds, Interval(now, now + dur), now);
      FreeTick(s.ends, s.holds, spec.cap, t, b, now, dur);
    } else if spec.policy.Enqueue? {
      var hold := Interval(Least(later), Least(later) + dur);
      EarliestIs(s.holds, hold, now);
      QueuedTick(s.ends, s.holds, spec.cap, t, b, now, hold);
    } else {
      DroppedTick(s.ends, s.holds, spec.cap, t, b, now);
    }
  }

  lemma EarliestIs(holds: seq<Interval>, hold: Interval, now: real)
    ensures now <= hold.start ==> Earliest(holds + [hold], now) == hold.start
  {
  }

  // -- What the simulation promises -----------------------------------------------------

  ghost predicate Ascending(ticks: seq<real>) {
    forall i, j :: 0 <= i < j < |ticks| ==> ticks[i] <= ticks[j]
  }

  lemma DurationNotNegative(spec: Spec, i: nat)
    requires NoNegative(spec)
    ensures DurationAt(spec, i) >= 0.0
  {
  }

  lemma {:induction false} SimulationQueues(spec: Spec, window: real, ticks: seq<real>, t: real)
    requires Runnable(spec) && NoNegative(spec) && Ascending(ticks)
    requires ticks != [] ==> ticks[|ticks| - 1] <= t
    ensures var s := Simulated(spec, window, ticks);
            Queue(s.ends, s.holds, spec.cap, if ticks == [] then t else ticks[|ticks| - 1],
                  Earliest(s.holds, if ticks == [] then t else ticks[|ticks| - 1]))
  {
    if ticks == [] {
      assert NeverAbove([], spec.cap);
    } else {
      var n := |ticks| - 1;
      var front, now := ticks[..n], ticks[n];
      SimulationQueues(spec, window, front, now);
      DurationNotNegative(spec, n);
      SimulatedFires(spec, window, ticks);
      FiredKeeps(spec, Simulated(spec, window, front), if n == 0 then now else ticks[n - 1], now, DurationAt(spec, n),
                 Simulated(spec, window, ticks));
    }
  }

  /** Whatever the fires, durations and policy, at no instant do more than `cap` runs
      hold a slot, those that start after the window included. */
  lemma NeverTooDeep(spec: Spec, window: real, ticks: seq<real>, y: real)
    requires Runnable(spec) && NoNegative(spec) && Ascending(ticks)
    ensures Running(Simulated(spec, window, ticks).holds, y) <= spec.cap
  {
    var t := if ticks == [] then 0.0 else ticks[|ticks| - 1];
    SimulationQueues(spec, window, ticks, t);
  }

  /** Every fire is accounted for once: started, skipped, cancelled or still pending. */
  lemma {:induction false} FiresConserved(spec: Spec, window: real, ticks: seq<real>)
    requires Runnable(spec)
    ensures var s := Simulated(spec, window, ticks);
            && |ticks| == s.started + s.skipped + s.cancelled + s.pending
            && |s.holds| == s.started + s.pending
            && (!spec.policy.Skip? ==> s.skipped == 0)
            && (!spec.policy.CancelNew? ==> s.cancelled == 0)
            && (!spec.policy.Enqueue? ==> s.pending == 0)
  {
    if ticks != [] {
      FiresConserved(spec, window, ticks[..|ticks| - 1]);
    }
  }

  function CountIn(holds: seq<Interval>, window: real): (nat, nat) {
    if holds == [] then (0, 0)
    else
      var (before, over), last := CountIn(holds[..|holds| - 1], window), holds[|holds| - 1];
      (before + (if last.start < window then 1 else 0),
       over + if last.start < window && last.end <= window then 1 else 0)
  }

  /** A fire either changes neither holds nor counts of runs, or adds to both. */
  ghost predicate Tallied(s: Sim, next: Sim, window: real) {
    if |next.holds| == |s.holds| then
      next.holds == s.holds && next.started == s.started && next.completed == s.completed
    else
      && |next.holds| == |s.holds| + 1
      && var hold := next.holds[|s.holds|];
      && next.holds == s.holds + [hold]
      && next.started == s.started + (if hold.start < window then 1 else 0)
      && next.completed == s.completed + if hold.start < window && hold.end <= window then 1 else 0
  }

  lemma TickTallies(spec: Spec, window: real, s: Sim, now: real, dur: real)
    requires Runnable(spec) && now < window
    ensures Tallied(s, Tick(spec, window, s, now, dur), window)
  {
  }

  lemma TalliedCounts(s: Sim, next: Sim, window: real)
    requires Tallied(s, next, window) && CountIn(s.holds, window) == (s.started, s.completed)
    ensures CountIn(next.holds, window) == (next.started, next.completed)
  {
    if |next.holds| > |s.holds| {
      CountInAdds(s.holds, next.holds[|s.holds|], window);
    }
  }

  /** Started counts the runs that start before the window ends, completed those of
      them that end in it; the rest are pending. */
  lemma {:induction false} CountsMean(spec: Spec, window: real, ticks: seq<real>)
    requires Runnable(spec) && forall i :: 0 <= i < |ticks| ==> ticks[i] < window
    ensures var s := Simulated(spec, window, ticks);
            CountIn(s.holds, window) == (s.started, s.completed)
  {
    if ticks != [] {
      var n := |ticks| - 1;
      CountsMean(spec, window, ticks[..n]);
      var s := Simulated(spec, window, ticks[..n]);
      TickTallies(spec, window, s, ticks[n], DurationAt(spec, n));
      TalliedCounts(s, Simulated(spec, window, ticks), window);
    }
  }

  lemma CountInAdds(holds: seq<Interval>, hold: Interval, window: real)
    ensures CountIn(holds + [hold], window)
         == (CountIn(holds, window).0 + (if hold.start < window then 1 else 0),
             CountIn(holds, window).1 + if hold.start < window && hold.end <= window then 1 else 0)
  {
    assert (holds + [hold])[..|holds|] == holds;
  }

  /** The first instant from `from` on at which fewer than `cap` of the runs hold a slot. */
  ghost predicate FirstFree(holds: seq<Interval>, cap: nat, from: real, start: real) {
    && from <= start && Running(holds, start) < cap
    && forall y: real :: from <= y < start ==> Running(holds, y) >= cap
  }

  /** Every instant from the earliest start on until the first end finds all slots taken. */
  lemma TakenUntil(ends: seq<real>, holds: seq<Interval>, cap: nat, t: real, b: real, now: real, y: real)
    requires Queue(ends, holds, cap, t, b) && t <= now <= y && b <= y && |LaterThan(ends, now)| >= cap >= 1
    requires y < Least(LaterThan(ends, now))
    ensures Running(holds, y) >= cap
  {
    RunningCounts(ends, holds, cap, t, b, now, y);
    LeastBounds(LaterThan(ends, now));
    AllLater(LaterThan(ends, now), y);
  }

  lemma StartsAtOnce(ends: seq<real>, holds: seq<Interval>, cap: nat, t: real, now: real)
    requires Queue(ends, holds, cap, t, Earliest(holds, t)) && t <= now && |LaterThan(ends, now)| < cap
    ensures FirstFree(holds, cap, Earliest(holds, now), now)
  {
    FreeNow(ends, holds, cap, t, Earliest(holds, t), now);
    RunningCounts(ends, holds, cap, t, Earliest(holds, t), now, now);
  }

  lemma StartsWhenFree(ends: seq<real>, holds: seq<Interval>, cap: nat, t: real, now: real)
    requires Queue(ends, holds, cap, t, Earliest(holds, t)) && t <= now && |LaterThan(ends, now)| >= cap >= 1
    ensures FirstFree(holds, cap, Earliest(holds, now), Least(LaterThan(ends, now)))
  {
    var b, start := Earliest(holds, t), Least(LaterThan(ends, now));
    assert Earliest(holds, now) <= start by {
      EndsAfterNow(ends, b, now);
      LeastLater(LaterThan(ends, now), b, now);
    }
    FreeFrom(ends, holds, cap, t, b, now, start);
    forall y: real | Earliest(holds, now) <= y < start ensures Running(holds, y) >= cap {
      TakenUntil(ends, holds, cap, t, b, now, y);
    }
  }

  /** A run of length `dur`, due at `now`, is added where a slot is first free for it. */
  ghost predicate ServedNext(before: seq<Interval>, after: seq<Interval>, cap: nat, now: real, dur: real) {
    && |after| == |before| + 1
    && var start := after[|before|].start;
    && after == before + [Interval(start, start + dur)]
    && FirstFree(before, cap, Earliest(before, now), start)
  }

  lemma FiredServes(spec: Spec, s: Sim, t: real, now: real, dur: real, next: Sim)
    requires Runnable(spec) && spec.policy.Enqueue?
    requires Queue(s.ends, s.holds, spec.cap, t, Earliest(s.holds, t)) && t <= now
    requires Fired(spec, s, LaterThan(s.ends, now), now, dur, next)
    ensures ServedNext(s.holds, next.holds, spec.cap, now, dur)
  {
    if |LaterThan(s.ends, now)| < spec.cap {
      StartsAtOnce(s.ends, s.holds, spec.cap, t, now);
    } else {
      StartsWhenFree(s.ends, s.holds, spec.cap, t, now);
    }
  }

  lemma SimulatedFires(spec: Spec, window: real, ticks: seq<real>)
    requires Runnable(spec) && ticks != []
    ensures var n := |ticks| - 1;
            var s := Simulated(spec, window, ticks[..n]);
            Fired(spec, s, LaterThan(s.ends, ticks[n]), ticks[n], DurationAt(spec, n), Simulated(spec, window, ticks))
  {
    var n := |ticks| - 1;
    TickFires(spec, window, Simulated(spec, window, ticks[..n]), ticks[n], DurationAt(spec, n));
  }

  /** A fire of a queue starts at the first instant, not before the fire and not before
      the run that came last, at which a slot is free: first come, first served, and no
      slot is left idle. */
  lemma QueueIsFifo(spec: Spec, window: real, ticks: seq<real>)
    requires Runnable(spec) && NoNegative(spec) && Ascending(ticks) && spec.policy.Enqueue? && ticks != []
    ensures var n := |ticks| - 1;
            ServedNext(Simulated(spec, window, ticks[..n]).holds, Simulated(spec, window, ticks).holds,
                       spec.cap, ticks[n], DurationAt(spec, n))
  {
    var n := |ticks| - 1;
    var t := FrontQueues(spec, window, ticks);
    SimulatedFires(spec, window, ticks);
    FiredServes(spec, Simulated(spec, window, ticks[..n]), t, ticks[n], DurationAt(spec, n),
                Simulated(spec, window, ticks));
  }

  lemma FrontQueues(spec: Spec, window: real, ticks: seq<real>) returns (t: real)
    requires Runnable(spec) && NoNegative(spec) && Ascending(ticks) && ticks != []
    ensures var s := Simulated(spec, window, ticks[..|ticks| - 1]);
            t <= ticks[|ticks| - 1] && Queue(s.ends, s.holds, spec.cap, t, Earliest(s.holds, t))
  {
    var n := |ticks| - 1;
    t := if n == 0 then ticks[n] else ticks[n - 1];
    SimulationQueues(spec, window, ticks[..n], ticks[n]);
  }

  /** A run due at `now` is added at once, unless every slot is taken. */
  ghost predicate ServedOrDropped(before: seq<Interval>, after: seq<Interval>, cap: nat, now: real, dur: real) {
    after == if Running(before, now) >= cap then before else before + [Interval(now, now + dur)]
  }

  lemma FiredServesOrDrops(spec: Spec, s: Sim, t: real, now: real, dur: real, next: Sim)
    requires !spec.policy.Enqueue? && StartedBy(s.holds, now)
    requires Queue(s.ends, s.holds, spec.cap, t, Earliest(s.holds, t)) && t <= now
    requires Fired(spec, s, LaterThan(s.ends, now), now, dur, next)
    ensures ServedOrDropped(s.holds, next.holds, spec.cap, now, dur)
  {
    FullExactly(s.ends, s.holds, spec.cap, t, Earliest(s.holds, t), now);
  }

  /** Under the other policies a fire is dropped exactly when every slot is taken at that
      instant, and otherwise starts at once. */
  lemma DroppedExactlyWhenFull(spec: Spec, window: real, ticks: seq<real>)
    requires Runnable(spec) && NoNegative(spec) && Ascending(ticks) && !spec.policy.Enqueue? && ticks != []
    ensures var n := |ticks| - 1;
            ServedOrDropped(Simulated(spec, window, ticks[..n]).holds, Simulated(spec, window, ticks).holds,
                            spec.cap, ticks[n], DurationAt(spec, n))
  {
    var n := |ticks| - 1;
    var t := FrontQueues(spec, window, ticks);
    NothingQueued(spec, window, ticks[..n], ticks[n]);
    SimulatedFires(spec, window, ticks);
    FiredServesOrDrops(spec, Simulated(spec, window, ticks[..n]), t, ticks[n], DurationAt(spec, n),
                       Simulated(spec, window, ticks));
  }

  lemma FullExactly(ends: seq<real>, holds: seq<Interval>, cap: nat, t: real, b: real, now: real)
    requires Queue(ends, holds, cap, t, b) && t <= now && b <= now
    ensures Running(holds, now) == |LaterThan(ends, now)|
  {
    RunningCounts(ends, holds, cap, t, b, now, now);
    EndsAfterNow(ends, b, now);
    AllLater(LaterThan(ends, now), now);
  }

  /** Without a queue no run starts after the fires seen so far. */
  lemma {:induction false} NothingQueued(spec: Spec, window: real, ticks: seq<real>, now: real)
    requires Runnable(spec) && !spec.policy.Enqueue? && forall i :: 0 <= i < |ticks| ==> ticks[i] <= now
    ensures StartedBy(Simulated(spec, window, ticks).holds, now)
  {
    if ticks != [] {
      NothingQueued(spec, window, ticks[..|ticks| - 1], now);
    }
  }

  /** Queued runs start in the order they were due, each not before its fire. */
  lemma {:induction false} StartsInOrder(spec: Spec, window: real, ticks: seq<real>)
    requires Runnable(spec) && NoNegative(spec) && Ascending(ticks) && spec.policy.Enqueue?
    ensures var holds := Simulated(spec, window, ticks).holds;
            && |holds| == |ticks|
            && (forall i :: 0 <= i < |holds| ==> ticks[i] <= holds[i].start)
            && forall i, j :: 0 <= i < j < |holds| ==> holds[i].start <= holds[j].start
  {
    if ticks != [] {
      StartsInOrder(spec, window, ticks[..|ticks| - 1]);
      QueueIsFifo(spec, window, ticks);
    }
  }

  lemma {:induction false} TicksAscend(spec: Spec, window: real, ticks: seq<real>)
    requires spec.interval > 0.0 && AreTicks(spec, window, ticks)
    ensures Ascending(ticks)
  {
    forall i, j | 0 <= i < j < |ticks| ensures ticks[i] <= ticks[j] {
      FireAtAscends(spec, i, j);
    }
  }

  lemma {:induction false} FireAtAscends(spec: Spec, i: nat, j: nat)
    requires spec.interval > 0.0 && i <= j
    ensures FireAt(spec, i) <= FireAt(spec, j)
    decreases j
  {
    if i < j {
      FireAtAscends(spec, i, j - 1);
    }
  }

  // -- Measuring concurrency ---------------------------------------------------------------

  /** A stored run, with its times if it has them. */
  datatype StoredRun = StoredRun(startTime: Option<real>, endTime: Option<real>)

  datatype Change = Change(at: real, delta: int)

  predicate Before(a: Change, b: Change) {
    a.at < b.at || (a.at == b.at && a.delta <= b.delta)
  }

  function Insert(sorted: seq<Change>, c: Change): seq<Change> {
    if sorted == [] then [c]
    else if Before(c, sorted[0]) then [c] + sorted
    else [sorted[0]] + Insert(sorted[1..], c)
  }

  /** The changes in time order, at one instant the ends before the starts. */
  function Sort(changes: seq<Change>): seq<Change> {
    if changes == [] then [] else Insert(Sort(changes[1..]), changes[0])
  }

  function ChangesOf(run: StoredRun, now: real): seq<Change> {
    if run.startTime.None? then []
    else [Change(run.startTime.value, 1), Change(if run.endTime.Some? then run.endTime.value else now, -1)]
  }

  function Changes(runs: seq<StoredRun>, now: real): seq<Change> {
    if runs == [] then [] else Changes(runs[..|runs| - 1], now) + ChangesOf(runs[|runs| - 1], now)
  }

  function Sum(changes: seq<Change>): int {
    if changes == [] then 0 else Sum(changes[..|changes| - 1]) + changes[|changes| - 1].delta
  }

  /** The changes up to and including instant `t` taken together. */
  function Net(changes: seq<Change>, t: real): int {
    if changes == [] then 0 else (if changes[0].at <= t then changes[0].delta else 0) + Net(changes[1..], t)
  }

  /** The highest sum over the prefixes. */
  function Peak(changes: seq<Change>): int {
    if changes == [] then 0
    else
      var p := Peak(changes[..|changes| - 1]);
      if p < Sum(changes) then Sum(changes) else p
  }

  method MaxConcurrent(runs: seq<StoredRun>, now: real) returns (peak: int)
    ensures peak == Peak(Sort(Changes(runs, now)))
  {
    var events: seq<Change> := [];
    var i := 0;
    while i < |runs|
      invariant 0 <= i <= |runs|
      invariant events == Changes(runs[..i], now)
    {
      assert runs[..i + 1][..i] == runs[..i];
      if runs[i].startTime.Some? {
        events := events + ChangesOf(runs[i], now);
      }
      i := i + 1;
    }
    assert runs[..|runs|] == runs;
    events := Sort(events);
    peak := 0;
    var cur := 0;
    i := 0;
    while i < |events|
      invariant 0 <= i <= |events|
      invariant cur == Sum(events[..i]) && peak == Peak(events[..i])
    {
      assert events[..i + 1][..i] == events[..i];
      cur := cur + events[i].delta;
      peak := if peak < cur then cur else peak;
      i := i + 1;
    }
    assert events[..|events|] == events;
  }

  // -- The sweep finds the true maximum -------------------------------------------------------

  ghost predicate Sorted(changes: seq<Change>) {
    forall i, j :: 0 <= i < j < |changes| ==> Before(changes[i], changes[j])
  }

  lemma {:induction false} InsertSorted(sorted: seq<Change>, c: Change)
    requires Sorted(sorted)
    ensures Sorted(Insert(sorted, c))
    ensures forall x :: x in Insert(sorted, c) <==> x == c || x in sorted
  {
    if sorted != [] && !Before(c, sorted[0]) {
      InsertSorted(sorted[1..], c);
      var rest := Insert(sorted[1..], c);
      forall k | 0 <= k < |rest| ensures Before(sorted[0], rest[k]) {
        assert rest[k] in rest;
      }
    }
  }

  lemma {:induction false} SortSorts(changes: seq<Change>)
    ensures Sorted(Sort(changes))
    ensures forall x :: x in Sort(changes) <==> x in changes
  {
    if changes != [] {
      SortSorts(changes[1..]);
      InsertSorted(Sort(changes[1..]), changes[0]);
    }
  }

  lemma {:induction false} NetInsert(sorted: seq<Change>, c: Change, t: real)
    ensures Net(Insert(sorted, c), t) == Net(sorted, t) + if c.at <= t then c.delta else 0
  {
    if sorted != [] {
      if Before(c, sorted[0]) {
        assert ([c] + sorted)[1..] == sorted;
      } else {
        assert ([sorted[0]] + Insert(sorted[1..], c))[1..] == Insert(sorted[1..], c);
        NetInsert(sorted[1..], c, t);
      }
    }
  }

  lemma {:induction false} NetSort(changes: seq<Change>, t: real)
    ensures Net(Sort(changes), t) == Net(changes, t)
  {
    if changes != [] {
      NetSort(changes[1..], t);
      NetInsert(Sort(changes[1..]), changes[0], t);
    }
  }

  lemma {:induction false} NetConcat(a: seq<Change>, b: seq<Change>, t: real)
    ensures Net(a + b, t) == Net(a, t) + Net(b, t)
  {
    if a == [] {
      assert a + b == b;
    } else {
      assert (a + b)[1..] == a[1..] + b;
      NetConcat(a[1..], b, t);
    }
  }

  lemma {:induction false} NetAll(changes: seq<Change>, t: real)
    requires forall i :: 0 <= i < |changes| ==> changes[i].at <= t
    ensures Net(changes, t) == Sum(changes)
  {
    if changes != [] {
      var front, last := changes[..|changes| - 1], changes[|changes| - 1];
      assert changes == front + [last];
      NetAll(front, t);
      NetConcat(front, [last], t);
      assert [last][1..] == [];
    }
  }

  lemma {:induction false} NetNone(changes: seq<Change>, t: real)
    requires forall i :: 0 <= i < |changes| ==> changes[i].at > t
    ensures Net(changes, t) == 0
  {
    if changes != [] {
      NetNone(changes[1..], t);
    }
  }

  /** In time order the changes up to an instant are a prefix. */
  lemma NetIsPrefix(changes: seq<Change>, t: real) returns (k: nat)
    requires Sorted(changes)
    ensures k <= |changes| && Net(changes, t) == Sum(changes[..k])
    ensures forall i :: 0 <= i < |changes| ==> (changes[i].at <= t <==> i < k)
  {
    k := 0;
    while k < |changes| && changes[k].at <= t
      invariant k <= |changes|
      invariant forall i :: 0 <= i < k ==> changes[i].at <= t
    {
      k := k + 1;
    }
    assert changes == changes[..k] + changes[k..];
    NetConcat(changes[..k], changes[k..], t);
    NetAll(changes[..k], t);
    NetNone(changes[k..], t);
  }

  lemma {:induction false} PeakBoundsPrefix(changes: seq<Change>, k: nat)
    requires k <= |changes|
    ensures Sum(changes[..k]) <= Peak(changes) && 0 <= Peak(changes)
    decreases |changes|
  {
    if k == |changes| {
      assert changes[..k] == changes;
      if changes != [] {
        PeakBoundsPrefix(changes[..|changes| - 1], 0);
      }
    } else {
      assert changes[..|changes| - 1][..k] == changes[..k];
      PeakBoundsPrefix(changes[..|changes| - 1], k);
    }
  }

  lemma {:induction false} PeakIsAPrefix(changes: seq<Change>) returns (k: nat)
    ensures k <= |changes| && Peak(changes) == Sum(changes[..k])
  {
    if changes == [] || Peak(changes) == Sum(changes) {
      k := |changes|;
      assert changes[..k] == changes;
    } else {
      k := PeakIsAPrefix(changes[..|changes| - 1]);
      assert changes[..|changes| - 1][..k] == changes[..k];
    }
  }

  ghost predicate UnitSteps(changes: seq<Change>) {
    forall i :: 0 <= i < |changes| ==> changes[i].delta == 1 || changes[i].delta == -1
  }

  /** Between two prefixes that differ by starts only the sum does not fall. */
  lemma {:induction false} OnlyStarts(changes: seq<Change>, i: nat, j: nat)
    requires i <= j <= |changes| && forall k :: i <= k < j ==> changes[k].delta == 1
    ensures Sum(changes[..i]) <= Sum(changes[..j])
    decreases j
  {
    if i < j {
      assert changes[..j][..j - 1] == changes[..j - 1];
      OnlyStarts(changes, i, j - 1);
    }
  }

  /** No prefix sums to more than the changes up to some instant do: at one instant the
      ends come first, so the running count is highest once they are all in. */
  lemma {:induction false} PrefixBelowNet(changes: seq<Change>, k: nat) returns (t: real)
    requires Sorted(changes) && UnitSteps(changes) && k <= |changes|
    ensures Sum(changes[..k]) <= 0 || Sum(changes[..k]) <= Net(changes, t)
    decreases k
  {
    t := 0.0;
    if k > 0 {
      var last := changes[k - 1];
      assert changes[..k][..k - 1] == changes[..k - 1];
      if last.delta == -1 {
        t := PrefixBelowNet(changes, k - 1);
      } else {
        t := last.at;
        var n := NetIsPrefix(changes, t);
        OnlyStarts(changes, k, n);
      }
    }
  }

  lemma {:induction false} ChangesAreSteps(runs: seq<StoredRun>, now: real)
    ensures UnitSteps(Changes(runs, now))
  {
    if runs != [] {
      ChangesAreSteps(runs[..|runs| - 1], now);
    }
  }

  /** For any stored runs the sweep returns the most that starts ever lead ends by: a
      bound at every instant, and reached at one unless it is zero. */
  lemma SweepIsMaximum(runs: seq<StoredRun>, now: real)
    ensures var peak := Peak(Sort(Changes(runs, now)));
            && 0 <= peak
            && (forall t :: Net(Changes(runs, now), t) <= peak)
            && (peak == 0 || exists t :: Net(Changes(runs, now), t) == peak)
  {
    var changes := Changes(runs, now);
    var sorted := Sort(changes);
    SortSorts(changes);
    ChangesAreSteps(runs, now);
    forall i | 0 <= i < |sorted| ensures sorted[i].delta == 1 || sorted[i].delta == -1 {
      assert sorted[i] in changes;
    }
    PeakBoundsPrefix(sorted, 0);
    forall t ensures Net(changes, t) <= Peak(sorted) {
      NetSort(changes, t);
      var k := NetIsPrefix(sorted, t);
      PeakBoundsPrefix(sorted, k);
    }
    var k := PeakIsAPrefix(sorted);
    var t := PrefixBelowNet(sorted, k);
    NetSort(changes, t);
  }

  // -- Simulated runs, measured ----------------------------------------------------------------

  function HoldOf(run: StoredRun, now: real): seq<Interval> {
    if run.startTime.None? then []
    else [Interval(run.startTime.value, if run.endTime.Some? then run.endTime.value else now)]
  }

  function HoldsOf(runs: seq<StoredRun>, now: real): seq<Interval> {
    if runs == [] then [] else HoldsOf(runs[..|runs| - 1], now) + HoldOf(runs[|runs| - 1], now)
  }

  ghost predicate EndLater(holds: seq<Interval>) {
    forall i :: 0 <= i < |holds| ==> holds[i].start <= holds[i].end
  }

  lemma EndLaterSplits(a: seq<Interval>, b: seq<Interval>)
    requires EndLater(a + b)
    ensures EndLater(a) && EndLater(b)
  {
    assert forall i :: 0 <= i < |a| ==> a[i] == (a + b)[i];
    assert forall i :: 0 <= i < |b| ==> b[i] == (a + b)[|a| + i];
  }

  lemma {:induction false} RunningConcat(a: seq<Interval>, b: seq<Interval>, t: real)
    ensures Running(a + b, t) == Running(a, t) + Running(b, t)
    decreases |b|
  {
    if b == [] {
      assert a + b == a;
    } else {
      var front := b[..|b| - 1];
      assert (a + b)[..|a + b| - 1] == a + front;
      RunningConcat(a, front, t);
    }
  }

  lemma NetOfRun(run: StoredRun, now: real, t: real)
    requires EndLater(HoldOf(run, now))
    ensures Net(ChangesOf(run, now), t) == Running(HoldOf(run, now), t)
  {
    if run.startTime.Some? {
      var hold := HoldOf(run, now)[0];
      NetOfPair(Change(hold.start, 1), Change(hold.end, -1), t);
      assert [hold][..0] == [];
    }
  }

  /** When no run ends before it starts, the lead of starts over ends is the number of
      runs that hold a slot: start at or before `t`, end after it. */
  lemma {:induction false} NetIsRunning(runs: seq<StoredRun>, now: real, t: real)
    requires EndLater(HoldsOf(runs, now))
    ensures Net(Changes(runs, now), t) == Running(HoldsOf(runs, now), t)
  {
    if runs != [] {
      var front, run := runs[..|runs| - 1], runs[|runs| - 1];
      EndLaterSplits(HoldsOf(front, now), HoldOf(run, now));
      NetIsRunning(front, now, t);
      NetConcat(Changes(front, now), ChangesOf(run, now), t);
      NetOfRun(run, now, t);
      RunningConcat(HoldsOf(front, now), HoldOf(run, now), t);
    }
  }

  lemma NetOfPair(a: Change, b: Change, t: real)
    ensures Net([a, b], t) == (if a.at <= t then a.delta else 0) + if b.at <= t then b.delta else 0
  {
    assert [a, b][1..] == [b] && [b][1..] == [];
    assert Net([b], t) == (if b.at <= t then b.delta else 0) + Net([], t);
  }

  /** Stored runs as the simulation says they hold their slots. */
  function AsStored(holds: seq<Interval>): seq<StoredRun> {
    if holds == [] then []
    else
      var last := holds[|holds| - 1];
      AsStored(holds[..|holds| - 1]) + [StoredRun(Some(last.start), Some(last.end))]
  }

  lemma {:induction false} AsStoredHolds(holds: seq<Interval>, now: real)
    ensures HoldsOf(AsStored(holds), now) == holds
  {
    if holds != [] {
      var front, last := holds[..|holds| - 1], holds[|holds| - 1];
      var stored := AsStored(front);
      AsStoredHolds(front, now);
      assert AsStored(holds)[..|stored|] == stored;
    }
  }

  lemma {:induction false} HoldsEndLater(spec: Spec, window: real, ticks: seq<real>)
    requires Runnable(spec) && NoNegative(spec)
    ensures EndLater(Simulated(spec, window, ticks).holds)
  {
    if ticks != [] {
      HoldsEndLater(spec, window, ticks[..|ticks| - 1]);
      DurationNotNegative(spec, |ticks| - 1);
      SimulatedFires(spec, window, ticks);
    }
  }

  /** The sweep over the runs of any simulation never reports more than the cap. */
  lemma SimulationStaysUnderCap(spec: Spec, window: real, ticks: seq<real>, now: real)
    requires Runnable(spec) && NoNegative(spec) && Ascending(ticks)
    ensures Peak(Sort(Changes(AsStored(Simulated(spec, window, ticks).holds), now))) <= spec.cap
  {
    var holds := Simulated(spec, window, ticks).holds;
    var runs := AsStored(holds);
    AsStoredHolds(holds, now);
    HoldsEndLater(spec, window, ticks);
    SweepIsMaximum(runs, now);
    var peak := Peak(Sort(Changes(runs, now)));
    if peak > 0 {
      var t :| Net(Changes(runs, now), t) == peak;
      NetIsRunning(runs, now, t);
      NeverTooDeep(spec, window, ticks, t);
    }
  }
}
