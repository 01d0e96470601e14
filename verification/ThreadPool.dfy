/** The growing thread pool (`ThreadRunner` in python/cereyan/runners.py). Everything
    done while holding the condition variable is one atomic step; a worker is about to
    take the lock, waiting on the variable, or running a function, and a function that
    runs may wait for another one. Functions are known by their place in the order of
    submission. */
module ThreadPool {

  /** `ready` workers were just started, or have finished a function, and have not taken
      the lock yet. `waits` says which function a function waited for last; `submitted`
      and `popped` are the whole history. */
  datatype Pool = Pool(
    maxWorkers: nat,
    queue: seq<int>,
    threads: nat,
    idle: nat,
    ready: nat,
    running: set<nat>,
    waits: map<nat, nat>,
    blocked: nat,
    closed: bool,
    submitted: seq<int>,
    popped: seq<int>)

  function Capacity(p: Pool): nat { p.maxWorkers + p.blocked }

  /** Some worker is not running a function, so the oldest one queued will be taken. */
  predicate HasFreeWorker(p: Pool) { p.ready + p.idle > 0 }

  predicate Done(p: Pool, f: nat) { f < |p.popped| && f !in p.running }

  /** Function `f` waits for one that has not finished. */
  predicate Blocked(p: Pool, f: nat) { f in p.waits && !Done(p, p.waits[f]) }

  function Spawned(p: Pool): Pool { p.(threads := p.threads + 1, ready := p.ready + 1) }

  function Submitted(p: Pool, fn: int): Pool {
    var q := p.(queue := p.queue + [fn], submitted := p.submitted + [fn]);
    if p.idle == 0 && p.threads < Capacity(p) then Spawned(q) else q
  }

  /** A worker with the lock, counted neither ready nor idle: it takes the oldest
      function, waits, or ends. */
  function Turn(p: Pool): Pool
    requires p.threads > 0
  {
    if p.queue != [] then
      p.(queue := p.queue[1..], popped := p.popped + [p.queue[0]], running := p.running + {|p.popped|})
    else if p.closed then p.(threads := p.threads - 1)
    else p.(idle := p.idle + 1)
  }

  /** A ready worker gets the lock. */
  function Arrived(p: Pool): Pool
    requires p.ready > 0 && p.threads > 0
  {
    Turn(p.(ready := p.ready - 1))
  }

  /** A waiting worker wakes, notified or timed out; one too many ends. */
  function Woken(p: Pool): Pool
    requires p.idle > 0 && p.threads > 0
  {
    var q := p.(idle := p.idle - 1);
    if p.queue == [] && p.threads > p.maxWorkers then q.(threads := p.threads - 1) else Turn(q)
  }

  function Finished(p: Pool, f: nat): Pool {
    p.(running := p.running - {f}, ready := p.ready + 1)
  }

  predicate Saturated(p: Pool) {
    |p.running| >= Capacity(p) && p.queue != []
  }

  /** What a task that is about to wait does first: add a worker to a saturated pool. */
  function Checked(p: Pool): Pool {
    if Saturated(p) then Spawned(p.(blocked := p.blocked + 1)) else p
  }

  /** Function `f` waits for function `g`; a finished one is not waited for. Asking for the
      result checks first, asking for the exception does not. */
  function Waited(p: Pool, f: nat, g: nat, checks: bool): Pool {
    if Done(p, g) then p
    else (if checks then Checked(p) else p).(waits := p.waits[f := g])
  }

  class ThreadRunner {
    const maxWorkers: nat
    var queue: seq<int>
    var threads: nat
    var idle: nat
    var active: nat
    var blocked: nat
    var closed: bool
    var warned: bool
    ghost var ready: nat
    ghost var running: set<nat>
    ghost var waits: map<nat, nat>
    ghost var submitted: seq<int>
    ghost var popped: seq<int>

    ghost function View(): Pool
      reads this
    {
      Pool(maxWorkers, queue, threads, idle, ready, running, waits, blocked, closed, submitted, popped)
    }

    ghost predicate Valid()
      reads this
    {
      active == |running| && forall f :: f in running ==> f < |popped|
    }

    constructor (maxWorkers: nat)
      ensures Valid() && View() == Init(maxWorkers) && !warned
    {
      this.maxWorkers := maxWorkers;
      queue, threads, idle, active, blocked, closed, warned := [], 0, 0, 0, 0, false, false;
      ready, running, waits, submitted, popped := 0, {}, map[], [], [];
    }

    method Shutdown()
      requires Valid()
      modifies this`closed
      ensures Valid() && View() == old(View()).(closed := true)
    {
      closed := true;
    }

    method Spawn()
      requires Valid()
      modifies this`threads, this`ready
      ensures Valid() && View() == Spawned(old(View()))
    {
      threads := threads + 1;
      ready := ready + 1;
    }

    method Submit(fn: int)
      requires Valid()
      modifies this
      ensures Valid() && View() == Submitted(old(View()), fn) && warned == old(warned)
    {
      queue := queue + [fn];
      submitted := submitted + [fn];
      if idle == 0 && threads < maxWorkers + blocked {
        Spawn();
      }
    }

    /** The worker loop from the top of a turn: `fn` is what it goes on to run. */
    method TakeTurn() returns (took: bool, fn: int)
      requires Valid() && threads > 0
      modifies this
      ensures Valid() && View() == Turn(old(View())) && warned == old(warned)
      ensures took == (old(queue) != []) && (took ==> fn == old(queue)[0])
    {
      took, fn := false, 0;
      if queue == [] && !closed {
        idle := idle + 1;
        return;
      }
      if queue == [] {
        threads := threads - 1;
        return;
      }
      took, fn := true, queue[0];
      queue := queue[1..];
      running := running + {|popped|};
      popped := popped + [fn];
      active := active + 1;
    }

    method Arrive() returns (took: bool, fn: int)
      requires Valid() && ready > 0 && threads > 0
      modifies this
      ensures Valid() && View() == Arrived(old(View())) && warned == old(warned)
      ensures took == (old(queue) != []) && (took ==> fn == old(queue)[0])
    {
      ready := ready - 1;
      took, fn := TakeTurn();
    }

    method Wake() returns (took: bool, fn: int)
      requires Valid() && idle > 0 && threads > 0
      modifies this
      ensures Valid() && View() == Woken(old(View())) && warned == old(warned)
      ensures took == (old(queue) != []) && (took ==> fn == old(queue)[0])
    {
      idle := idle - 1;
      if queue == [] && threads > maxWorkers {
        threads := threads - 1;
        return false, 0;
      }
      took, fn := TakeTurn();
    }

    method Finish(ghost f: nat)
      requires Valid() && f in running
      modifies this
      ensures Valid() && View() == Finished(old(View()), f) && warned == old(warned)
    {
      active := active - 1;
      running := running - {f};
      ready := ready + 1;
    }

    method CheckDeadlock()
      requires Valid()
      modifies this
      ensures Valid() && View() == Checked(old(View()))
      ensures warned == (old(warned) || Saturated(old(View())))
    {
      if active < maxWorkers + blocked || queue == [] {
        return;
      }
      warned := true;
      blocked := blocked + 1;
      Spawn();
    }

    /** A task asks for the result of another: it checks, then waits, unless the other is
        done. */
    method AwaitResult(ghost f: nat, ghost g: nat, done: bool)
      requires Valid() && done == Done(View(), g)
      modifies this
      ensures Valid() && View() == Waited(old(View()), f, g, true)
      ensures warned == (old(warned) || (!done && Saturated(old(View()))))
    {
      if !done {
        CheckDeadlock();
        waits := waits[f := g];
      }
    }
  }

  // -- Every interleaving --------------------------------------------------------------

  function Init(maxWorkers: nat): Pool {
    Pool(maxWorkers, [], 0, 0, 0, {}, map[], 0, false, [], [])
  }

  datatype Step =
    | Submit(fn: int)
    | Arrive
    | Wake
    | Finish(f: nat)
    | Wait(f: nat, g: nat, checks: bool)
    | Shutdown
    | Start

  predicate Enabled(p: Pool, step: Step) {
    match step
    case Submit(_) => true
    case Arrive => p.ready > 0 && p.threads > 0
    case Wake => p.idle > 0 && p.threads > 0
    case Finish(f) => f in p.running && !Blocked(p, f)
    case Wait(f, g, _) => f in p.running && !Blocked(p, f) && g < |p.submitted|
    case Shutdown => true
    case Start => true
  }

  function Do(p: Pool, step: Step): Pool
    requires Enabled(p, step)
  {
    match step
    case Submit(fn) => Submitted(p, fn)
    case Arrive => Arrived(p)
    case Wake => Woken(p)
    case Finish(f) => Finished(p, f)
    case Wait(f, g, checks) => Waited(p, f, g, checks)
    case Shutdown => p.(closed := true)
    case Start => p.(closed := false)
  }

  function Next(p: Pool, step: Step): Pool {
    if Enabled(p, step) then Do(p, step) else p
  }

  function Run(p: Pool, steps: seq<Step>): Pool {
    if steps == [] then p else Next(Run(p, steps[..|steps| - 1]), steps[|steps| - 1])
  }

  lemma RunAppend(p: Pool, steps: seq<Step>, step: Step)
    ensures Run(p, steps + [step]) == Next(Run(p, steps), step)
  {
    assert (steps + [step])[..|steps|] == steps;
  }

  ghost predicate Inv(p: Pool) {
    && p.maxWorkers >= 1
    && p.threads == p.ready + p.idle + |p.running|
    && p.threads <= Capacity(p)
    && (p.queue != [] ==> p.threads >= 1)
    && p.submitted == p.popped + p.queue
    && (forall f :: f in p.running ==> f < |p.popped|)
    && (forall f :: f in p.waits ==> f < |p.popped|)
  }

  lemma TurnKeeps(p: Pool)
    requires p.threads == p.ready + p.idle + |p.running| + 1 && Inv(p.(ready := p.ready + 1))
    ensures Inv(Turn(p))
  {
    if p.queue != [] {
      assert |p.popped| !in p.running;
      assert p.popped + p.queue == (p.popped + [p.queue[0]]) + p.queue[1..];
    }
  }

  lemma SubmitKeeps(p: Pool, fn: int)
    requires Inv(p)
    ensures Inv(Submitted(p, fn))
  {
    assert (p.popped + p.queue) + [fn] == p.popped + (p.queue + [fn]);
  }

  lemma FinishKeeps(p: Pool, f: nat)
    requires Inv(p) && f in p.running
    ensures Inv(Finished(p, f))
  {
    assert |p.running - {f}| == |p.running| - 1;
  }

  lemma WaitKeeps(p: Pool, f: nat, g: nat, checks: bool)
    requires Inv(p) && f in p.running
    ensures Inv(Waited(p, f, g, checks))
  {
  }

  lemma StepKeeps(p: Pool, step: Step)
    requires Inv(p)
    ensures Inv(Next(p, step))
  {
    if Enabled(p, step) {
      match step
      case Submit(fn) => SubmitKeeps(p, fn);
      case Arrive => TurnKeeps(p.(ready := p.ready - 1));
      case Wake =>
        if p.queue == [] && p.threads > p.maxWorkers {
        } else {
          WokenTurn(p);
        }
      case Finish(f) => FinishKeeps(p, f);
      case Wait(f, g, checks) => WaitKeeps(p, f, g, checks);
      case Shutdown =>
      case Start =>
    }
  }

  lemma WokenTurn(p: Pool)
    requires Inv(p) && p.idle > 0
    ensures Inv(Turn(p.(idle := p.idle - 1)))
  {
    TurnKeeps(p.(idle := p.idle - 1));
  }

  /** In every reachable state: workers are counted right and never exceed the capacity,
      queued work has a live worker, and functions are taken in the order submitted,
      each exactly once. */
  lemma {:induction false} ReachableKeeps(maxWorkers: nat, steps: seq<Step>)
    requires maxWorkers >= 1
    ensures Inv(Run(Init(maxWorkers), steps))
  {
    if steps != [] {
      ReachableKeeps(maxWorkers, steps[..|steps| - 1]);
      StepKeeps(Run(Init(maxWorkers), steps[..|steps| - 1]), steps[|steps| - 1]);
    }
  }

  /** A worker only ever ends when nothing is queued, so once all have ended everything
      submitted has been taken, shutdown or not. */
  lemma DrainedBeforeWorkersEnd(maxWorkers: nat, steps: seq<Step>, step: Step)
    requires maxWorkers >= 1
    ensures var p := Run(Init(maxWorkers), steps);
            && (Next(p, step).threads < p.threads ==> p.queue == [])
            && (p.threads == 0 ==> p.popped == p.submitted)
  {
    ReachableKeeps(maxWorkers, steps);
    var p := Run(Init(maxWorkers), steps);
    assert p.popped + [] == p.popped;
  }

  /** A worker ends exactly when it looks for work, finds none, and the pool is closed or it
      has just woken as one too many. */
  lemma WorkerEndsExactly(p: Pool, step: Step)
    requires Inv(p) && Enabled(p, step)
    ensures Do(p, step).threads < p.threads
       <==> && (step.Arrive? || step.Wake?) && p.queue == []
            && (p.closed || (step.Wake? && p.threads > p.maxWorkers))
  {
  }

  /** Closed, with nothing queued and nothing running. */
  predicate Over(p: Pool) { p.closed && p.queue == [] && p.running == {} }

  lemma OneEnds(p: Pool, step: Step, next: Pool)
    requires Inv(p) && Over(p) && p.threads > 0
    requires step == (if p.ready > 0 then Arrive else Wake) && next == Next(p, step)
    ensures Inv(next) && Over(next) && next.threads == p.threads - 1
  {
    StepKeeps(p, step);
  }

  /** In a closed pool with nothing left to do all the workers end, each at its next turn. */
  lemma {:induction false} ClosedPoolEnds(p: Pool, before: seq<Step>, q: Pool) returns (steps: seq<Step>)
    requires WorkersOnly(before) && Run(p, before) == q && Inv(q) && Over(q)
    ensures WorkersOnly(steps) && Run(p, steps).threads == 0 && |steps| == |before| + q.threads
    decreases q.threads
  {
    steps := before;
    if q.threads > 0 {
      var step := if q.ready > 0 then Arrive else Wake;
      var next := Next(q, step);
      OneEnds(q, step, next);
      RunAppend(p, before, step);
      steps := ClosedPoolEnds(p, before + [step], next);
    }
  }

  ghost predicate NoShutdown(steps: seq<Step>) {
    forall i :: 0 <= i < |steps| ==> !steps[i].Shutdown?
  }

  function Lasting(p: Pool): nat {
    if p.threads < p.maxWorkers then p.threads else p.maxWorkers
  }

  lemma OpenStep(p: Pool, step: Step, next: Pool)
    requires Inv(p) && !p.closed && !step.Shutdown? && next == Next(p, step)
    ensures !next.closed && next.maxWorkers == p.maxWorkers && Lasting(next) >= Lasting(p)
  {
  }

  /** A started pool, closed before or not, keeps its workers until it is shut down, up to
      the number it is meant to have. */
  lemma {:induction false} StartedKeepsWorkers(p: Pool, steps: seq<Step>, q: Pool)
    requires Inv(p) && NoShutdown(steps) && q == Run(Next(p, Start), steps)
    ensures Inv(q) && !q.closed && q.maxWorkers == p.maxWorkers && Lasting(q) >= Lasting(p)
  {
    if steps == [] {
      StepKeeps(p, Start);
    } else {
      var front, last := steps[..|steps| - 1], steps[|steps| - 1];
      var before := Run(Next(p, Start), front);
      StartedKeepsWorkers(p, front, before);
      StepKeeps(before, last);
      OpenStep(before, last, q);
    }
  }

  // -- When the workers are stuck ---------------------------------------------------------

  /** Work is queued, no worker is free, and every function that runs waits for one that
      has not finished. */
  ghost predicate Stuck(p: Pool) {
    p.queue != [] && !HasFreeWorker(p) && forall f :: f in p.running ==> Blocked(p, f)
  }

  /** Steps of workers alone: taking functions and finishing them. */
  ghost predicate WorkersOnly(steps: seq<Step>) {
    forall i :: 0 <= i < |steps| ==> steps[i].Arrive? || steps[i].Wake? || steps[i].Finish?
  }

  ghost predicate Drains(p: Pool, steps: seq<Step>) {
    WorkersOnly(steps) && Run(p, steps).queue == [] && Run(p, steps).popped == p.submitted
  }

  /** A free worker takes the oldest function queued, which waits for nothing yet. */
  lemma FreeWorkerTakes(p: Pool)
    requires Inv(p) && p.queue != [] && HasFreeWorker(p)
    ensures var q := Next(p, if p.ready > 0 then Arrive else Wake);
            && Inv(q) && q.queue == p.queue[1..] && q.submitted == p.submitted
            && |p.popped| in q.running && !Blocked(q, |p.popped|) && !Stuck(q)
  {
    StepKeeps(p, if p.ready > 0 then Arrive else Wake);
  }

  lemma {:induction false} DrainFrom(p: Pool, before: seq<Step>, q: Pool) returns (steps: seq<Step>)
    requires Inv(q) && !Stuck(q) && WorkersOnly(before) && Run(p, before) == q && q.submitted == p.submitted
    ensures Drains(p, steps)
    decreases |q.queue|, !HasFreeWorker(q)
  {
    if q.queue == [] {
      assert q.popped + [] == q.popped;
      return before;
    }
    var step := if q.ready > 0 then Arrive else Wake;
    if HasFreeWorker(q) {
      FreeWorkerTakes(q);
    } else {
      var f :| f in q.running && !Blocked(q, f);
      step := Finish(f);
      StepKeeps(q, step);
    }
    RunAppend(p, before, step);
    steps := DrainFrom(p, before + [step], Next(q, step));
  }

  lemma {:induction false} StuckStays(p: Pool, steps: seq<Step>)
    requires Stuck(p) && WorkersOnly(steps)
    ensures Run(p, steps) == p
  {
    if steps != [] {
      StuckStays(p, steps[..|steps| - 1]);
    }
  }

  /** The workers by themselves can get through everything submitted, closed or not, exactly
      when they are not stuck. */
  lemma DrainsExactlyUnlessStuck(p: Pool)
    requires Inv(p)
    ensures (exists steps :: Drains(p, steps)) <==> !Stuck(p)
  {
    if Stuck(p) {
      forall steps | WorkersOnly(steps) ensures !Drains(p, steps) {
        StuckStays(p, steps);
      }
    } else {
      var steps := DrainFrom(p, [], p);
    }
  }

  /** A function submitted after a shutdown is queued and, unless the workers are stuck,
      taken like any other. */
  lemma SubmitAfterShutdownRuns(p: Pool, fn: int) returns (steps: seq<Step>)
    requires Inv(p) && p.closed && !Stuck(Submitted(p, fn))
    ensures Drains(Submitted(p, fn), steps) && Submitted(p, fn).submitted == p.submitted + [fn]
  {
    StepKeeps(p, Submit(fn));
    assert Next(p, Submit(fn)) == Submitted(p, fn);
    steps := DrainFrom(Submitted(p, fn), [], Submitted(p, fn));
  }

  // -- Waiting inside a task ----------------------------------------------------------------

  /** A finished function is not waited for; any other is, whether or not the wait is checked. */
  lemma WaitsExactly(p: Pool, f: nat, g: nat, checks: bool)
    requires Enabled(p, Wait(f, g, checks))
    ensures var q := Do(p, Wait(f, g, checks));
            && (g < |p.popped| && g !in p.running ==> q == p)
            && (g >= |p.popped| || g in p.running ==> q.waits == p.waits[f := g] && Blocked(q, f))
            && (!checks ==> q.(waits := p.waits) == p)
            && q.running == p.running && q.queue == p.queue && q.popped == p.popped
  {
  }

  /** With work queued, the check leaves a worker free exactly when one was free before or
      the functions running had reached the capacity. */
  lemma CheckFreesExactly(p: Pool)
    requires Inv(p) && p.queue != []
    ensures HasFreeWorker(Checked(p)) <==> |p.running| < p.threads || |p.running| >= Capacity(p)
  {
  }

  /** A checked wait leaves the workers stuck exactly when no worker is free, the pool is
      below its capacity, work is queued, and the wait was the last function running free. */
  lemma WaitSticksExactly(p: Pool, f: nat, g: nat)
    requires Inv(p) && Enabled(p, Wait(f, g, true))
    ensures Stuck(Do(p, Wait(f, g, true))) <==>
              && p.queue != [] && !HasFreeWorker(p) && |p.running| < Capacity(p) && !Done(p, g)
              && forall k :: k in p.running && k != f ==> Blocked(p, k)
  {
    var q := Do(p, Wait(f, g, true));
    if !Done(p, g) {
      assert forall k :: k in p.running && k != f ==> (Blocked(q, k) <==> Blocked(p, k));
      assert Blocked(q, f);
    } else {
      assert !Blocked(q, f);
    }
  }

  // -- Submissions that are safe ----------------------------------------------------------------

  /** The submission starts a worker, or the pool is at its capacity, or a free worker is
      left for it when each function queued before has got one. */
  predicate Prompt(p: Pool) {
    p.idle == 0 || p.threads >= Capacity(p) || |p.queue| < p.idle + p.ready
  }

  /** Every function queued has a free worker coming, or the pool is at its capacity. */
  predicate Covered(p: Pool) {
    |p.queue| <= p.idle + p.ready || p.threads >= Capacity(p)
  }

  /** Functions wait only for later submissions, as a task does for tasks it submitted. */
  ghost predicate WaitsForward(p: Pool) {
    forall f :: f in p.waits ==> f < p.waits[f] < |p.submitted|
  }

  ghost predicate Flowing(p: Pool) { Inv(p) && Covered(p) && WaitsForward(p) && !Stuck(p) }

  /** Submissions are prompt, waits are for later submissions and check first. */
  predicate CarefulStep(p: Pool, step: Step) {
    && (step.Submit? ==> Prompt(p))
    && (step.Wait? ==> step.f < step.g && step.checks)
  }

  predicate CarefulRun(p: Pool, steps: seq<Step>) {
    steps == [] ||
    (CarefulRun(p, steps[..|steps| - 1]) && CarefulStep(Run(p, steps[..|steps| - 1]), steps[|steps| - 1]))
  }

  lemma CoveredStep(p: Pool, step: Step)
    requires Inv(p) && Covered(p) && CarefulStep(p, step)
    ensures Covered(Next(p, step))
  {
  }

  lemma ForwardStep(p: Pool, step: Step)
    requires Inv(p) && WaitsForward(p) && CarefulStep(p, step)
    ensures WaitsForward(Next(p, step))
  {
  }

  lemma {:induction false} Latest(running: set<nat>) returns (f: nat)
    requires running != {}
    ensures f in running && forall k :: k in running ==> k <= f
  {
    var x :| x in running;
    var rest := running - {x};
    assert forall k :: k in running ==> k == x || k in rest;
    if rest == {} {
      f := x;
    } else {
      var y := Latest(rest);
      f := if x < y then y else x;
    }
  }

  /** With nothing queued, the last function submitted of those running is not blocked. */
  lemma SomeoneMoves(p: Pool)
    requires Inv(p) && WaitsForward(p) && p.queue == [] && p.running != {}
    ensures exists f :: f in p.running && !Blocked(p, f)
  {
    var f := Latest(p.running);
    assert |p.submitted| == |p.popped|;
    assert f in p.waits ==> p.waits[f] !in p.running;
    assert !Blocked(p, f);
  }

  lemma SubmitFlows(p: Pool, fn: int)
    requires Flowing(p) && Prompt(p)
    ensures !Stuck(Submitted(p, fn))
  {
    var q := Submitted(p, fn);
    if !HasFreeWorker(q) {
      assert p.running != {} && q.running == p.running && q.waits == p.waits && q.popped == p.popped;
      if p.queue == [] {
        SomeoneMoves(p);
      }
      var f :| f in p.running && !Blocked(p, f);
      assert !Blocked(q, f);
    }
  }

  lemma FlowingStep(p: Pool, step: Step)
    requires Flowing(p) && CarefulStep(p, step)
    ensures Flowing(Next(p, step))
  {
    StepKeeps(p, step);
    CoveredStep(p, step);
    ForwardStep(p, step);
    if Enabled(p, step) {
      match step
      case Submit(fn) => SubmitFlows(p, fn);
      case Arrive =>
        if p.queue != [] {
          FreeWorkerRunsNew(p.(ready := p.ready - 1));
        }
      case Wake =>
        if p.queue != [] {
          FreeWorkerRunsNew(p.(idle := p.idle - 1));
        }
      case Wait(f, g, checks) => WaitSticksExactly(p, f, g);
      case _ =>
    }
  }

  lemma FreeWorkerRunsNew(p: Pool)
    requires p.threads > 0 && p.queue != [] && forall f :: f in p.waits ==> f < |p.popped|
    ensures !Stuck(Turn(p))
  {
    var q := Turn(p);
    assert |p.popped| in q.running && !Blocked(q, |p.popped|);
  }

  lemma {:induction false} FlowingRun(p: Pool, steps: seq<Step>)
    requires Flowing(p) && CarefulRun(p, steps)
    ensures Flowing(Run(p, steps))
  {
    if steps != [] {
      FlowingRun(p, steps[..|steps| - 1]);
      FlowingStep(Run(p, steps[..|steps| - 1]), steps[|steps| - 1]);
    }
  }

  /** With prompt submissions, and checked waits for later ones, the workers are never
      stuck: everything submitted can be run. */
  lemma CarefulRunsNeverStick(maxWorkers: nat, steps: seq<Step>)
    requires maxWorkers >= 1 && CarefulRun(Init(maxWorkers), steps)
    ensures !Stuck(Run(Init(maxWorkers), steps))
  {
    FlowingRun(Init(maxWorkers), steps);
  }

  lemma {:induction false} CarefulAppend(p: Pool, steps: seq<Step>, step: Step)
    requires CarefulRun(p, steps) && CarefulStep(Run(p, steps), step)
    ensures CarefulRun(p, steps + [step]) && Run(p, steps + [step]) == Next(Run(p, steps), step)
  {
    RunAppend(p, steps, step);
    assert (steps + [step])[..|steps|] == steps;
  }

  /** More is queued than free workers are left for, and the pool is below its capacity. */
  predicate Short(p: Pool) {
    |p.queue| > p.idle + p.ready && p.threads < Capacity(p)
  }

  /** All free workers take a function, and something stays queued. */
  lemma {:induction false} AllTake(p: Pool, before: seq<Step>, q: Pool) returns (steps: seq<Step>)
    requires Inv(q) && Short(q) && CarefulRun(p, before) && Run(p, before) == q && WaitsForward(q)
    ensures CarefulRun(p, steps)
    ensures var r := Run(p, steps);
            Inv(r) && Short(r) && WaitsForward(r) && !HasFreeWorker(r)
    decreases q.idle + q.ready
  {
    if !HasFreeWorker(q) {
      return before;
    }
    var step := if q.ready > 0 then Arrive else Wake;
    StepKeeps(q, step);
    ForwardStep(q, step);
    CarefulAppend(p, before, step);
    steps := AllTake(p, before + [step], Next(q, step));
  }

  /** The functions that run and could go on. */
  ghost function Free(p: Pool): set<nat> { set f | f in p.running && !Blocked(p, f) }

  /** One more function waits for the last one queued; below its capacity the pool adds no
      worker. */
  lemma OneWaits(q: Pool, f: nat)
    requires Inv(q) && Short(q) && !HasFreeWorker(q) && f in Free(q)
    ensures var r := Next(q, Wait(f, |q.submitted| - 1, true));
            && CarefulStep(q, Wait(f, |q.submitted| - 1, true))
            && Inv(r) && Short(r) && !HasFreeWorker(r) && Free(r) == Free(q) - {f}
  {
    var g := |q.submitted| - 1;
    StepKeeps(q, Wait(f, g, true));
    assert |q.popped| <= g && f < |q.popped|;
    var r := Next(q, Wait(f, g, true));
    assert r == q.(waits := q.waits[f := g]);
    assert Blocked(r, f) && forall k :: k in q.running && k != f ==> (Blocked(r, k) <==> Blocked(q, k));
  }

  lemma {:induction false} AllWait(p: Pool, before: seq<Step>, q: Pool) returns (steps: seq<Step>)
    requires Inv(q) && Short(q) && !HasFreeWorker(q) && CarefulRun(p, before) && Run(p, before) == q
    ensures CarefulRun(p, steps) && Stuck(Run(p, steps))
    decreases Free(q)
  {
    if Free(q) == {} {
      assert forall f :: f in q.running && !Blocked(q, f) ==> f in Free(q);
      return before;
    }
    var f :| f in Free(q);
    OneWaits(q, f);
    var step := Wait(f, |q.submitted| - 1, true);
    CarefulAppend(p, before, step);
    steps := AllWait(p, before + [step], Next(q, step));
  }

  ghost predicate NeverSticks(p: Pool) {
    forall steps :: CarefulRun(p, steps) ==> !Stuck(Run(p, steps))
  }

  /** A submission leaves the workers such that they are never stuck, whatever careful steps
      follow, exactly when it is prompt. The source starts a worker only when none is idle,
      and counts a worker idle until it has woken, so a submission need not be prompt. */
  lemma SubmitSafeExactlyWhenPrompt(p: Pool, fn: int)
    requires Flowing(p)
    ensures Prompt(p) <==> NeverSticks(Submitted(p, fn))
  {
    var q := Submitted(p, fn);
    assert Next(p, Submit(fn)) == q;
    if Prompt(p) {
      FlowingStep(p, Submit(fn));
      forall steps | CarefulRun(q, steps) ensures !Stuck(Run(q, steps)) {
        FlowingRun(q, steps);
      }
    } else {
      StepKeeps(p, Submit(fn));
      var taking := AllTake(q, [], q);
      var steps := AllWait(q, taking, Run(q, taking));
    }
  }

  // -- Runs in which the workers are stuck -------------------------------------------------------

  lemma Extends(p: Pool, steps: seq<Step>, q: Pool, step: Step, r: Pool)
    requires Run(p, steps) == q && Next(q, step) == r
    ensures Run(p, steps + [step]) == r
  {
    RunAppend(p, steps, step);
  }

  lemma OneBusy(p0: Pool, none: seq<Step>) returns (steps: seq<Step>)
    requires p0 == Pool(p0.maxWorkers, [], 0, 0, 0, {}, map[], 0, false, [], []) && p0.maxWorkers >= 1
             && Run(p0, none) == p0
    ensures Run(p0, steps) == p0.(threads := 1, running := {0}, submitted := [0], popped := [0])
  {
    var q1 := p0.(queue := [0], submitted := [0], threads := 1, ready := 1);
    var q2 := q1.(queue := [], popped := [0], ready := 0, running := {0});
    Extends(p0, none, p0, Submit(0), q1);
    assert q1.queue[1..] == [];
    Extends(p0, none + [Submit(0)], q1, Arrive, q2);
    steps := none + [Submit(0)] + [Arrive];
  }

  lemma OneIdleOneBusy(p0: Pool) returns (steps: seq<Step>)
    requires p0 == Pool(3, [], 0, 0, 0, {}, map[], 0, false, [], [])
    ensures Run(p0, steps) == Pool(3, [], 2, 1, 0, {0}, map[], 0, false, [0, 1], [0, 1])
  {
    var one := OneBusy(p0, []);
    var q := p0.(threads := 1, running := {0}, submitted := [0], popped := [0]);
    var q1 := q.(queue := [1], submitted := [0, 1], threads := 2, ready := 1);
    var q2 := q1.(queue := [], popped := [0, 1], ready := 0, running := {0, 1});
    var q3 := q2.(running := {0}, ready := 1);
    var q4 := q3.(ready := 0, idle := 1);
    Extends(p0, one, q, Submit(1), q1);
    assert q1.queue[1..] == [];
    Extends(p0, one + [Submit(1)], q1, Arrive, q2);
    assert {0, 1} - {1} == {0};
    Extends(p0, one + [Submit(1)] + [Arrive], q2, Finish(1), q3);
    Extends(p0, one + [Submit(1)] + [Arrive] + [Finish(1)], q3, Arrive, q4);
    steps := one + [Submit(1)] + [Arrive] + [Finish(1)] + [Arrive];
  }

  /** The pool with both workers busy and function 3 queued behind them. */
  function Underspawned(p0: Pool): Pool {
    p0.(queue := [3], threads := 2, running := {0, 2}, submitted := [0, 1, 2, 3], popped := [0, 1, 2])
  }

  /** Two functions submitted while the one idle worker has been notified but not woken: no
      worker is started for the second. */
  lemma SubmittedTooSoon(p0: Pool) returns (steps: seq<Step>)
    requires p0 == Pool(3, [], 0, 0, 0, {}, map[], 0, false, [], [])
    ensures Run(p0, steps) == Underspawned(p0)
  {
    var two := OneIdleOneBusy(p0);
    var q := Pool(3, [], 2, 1, 0, {0}, map[], 0, false, [0, 1], [0, 1]);
    var q1 := q.(queue := [2], submitted := [0, 1, 2]);
    var q2 := q1.(queue := [2, 3], submitted := [0, 1, 2, 3]);
    Extends(p0, two, q, Submit(2), q1);
    Extends(p0, two + [Submit(2)], q1, Submit(3), q2);
    assert q2.queue[1..] == [3] && q2.popped + [2] == [0, 1, 2] && {0} + {2} == {0, 2};
    Extends(p0, two + [Submit(2)] + [Submit(3)], q2, Wake, Underspawned(p0));
    steps := two + [Submit(2)] + [Submit(3)] + [Wake];
  }

  lemma BothWait(p0: Pool, three: seq<Step>, q: Pool) returns (steps: seq<Step>)
    requires Run(p0, three) == q && q.queue != [] && q.ready + q.idle == 0 && q.running == {0, 2} && q.waits == map[]
    requires 2 < Capacity(q) && |q.popped| == 3 < |q.submitted|
    ensures var p := Run(p0, steps);
            Stuck(p) && p.queue == q.queue && p.threads == q.threads && Capacity(p) == Capacity(q)
  {
    assert |q.running| == 2;
    var r := q.(waits := map[0 := 3]);
    var t := r.(waits := map[0 := 3, 2 := 3]);
    Extends(p0, three, q, Wait(0, 3, true), r);
    Extends(p0, three + [Wait(0, 3, true)], r, Wait(2, 3, true), t);
    steps := three + [Wait(0, 3, true)] + [Wait(2, 3, true)];
  }

  /** The first function is taken, both functions that run wait for the second, checking
      first, and no worker is added although three are allowed. */
  lemma CheckedWaitsStick() returns (steps: seq<Step>)
    ensures var p := Run(Init(3), steps);
            Stuck(p) && p.queue == [3] && p.threads == 2 < Capacity(p)
  {
    var three := SubmittedTooSoon(Init(3));
    steps := BothWait(Init(3), three, Underspawned(Init(3)));
  }

  lemma OnlyOneWaits(p0: Pool) returns (steps: seq<Step>)
    requires p0 == Pool(1, [], 0, 0, 0, {}, map[], 0, false, [], [])
    ensures Run(p0, steps) == p0.(queue := [1], threads := 1, running := {0}, waits := map[0 := 1],
                                  submitted := [0, 1], popped := [0])
  {
    var one := OneBusy(p0, []);
    var q := p0.(threads := 1, running := {0}, submitted := [0], popped := [0]);
    var q1 := q.(queue := [1], submitted := [0, 1]);
    var q2 := q1.(waits := map[0 := 1]);
    Extends(p0, one, q, Submit(1), q1);
    Extends(p0, one + [Submit(1)], q1, Wait(0, 1, false), q2);
    steps := one + [Submit(1)] + [Wait(0, 1, false)];
  }

  /** Asking for the exception of a task waits without the check: with one worker, a task
      that does so for a task it submitted is stuck at once. */
  lemma UncheckedWaitSticks() returns (steps: seq<Step>)
    ensures var p := Run(Init(1), steps);
            Stuck(p) && p.threads == Capacity(p) == 1
  {
    steps := OnlyOneWaits(Init(1));
  }

  lemma ClosedRuns(p0: Pool, none: seq<Step>, fn: int) returns (steps: seq<Step>)
    requires p0 == Pool(1, [], 0, 0, 0, {}, map[], 0, false, [], []) && Run(p0, none) == p0
    ensures steps == none + [Shutdown] + [Submit(fn)] + [Arrive]
    ensures Run(p0, steps) == p0.(closed := true, threads := 1, running := {0}, submitted := [fn], popped := [fn])
  {
    var p1 := p0.(closed := true);
    var p2 := p1.(queue := [fn], submitted := [fn], threads := 1, ready := 1);
    Extends(p0, none, p0, Shutdown, p1);
    Extends(p0, none + [Shutdown], p1, Submit(fn), p2);
    assert p2.queue[1..] == [];
    Extends(p0, none + [Shutdown] + [Submit(fn)], p2, Arrive,
            p2.(queue := [], popped := [fn], ready := 0, running := {0}));
    steps := none + [Shutdown] + [Submit(fn)] + [Arrive];
  }

  /** A function submitted to a pool that was shut down, and run. */
  lemma SubmittedToClosedPool(fn: int)
    ensures var p := Run(Init(1), [Shutdown, Submit(fn), Arrive]);
            p.closed && p.popped == [fn]
  {
    var steps := ClosedRuns(Init(1), [], fn);
    assert steps == [Shutdown, Submit(fn), Arrive];
  }
}
