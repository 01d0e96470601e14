/** The effect journal over whole histories: passes, reports, lost processes, crash reruns
    and retries from failure of one flow body (python/cereyan/engine/runner.py, `effects`
    in crates/store/src/read.rs). */
module JournalRuns {
  import opened Basics
  import opened Journal

  // -- Any run of passes, reports, crashes, reruns and retries ---------------------------

  /** A line of runs: the current run, the rows the store has, those still buffered in
      the process, the journal in the process's memory, and of the current crash chain its
      first run, how many rows came before it, and the seed that stands for them. */
  datatype World = World(run: nat, stored: seq<Row>, unsent: seq<Row>, memory: map<Slot, Known>,
                         first: nat, from: nat, seed: map<Slot, Row>)

  /** A pass makes the body's first calls, up to where it fails, suspends or returns; a
      flush stores the oldest buffered rows; a process that is lost takes its buffer
      with it, and the run is resumed, or a crash rerun starts in its place, or a retry
      from failure starts a chain of its own with a seed. */
  datatype Action = Pass(upto: nat, refs: seq<Option<string>>) | Flush(count: nat) | Resume | Rerun | Retry

  function StartContext(memory: map<Slot, Known>): Context {
    Context(0, map[], map[], memory, 0, true)
  }

  /** What the store reads for a run of the current chain. */
  function ReadChain(w: World, run: nat): map<Slot, Row> {
    ReadEffects(w.seed, w.first, if w.from <= |w.stored| then w.stored[w.from..] else [], run)
  }

  /** A new process works for `run`: what was not stored is lost. */
  function Restarted(w: World, run: nat): World {
    w.(run := run, unsent := [], memory := StartJournal(ReadChain(w, run), run))
  }

  predicate Enabled(w: World, body: seq<Call>, action: Action) {
    match action
    case Pass(upto, refs) => upto <= |body| == |refs|
    case Flush(count) => count <= |w.unsent|
    case Resume => true
    case Rerun => true
    case Retry => true
  }

  function Do(w: World, body: seq<Call>, action: Action): World
    requires Enabled(w, body, action)
  {
    match action
    case Pass(upto, refs) =>
      var p := RunPass(StartContext(w.memory), w.run, body, upto, refs);
      w.(unsent := w.unsent + p.performed, memory := p.ctx.effects)
    case Flush(count) => w.(stored := w.stored + w.unsent[..count], unsent := w.unsent[count..])
    case Resume => Restarted(w, w.run)
    case Rerun => Restarted(w, w.run + 1)
    case Retry =>
      Restarted(w.(first := w.run + 1, from := |w.stored|, seed := RetrySeed(ReadChain(w, w.run))), w.run + 1)
  }

  /** The world after some actions, from a first run with an empty journal; an action
      that cannot be taken changes nothing. */
  function After(body: seq<Call>, actions: seq<Action>): World
    decreases |actions|
  {
    if actions == [] then World(0, [], [], map[], 0, 0, map[])
    else
      var w, action := After(body, actions[..|actions| - 1]), actions[|actions| - 1];
      if Enabled(w, body, action) then Do(w, body, action) else w
  }

  /** Crash reruns happen only while everything is in reach. */
  ghost predicate CarefulStep(w: World, action: Action) {
    action.Rerun? ==> InReach(Latest(w.stored), w.first, w.run + 1)
  }

  ghost predicate Careful(body: seq<Call>, actions: seq<Action>)
    decreases |actions|
  {
    actions == [] ||
    var front := actions[..|actions| - 1];
    Careful(body, front) && CarefulStep(After(body, front), actions[|actions| - 1])
  }

  /** This run's artifacts, and the chain's other effects, happened once each, in
      order, none left out before one that happened. */
  ghost predicate OnceInOrder(log: seq<Row>, body: seq<Call>, run: nat) {
    exists others, artifacts :: InOrder(log, body, run, others, artifacts)
  }

  /** The seed stands for the rows before the current chain, and nothing is out of reach. */
  ghost predicate Seeded(w: World) {
    && w.first <= w.run && w.from <= |w.stored|
    && ChainOf(w.stored[..w.from], w.stored[w.from..], w.first)
    && w.seed == RetrySeed(Latest(w.stored[..w.from]))
    && InReach(Latest(w.stored), w.first, w.run)
  }

  /** The log of a line of runs up to `run`, and the journal of that run. */
  ghost predicate Sound(log: seq<Row>, memory: map<Slot, Known>, run: nat, body: seq<Call>) {
    && Placed(log, body, Slots(body), run)
    && memory == JournalOf(log, run)
    && forall r | 0 <= r <= run :: OnceInOrder(log, body, r)
  }

  ghost predicate Kept(w: World, body: seq<Call>) {
    match w
    case World(run, stored, unsent, memory, _, _, _) =>
      && Seeded(w) && Sound(stored + unsent, memory, run, body)
      && forall k :: 0 <= k < |unsent| ==> unsent[k].run == run
  }

  /** Part of a log in order is itself in order. */
  lemma {:induction false} PrefixOfCalls(body: seq<Call>, artifacts: bool, n: nat, part: seq<nat>) returns (m: nat)
    requires n <= |body| && part <= CallsBelow(body, artifacts, n)
    ensures m <= n && part == CallsBelow(body, artifacts, m)
  {
    if part == CallsBelow(body, artifacts, n) {
      m := n;
    } else {
      m := PrefixOfCalls(body, artifacts, n - 1, part);
    }
  }

  lemma {:induction false} PerformedPrefix(log: seq<Row>, k: nat, artifacts: bool, run: nat)
    requires k <= |log|
    ensures Performed(log[..k], artifacts, run) <= Performed(log, artifacts, run)
    decreases |log|
  {
    if k == |log| {
      assert log[..k] == log;
    } else {
      PerformedPrefix(log[..|log| - 1], k, artifacts, run);
      assert log[..|log| - 1][..k] == log[..k];
    }
  }

  lemma {:induction false} PrefixInOrder(log: seq<Row>, k: nat, body: seq<Call>, run: nat)
    requires k <= |log| && OnceInOrder(log, body, run)
    ensures OnceInOrder(log[..k], body, run)
  {
    var n, a :| InOrder(log, body, run, n, a);
    PerformedPrefix(log, k, false, run);
    PerformedPrefix(log, k, true, run);
    var n' := PrefixOfCalls(body, false, n, Performed(log[..k], false, run));
    var a' := PrefixOfCalls(body, true, a, Performed(log[..k], true, run));
    assert InOrder(log[..k], body, run, n', a');
  }

  lemma {:induction false} OthersShared(log: seq<Row>, run1: nat, run2: nat)
    ensures Performed(log, false, run1) == Performed(log, false, run2)
    decreases |log|
  {
    if log != [] {
      OthersShared(log[..|log| - 1], run1, run2);
    }
  }

  lemma {:induction false} ArtifactsKept(log: seq<Row>, added: seq<Row>, run: nat)
    requires forall k :: 0 <= k < |added| ==> added[k].run != run
    ensures Performed(log + added, true, run) == Performed(log, true, run)
    decreases |added|
  {
    if added == [] {
      assert log + added == log;
    } else {
      var front := added[..|added| - 1];
      ArtifactsKept(log, front, run);
      assert (log + added)[..|log + added| - 1] == log + front;
    }
  }

  lemma {:induction false} PassRowsAreTheRuns(ctx: Context, run: nat, body: seq<Call>, upto: nat,
                                              refs: seq<Option<string>>)
    requires upto <= |body| == |refs|
    ensures forall k :: 0 <= k < |RunPass(ctx, run, body, upto, refs).performed| ==>
              RunPass(ctx, run, body, upto, refs).performed[k].run == run
    decreases upto
  {
    if upto > 0 {
      PassRowsAreTheRuns(ctx, run, body, upto - 1, refs);
    }
  }

  lemma {:induction false} PassInOrder(w: World, body: seq<Call>, upto: nat, refs: seq<Option<string>>, run: nat)
    requires Kept(w, body) && upto <= |body| == |refs| && run <= w.run
    ensures var p := RunPass(StartContext(w.memory), w.run, body, upto, refs);
            OnceInOrder(w.stored + w.unsent + p.performed, body, run)
  {
    var all := w.stored + w.unsent;
    var more := all + RunPass(StartContext(w.memory), w.run, body, upto, refs).performed;
    assert OnceInOrder(all, body, w.run) && OnceInOrder(all, body, run);
    var n, a :| InOrder(all, body, w.run, n, a);
    PassPerformsTheRest(StartContext(w.memory), w.run, body, Slots(body), upto, refs,
                        RunPass(StartContext(w.memory), w.run, body, upto, refs), all, more, n, a);
    var n', a' := Max(n, upto), Max(a, upto);
    assert InOrder(more, body, w.run, n', a');
    if run < w.run {
      var m, b :| InOrder(all, body, run, m, b);
      PassRowsAreTheRuns(StartContext(w.memory), w.run, body, upto, refs);
      ArtifactsKept(all, RunPass(StartContext(w.memory), w.run, body, upto, refs).performed, run);
      OthersShared(more, run, w.run);
      assert InOrder(more, body, run, n', b);
    }
  }

  lemma {:induction false} PassPlaces(w: World, body: seq<Call>, upto: nat, refs: seq<Option<string>>)
    requires Kept(w, body) && upto <= |body| == |refs|
    ensures var p := RunPass(StartContext(w.memory), w.run, body, upto, refs);
            var all := w.stored + w.unsent + p.performed;
            Placed(all, body, Slots(body), w.run) && p.ctx.effects == JournalOf(all, w.run)
  {
    var all := w.stored + w.unsent;
    assert OnceInOrder(all, body, w.run);
    var n, a :| InOrder(all, body, w.run, n, a);
    PassPerformsTheRest(StartContext(w.memory), w.run, body, Slots(body), upto, refs,
                        RunPass(StartContext(w.memory), w.run, body, upto, refs), all,
                        all + RunPass(StartContext(w.memory), w.run, body, upto, refs).performed, n, a);
  }

  lemma {:induction false} PassSound(w: World, body: seq<Call>, upto: nat, refs: seq<Option<string>>, p: Progress,
                                     all: seq<Row>)
    requires Kept(w, body) && upto <= |body| == |refs| && p == RunPass(StartContext(w.memory), w.run, body, upto, refs)
    requires all == w.stored + w.unsent + p.performed
    ensures Sound(all, p.ctx.effects, w.run, body)
  {
    PassPlaces(w, body, upto, refs);
    forall run | 0 <= run <= w.run ensures OnceInOrder(all, body, run) {
      PassInOrder(w, body, upto, refs, run);
    }
  }

  lemma {:induction false} PassKeeps(w: World, next: World, body: seq<Call>, upto: nat, refs: seq<Option<string>>,
                                     p: Progress)
    requires Kept(w, body) && upto <= |body| == |refs| && p == RunPass(StartContext(w.memory), w.run, body, upto, refs)
    requires next == w.(unsent := w.unsent + p.performed, memory := p.ctx.effects)
    ensures Kept(next, body)
  {
    ConcatAssociates(w.stored, w.unsent, p.performed);
    PassSound(w, body, upto, refs, p, w.stored + w.unsent + p.performed);
    PassRowsAreTheRuns(StartContext(w.memory), w.run, body, upto, refs);
    assert Seeded(next);
  }

  lemma {:induction false} PlacedPrefix(log: seq<Row>, k: nat, body: seq<Call>, slots: seq<Slot>, run: nat)
    requires k <= |log| && Placed(log, body, slots, run)
    ensures Placed(log[..k], body, slots, run)
  {
  }

  /** Losing the process: what the store has is a prefix of what happened. */
  lemma {:induction false} PrefixSound(log: seq<Row>, k: nat, memory: map<Slot, Known>, run: nat, next: nat,
                                       body: seq<Call>)
    requires Sound(log, memory, run, body) && k <= |log| && run <= next <= run + 1
    ensures Sound(log[..k], JournalOf(log[..k], next), next, body)
  {
    PlacedPrefix(log, k, body, Slots(body), run);
    forall r | 0 <= r <= next ensures OnceInOrder(log[..k], body, r) {
      assert OnceInOrder(log, body, if r <= run then r else run);
      PrefixInOrder(log, k, body, if r <= run then r else run);
      if r > run {
        NewRunInOrder(log[..k], body, run);
      }
    }
  }

  lemma {:induction false} NewRunInOrder(log: seq<Row>, body: seq<Call>, run: nat)
    requires Placed(log, body, Slots(body), run) && OnceInOrder(log, body, run)
    ensures OnceInOrder(log, body, run + 1)
  {
    var n, a :| InOrder(log, body, run, n, a);
    OthersShared(log, run, run + 1);
    PerformedEarlier(log, run + 1);
    assert InOrder(log, body, run + 1, n, 0);
  }

  /** What a process reads when it starts is the journal of everything stored. */
  lemma {:induction false} ReadsJournal(w: World, run: nat)
    requires Seeded(w) && w.run <= run && InReach(Latest(w.stored), w.first, run)
    ensures StartJournal(ReadChain(w, run), run) == JournalOf(w.stored, run)
  {
    assert w.stored[..w.from] + w.stored[w.from..] == w.stored;
    JournalReadExactly(w.stored[..w.from], w.stored[w.from..], w.first, run);
  }

  lemma {:induction false} RestartSound(w: World, next: World, body: seq<Call>)
    requires Kept(w, body) && next.stored == w.stored && next.unsent == [] && w.run <= next.run <= w.run + 1
    requires next.memory == JournalOf(w.stored, next.run)
    ensures Sound(next.stored + next.unsent, next.memory, next.run, body)
  {
    var all := w.stored + w.unsent;
    assert all[..|w.stored|] == w.stored && w.stored + [] == w.stored;
    PrefixSound(all, |w.stored|, w.memory, w.run, next.run, body);
  }

  lemma {:induction false} LossKeeps(w: World, next: World, body: seq<Call>, run: nat)
    requires Kept(w, body) && w.run <= run <= w.run + 1 && next == Restarted(w, run)
    requires InReach(Latest(w.stored), w.first, run)
    ensures Kept(next, body)
  {
    ReadsJournal(w, run);
    RestartSound(w, next, body);
  }

  lemma {:induction false} RunsSoFar(w: World, body: seq<Call>)
    requires Kept(w, body)
    ensures forall k :: 0 <= k < |w.stored| ==> w.stored[k].run <= w.run
  {
    assert forall k :: 0 <= k < |w.stored| ==> (w.stored + w.unsent)[k] == w.stored[k];
  }

  /** The seed of a retry stands for all that was stored. */
  lemma {:induction false} RetrySeeded(w: World, next: World)
    requires Seeded(w) && next.stored == w.stored && next.run == next.first == w.run + 1
    requires next.from == |w.stored| && next.seed == RetrySeed(ReadChain(w, w.run))
    requires forall k :: 0 <= k < |w.stored| ==> w.stored[k].run <= w.run
    ensures Seeded(next)
  {
    assert w.stored[..w.from] + w.stored[w.from..] == w.stored;
    SeedsAddUp(w.stored[..w.from], w.stored[w.from..], w.first, w.run);
    assert w.stored[..next.from] == w.stored && w.stored[next.from..] == [];
  }

  lemma {:induction false} RetryKeeps(w: World, next: World, body: seq<Call>)
    requires Kept(w, body) && next == Do(w, body, Retry)
    ensures Kept(next, body)
  {
    RunsSoFar(w, body);
    RetrySeeded(w, next);
    ReadsJournal(next, next.run);
    RestartSound(w, next, body);
  }

  /** Storing the oldest buffered rows moves the border between the two parts. */
  lemma {:induction false} FlushKeeps(w: World, next: World, body: seq<Call>, count: nat)
    requires Kept(w, body) && count <= |w.unsent|
    requires next == w.(stored := w.stored + w.unsent[..count], unsent := w.unsent[count..])
    ensures Kept(next, body)
  {
    assert next.stored + next.unsent == w.stored + w.unsent;
    RunsSoFar(w, body);
    FlushSeeded(w, next, w.unsent[..count]);
  }

  lemma {:induction false} FlushSeeded(w: World, next: World, rows: seq<Row>)
    requires Seeded(w) && next.stored == w.stored + rows && next.seed == w.seed
    requires next.run == w.run && next.first == w.first && next.from == w.from
    requires forall k :: 0 <= k < |w.stored| ==> w.stored[k].run <= w.run
    requires forall k :: 0 <= k < |rows| ==> rows[k].run == w.run
    ensures Seeded(next)
  {
    assert next.stored[..w.from] == w.stored[..w.from];
    assert next.stored[w.from..] == w.stored[w.from..] + rows;
    ReachKept(w.stored, rows, w.first, w.run);
  }

  lemma {:induction false} ReachKept(stored: seq<Row>, rows: seq<Row>, first: nat, run: nat)
    requires InReach(Latest(stored), first, run) && forall k :: 0 <= k < |rows| ==> rows[k].run == run
    ensures InReach(Latest(stored + rows), first, run)
  {
    LatestConcat(stored, rows);
    forall slot | slot in Latest(rows) ensures Latest(rows)[slot].run == run {
      LatestSlot(rows, slot);
    }
  }

  lemma {:induction false} DoKeeps(w: World, next: World, body: seq<Call>, action: Action)
    requires Kept(w, body) && Enabled(w, body, action) && CarefulStep(w, action) && next == Do(w, body, action)
    ensures Kept(next, body)
  {
    match action
    case Pass(upto, refs) =>
      PassKeeps(w, next, body, upto, refs, RunPass(StartContext(w.memory), w.run, body, upto, refs));
    case Flush(count) => FlushKeeps(w, next, body, count);
    case Resume => LossKeeps(w, next, body, w.run);
    case Rerun => LossKeeps(w, next, body, w.run + 1);
    case Retry => RetryKeeps(w, next, body);
  }

  lemma {:induction false} AfterKeeps(body: seq<Call>, actions: seq<Action>)
    requires Careful(body, actions)
    ensures Kept(After(body, actions), body)
    decreases |actions|
  {
    if actions == [] {
      forall run | 0 <= run <= 0 ensures OnceInOrder([], body, run) {
        assert InOrder([], body, run, 0, 0);
      }
      assert JournalOf([], 0) == map[];
      var none: seq<Row> := [];
      assert none + none == none;
    } else {
      AfterKeeps(body, actions[..|actions| - 1]);
      var w, action := After(body, actions[..|actions| - 1]), actions[|actions| - 1];
      if Enabled(w, body, action) {
        DoKeeps(w, Do(w, body, action), body, action);
      }
    }
  }

  /** Whatever passes, flushes, crashes, retries and careful reruns came before: the store holds
      every run's artifacts, and the line's other effects, once each and in body order, with
      none missing before one it holds. */
  lemma {:induction false} StoredOnceInOrder(body: seq<Call>, actions: seq<Action>, run: nat)
    requires Careful(body, actions) && run <= After(body, actions).run
    ensures OnceInOrder(After(body, actions).stored, body, run)
  {
    AfterKeeps(body, actions);
    var w := After(body, actions);
    assert (w.stored + w.unsent)[..|w.stored|] == w.stored;
    PrefixInOrder(w.stored + w.unsent, |w.stored|, body, run);
  }

  /** A pass that runs to the body's end, from any world reached (`AfterKeeps`), leaves
      every effect journaled exactly once for its run, and its calls were answered with
      the journaled references. */
  lemma {:induction false} CompletedBody(w: World, body: seq<Call>, refs: seq<Option<string>>, p: Progress,
                                         all: seq<Row>)
    requires Kept(w, body) && |refs| == |body|
    requires p == RunPass(StartContext(w.memory), w.run, body, |body|, refs) && all == w.stored + w.unsent + p.performed
    ensures Performed(all, false, w.run) == CallsBelow(body, false, |body|)
    ensures Performed(all, true, w.run) == CallsBelow(body, true, |body|)
    ensures |p.answers| == |body| && Answered(p.answers, Slots(body), JournalOf(all, w.run))
  {
    var before := w.stored + w.unsent;
    assert OnceInOrder(before, body, w.run);
    var n, a :| InOrder(before, body, w.run, n, a);
    PassPerformsTheRest(StartContext(w.memory), w.run, body, Slots(body), |body|, refs, p, before, all, n, a);
    assert Max(n, |body|) == |body| && Max(a, |body|) == |body|;
  }

  // -- Chains longer than the store reads ---------------------------------------------------

  lemma FirstCallPerformed(memory: map<Slot, Known>, run: nat, body: seq<Call>, given: Option<string>)
    requires body != [] && SlotAt(body, 0) !in memory
    ensures Perform(Progress(StartContext(memory), [], []), run, body[0], given).performed
         == [Row(run, 0, SlotAt(body, 0), body[0].content, given)]
  {
  }

  lemma Forgotten(w: World, slot: Slot, run: nat)
    requires Seeded(w) && w.run <= run && slot in Latest(w.stored) && !slot.counter.kind.Artifact?
    requires run > Max(Latest(w.stored)[slot].run, w.first) + WALK
    ensures slot !in Restarted(w, run).memory
  {
    assert w.stored[..w.from] + w.stored[w.from..] == w.stored;
    SlotRead(w.stored[..w.from], w.stored[w.from..], w.first, run, slot);
  }

  lemma {:induction false} PerformedHas(log: seq<Row>, run: nat, k: nat)
    requires k < |log| && !log[k].slot.counter.kind.Artifact?
    ensures log[k].at in Performed(log, false, run)
    decreases |log|
  {
    if k < |log| - 1 {
      PerformedHas(log[..|log| - 1], run, k);
    }
  }

  /** Calls in order below a bound, none twice. */
  ghost predicate Ascend(calls: seq<nat>, n: nat) {
    && (forall j :: 0 <= j < |calls| ==> calls[j] < n)
    && forall j, k :: 0 <= j < k < |calls| ==> calls[j] < calls[k]
  }

  lemma {:induction false} CallsAscend(body: seq<Call>, artifacts: bool, n: nat)
    requires n <= |body|
    ensures Ascend(CallsBelow(body, artifacts, n), n)
  {
    if n > 0 {
      CallsAscend(body, artifacts, n - 1);
    }
  }

  /** A log in which an effect stands before, and again at the end, is not in order. */
  lemma {:induction false} TwiceIsNotOnce(log: seq<Row>, row: Row, body: seq<Call>, run: nat)
    requires row.at in Performed(log, false, run) && !row.slot.counter.kind.Artifact?
    ensures !OnceInOrder(log + [row], body, run)
  {
    assert (log + [row])[..|log|] == log;
    var done := Performed(log, false, run);
    var j :| 0 <= j < |done| && done[j] == row.at;
    forall n: nat, a: nat ensures !InOrder(log + [row], body, run, n, a) {
      if n <= |body| {
        CallsAscend(body, false, n);
        assert (done + [row.at])[j] == (done + [row.at])[|done|];
      }
    }
  }

  /** Whatever pass the process makes, the effects have happened once and in order. */
  ghost predicate PassesSafe(w: World, body: seq<Call>) {
    forall upto: nat, refs :: PassSafe(w, body, upto, refs)
  }

  ghost predicate PassSafe(w: World, body: seq<Call>, upto: nat, refs: seq<Option<string>>) {
    upto <= |body| == |refs| ==>
      OnceInOrder(w.stored + w.unsent + RunPass(StartContext(w.memory), w.run, body, upto, refs).performed, body, w.run)
  }

  lemma KeptIsSafe(w: World, body: seq<Call>)
    requires Kept(w, body)
    ensures PassesSafe(w, body)
  {
    forall upto: nat, refs ensures PassSafe(w, body, upto, refs) {
      if upto <= |body| == |refs| {
        PassInOrder(w, body, upto, refs, w.run);
      }
    }
  }

  /** A process that does not know of an effect that happened performs it again. */
  lemma {:induction false} UnknownIsRepeated(w: World, body: seq<Call>, k: nat)
    requires k < |w.stored| && w.unsent == [] && !w.stored[k].slot.counter.kind.Artifact?
    requires w.stored[k].at < |body| && w.stored[k].slot == SlotAt(body, w.stored[k].at)
    requires w.stored[k].slot !in w.memory
    ensures !PassesSafe(w, body)
  {
    var i := w.stored[k].at;
    var refs := seq(|body|, _ => None);
    var ctx := StartContext(w.memory);
    var p, q := RunPass(ctx, w.run, body, i, refs), RunPass(ctx, w.run, body, i + 1, refs);
    PassCounts(ctx, w.run, body, i, refs, p);
    PassLeavesLater(ctx, w.run, body, i, refs, p, i);
    CallDecides(p, q, w.run, body, i, refs[i]);
    var log, row := w.stored + p.performed, Row(w.run, i, SlotAt(body, i), body[i].content, refs[i]);
    PerformedHas(log, w.run, k);
    TwiceIsNotOnce(log, row, body, w.run);
    assert w.stored + w.unsent + q.performed == log + [row];
    assert !PassSafe(w, body, i + 1, refs);
  }

  lemma {:induction false} LostSlot(w: World, body: seq<Call>, slot: Slot) returns (k: nat)
    requires Kept(w, body) && slot in Latest(w.stored)
    ensures k < |w.stored| && w.stored[k].slot == slot && w.stored[k].at < |body|
            && slot == SlotAt(body, w.stored[k].at)
  {
    LatestSlot(w.stored, slot);
    k :| 0 <= k < |w.stored| && w.stored[k] == Latest(w.stored)[slot];
    assert (w.stored + w.unsent)[k] == w.stored[k];
    SlotsUptoAt(body, |body|, w.stored[k].at);
  }

  lemma {:induction false} CarelessIsUnsafe(w: World, next: World, body: seq<Call>, slot: Slot)
    requires Kept(w, body) && next == Restarted(w, w.run + 1)
    requires slot in Latest(w.stored) && !slot.counter.kind.Artifact?
    requires w.run + 1 > Max(Latest(w.stored)[slot].run, w.first) + WALK
    ensures !PassesSafe(next, body)
  {
    Forgotten(w, slot, w.run + 1);
    var k := LostSlot(w, body, slot);
    UnknownIsRepeated(next, body, k);
  }

  /** After a crash rerun every effect still happens once, whatever pass the new run makes,
      exactly when nothing was out of reach. */
  lemma RerunSafeExactly(w: World, next: World, body: seq<Call>)
    requires Kept(w, body) && next == Do(w, body, Rerun)
    ensures InReach(Latest(w.stored), w.first, w.run + 1) <==> PassesSafe(next, body)
  {
    if InReach(Latest(w.stored), w.first, w.run + 1) {
      LossKeeps(w, next, body, w.run + 1);
      KeptIsSafe(next, body);
    } else {
      var all := Latest(w.stored);
      var slot :| slot in all && !slot.counter.kind.Artifact? && w.run + 1 > Max(all[slot].run, w.first) + WALK;
      CarelessIsUnsafe(w, next, body, slot);
    }
  }

  lemma {:induction false} CarefulPrefix(body: seq<Call>, actions: seq<Action>, k: nat)
    requires Careful(body, actions) && k <= |actions|
    ensures Careful(body, actions[..k])
    decreases |actions|
  {
    if k == |actions| {
      assert actions[..k] == actions;
    } else {
      CarefulPrefix(body, actions[..|actions| - 1], k);
      assert actions[..|actions| - 1][..k] == actions[..k];
    }
  }

  lemma {:induction false} FirstCareless(body: seq<Call>, actions: seq<Action>) returns (k: nat)
    requires !Careful(body, actions)
    ensures k < |actions| && Careful(body, actions[..k]) && !CarefulStep(After(body, actions[..k]), actions[k])
    decreases |actions|
  {
    var front := actions[..|actions| - 1];
    if Careful(body, front) {
      k := |actions| - 1;
    } else {
      k := FirstCareless(body, front);
      assert front[..k] == actions[..k];
    }
  }

  /** Over a whole history of passes, flushes, losses, reruns and retries: every effect
      happens once, whatever pass is made at any time, exactly when no crash rerun was too
      far from an effect. */
  lemma EffectsOnceExactly(body: seq<Call>, actions: seq<Action>)
    ensures Careful(body, actions) <==> forall k :: 0 <= k <= |actions| ==> PassesSafe(After(body, actions[..k]), body)
  {
    if Careful(body, actions) {
      forall k | 0 <= k <= |actions| ensures PassesSafe(After(body, actions[..k]), body) {
        CarefulPrefix(body, actions, k);
        AfterKeeps(body, actions[..k]);
        KeptIsSafe(After(body, actions[..k]), body);
      }
    } else {
      var k := FirstCareless(body, actions);
      AfterKeeps(body, actions[..k]);
      assert actions[..k + 1][..k] == actions[..k];
      RerunSafeExactly(After(body, actions[..k]), After(body, actions[..k + 1]), body);
      assert !PassesSafe(After(body, actions[..k + 1]), body);
    }
  }

  /** The world after one effect was performed, stored, and its run rerun `n` times. */
  function Rerunning(row: Row, n: nat): World {
    World(n, [row], [], map[row.slot := Known(row.hash, row.ref)], 0, 0, map[])
  }

  lemma OneRowLatest(row: Row)
    ensures Latest([row]) == map[row.slot := row]
  {
    assert [row][..0] == [];
  }

  lemma OneRowWithin(row: Row, run: nat)
    requires run <= row.run + WALK
    ensures Within([row], run) == [row]
  {
    assert [row][..0] == [];
  }

  lemma NextRerun(body: seq<Call>, row: Row, n: nat)
    requires row.run == 0 && !row.slot.counter.kind.Artifact? && n < WALK && Reached(body, Rerunning(row, n))
    ensures Reached(body, Rerunning(row, n + 1))
  {
    OneRowLatest(row);
    OneRowRead(row, n + 1);
    assert [row][0..] == [row];
    ReachedNext(body, Rerunning(row, n), Rerun, Rerunning(row, n + 1));
  }

  lemma OneRowRead(row: Row, run: nat)
    requires row.run == 0 && !row.slot.counter.kind.Artifact? && run <= WALK
    ensures ReadEffects(map[], 0, [row], run) == map[row.slot := row]
    ensures StartJournal(map[row.slot := row], run) == map[row.slot := Known(row.hash, row.ref)]
  {
    OneRowLatest(row);
    OneRowWithin(row, run);
  }

  ghost predicate Reached(body: seq<Call>, w: World) {
    exists actions :: Careful(body, actions) && After(body, actions) == w
  }

  lemma ReachedNext(body: seq<Call>, w: World, action: Action, next: World)
    requires Reached(body, w) && Enabled(w, body, action) && CarefulStep(w, action) && next == Do(w, body, action)
    ensures Reached(body, next)
  {
    var actions :| Careful(body, actions) && After(body, actions) == w;
    assert (actions + [action])[..|actions|] == actions;
    assert Careful(body, actions + [action]) && After(body, actions + [action]) == next;
  }

  lemma PerformedOnce(body: seq<Call>, row: Row, none: World, refs: seq<Option<string>>) returns (once: World)
    requires |body| == 1 && row == Row(0, 0, SlotAt(body, 0), body[0].content, None) && refs == [None]
    requires none == World(0, [], [], map[], 0, 0, map[])
    ensures once == Do(none, body, Pass(1, refs))
    ensures once == World(0, [], [row], map[row.slot := Known(row.hash, row.ref)], 0, 0, map[])
  {
    once := Do(none, body, Pass(1, refs));
    var start := StartContext(none.memory);
    assert RunPass(start, 0, body, 0, refs) == Progress(start, [], []);
    assert RunPass(start, 0, body, 1, refs) == Perform(Progress(start, [], []), 0, body[0], None);
    FirstCallPerformed(none.memory, 0, body, None);
  }

  lemma FirstReached(body: seq<Call>, row: Row, none: World, refs: seq<Option<string>>)
    requires |body| == 1 && row == Row(0, 0, SlotAt(body, 0), body[0].content, None) && refs == [None]
    requires none == World(0, [], [], map[], 0, 0, map[])
    ensures Reached(body, Rerunning(row, 0))
  {
    assert Careful(body, []) && After(body, []) == none;
    var once := PerformedOnce(body, row, none, refs);
    ReachedNext(body, none, Pass(1, refs), once);
    FlushOne(body, once, row);
    ReachedNext(body, once, Flush(1), Rerunning(row, 0));
  }

  lemma FlushOne(body: seq<Call>, once: World, row: Row)
    requires once.stored == [] && once.unsent == [row]
    ensures Enabled(once, body, Flush(1)) && Do(once, body, Flush(1)) == once.(stored := [row], unsent := [])
  {
    assert once.unsent[..1] == [row] && once.unsent[1..] == [] && once.stored + [row] == [row];
  }

  lemma {:induction false} RerunsReached(body: seq<Call>, row: Row, n: nat)
    requires row.run == 0 && !row.slot.counter.kind.Artifact? && Reached(body, Rerunning(row, 0)) && n <= WALK
    ensures Reached(body, Rerunning(row, n))
  {
    if n > 0 {
      RerunsReached(body, row, n - 1);
      NextRerun(body, row, n - 1);
    }
  }

  /** A run that performed one effect can be rerun fifty times; the next rerun is not safe. */
  lemma LongChainForgets(body: seq<Call>) returns (w: World)
    requires |body| == 1 && !body[0].kind.Artifact?
    ensures Reached(body, w) && |w.stored| == 1 && w.run == WALK && !PassesSafe(Do(w, body, Rerun), body)
  {
    var row := Row(0, 0, SlotAt(body, 0), body[0].content, None);
    FirstReached(body, row, World(0, [], [], map[], 0, 0, map[]), [None]);
    RerunsReached(body, row, WALK);
    w := Rerunning(row, WALK);
    var actions :| Careful(body, actions) && After(body, actions) == w;
    AfterKeeps(body, actions);
    OneRowLatest(row);
    assert row.slot in Latest(w.stored);
    RerunSafeExactly(w, Do(w, body, Rerun), body);
  }
}
