/** What the report protocol promises over whole runs: every event recorded once and in
    order, and nothing from a superseded lease. */
module Delivery {
  import opened ReportBuffer
  import opened ReportProtocol

  // -- Exactly once, in order -------------------------------------------------

  /** Nothing the current holder issued is lost: recorded under its lease, or
      still pending. */
  ghost predicate Lossless(s: State) {
    s.engines != [] && Top(s).lease == s.lease ==>
      forall i :: 0 <= i < |Top(s).issued| ==>
        Record(s.lease, Top(s).issued[i]) in s.history || Top(s).issued[i] in Top(s).buffer.pending
  }

  lemma {:induction false} SegmentsNumbered(engines: seq<Engine>, upto: int)
    requires Segmented(engines, upto)
    requires forall i :: 0 <= i < |engines| ==> Booked(engines[i])
    ensures |Segments(engines, upto)| == upto
    ensures forall k :: 0 <= k < upto ==> Segments(engines, upto)[k].event.no == k + 1
    decreases |engines|
  {
    if engines != [] {
      var e := engines[|engines| - 1];
      SegmentsNumbered(engines[..|engines| - 1], e.start);
    }
  }

  /** Over every orderly run, whatever the network does: the store holds exactly
      the events of each lease from its start to the next lease's start, in lease
      order, numbered 1 to `reportSeq` without a hole or a repeat; and everything
      the holder issued after that is still in its buffer. */
  lemma ExactlyOnceInOrder(steps: seq<Step>)
    requires OrderlyRun(Init(), steps)
    ensures EnabledRun(Init(), steps)
    ensures var s := Exec(Init(), steps);
            && Segmented(s.engines, s.reportSeq)
            && s.history == Segments(s.engines, s.reportSeq)
            && |s.history| == s.reportSeq
            && (forall k :: 0 <= k < s.reportSeq ==> s.history[k].event.no == k + 1)
            && (forall i :: 0 <= i < |s.engines| ==>
                  Flatten(s.engines[i].issued) + Lines(s.engines[i].buffer.logs) == s.engines[i].program)
            && Lossless(s)
  {
    RunKeeps(Init(), steps);
    var s := Exec(Init(), steps);
    SegmentsNumbered(s.engines, s.reportSeq);
    InvLossless(s);
  }

  lemma InvLossless(s: State)
    requires Inv(s)
    ensures Lossless(s)
  {
    if s.engines != [] && Top(s).lease == s.lease {
      forall i | 0 <= i < |Top(s).issued|
        ensures Record(s.lease, Top(s).issued[i]) in s.history || Top(s).issued[i] in Top(s).buffer.pending
      {
        RecordedOrPending(s, i);
      }
    }
  }

  lemma RecordedOrPending(s: State, i: nat)
    requires Inv(s) && Held(s.engines, s.lease) && i < |Top(s).issued|
    ensures Record(s.lease, Top(s).issued[i]) in s.history || Top(s).issued[i] in Top(s).buffer.pending
  {
    var e := Top(s);
    assert Booked(e);
    var cut := |e.issued| - |e.buffer.pending|;
    if i >= cut {
      assert e.buffer.pending[i - cut] == e.issued[i];
    } else {
      var own := Tag(e.lease, e.issued[..s.reportSeq - e.start]);
      assert own[i] == Record(s.lease, e.issued[i]);
      InSecond(Segments(s.engines[..|s.engines| - 1], e.start), own, i);
    }
  }

  lemma InSecond<T>(a: seq<T>, b: seq<T>, i: nat)
    requires i < |b|
    ensures b[i] in a + b
  {
    assert (a + b)[|a| + i] == b[i];
  }

  // -- Fencing ---------------------------------------------------------------

  /** A record that came from a report admitted in time but not applied yet. */
  ghost predicate AdmittedBefore(record: Record, admitted: set<Request>, reportSeq: int) {
    && record.event.no > reportSeq
    && exists r :: r in admitted && r.lease == record.lease && record.event in r.events
  }

  lemma {:induction false} ApplyTakesBeyond(last: int, events: seq<ReportEvent>)
    ensures var (end, taken) := ApplyReport(last, events);
            && last <= end
            && forall i :: 0 <= i < |taken| ==> taken[i].no > last && taken[i] in events
    decreases |events|
  {
    if events != [] {
      ApplyTakesBeyond(if events[0].no <= last then last else events[0].no, events[1..]);
    }
  }

  lemma StepFences(s: State, step: Step, lease: int, admitted: set<Request>, reportSeq: int)
    requires Enabled(s, step) && lease <= s.lease && reportSeq <= s.reportSeq
    requires forall r :: r in s.admitted ==> r.lease >= lease || r in admitted
    ensures var t := Do(s, step);
            && s.lease <= t.lease && s.reportSeq <= t.reportSeq && s.history <= t.history
            && (forall r :: r in t.admitted ==> r.lease >= lease || r in admitted)
            && (forall k :: |s.history| <= k < |t.history| ==>
                  t.history[k].lease >= lease || AdmittedBefore(t.history[k], admitted, reportSeq))
  {
    if step.Apply? {
      ApplyTakesBeyond(s.reportSeq, step.request.events);
    }
  }

  lemma {:induction false} RunFences(s: State, steps: seq<Step>, lease: int, admitted: set<Request>, reportSeq: int)
    requires EnabledRun(s, steps) && lease <= s.lease && reportSeq <= s.reportSeq
    requires forall r :: r in s.admitted ==> r.lease >= lease || r in admitted
    ensures var t := Exec(s, steps);
            && s.history <= t.history
            && (forall k :: |s.history| <= k < |t.history| ==>
                  t.history[k].lease >= lease || AdmittedBefore(t.history[k], admitted, reportSeq))
    decreases |steps|
  {
    if steps != [] {
      StepFences(s, steps[0], lease, admitted, reportSeq);
      RunFences(Do(s, steps[0]), steps[1..], lease, admitted, reportSeq);
    }
  }

  /** Over every run, orderly or not: once a lease has been superseded, by a
      hand-off or by a crash, nothing an engine sends under it ever lands. The only
      older records that can still appear come from reports the server had already
      admitted; when those are drained, none can. The past is never rewritten. */
  lemma SupersededNeverLands(s: State, steps: seq<Step>)
    requires EnabledRun(s, steps)
    ensures var t := Exec(s, steps);
            && s.history <= t.history
            && (forall k :: |s.history| <= k < |t.history| ==>
                  t.history[k].lease >= s.lease || AdmittedBefore(t.history[k], s.admitted, s.reportSeq))
            && (Drained(s) ==> forall k :: |s.history| <= k < |t.history| ==> t.history[k].lease >= s.lease)
  {
    RunFences(s, steps, s.lease, s.admitted, s.reportSeq);
  }

  // -- Request sizes -----------------------------------------------------------

  ghost predicate AllFit(engines: seq<Engine>) {
    forall i :: 0 <= i < |engines| ==> Fitting(engines[i].buffer.pending)
  }

  lemma StepFits(s: State, step: Step)
    requires AllFit(s.engines) && Enabled(s, step)
    ensures AllFit(Do(s, step).engines)
  {
    match step
    case Push(i, body) => PushFits(s.engines[i].buffer, body);
    case Seal(i) => SealFits(s.engines[i].buffer);
    case Receive(i, a) => RetainedFits(s.engines[i].buffer.pending, a.lastSeq);
    case _ =>
  }

  lemma {:induction false} RunFits(s: State, steps: seq<Step>)
    requires AllFit(s.engines) && EnabledRun(s, steps)
    ensures AllFit(Exec(s, steps).engines)
    decreases |steps|
  {
    if steps != [] {
      StepFits(s, steps[0]);
      RunFits(Do(s, steps[0]), steps[1..]);
    }
  }

  /** In every run, orderly or not, no request an engine makes next carries more than the
      item budget. */
  lemma EveryChunkFits(steps: seq<Step>, i: nat, chunk: seq<ReportEvent>)
    requires EnabledRun(Init(), steps) && i < |Exec(Init(), steps).engines|
    requires IsChunk(Sealed(Exec(Init(), steps).engines[i].buffer).pending, chunk)
    ensures ItemCount(chunk) <= MAX_BATCH_ITEMS
  {
    RunFits(Init(), steps);
    var b := Exec(Init(), steps).engines[i].buffer;
    SealFits(b);
    ChunkFits(Sealed(b).pending, chunk);
  }

  // -- Log lines ---------------------------------------------------------------

  /** A line is kept, behind those before it, exactly when the buffer has room for it. */
  lemma LineKeptExactly(s: State, i: nat, line: string)
    requires Enabled(s, WriteLog(i, line))
    ensures var e, f := s.engines[i], Do(s, WriteLog(i, line)).engines[i];
            && f.buffer.pending == e.buffer.pending
            && (|e.buffer.logs| + |e.buffer.pending| < MAX_BUFFERED_LOGS ==>
                 f.buffer.logs == e.buffer.logs + [line] && f.program == e.program + [Line(line)])
            && (|e.buffer.logs| + |e.buffer.pending| >= MAX_BUFFERED_LOGS ==> f == e)
  {
  }

  ghost predicate AllHold(engines: seq<Engine>) {
    forall i :: 0 <= i < |engines| ==> |engines[i].buffer.logs| <= MAX_BUFFERED_LOGS
  }

  lemma StepHolds(s: State, step: Step)
    requires AllHold(s.engines) && Enabled(s, step)
    ensures AllHold(Do(s, step).engines)
  {
    match step
    case Push(i, body) => SealKeepsOrder(s.engines[i].buffer);
    case Seal(i) => SealKeepsOrder(s.engines[i].buffer);
    case _ =>
  }

  /** However long an engine cannot report, no more lines than allowed wait to be sealed. */
  lemma {:induction false} LinesBounded(s: State, steps: seq<Step>)
    requires AllHold(s.engines) && EnabledRun(s, steps)
    ensures AllHold(Exec(s, steps).engines)
    decreases |steps|
  {
    if steps != [] {
      StepHolds(s, steps[0]);
      LinesBounded(Do(s, steps[0]), steps[1..]);
    }
  }

  /** An engine told that its lease is no longer current gives up what it has pending, and
      nothing else changes. */
  lemma RefusedGivesUp(s: State, i: nat)
    requires Enabled(s, Refused(i))
    ensures var t := Do(s, Refused(i));
            && t.engines[i].buffer.pending == []
            && t.engines[i].buffer.logs == s.engines[i].buffer.logs
            && t.engines[i].buffer.nextSeq == s.engines[i].buffer.nextSeq
            && |t.engines| == |s.engines|
            && (forall j :: 0 <= j < |s.engines| && j != i ==> t.engines[j] == s.engines[j])
            && t.(engines := s.engines) == s
  {
  }

  /** Sealing empties an engine's lines into its pending events and changes nothing it did. */
  lemma SealedKeepsProgram(s: State, i: nat)
    requires Enabled(s, Seal(i))
    ensures var e, f := s.engines[i], Do(s, Seal(i)).engines[i];
            && f.buffer.logs == [] && f.program == e.program && e.buffer.pending <= f.buffer.pending
            && Flatten(f.buffer.pending) == Flatten(e.buffer.pending) + Lines(e.buffer.logs)
  {
    var b := s.engines[i].buffer;
    SealAppends(b);
    SealKeepsOrder(b);
    FlattenConcat(b.pending, Sealed(b).pending[|b.pending|..]);
    assert Sealed(b).pending == b.pending + Sealed(b).pending[|b.pending|..];
  }
}
