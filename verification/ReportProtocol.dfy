/** Engines reporting on one run over an unreliable connection, as a step system.

    Requests and answers, once sent, stay in the network and may be delivered
    never, late, twice or in any order; any number of threads may flush one buffer.
    The server takes a report in two steps, as crates/server/src/api/engine.rs does:
    it compares the lease (`Admit`), and only then does the writer apply the events
    (`Apply`). A hand-off is also two steps: a new lease (`Claim`), then the work
    item that carries the recorded number (`HandOut`). */
module ReportProtocol {
  import opened Basics
  import opened ReportBuffer

  /** An engine that was handed the run under `lease`, starting after `start`.
      `program` and `issued` are its whole history: what the flow did, and every
      event numbered so far. */
  datatype Engine = Engine(lease: int, start: int, program: seq<Item>, issued: seq<ReportEvent>, buffer: Buffer)

  datatype Record = Record(lease: int, event: ReportEvent)

  datatype Request = Request(lease: int, events: seq<ReportEvent>)

  datatype Ack = Ack(lease: int, lastSeq: int)

  datatype State = State(
    lease: int,
    reportSeq: int,
    history: seq<Record>,
    engines: seq<Engine>,
    sent: set<Request>,
    admitted: set<Request>,
    acks: set<Ack>)

  datatype Step =
    | Claim
    | HandOut
    | WriteLog(i: nat, line: string)
    | Push(i: nat, body: Body)
    | Seal(i: nat)
    | Send(i: nat, count: nat)
    | Admit(request: Request)
    | Apply(request: Request)
    | Receive(i: nat, ack: Ack)
    | Refused(i: nat)

  function Init(): State { State(0, 0, [], [], {}, {}, {}) }

  predicate Enabled(s: State, step: Step) {
    match step
    case Claim => true
    case HandOut => s.lease > 0 && (s.engines == [] || Top(s).lease < s.lease)
    case WriteLog(i, _) => i < |s.engines|
    case Push(i, _) => i < |s.engines|
    case Seal(i) => i < |s.engines|
    // `RunBuffer.NextChunk` always picks a non-empty prefix of the pending events.
    case Send(i, count) => i < |s.engines| && 1 <= count <= |s.engines[i].buffer.pending|
    case Admit(r) => r in s.sent && r.lease == s.lease
    case Apply(r) => r in s.admitted
    case Receive(i, a) => i < |s.engines| && a in s.acks && a.lease == s.engines[i].lease
    // A refusal was answered to a lease that is no longer current, and leases only grow.
    case Refused(i) => i < |s.engines| && s.engines[i].lease != s.lease
  }

  /** The engine handed the run last. */
  function Top(s: State): Engine
    requires s.engines != []
  {
    s.engines[|s.engines| - 1]
  }

  function Grown(e: Engine, buffer: Buffer, items: seq<Item>): Engine
    requires |e.buffer.pending| <= |buffer.pending|
  {
    e.(program := e.program + items, issued := e.issued + buffer.pending[|e.buffer.pending|..], buffer := buffer)
  }

  function Logged(e: Engine, line: string): Engine {
    if |e.buffer.logs| + |e.buffer.pending| >= MAX_BUFFERED_LOGS then e
    else e.(program := e.program + [Line(line)], buffer := e.buffer.(logs := e.buffer.logs + [line]))
  }

  function Pushing(e: Engine, body: Body): Engine {
    PushKeepsOrder(e.buffer, body);
    Grown(e, Pushed(e.buffer, body), [Entry(body)])
  }

  function Sealing(e: Engine): Engine {
    SealKeepsOrder(e.buffer);
    Grown(e, Sealed(e.buffer), [])
  }

  function Acknowledging(e: Engine, lastSeq: int): Engine {
    e.(buffer := e.buffer.(pending := Retained(e.buffer.pending, lastSeq)))
  }

  function Dropping(e: Engine): Engine {
    e.(buffer := e.buffer.(pending := []))
  }

  function Tag(lease: int, events: seq<ReportEvent>): (records: seq<Record>)
    ensures |records| == |events|
    ensures forall i :: 0 <= i < |events| ==> records[i] == Record(lease, events[i])
  {
    seq(|events|, i requires 0 <= i < |events| => Record(lease, events[i]))
  }

  function Do(s: State, step: Step): State
    requires Enabled(s, step)
  {
    match step
    case Claim => s.(lease := s.lease + 1)
    case HandOut => s.(engines := s.engines + [Engine(s.lease, s.reportSeq, [], [], Buffer(s.reportSeq, [], []))])
    case WriteLog(i, line) => s.(engines := s.engines[i := Logged(s.engines[i], line)])
    case Push(i, body) => s.(engines := s.engines[i := Pushing(s.engines[i], body)])
    case Seal(i) => s.(engines := s.engines[i := Sealing(s.engines[i])])
    case Send(i, count) =>
      s.(sent := s.sent + {Request(s.engines[i].lease, s.engines[i].buffer.pending[..count])})
    case Admit(r) => s.(admitted := s.admitted + {r})
    case Apply(r) =>
      var (end, taken) := ApplyReport(s.reportSeq, r.events);
      s.(reportSeq := end, history := s.history + Tag(r.lease, taken), acks := s.acks + {Ack(r.lease, end)})
    case Receive(i, a) => s.(engines := s.engines[i := Acknowledging(s.engines[i], a.lastSeq)])
    case Refused(i) => s.(engines := s.engines[i := Dropping(s.engines[i])])
  }

  predicate EnabledRun(s: State, steps: seq<Step>)
    decreases |steps|
  {
    steps == [] || (Enabled(s, steps[0]) && EnabledRun(Do(s, steps[0]), steps[1..]))
  }

  function Exec(s: State, steps: seq<Step>): State
    requires EnabledRun(s, steps)
    decreases |steps|
  {
    if steps == [] then s else Exec(Do(s, steps[0]), steps[1..])
  }

  /** No admitted report still carries an event the store does not have. */
  predicate Drained(s: State) {
    forall r :: r in s.admitted ==> Seen(r.events, s.reportSeq)
  }

  predicate Seen(events: seq<ReportEvent>, reportSeq: int) {
    forall i :: 0 <= i < |events| ==> events[i].no <= reportSeq
  }

  /** A run in which no work item is handed out over an admitted report that has
      not been applied. */
  predicate OrderlyRun(s: State, steps: seq<Step>)
    decreases |steps|
  {
    steps == [] ||
    (Enabled(s, steps[0]) && (steps[0].HandOut? ==> Drained(s)) && OrderlyRun(Do(s, steps[0]), steps[1..]))
  }

  lemma {:induction false} OrderlyIsEnabled(s: State, steps: seq<Step>)
    requires OrderlyRun(s, steps)
    ensures EnabledRun(s, steps)
    decreases |steps|
  {
    if steps != [] {
      OrderlyIsEnabled(Do(s, steps[0]), steps[1..]);
    }
  }

  // -- The invariant ---------------------------------------------------------

  /** An engine's own books: consecutive numbers after `start`, the pending events
      the last ones issued, and issued events plus unsealed lines spelling out the
      program in order. */
  ghost predicate Booked(e: Engine) {
    && Numbered(e.issued, e.start + 1)
    && e.buffer.nextSeq == e.start + |e.issued|
    && |e.buffer.pending| <= |e.issued|
    && e.buffer.pending == e.issued[|e.issued| - |e.buffer.pending|..]
    && Flatten(e.issued) + Lines(e.buffer.logs) == e.program
  }

  /** Consecutive events of `e`, the first no later than the next one expected. */
  ghost predicate Fits(e: Engine, events: seq<ReportEvent>, reportSeq: int) {
    && events != []
    && var a := events[0].no - e.start - 1;
    && 0 <= a
    && a + |events| <= |e.issued|
    && events == e.issued[a..a + |events|]
    && events[0].no <= reportSeq + 1
  }

  /** Where the segment of each engine ends: the start of the next one. */
  ghost predicate Segmented(engines: seq<Engine>, upto: int)
    decreases |engines|
  {
    if engines == [] then upto == 0
    else
      var e := engines[|engines| - 1];
      && e.start <= upto <= e.start + |e.issued|
      && Segmented(engines[..|engines| - 1], e.start)
  }

  /** The per-lease segments, concatenated in the order the leases were handed out. */
  ghost function Segments(engines: seq<Engine>, upto: int): seq<Record>
    requires Segmented(engines, upto)
    decreases |engines|
  {
    if engines == [] then []
    else
      var e := engines[|engines| - 1];
      Segments(engines[..|engines| - 1], e.start) + Tag(e.lease, e.issued[..upto - e.start])
  }

  /** Every event the holder issued beyond the recorded number is still pending. */
  ghost predicate Kept(e: Engine, reportSeq: int) {
    |e.issued| - |e.buffer.pending| <= reportSeq - e.start
  }

  ghost predicate EnginesOk(engines: seq<Engine>, lease: int) {
    && (forall i :: 0 <= i < |engines| ==> Booked(engines[i]) && engines[i].lease <= lease)
    && (forall i, j :: 0 <= i < j < |engines| ==> engines[i].lease < engines[j].lease)
  }

  /** The engine holding the current lease, if the run has been handed out under it. */
  predicate Held(engines: seq<Engine>, lease: int) {
    engines != [] && engines[|engines| - 1].lease == lease
  }

  /** A request under the current lease continues what the store has. */
  ghost predicate SentOk(sent: set<Request>, engines: seq<Engine>, lease: int, reportSeq: int) {
    forall r :: r in sent ==>
      r.lease < lease || (r.lease == lease && Held(engines, lease) && Fits(engines[|engines| - 1], r.events, reportSeq))
  }

  /** An admitted request brings nothing new, or continues the last engine's segment. */
  ghost predicate AdmittedOk(admitted: set<Request>, engines: seq<Engine>, lease: int, reportSeq: int) {
    forall r :: r in admitted ==>
      r.lease <= lease
      && (Seen(r.events, reportSeq) || (Held(engines, r.lease) && Fits(engines[|engines| - 1], r.events, reportSeq)))
  }

  ghost predicate AcksOk(acks: set<Ack>, reportSeq: int) {
    forall a :: a in acks ==> a.lastSeq <= reportSeq
  }

  ghost predicate HistoryOk(history: seq<Record>, engines: seq<Engine>, reportSeq: int) {
    Segmented(engines, reportSeq) && history == Segments(engines, reportSeq)
  }

  ghost predicate HolderOk(engines: seq<Engine>, lease: int, reportSeq: int) {
    Held(engines, lease) ==> Kept(engines[|engines| - 1], reportSeq)
  }

  ghost predicate Inv(s: State) {
    && EnginesOk(s.engines, s.lease)
    && SentOk(s.sent, s.engines, s.lease, s.reportSeq)
    && AdmittedOk(s.admitted, s.engines, s.lease, s.reportSeq)
    && AcksOk(s.acks, s.reportSeq)
    && HistoryOk(s.history, s.engines, s.reportSeq)
    && HolderOk(s.engines, s.lease, s.reportSeq)
  }

  // -- Segments are stable ---------------------------------------------------

  /** `grown` is `e` later on: same hand-off, more events issued. */
  ghost predicate Later(e: Engine, grown: Engine) {
    grown.lease == e.lease && grown.start == e.start && e.issued <= grown.issued
  }

  lemma {:induction false} SegmentsStable(engines: seq<Engine>, i: nat, grown: Engine, upto: int)
    requires i < |engines| && Later(engines[i], grown) && Segmented(engines, upto)
    ensures Segmented(engines[i := grown], upto)
    ensures Segments(engines[i := grown], upto) == Segments(engines, upto)
    decreases |engines|
  {
    var n := |engines| - 1;
    var front, e := engines[..n], engines[n];
    if i == n {
      assert engines[i := grown] == front + [grown];
      assert e.issued[..upto - e.start] == grown.issued[..upto - e.start];
      LastSegment(front, grown, upto);
    } else {
      assert engines[i := grown] == front[i := grown] + [e];
      SegmentsStable(front, i, grown, e.start);
      LastSegment(front[i := grown], e, upto);
    }
  }

  lemma LastSegment(front: seq<Engine>, e: Engine, upto: int)
    requires Segmented(front, e.start) && e.start <= upto <= e.start + |e.issued|
    ensures Segmented(front + [e], upto)
    ensures Segments(front + [e], upto) == Segments(front, e.start) + Tag(e.lease, e.issued[..upto - e.start])
  {
    assert (front + [e])[..|front|] == front;
  }

  /** Recording more of the last engine's events extends only its own segment. */
  lemma HistoryExtends(history: seq<Record>, engines: seq<Engine>, upto: int, end: int)
    requires engines != [] && HistoryOk(history, engines, upto)
    requires upto <= end <= engines[|engines| - 1].start + |engines[|engines| - 1].issued|
    ensures var e := engines[|engines| - 1];
            HistoryOk(history + Tag(e.lease, e.issued[upto - e.start..end - e.start]), engines, end)
  {
    var e := engines[|engines| - 1];
    var before, added := e.issued[..upto - e.start], e.issued[upto - e.start..end - e.start];
    assert e.issued[..end - e.start] == before + added;
    TagConcat(e.lease, before, added);
    ConcatAssociates(Segments(engines[..|engines| - 1], e.start), Tag(e.lease, before), Tag(e.lease, added));
  }

  lemma TagConcat(lease: int, a: seq<ReportEvent>, b: seq<ReportEvent>)
    ensures Tag(lease, a + b) == Tag(lease, a) + Tag(lease, b)
  {
  }

  // -- Every step keeps the invariant -----------------------------------------

  /** A change to engine `i` that only issues more events or drops acknowledged
      ones keeps everything said about the network and the history. */
  lemma EngineStep(s: State, i: nat, grown: Engine)
    requires Inv(s) && i < |s.engines|
    requires Later(s.engines[i], grown) && Booked(grown)
    requires i == |s.engines| - 1 && grown.lease == s.lease ==> Kept(grown, s.reportSeq)
    ensures Inv(s.(engines := s.engines[i := grown]))
  {
    SegmentsStable(s.engines, i, grown, s.reportSeq);
    NetworkStable(s, i, grown);
    EnginesStable(s.engines, i, grown, s.lease);
    HolderStable(s.engines, i, grown, s.lease, s.reportSeq);
  }

  lemma EnginesStable(engines: seq<Engine>, i: nat, grown: Engine, lease: int)
    requires EnginesOk(engines, lease) && i < |engines| && Later(engines[i], grown) && Booked(grown)
    ensures EnginesOk(engines[i := grown], lease)
  {
  }

  lemma HolderStable(engines: seq<Engine>, i: nat, grown: Engine, lease: int, reportSeq: int)
    requires HolderOk(engines, lease, reportSeq) && i < |engines| && Later(engines[i], grown)
    requires i == |engines| - 1 && grown.lease == lease ==> Kept(grown, reportSeq)
    ensures HolderOk(engines[i := grown], lease, reportSeq)
  {
  }

  lemma NetworkStable(s: State, i: nat, grown: Engine)
    requires SentOk(s.sent, s.engines, s.lease, s.reportSeq)
    requires AdmittedOk(s.admitted, s.engines, s.lease, s.reportSeq)
    requires i < |s.engines| && Later(s.engines[i], grown)
    ensures SentOk(s.sent, s.engines[i := grown], s.lease, s.reportSeq)
    ensures AdmittedOk(s.admitted, s.engines[i := grown], s.lease, s.reportSeq)
  {
    var e, e1 := Top(s), s.engines[i := grown][|s.engines| - 1];
    forall r: Request | Fits(e, r.events, s.reportSeq)
      ensures Fits(e1, r.events, s.reportSeq)
    {
      FitsLater(e, e1, r.events, s.reportSeq);
    }
  }

  lemma FitsLater(e: Engine, grown: Engine, events: seq<ReportEvent>, reportSeq: int)
    requires Later(e, grown) && Fits(e, events, reportSeq)
    ensures Fits(grown, events, reportSeq)
  {
    var a := events[0].no - e.start - 1;
    assert grown.issued[a..a + |events|] == e.issued[a..a + |events|];
  }

  lemma GrownBooked(e: Engine, buffer: Buffer, items: seq<Item>)
    requires Booked(e) && Extends(e.buffer, buffer) && buffer.logs == []
    requires Flatten(buffer.pending[|e.buffer.pending|..]) == Lines(e.buffer.logs) + items
    ensures Booked(Grown(e, buffer, items)) && Later(e, Grown(e, buffer, items))
    ensures |Grown(e, buffer, items).issued| - |buffer.pending| == |e.issued| - |e.buffer.pending|
  {
    var added := buffer.pending[|e.buffer.pending|..];
    assert buffer.pending == e.buffer.pending + added;
    GrownEvents(e.issued, e.buffer.pending, added, e.start + 1);
    assert Flatten(e.issued + added) + Lines(buffer.logs) == e.program + items by {
      GrownProgram(e.issued, e.buffer.logs, e.program, added, items);
    }
  }

  lemma GrownEvents(issued: seq<ReportEvent>, pending: seq<ReportEvent>, added: seq<ReportEvent>, from: int)
    requires Numbered(issued, from) && Numbered(added, from + |issued|)
    requires |pending| <= |issued| && pending == issued[|issued| - |pending|..]
    ensures Numbered(issued + added, from) && issued <= issued + added
    ensures pending + added == (issued + added)[|issued| - |pending|..]
  {
    NumberedConcat(issued, added, from);
    SuffixConcat(issued, pending, added);
  }

  lemma GrownProgram(issued: seq<ReportEvent>, logs: seq<string>, program: seq<Item>, added: seq<ReportEvent>,
                     items: seq<Item>)
    requires Flatten(issued) + Lines(logs) == program
    requires Flatten(added) == Lines(logs) + items
    ensures Flatten(issued + added) + Lines([]) == program + items
  {
    FlattenConcat(issued, added);
    ConcatAssociates(Flatten(issued), Lines(logs), items);
    var flat := Flatten(issued + added);
    assert Lines([]) == [] && flat + [] == flat;
  }

  lemma SliceTail<T>(all: seq<T>, a: nat, n: nat, skip: nat)
    requires skip <= n && a + n <= |all|
    ensures all[a..a + n][skip..] == all[a + skip..a + n]
  {
  }

  lemma NumberedConcat(a: seq<ReportEvent>, b: seq<ReportEvent>, from: int)
    requires Numbered(a, from) && Numbered(b, from + |a|)
    ensures Numbered(a + b, from)
  {
  }

  lemma SuffixConcat(all: seq<ReportEvent>, tail: seq<ReportEvent>, added: seq<ReportEvent>)
    requires |tail| <= |all| && tail == all[|all| - |tail|..]
    ensures tail + added == (all + added)[|all| - |tail|..]
  {
  }

  lemma LoggedBooked(e: Engine, line: string)
    requires Booked(e)
    ensures Booked(Logged(e, line)) && Later(e, Logged(e, line))
  {
    LinesConcat(e.buffer.logs, [line]);
  }

  lemma PushingBooked(e: Engine, body: Body, reportSeq: int)
    requires Booked(e)
    ensures Booked(Pushing(e, body)) && Later(e, Pushing(e, body))
    ensures Kept(e, reportSeq) ==> Kept(Pushing(e, body), reportSeq)
  {
    PushKeepsOrder(e.buffer, body);
    GrownBooked(e, Pushed(e.buffer, body), [Entry(body)]);
  }

  lemma SealingBooked(e: Engine, reportSeq: int)
    requires Booked(e)
    ensures Booked(Sealing(e)) && Later(e, Sealing(e))
    ensures Kept(e, reportSeq) ==> Kept(Sealing(e), reportSeq)
  {
    SealKeepsOrder(e.buffer);
    GrownBooked(e, Sealed(e.buffer), []);
  }

  lemma AcknowledgingBooked(e: Engine, lastSeq: int, reportSeq: int)
    requires Booked(e) && lastSeq <= reportSeq
    ensures Booked(Acknowledging(e, lastSeq)) && Later(e, Acknowledging(e, lastSeq))
    ensures Kept(e, reportSeq) ==> Kept(Acknowledging(e, lastSeq), reportSeq)
  {
    AcknowledgedSuffix(e.issued, e.buffer.pending, e.start, lastSeq);
  }

  /** What an acknowledgement leaves is still the end of what was issued, and nothing
      after the acknowledged number is dropped. */
  lemma AcknowledgedSuffix(issued: seq<ReportEvent>, pending: seq<ReportEvent>, start: int, lastSeq: int)
    requires Numbered(issued, start + 1)
    requires |pending| <= |issued| && pending == issued[|issued| - |pending|..]
    ensures var rest := Retained(pending, lastSeq);
            && |rest| <= |pending| && rest == issued[|issued| - |rest|..]
            && |issued| - |rest| <= Max(|issued| - |pending|, lastSeq - start)
  {
    var n, m := |issued|, |pending|;
    var cut := Min(Max(lastSeq - (start + n - m), 0), m);
    SuffixOfSuffix(issued, n - m, cut);
    SuffixNumbered(issued, n - m, start + 1);
    RetainedDropsPrefix(pending, start + n - m + 1, lastSeq);
  }

  lemma SuffixOfSuffix<T>(s: seq<T>, i: nat, j: nat)
    requires i + j <= |s|
    ensures s[i..][j..] == s[i + j..]
  {
  }

  lemma SuffixNumbered(events: seq<ReportEvent>, k: nat, from: int)
    requires Numbered(events, from) && k <= |events|
    ensures Numbered(events[k..], from + k)
  {
  }

  lemma HandOutKeeps(s: State)
    requires Inv(s) && Enabled(s, HandOut) && Drained(s)
    ensures Inv(Do(s, HandOut))
  {
    var e := Engine(s.lease, s.reportSeq, [], [], Buffer(s.reportSeq, [], []));
    assert Do(s, HandOut) == s.(engines := s.engines + [e]);
    NewEngineOk(s.engines, e, s.lease);
    NewEngineHistory(s.history, s.engines, e);
    NewEngineNetwork(s, e);
  }

  lemma NewEngineOk(engines: seq<Engine>, e: Engine, lease: int)
    requires EnginesOk(engines, lease) && (engines == [] || engines[|engines| - 1].lease < lease)
    requires e == Engine(lease, e.start, [], [], Buffer(e.start, [], []))
    ensures EnginesOk(engines + [e], lease) && HolderOk(engines + [e], lease, e.start)
  {
    NewEngineBooked(e);
    NewestLease(engines, e, lease);
    assert forall i :: 0 <= i < |engines| ==> (engines + [e])[i] == engines[i];
  }

  lemma NewestLease(engines: seq<Engine>, e: Engine, lease: int)
    requires forall i, j :: 0 <= i < j < |engines| ==> engines[i].lease < engines[j].lease
    requires e.lease == lease && (engines == [] || engines[|engines| - 1].lease < lease)
    ensures var more := engines + [e];
            forall i, j :: 0 <= i < j < |more| ==> more[i].lease < more[j].lease
  {
    forall i | 0 <= i < |engines| ensures engines[i].lease < lease {
      assert engines[i].lease <= engines[|engines| - 1].lease;
    }
  }

  lemma NewEngineBooked(e: Engine)
    requires e.issued == [] && e.program == [] && e.buffer == Buffer(e.start, [], [])
    ensures Booked(e)
  {
    var none: seq<Item> := [];
    assert Flatten(e.issued) == none && Lines(e.buffer.logs) == none && none + none == none;
  }

  lemma NewEngineHistory(history: seq<Record>, engines: seq<Engine>, e: Engine)
    requires HistoryOk(history, engines, e.start) && e.issued == []
    ensures HistoryOk(history, engines + [e], e.start)
  {
    LastSegment(engines, e, e.start);
    assert Tag(e.lease, e.issued[..0]) == [] && history + [] == history;
  }

  lemma NewEngineNetwork(s: State, e: Engine)
    requires SentOk(s.sent, s.engines, s.lease, s.reportSeq) && AdmittedOk(s.admitted, s.engines, s.lease, s.reportSeq)
    requires Enabled(s, HandOut) && Drained(s)
    ensures SentOk(s.sent, s.engines + [e], s.lease, s.reportSeq)
    ensures AdmittedOk(s.admitted, s.engines + [e], s.lease, s.reportSeq)
  {
  }

  lemma PrefixFits(e: Engine, count: nat, reportSeq: int)
    requires Booked(e) && Kept(e, reportSeq) && 1 <= count <= |e.buffer.pending|
    ensures Fits(e, e.buffer.pending[..count], reportSeq)
  {
    var a := |e.issued| - |e.buffer.pending|;
    assert e.buffer.pending[..count] == e.issued[a..a + count];
  }

  lemma SendKeeps(s: State, i: nat, count: nat)
    requires Inv(s) && Enabled(s, Send(i, count))
    ensures Inv(Do(s, Send(i, count)))
  {
    var e := s.engines[i];
    var r := Request(e.lease, e.buffer.pending[..count]);
    assert Do(s, Send(i, count)) == s.(sent := s.sent + {r});
    if e.lease == s.lease {
      assert i == |s.engines| - 1;
      PrefixFits(e, count, s.reportSeq);
    }
    SentAdds(s.sent, r, s.engines, s.lease, s.reportSeq);
  }

  lemma SentAdds(sent: set<Request>, r: Request, engines: seq<Engine>, lease: int, reportSeq: int)
    requires SentOk(sent, engines, lease, reportSeq)
    requires r.lease < lease
             || (r.lease == lease && Held(engines, lease) && Fits(engines[|engines| - 1], r.events, reportSeq))
    ensures SentOk(sent + {r}, engines, lease, reportSeq)
  {
  }

  lemma ApplyKeeps(s: State, r: Request)
    requires Inv(s) && r in s.admitted
    ensures Inv(Do(s, Apply(r)))
  {
    if Seen(r.events, s.reportSeq) {
      ApplySeen(s.reportSeq, r.events);
      assert s.history + Tag(r.lease, []) == s.history;
    } else {
      ApplyFresh(s, r);
    }
  }

  /** A larger recorded number breaks nothing that was said about the network. */
  lemma NetworkAdvances(s: State, end: int)
    requires Inv(s) && s.reportSeq <= end
    ensures SentOk(s.sent, s.engines, s.lease, end)
    ensures AdmittedOk(s.admitted, s.engines, s.lease, end)
    ensures HolderOk(s.engines, s.lease, end)
  {
    forall r | r in s.admitted && Seen(r.events, s.reportSeq) ensures Seen(r.events, end) {
    }
  }

  lemma {:induction false} ApplySeen(last: int, events: seq<ReportEvent>)
    requires Seen(events, last)
    ensures ApplyReport(last, events) == (last, [])
    decreases |events|
  {
    if events != [] {
      ApplySeen(last, events[1..]);
    }
  }

  lemma ApplyFresh(s: State, r: Request)
    requires Inv(s) && r in s.admitted && !Seen(r.events, s.reportSeq)
    ensures Inv(Do(s, Apply(r)))
  {
    FreshFits(s, r);
    var end := FreshApplies(s, r);
    TakenKeeps(s, end);
  }

  lemma FreshApplies(s: State, r: Request) returns (end: int)
    requires r in s.admitted && !Seen(r.events, s.reportSeq)
    requires s.engines != [] && r.lease == Top(s).lease && Top(s).start <= s.reportSeq
    requires Numbered(Top(s).issued, Top(s).start + 1) && Fits(Top(s), r.events, s.reportSeq)
    ensures Top(s).start <= s.reportSeq <= end <= Top(s).start + |Top(s).issued|
    ensures Do(s, Apply(r)) == Taken(s, end)
  {
    end := FreshTail(Top(s), r.events, s.reportSeq);
    ApplyTakes(s, r, end);
  }

  /** The state with the last engine's events through `end` recorded. */
  function Taken(s: State, end: int): State
    requires s.engines != [] && Top(s).start <= s.reportSeq <= end <= Top(s).start + |Top(s).issued|
  {
    var e := Top(s);
    var taken := e.issued[s.reportSeq - e.start..end - e.start];
    s.(reportSeq := end, history := s.history + Tag(e.lease, taken), acks := s.acks + {Ack(e.lease, end)})
  }

  lemma ApplyTakes(s: State, r: Request, end: int)
    requires s.engines != [] && Top(s).start <= s.reportSeq <= end <= Top(s).start + |Top(s).issued|
    requires r in s.admitted && r.lease == Top(s).lease
    requires ApplyReport(s.reportSeq, r.events) == (end, Top(s).issued[s.reportSeq - Top(s).start..end - Top(s).start])
    ensures Do(s, Apply(r)) == Taken(s, end)
  {
  }

  lemma FreshFits(s: State, r: Request)
    requires Inv(s) && r in s.admitted && !Seen(r.events, s.reportSeq)
    ensures s.engines != [] && r.lease == Top(s).lease && Top(s).start <= s.reportSeq
    ensures Numbered(Top(s).issued, Top(s).start + 1) && Fits(Top(s), r.events, s.reportSeq)
  {
    assert Booked(Top(s));
  }

  lemma TakenKeeps(s: State, end: int)
    requires Inv(s) && s.engines != [] && s.reportSeq <= end <= Top(s).start + |Top(s).issued|
    ensures Inv(Taken(s, end))
  {
    HistoryExtends(s.history, s.engines, s.reportSeq, end);
    NetworkAdvances(s, end);
    assert AcksOk(s.acks + {Ack(Top(s).lease, end)}, end);
  }

  lemma FreshTail(e: Engine, events: seq<ReportEvent>, reportSeq: int) returns (end: int)
    requires Numbered(e.issued, e.start + 1) && Fits(e, events, reportSeq)
    requires !Seen(events, reportSeq) && e.start <= reportSeq
    ensures reportSeq <= end <= e.start + |e.issued|
    ensures ApplyReport(reportSeq, events) == (end, e.issued[reportSeq - e.start..end - e.start])
  {
    var from := events[0].no;
    assert Numbered(events, from);
    ApplyTakesUnseenTail(reportSeq, events, from);
    end := from - 1 + |events|;
    SliceTail(e.issued, from - e.start - 1, |events|, reportSeq - from + 1);
  }

  lemma StepKeeps(s: State, step: Step)
    requires Inv(s) && Enabled(s, step) && (step.HandOut? ==> Drained(s))
    ensures Inv(Do(s, step))
  {
    match step
    case Claim => ClaimKeeps(s);
    case HandOut => HandOutKeeps(s);
    case WriteLog(i, line) => LogKeeps(s, i, line);
    case Push(i, body) => PushKeeps(s, i, body);
    case Seal(i) => SealKeeps(s, i);
    case Send(i, count) => SendKeeps(s, i, count);
    case Admit(r) => AdmitKeeps(s, r);
    case Apply(r) => ApplyKeeps(s, r);
    case Receive(i, a) => ReceiveKeeps(s, i, a);
    case Refused(i) => RefusedKeeps(s, i);
  }

  lemma LogKeeps(s: State, i: nat, line: string)
    requires Inv(s) && i < |s.engines|
    ensures Inv(Do(s, WriteLog(i, line)))
  {
    LoggedBooked(s.engines[i], line);
    EngineStep(s, i, Logged(s.engines[i], line));
  }

  lemma PushKeeps(s: State, i: nat, body: Body)
    requires Inv(s) && i < |s.engines|
    ensures Inv(Do(s, Push(i, body)))
  {
    var e := Pushing(s.engines[i], body);
    assert Do(s, Push(i, body)) == s.(engines := s.engines[i := e]);
    PushingBooked(s.engines[i], body, s.reportSeq);
    EngineStep(s, i, e);
  }

  lemma SealKeeps(s: State, i: nat)
    requires Inv(s) && i < |s.engines|
    ensures Inv(Do(s, Seal(i)))
  {
    var e := Sealing(s.engines[i]);
    assert Do(s, Seal(i)) == s.(engines := s.engines[i := e]);
    SealingBooked(s.engines[i], s.reportSeq);
    EngineStep(s, i, e);
  }

  lemma ReceiveKeeps(s: State, i: nat, a: Ack)
    requires Inv(s) && Enabled(s, Receive(i, a))
    ensures Inv(Do(s, Receive(i, a)))
  {
    AcknowledgingBooked(s.engines[i], a.lastSeq, s.reportSeq);
    EngineStep(s, i, Acknowledging(s.engines[i], a.lastSeq));
  }

  lemma RefusedKeeps(s: State, i: nat)
    requires Inv(s) && Enabled(s, Refused(i))
    ensures Inv(Do(s, Refused(i)))
  {
    EngineStep(s, i, Dropping(s.engines[i]));
  }

  lemma ClaimKeeps(s: State)
    requires Inv(s)
    ensures Inv(Do(s, Claim))
  {
  }

  lemma AdmitKeeps(s: State, r: Request)
    requires Inv(s) && Enabled(s, Admit(r))
    ensures Inv(Do(s, Admit(r)))
  {
  }

  lemma {:induction false} RunKeeps(s: State, steps: seq<Step>)
    requires Inv(s) && OrderlyRun(s, steps)
    ensures EnabledRun(s, steps) && Inv(Exec(s, steps))
    decreases |steps|
  {
    OrderlyIsEnabled(s, steps);
    if steps != [] {
      StepKeeps(s, steps[0]);
      RunKeeps(Do(s, steps[0]), steps[1..]);
    }
  }
}
