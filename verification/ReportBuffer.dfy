/** The engine's side of reporting: the per-run buffer of numbered events and
    unsealed log lines (`RunBuffer` in crates/py/src/client.rs), its chunking, and
    the store's rule for taking a report (`apply_report`).

    Every operation has a value-level definition on `Buffer`; the class below
    performs the same change in place, and ReportProtocol runs many engines on the
    value-level definitions. */
module ReportBuffer {
  import opened Basics

  /** How much one request carries: an event counts one, a log event its lines. */
  const MAX_BATCH_ITEMS := 5_000

  const MAX_BUFFERED_LOGS := 1_000_000

  datatype Body =
    | TaskRunCreated(externalId: string, dynamicKey: string)
    | TaskRunTransition(externalId: string, state: string)
    | Custom(name: string, payload: string)
    | Artifact(externalId: string, data: string)

  /** `no` is the sequence number the event was given. */
  datatype ReportEvent =
    | Logs(no: int, lines: seq<string>)
    | Report(no: int, body: Body)

  /** What the flow did, in program order. */
  datatype Item = Line(text: string) | Entry(body: Body)

  datatype Buffer = Buffer(nextSeq: int, pending: seq<ReportEvent>, logs: seq<string>)

  function Min(a: int, b: int): int { if a < b then a else b }

  function Max(a: int, b: int): int { if a < b then b else a }

  // -- Program order ---------------------------------------------------------

  function Lines(logs: seq<string>): (items: seq<Item>)
    ensures |items| == |logs|
    ensures forall i :: 0 <= i < |logs| ==> items[i] == Line(logs[i])
  {
    seq(|logs|, i requires 0 <= i < |logs| => Line(logs[i]))
  }

  function ItemsOf(e: ReportEvent): seq<Item> {
    match e
    case Logs(_, lines) => Lines(lines)
    case Report(_, body) => [Entry(body)]
  }

  /** The program order a sequence of events stands for. */
  function Flatten(events: seq<ReportEvent>): seq<Item> {
    if events == [] then [] else Flatten(events[..|events| - 1]) + ItemsOf(events[|events| - 1])
  }

  lemma LinesConcat(a: seq<string>, b: seq<string>)
    ensures Lines(a + b) == Lines(a) + Lines(b)
  {
  }

  lemma {:induction false} FlattenConcat(a: seq<ReportEvent>, b: seq<ReportEvent>)
    ensures Flatten(a + b) == Flatten(a) + Flatten(b)
    decreases |b|
  {
    if b == [] {
      assert a + b == a && Flatten(a) + [] == Flatten(a);
    } else {
      var front, e := b[..|b| - 1], b[|b| - 1];
      assert b == front + [e];
      FlattenConcat(a, front);
      FlattenExtends(a, front, e);
    }
  }

  lemma FlattenExtends(a: seq<ReportEvent>, front: seq<ReportEvent>, e: ReportEvent)
    requires Flatten(a + front) == Flatten(a) + Flatten(front)
    ensures Flatten(a + (front + [e])) == Flatten(a) + Flatten(front + [e])
  {
    ConcatAssociates(a, front, [e]);
    FlattenLast(a + front, e);
    FlattenLast(front, e);
    ConcatAssociates(Flatten(a), Flatten(front), ItemsOf(e));
  }

  lemma FlattenLast(front: seq<ReportEvent>, e: ReportEvent)
    ensures Flatten(front + [e]) == Flatten(front) + ItemsOf(e)
  {
    assert (front + [e])[..|front|] == front;
  }

  /** Consecutive sequence numbers, the first being `from`. */
  ghost predicate Numbered(events: seq<ReportEvent>, from: int) {
    forall i :: 0 <= i < |events| ==> events[i].no == from + i
  }

  // -- Sealing and pushing ---------------------------------------------------

  /** Every buffered log line moved into Logs events of bounded size. */
  function Sealed(b: Buffer): Buffer
    decreases |b.logs|
  {
    if b.logs == [] then b
    else
      var take := Min(|b.logs|, MAX_BATCH_ITEMS);
      Sealed(Buffer(b.nextSeq + 1, b.pending + [Logs(b.nextSeq + 1, b.logs[..take])], b.logs[take..]))
  }

  /** An event pushed behind the log lines that came before it. */
  function Pushed(b: Buffer, body: Body): Buffer {
    var s := Sealed(b);
    Buffer(s.nextSeq + 1, s.pending + [Report(s.nextSeq + 1, body)], s.logs)
  }

  /** `b'` is `b` with freshly numbered events appended. */
  ghost predicate Extends(b: Buffer, b': Buffer) {
    && |b.pending| <= |b'.pending|
    && b'.pending[..|b.pending|] == b.pending
    && Numbered(b'.pending[|b.pending|..], b.nextSeq + 1)
    && b'.nextSeq == b.nextSeq + |b'.pending| - |b.pending|
  }

  /** A Logs event as sealing makes it: between one line and a full batch. */
  predicate WellSized(e: ReportEvent) {
    e.Logs? ==> 1 <= |e.lines| <= MAX_BATCH_ITEMS
  }

  ghost predicate SealedShape(events: seq<ReportEvent>) {
    forall i :: 0 <= i < |events| ==> events[i].Logs? && WellSized(events[i])
  }

  /** What sealing adds to the pending events. */
  function Seals(b: Buffer): seq<ReportEvent>
    decreases |b.logs|
  {
    if b.logs == [] then []
    else
      var take := Min(|b.logs|, MAX_BATCH_ITEMS);
      [Logs(b.nextSeq + 1, b.logs[..take])] + Seals(Buffer(b.nextSeq + 1, [], b.logs[take..]))
  }

  lemma {:induction false} SealAppends(b: Buffer)
    ensures Sealed(b) == Buffer(b.nextSeq + |Seals(b)|, b.pending + Seals(b), [])
    ensures Seals(b) == Seals(b.(pending := []))
    decreases |b.logs|
  {
    if b.logs != [] {
      var take := Min(|b.logs|, MAX_BATCH_ITEMS);
      var first := Logs(b.nextSeq + 1, b.logs[..take]);
      var next := Buffer(b.nextSeq + 1, b.pending + [first], b.logs[take..]);
      SealAppends(next);
      assert b.pending + Seals(b) == next.pending + Seals(next);
    }
  }

  lemma {:induction false} SealsNumbered(b: Buffer)
    ensures Numbered(Seals(b), b.nextSeq + 1) && SealedShape(Seals(b))
    decreases |b.logs|
  {
    if b.logs != [] {
      SealsNumbered(Buffer(b.nextSeq + 1, [], b.logs[Min(|b.logs|, MAX_BATCH_ITEMS)..]));
    }
  }

  lemma {:induction false} SealsFlatten(b: Buffer)
    ensures Flatten(Seals(b)) == Lines(b.logs)
    decreases |b.logs|
  {
    if b.logs != [] {
      var take := Min(|b.logs|, MAX_BATCH_ITEMS);
      var first := Logs(b.nextSeq + 1, b.logs[..take]);
      var next := Buffer(b.nextSeq + 1, [], b.logs[take..]);
      SealsFlatten(next);
      assert Seals(b) == [first] + Seals(next);
      FlattenConcat([first], Seals(next));
      FlattenOne(first);
      LinesSplit(b.logs, take);
    }
  }

  /** Sealing fills every event but the last. */
  lemma {:induction false} SealsFull(b: Buffer, i: nat)
    requires i + 1 < |Seals(b)|
    ensures Seals(b)[i].Logs? && |Seals(b)[i].lines| == MAX_BATCH_ITEMS
    decreases |b.logs|
  {
    var take := Min(|b.logs|, MAX_BATCH_ITEMS);
    var rest := Buffer(b.nextSeq + 1, [], b.logs[take..]);
    if i > 0 {
      SealsFull(rest, i - 1);
    } else {
      assert Seals(rest) != [] && rest.logs != [];
    }
  }

  lemma FlattenOne(e: ReportEvent)
    ensures Flatten([e]) == ItemsOf(e)
  {
    FlattenLast([], e);
    assert [] + [e] == [e] && [] + ItemsOf(e) == ItemsOf(e);
  }

  lemma LinesSplit(logs: seq<string>, take: nat)
    requires take <= |logs|
    ensures Lines(logs) == Lines(logs[..take]) + Lines(logs[take..])
  {
    assert logs[..take] + logs[take..] == logs;
    LinesConcat(logs[..take], logs[take..]);
  }

  /** Sealing empties the log buffer, numbers what it adds without a hole, keeps
      every line in order, and never makes an event outside 1..5000 lines. */
  lemma SealKeepsOrder(b: Buffer)
    ensures Sealed(b).logs == []
    ensures Extends(b, Sealed(b))
    ensures SealedShape(Sealed(b).pending[|b.pending|..])
    ensures Flatten(Sealed(b).pending[|b.pending|..]) == Lines(b.logs)
  {
    SealAppends(b);
    SealsNumbered(b);
    SealsFlatten(b);
    assert Sealed(b).pending[|b.pending|..] == Seals(b);
  }

  lemma PushKeepsOrder(b: Buffer, body: Body)
    ensures Pushed(b, body).logs == []
    ensures Extends(b, Pushed(b, body))
    ensures Flatten(Pushed(b, body).pending[|b.pending|..]) == Lines(b.logs) + [Entry(body)]
  {
    SealKeepsOrder(b);
    var s := Sealed(b);
    var added := Pushed(b, body).pending[|b.pending|..];
    assert added[..|added| - 1] == s.pending[|b.pending|..];
  }

  // -- Acknowledgement -------------------------------------------------------

  /** What an acknowledgement through `lastSeq` leaves in the buffer. */
  function Retained(pending: seq<ReportEvent>, lastSeq: int): seq<ReportEvent> {
    if pending == [] then []
    else if pending[0].no > lastSeq then [pending[0]] + Retained(pending[1..], lastSeq)
    else Retained(pending[1..], lastSeq)
  }

  /** On consecutively numbered events an acknowledgement drops a prefix: exactly
      the events it covers. */
  lemma {:induction false} RetainedDropsPrefix(pending: seq<ReportEvent>, from: int, lastSeq: int)
    requires Numbered(pending, from)
    ensures var cut := Min(Max(lastSeq - from + 1, 0), |pending|);
            Retained(pending, lastSeq) == pending[cut..]
  {
    if pending != [] {
      RetainedDropsPrefix(pending[1..], from + 1, lastSeq);
    }
  }

  // -- The store's side ------------------------------------------------------

  /** Taking a report in order: an event not beyond the recorded number is a
      redelivery and is skipped; any other is recorded and moves the number. */
  function ApplyReport(last: int, events: seq<ReportEvent>): (result: (int, seq<ReportEvent>))
    decreases |events|
  {
    if events == [] then (last, [])
    else if events[0].no <= last then ApplyReport(last, events[1..])
    else
      var (end, taken) := ApplyReport(events[0].no, events[1..]);
      (end, [events[0]] + taken)
  }

  /** Of a consecutive report exactly the events beyond the recorded number are taken, a
      report that starts further on included. */
  lemma {:induction false} ApplyTakesUnseen(last: int, events: seq<ReportEvent>, from: int)
    requires Numbered(events, from)
    ensures var seen := Min(Max(last - from + 1, 0), |events|);
            ApplyReport(last, events) == (Max(last, from + |events| - 1), events[seen..]) || events == []
    decreases |events|
  {
    if events != [] {
      var next := if events[0].no <= last then last else events[0].no;
      ApplyTakesUnseen(next, events[1..], from + 1);
      if events[0].no > last {
        assert events == [events[0]] + events[1..];
      }
    }
  }

  /** A consecutive report that starts at or before the next expected number adds
      exactly its unseen tail, so the store's numbers stay consecutive. */
  lemma ApplyTakesUnseenTail(last: int, events: seq<ReportEvent>, from: int)
    requires Numbered(events, from)
    requires from <= last + 1
    ensures var seen := Min(last - from + 1, |events|);
            ApplyReport(last, events) == (last + |events| - seen, events[seen..])
  {
    ApplyTakesUnseen(last, events, from);
  }

  // -- Request sizes -----------------------------------------------------------

  /** The items a request made of these events carries. */
  function ItemCount(events: seq<ReportEvent>): nat {
    if events == [] then 0
    else ItemCount(events[..|events| - 1]) + Size(events[|events| - 1])
  }

  function Size(e: ReportEvent): nat {
    match e
    case Logs(_, lines) => Max(|lines|, 1)
    case Report(_, _) => 1
  }

  /** A request carries an item per event and per log line; only a log event without lines
      counts more than it holds. */
  lemma {:induction false} ItemsCounted(events: seq<ReportEvent>)
    requires forall i :: 0 <= i < |events| ==> events[i].Logs? ==> events[i].lines != []
    ensures ItemCount(events) == |Flatten(events)|
  {
    if events != [] {
      ItemsCounted(events[..|events| - 1]);
    }
  }

  /** Every event fits into a request. */
  ghost predicate Fitting(events: seq<ReportEvent>) {
    forall i :: 0 <= i < |events| ==> Size(events[i]) <= MAX_BATCH_ITEMS
  }

  lemma SealFits(b: Buffer)
    requires Fitting(b.pending)
    ensures Fitting(Sealed(b).pending)
  {
    SealAppends(b);
    SealsNumbered(b);
    assert forall i :: 0 <= i < |Seals(b)| ==> WellSized(Seals(b)[i]);
  }

  lemma PushFits(b: Buffer, body: Body)
    requires Fitting(b.pending)
    ensures Fitting(Pushed(b, body).pending)
  {
    SealFits(b);
  }

  lemma {:induction false} RetainedFits(pending: seq<ReportEvent>, lastSeq: int)
    requires Fitting(pending)
    ensures Fitting(Retained(pending, lastSeq))
  {
    if pending != [] {
      RetainedFits(pending[1..], lastSeq);
    }
  }

  /** What goes into the next request: the longest prefix within the budget, and at
      least one event when there is any. */
  ghost predicate IsChunk(pending: seq<ReportEvent>, chunk: seq<ReportEvent>) {
    && chunk <= pending
    && (pending != [] ==> chunk != [])
    && (ItemCount(chunk) <= MAX_BATCH_ITEMS || |chunk| == 1)
    && (|chunk| < |pending| ==> ItemCount(pending[..|chunk| + 1]) > MAX_BATCH_ITEMS)
  }

  /** No request is over the budget when every event fits into one. */
  lemma ChunkFits(pending: seq<ReportEvent>, chunk: seq<ReportEvent>)
    requires Fitting(pending) && IsChunk(pending, chunk)
    ensures ItemCount(chunk) <= MAX_BATCH_ITEMS
  {
    if |chunk| == 1 {
      assert chunk[..0] == [] && chunk[0] == pending[0];
    }
  }

  // -- In place --------------------------------------------------------------

  class RunBuffer {
    var nextSeq: int
    var pending: seq<ReportEvent>
    var logs: seq<string>
    var cancel: bool
    var droppedLogs: nat

    function View(): Buffer
      reads this
    {
      Buffer(nextSeq, pending, logs)
    }

    /** Kept by every method: what is pending can be sent. */
    ghost predicate Valid()
      reads this
    {
      Fitting(pending)
    }

    constructor ()
      ensures Valid() && View() == Buffer(0, [], []) && !cancel && droppedLogs == 0
    {
      nextSeq, pending, logs, cancel, droppedLogs := 0, [], [], false, 0;
    }

    /** Number on from what the store has, never backwards. */
    method BeginRun(startSeq: int)
      modifies this`nextSeq
      ensures View() == old(View()).(nextSeq := Max(old(nextSeq), startSeq))
    {
      nextSeq := Max(nextSeq, startSeq);
    }

    method SealLogs()
      requires Valid()
      modifies this`nextSeq, this`pending, this`logs
      ensures Valid() && View() == Sealed(old(View()))
    {
      SealFits(View());
      while logs != []
        invariant Sealed(View()) == Sealed(old(View()))
        decreases |logs|
      {
        var take := Min(|logs|, MAX_BATCH_ITEMS);
        var rest := logs[take..];
        var head := logs[..take];
        logs := rest;
        nextSeq := nextSeq + 1;
        pending := pending + [Logs(nextSeq, head)];
      }
    }

    method Push(body: Body)
      requires Valid()
      modifies this`nextSeq, this`pending, this`logs
      ensures Valid() && View() == Pushed(old(View()), body)
    {
      SealLogs();
      nextSeq := nextSeq + 1;
      pending := pending + [Report(nextSeq, body)];
    }

    /** Buffer one log line, or count it as dropped when the buffer is full. */
    method Log(line: string)
      modifies this`logs, this`droppedLogs
      ensures if |old(logs)| + |pending| >= MAX_BUFFERED_LOGS
              then logs == old(logs) && droppedLogs == old(droppedLogs) + 1
              else logs == old(logs) + [line] && droppedLogs == old(droppedLogs)
    {
      if |logs| + |pending| >= MAX_BUFFERED_LOGS {
        droppedLogs := droppedLogs + 1;
        return;
      }
      logs := logs + [line];
    }

    /** As many of the oldest events as fit one request, at least one if there is any. */
    method NextChunk() returns (chunk: seq<ReportEvent>)
      requires Valid()
      ensures IsChunk(pending, chunk) && ItemCount(chunk) <= MAX_BATCH_ITEMS
    {
      var items, count := 0, 0;
      while count < |pending|
        invariant 0 <= count <= |pending|
        invariant items == ItemCount(pending[..count])
        invariant items <= MAX_BATCH_ITEMS
      {
        var size := Size(pending[count]);
        assert pending[..count + 1][..count] == pending[..count];
        if count > 0 && items + size > MAX_BATCH_ITEMS {
          break;
        }
        items := items + size;
        count := count + 1;
      }
      chunk := pending[..count];
    }

    /** A 2xx answer: events up to the acknowledged number are done with. */
    method Acknowledge(lastSeq: int, cancelled: bool) returns (more: bool)
      requires Valid()
      modifies this`pending, this`cancel
      ensures Valid() && pending == Retained(old(pending), lastSeq)
      ensures cancel == (old(cancel) || cancelled)
      ensures more == (pending != [] || logs != [])
    {
      RetainedFits(pending, lastSeq);
      var kept: seq<ReportEvent>, i := [], 0;
      while i < |pending|
        invariant 0 <= i <= |pending|
        invariant kept + Retained(pending[i..], lastSeq) == Retained(pending, lastSeq)
      {
        assert pending[i..][1..] == pending[i + 1..];
        if pending[i].no > lastSeq {
          kept := kept + [pending[i]];
        }
        i := i + 1;
      }
      assert pending[|pending|..] == [] && kept + [] == kept;
      pending := kept;
      cancel := cancel || cancelled;
      more := pending != [] || logs != [];
    }

    /** A 404 answer: the run is gone. */
    method Forget()
      modifies this`pending, this`logs, this`cancel
      ensures Valid() && View() == old(View()).(pending := [], logs := []) && cancel
    {
      pending, logs, cancel := [], [], true;
    }

    /** A 409 stale-lease answer: what was buffered is not the run's history. */
    method Superseded()
      modifies this`pending, this`cancel
      ensures Valid() && View() == old(View()).(pending := []) && cancel
    {
      pending, cancel := [], true;
    }

    /** A 413 answer: the oldest event, if it holds log lines, loses the second half
        of them. */
    method Shed()
      requires Valid()
      modifies this`pending, this`droppedLogs
      ensures Valid() && pending == ShedOf(old(pending))
      ensures droppedLogs == old(droppedLogs) + LineCount(old(pending)) - LineCount(pending)
    {
      ShedCounts(pending);
      if pending != [] && pending[0].Logs? {
        var lines := pending[0].lines;
        var keep := Half(|lines|);
        droppedLogs := droppedLogs + |lines| - keep;
        pending := pending[0 := Logs(pending[0].no, lines[..keep])];
      }
    }
  }

  /** Half of `n`, rounded down. */
  function Half(n: nat): (h: nat)
    ensures 2 * h <= n <= 2 * h + 1
  {
    if n < 2 then 0 else 1 + Half(n - 2)
  }

  /** The oldest event's lines cut to the first half. */
  function ShedOf(pending: seq<ReportEvent>): seq<ReportEvent> {
    if pending != [] && pending[0].Logs?
    then pending[0 := Logs(pending[0].no, pending[0].lines[..Half(|pending[0].lines|)])]
    else pending
  }

  function LineCount(events: seq<ReportEvent>): nat {
    if events == [] then 0 else (if events[0].Logs? then |events[0].lines| else 0) + LineCount(events[1..])
  }

  lemma {:induction false} LinesCounted(events: seq<ReportEvent>, e: ReportEvent)
    ensures LineCount([]) == 0
    ensures LineCount(events + [e]) == LineCount(events) + match e case Logs(_, lines) => |lines| case Report(_, _) => 0
  {
    if events == [] {
      assert [e][1..] == [] && events + [e] == [e];
    } else {
      assert (events + [e])[1..] == events[1..] + [e];
      LinesCounted(events[1..], e);
    }
  }

  /** Shedding keeps every number and every other event, and of the oldest event's lines
      the older half: the lines lost are that event's newest. */
  lemma ShedCounts(pending: seq<ReportEvent>)
    ensures var shed := ShedOf(pending);
            && |shed| == |pending|
            && (forall i :: 0 <= i < |shed| ==> shed[i].no == pending[i].no)
            && (forall i :: 1 <= i < |shed| ==> shed[i] == pending[i])
            && LineCount(shed) + ShedLines(pending) == LineCount(pending)
            && (pending != [] && pending[0].Logs? ==>
                 shed[0].Logs? && shed[0].lines <= pending[0].lines
                 && 2 * |shed[0].lines| <= |pending[0].lines| <= 2 * |shed[0].lines| + 1)
  {
    var shed := ShedOf(pending);
    if pending != [] && pending[0].Logs? {
      assert shed[1..] == pending[1..];
    }
  }

  /** How many lines shedding drops. */
  function ShedLines(pending: seq<ReportEvent>): nat {
    if pending != [] && pending[0].Logs? then |pending[0].lines| - Half(|pending[0].lines|) else 0
  }

  /** What the store makes of an event beyond its recorded number: it lands, it is about a
      task run the store does not know, or the store refuses it. The number moves on in
      each case. */
  datatype Verdict = Lands | Unknown | Rejected

  function Judged(events: seq<ReportEvent>, judge: ReportEvent -> Verdict, verdict: Verdict): seq<ReportEvent> {
    if events == [] then []
    else
      var last := events[|events| - 1];
      Judged(events[..|events| - 1], judge, verdict) + if judge(last) == verdict then [last] else []
  }

  /** The events judged so are exactly those, in order. */
  lemma {:induction false} JudgedExactly(before: seq<ReportEvent>, e: ReportEvent, after: seq<ReportEvent>,
                                         judge: ReportEvent -> Verdict, verdict: Verdict)
    ensures Judged(before + [e] + after, judge, verdict)
         == Judged(before, judge, verdict) + (if judge(e) == verdict then [e] else []) + Judged(after, judge, verdict)
    decreases |after|
  {
    var all := before + [e] + after;
    if after == [] {
      assert all[..|all| - 1] == before && all[|all| - 1] == e;
    } else {
      var front, last := after[..|after| - 1], after[|after| - 1];
      assert all[..|all| - 1] == before + [e] + front && all[|all| - 1] == last;
      JudgedExactly(before, e, front, judge, verdict);
    }
  }

  /** The run's row in the store: `recorded` are the events taken, in order, each once. */
  class StoredRun {
    const judge: ReportEvent -> Verdict
    var lease: int
    var reportSeq: int
    var cancelRequested: bool
    var landed: seq<ReportEvent>
    var rejected: seq<ReportEvent>
    ghost var recorded: seq<ReportEvent>

    ghost predicate Valid()
      reads this
    {
      landed == Judged(recorded, judge, Lands) && rejected == Judged(recorded, judge, Rejected)
    }

    constructor (lease: int, judge: ReportEvent -> Verdict)
      ensures Valid() && this.lease == lease && this.judge == judge
      ensures reportSeq == 0 && recorded == [] && !cancelRequested
    {
      this.lease, this.judge, reportSeq, cancelRequested := lease, judge, 0, false;
      landed, rejected, recorded := [], [], [];
    }

    /** Refuse an older lease, otherwise take the events in order and answer with the
        last recorded number and the run's cancel flag. */
    method TakeReport(sent: int, events: seq<ReportEvent>)
      returns (stale: bool, lastSeq: int, cancel: bool)
      requires Valid()
      modifies this`reportSeq, this`recorded, this`landed, this`rejected
      ensures Valid() && stale == (sent != lease) && cancel == cancelRequested
      ensures stale ==> reportSeq == old(reportSeq) && recorded == old(recorded)
      ensures !stale ==> var (end, taken) := ApplyReport(old(reportSeq), events);
                         reportSeq == end && recorded == old(recorded) + taken && lastSeq == end
    {
      stale, lastSeq, cancel := sent != lease, reportSeq, cancelRequested;
      if stale {
        return;
      }
      ghost var (end, taken) := ApplyReport(reportSeq, events);
      var i := 0;
      while i < |events|
        invariant 0 <= i <= |events| && Valid()
        invariant var (e, t) := ApplyReport(reportSeq, events[i..]);
                  e == end && recorded + t == old(recorded) + taken
      {
        assert events[i..][1..] == events[i + 1..];
        if events[i].no > reportSeq {
          TakeOne(events[i]);
        }
        i := i + 1;
      }
      lastSeq := reportSeq;
    }

    /** One event beyond the recorded number. */
    method TakeOne(e: ReportEvent)
      requires Valid()
      modifies this`reportSeq, this`recorded, this`landed, this`rejected
      ensures Valid() && reportSeq == e.no && recorded == old(recorded) + [e]
    {
      assert (recorded + [e])[..|recorded|] == recorded;
      match judge(e) {
        case Lands => landed := landed + [e];
        case Unknown =>
        case Rejected => rejected := rejected + [e];
      }
      reportSeq := e.no;
      recorded := recorded + [e];
    }
  }

  /** The buffer's numbers run on to `nextSeq` and the store has recorded up to
      somewhere among them. */
  ghost predicate InStep(b: Buffer, reportSeq: int) {
    && Numbered(b.pending, b.nextSeq - |b.pending| + 1)
    && b.nextSeq - |b.pending| <= reportSeq <= b.nextSeq
  }

  /** The buffered events, log lines sealed, that the store does not have yet. */
  ghost function Unsent(b: Buffer, reportSeq: int): seq<ReportEvent>
    requires InStep(b, reportSeq)
  {
    b.pending[reportSeq - (b.nextSeq - |b.pending|)..] + Seals(b)
  }

  lemma SealKeepsUnsent(b: Buffer, reportSeq: int)
    requires InStep(b, reportSeq)
    ensures Sealed(b).logs == [] && InStep(Sealed(b), reportSeq)
    ensures Unsent(Sealed(b), reportSeq) == Unsent(b, reportSeq)
  {
    SealAppends(b);
    SealsNumbered(b);
  }

  /** One report of a chunk and its acknowledgement: what the store gained is what
      the buffer no longer owes. */
  lemma ChunkMoves(b: Buffer, reportSeq: int, chunk: seq<ReportEvent>)
    requires InStep(b, reportSeq) && b.logs == [] && chunk <= b.pending
    ensures var (end, taken) := ApplyReport(reportSeq, chunk);
            var rest := b.(pending := Retained(b.pending, end));
            && InStep(rest, end)
            && |rest.pending| <= |b.pending| - |chunk|
            && taken + Unsent(rest, end) == Unsent(b, reportSeq)
  {
    assert chunk == b.pending[..|chunk|];
    ChunkMovesPending(b.pending, b.nextSeq - |b.pending|, reportSeq, |chunk|);
    UnsentIsTail(b, reportSeq);
    var end := ApplyReport(reportSeq, chunk).0;
    UnsentIsTail(b.(pending := Retained(b.pending, end)), end);
  }

  lemma UnsentIsTail(b: Buffer, reportSeq: int)
    requires InStep(b, reportSeq) && b.logs == []
    ensures Unsent(b, reportSeq) == b.pending[reportSeq - (b.nextSeq - |b.pending|)..]
  {
  }

  /** The same on the pending events alone, numbered from `base + 1` on. */
  lemma ChunkMovesPending(pending: seq<ReportEvent>, base: int, reportSeq: int, n: nat)
    requires Numbered(pending, base + 1) && base <= reportSeq <= base + |pending| && n <= |pending|
    ensures var (end, taken) := ApplyReport(reportSeq, pending[..n]);
            var rest := Retained(pending, end);
            && Numbered(rest, base + |pending| - |rest| + 1)
            && base + |pending| - |rest| == end <= base + |pending|
            && |rest| <= |pending| - n
            && taken + rest == pending[reportSeq - base..]
  {
    var k := reportSeq - base;
    var cut := Max(k, n);
    assert ApplyReport(reportSeq, pending[..n]) == (base + cut, pending[..n][Min(k, n)..]) by {
      ApplyTakesUnseenTail(reportSeq, pending[..n], base + 1);
    }
    assert Retained(pending, base + cut) == pending[cut..] by {
      RetainedDropsPrefix(pending, base + 1, base + cut);
    }
    SplitAround(pending, k, n);
    NumberedTail(pending, base + 1, cut);
  }

  lemma SplitAround<T>(s: seq<T>, k: int, n: int)
    requires 0 <= k <= |s| && 0 <= n <= |s|
    ensures s[..n][Min(k, n)..] + s[Max(k, n)..] == s[k..]
  {
  }

  lemma NumberedTail(events: seq<ReportEvent>, from: int, cut: nat)
    requires Numbered(events, from) && cut <= |events|
    ensures Numbered(events[cut..], from + cut)
  {
  }

  /** Record and debt together stay the same when a chunk is taken, acknowledged or not. */
  lemma ChunkOwes(b: Buffer, reportSeq: int, recorded: seq<ReportEvent>, chunk: seq<ReportEvent>)
    requires InStep(b, reportSeq) && b.logs == [] && chunk <= b.pending
    ensures var (end, taken) := ApplyReport(reportSeq, chunk);
            var rest := b.(pending := Retained(b.pending, end));
            && InStep(rest, end) && InStep(b, end)
            && |rest.pending| <= |b.pending| - |chunk|
            && recorded + taken + Unsent(rest, end) == recorded + Unsent(b, reportSeq)
            && recorded + taken + Unsent(b, end) == recorded + Unsent(b, reportSeq)
  {
    ChunkMoves(b, reportSeq, chunk);
    var (end, taken) := ApplyReport(reportSeq, chunk);
    var rest := b.(pending := Retained(b.pending, end));
    ConcatAssociates(recorded, taken, Unsent(rest, end));
    UnacknowledgedOwes(b, end);
  }

  /** Dropping what the store has recorded does not change what it is owed. */
  lemma UnacknowledgedOwes(b: Buffer, end: int)
    requires b.logs == [] && Numbered(b.pending, b.nextSeq - |b.pending| + 1)
    requires b.nextSeq - |b.pending| <= end <= b.nextSeq
    ensures var rest := b.(pending := Retained(b.pending, end));
            InStep(rest, end) && InStep(b, end) && Unsent(b, end) == Unsent(rest, end)
  {
    var base := b.nextSeq - |b.pending|;
    var rest := b.(pending := Retained(b.pending, end));
    NumberedTail(b.pending, base + 1, end - base);
    assert rest.pending == b.pending[end - base..] by {
      RetainedDropsPrefix(b.pending, base + 1, end);
    }
    assert rest.nextSeq - |rest.pending| == end && rest.pending[0..] == rest.pending;
    UnsentIsTail(b, end);
    UnsentIsTail(rest, end);
  }

  /** The store's record followed by what the buffer still owes it. */
  ghost function Owed(buffer: RunBuffer, run: StoredRun): seq<ReportEvent>
    requires InStep(buffer.View(), run.reportSeq)
    reads buffer, run
  {
    run.recorded + Unsent(buffer.View(), run.reportSeq)
  }

  /** How a report request ends: the server takes it and its answer arrives, or is lost;
      nothing reaches the server or it fails; the run is gone; the request is too large. */
  datatype Reply = Answered | AnswerLost | NotTaken | Gone | TooLarge

  datatype Flushed = Sent(more: bool, cancel: bool) | Error

  /** The server saw the request. */
  predicate Arrived(reply: Reply) { reply.Answered? || reply.AnswerLost? }

  /** Nothing is thrown away on these replies. */
  predicate Keeps(reply: Reply) { Arrived(reply) || reply.NotTaken? }

  /** The answer tells the engine to stop the run: it is gone, another engine has it, or
      its cancellation was asked for. */
  predicate Stops(reply: Reply, current: bool, cancelRequested: bool) {
    reply.Gone? || (reply.Answered? && (!current || cancelRequested))
  }

  /** The request reaches the server and its answer the engine. */
  method Answer(buffer: RunBuffer, run: StoredRun, lease: int, chunk: seq<ReportEvent>) returns (out: Flushed)
    requires buffer.Valid() && run.Valid() && InStep(buffer.View(), run.reportSeq)
    requires buffer.logs == [] && chunk <= buffer.pending && chunk != []
    modifies buffer`pending, buffer`cancel, run`reportSeq, run`recorded, run`landed, run`rejected
    ensures buffer.Valid() && run.Valid()
    ensures out.Sent? && out.cancel == (lease != run.lease || run.cancelRequested)
    ensures buffer.cancel == (old(buffer.cancel) || out.cancel)
    ensures out.Sent? && out.more == (buffer.pending != []) && |buffer.pending| < |old(buffer.pending)|
    ensures lease == run.lease ==>
              && InStep(buffer.View(), run.reportSeq) && Owed(buffer, run) == old(Owed(buffer, run))
              && buffer.pending == Retained(old(buffer.pending), run.reportSeq)
    ensures lease != run.lease ==>
              buffer.pending == [] && run.recorded == old(run.recorded) && run.reportSeq == old(run.reportSeq)
  {
    ChunkOwes(buffer.View(), run.reportSeq, run.recorded, chunk);
    var stale, lastSeq, cancel := run.TakeReport(lease, chunk);
    if stale {
      buffer.Superseded();
      return Sent(false, true);
    }
    var more := buffer.Acknowledge(lastSeq, cancel);
    out := Sent(more, cancel);
  }

  /** The request reaches the server and the answer is lost: the engine keeps everything. */
  method LoseAnswer(buffer: RunBuffer, run: StoredRun, lease: int, chunk: seq<ReportEvent>)
    requires run.Valid() && InStep(buffer.View(), run.reportSeq) && buffer.logs == [] && chunk <= buffer.pending
    modifies run`reportSeq, run`recorded, run`landed, run`rejected
    ensures run.Valid() && InStep(buffer.View(), run.reportSeq)
    ensures lease == run.lease ==> Owed(buffer, run) == old(Owed(buffer, run))
    ensures lease != run.lease ==> run.recorded == old(run.recorded) && run.reportSeq == old(run.reportSeq)
  {
    ChunkOwes(buffer.View(), run.reportSeq, run.recorded, chunk);
    var _, _, _ := run.TakeReport(lease, chunk);
  }

  lemma ShedInStep(b: Buffer, reportSeq: int)
    requires InStep(b, reportSeq)
    ensures InStep(b.(pending := ShedOf(b.pending)), reportSeq)
  {
    ShedCounts(b.pending);
  }

  /** One request with this chunk, ending as `reply` says. */
  method Exchange(buffer: RunBuffer, run: StoredRun, lease: int, chunk: seq<ReportEvent>, reply: Reply)
    returns (out: Flushed)
    requires buffer.Valid() && run.Valid() && InStep(buffer.View(), run.reportSeq)
    requires buffer.logs == [] && buffer.pending != [] && IsChunk(buffer.pending, chunk)
    modifies buffer`pending, buffer`logs, buffer`cancel, buffer`droppedLogs
    modifies run`reportSeq, run`recorded, run`landed, run`rejected
    ensures buffer.Valid() && run.Valid() && buffer.logs == []
    ensures lease == run.lease && Keeps(reply) ==>
              InStep(buffer.View(), run.reportSeq) && Owed(buffer, run) == old(Owed(buffer, run))
    ensures !(lease == run.lease && Arrived(reply)) ==>
              run.recorded == old(run.recorded) && run.reportSeq == old(run.reportSeq)
    ensures out.Sent? <==> reply.Answered? || reply.Gone?
    ensures out.Sent? ==> out.cancel == Stops(reply, lease == run.lease, run.cancelRequested)
    ensures buffer.cancel == (old(buffer.cancel) || Stops(reply, lease == run.lease, run.cancelRequested))
    ensures reply.AnswerLost? || reply.NotTaken? ==> buffer.pending == old(buffer.pending)
    ensures buffer.droppedLogs == old(buffer.droppedLogs)
              + if reply.TooLarge? then ShedLines(old(buffer.pending)) else 0
    ensures out.Sent? ==> out.more == (buffer.pending != [])
    ensures out.Sent? && out.more ==>
              lease == run.lease && reply.Answered? && |buffer.pending| < |old(buffer.pending)|
    ensures out.Error? ==> InStep(buffer.View(), run.reportSeq)
    ensures reply.TooLarge? ==> buffer.pending == ShedOf(old(buffer.pending))
  {
    match reply {
      case Answered =>
        out := Answer(buffer, run, lease, chunk);
      case AnswerLost =>
        LoseAnswer(buffer, run, lease, chunk);
        out := Error;
      case NotTaken =>
        out := Error;
      case Gone =>
        buffer.Forget();
        out := Sent(false, true);
      case TooLarge =>
        ShedInStep(buffer.View(), run.reportSeq);
        ShedCounts(buffer.pending);
        buffer.Shed();
        out := Error;
    }
  }

  /** Send one chunk. Under the current lease record and debt together stay the same,
      whatever the network does, unless the run is gone or the request too large; more is
      left to send only after progress; under another lease nothing lands. */
  method FlushChunk(buffer: RunBuffer, run: StoredRun, lease: int, reply: Reply) returns (out: Flushed)
    requires buffer.Valid() && run.Valid() && InStep(buffer.View(), run.reportSeq)
    modifies buffer`nextSeq, buffer`pending, buffer`logs, buffer`cancel, buffer`droppedLogs
    modifies run`reportSeq, run`recorded, run`landed, run`rejected
    ensures buffer.Valid() && run.Valid() && buffer.logs == []
    ensures lease == run.lease && Keeps(reply) ==>
              InStep(buffer.View(), run.reportSeq) && Owed(buffer, run) == old(Owed(buffer, run))
    ensures !(lease == run.lease && Arrived(reply)) ==>
              run.recorded == old(run.recorded) && run.reportSeq == old(run.reportSeq)
    ensures old(Sealed(buffer.View())).pending == [] ==>
              out == Sent(false, old(buffer.cancel)) && buffer.cancel == old(buffer.cancel)
    ensures old(Sealed(buffer.View())).pending != [] ==>
              var stops := Stops(reply, lease == run.lease, run.cancelRequested);
              && buffer.cancel == (old(buffer.cancel) || stops) && (out.Sent? ==> out.cancel == stops)
              && (out.Sent? <==> reply.Answered? || reply.Gone?)
    ensures reply.AnswerLost? || reply.NotTaken? ==> buffer.pending == old(Sealed(buffer.View())).pending
    ensures out.Sent? ==> out.more == (buffer.pending != [])
    ensures out.Sent? && out.more ==>
              lease == run.lease && reply.Answered? && |buffer.pending| < |old(Sealed(buffer.View())).pending|
    ensures out.Error? ==> !reply.Answered? && !reply.Gone? && InStep(buffer.View(), run.reportSeq)
    ensures reply.TooLarge? ==> buffer.pending == ShedOf(old(Sealed(buffer.View())).pending)
    ensures buffer.droppedLogs == old(buffer.droppedLogs)
              + if reply.TooLarge? then ShedLines(old(Sealed(buffer.View())).pending) else 0
  {
    SealKeepsUnsent(buffer.View(), run.reportSeq);
    buffer.SealLogs();
    if buffer.pending == [] {
      return Sent(false, buffer.cancel);
    }
    var chunk := buffer.NextChunk();
    out := Exchange(buffer, run, lease, chunk, reply);
  }

  /** One of the first `n` answers told the engine to stop. */
  function AnyStops(replies: nat -> Reply, n: nat, current: bool, cancelRequested: bool): bool {
    n > 0 && (AnyStops(replies, n - 1, current, cancelRequested) || Stops(replies(n - 1), current, cancelRequested))
  }

  lemma {:induction false} AnyStopsExactly(replies: nat -> Reply, n: nat, current: bool, cancelRequested: bool)
    ensures AnyStops(replies, n, current, cancelRequested)
       <==> exists k :: 0 <= k < n && Stops(replies(k), current, cancelRequested)
  {
    if n > 0 {
      AnyStopsExactly(replies, n - 1, current, cancelRequested);
    }
  }

  /** Send everything buffered for one run, chunk by chunk, stopping at the first error;
      `replies` says how each request ends. Always ends. As long as no reply threw anything
      away, record and debt together are what they were; without an error the debt is
      paid: the store holds every buffered event once, in order, log lines included. */
  method FlushRun(buffer: RunBuffer, run: StoredRun, lease: int, replies: nat -> Reply)
    returns (out: Flushed, used: nat)
    requires buffer.Valid() && run.Valid() && InStep(buffer.View(), run.reportSeq)
    modifies buffer`nextSeq, buffer`pending, buffer`logs, buffer`cancel, buffer`droppedLogs
    modifies run`reportSeq, run`recorded, run`landed, run`rejected
    ensures buffer.Valid() && run.Valid() && buffer.logs == []
    ensures out.Sent? ==> !out.more && buffer.pending == []
    ensures lease == run.lease && (forall k :: 0 <= k < used ==> Keeps(replies(k))) ==>
              InStep(buffer.View(), run.reportSeq) && Owed(buffer, run) == old(Owed(buffer, run))
    ensures lease == run.lease && (forall k :: 0 <= k < used ==> Keeps(replies(k))) && out.Sent? ==>
              run.reportSeq == buffer.nextSeq && run.recorded == old(Owed(buffer, run))
    ensures lease != run.lease ==> run.recorded == old(run.recorded) && run.reportSeq == old(run.reportSeq)
    ensures used >= 1 && (out.Sent? ==>
              out.cancel == if old(Sealed(buffer.View())).pending == [] then old(buffer.cancel)
                            else AnyStops(replies, used, lease == run.lease, run.cancelRequested))
    ensures buffer.cancel == (old(buffer.cancel) || (old(Sealed(buffer.View())).pending != []
                              && AnyStops(replies, used, lease == run.lease, run.cancelRequested)))
  {
    var cancelled := false;
    used := 0;
    ghost var some := Sealed(buffer.View()).pending != [];
    while true
      invariant (Sealed(buffer.View()).pending != []) == some && (used > 0 ==> some)
      invariant cancelled == AnyStops(replies, used, lease == run.lease, run.cancelRequested)
      invariant buffer.cancel == (old(buffer.cancel) || cancelled)
      invariant buffer.Valid() && run.Valid() && InStep(buffer.View(), run.reportSeq)
      invariant lease == run.lease ==> Owed(buffer, run) == old(Owed(buffer, run))
      invariant lease != run.lease ==> run.recorded == old(run.recorded) && run.reportSeq == old(run.reportSeq)
      decreases |Sealed(buffer.View()).pending|
    {
      out := FlushChunk(buffer, run, lease, replies(used));
      used := used + 1;
      if out.Error? {
        return;
      }
      cancelled := cancelled || out.cancel;
      if !out.more {
        out := Sent(false, cancelled);
        return;
      }
    }
  }
}
