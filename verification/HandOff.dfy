/** A hand-off over a report that was admitted but not yet applied: exactly when handing
    the run out is safe, and a run of the protocol in which it is not. */
module HandOff {
  import opened Delivery
  import opened ReportBuffer
  import opened ReportProtocol

  ghost predicate LosslessAfter(s: State, steps: seq<Step>) {
    EnabledRun(s, steps) && Lossless(Exec(s, steps))
  }

  ghost predicate AlwaysLossless(s: State) {
    forall steps :: OrderlyRun(s, steps) ==> LosslessAfter(s, steps)
  }

  /** What goes wrong: the new engine reports its first event, the late report
      lands before it and takes the number, and the new report is skipped as a
      redelivery and acknowledged away. */
  function LosingRun(s: State, late: Request): seq<Step> {
    Announce(s) + Overtake(s, late)
  }

  function FirstEvent(s: State): ReportEvent { Report(s.reportSeq + 1, Custom("first", "")) }

  function Announce(s: State): seq<Step> { [Push(|s.engines|, Custom("first", "")), Send(|s.engines|, 1)] }

  function Overtake(s: State, late: Request): seq<Step> {
    var q := Request(s.lease, [FirstEvent(s)]);
    var (end, _) := ApplyReport(s.reportSeq, late.events);
    [Apply(late), Admit(q), Apply(q), Receive(|s.engines|, Ack(s.lease, end))]
  }

  lemma {:induction false} SegmentLeases(engines: seq<Engine>, upto: int, lease: int)
    requires Segmented(engines, upto)
    requires forall i :: 0 <= i < |engines| ==> engines[i].lease < lease
    ensures forall k :: 0 <= k < |Segments(engines, upto)| ==> Segments(engines, upto)[k].lease < lease
    decreases |engines|
  {
    if engines != [] {
      SegmentLeases(engines[..|engines| - 1], engines[|engines| - 1].start, lease);
    }
  }

  /** A newly handed engine and its first event. */
  function Newcomer(lease: int, start: int): Engine { Engine(lease, start, [], [], Buffer(start, [], [])) }

  function Reporting(lease: int, start: int, body: Body): Engine {
    var event := Report(start + 1, body);
    Engine(lease, start, [Entry(body)], [event], Buffer(start + 1, [event], []))
  }

  lemma NewcomerPushes(lease: int, start: int, body: Body)
    ensures Pushing(Newcomer(lease, start), body) == Reporting(lease, start, body)
  {
    var e := Newcomer(lease, start);
    assert Pushed(e.buffer, body).pending == [Report(start + 1, body)];
    assert e.issued + Pushed(e.buffer, body).pending[0..] == [Report(start + 1, body)];
  }

  lemma {:induction false} RunsJoin(s: State, a: seq<Step>, b: seq<Step>)
    requires OrderlyRun(s, a) && EnabledRun(s, a) && OrderlyRun(Exec(s, a), b) && EnabledRun(Exec(s, a), b)
    ensures OrderlyRun(s, a + b) && EnabledRun(s, a + b) && Exec(s, a + b) == Exec(Exec(s, a), b)
    decreases |a|
  {
    if a == [] {
      assert a + b == b;
    } else {
      RunsJoin(Do(s, a[0]), a[1..], b);
      assert (a + b)[1..] == a[1..] + b;
    }
  }

  lemma OneStep(s: State, steps: seq<Step>, t: State)
    requires steps != [] && !steps[0].HandOut? && Enabled(s, steps[0])
    requires OrderlyRun(Do(s, steps[0]), steps[1..]) && EnabledRun(Do(s, steps[0]), steps[1..])
    requires Exec(Do(s, steps[0]), steps[1..]) == t
    ensures OrderlyRun(s, steps) && EnabledRun(s, steps) && Exec(s, steps) == t
  {
  }

  function Announced(s: State): State {
    s.(engines := s.engines + [Reporting(s.lease, s.reportSeq, Custom("first", ""))],
       sent := s.sent + {Request(s.lease, [FirstEvent(s)])})
  }

  lemma AnnounceRuns(s: State)
    requires Enabled(s, HandOut)
    ensures var t := Do(s, HandOut);
            OrderlyRun(t, Announce(s)) && EnabledRun(t, Announce(s)) && Exec(t, Announce(s)) == Announced(s)
  {
    var body, steps := Custom("first", ""), Announce(s);
    NewcomerPushes(s.lease, s.reportSeq, body);
    var s1 := Do(s, HandOut);
    var s2 := Do(s1, steps[0]);
    assert s2.engines == s.engines + [Reporting(s.lease, s.reportSeq, body)];
    assert s2.engines[|s.engines|].buffer.pending[..1] == [FirstEvent(s)];
    assert Do(s2, steps[1]) == Announced(s);
    assert steps[1..][1..] == [];
    OneStep(s2, steps[1..], Announced(s));
    OneStep(s1, steps, Announced(s));
  }

  function Overtaken(s: State, late: Request): State {
    var (end, taken) := ApplyReport(s.reportSeq, late.events);
    var q := Request(s.lease, [FirstEvent(s)]);
    Announced(s).(
      reportSeq := end,
      history := s.history + Tag(late.lease, taken),
      engines := s.engines + [Dropping(Reporting(s.lease, s.reportSeq, Custom("first", "")))],
      admitted := s.admitted + {q},
      acks := s.acks + {Ack(late.lease, end)} + {Ack(s.lease, end)})
  }

  lemma OvertakeRuns(s: State, late: Request)
    requires late in s.admitted && ApplyReport(s.reportSeq, late.events).0 > s.reportSeq
    ensures var t := Announced(s);
            && OrderlyRun(t, Overtake(s, late)) && EnabledRun(t, Overtake(s, late))
            && Exec(t, Overtake(s, late)) == Overtaken(s, late)
  {
    var steps, u := Overtake(s, late), Overtaken(s, late);
    var (end, taken) := ApplyReport(s.reportSeq, late.events);
    var event := FirstEvent(s);
    var s3 := Announced(s);
    var s4 := Do(s3, steps[0]);
    var s5 := Do(s4, steps[1]);
    assert ApplyReport(end, [event]) == (end, []);
    assert s5.history + Tag(s.lease, []) == s5.history;
    var s6 := Do(s5, steps[2]);
    assert Retained([event], end) == [];
    assert Do(s6, steps[3]) == u;
    assert steps[4..] == [];
    OneStep(s6, steps[3..], u);
    OneStep(s5, steps[2..], u);
    OneStep(s4, steps[1..], u);
    OneStep(s3, steps, u);
  }

  lemma LosingRunEnds(s: State, late: Request)
    requires Inv(s) && Enabled(s, HandOut) && late in s.admitted && !Seen(late.events, s.reportSeq)
    ensures var t := Do(s, HandOut);
            && OrderlyRun(t, LosingRun(s, late)) && EnabledRun(t, LosingRun(s, late))
            && Exec(t, LosingRun(s, late)) == Overtaken(s, late)
  {
    LateAdvances(s, late);
    AnnounceRuns(s);
    OvertakeRuns(s, late);
    RunsJoin(Do(s, HandOut), Announce(s), Overtake(s, late));
  }

  lemma LosingRunLoses(s: State, late: Request)
    requires Inv(s) && Enabled(s, HandOut) && late in s.admitted && !Seen(late.events, s.reportSeq)
    ensures OrderlyRun(Do(s, HandOut), LosingRun(s, late))
    ensures !LosslessAfter(Do(s, HandOut), LosingRun(s, late))
  {
    LosingRunEnds(s, late);
    OvertakenLoses(s, late);
  }

  lemma OvertakenLoses(s: State, late: Request)
    requires Inv(s) && Enabled(s, HandOut) && late in s.admitted && !Seen(late.events, s.reportSeq)
    ensures !Lossless(Overtaken(s, late))
  {
    NotLossless(s, Overtaken(s, late), late, FirstEvent(s), ApplyReport(s.reportSeq, late.events).1);
  }

  lemma LateAdvances(s: State, late: Request)
    requires Inv(s) && late in s.admitted && !Seen(late.events, s.reportSeq)
    ensures ApplyReport(s.reportSeq, late.events).0 > s.reportSeq
  {
    FreshFits(s, late);
    FitsNumbered(Top(s), late.events, s.reportSeq);
    UnseenAdvances(s.reportSeq, late.events);
  }

  lemma FitsNumbered(e: Engine, events: seq<ReportEvent>, reportSeq: int)
    requires Numbered(e.issued, e.start + 1) && Fits(e, events, reportSeq)
    ensures events != [] && Numbered(events, events[0].no) && events[0].no <= reportSeq + 1
  {
  }

  lemma UnseenAdvances(last: int, events: seq<ReportEvent>)
    requires events != [] && Numbered(events, events[0].no) && events[0].no <= last + 1 && !Seen(events, last)
    ensures ApplyReport(last, events).0 > last
  {
    var i :| 0 <= i < |events| && events[i].no > last;
    ApplyTakesUnseenTail(last, events, events[0].no);
  }

  lemma NotLossless(s: State, t: State, late: Request, event: ReportEvent, taken: seq<ReportEvent>)
    requires Inv(s) && Enabled(s, HandOut) && late in s.admitted && !Seen(late.events, s.reportSeq)
    requires t.lease == s.lease && t.history == s.history + Tag(late.lease, taken)
    requires t.engines != [] && Top(t).lease == s.lease
    requires Top(t).issued == [event] && Top(t).buffer.pending == []
    ensures !Lossless(t)
  {
    FreshFits(s, late);
    assert late.lease == Top(s).lease < s.lease;
    SegmentLeases(s.engines, s.reportSeq, s.lease);
    NoRecordUnder(s.history, Tag(late.lease, taken), s.lease);
    assert Top(t).issued[0] == event;
    assert Record(s.lease, event) !in t.history;
  }

  lemma NoRecordUnder(a: seq<Record>, b: seq<Record>, lease: int)
    requires forall k :: 0 <= k < |a| ==> a[k].lease != lease
    requires forall k :: 0 <= k < |b| ==> b[k].lease != lease
    ensures forall r :: r in a + b ==> r.lease != lease
  {
  }

  /** Handing the run out loses nothing from then on, in every orderly continuation,
      exactly when no admitted report is still waiting to be applied at that moment. The
      lease check and the write are separate in the source, so the condition is
      not guaranteed. */
  lemma HandOutSafeExactlyWhenDrained(s: State)
    requires Inv(s) && Enabled(s, HandOut)
    ensures Drained(s) <==> AlwaysLossless(Do(s, HandOut))
  {
    var t := Do(s, HandOut);
    if Drained(s) {
      HandOutKeeps(s);
      forall steps | OrderlyRun(t, steps)
        ensures LosslessAfter(t, steps)
      {
        RunKeeps(t, steps);
        InvLossless(Exec(t, steps));
      }
    } else {
      var r :| r in s.admitted && !Seen(r.events, s.reportSeq);
      LosingRunLoses(s, r);
    }
  }

  function RaceSteps(): seq<Step> {
    [Claim, HandOut] + (Announce(Do(Init(), Claim)) + [Admit(RaceRequest()), Claim])
  }

  function RaceRequest(): Request { Request(1, [FirstEvent(Init())]) }

  /** The first engine's report is admitted, not applied, and the run has been
      claimed again. */
  function RaceState(): State {
    State(2, 0, [], [Reporting(1, 0, Custom("first", ""))], {RaceRequest()}, {RaceRequest()}, {})
  }

  lemma RaceReached()
    ensures OrderlyRun(Init(), RaceSteps()) && EnabledRun(Init(), RaceSteps())
    ensures Exec(Init(), RaceSteps()) == RaceState()
  {
    var s1 := Do(Init(), Claim);
    var s2 := Do(s1, HandOut);
    AnnounceRuns(s1);
    var s4 := Announced(s1);
    var last := [Admit(RaceRequest()), Claim];
    assert last[1..] == [Claim] && last[1..][1..] == [];
    OneStep(Do(s4, last[0]), last[1..], RaceState());
    OneStep(s4, last, RaceState());
    RunsJoin(s2, Announce(s1), last);
    RaceOpens(s2, Announce(s1) + last);
  }

  lemma RaceOpens(s2: State, rest: seq<Step>)
    requires s2 == Do(Do(Init(), Claim), HandOut)
    requires OrderlyRun(s2, rest) && EnabledRun(s2, rest)
    ensures OrderlyRun(Init(), [Claim, HandOut] + rest) && EnabledRun(Init(), [Claim, HandOut] + rest)
    ensures Exec(Init(), [Claim, HandOut] + rest) == Exec(s2, rest)
  {
    var steps := [Claim, HandOut] + rest;
    assert steps[1..] == [HandOut] + rest && steps[1..][1..] == rest;
  }

  /** The condition can fail in a run of the code as it is: a work item handed out
      at this point loses the new engine's first event. */
  lemma HandOutCanRace()
    ensures EnabledRun(Init(), RaceSteps())
    ensures var s := Exec(Init(), RaceSteps());
            Enabled(s, HandOut) && !Drained(s) && !AlwaysLossless(Do(s, HandOut))
  {
    RaceReached();
    RunKeeps(Init(), RaceSteps());
    assert RaceRequest() in RaceState().admitted && RaceRequest().events[0].no == 1;
    HandOutSafeExactlyWhenDrained(RaceState());
  }
}
