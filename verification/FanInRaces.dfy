/** Deliveries that overlap. A run of a dependent flow is decided on from what the store
    holds (`Decide`) and inserted later (`Insert`), and other deliveries, new runs and
    state changes may come between; only the conflict check is part of the insertion. */
module FanInRaces {
  import opened Basics
  import opened FanIn

  /** The runs, and the rows decided on but not inserted yet. */
  datatype Server = Server(runs: seq<Row>, waiting: seq<Row>)

  /** Runs are added by schedules, people and rules, and change state; any run's end may be
      delivered to any flow, once, twice or late; decided rows are inserted in any order. */
  datatype Step =
    | Add(flow: nat, params: Params)
    | SetState(id: nat, state: RunState)
    | Decide(id: nat, d: nat)
    | Insert(k: nat)

  function Without(rows: seq<Row>, k: nat): seq<Row>
    requires k < |rows|
  {
    rows[..k] + rows[k + 1..]
  }

  /** A step that cannot be taken changes nothing. */
  function Next(flows: seq<Flow>, s: Server, step: Step): Server {
    match step
    case Add(flow, params) => s.(runs := s.runs + [Row(flow, params, Unfinished, None, None, None)])
    case SetState(id, state) => if id < |s.runs| then s.(runs := s.runs[id := s.runs[id].(state := state)]) else s
    case Decide(id, d) =>
      if Ready(flows, s.runs, id, d) then s.(waiting := s.waiting + [MadeRow(flows, s.runs, id, d)]) else s
    case Insert(k) =>
      if k < |s.waiting| && s.waiting[k].flow < |flows|
      then Server(Inserted(flows, s.runs, s.waiting[k]), Without(s.waiting, k))
      else s
  }

  function Exec(flows: seq<Flow>, s: Server, steps: seq<Step>): Server
    decreases |steps|
  {
    if steps == [] then s else Exec(flows, Next(flows, s, steps[0]), steps[1..])
  }

  lemma {:induction false} ExecJoins(flows: seq<Flow>, s: Server, a: seq<Step>, b: seq<Step>)
    ensures Exec(flows, s, a + b) == Exec(flows, Exec(flows, s, a), b)
    decreases |a|
  {
    if a == [] {
      assert a + b == b;
    } else {
      assert (a + b)[1..] == a[1..] + b;
      ExecJoins(flows, Next(flows, s, a[0]), a[1..], b);
    }
  }

  // -- Rows that still count -----------------------------------------------------------------

  /** A waiting row of this flow, started for this value. */
  predicate Of(row: Row, d: nat, text: string) { row.flow == d && row.batch == Some(text) }

  /** The insertion is not bound to be turned away by an earlier run of the same upstream run. */
  predicate Live(runs: seq<Row>, row: Row) {
    row.dep.Some? ==> !DepTaken(runs, row.flow, row.dep.value)
  }

  predicate NoLive(runs: seq<Row>, waiting: seq<Row>, d: nat, text: string) {
    forall row :: row in waiting && Of(row, d, text) ==> !Live(runs, row)
  }

  /** A waiting row is what its upstream run and its flow make. */
  ghost predicate Made(flows: seq<Flow>, runs: seq<Row>, row: Row) {
    && row.flow < |flows| && flows[row.flow].after.Some?
    && row.upstream.Some? && row.upstream.value < |runs|
    && var flow, params := flows[row.flow], runs[row.upstream.value].params;
    && row.params == MadeParams(flow, flow.after.value, params)
    && row.dep == (if flow.unique.Some? then None else row.upstream)
    && (flow.after.value.key.None? ==> row.batch == None)
    && (flow.after.value.key.Some? ==>
         flow.after.value.key.value in params && row.batch == Some(TextOf(params[flow.after.value.key.value])))
  }

  ghost predicate AllMade(flows: seq<Flow>, s: Server) {
    forall row :: row in s.waiting ==> Made(flows, s.runs, row)
  }

  /** `more` has the runs of `runs`, perhaps in other states, and perhaps further ones. */
  ghost predicate Grown(runs: seq<Row>, more: seq<Row>) {
    |runs| <= |more| && forall i :: 0 <= i < |runs| ==> more[i] == runs[i].(state := more[i].state)
  }

  lemma NextGrows(flows: seq<Flow>, s: Server, step: Step)
    ensures Grown(s.runs, Next(flows, s, step).runs)
  {
  }

  lemma DepTakenGrows(runs: seq<Row>, more: seq<Row>, d: nat, id: nat)
    requires Grown(runs, more) && DepTaken(runs, d, id)
    ensures DepTaken(more, d, id)
  {
    var k :| 0 <= k < |runs| && runs[k].flow == d && runs[k].dep == Some(id);
    assert more[k].flow == d && more[k].dep == Some(id);
  }

  lemma LiveGrows(runs: seq<Row>, more: seq<Row>, row: Row)
    requires Grown(runs, more) && Live(more, row)
    ensures Live(runs, row)
  {
    if row.dep.Some? && DepTaken(runs, row.flow, row.dep.value) {
      DepTakenGrows(runs, more, row.flow, row.dep.value);
    }
  }

  lemma NextMade(flows: seq<Flow>, s: Server, step: Step)
    requires AllMade(flows, s)
    ensures AllMade(flows, Next(flows, s, step))
  {
    NextGrows(flows, s, step);
    var t := Next(flows, s, step);
    forall row | row in t.waiting ensures Made(flows, t.runs, row) {
      if row in s.waiting {
        assert Made(flows, s.runs, row);
      }
    }
  }

  // -- Once per upstream run --------------------------------------------------------------------

  ghost predicate OncePerUpstream(runs: seq<Row>) {
    forall i, j :: 0 <= i < j < |runs| && runs[i].flow == runs[j].flow && runs[i].dep.Some? ==>
      runs[i].dep != runs[j].dep
  }

  lemma NextOncePerUpstream(flows: seq<Flow>, s: Server, step: Step)
    requires AllMade(flows, s) && OncePerUpstream(s.runs)
    ensures OncePerUpstream(Next(flows, s, step).runs)
  {
    if step.Insert? && step.k < |s.waiting| {
      var row := s.waiting[step.k];
      assert row in s.waiting && Made(flows, s.runs, row);
    }
  }

  lemma {:induction false} ExecOncePerUpstream(flows: seq<Flow>, s: Server, steps: seq<Step>)
    requires AllMade(flows, s) && OncePerUpstream(s.runs)
    ensures AllMade(flows, Exec(flows, s, steps)) && OncePerUpstream(Exec(flows, s, steps).runs)
    decreases |steps|
  {
    if steps != [] {
      NextMade(flows, s, steps[0]);
      NextOncePerUpstream(flows, s, steps[0]);
      ExecOncePerUpstream(flows, Next(flows, s, steps[0]), steps[1..]);
    }
  }

  /** However deliveries overlap and repeat: a flow that declares no unique key has at most
      one run per upstream run. */
  lemma OneRunPerUpstreamRun(flows: seq<Flow>, steps: seq<Step>, i: nat, j: nat)
    requires var runs := Exec(flows, Server([], []), steps).runs;
             && i < |runs| && j < |runs| && runs[i].flow == runs[j].flow
             && runs[i].dep.Some? && runs[i].dep == runs[j].dep
    ensures i == j
  {
    ExecOncePerUpstream(flows, Server([], []), steps);
  }

  // -- When a value is settled --------------------------------------------------------------------

  predicate Keyed(flows: seq<Flow>, d: nat) {
    d < |flows| && flows[d].after.Some? && flows[d].after.value.key.Some?
  }

  /** A run of the flow reads as this value, so no further run is decided on for it. */
  predicate Taken(flows: seq<Flow>, runs: seq<Row>, d: nat, text: string)
    requires Keyed(flows, d)
  {
    exists k :: 0 <= k < |runs| && HasParam(runs[k], d, flows[d].after.value.key.value, text)
  }

  /** How many runs of the flow were started for this value. */
  function Started(runs: seq<Row>, d: nat, text: string): nat {
    if runs == [] then 0
    else Started(runs[..|runs| - 1], d, text) + if Of(runs[|runs| - 1], d, text) then 1 else 0
  }

  ghost function StartedAt(runs: seq<Row>, d: nat, text: string): set<int> {
    set k | 0 <= k < |runs| && Of(runs[k], d, text)
  }

  lemma {:induction false} StartedCounts(runs: seq<Row>, d: nat, text: string)
    ensures Started(runs, d, text) == |StartedAt(runs, d, text)|
  {
    if runs == [] {
      assert StartedAt(runs, d, text) == {};
    } else {
      var n := |runs| - 1;
      StartedCounts(runs[..n], d, text);
      assert StartedAt(runs, d, text) == StartedAt(runs[..n], d, text) + if Of(runs[n], d, text) then {n} else {};
    }
  }

  lemma StartedAdds(runs: seq<Row>, row: Row, d: nat, text: string)
    ensures Started(runs + [row], d, text) == Started(runs, d, text) + if Of(row, d, text) then 1 else 0
  {
    assert (runs + [row])[..|runs|] == runs;
  }

  lemma {:induction false} StartedSame(runs: seq<Row>, id: nat, state: RunState, d: nat, text: string)
    requires id < |runs|
    ensures Started(runs[id := runs[id].(state := state)], d, text) == Started(runs, d, text)
  {
    var n := |runs| - 1;
    var other := runs[id := runs[id].(state := state)];
    if id == n {
      assert other[..n] == runs[..n];
    } else {
      assert other[..n] == runs[..n][id := runs[id].(state := state)];
      StartedSame(runs[..n], id, state, d, text);
    }
  }

  lemma TakenGrows(flows: seq<Flow>, runs: seq<Row>, more: seq<Row>, d: nat, text: string)
    requires Keyed(flows, d) && Grown(runs, more) && Taken(flows, runs, d, text)
    ensures Taken(flows, more, d, text)
  {
    var key := flows[d].after.value.key.value;
    var k :| 0 <= k < |runs| && HasParam(runs[k], d, key, text);
    assert HasParam(more[k], d, key, text);
  }

  lemma TakenNotReady(flows: seq<Flow>, runs: seq<Row>, id: nat, d: nat, text: string)
    requires Keyed(flows, d) && Taken(flows, runs, d, text)
    ensures Ready(flows, runs, id, d) ==> MadeRow(flows, runs, id, d).batch != Some(text)
  {
    LatestFinds(runs, d, flows[d].after.value.key.value, text);
  }

  /** The value is taken and nothing that waits can still be inserted for it. */
  ghost predicate Settled(flows: seq<Flow>, s: Server, d: nat, text: string)
    requires Keyed(flows, d)
  {
    Taken(flows, s.runs, d, text) && NoLive(s.runs, s.waiting, d, text)
  }

  /** A row that is inserted was live. */
  lemma InsertedWasLive(flows: seq<Flow>, runs: seq<Row>, row: Row)
    requires Made(flows, runs, row) && !Conflict(flows, runs, row)
    ensures Live(runs, row)
  {
  }

  /** No step starts a run for a settled value. */
  lemma SettledStartsNone(flows: seq<Flow>, s: Server, step: Step, t: Server, d: nat, text: string)
    requires Keyed(flows, d) && AllMade(flows, s) && Settled(flows, s, d, text) && t == Next(flows, s, step)
    ensures Started(t.runs, d, text) == Started(s.runs, d, text)
  {
    match step {
      case Add(flow, params) => StartedAdds(s.runs, Row(flow, params, Unfinished, None, None, None), d, text);
      case SetState(id, state) =>
        if id < |s.runs| {
          StartedSame(s.runs, id, state, d, text);
        }
      case Decide(_, _) =>
      case Insert(k) =>
        if k < |s.waiting| {
          var row := s.waiting[k];
          assert row in s.waiting;
          StartedAdds(s.runs, row, d, text);
          if !Conflict(flows, s.runs, row) {
            InsertedWasLive(flows, s.runs, row);
          }
        }
    }
  }

  lemma SettledStep(flows: seq<Flow>, s: Server, step: Step, d: nat, text: string)
    requires Keyed(flows, d) && AllMade(flows, s) && Settled(flows, s, d, text)
    ensures Settled(flows, Next(flows, s, step), d, text)
    ensures Started(Next(flows, s, step).runs, d, text) == Started(s.runs, d, text)
  {
    var t := Next(flows, s, step);
    NextGrows(flows, s, step);
    TakenGrows(flows, s.runs, t.runs, d, text);
    SettledStartsNone(flows, s, step, t, d, text);
    if step.Decide? {
      TakenNotReady(flows, s.runs, step.id, d, text);
    }
    forall row | row in t.waiting && Of(row, d, text) ensures !Live(t.runs, row) {
      assert row in s.waiting;
      if Live(t.runs, row) {
        LiveGrows(s.runs, t.runs, row);
      }
    }
  }

  lemma {:induction false} SettledStays(flows: seq<Flow>, s: Server, steps: seq<Step>, d: nat, text: string)
    requires Keyed(flows, d) && AllMade(flows, s) && Settled(flows, s, d, text)
    ensures Started(Exec(flows, s, steps).runs, d, text) == Started(s.runs, d, text)
    decreases |steps|
  {
    if steps != [] {
      SettledStep(flows, s, steps[0], d, text);
      NextMade(flows, s, steps[0]);
      SettledStays(flows, Next(flows, s, steps[0]), steps[1..], d, text);
    }
  }

  ghost predicate NeverAgain(flows: seq<Flow>, s: Server, d: nat, text: string) {
    forall steps :: Started(Exec(flows, s, steps).runs, d, text) == Started(s.runs, d, text)
  }

  lemma OneStep(flows: seq<Flow>, s: Server, step: Step)
    ensures Exec(flows, s, [step]) == Next(flows, s, step)
  {
    assert [step][1..] == [];
  }

  /** Once a run of a keyed flow reads as the value, no further run is ever started for it,
      whatever follows, exactly when no live row for it is waiting. */
  lemma TakenForGoodExactly(flows: seq<Flow>, s: Server, d: nat, text: string)
    requires Keyed(flows, d) && flows[d].unique.None? && AllMade(flows, s) && Taken(flows, s.runs, d, text)
    ensures NoLive(s.runs, s.waiting, d, text) <==> NeverAgain(flows, s, d, text)
  {
    if NoLive(s.runs, s.waiting, d, text) {
      forall steps ensures Started(Exec(flows, s, steps).runs, d, text) == Started(s.runs, d, text) {
        SettledStays(flows, s, steps, d, text);
      }
    } else {
      var row :| row in s.waiting && Of(row, d, text) && Live(s.runs, row);
      var k :| 0 <= k < |s.waiting| && s.waiting[k] == row;
      OneStep(flows, s, Insert(k));
      StartedAdds(s.runs, row, d, text);
      assert Started(Exec(flows, s, [Insert(k)]).runs, d, text) == Started(s.runs, d, text) + 1;
    }
  }

  // -- When a decision is safe ----------------------------------------------------------------------

  /** A decision for a keyed flow's value is made only when no live row for it is waiting. */
  predicate OrderlyStep(flows: seq<Flow>, s: Server, step: Step) {
    step.Decide? && Ready(flows, s.runs, step.id, step.d) ==>
      var row := MadeRow(flows, s.runs, step.id, step.d);
      row.batch.Some? ==> NoLive(s.runs, s.waiting, row.flow, row.batch.value)
  }

  predicate OrderlyRun(flows: seq<Flow>, s: Server, steps: seq<Step>)
    decreases |steps|
  {
    steps == [] || (OrderlyStep(flows, s, steps[0]) && OrderlyRun(flows, Next(flows, s, steps[0]), steps[1..]))
  }

  /** Every live row waiting for the value comes from run `id` and will read back, and there
      is one unless the value is taken. */
  ghost predicate OneSource(flows: seq<Flow>, s: Server, d: nat, text: string, id: nat)
    requires Keyed(flows, d)
  {
    && id < |s.runs|
    && (forall row :: row in s.waiting && Of(row, d, text) && Live(s.runs, row) ==>
         row.dep == Some(id) && ReadsBack(flows, row))
    && (Taken(flows, s.runs, d, text) || exists row :: row in s.waiting && Of(row, d, text) && Live(s.runs, row))
    && var key := flows[d].after.value.key.value;
       key in s.runs[id].params && TextOf(s.runs[id].params[key]) == text
  }

  /** A row of another value, inserted, leaves the live rows of this one alone. */
  lemma OtherInsertKeepsLive(flows: seq<Flow>, runs: seq<Row>, other: Row, row: Row, d: nat, text: string, id: nat)
    requires Keyed(flows, d) && Made(flows, runs, other) && !Of(other, d, text)
    requires Of(row, d, text) && Live(runs, row) && row.dep == Some(id) && id < |runs|
    requires var key := flows[d].after.value.key.value;
             key in runs[id].params && TextOf(runs[id].params[key]) == text
    ensures Live(runs + [other], row)
  {
    var more := runs + [other];
    forall k | 0 <= k < |more| ensures !(more[k].flow == d && more[k].dep == Some(id)) {
      if k < |runs| {
        assert more[k] == runs[k];
      }
    }
  }

  lemma StillIn(rows: seq<Row>, k: nat, row: Row)
    requires k < |rows| && row in rows && row != rows[k]
    ensures row in Without(rows, k)
  {
    var i :| 0 <= i < |rows| && rows[i] == row;
    assert Without(rows, k)[if i < k then i else i - 1] == row;
  }

  /** Inserting a live row of the value settles it. */
  lemma InsertSettles(flows: seq<Flow>, s: Server, k: nat, d: nat, text: string, id: nat)
    requires Keyed(flows, d) && flows[d].unique.None? && AllMade(flows, s) && OneSource(flows, s, d, text, id)
    requires k < |s.waiting| && Of(s.waiting[k], d, text) && Live(s.runs, s.waiting[k])
    ensures Settled(flows, Next(flows, s, Insert(k)), d, text)
    ensures Started(Next(flows, s, Insert(k)).runs, d, text) == Started(s.runs, d, text) + 1
  {
    var row := s.waiting[k];
    assert row in s.waiting && Made(flows, s.runs, row);
    var t := Next(flows, s, Insert(k));
    assert t == Server(s.runs + [row], Without(s.waiting, k));
    StartedAdds(s.runs, row, d, text);
    assert t.runs[|s.runs|] == row && row.dep == Some(id) && Taken(flows, t.runs, d, text);
    assert DepTaken(t.runs, d, id);
    NextGrows(flows, s, Insert(k));
    forall other | other in t.waiting && Of(other, d, text) ensures !Live(t.runs, other) {
      assert other in s.waiting;
      if Live(t.runs, other) {
        LiveGrows(s.runs, t.runs, other);
      }
    }
  }

  lemma OtherInsertCounts(flows: seq<Flow>, runs: seq<Row>, row: Row, d: nat, text: string)
    requires Made(flows, runs, row) && !(Of(row, d, text) && Live(runs, row))
    ensures Started(Inserted(flows, runs, row), d, text) == Started(runs, d, text)
    ensures Inserted(flows, runs, row) != runs ==> !Of(row, d, text)
  {
    StartedAdds(runs, row, d, text);
    if !Conflict(flows, runs, row) {
      InsertedWasLive(flows, runs, row);
    }
  }

  /** The row that waits for the value stays live while another leaves. */
  lemma OtherInsertLeavesOne(flows: seq<Flow>, s: Server, k: nat, w: Row, d: nat, text: string, id: nat)
    requires Keyed(flows, d) && k < |s.waiting| && Made(flows, s.runs, s.waiting[k])
    requires !(Of(s.waiting[k], d, text) && Live(s.runs, s.waiting[k]))
    requires w in s.waiting && Of(w, d, text) && Live(s.runs, w) && w.dep == Some(id) && id < |s.runs|
    requires var key := flows[d].after.value.key.value;
             key in s.runs[id].params && TextOf(s.runs[id].params[key]) == text
    ensures w in Without(s.waiting, k) && Live(Inserted(flows, s.runs, s.waiting[k]), w)
  {
    var row := s.waiting[k];
    StillIn(s.waiting, k, w);
    OtherInsertCounts(flows, s.runs, row, d, text);
    if Inserted(flows, s.runs, row) != s.runs {
      OtherInsertKeepsLive(flows, s.runs, row, w, d, text, id);
    }
  }

  /** Inserting any other row, or a row that is turned away, changes nothing about it. */
  lemma OtherInsertKeeps(flows: seq<Flow>, s: Server, k: nat, d: nat, text: string, id: nat)
    requires Keyed(flows, d) && flows[d].unique.None? && AllMade(flows, s) && OneSource(flows, s, d, text, id)
    requires k < |s.waiting| && !(Of(s.waiting[k], d, text) && Live(s.runs, s.waiting[k]))
    ensures OneSource(flows, Next(flows, s, Insert(k)), d, text, id)
    ensures Started(Next(flows, s, Insert(k)).runs, d, text) == Started(s.runs, d, text)
  {
    var row := s.waiting[k];
    assert row in s.waiting && Made(flows, s.runs, row);
    var more, fewer := Inserted(flows, s.runs, row), Without(s.waiting, k);
    assert Next(flows, s, Insert(k)) == Server(more, fewer);
    NextGrows(flows, s, Insert(k));
    OtherInsertCounts(flows, s.runs, row, d, text);
    forall w | w in fewer && Of(w, d, text) && Live(more, w) ensures w.dep == Some(id) && ReadsBack(flows, w) {
      assert w in s.waiting;
      LiveGrows(s.runs, more, w);
    }
    if Taken(flows, s.runs, d, text) {
      TakenGrows(flows, s.runs, more, d, text);
    } else {
      var w :| w in s.waiting && Of(w, d, text) && Live(s.runs, w);
      OtherInsertLeavesOne(flows, s, k, w, d, text, id);
    }
    assert more[id].params == s.runs[id].params;
  }

  lemma SameLive(runs: seq<Row>, more: seq<Row>, row: Row)
    requires Grown(runs, more) && |runs| == |more|
    ensures Live(runs, row) <==> Live(more, row)
  {
    if row.dep.Some? {
      if DepTaken(runs, row.flow, row.dep.value) {
        DepTakenGrows(runs, more, row.flow, row.dep.value);
      }
      if DepTaken(more, row.flow, row.dep.value) {
        var k :| 0 <= k < |more| && more[k].flow == row.flow && more[k].dep == row.dep;
        assert runs[k].flow == row.flow && runs[k].dep == row.dep;
      }
    }
  }

  lemma AddKeepsLive(runs: seq<Row>, flow: nat, params: Params, row: Row)
    ensures Live(runs, row) <==> Live(runs + [Row(flow, params, Unfinished, None, None, None)], row)
  {
    var more := runs + [Row(flow, params, Unfinished, None, None, None)];
    if row.dep.Some? {
      if DepTaken(runs, row.flow, row.dep.value) {
        DepTakenGrows(runs, more, row.flow, row.dep.value);
      }
      if DepTaken(more, row.flow, row.dep.value) {
        var k :| 0 <= k < |more| && more[k].flow == row.flow && more[k].dep == row.dep;
        assert k < |runs| && runs[k].dep == row.dep;
      }
    }
  }

  /** New runs and state changes change nothing about it. */
  lemma OutsideKeeps(flows: seq<Flow>, s: Server, step: Step, d: nat, text: string, id: nat)
    requires Keyed(flows, d) && OneSource(flows, s, d, text, id) && (step.Add? || step.SetState?)
    ensures OneSource(flows, Next(flows, s, step), d, text, id)
    ensures Started(Next(flows, s, step).runs, d, text) == Started(s.runs, d, text)
  {
    var t := Next(flows, s, step);
    NextGrows(flows, s, step);
    forall row ensures Live(s.runs, row) <==> Live(t.runs, row) {
      if step.Add? {
        AddKeepsLive(s.runs, step.flow, step.params, row);
      } else {
        SameLive(s.runs, t.runs, row);
      }
    }
    if step.Add? {
      StartedAdds(s.runs, Row(step.flow, step.params, Unfinished, None, None, None), d, text);
    } else if step.id < |s.runs| {
      StartedSame(s.runs, step.id, step.state, d, text);
    }
    if Taken(flows, s.runs, d, text) {
      TakenGrows(flows, s.runs, t.runs, d, text);
    }
  }

  /** An orderly decision is never one for this value. */
  lemma DecideKeeps(flows: seq<Flow>, s: Server, id2: nat, e: nat, d: nat, text: string, id: nat)
    requires Keyed(flows, d) && OneSource(flows, s, d, text, id) && OrderlyStep(flows, s, Decide(id2, e))
    ensures OneSource(flows, Next(flows, s, Decide(id2, e)), d, text, id)
    ensures Next(flows, s, Decide(id2, e)).runs == s.runs
  {
    if Ready(flows, s.runs, id2, e) {
      var row := MadeRow(flows, s.runs, id2, e);
      if Taken(flows, s.runs, d, text) && e == d {
        TakenNotReady(flows, s.runs, id2, d, text);
      }
      assert !Of(row, d, text);
    }
  }

  lemma {:induction false} AtMostOneMore(flows: seq<Flow>, s: Server, steps: seq<Step>, d: nat, text: string, id: nat)
    requires Keyed(flows, d) && flows[d].unique.None? && AllMade(flows, s) && OneSource(flows, s, d, text, id)
    requires OrderlyRun(flows, s, steps)
    ensures Started(Exec(flows, s, steps).runs, d, text) <= Started(s.runs, d, text) + 1
    decreases |steps|
  {
    if steps != [] {
      var step, rest := steps[0], steps[1..];
      var t := Next(flows, s, step);
      NextMade(flows, s, step);
      if step.Insert? && step.k < |s.waiting| && Of(s.waiting[step.k], d, text) && Live(s.runs, s.waiting[step.k]) {
        InsertSettles(flows, s, step.k, d, text, id);
        SettledStays(flows, t, rest, d, text);
      } else {
        match step {
          case Add(_, _) => OutsideKeeps(flows, s, step, d, text, id);
          case SetState(_, _) => OutsideKeeps(flows, s, step, d, text, id);
          case Decide(id2, e) => DecideKeeps(flows, s, id2, e, d, text, id);
          case Insert(k) =>
            if k < |s.waiting| {
              OtherInsertKeeps(flows, s, k, d, text, id);
            }
        }
        AtMostOneMore(flows, t, rest, d, text, id);
      }
    }
  }

  ghost predicate AlwaysAtMostOneMore(flows: seq<Flow>, s: Server, d: nat, text: string) {
    forall steps :: OrderlyRun(flows, s, steps) ==>
      Started(Exec(flows, s, steps).runs, d, text) <= Started(s.runs, d, text) + 1
  }

  /** No other run's live row for the value is waiting. */
  predicate NoRival(s: Server, d: nat, text: string, id: nat) {
    forall row :: row in s.waiting && Of(row, d, text) && Live(s.runs, row) ==> row.dep == Some(id)
  }

  /** Deciding to start a keyed flow for a value that will read back leads to at most one
      run for it, in every orderly continuation, exactly when no other run's live row for
      the value is waiting at that moment. The source looks the value up and inserts separately, so the
      condition is not guaranteed. */
  lemma DecisionSafeExactlyWhenNoRival(flows: seq<Flow>, s: Server, id: nat, d: nat)
    requires AllMade(flows, s) && Ready(flows, s.runs, id, d) && Keyed(flows, d) && flows[d].unique.None?
    requires !DepTaken(s.runs, d, id) && ReadsBack(flows, MadeRow(flows, s.runs, id, d))
    ensures var text := TextOf(s.runs[id].params[flows[d].after.value.key.value]);
            NoRival(s, d, text, id) <==> AlwaysAtMostOneMore(flows, Next(flows, s, Decide(id, d)), d, text)
  {
    var text := TextOf(s.runs[id].params[flows[d].after.value.key.value]);
    var row, t := MadeRow(flows, s.runs, id, d), Next(flows, s, Decide(id, d));
    NextMade(flows, s, Decide(id, d));
    if NoRival(s, d, text, id) {
      DecisionIsOneSource(flows, s, id, d);
      forall steps | OrderlyRun(flows, t, steps)
        ensures Started(Exec(flows, t, steps).runs, d, text) <= Started(t.runs, d, text) + 1
      {
        AtMostOneMore(flows, t, steps, d, text, id);
      }
    } else {
      var rival :| rival in s.waiting && Of(rival, d, text) && Live(s.runs, rival) && rival.dep != Some(id);
      RivalDoubles(flows, s, id, d, rival);
    }
  }

  lemma DecisionIsOneSource(flows: seq<Flow>, s: Server, id: nat, d: nat)
    requires AllMade(flows, s) && Ready(flows, s.runs, id, d) && Keyed(flows, d) && flows[d].unique.None?
    requires !DepTaken(s.runs, d, id) && ReadsBack(flows, MadeRow(flows, s.runs, id, d))
    requires NoRival(s, d, TextOf(s.runs[id].params[flows[d].after.value.key.value]), id)
    ensures OneSource(flows, Next(flows, s, Decide(id, d)), d,
              TextOf(s.runs[id].params[flows[d].after.value.key.value]), id)
  {
    var text := TextOf(s.runs[id].params[flows[d].after.value.key.value]);
    var made, t := MadeRow(flows, s.runs, id, d), Next(flows, s, Decide(id, d));
    forall row | row in t.waiting && Of(row, d, text) && Live(t.runs, row)
      ensures row.dep == Some(id) && ReadsBack(flows, row)
    {
      if row in s.waiting {
        assert Made(flows, s.runs, row);
        assert row.params == made.params && row.batch == made.batch;
      }
    }
    assert made in t.waiting && Of(made, d, text) && Live(t.runs, made);
  }

  /** With a rival both rows are inserted. */
  lemma RivalDoubles(flows: seq<Flow>, s: Server, id: nat, d: nat, rival: Row)
    requires AllMade(flows, s) && Ready(flows, s.runs, id, d) && Keyed(flows, d) && flows[d].unique.None?
    requires !DepTaken(s.runs, d, id)
    requires var text := TextOf(s.runs[id].params[flows[d].after.value.key.value]);
             rival in s.waiting && Of(rival, d, text) && Live(s.runs, rival) && rival.dep != Some(id)
    ensures var text := TextOf(s.runs[id].params[flows[d].after.value.key.value]);
            !AlwaysAtMostOneMore(flows, Next(flows, s, Decide(id, d)), d, text)
  {
    var text := TextOf(s.runs[id].params[flows[d].after.value.key.value]);
    var made, t := MadeRow(flows, s.runs, id, d), Next(flows, s, Decide(id, d));
    var n := |s.waiting|;
    var k :| 0 <= k < n && s.waiting[k] == rival;
    assert Made(flows, s.runs, rival);
    var u := Next(flows, t, Insert(n));
    assert Without(t.waiting, n) == s.waiting;
    assert u == Server(s.runs + [made], s.waiting);
    var v := Next(flows, u, Insert(k));
    assert !DepTaken(u.runs, d, rival.dep.value);
    assert v.runs == s.runs + [made] + [rival];
    StartedAdds(s.runs, made, d, text);
    StartedAdds(s.runs + [made], rival, d, text);
    var steps := [Insert(n), Insert(k)];
    assert steps[1..] == [Insert(k)] && [Insert(k)][1..] == [];
    assert Exec(flows, t, steps) == Exec(flows, u, [Insert(k)]) == v;
    assert OrderlyRun(flows, u, [Insert(k)]) && OrderlyRun(flows, t, steps);
  }

  // -- Orderly runs -----------------------------------------------------------------------------------

  /** Among the rows waiting, a live one stands alone for its flow and value, and none
      waits for a value that a run reads back as. */
  ghost predicate Alone(rows: seq<Row>, runs: seq<Row>) {
    forall a, b :: 0 <= a < b < |rows| && rows[a].batch.Some? && Live(runs, rows[a]) && Live(runs, rows[b]) ==>
      rows[a].flow != rows[b].flow || rows[a].batch != rows[b].batch
  }

  ghost predicate NoneForRead(flows: seq<Flow>, runs: seq<Row>, waiting: seq<Row>) {
    forall i :: 0 <= i < |runs| && ReadsBack(flows, runs[i]) ==>
      NoLive(runs, waiting, runs[i].flow, runs[i].batch.value)
  }

  /** Nothing is started for a value after a run that reads back as it. */
  ghost predicate OncePerBatch(flows: seq<Flow>, runs: seq<Row>) {
    forall i, j :: 0 <= i < j < |runs| && runs[i].flow == runs[j].flow && ReadsBack(flows, runs[i]) ==>
      runs[j].batch != runs[i].batch
  }

  ghost predicate Serial(flows: seq<Flow>, s: Server) {
    && AllMade(flows, s) && Alone(s.waiting, s.runs)
    && NoneForRead(flows, s.runs, s.waiting) && OncePerBatch(flows, s.runs)
  }

  lemma ReadMeansTaken(flows: seq<Flow>, runs: seq<Row>, i: nat)
    requires i < |runs| && ReadsBack(flows, runs[i])
    ensures Keyed(flows, runs[i].flow) && Taken(flows, runs, runs[i].flow, runs[i].batch.value)
  {
  }

  lemma DecideSerial(flows: seq<Flow>, s: Server, id: nat, d: nat)
    requires Serial(flows, s) && OrderlyStep(flows, s, Decide(id, d)) && Ready(flows, s.runs, id, d)
    ensures Serial(flows, Next(flows, s, Decide(id, d)))
  {
    var row, t := MadeRow(flows, s.runs, id, d), Next(flows, s, Decide(id, d));
    NextMade(flows, s, Decide(id, d));
    forall a, b | 0 <= a < b < |t.waiting| && t.waiting[a].batch.Some?
                  && Live(t.runs, t.waiting[a]) && Live(t.runs, t.waiting[b])
      ensures t.waiting[a].flow != t.waiting[b].flow || t.waiting[a].batch != t.waiting[b].batch
    {
      assert t.waiting[a] == s.waiting[a] && s.waiting[a] in s.waiting;
    }
    forall i | 0 <= i < |t.runs| && ReadsBack(flows, t.runs[i])
      ensures NoLive(t.runs, t.waiting, t.runs[i].flow, t.runs[i].batch.value)
    {
      ReadMeansTaken(flows, s.runs, i);
      TakenNotReady(flows, s.runs, id, s.runs[i].flow, s.runs[i].batch.value);
      assert NoLive(s.runs, s.waiting, s.runs[i].flow, s.runs[i].batch.value);
    }
  }

  /** More runs make fewer rows live; fewer rows wait. */
  lemma FewerLive(flows: seq<Flow>, runs: seq<Row>, waiting: seq<Row>, more: seq<Row>, fewer: seq<Row>, d: nat,
                  text: string)
    requires Grown(runs, more) && (forall row :: row in fewer ==> row in waiting) && NoLive(runs, waiting, d, text)
    ensures NoLive(more, fewer, d, text)
  {
    forall row | row in fewer && Of(row, d, text) ensures !Live(more, row) {
      if Live(more, row) {
        LiveGrows(runs, more, row);
      }
    }
  }

  lemma AloneShrinks(rows: seq<Row>, runs: seq<Row>, more: seq<Row>, k: nat)
    requires Alone(rows, runs) && Grown(runs, more) && k < |rows|
    ensures Alone(rows, more) && Alone(Without(rows, k), more)
  {
    var fewer := Without(rows, k);
    forall a, b | 0 <= a < b < |rows| && rows[a].batch.Some? && Live(more, rows[a]) && Live(more, rows[b])
      ensures rows[a].flow != rows[b].flow || rows[a].batch != rows[b].batch
    {
      LiveGrows(runs, more, rows[a]);
      LiveGrows(runs, more, rows[b]);
    }
    forall a, b | 0 <= a < b < |fewer| && fewer[a].batch.Some? && Live(more, fewer[a]) && Live(more, fewer[b])
      ensures fewer[a].flow != fewer[b].flow || fewer[a].batch != fewer[b].batch
    {
      var i, j := if a < k then a else a + 1, if b < k then b else b + 1;
      assert fewer[a] == rows[i] && fewer[b] == rows[j];
    }
  }

  /** After a live row leaves, none of its flow and value is left live. */
  lemma NoneLeftLive(rows: seq<Row>, runs: seq<Row>, k: nat)
    requires Alone(rows, runs) && k < |rows| && rows[k].batch.Some? && Live(runs, rows[k])
    ensures NoLive(runs, Without(rows, k), rows[k].flow, rows[k].batch.value)
  {
    var fewer := Without(rows, k);
    forall row | row in fewer && Of(row, rows[k].flow, rows[k].batch.value) ensures !Live(runs, row) {
      var a :| 0 <= a < |fewer| && fewer[a] == row;
      var i := if a < k then a else a + 1;
      assert rows[i] == row;
    }
  }

  lemma InsertSerial(flows: seq<Flow>, s: Server, k: nat)
    requires Serial(flows, s) && k < |s.waiting|
    ensures Serial(flows, Next(flows, s, Insert(k)))
  {
    var row, t := s.waiting[k], Next(flows, s, Insert(k));
    assert row in s.waiting && Made(flows, s.runs, row);
    NextMade(flows, s, Insert(k));
    NextGrows(flows, s, Insert(k));
    AloneShrinks(s.waiting, s.runs, t.runs, k);
    assert forall w :: w in t.waiting ==> w in s.waiting;
    if !Conflict(flows, s.runs, row) {
      InsertedWasLive(flows, s.runs, row);
      assert t.runs == s.runs + [row];
      RowIsFirst(flows, s, row);
    }
    forall i | 0 <= i < |t.runs| && ReadsBack(flows, t.runs[i])
      ensures NoLive(t.runs, t.waiting, t.runs[i].flow, t.runs[i].batch.value)
    {
      if i < |s.runs| {
        assert t.runs[i] == s.runs[i];
      } else {
        NoneLeftLive(s.waiting, s.runs, k);
      }
      FewerLive(flows, s.runs, if i < |s.runs| then s.waiting else t.waiting, t.runs, t.waiting,
                t.runs[i].flow, t.runs[i].batch.value);
    }
  }

  /** A live row that waits is for a value no run reads back as. */
  lemma RowIsFirst(flows: seq<Flow>, s: Server, row: Row)
    requires NoneForRead(flows, s.runs, s.waiting) && OncePerBatch(flows, s.runs) && row in s.waiting
             && Live(s.runs, row)
    ensures OncePerBatch(flows, s.runs + [row])
  {
    var more := s.runs + [row];
    forall i, j | 0 <= i < j < |more| && more[i].flow == more[j].flow && ReadsBack(flows, more[i])
      ensures more[j].batch != more[i].batch
    {
      assert more[i] == s.runs[i];
      if j == |s.runs| {
        assert NoLive(s.runs, s.waiting, s.runs[i].flow, s.runs[i].batch.value);
      } else {
        assert more[j] == s.runs[j];
      }
    }
  }

  lemma OutsideSerial(flows: seq<Flow>, s: Server, step: Step)
    requires Serial(flows, s) && (step.Add? || step.SetState?)
    ensures Serial(flows, Next(flows, s, step))
  {
    var t := Next(flows, s, step);
    NextMade(flows, s, step);
    NextGrows(flows, s, step);
    if s.waiting != [] {
      AloneShrinks(s.waiting, s.runs, t.runs, 0);
    }
    forall i | 0 <= i < |t.runs| && ReadsBack(flows, t.runs[i])
      ensures i < |s.runs| && ReadsBack(flows, s.runs[i])
              && NoLive(t.runs, t.waiting, t.runs[i].flow, t.runs[i].batch.value)
    {
      assert ReadsBack(flows, s.runs[i]);
      FewerLive(flows, s.runs, s.waiting, t.runs, t.waiting, t.runs[i].flow, t.runs[i].batch.value);
    }
  }

  lemma {:induction false} ExecSerial(flows: seq<Flow>, s: Server, steps: seq<Step>)
    requires Serial(flows, s) && OrderlyRun(flows, s, steps)
    ensures Serial(flows, Exec(flows, s, steps))
    decreases |steps|
  {
    if steps != [] {
      match steps[0] {
        case Add(_, _) => OutsideSerial(flows, s, steps[0]);
        case SetState(_, _) => OutsideSerial(flows, s, steps[0]);
        case Decide(id, d) =>
          if Ready(flows, s.runs, id, d) {
            DecideSerial(flows, s, id, d);
          }
        case Insert(k) =>
          if k < |s.waiting| {
            InsertSerial(flows, s, k);
          }
      }
      ExecSerial(flows, Next(flows, s, steps[0]), steps[1..]);
    }
  }

  /** Over every orderly run: once a keyed flow has a fan-in run that reads back, no other is
      ever started for the same value. */
  lemma OneRunPerKeyValue(flows: seq<Flow>, steps: seq<Step>, i: nat, j: nat)
    requires OrderlyRun(flows, Server([], []), steps)
    requires var runs := Exec(flows, Server([], []), steps).runs;
             i < j < |runs| && runs[i].flow == runs[j].flow && ReadsBack(flows, runs[i])
    ensures var runs := Exec(flows, Server([], []), steps).runs;
            runs[j].batch != runs[i].batch
  {
    ExecSerial(flows, Server([], []), steps);
  }

  // -- Deliveries one at a time --------------------------------------------------------------------------

  lemma {:induction false} OrderlyJoins(flows: seq<Flow>, s: Server, a: seq<Step>, b: seq<Step>)
    requires OrderlyRun(flows, s, a) && OrderlyRun(flows, Exec(flows, s, a), b)
    ensures OrderlyRun(flows, s, a + b)
    decreases |a|
  {
    if a == [] {
      assert a + b == b;
    } else {
      assert (a + b)[1..] == a[1..] + b;
      OrderlyJoins(flows, Next(flows, s, a[0]), a[1..], b);
    }
  }

  /** From one set of runs to another, nothing waiting before or after. */
  ghost predicate Leads(flows: seq<Flow>, runs: seq<Row>, steps: seq<Step>, more: seq<Row>) {
    OrderlyRun(flows, Server(runs, []), steps) && Exec(flows, Server(runs, []), steps) == Server(more, [])
  }

  lemma LeadsOn(flows: seq<Flow>, runs: seq<Row>, a: seq<Step>, mid: seq<Row>, b: seq<Step>, more: seq<Row>)
    requires Leads(flows, runs, a, mid) && Leads(flows, mid, b, more)
    ensures Leads(flows, runs, a + b, more)
  {
    OrderlyJoins(flows, Server(runs, []), a, b);
    ExecJoins(flows, Server(runs, []), a, b);
  }

  lemma TriggerOneLeads(flows: seq<Flow>, runs: seq<Row>, id: nat, d: nat)
    ensures Leads(flows, runs, [Decide(id, d), Insert(0)], TriggerOne(flows, runs, id, d))
  {
    var s, steps := Server(runs, []), [Decide(id, d), Insert(0)];
    assert steps[1..] == [Insert(0)] && [Insert(0)][1..] == [];
    var t := Next(flows, s, Decide(id, d));
    if Ready(flows, runs, id, d) {
      var row := MadeRow(flows, runs, id, d);
      assert t == Server(runs, [row]) && Without([row], 0) == [];
    }
    var u := Next(flows, t, Insert(0));
    assert u == Server(TriggerOne(flows, runs, id, d), []);
    OneStep(flows, t, Insert(0));
    assert OrderlyRun(flows, u, []) && OrderlyRun(flows, t, [Insert(0)]);
  }

  /** A delivery that nothing else interleaves with, cascades included, is an orderly run of
      decisions each followed by its insertion. */
  lemma {:induction false} TriggerLeads(flows: seq<Flow>, runs: seq<Row>, id: nat, ids: seq<nat>, left: nat)
    returns (steps: seq<Step>)
    ensures Leads(flows, runs, steps, Trigger(flows, runs, id, ids, left))
    decreases left, |ids|
  {
    if ids == [] {
      return [];
    }
    var d := ids[0];
    var one := TriggerOne(flows, runs, id, d);
    TriggerOneLeads(flows, runs, id, d);
    steps := [Decide(id, d), Insert(0)];
    if |one| > |runs| && CarriesSkip(one[|runs|].state) && left > 0 {
      var ids' := Dependents(flows, d, |flows|);
      var more := TriggerLeads(flows, one, |runs|, ids', left - 1);
      LeadsOn(flows, runs, steps, one, more, Trigger(flows, one, |runs|, ids', left - 1));
      steps := steps + more;
    }
    var mid := TriggerFlow(flows, runs, id, d, left);
    var rest := TriggerLeads(flows, mid, id, ids[1..], left);
    LeadsOn(flows, runs, steps, mid, rest, Trigger(flows, mid, id, ids[1..], left));
    steps := steps + rest;
  }

  lemma DeliveryIsOrderly(flows: seq<Flow>, runs: seq<Row>, id: nat) returns (steps: seq<Step>)
    requires id < |runs|
    ensures Leads(flows, runs, steps, Delivered(flows, runs, id))
  {
    steps := TriggerLeads(flows, runs, id, Dependents(flows, runs[id].flow, |flows|), MAX_SKIP_DEPTH);
  }

  // -- A run in which it goes wrong ------------------------------------------------------------------------

  /** Two flows, and a third that comes after both, once per date; `declared` are its own
      parameters. */
  function Daily(declared: set<string>): seq<Flow> {
    var plain := Flow(None, false, {}, map[], None);
    [plain, plain, Flow(Some(After([0, 1], Some("date"), map[])), false, declared, map[], None)]
  }

  const MONDAY: Params := map["date" := Str("monday")]

  function Done(flow: nat): Row { Row(flow, MONDAY, Completed, None, None, None) }

  /** Both upstream runs of the day have finished. */
  const FINISHED: seq<Row> := [Done(0), Done(1)]

  lemma FinishedReached(flows: seq<Flow>)
    ensures var steps := [Add(0, MONDAY), Add(1, MONDAY), SetState(0, Completed), SetState(1, Completed)];
            Exec(flows, Server([], []), steps) == Server(FINISHED, [])
  {
    var a, b, c, d := Add(0, MONDAY), Add(1, MONDAY), SetState(0, Completed), SetState(1, Completed);
    var r0, r1 := Row(0, MONDAY, Unfinished, None, None, None), Row(1, MONDAY, Unfinished, None, None, None);
    var s1, s2, s3 := Server([r0], []), Server([r0, r1], []), Server([Done(0), r1], []);
    assert Next(flows, Server([], []), a) == s1 && Next(flows, s1, b) == s2 && Next(flows, s2, c) == s3;
    assert Next(flows, s3, d) == Server(FINISHED, []);
    OneStep(flows, s3, d);
    assert [c, d][1..] == [d] && [b, c, d][1..] == [c, d] && [a, b, c, d][1..] == [b, c, d];
    assert Exec(flows, s2, [c, d]) == Server(FINISHED, []);
    assert Exec(flows, s1, [b, c, d]) == Server(FINISHED, []);
  }

  /** The third flow's run, from upstream run `id`. */
  function Third(declared: set<string>, id: nat): Row {
    Row(2, if "date" in declared then MONDAY else map[], Unfinished, Some(id), Some(id), Some("monday"))
  }

  lemma LatestOfFinished(u: nat)
    requires u < 2
    ensures Latest(FINISHED, u, "date", "monday") == Some(u)
  {
    assert FINISHED[..1] == [Done(0)];
  }

  lemma ThirdIsReady(declared: set<string>, more: seq<Row>, id: nat)
    requires id < 2 && declared <= {"date"}
    requires more == FINISHED || (more == FINISHED + [Third({}, 0)] && "date" !in declared)
    ensures Ready(Daily(declared), more, id, 2) && MadeRow(Daily(declared), more, id, 2) == Third(declared, id)
  {
    var flows := Daily(declared);
    var after := flows[2].after.value;
    forall u: nat | u < 3 ensures Latest(more, u, "date", "monday") == if u < 2 then Some(u) else None {
      if more != FINISHED {
        LatestSkips(FINISHED, Third({}, 0), u, "date", "monday");
      }
      if u < 2 {
        LatestOfFinished(u);
      } else {
        LatestFinds(FINISHED, u, "date", "monday");
      }
    }
    assert more[0] == Done(0) && more[1] == Done(1);
    assert forall i :: 0 <= i < |after.upstreams| ==> LatestComplete(more, after.upstreams[i], "date", "monday");
    assert !AnyCarries(more, after, "date", "monday");
    assert MadeParams(flows[2], after, MONDAY) == Third(declared, id).params;
  }

  lemma NotTaken(runs: seq<Row>, id: nat)
    requires runs == FINISHED || runs == FINISHED + [Third({"date"}, 0)] || runs == FINISHED + [Third({}, 0)]
    requires id == 1 || (id == 0 && runs == FINISHED)
    ensures !DepTaken(runs, 2, id)
  {
  }

  /** Both deliveries look before either inserts: the flow is started twice for one date,
      although its runs read back. */
  lemma OverlappingDeliveriesStartTwice() returns (steps: seq<Step>)
    ensures var flows, runs := Daily({"date"}), Exec(Daily({"date"}), Server([], []), steps).runs;
            && |runs| == 4 && runs[2].flow == runs[3].flow == 2
            && ReadsBack(flows, runs[2]) && ReadsBack(flows, runs[3])
            && runs[2].batch == runs[3].batch == Some("monday")
  {
    var flows := Daily({"date"});
    var first, second := Third({"date"}, 0), Third({"date"}, 1);
    var start := [Add(0, MONDAY), Add(1, MONDAY), SetState(0, Completed), SetState(1, Completed)];
    FinishedReached(flows);
    ThirdIsReady({"date"}, FINISHED, 0);
    ThirdIsReady({"date"}, FINISHED, 1);
    var s0, s1, s2 := Server(FINISHED, []), Server(FINISHED, [first]), Server(FINISHED, [first, second]);
    assert Next(flows, s0, Decide(0, 2)) == s1 && Next(flows, s1, Decide(1, 2)) == s2;
    var s3, s4 := Server(FINISHED + [first], [second]), Server(FINISHED + [first] + [second], []);
    NotTaken(FINISHED, 0);
    NotTaken(FINISHED + [first], 1);
    assert Without([first, second], 0) == [second] && Without([second], 0) == [];
    assert Next(flows, s2, Insert(0)) == s3 && Next(flows, s3, Insert(0)) == s4;
    var race := [Decide(0, 2), Decide(1, 2), Insert(0), Insert(0)];
    FourSteps(flows, s0, race, s1, s2, s3, s4);
    ExecJoins(flows, Server([], []), start, race);
    steps := start + race;
    assert s4.runs == [Done(0), Done(1), first, second];
  }

  lemma FourSteps(flows: seq<Flow>, s0: Server, steps: seq<Step>, s1: Server, s2: Server, s3: Server, s4: Server)
    requires |steps| == 4 && Next(flows, s0, steps[0]) == s1 && Next(flows, s1, steps[1]) == s2
    requires Next(flows, s2, steps[2]) == s3 && Next(flows, s3, steps[3]) == s4
    ensures Exec(flows, s0, steps) == s4
  {
    assert steps[3..][1..] == [] && steps[2..][1..] == steps[3..] && steps[1..][1..] == steps[2..];
    assert Exec(flows, s3, steps[3..]) == s4;
    assert Exec(flows, s2, steps[2..]) == s4;
    assert Exec(flows, s1, steps[1..]) == s4;
  }

  lemma DailyDependents(declared: set<string>, u: nat)
    requires u < 2
    ensures Dependents(Daily(declared), u, 3) == [2]
  {
    var flows := Daily(declared);
    assert Dependents(flows, u, 1) == [] && Dependents(flows, u, 2) == [];
  }

  lemma DeliverToThird(declared: set<string>, runs: seq<Row>, id: nat)
    requires id < 2 && |runs| >= 2 && runs[id] == Done(id)
    requires Ready(Daily(declared), runs, id, 2) && MadeRow(Daily(declared), runs, id, 2) == Third(declared, id)
    requires !DepTaken(runs, 2, id)
    ensures Delivered(Daily(declared), runs, id) == runs + [Third(declared, id)]
  {
    var flows := Daily(declared);
    DailyDependents(declared, id);
    var one := TriggerOne(flows, runs, id, 2);
    assert one == runs + [Third(declared, id)] && one[|runs|] == Third(declared, id);
    var left := MAX_SKIP_DEPTH;
    assert TriggerFlow(flows, runs, id, 2, left) == one;
    assert [2][1..] == [];
    assert Trigger(flows, runs, id, [2], left) == Trigger(flows, one, id, [], left);
  }

  /** A flow that does not declare its key is started twice for one date by deliveries that
      come one after the other. */
  lemma UndeclaredKeyStartsTwice()
    ensures var flows := Daily({});
            var once := Delivered(flows, FINISHED, 0);
            && |once| == 3
            && var twice := Delivered(flows, once, 1);
            && |twice| == 4 && twice[2].flow == twice[3].flow == 2
            && twice[2].batch == twice[3].batch == Some("monday")
  {
    ThirdIsReady({}, FINISHED, 0);
    NotTaken(FINISHED, 0);
    DeliverToThird({}, FINISHED, 0);
    var once := FINISHED + [Third({}, 0)];
    ThirdIsReady({}, once, 1);
    NotTaken(once, 1);
    DeliverToThird({}, once, 1);
  }

  lemma OneDependent(flows: seq<Flow>)
    requires |flows| == 2 && flows[0].after.None? && flows[1].after.Some? && 0 in flows[1].after.value.upstreams
    ensures Dependents(flows, 0, 2) == [1]
  {
    assert Dependents(flows, 0, 0) == [];
    assert Dependents(flows, 0, 1) == [] + [];
    assert Dependents(flows, 0, 2) == [] + [1];
  }

  /** A flow that comes once per truth value after one that sets it is not started at all. */
  lemma TruthValueStartsNothing(b: bool)
    ensures var plain, params := Flow(None, false, {}, map[], None), map["flag" := Bool(b)];
            var flows := [plain, Flow(Some(After([0], Some("flag"), map[])), false, {"flag"}, map[], None)];
            var runs := [Row(0, params, Completed, None, None, None)];
            Delivered(flows, runs, 0) == runs
  {
    var plain, params := Flow(None, false, {}, map[], None), map["flag" := Bool(b)];
    var flows := [plain, Flow(Some(After([0], Some("flag"), map[])), false, {"flag"}, map[], None)];
    var runs := [Row(0, params, Completed, None, None, None)];
    if Ready(flows, runs, 0, 1) {
      WordNeedsText(flows, runs, 0, 1, 0);
    }
    OneDependent(flows);
    var left := MAX_SKIP_DEPTH;
    assert TriggerFlow(flows, runs, 0, 1, left) == runs;
    assert [1][1..] == [];
    assert Trigger(flows, runs, 0, [1], left) == Trigger(flows, runs, 0, [], left);
  }
}
