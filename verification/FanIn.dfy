/** Dependents of a finished run (`trigger_dependents_at` in crates/server/src/dispatch.rs):
    keyed fan-in, one run per upstream run, and skips carried down the chain. */
module FanIn {
  import opened Basics

  const MAX_SKIP_DEPTH := 32

  /** A parameter: a number is kept as its JSON text. */
  datatype Value = Str(text: string) | Num(text: string) | Bool(b: bool) | Null

  /** The text a value is looked up by. */
  function TextOf(v: Value): string {
    match v
    case Str(text) => text
    case Num(text) => text
    case Bool(b) => if b then "true" else "false"
    case Null => "null"
  }

  /** The text the database compares a stored value by: JSON booleans become 0 and 1, and
      null equals nothing. */
  function SqlText(v: Value): Option<string> {
    match v
    case Str(text) => Some(text)
    case Num(text) => Some(text)
    case Bool(b) => Some(if b then "1" else "0")
    case Null => None
  }

  predicate Textual(v: Value) { v.Str? || v.Num? }

  /** A stored value is found by another: the same text, a text that spells a truth value or
      null, or a truth value looked up as 1 or 0. */
  lemma FoundByExactly(stored: Value, wanted: Value)
    ensures SqlText(stored) == Some(TextOf(wanted))
       <==> || (Textual(stored) && Textual(wanted) && stored.text == wanted.text)
            || (Textual(stored) && wanted == Bool(true) && stored.text == "true")
            || (Textual(stored) && wanted == Bool(false) && stored.text == "false")
            || (Textual(stored) && wanted == Null && stored.text == "null")
            || (Textual(wanted) && stored == Bool(true) && wanted.text == "1")
            || (Textual(wanted) && stored == Bool(false) && wanted.text == "0")
  {
    if stored.Bool? && !Textual(wanted) {
      assert |TextOf(wanted)| >= 4 && |SqlText(stored).value| == 1;
    }
    assert "true"[0] != "false"[0] && "1"[0] != "0"[0];
  }

  type Params = map<string, Value>

  datatype RunState = Unfinished | Completed | Skipped(carried: bool) | Stopped

  predicate IsComplete(s: RunState) { s.Completed? || s.Skipped? }

  /** Skipped by a person, or because an upstream run was. */
  predicate CarriesSkip(s: RunState) { s.Skipped? && s.carried }

  /** A run: `upstream` is the run it was triggered by, `dep` the unique key made from it
      when the flow declares none, and `batch` the key text of a fan-in. */
  datatype Row = Row(
    flow: nat,
    params: Params,
    state: RunState,
    upstream: Option<nat>,
    dep: Option<nat>,
    batch: Option<string>)

  /** A parameter set by `after=`: from the upstream run's parameter, or fixed. */
  datatype Setting = FromParam(name: string) | Fixed(value: Value)

  datatype After = After(upstreams: seq<nat>, key: Option<string>, settings: map<string, Setting>)

  /** `unique`, when the flow declares a unique key, says whether a run already holds it. */
  datatype Flow = Flow(
    after: Option<After>,
    broken: bool,
    declared: set<string>,
    defaults: Params,
    unique: Option<(seq<Row>, Params) -> bool>)

  // -- Looking runs up -------------------------------------------------------------------

  predicate HasParam(row: Row, flow: nat, key: string, text: string) {
    row.flow == flow && key in row.params && SqlText(row.params[key]) == Some(text)
  }

  /** The flow's latest run with the text as its parameter, if it has one. */
  function Latest(runs: seq<Row>, flow: nat, key: string, text: string): Option<nat> {
    if runs == [] then None
    else if HasParam(runs[|runs| - 1], flow, key, text) then Some(|runs| - 1)
    else Latest(runs[..|runs| - 1], flow, key, text)
  }

  lemma {:induction false} LatestFinds(runs: seq<Row>, flow: nat, key: string, text: string)
    ensures var found := Latest(runs, flow, key, text);
            match found
            case Some(i) =>
              && i < |runs| && HasParam(runs[i], flow, key, text)
              && forall k :: i < k < |runs| ==> !HasParam(runs[k], flow, key, text)
            case None => forall k :: 0 <= k < |runs| ==> !HasParam(runs[k], flow, key, text)
  {
    if runs != [] {
      LatestFinds(runs[..|runs| - 1], flow, key, text);
    }
  }

  predicate LatestComplete(runs: seq<Row>, flow: nat, key: string, text: string) {
    var found := Latest(runs, flow, key, text);
    found.Some? && found.value < |runs| && IsComplete(runs[found.value].state)
  }

  predicate LatestCarries(runs: seq<Row>, flow: nat, key: string, text: string) {
    var found := Latest(runs, flow, key, text);
    found.Some? && found.value < |runs| && CarriesSkip(runs[found.value].state)
  }

  // -- One dependent flow -------------------------------------------------------------------

  function Rendered(setting: Setting, params: Params): Value {
    match setting
    case FromParam(name) => if name in params then params[name] else Null
    case Fixed(value) => value
  }

  /** The parameter of a triggered run: what `after=` sets, else the upstream run's if
      declared, else the default. */
  function MadeParam(flow: Flow, after: After, params: Params, name: string): Option<Value> {
    if name in after.settings then Some(Rendered(after.settings[name], params))
    else if name in flow.declared && name in params then Some(params[name])
    else if name in flow.declared && name in flow.defaults then Some(flow.defaults[name])
    else None
  }

  function MadeParams(flow: Flow, after: After, params: Params): Params {
    map name | name in after.settings.Keys + flow.declared && MadeParam(flow, after, params, name).Some?
      :: MadeParam(flow, after, params, name).value
  }

  predicate AllComplete(runs: seq<Row>, after: After, key: string, text: string) {
    forall i :: 0 <= i < |after.upstreams| ==> LatestComplete(runs, after.upstreams[i], key, text)
  }

  predicate AnyCarries(runs: seq<Row>, after: After, key: string, text: string) {
    exists i :: 0 <= i < |after.upstreams| && LatestCarries(runs, after.upstreams[i], key, text)
  }

  predicate DepTaken(runs: seq<Row>, flow: nat, id: nat) {
    exists k :: 0 <= k < |runs| && runs[k].flow == flow && runs[k].dep == Some(id)
  }

  /** Whether the store turns the row away: another run holds its unique key, or without
      one the flow has a run of the same upstream run already. */
  predicate Conflict(flows: seq<Flow>, runs: seq<Row>, row: Row)
    requires row.flow < |flows|
  {
    if flows[row.flow].unique.Some? then flows[row.flow].unique.value(runs, row.params)
    else row.dep.Some? && DepTaken(runs, row.flow, row.dep.value)
  }

  /** The store checks for a conflict and inserts in one write. */
  function Inserted(flows: seq<Flow>, runs: seq<Row>, row: Row): seq<Row>
    requires row.flow < |flows|
  {
    if Conflict(flows, runs, row) then runs else runs + [row]
  }

  /** Whether run `id` triggers flow `d`: the flow comes after it, and for a keyed flow
      every upstream's latest run with the value is complete and none of its own has it. */
  predicate Ready(flows: seq<Flow>, runs: seq<Row>, id: nat, d: nat) {
    && id < |runs| && d < |flows| && flows[d].after.Some? && !flows[d].broken
    && runs[id].flow in flows[d].after.value.upstreams
    && (flows[d].after.value.key.Some? ==>
         var key := flows[d].after.value.key.value;
         && key in runs[id].params
         && AllComplete(runs, flows[d].after.value, key, TextOf(runs[id].params[key]))
         && Latest(runs, d, key, TextOf(runs[id].params[key])).None?)
  }

  /** The run that flow `d` gets from run `id`. */
  function MadeRow(flows: seq<Flow>, runs: seq<Row>, id: nat, d: nat): Row
    requires Ready(flows, runs, id, d)
  {
    var after, run := flows[d].after.value, runs[id];
    var text := if after.key.Some? then Some(TextOf(run.params[after.key.value])) else None;
    var skip := CarriesSkip(run.state) || (text.Some? && AnyCarries(runs, after, after.key.value, text.value));
    Row(d, MadeParams(flows[d], after, run.params), if skip then Skipped(true) else Unfinished, Some(id),
        if flows[d].unique.Some? then None else Some(id), text)
  }

  function TriggerOne(flows: seq<Flow>, runs: seq<Row>, id: nat, d: nat): seq<Row> {
    if Ready(flows, runs, id, d) then Inserted(flows, runs, MadeRow(flows, runs, id, d)) else runs
  }

  // -- All of them, and the skips carried on ----------------------------------------------------

  /** The flows that come after flow `u`, among the first `n`. */
  function Dependents(flows: seq<Flow>, u: nat, n: nat): seq<nat>
    requires n <= |flows|
  {
    if n == 0 then []
    else
      var f := flows[n - 1];
      Dependents(flows, u, n - 1) + if f.after.Some? && u in f.after.value.upstreams then [n - 1] else []
  }

  /** Run `id` triggers flow `d`; a run created skipped triggers its own dependents at
      once, `left` levels deep at most. */
  function TriggerFlow(flows: seq<Flow>, runs: seq<Row>, id: nat, d: nat, left: nat): seq<Row>
    decreases left, 0
  {
    var one := TriggerOne(flows, runs, id, d);
    if |one| > |runs| && CarriesSkip(one[|runs|].state) && left > 0
    then Trigger(flows, one, |runs|, Dependents(flows, d, |flows|), left - 1)
    else one
  }

  /** Run `id` triggers the flows `ids` in turn. */
  function Trigger(flows: seq<Flow>, runs: seq<Row>, id: nat, ids: seq<nat>, left: nat): seq<Row>
    decreases left, |ids|
  {
    if ids == [] then runs else Trigger(flows, TriggerFlow(flows, runs, id, ids[0], left), id, ids[1..], left)
  }

  /** The end of run `id` is delivered. */
  function Delivered(flows: seq<Flow>, runs: seq<Row>, id: nat): seq<Row>
    requires id < |runs|
  {
    Trigger(flows, runs, id, Dependents(flows, runs[id].flow, |flows|), MAX_SKIP_DEPTH)
  }

  class Store {
    var runs: seq<Row>

    method TriggerDependents(flows: seq<Flow>, id: nat)
      requires id < |runs|
      modifies this
      ensures runs == Delivered(flows, old(runs), id)
    {
      TriggerDependentsAt(flows, id, Dependents(flows, runs[id].flow, |flows|), 0);
    }

    method TriggerDependentsAt(flows: seq<Flow>, id: nat, ids: seq<nat>, depth: nat)
      requires depth <= MAX_SKIP_DEPTH
      modifies this
      ensures runs == Trigger(flows, old(runs), id, ids, MAX_SKIP_DEPTH - depth)
      decreases MAX_SKIP_DEPTH - depth, 1
    {
      var i, left := 0, MAX_SKIP_DEPTH - depth;
      while i < |ids|
        invariant 0 <= i <= |ids|
        invariant Trigger(flows, runs, id, ids[i..], left) == Trigger(flows, old(runs), id, ids, left)
      {
        assert ids[i..][1..] == ids[i + 1..];
        TriggerOneFlow(flows, id, ids[i], depth);
        i := i + 1;
      }
      assert ids[|ids|..] == [];
    }

    /** One turn of the loop. */
    method TriggerOneFlow(flows: seq<Flow>, id: nat, d: nat, depth: nat)
      requires depth <= MAX_SKIP_DEPTH
      modifies this
      ensures runs == TriggerFlow(flows, old(runs), id, d, MAX_SKIP_DEPTH - depth)
      decreases MAX_SKIP_DEPTH - depth, 0
    {
      if !Ready(flows, runs, id, d) {
        return;
      }
      var row, n := MadeRow(flows, runs, id, d), |runs|;
      if Conflict(flows, runs, row) {
        return;
      }
      runs := runs + [row];
      if CarriesSkip(row.state) && depth < MAX_SKIP_DEPTH {
        TriggerDependentsAt(flows, n, Dependents(flows, d, |flows|), depth + 1);
      }
    }
  }

  // -- Whether a fan-in is remembered ---------------------------------------------------------

  /** A fan-in run whose own parameter reads back as the value it was started for. */
  predicate ReadsBack(flows: seq<Flow>, row: Row) {
    && row.flow < |flows| && flows[row.flow].after.Some? && flows[row.flow].after.value.key.Some?
    && row.batch.Some? && HasParam(row, row.flow, flows[row.flow].after.value.key.value, row.batch.value)
  }

  /** It does when `after=` sets the key to a value that reads the same, or leaves it
      alone, the flow declares it, and the value is a text or a number. */
  lemma ReadsBackExactly(flows: seq<Flow>, runs: seq<Row>, id: nat, d: nat)
    requires Ready(flows, runs, id, d) && flows[d].after.value.key.Some?
    ensures var after := flows[d].after.value;
            var key := after.key.value;
            var value := runs[id].params[key];
            ReadsBack(flows, MadeRow(flows, runs, id, d)) <==>
              if key in after.settings
              then SqlText(Rendered(after.settings[key], runs[id].params)) == Some(TextOf(value))
              else key in flows[d].declared && (value.Str? || value.Num?)
  {
    TextsAgree(runs[id].params[flows[d].after.value.key.value]);
  }

  lemma TextsAgree(v: Value)
    ensures SqlText(v) == Some(TextOf(v)) <==> v.Str? || v.Num?
  {
    if v.Bool? {
      assert TextOf(v)[1] == 'r' || TextOf(v)[1] == 'a';
      assert |SqlText(v).value| == 1;
    }
  }

  lemma {:induction false} LatestSkips(runs: seq<Row>, row: Row, flow: nat, key: string, text: string)
    requires !HasParam(row, flow, key, text)
    ensures Latest(runs + [row], flow, key, text) == Latest(runs, flow, key, text)
  {
    assert (runs + [row])[..|runs|] == runs;
  }

  /** Otherwise the value is not remembered: another finished run with the same value
      starts the flow again. */
  lemma UnreadBatchRepeats(flows: seq<Flow>, runs: seq<Row>, id: nat, other: nat, d: nat)
    requires Ready(flows, runs, id, d) && flows[d].after.value.key.Some? && flows[d].unique.None?
    requires !ReadsBack(flows, MadeRow(flows, runs, id, d)) && !DepTaken(runs, d, id) && !DepTaken(runs, d, other)
    requires Ready(flows, runs, other, d) && other != id
    requires var key := flows[d].after.value.key.value; TextOf(runs[other].params[key]) == TextOf(runs[id].params[key])
    ensures var once := TriggerOne(flows, runs, id, d);
            var twice := TriggerOne(flows, once, other, d);
            && |twice| == |runs| + 2
            && twice[|runs|].flow == twice[|runs| + 1].flow == d
            && twice[|runs|].batch.Some? && twice[|runs|].batch == twice[|runs| + 1].batch
  {
    var after := flows[d].after.value;
    var key, row := after.key.value, MadeRow(flows, runs, id, d);
    var text := row.batch.value;
    var once := runs + [row];
    assert TriggerOne(flows, runs, id, d) == once;
    assert !HasParam(row, d, key, text);
    LatestSkips(runs, row, d, key, text);
    forall i | 0 <= i < |after.upstreams| ensures LatestComplete(once, after.upstreams[i], key, text) {
      assert LatestComplete(runs, after.upstreams[i], key, text);
      LatestFinds(runs, after.upstreams[i], key, text);
      LatestSkips(runs, row, after.upstreams[i], key, text);
    }
    assert once[other] == runs[other];
    assert Ready(flows, once, other, d);
    assert !DepTaken(once, d, other);
  }

  /** A truth value or null as the key's value starts nothing by itself: some run of every
      upstream must hold the same word as a text. */
  lemma WordNeedsText(flows: seq<Flow>, runs: seq<Row>, id: nat, d: nat, u: nat)
    requires Ready(flows, runs, id, d) && flows[d].after.value.key.Some? && u in flows[d].after.value.upstreams
    requires var v := runs[id].params[flows[d].after.value.key.value]; v.Bool? || v.Null?
    ensures var key := flows[d].after.value.key.value;
            exists k :: 0 <= k < |runs| && runs[k].flow == u && key in runs[k].params
                     && (runs[k].params[key].Str? || runs[k].params[key].Num?)
                     && TextOf(runs[k].params[key]) == TextOf(runs[id].params[key])
  {
    var after := flows[d].after.value;
    var key := after.key.value;
    var text := TextOf(runs[id].params[key]);
    var i :| 0 <= i < |after.upstreams| && after.upstreams[i] == u;
    assert LatestComplete(runs, after.upstreams[i], key, text);
    LatestFinds(runs, u, key, text);
    var k := Latest(runs, u, key, text).value;
    WordIsNoDigit(runs[id].params[key]);
  }

  lemma WordIsNoDigit(v: Value)
    requires v.Bool? || v.Null?
    ensures TextOf(v) != "1" && TextOf(v) != "0"
  {
    assert |TextOf(v)| >= 4;
  }

  /** The newest run of the flow with this value has finished. */
  ghost predicate NewestFinished(runs: seq<Row>, flow: nat, key: string, text: string) {
    exists k :: 0 <= k < |runs| && HasParam(runs[k], flow, key, text)
             && (runs[k].state.Completed? || runs[k].state.Skipped?)
             && forall later :: k < later < |runs| ==> !HasParam(runs[later], flow, key, text)
  }

  /** A run of a keyed flow is decided on only when every upstream's newest run with the
      value has finished and the flow has no run with it. */
  lemma DecidedOnlyWhenAllFinished(flows: seq<Flow>, runs: seq<Row>, id: nat, d: nat, u: nat)
    requires Ready(flows, runs, id, d) && flows[d].after.value.key.Some? && u in flows[d].after.value.upstreams
    ensures var key := flows[d].after.value.key.value;
            var text := TextOf(runs[id].params[key]);
            && NewestFinished(runs, u, key, text)
            && forall k :: 0 <= k < |runs| ==> !HasParam(runs[k], d, key, text)
  {
    var after := flows[d].after.value;
    var key := after.key.value;
    var text := TextOf(runs[id].params[key]);
    var i :| 0 <= i < |after.upstreams| && after.upstreams[i] == u;
    assert LatestComplete(runs, after.upstreams[i], key, text);
    LatestFinds(runs, u, key, text);
    LatestFinds(runs, d, key, text);
  }

  // -- The decision that is meant ---------------------------------------------------------------------

  predicate Holds(row: Row, flow: nat, key: string, v: Value) {
    row.flow == flow && key in row.params && row.params[key] == v
  }

  /** The newest run of the flow that holds the value has finished. */
  ghost predicate HolderFinished(runs: seq<Row>, flow: nat, key: string, v: Value) {
    exists k :: 0 <= k < |runs| && Holds(runs[k], flow, key, v)
             && (runs[k].state.Completed? || runs[k].state.Skipped?)
             && forall later :: k < later < |runs| ==> !Holds(runs[later], flow, key, v)
  }

  /** `Ready` by the values themselves: every upstream's newest run that holds the value has
      finished, and no run of the flow holds it. */
  ghost predicate Meant(flows: seq<Flow>, runs: seq<Row>, id: nat, d: nat) {
    && id < |runs| && d < |flows| && flows[d].after.Some? && !flows[d].broken
    && runs[id].flow in flows[d].after.value.upstreams
    && (flows[d].after.value.key.Some? ==>
         var key := flows[d].after.value.key.value;
         && key in runs[id].params
         && (forall u :: u in flows[d].after.value.upstreams ==> HolderFinished(runs, u, key, runs[id].params[key]))
         && forall k :: 0 <= k < |runs| ==> !Holds(runs[k], d, key, runs[id].params[key]))
  }

  /** No other value reads as this one. */
  ghost predicate Unmistaken(runs: seq<Row>, key: string, v: Value) {
    forall k :: 0 <= k < |runs| && key in runs[k].params && SqlText(runs[k].params[key]) == Some(TextOf(v)) ==>
      runs[k].params[key] == v
  }

  /** When no other value is mistaken for it, a text or number is found where it is held, and
      a truth value or null nowhere. */
  lemma FoundWhereHeld(runs: seq<Row>, flow: nat, key: string, v: Value, k: nat)
    requires Unmistaken(runs, key, v) && k < |runs|
    ensures HasParam(runs[k], flow, key, TextOf(v)) <==> Holds(runs[k], flow, key, v) && (v.Str? || v.Num?)
  {
    TextsAgree(v);
  }

  lemma HolderFound(runs: seq<Row>, flow: nat, key: string, v: Value)
    requires Unmistaken(runs, key, v)
    ensures LatestComplete(runs, flow, key, TextOf(v)) <==> HolderFinished(runs, flow, key, v) && (v.Str? || v.Num?)
    ensures Latest(runs, flow, key, TextOf(v)).None?
       <==> (v.Str? || v.Num? ==> forall k :: 0 <= k < |runs| ==> !Holds(runs[k], flow, key, v))
  {
    LatestFinds(runs, flow, key, TextOf(v));
    forall k | 0 <= k < |runs|
      ensures HasParam(runs[k], flow, key, TextOf(v)) <==> Holds(runs[k], flow, key, v) && (v.Str? || v.Num?)
    {
      FoundWhereHeld(runs, flow, key, v, k);
    }
  }

  /** A keyed flow is started as it is meant to be, unless the value is a truth value or
      null: then it never is. */
  lemma StartsAsMeantExactly(flows: seq<Flow>, runs: seq<Row>, id: nat, d: nat, key: string, v: Value)
    requires id < |runs| && d < |flows| && flows[d].after.Some? && flows[d].after.value.key == Some(key)
    requires key in runs[id].params && v == runs[id].params[key] && Unmistaken(runs, key, v)
    ensures Ready(flows, runs, id, d) <==> Meant(flows, runs, id, d) && (v.Str? || v.Num?)
  {
    var upstreams := flows[d].after.value.upstreams;
    HolderFound(runs, d, key, v);
    forall i | 0 <= i < |upstreams|
      ensures LatestComplete(runs, upstreams[i], key, TextOf(v))
         <==> HolderFinished(runs, upstreams[i], key, v) && (v.Str? || v.Num?)
    {
      HolderFound(runs, upstreams[i], key, v);
    }
  }

  // -- Skips carried down ----------------------------------------------------------------------------

  /** The most runs `n` flows can get when every flow has at most `width` dependents. */
  function Bound(n: nat, width: nat, left: nat): nat
    decreases left, n
  {
    if n == 0 then 0
    else 1 + (if left == 0 then 0 else Bound(width, width, left - 1)) + Bound(n - 1, width, left)
  }

  lemma {:induction false} DependentsFew(flows: seq<Flow>, u: nat, n: nat)
    requires n <= |flows|
    ensures |Dependents(flows, u, n)| <= n
  {
    if n > 0 {
      DependentsFew(flows, u, n - 1);
    }
  }

  lemma {:induction false} BoundGrows(n: nat, m: nat, width: nat, left: nat)
    requires n <= m
    ensures Bound(n, width, left) <= Bound(m, width, left)
    decreases m
  {
    if n < m {
      BoundGrows(n, m - 1, width, left);
    }
  }

  /** What a delivery adds: earlier runs stay as they are, each new run is a dependent of
      the finished run itself or a skipped run that hangs on a new skipped run, and their
      number is bounded whatever the dependencies, cycles included. */
  ghost predicate Cascade(runs: seq<Row>, after: seq<Row>, id: nat) {
    && runs <= after
    && forall k :: |runs| <= k < |after| ==>
         && after[k].upstream.Some?
         && (after[k].upstream == Some(id) || HangsOnSkip(after, |runs|, k))
  }

  ghost predicate HangsOnSkip(rows: seq<Row>, from: nat, k: nat)
    requires k < |rows|
  {
    && CarriesSkip(rows[k].state)
    && rows[k].upstream.Some? && from <= rows[k].upstream.value < k && CarriesSkip(rows[rows[k].upstream.value].state)
  }

  lemma OneCascade(flows: seq<Flow>, runs: seq<Row>, id: nat, d: nat)
    ensures var one := TriggerOne(flows, runs, id, d);
            && Cascade(runs, one, id) && |one| <= |runs| + 1
            && (|one| > |runs| ==> one[|runs|].upstream == Some(id))
  {
  }

  /** A skipped run triggers only skipped runs. */
  lemma SkipMakesSkip(flows: seq<Flow>, runs: seq<Row>, id: nat, d: nat)
    requires id < |runs| && CarriesSkip(runs[id].state) && |TriggerOne(flows, runs, id, d)| > |runs|
    ensures CarriesSkip(TriggerOne(flows, runs, id, d)[|runs|].state)
  {
  }

  ghost predicate AllSkipped(rows: seq<Row>, from: nat) {
    forall k :: from <= k < |rows| ==> CarriesSkip(rows[k].state)
  }

  lemma {:induction false} TriggerCascades(flows: seq<Flow>, runs: seq<Row>, id: nat, ids: seq<nat>, left: nat)
    requires id < |runs|
    ensures var out := Trigger(flows, runs, id, ids, left);
            && Cascade(runs, out, id)
            && |out| <= |runs| + Bound(|ids|, |flows|, left)
            && (CarriesSkip(runs[id].state) ==> AllSkipped(out, |runs|))
    decreases left, |ids|
  {
    if ids != [] {
      var one := TriggerOne(flows, runs, id, ids[0]);
      OneCascade(flows, runs, id, ids[0]);
      var mid := TriggerFlow(flows, runs, id, ids[0], left);
      if |one| > |runs| && CarriesSkip(one[|runs|].state) && left > 0 {
        var next := Dependents(flows, ids[0], |flows|);
        DependentsFew(flows, ids[0], |flows|);
        BoundGrows(|next|, |flows|, |flows|, left - 1);
        TriggerCascades(flows, one, |runs|, next, left - 1);
        CascadeNests(runs, one, mid, id);
      }
      if CarriesSkip(runs[id].state) && |one| > |runs| {
        SkipMakesSkip(flows, runs, id, ids[0]);
      }
      TriggerCascades(flows, mid, id, ids[1..], left);
      CascadeJoins(runs, mid, Trigger(flows, mid, id, ids[1..], left), id);
    }
  }

  /** The cascade of a new skipped run belongs to the cascade it is part of. */
  lemma CascadeNests(runs: seq<Row>, one: seq<Row>, mid: seq<Row>, id: nat)
    requires Cascade(runs, one, id) && |one| == |runs| + 1 && one[|runs|].upstream == Some(id)
             && CarriesSkip(one[|runs|].state)
    requires Cascade(one, mid, |runs|) && AllSkipped(mid, |one|)
    ensures Cascade(runs, mid, id)
  {
    forall k | |runs| <= k < |mid|
      ensures mid[k].upstream.Some? && (mid[k].upstream == Some(id) || HangsOnSkip(mid, |runs|, k))
    {
      assert mid[|runs|] == one[|runs|];
    }
  }

  lemma CascadeJoins(runs: seq<Row>, mid: seq<Row>, out: seq<Row>, id: nat)
    requires Cascade(runs, mid, id) && Cascade(mid, out, id)
    ensures Cascade(runs, out, id)
  {
    forall k | |runs| <= k < |out|
      ensures out[k].upstream.Some? && (out[k].upstream == Some(id) || HangsOnSkip(out, |runs|, k))
    {
      if k < |mid| {
        assert out[k] == mid[k];
        if mid[k].upstream != Some(id) {
          assert out[mid[k].upstream.value] == mid[mid[k].upstream.value];
        }
      }
    }
  }

  /** Delivering the end of a run always ends, adds at most a bounded number of runs on any
      dependency graph, and when the run was skipped adds skipped runs only. */
  lemma SkipCascadeEnds(flows: seq<Flow>, runs: seq<Row>, id: nat)
    requires id < |runs|
    ensures var out := Delivered(flows, runs, id);
            && Cascade(runs, out, id)
            && |out| <= |runs| + Bound(|flows|, |flows|, MAX_SKIP_DEPTH)
            && (CarriesSkip(runs[id].state) ==> AllSkipped(out, |runs|))
  {
    var ids, left := Dependents(flows, runs[id].flow, |flows|), MAX_SKIP_DEPTH;
    DependentsFew(flows, runs[id].flow, |flows|);
    BoundGrows(|ids|, |flows|, |flows|, left);
    TriggerCascades(flows, runs, id, ids, left);
  }
}
