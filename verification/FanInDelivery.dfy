/** What one delivery does, run by run: which flows it starts, from what, with which
    parameters and in which state, and how far a skip is carried. */
module FanInDelivery {
  import opened Basics
  import opened FanIn

  // -- The flows and the parameters ------------------------------------------------------------

  /** The flows that come after a flow, each once and in order. */
  lemma {:induction false} DependentsAre(flows: seq<Flow>, u: nat, n: nat)
    requires n <= |flows|
    ensures forall d :: d in Dependents(flows, u, n)
                   <==> 0 <= d < n && flows[d].after.Some? && u in flows[d].after.value.upstreams
    ensures forall i, j :: 0 <= i < j < |Dependents(flows, u, n)| ==>
              Dependents(flows, u, n)[i] < Dependents(flows, u, n)[j]
  {
    if n > 0 {
      DependentsAre(flows, u, n - 1);
      var before := Dependents(flows, u, n - 1);
      assert forall i :: 0 <= i < |before| ==> before[i] in before;
    }
  }

  /** The parameters of a triggered run: what `after=` sets comes first, then the upstream
      run's own for the names the flow declares, then the defaults; nothing else is passed on. */
  lemma MadeParamsAre(flow: Flow, after: After, params: Params, name: string)
    ensures name in MadeParams(flow, after, params)
       <==> name in after.settings || (name in flow.declared && (name in params || name in flow.defaults))
    ensures name in MadeParams(flow, after, params) ==>
              var value := MadeParams(flow, after, params)[name];
              && (name in after.settings ==>
                   match after.settings[name]
                   case Fixed(v) => value == v
                   case FromParam(other) => value == (if other in params then params[other] else Null))
              && (name !in after.settings && name in params ==> value == params[name])
              && (name !in after.settings && name !in params ==> value == flow.defaults[name])
  {
  }

  // -- The state ----------------------------------------------------------------------------------

  /** The newest run of the flow with this value was skipped, and passes the skip on. */
  ghost predicate NewestSkipped(runs: seq<Row>, flow: nat, key: string, text: string) {
    exists k :: 0 <= k < |runs| && HasParam(runs[k], flow, key, text) && runs[k].state == Skipped(true)
             && forall later :: k < later < |runs| ==> !HasParam(runs[later], flow, key, text)
  }

  /** The finished run passes a skip on, or one of the runs a keyed flow waited for does. */
  ghost predicate SkipReaches(flows: seq<Flow>, runs: seq<Row>, id: nat, d: nat)
    requires Ready(flows, runs, id, d)
  {
    || runs[id].state == Skipped(true)
    || (flows[d].after.value.key.Some? &&
        var key := flows[d].after.value.key.value;
        exists u :: u in flows[d].after.value.upstreams && NewestSkipped(runs, u, key, TextOf(runs[id].params[key])))
  }

  lemma CarriesIsNewest(runs: seq<Row>, flow: nat, key: string, text: string)
    ensures LatestCarries(runs, flow, key, text) <==> NewestSkipped(runs, flow, key, text)
  {
    LatestFinds(runs, flow, key, text);
  }

  /** A run is created skipped exactly when a skip reaches it, else waiting to be run. */
  lemma SkippedExactly(flows: seq<Flow>, runs: seq<Row>, id: nat, d: nat)
    requires Ready(flows, runs, id, d)
    ensures MadeRow(flows, runs, id, d).state == if SkipReaches(flows, runs, id, d) then Skipped(true) else Unfinished
  {
    var after := flows[d].after.value;
    if after.key.Some? {
      var key, text := after.key.value, TextOf(runs[id].params[after.key.value]);
      forall i | 0 <= i < |after.upstreams|
        ensures LatestCarries(runs, after.upstreams[i], key, text)
           <==> NewestSkipped(runs, after.upstreams[i], key, text)
      {
        CarriesIsNewest(runs, after.upstreams[i], key, text);
      }
    }
  }

  // -- Every run that is added ----------------------------------------------------------------------

  /** Row `k` is what its flow gets from the run it names, as the runs before it stand. */
  ghost predicate Added(flows: seq<Flow>, out: seq<Row>, k: nat)
    requires k < |out|
  {
    var row, runs := out[k], out[..k];
    && row.upstream.Some? && Ready(flows, runs, row.upstream.value, row.flow)
    && row == MadeRow(flows, runs, row.upstream.value, row.flow)
    && !Conflict(flows, runs, row)
  }

  ghost predicate AllAdded(flows: seq<Flow>, runs: seq<Row>, out: seq<Row>) {
    runs <= out && forall k :: |runs| <= k < |out| ==> Added(flows, out, k)
  }

  /** Flow `d` had its turn: with the first `m` runs it was not ready, or the store turned
      its run away, or the run was added next. */
  ghost predicate HadTurn(flows: seq<Flow>, out: seq<Row>, m: nat, id: nat, d: nat) {
    && m <= |out|
    && (Ready(flows, out[..m], id, d) ==>
         var row := MadeRow(flows, out[..m], id, d);
         Conflict(flows, out[..m], row) || (m < |out| && out[m] == row))
  }

  /** Flow `d` had its turn among the runs added. */
  ghost predicate Visited(flows: seq<Flow>, from: nat, out: seq<Row>, id: nat, d: nat) {
    exists m :: from <= m <= |out| && HadTurn(flows, out, m, id, d)
  }

  lemma OneAdded(flows: seq<Flow>, runs: seq<Row>, id: nat, d: nat)
    ensures var out := TriggerOne(flows, runs, id, d);
            AllAdded(flows, runs, out) && HadTurn(flows, out, |runs|, id, d)
  {
    var out := TriggerOne(flows, runs, id, d);
    assert out[..|runs|] == runs;
  }

  lemma AddedLonger(flows: seq<Flow>, mid: seq<Row>, out: seq<Row>, k: nat)
    requires mid <= out && k < |mid|
    ensures Added(flows, out, k) <==> Added(flows, mid, k)
  {
    assert out[..k] == mid[..k];
  }

  lemma AddedJoins(flows: seq<Flow>, runs: seq<Row>, mid: seq<Row>, out: seq<Row>)
    requires AllAdded(flows, runs, mid) && AllAdded(flows, mid, out)
    ensures AllAdded(flows, runs, out)
  {
    forall k | |runs| <= k < |out| ensures Added(flows, out, k) {
      if k < |mid| {
        AddedLonger(flows, mid, out, k);
      }
    }
  }

  lemma VisitedLonger(flows: seq<Flow>, from: nat, less: nat, mid: seq<Row>, out: seq<Row>, id: nat, d: nat)
    requires Visited(flows, from, mid, id, d) && mid <= out && less <= from
    ensures Visited(flows, less, out, id, d)
  {
    var m :| from <= m <= |mid| && HadTurn(flows, mid, m, id, d);
    assert out[..m] == mid[..m];
    assert HadTurn(flows, out, m, id, d);
  }

  /** Everything a delivery adds was decided on as the runs stood. */
  lemma {:induction false} TriggerAdds(flows: seq<Flow>, runs: seq<Row>, id: nat, ids: seq<nat>, left: nat)
    ensures AllAdded(flows, runs, Trigger(flows, runs, id, ids, left))
    decreases left, |ids|
  {
    if ids != [] {
      var one := TriggerOne(flows, runs, id, ids[0]);
      var mid := TriggerFlow(flows, runs, id, ids[0], left);
      OneAdded(flows, runs, id, ids[0]);
      if |one| > |runs| && CarriesSkip(one[|runs|].state) && left > 0 {
        TriggerAdds(flows, one, |runs|, Dependents(flows, ids[0], |flows|), left - 1);
        AddedJoins(flows, runs, one, mid);
      }
      TriggerAdds(flows, mid, id, ids[1..], left);
      AddedJoins(flows, runs, mid, Trigger(flows, mid, id, ids[1..], left));
    }
  }

  /** Every flow that was to have its turn had it. */
  lemma {:induction false} TriggerVisits(flows: seq<Flow>, runs: seq<Row>, id: nat, ids: seq<nat>, left: nat, d: nat)
    requires d in ids
    ensures Visited(flows, |runs|, Trigger(flows, runs, id, ids, left), id, d)
    decreases left, |ids|
  {
    var one := TriggerOne(flows, runs, id, ids[0]);
    var mid := TriggerFlow(flows, runs, id, ids[0], left);
    var out := Trigger(flows, mid, id, ids[1..], left);
    OneAdded(flows, runs, id, ids[0]);
    FlowGrows(flows, runs, id, ids[0], left);
    TriggerAdds(flows, mid, id, ids[1..], left);
    if d == ids[0] {
      assert Visited(flows, |runs|, one, id, d);
      VisitedLonger(flows, |runs|, |runs|, one, out, id, d);
    } else {
      TriggerVisits(flows, mid, id, ids[1..], left, d);
      VisitedLonger(flows, |mid|, |runs|, out, out, id, d);
    }
  }

  lemma FlowGrows(flows: seq<Flow>, runs: seq<Row>, id: nat, d: nat, left: nat)
    ensures runs <= TriggerOne(flows, runs, id, d) <= TriggerFlow(flows, runs, id, d, left)
  {
    var one := TriggerOne(flows, runs, id, d);
    if |one| > |runs| && CarriesSkip(one[|runs|].state) && left > 0 {
      TriggerAdds(flows, one, |runs|, Dependents(flows, d, |flows|), left - 1);
    }
  }

  // -- How far a skip is carried ---------------------------------------------------------------------

  /** How many runs lie between run `k` and the ones there were before. */
  function Links(out: seq<Row>, from: nat, k: nat): nat
    requires k < |out|
    decreases k
  {
    if k < from then 0
    else if out[k].upstream.Some? && out[k].upstream.value < k then 1 + Links(out, from, out[k].upstream.value)
    else 1
  }

  lemma {:induction false} LinksFrom(out: seq<Row>, from: nat, later: nat, k: nat)
    requires k < |out| && from <= later
    ensures Links(out, later, k) <= Links(out, from, k)
    decreases k
  {
    if k >= from && out[k].upstream.Some? && out[k].upstream.value < k {
      LinksFrom(out, from, later, out[k].upstream.value);
    }
  }

  lemma {:induction false} LinksLonger(mid: seq<Row>, out: seq<Row>, from: nat, k: nat)
    requires mid <= out && k < |mid|
    ensures Links(out, from, k) == Links(mid, from, k)
    decreases k
  {
    if k >= from && mid[k].upstream.Some? && mid[k].upstream.value < k {
      LinksLonger(mid, out, from, mid[k].upstream.value);
    }
  }

  /** What a new skipped run brought about is one link further than it. */
  lemma {:induction false} LinksNest(mid: seq<Row>, one: seq<Row>, from: nat, id: nat, k: nat)
    requires |one| == from + 1 && Cascade(one, mid, from) && |one| <= k < |mid|
    requires one[from].upstream == Some(id) && id < from
    ensures Links(mid, from, k) == Links(mid, |one|, k) + 1
    decreases k
  {
    if mid[k].upstream == Some(from) {
      assert mid[from] == one[from];
      assert Links(mid, from, from) == 1;
    } else {
      LinksNest(mid, one, from, id, mid[k].upstream.value);
    }
  }

  /** A skip goes on: as long as the chain is not too deep, every flow after a run that was
      created skipped has its turn with that run. */
  lemma {:induction false} SkipGoesOn(flows: seq<Flow>, runs: seq<Row>, id: nat, ids: seq<nat>, left: nat,
                                      out: seq<Row>, k: nat, e: nat)
    requires id < |runs| && out == Trigger(flows, runs, id, ids, left)
    requires |runs| <= k < |out| && out[k].state == Skipped(true) && Links(out, |runs|, k) <= left
    requires e in Dependents(flows, out[k].flow, |flows|)
    ensures Visited(flows, k + 1, out, k, e)
    decreases left, |ids|
  {
    var one := TriggerOne(flows, runs, id, ids[0]);
    var mid := TriggerFlow(flows, runs, id, ids[0], left);
    FlowGrows(flows, runs, id, ids[0], left);
    TriggerAdds(flows, mid, id, ids[1..], left);
    OneCascade(flows, runs, id, ids[0]);
    if k >= |mid| {
      LinksFrom(out, |runs|, |mid|, k);
      SkipGoesOn(flows, mid, id, ids[1..], left, out, k, e);
    } else {
      LinksLonger(mid, out, |runs|, k);
      FlowSkipGoesOn(flows, runs, id, ids[0], left, one, mid, k, e);
      VisitedLonger(flows, k + 1, k + 1, mid, out, k, e);
    }
  }

  lemma {:induction false} FlowSkipGoesOn(flows: seq<Flow>, runs: seq<Row>, id: nat, d: nat, left: nat,
                                          one: seq<Row>, mid: seq<Row>, k: nat, e: nat)
    requires id < |runs| && one == TriggerOne(flows, runs, id, d) && mid == TriggerFlow(flows, runs, id, d, left)
    requires |runs| <= k < |mid| && mid[k].state == Skipped(true) && Links(mid, |runs|, k) <= left
    requires e in Dependents(flows, mid[k].flow, |flows|)
    ensures Visited(flows, k + 1, mid, k, e)
    decreases left, 0
  {
    FlowGrows(flows, runs, id, d, left);
    OneCascade(flows, runs, id, d);
    assert |one| == |runs| + 1 && mid[|runs|] == one[|runs|] && one[|runs|].upstream == Some(id);
    assert left > 0;
    var next := Dependents(flows, d, |flows|);
    if k == |runs| {
      TriggerVisits(flows, one, |runs|, next, left - 1, e);
    } else {
      TriggerCascades(flows, one, |runs|, next, left - 1);
      LinksNest(mid, one, |runs|, id, k);
      SkipGoesOn(flows, one, |runs|, next, left - 1, mid, k, e);
    }
  }

  lemma {:induction false} LinksSame(mid: seq<Row>, out: seq<Row>, from: nat, id: nat, k: nat)
    requires Cascade(mid, out, id) && id < from <= |mid| <= k < |out|
    ensures Links(out, from, k) == Links(out, |mid|, k)
    decreases k
  {
    if out[k].upstream != Some(id) {
      LinksSame(mid, out, from, id, out[k].upstream.value);
    }
  }

  /** No run a delivery adds is more than one link deeper than a skip is carried. */
  lemma {:induction false} LinksBounded(flows: seq<Flow>, runs: seq<Row>, id: nat, ids: seq<nat>, left: nat,
                                        out: seq<Row>, k: nat)
    requires id < |runs| && out == Trigger(flows, runs, id, ids, left) && |runs| <= k < |out|
    ensures 1 <= Links(out, |runs|, k) <= left + 1
    decreases left, |ids|
  {
    var one := TriggerOne(flows, runs, id, ids[0]);
    var mid := TriggerFlow(flows, runs, id, ids[0], left);
    FlowGrows(flows, runs, id, ids[0], left);
    TriggerAdds(flows, mid, id, ids[1..], left);
    if k >= |mid| {
      TriggerCascades(flows, mid, id, ids[1..], left);
      LinksSame(mid, out, |runs|, id, k);
      LinksBounded(flows, mid, id, ids[1..], left, out, k);
    } else {
      LinksLonger(mid, out, |runs|, k);
      FlowLinksBounded(flows, runs, id, ids[0], left, one, mid, k);
    }
  }

  lemma {:induction false} FlowLinksBounded(flows: seq<Flow>, runs: seq<Row>, id: nat, d: nat, left: nat,
                                            one: seq<Row>, mid: seq<Row>, k: nat)
    requires id < |runs| && one == TriggerOne(flows, runs, id, d) && mid == TriggerFlow(flows, runs, id, d, left)
    requires |runs| <= k < |mid|
    ensures 1 <= Links(mid, |runs|, k) <= left + 1
    decreases left, 0
  {
    FlowGrows(flows, runs, id, d, left);
    OneCascade(flows, runs, id, d);
    assert |one| == |runs| + 1 && mid[|runs|] == one[|runs|] && one[|runs|].upstream == Some(id);
    if k > |runs| {
      var next := Dependents(flows, d, |flows|);
      TriggerCascades(flows, one, |runs|, next, left - 1);
      LinksNest(mid, one, |runs|, id, k);
      LinksBounded(flows, one, |runs|, next, left - 1, mid, k);
    }
  }

  // -- A whole delivery -----------------------------------------------------------------------------

  /** Row `k` is skipped exactly when a skip reaches it, else waiting to be run. */
  ghost predicate StateFits(flows: seq<Flow>, out: seq<Row>, k: nat)
    requires k < |out| && Added(flows, out, k)
  {
    out[k].state == if SkipReaches(flows, out[..k], out[k].upstream.value,
                out[k].flow) then Skipped(true) else Unfinished
  }

  /** Every flow after a run that was created skipped, not too deep, had its turn. */
  ghost predicate SkipsCarried(flows: seq<Flow>, from: nat, out: seq<Row>) {
    forall k, e ::
      (&& from <= k < |out| && out[k].state == Skipped(true) && Links(out, from, k) <= MAX_SKIP_DEPTH
       && e in Dependents(flows, out[k].flow, |flows|)) ==>
        Visited(flows, k + 1, out, k, e)
  }

  /** The end of a run is delivered: every run added is what its flow gets as the runs stood
      then, skipped exactly when a skip reaches it; every flow after the finished run has its
      turn; and so has every flow after a run that was created skipped, 32 links down and no
      further. */
  lemma DeliveryExactly(flows: seq<Flow>, runs: seq<Row>, id: nat, out: seq<Row>)
    requires id < |runs| && out == Delivered(flows, runs, id)
    ensures AllAdded(flows, runs, out)
    ensures forall k :: |runs| <= k < |out| ==> StateFits(flows, out, k)
    ensures forall d :: d in Dependents(flows, runs[id].flow, |flows|) ==> Visited(flows, |runs|, out, id, d)
    ensures SkipsCarried(flows, |runs|, out)
    ensures forall k :: |runs| <= k < |out| ==> 1 <= Links(out, |runs|, k) <= MAX_SKIP_DEPTH + 1
  {
    var ids, left := Dependents(flows, runs[id].flow, |flows|), MAX_SKIP_DEPTH;
    TriggerAdds(flows, runs, id, ids, left);
    forall k | |runs| <= k < |out| ensures StateFits(flows, out, k) {
      SkippedExactly(flows, out[..k], out[k].upstream.value, out[k].flow);
    }
    forall d | d in ids ensures Visited(flows, |runs|, out, id, d) {
      TriggerVisits(flows, runs, id, ids, left, d);
    }
    forall k | |runs| <= k < |out| ensures 1 <= Links(out, |runs|, k) <= left + 1 {
      LinksBounded(flows, runs, id, ids, left, out, k);
    }
    forall k, e | (&& |runs| <= k < |out| && out[k].state == Skipped(true) && Links(out, |runs|, k) <= left
                   && e in Dependents(flows, out[k].flow, |flows|))
      ensures Visited(flows, k + 1, out, k, e)
    {
      SkipGoesOn(flows, runs, id, ids, left, out, k, e);
    }
  }
}
