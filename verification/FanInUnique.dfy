/** Keyed fan-in into a flow that declares a unique key (`unique_check_for` in
    crates/server/src/api/runs.rs). The key is taken to be the fan-in key's parameter, and
    as long as the declaration names no states only runs that have not ended hold it. */
module FanInUnique {
  import opened Basics
  import opened FanIn
  import opened FanInRaces

  /** An unfinished run of the flow has the same key parameter. */
  predicate HeldBy(runs: seq<Row>, d: nat, key: string, params: Params) {
    exists k :: 0 <= k < |runs| && runs[k].flow == d && runs[k].state.Unfinished?
             && key in runs[k].params && key in params && runs[k].params[key] == params[key]
  }

  ghost predicate UniqueByKey(flows: seq<Flow>, d: nat) {
    && Keyed(flows, d) && flows[d].unique.Some?
    && forall runs, params ::
         flows[d].unique.value(runs, params) <==> HeldBy(runs, d, flows[d].after.value.key.value, params)
  }

  /** Nothing decided for the value waits to be inserted. */
  predicate NoneWaiting(waiting: seq<Row>, d: nat, text: string) {
    forall k :: 0 <= k < |waiting| ==> !Of(waiting[k], d, text)
  }

  // -- A decision by itself ---------------------------------------------------------------------

  /** At most one row waits for the value, and it will read back. */
  ghost predicate AtMostOne(flows: seq<Flow>, waiting: seq<Row>, d: nat, text: string) {
    && (forall i, j :: 0 <= i < j < |waiting| ==> !(Of(waiting[i], d, text) && Of(waiting[j], d, text)))
    && forall i :: 0 <= i < |waiting| && Of(waiting[i], d, text) ==> ReadsBack(flows, waiting[i])
  }

  /** One row waits for the value, or none and the value is taken. */
  ghost predicate OneWaiting(flows: seq<Flow>, s: Server, d: nat, text: string)
    requires Keyed(flows, d)
  {
    && AtMostOne(flows, s.waiting, d, text)
    && (Taken(flows, s.runs, d, text) || exists i :: 0 <= i < |s.waiting| && Of(s.waiting[i], d, text))
  }

  lemma NoneIsSettled(flows: seq<Flow>, s: Server, d: nat, text: string)
    requires Keyed(flows, d) && Taken(flows, s.runs, d, text) && NoneWaiting(s.waiting, d, text)
    ensures Settled(flows, s, d, text)
  {
    forall row | row in s.waiting ensures !Of(row, d, text) {
      var k :| 0 <= k < |s.waiting| && s.waiting[k] == row;
    }
  }

  /** The row that waits leaves: inserted or turned away, the value is settled. */
  lemma OneLeaves(flows: seq<Flow>, s: Server, k: nat, d: nat, text: string)
    requires UniqueByKey(flows, d) && OneWaiting(flows, s, d, text) && k < |s.waiting| && Of(s.waiting[k], d, text)
    ensures Settled(flows, Next(flows, s, Insert(k)), d, text)
    ensures Started(Next(flows, s, Insert(k)).runs, d, text) <= Started(s.runs, d, text) + 1
  {
    var row, key := s.waiting[k], flows[d].after.value.key.value;
    var t := Next(flows, s, Insert(k));
    assert t == Server(Inserted(flows, s.runs, row), Without(s.waiting, k));
    StartedAdds(s.runs, row, d, text);
    if Conflict(flows, s.runs, row) {
      var j :| 0 <= j < |s.runs| && s.runs[j].flow == d && key in s.runs[j].params
               && s.runs[j].params[key] == row.params[key];
      assert HasParam(t.runs[j], d, key, text);
    } else {
      assert HasParam(t.runs[|s.runs|], d, key, text);
    }
    NoneIsSettled(flows, t, d, text);
  }

  lemma WithoutOther(flows: seq<Flow>, waiting: seq<Row>, k: nat, d: nat, text: string)
    requires k < |waiting| && !Of(waiting[k], d, text) && AtMostOne(flows, waiting, d, text)
    ensures AtMostOne(flows, Without(waiting, k), d, text)
    ensures NoneWaiting(Without(waiting, k), d, text) ==> NoneWaiting(waiting, d, text)
  {
    var fewer := Without(waiting, k);
    assert forall i :: 0 <= i < k ==> fewer[i] == waiting[i];
    assert forall i :: k < i < |waiting| ==> fewer[i - 1] == waiting[i];
    assert forall i :: k <= i < |fewer| ==> fewer[i] == waiting[i + 1];
  }

  lemma OtherLeaves(flows: seq<Flow>, s: Server, k: nat, d: nat, text: string)
    requires Keyed(flows, d) && OneWaiting(flows, s, d, text) && k < |s.waiting| && !Of(s.waiting[k], d, text)
    ensures OneWaiting(flows, Next(flows, s, Insert(k)), d, text)
    ensures Started(Next(flows, s, Insert(k)).runs, d, text) == Started(s.runs, d, text)
  {
    var t := Next(flows, s, Insert(k));
    NextGrows(flows, s, Insert(k));
    if s.waiting[k].flow < |flows| {
      StartedAdds(s.runs, s.waiting[k], d, text);
      WithoutOther(flows, s.waiting, k, d, text);
    }
    if Taken(flows, s.runs, d, text) {
      TakenGrows(flows, s.runs, t.runs, d, text);
    }
  }

  lemma OutsideLeaves(flows: seq<Flow>, s: Server, step: Step, d: nat, text: string)
    requires Keyed(flows, d) && OneWaiting(flows, s, d, text) && (step.Add? || step.SetState?)
    ensures OneWaiting(flows, Next(flows, s, step), d, text)
    ensures Started(Next(flows, s, step).runs, d, text) == Started(s.runs, d, text)
  {
    var t := Next(flows, s, step);
    NextGrows(flows, s, step);
    if step.Add? {
      StartedAdds(s.runs, Row(step.flow, step.params, Unfinished, None, None, None), d, text);
    } else if step.id < |s.runs| {
      StartedSame(s.runs, step.id, step.state, d, text);
    }
    if Taken(flows, s.runs, d, text) {
      TakenGrows(flows, s.runs, t.runs, d, text);
    }
  }

  /** An orderly decision is not for this value: it is taken, or a row for it waits. */
  lemma DecisionLeaves(flows: seq<Flow>, s: Server, id: nat, e: nat, d: nat, text: string)
    requires UniqueByKey(flows, d) && AllMade(flows, s) && OneWaiting(flows, s, d, text)
    requires OrderlyStep(flows, s, Decide(id, e))
    ensures OneWaiting(flows, Next(flows, s, Decide(id, e)), d, text)
    ensures Next(flows, s, Decide(id, e)).runs == s.runs
  {
    if Ready(flows, s.runs, id, e) {
      var row := MadeRow(flows, s.runs, id, e);
      var t := Next(flows, s, Decide(id, e));
      if Taken(flows, s.runs, d, text) {
        if e == d {
          TakenNotReady(flows, s.runs, id, d, text);
        }
      } else {
        var i :| 0 <= i < |s.waiting| && Of(s.waiting[i], d, text);
        assert s.waiting[i] in s.waiting && Made(flows, s.runs, s.waiting[i]);
        assert Live(s.runs, s.waiting[i]);
        assert Of(t.waiting[i], d, text);
      }
      assert !Of(row, d, text);
    }
  }

  lemma {:induction false} OneMore(flows: seq<Flow>, s: Server, steps: seq<Step>, d: nat, text: string)
    requires UniqueByKey(flows, d) && AllMade(flows, s) && OneWaiting(flows, s, d, text)
    requires OrderlyRun(flows, s, steps)
    ensures Started(Exec(flows, s, steps).runs, d, text) <= Started(s.runs, d, text) + 1
    decreases |steps|
  {
    if steps != [] {
      var step, rest := steps[0], steps[1..];
      var t := Next(flows, s, step);
      NextMade(flows, s, step);
      if step.Insert? && step.k < |s.waiting| && Of(s.waiting[step.k], d, text) {
        OneLeaves(flows, s, step.k, d, text);
        SettledStays(flows, t, rest, d, text);
      } else {
        match step {
          case Add(_, _) => OutsideLeaves(flows, s, step, d, text);
          case SetState(_, _) => OutsideLeaves(flows, s, step, d, text);
          case Decide(id, e) => DecisionLeaves(flows, s, id, e, d, text);
          case Insert(k) =>
            if k < |s.waiting| {
              OtherLeaves(flows, s, k, d, text);
            }
        }
        OneMore(flows, t, rest, d, text);
      }
    }
  }

  // -- A decision with a rival --------------------------------------------------------------------

  /** The first `n` runs end. */
  function Endings(n: nat): seq<Step> {
    if n == 0 then [] else Endings(n - 1) + [SetState(n - 1, Completed)]
  }

  ghost predicate AllEnded(runs: seq<Row>, n: nat)
    requires n <= |runs|
  {
    forall i :: 0 <= i < n ==> runs[i].state == Completed
  }

  lemma {:induction false} EndingsEnd(flows: seq<Flow>, s: Server, n: nat, t: Server, d: nat, text: string)
    requires n <= |s.runs| && t == Exec(flows, s, Endings(n))
    ensures t.waiting == s.waiting && |t.runs| == |s.runs| && AllEnded(t.runs, n)
    ensures Started(t.runs, d, text) == Started(s.runs, d, text)
  {
    if n > 0 {
      var mid := Exec(flows, s, Endings(n - 1));
      EndingsEnd(flows, s, n - 1, mid, d, text);
      ExecJoins(flows, s, Endings(n - 1), [SetState(n - 1, Completed)]);
      OneStep(flows, mid, SetState(n - 1, Completed));
      StartedSame(mid.runs, n - 1, Completed, d, text);
    }
  }

  /** Runs that have all ended hold no key. */
  lemma EndedHoldNothing(flows: seq<Flow>, runs: seq<Row>, row: Row, d: nat)
    requires UniqueByKey(flows, d) && row.flow == d && AllEnded(runs, |runs|)
    ensures !Conflict(flows, runs, row)
  {
  }

  /** With every run ended, a waiting row is inserted; then everything can end again. */
  lemma InsertAndEnd(flows: seq<Flow>, s: Server, k: nat, d: nat, text: string, t: Server)
    requires UniqueByKey(flows, d) && k < |s.waiting| && Of(s.waiting[k], d, text)
    requires t == Exec(flows, s, Endings(|s.runs|) + [Insert(k)])
    ensures t.waiting == Without(s.waiting, k) && Started(t.runs, d, text) == Started(s.runs, d, text) + 1
  {
    var mid := Exec(flows, s, Endings(|s.runs|));
    EndingsEnd(flows, s, |s.runs|, mid, d, text);
    ExecJoins(flows, s, Endings(|s.runs|), [Insert(k)]);
    OneStep(flows, mid, Insert(k));
    EndedHoldNothing(flows, mid.runs, s.waiting[k], d);
    StartedAdds(mid.runs, s.waiting[k], d, text);
  }

  lemma {:induction false} NoDecisions(flows: seq<Flow>, s: Server, steps: seq<Step>)
    requires forall i :: 0 <= i < |steps| ==> !steps[i].Decide?
    ensures OrderlyRun(flows, s, steps)
    decreases |steps|
  {
    if steps != [] {
      NoDecisions(flows, Next(flows, s, steps[0]), steps[1..]);
    }
  }

  lemma {:induction false} EndingsDecideNothing(n: nat)
    ensures forall i :: 0 <= i < |Endings(n)| ==> !Endings(n)[i].Decide?
  {
    if n > 0 {
      EndingsDecideNothing(n - 1);
    }
  }

  /** Two waiting rows are both inserted, one after the other has ended. */
  lemma BothInserted(flows: seq<Flow>, s: Server, i: nat, j: nat, d: nat, text: string)
    requires UniqueByKey(flows, d) && i < j < |s.waiting| && Of(s.waiting[i], d, text) && Of(s.waiting[j], d, text)
    ensures !AlwaysAtMostOneMore(flows, s, d, text)
  {
    var first := Endings(|s.runs|) + [Insert(j)];
    var t := Exec(flows, s, first);
    InsertAndEnd(flows, s, j, d, text, t);
    assert t.waiting[i] == s.waiting[i];
    var second := Endings(|t.runs|) + [Insert(i)];
    InsertAndEnd(flows, t, i, d, text, Exec(flows, t, second));
    ExecJoins(flows, s, first, second);
    EndingsDecideNothing(|s.runs|);
    EndingsDecideNothing(|t.runs|);
    NoDecisions(flows, s, first + second);
    assert Started(Exec(flows, s, first + second).runs, d, text) == Started(s.runs, d, text) + 2;
  }

  /** A declared unique key does not help: deciding to start a keyed flow for a value that
      will read back leads to at most one run for it, in every orderly continuation, exactly
      when nothing decided for the value is waiting. */
  lemma UniqueDecisionSafeExactly(flows: seq<Flow>, s: Server, id: nat, d: nat, text: string)
    requires AllMade(flows, s) && Ready(flows, s.runs, id, d) && UniqueByKey(flows, d)
    requires text == TextOf(s.runs[id].params[flows[d].after.value.key.value])
    requires ReadsBack(flows, MadeRow(flows, s.runs, id, d))
    ensures NoneWaiting(s.waiting, d, text) <==> AlwaysAtMostOneMore(flows, Next(flows, s, Decide(id, d)), d, text)
  {
    var made, t := MadeRow(flows, s.runs, id, d), Next(flows, s, Decide(id, d));
    NextMade(flows, s, Decide(id, d));
    assert t.waiting == s.waiting + [made] && Of(t.waiting[|s.waiting|], d, text);
    if NoneWaiting(s.waiting, d, text) {
      forall steps | OrderlyRun(flows, t, steps)
        ensures Started(Exec(flows, t, steps).runs, d, text) <= Started(t.runs, d, text) + 1
      {
        OneMore(flows, t, steps, d, text);
      }
    } else {
      var i :| 0 <= i < |s.waiting| && Of(s.waiting[i], d, text);
      BothInserted(flows, t, i, |s.waiting|, d, text);
    }
  }
}
