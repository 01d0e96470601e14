/** Durable replay of a flow body (`RunContext` in python/cereyan/context.py). The
    body runs from the top on every pass; numbered slots and the effect journal
    make each of its effects happen once. The content hash is modelled as the
    content itself. */
module Journal {
  import opened Basics

  // -- Slot names ----------------------------------------------------------------

  /** The callers of `effect`: emit_event, artifacts, publish_state, set_attributes. */
  datatype Kind = Event | Artifact | PublishedState | Attributes

  function KindText(kind: Kind): (text: string)
    ensures ':' !in text
  {
    match kind
    case Event => "event"
    case Artifact => "artifact"
    case PublishedState => "state"
    case Attributes => "attributes"
  }

  function Digit(d: nat): (c: char)
    requires d < 10
    ensures c != '-'
  {
    "0123456789"[d]
  }

  function Decimal(n: nat): (text: string)
    ensures |text| > 0 && '-' !in text
  {
    if n < 10 then [Digit(n)] else Decimal(n / 10) + [Digit(n % 10)]
  }

  /** What an effect's calls are numbered by. */
  datatype Counter = Counter(kind: Kind, name: string)

  /** The n-th use of a counter in a pass. */
  datatype Slot = Slot(counter: Counter, n: nat)

  /** The n-th of calls numbered under one text, as task keys are too. */
  function Numbered(text: string, n: nat): string {
    text + "-" + Decimal(n)
  }

  /** A slot as it is written: `<kind>:<name>-<n>`. */
  function SlotText(slot: Slot): string {
    Numbered(KindText(slot.counter.kind) + ":" + slot.counter.name, slot.n)
  }

  lemma DigitInjective(a: nat, b: nat)
    requires a < 10 && b < 10 && Digit(a) == Digit(b)
    ensures a == b
  {
    var digits := "0123456789";
    assert forall i, j :: 0 <= i < j < 10 ==> digits[i] != digits[j];
  }

  lemma {:induction false} DecimalInjective(a: nat, b: nat)
    requires Decimal(a) == Decimal(b)
    ensures a == b
  {
    var x := Decimal(a);
    DecimalLast(a);
    DecimalLast(b);
    DigitInjective(a % 10, b % 10);
    if a >= 10 && b >= 10 {
      DecimalInjective(a / 10, b / 10);
    }
  }

  lemma DecimalLast(a: nat)
    ensures var x := Decimal(a);
            && x[|x| - 1] == Digit(a % 10)
            && (a >= 10 ==> x[..|x| - 1] == Decimal(a / 10) && |x| > 1)
            && (a < 10 ==> |x| == 1)
  {
  }

  /** The text after the last separator, when it holds no separator itself, and the
      text before it are determined by the whole. */
  lemma SplitAtLast(a: string, x: string, b: string, y: string, c: char)
    requires a + [c] + x == b + [c] + y && c !in x && c !in y
    ensures a == b && x == y
  {
    var s := a + [c] + x;
    assert s[|a|] == c && s[|b|] == c;
    assert forall i :: |a| < i < |s| ==> s[i] == x[i - |a| - 1] != c;
    assert forall i :: |b| < i < |s| ==> s[i] == y[i - |b| - 1] != c;
    assert |a| == |b|;
    assert a == s[..|a|] && b == s[..|a|] && x == s[|a| + 1..] && y == s[|a| + 1..];
  }

  lemma SplitAtFirst(a: string, x: string, b: string, y: string, c: char)
    requires a + [c] + x == b + [c] + y && c !in a && c !in b
    ensures a == b && x == y
  {
    var s := a + [c] + x;
    assert s[|a|] == c && s[|b|] == c;
    assert forall i :: 0 <= i < |a| ==> s[i] == a[i] != c;
    assert forall i :: 0 <= i < |b| ==> s[i] == b[i] != c;
    assert |a| == |b|;
    assert a == s[..|a|] && b == s[..|a|] && x == s[|a| + 1..] && y == s[|a| + 1..];
  }

  lemma KindTextInjective(a: Kind, b: Kind)
    requires KindText(a) == KindText(b)
    ensures a == b
  {
    assert KindText(a)[0] == KindText(b)[0];
    assert KindText(a)[1] == KindText(b)[1];
  }

  /** Two effects share a slot text only when kind, name and number all agree, whatever
      dashes, colons or digits the names contain: keying by the text and keying by the
      slot are the same. */
  lemma SlotTextInjective(a: Slot, b: Slot)
    requires SlotText(a) == SlotText(b)
    ensures a == b
  {
    var x, y := a.counter, b.counter;
    SplitAtLast(KindText(x.kind) + ":" + x.name, Decimal(a.n), KindText(y.kind) + ":" + y.name, Decimal(b.n), '-');
    DecimalInjective(a.n, b.n);
    SplitAtFirst(KindText(x.kind), x.name, KindText(y.kind), y.name, ':');
    KindTextInjective(x.kind, y.kind);
  }

  /** Only artifact slots carry the prefix by which artifacts are told apart. */
  lemma PrefixTellsKind(slot: Slot)
    ensures "artifact:" <= SlotText(slot) <==> slot.counter.kind.Artifact?
  {
    var text, kind := SlotText(slot), KindText(slot.counter.kind);
    assert text == kind + (":" + slot.counter.name + "-" + Decimal(slot.n));
    if slot.counter.kind.Artifact? {
      assert text[..8] == "artifact" && text[8] == ':';
    } else {
      assert text[0] == kind[0] && text[1] == kind[1] && "artifact:"[0] == 'a' && "artifact:"[1] == 'r';
      assert kind[0] != 'a' || kind[1] != 'r';
    }
  }

  // -- The context -----------------------------------------------------------------

  /** What the journal remembers of a slot. */
  datatype Known = Known(hash: string, ref: Option<string>)

  datatype Mark = Mark(slot: Slot, hash: string, passNo: int)

  datatype Context = Context(
    passNo: int,
    counters: map<string, nat>,
    effectCounters: map<Counter, nat>,
    effects: map<Slot, Known>,
    inputIndex: nat,
    journal: bool)

  function Get<K>(counters: map<K, nat>, key: K): nat {
    if key in counters then counters[key] else 0
  }

  /** One more use of a counter. */
  function Counted<K>(counters: map<K, nat>, key: K): map<K, nat> {
    counters[key := Get(counters, key) + 1]
  }

  /** Whether a call whose slot and content are these already happened. */
  predicate Happened(effects: map<Slot, Known>, slot: Slot, content: string) {
    slot in effects && effects[slot].hash == content
  }

  class RunContext {
    var passNo: int
    var counters: map<string, nat>
    var effectCounters: map<Counter, nat>
    var effects: map<Slot, Known>
    var inputIndex: nat
    var journal: bool

    function View(): Context
      reads this
    {
      Context(passNo, counters, effectCounters, effects, inputIndex, journal)
    }

    constructor (passNo: int, effects: map<Slot, Known>, journal: bool)
      ensures View() == Context(passNo, map[], map[], effects, 0, journal)
    {
      this.passNo, this.effects, this.journal := passNo, effects, journal;
      counters, effectCounters, inputIndex := map[], map[], 0;
    }

    method NextDynamicKey(taskName: string) returns (key: string)
      modifies this`counters
      ensures key == Numbered(taskName, Get(old(counters), taskName))
      ensures counters == Counted(old(counters), taskName)
    {
      var n := Get(counters, taskName);
      counters := counters[taskName := n + 1];
      key := Numbered(taskName, n);
    }

    method NextInputIndex() returns (n: nat)
      modifies this`inputIndex
      ensures n == old(inputIndex) && inputIndex == n + 1
    {
      n := inputIndex;
      inputIndex := n + 1;
    }

    /** A new pass: every counter starts over, what happened is kept. */
    method StartPass() returns (n: int)
      modifies this`passNo, this`counters, this`effectCounters, this`inputIndex
      ensures n == old(passNo) + 1
      ensures View() == old(View()).(passNo := n, counters := map[], effectCounters := map[], inputIndex := 0)
    {
      passNo := passNo + 1;
      counters, effectCounters, inputIndex := map[], map[], 0;
      n := passNo;
    }

    /** Take the call's slot; the call goes ahead unless the slot already holds the content. */
    method Effect(kind: Kind, name: string, content: string, inTask: bool)
      returns (perform: bool, mark: Option<Mark>, ref: Option<string>)
      modifies this`effectCounters
      ensures inTask || !journal ==> perform && mark == None && ref == None && effectCounters == old(effectCounters)
      ensures !inTask && journal ==>
                var counter := Counter(kind, name);
                var n := Get(old(effectCounters), counter);
                var slot := Slot(counter, n);
                && effectCounters == Counted(old(effectCounters), counter)
                && (perform <==> slot !in effects || effects[slot].hash != content)
                && mark == (if perform then Some(Mark(slot, content, passNo)) else None)
                && ref == (if perform then None else effects[slot].ref)
    {
      if inTask || !journal {
        return true, None, None;
      }
      var counter := Counter(kind, name);
      var n := Get(effectCounters, counter);
      effectCounters := effectCounters[counter := n + 1];
      var slot := Slot(counter, n);
      if slot in effects && effects[slot].hash == content {
        return false, None, effects[slot].ref;
      }
      return true, Some(Mark(slot, content, passNo)), None;
    }

    /** Enter what a call did, so that a further pass finds it; without a mark, nothing. */
    method RememberEffect(mark: Option<Mark>, ref: Option<string>)
      modifies this`effects
      ensures effects == if mark.None? then old(effects)
                         else old(effects)[mark.value.slot := Known(mark.value.hash, ref)]
    {
      if mark.Some? {
        effects := effects[mark.value.slot := Known(mark.value.hash, ref)];
      }
    }
  }

  // -- Bodies and passes -------------------------------------------------------------

  /** One effect of the flow body: what the code asks for. */
  datatype Call = Call(kind: Kind, name: string, content: string)

  /** One performed effect as the store journals it: by which run, at which call of
      the body, and with the reference the backend gave it. */
  datatype Row = Row(run: nat, at: nat, slot: Slot, hash: string, ref: Option<string>)

  function CounterOf(call: Call): Counter { Counter(call.kind, call.name) }

  /** How many of the first `i` calls use this counter. */
  function Uses(body: seq<Call>, i: nat, counter: Counter): nat
    requires i <= |body|
  {
    if i == 0 then 0
    else Uses(body, i - 1, counter) + if CounterOf(body[i - 1]) == counter then 1 else 0
  }

  /** The slot of the i-th call of the body, the same on every pass. */
  function SlotAt(body: seq<Call>, i: nat): Slot
    requires i < |body|
  {
    Slot(CounterOf(body[i]), Uses(body, i, CounterOf(body[i])))
  }

  lemma {:induction false} UsesGrow(body: seq<Call>, i: nat, j: nat)
    requires i < j <= |body|
    ensures Uses(body, i, CounterOf(body[i])) < Uses(body, j, CounterOf(body[i]))
    decreases j
  {
    if i + 1 < j {
      UsesGrow(body, i, j - 1);
    }
  }

  ghost predicate Distinct(slots: seq<Slot>) {
    forall i, j :: 0 <= i < j < |slots| ==> slots[i] != slots[j]
  }

  /** The slots of the first `n` calls. */
  function SlotsUpto(body: seq<Call>, n: nat): (slots: seq<Slot>)
    requires n <= |body|
    ensures |slots| == n
  {
    if n == 0 then [] else SlotsUpto(body, n - 1) + [SlotAt(body, n - 1)]
  }

  function Slots(body: seq<Call>): (slots: seq<Slot>)
    ensures |slots| == |body|
  {
    SlotsUpto(body, |body|)
  }

  lemma {:induction false} SlotsUptoAt(body: seq<Call>, n: nat, i: nat)
    requires i < n <= |body|
    ensures SlotsUpto(body, n)[i] == SlotAt(body, i)
  {
    if i < n - 1 {
      SlotsUptoAt(body, n - 1, i);
    }
  }

  /** Different calls of a body have different slots. */
  lemma SlotsDistinct(body: seq<Call>)
    ensures Distinct(Slots(body))
  {
    forall i, j | 0 <= i < j < |body| ensures Slots(body)[i] != Slots(body)[j] {
      SlotsUptoAt(body, |body|, i);
      SlotsUptoAt(body, |body|, j);
      if SlotAt(body, i) == SlotAt(body, j) {
        UsesGrow(body, i, j);
      }
    }
  }

  /** Artifacts are each run's own records; every other effect counts for the chain. */
  predicate Visible(row: Row, run: nat) {
    row.slot.counter.kind.Artifact? ==> row.run == run
  }

  /** The journal a run starts from, and keeps up to date in memory: the latest row of
      every slot, without the artifacts of other runs. */
  function JournalOf(log: seq<Row>, run: nat): map<Slot, Known>
    decreases |log|
  {
    if log == [] then map[]
    else
      var front, row := JournalOf(log[..|log| - 1], run), log[|log| - 1];
      if Visible(row, run) then front[row.slot := Known(row.hash, row.ref)] else front - {row.slot}
  }

  /** The latest row of every slot. */
  function Latest(log: seq<Row>): map<Slot, Row> {
    if log == [] then map[]
    else Latest(log[..|log| - 1])[log[|log| - 1].slot := log[|log| - 1]]
  }

  /** How many crash reruns back the store reads. */
  const WALK := 50

  /** The rows of the runs that are read for `run`. */
  function Within(rows: seq<Row>, run: nat): seq<Row> {
    if rows == [] then []
    else
      var last := rows[|rows| - 1];
      Within(rows[..|rows| - 1], run) + if run <= last.run + WALK then [last] else []
  }

  /** What the store reads for `run` of a crash chain: the rows of its runs over the seed
      that its first run was given. */
  function ReadEffects(seed: map<Slot, Row>, first: nat, rows: seq<Row>, run: nat): map<Slot, Row> {
    (if run <= first + WALK then seed else map[]) + Latest(Within(rows, run))
  }

  /** The seed of a retry: what the store reads for the original, without artifacts. */
  function RetrySeed(read: map<Slot, Row>): map<Slot, Row> {
    map slot | slot in read && !slot.counter.kind.Artifact? :: read[slot]
  }

  /** What the engine keeps of it for a run. */
  function StartJournal(read: map<Slot, Row>, run: nat): map<Slot, Known> {
    map slot | slot in read && Visible(read[slot], run) :: Known(read[slot].hash, read[slot].ref)
  }

  lemma {:induction false} LatestSlot(log: seq<Row>, slot: Slot)
    requires slot in Latest(log)
    ensures Latest(log)[slot] in log && Latest(log)[slot].slot == slot
    decreases |log|
  {
    if log[|log| - 1].slot != slot {
      LatestSlot(log[..|log| - 1], slot);
    }
  }

  lemma {:induction false} LatestConcat(a: seq<Row>, b: seq<Row>)
    ensures Latest(a + b) == Latest(a) + Latest(b)
    decreases |b|
  {
    if b == [] {
      assert a + b == a;
    } else {
      var front := b[..|b| - 1];
      assert (a + b)[..|a + b| - 1] == a + front;
      LatestConcat(a, front);
    }
  }

  /** Taking the latest rows first and dropping other runs' artifacts after, as the
      store and the engine do, gives the same journal. */
  lemma {:induction false} JournalIsLatest(log: seq<Row>, run: nat)
    ensures JournalOf(log, run) == StartJournal(Latest(log), run)
    decreases |log|
  {
    if log != [] {
      JournalIsLatest(log[..|log| - 1], run);
    }
  }

  ghost predicate RunsAscend(rows: seq<Row>) {
    forall j, k :: 0 <= j < k < |rows| ==> rows[j].run <= rows[k].run
  }

  lemma {:induction false} NoneWithin(rows: seq<Row>, run: nat)
    requires forall k :: 0 <= k < |rows| ==> rows[k].run + WALK < run
    ensures Within(rows, run) == []
    decreases |rows|
  {
    if rows != [] {
      NoneWithin(rows[..|rows| - 1], run);
    }
  }

  /** Reading fewer runs finds the same row for a slot, or none. */
  lemma {:induction false} LatestWithin(rows: seq<Row>, run: nat, slot: Slot)
    requires RunsAscend(rows)
    ensures slot in Latest(Within(rows, run)) <==> slot in Latest(rows) && run <= Latest(rows)[slot].run + WALK
    ensures slot in Latest(Within(rows, run)) ==> Latest(Within(rows, run))[slot] == Latest(rows)[slot]
    decreases |rows|
  {
    if rows != [] {
      var front, last := rows[..|rows| - 1], rows[|rows| - 1];
      if run <= last.run + WALK {
        LatestWithin(front, run, slot);
        var within := Within(front, run);
        assert (within + [last])[..|within|] == within;
      } else {
        NoneWithin(rows, run);
        if slot in Latest(rows) {
          LatestSlot(rows, slot);
        }
      }
    }
  }

  /** Rows of a chain that began with run `first`, after rows of earlier runs. */
  ghost predicate ChainOf(before: seq<Row>, rows: seq<Row>, first: nat) {
    && RunsAscend(rows)
    && (forall k :: 0 <= k < |before| ==> before[k].run < first)
    && forall k :: 0 <= k < |rows| ==> first <= rows[k].run
  }

  /** What a chain reads for a slot is the latest row there ever was; effects are found as
      long as they, or the chain's beginning, are within reach. */
  lemma SlotRead(before: seq<Row>, rows: seq<Row>, first: nat, run: nat, slot: Slot)
    requires ChainOf(before, rows, first) && first <= run
    ensures var read, all := ReadEffects(RetrySeed(Latest(before)), first, rows, run), Latest(before + rows);
            && (slot in read ==> slot in all && read[slot] == all[slot])
            && (slot in all ==> all[slot].slot == slot)
            && (slot in all && !slot.counter.kind.Artifact? ==>
                 (slot in read <==> run <= Max(all[slot].run, first) + WALK))
            && (slot in all && slot.counter.kind.Artifact? && all[slot].run == run ==> slot in read)
  {
    LatestConcat(before, rows);
    LatestWithin(rows, run, slot);
    if slot in Latest(rows) {
      LatestSlot(rows, slot);
    } else if slot in Latest(before) {
      LatestSlot(before, slot);
    }
  }

  /** No effect is out of reach for `run`. */
  predicate InReach(all: map<Slot, Row>, first: nat, run: nat) {
    forall slot :: slot in all && !slot.counter.kind.Artifact? ==> run <= Max(all[slot].run, first) + WALK
  }

  /** A chain's rows over the seed of its retry give the journal of everything ever stored,
      exactly when no effect is out of reach. */
  lemma JournalReadExactly(before: seq<Row>, rows: seq<Row>, first: nat, run: nat)
    requires ChainOf(before, rows, first) && first <= run
    ensures StartJournal(ReadEffects(RetrySeed(Latest(before)), first, rows, run), run) == JournalOf(before + rows, run)
       <==> InReach(Latest(before + rows), first, run)
  {
    var read, all := ReadEffects(RetrySeed(Latest(before)), first, rows, run), Latest(before + rows);
    JournalIsLatest(before + rows, run);
    if InReach(all, first, run) {
      forall slot
        ensures slot in StartJournal(read, run) <==> slot in StartJournal(all, run)
        ensures slot in StartJournal(read, run) ==> StartJournal(read, run)[slot] == StartJournal(all, run)[slot]
      {
        SlotRead(before, rows, first, run, slot);
      }
    } else {
      var slot :| slot in all && !slot.counter.kind.Artifact? && run > Max(all[slot].run, first) + WALK;
      SlotRead(before, rows, first, run, slot);
      assert slot in StartJournal(all, run) && slot !in StartJournal(read, run);
    }
  }

  /** The seed of a retry of a retry again stands for everything before it. */
  lemma SeedsAddUp(before: seq<Row>, rows: seq<Row>, first: nat, run: nat)
    requires ChainOf(before, rows, first) && first <= run && InReach(Latest(before + rows), first, run)
    ensures RetrySeed(ReadEffects(RetrySeed(Latest(before)), first, rows, run)) == RetrySeed(Latest(before + rows))
  {
    var read, all := ReadEffects(RetrySeed(Latest(before)), first, rows, run), Latest(before + rows);
    forall slot
      ensures slot in RetrySeed(read) <==> slot in RetrySeed(all)
      ensures slot in RetrySeed(read) ==> RetrySeed(read)[slot] == RetrySeed(all)[slot]
    {
      SlotRead(before, rows, first, run, slot);
    }
  }

  /** Every row records the call it says it does, and later runs' rows come later. */
  ghost predicate Placed(log: seq<Row>, body: seq<Call>, slots: seq<Slot>, run: nat) {
    && |slots| == |body|
    && (forall k :: 0 <= k < |log| ==>
         && log[k].run <= run && log[k].at < |body|
         && log[k].slot == slots[log[k].at] && log[k].hash == body[log[k].at].content)
    && forall j, k :: 0 <= j < k < |log| ==> log[j].run <= log[k].run
  }

  /** The slots of the body, which say which calls are artifacts. */
  ghost predicate Named(body: seq<Call>, slots: seq<Slot>) {
    && |slots| == |body| && Distinct(slots)
    && forall i :: 0 <= i < |body| ==> (slots[i].counter.kind.Artifact? <==> body[i].kind.Artifact?)
  }

  lemma SlotsNamed(body: seq<Call>)
    ensures Named(body, Slots(body))
  {
    SlotsDistinct(body);
    forall i | 0 <= i < |body| ensures Slots(body)[i].counter.kind.Artifact? <==> body[i].kind.Artifact? {
      SlotsUptoAt(body, |body|, i);
    }
  }

  // -- Which calls have been performed -----------------------------------------------

  /** Whether a row is one of this run's artifacts, or one of the chain's other effects. */
  predicate Counts(row: Row, artifacts: bool, run: nat) {
    if artifacts then row.slot.counter.kind.Artifact? && row.run == run else !(row.slot.counter.kind.Artifact?)
  }

  /** The calls performed, in the order they were: a run's artifacts, or the chain's
      other effects. */
  function Performed(log: seq<Row>, artifacts: bool, run: nat): seq<nat> {
    if log == [] then []
    else
      var row := log[|log| - 1];
      Performed(log[..|log| - 1], artifacts, run) + if Counts(row, artifacts, run) then [row.at] else []
  }

  /** The calls of one sort among the body's first `n`: each once, in order. */
  function CallsBelow(body: seq<Call>, artifacts: bool, n: nat): seq<nat>
    requires n <= |body|
  {
    if n == 0 then []
    else CallsBelow(body, artifacts, n - 1) + if body[n - 1].kind.Artifact? == artifacts then [n - 1] else []
  }

  lemma {:induction false} CallsBelowHas(body: seq<Call>, artifacts: bool, n: nat, i: nat)
    requires n <= |body| && i < |body|
    ensures i in CallsBelow(body, artifacts, n) <==> i < n && body[i].kind.Artifact? == artifacts
  {
    if n > 0 {
      CallsBelowHas(body, artifacts, n - 1, i);
    }
  }

  lemma {:induction false} PerformedEarlier(log: seq<Row>, run: nat)
    requires forall k :: 0 <= k < |log| ==> log[k].run < run
    ensures Performed(log, true, run) == []
  {
    if log != [] {
      PerformedEarlier(log[..|log| - 1], run);
    }
  }

  /** A slot is in a run's journal exactly when its call was performed for that run. */
  lemma {:induction false} JournalKnows(log: seq<Row>, body: seq<Call>, slots: seq<Slot>, run: nat, i: nat)
    requires Named(body, slots) && Placed(log, body, slots, run) && i < |body|
    ensures slots[i] in JournalOf(log, run) <==> i in Performed(log, body[i].kind.Artifact?, run)
    ensures slots[i] in JournalOf(log, run) ==> JournalOf(log, run)[slots[i]].hash == body[i].content
    decreases |log|
  {
    if log != [] {
      var front, row := log[..|log| - 1], log[|log| - 1];
      JournalKnows(front, body, slots, run, i);
      if row.at == i && row.run < run {
        PerformedEarlier(log, run);
      }
    }
  }

  /** All calls of each sort below its bound have been performed, once and in order. */
  ghost predicate InOrder(log: seq<Row>, body: seq<Call>, run: nat, others: nat, artifacts: nat) {
    && others <= |body| && artifacts <= |body|
    && Performed(log, false, run) == CallsBelow(body, false, others)
    && Performed(log, true, run) == CallsBelow(body, true, artifacts)
  }

  function Max(a: nat, b: nat): nat { if a < b then b else a }

  // -- One pass ----------------------------------------------------------------------

  ghost predicate CountersAt(effectCounters: map<Counter, nat>, body: seq<Call>, i: nat)
    requires i <= |body|
  {
    forall key :: Get(effectCounters, key) == Uses(body, i, key)
  }

  lemma {:induction false} CountersAdvance(before: map<Counter, nat>, body: seq<Call>, i: nat)
    requires i < |body| && CountersAt(before, body, i)
    ensures CountersAt(Counted(before, CounterOf(body[i])), body, i + 1)
  {
    var counter := CounterOf(body[i]);
    var after := Counted(before, counter);
    forall key ensures Get(after, key) == Uses(body, i + 1, key) {
      assert Get(before, key) == Uses(body, i, key);
      assert Get(after, key) == if counter == key then Get(before, key) + 1 else Get(before, key);
      assert Uses(body, i + 1, key) == Uses(body, i, key) + if counter == key then 1 else 0;
    }
  }

  /** A pass so far: the context, the rows it performed and the references it answered. */
  datatype Progress = Progress(ctx: Context, performed: seq<Row>, answers: seq<Option<string>>)

  /** One effect of the body, with the reference the backend would give it: `effect`,
      then, when it performs, `remember_effect`. */
  function Perform(p: Progress, run: nat, call: Call, given: Option<string>): Progress {
    var slot := Slot(CounterOf(call), Get(p.ctx.effectCounters, CounterOf(call)));
    var ctx := p.ctx.(effectCounters := Counted(p.ctx.effectCounters, CounterOf(call)));
    if Happened(ctx.effects, slot, call.content) then
      Progress(ctx, p.performed, p.answers + [ctx.effects[slot].ref])
    else
      Progress(ctx.(effects := ctx.effects[slot := Known(call.content, given)]),
               p.performed + [Row(run, |p.answers|, slot, call.content, given)], p.answers + [given])
  }

  method PerformCall(ctx: RunContext, run: nat, call: Call, given: Option<string>, ghost before: Progress)
    returns (mark: Option<Mark>, answer: Option<string>)
    requires ctx.journal && before.ctx == ctx.View()
    modifies ctx`effectCounters, ctx`effects
    ensures Perform(before, run, call, given) == Progress(ctx.View(),
              before.performed
                + (if mark.None? then [] else [Row(run, |before.answers|, mark.value.slot, mark.value.hash, given)]),
              before.answers + [answer])
    ensures mark.Some? ==> mark.value.passNo == ctx.passNo
  {
    var perform, m, ref := ctx.Effect(call.kind, call.name, call.content, false);
    if !perform {
      return None, ref;
    }
    ctx.RememberEffect(m, given);
    return m, given;
  }

  /** The body's first `upto` calls from the top, as a pass that stops there makes them. */
  function RunPass(ctx: Context, run: nat, body: seq<Call>, upto: nat, refs: seq<Option<string>>): Progress
    requires upto <= |body| == |refs|
    decreases upto
  {
    if upto == 0 then Progress(ctx, [], [])
    else Perform(RunPass(ctx, run, body, upto - 1, refs), run, body[upto - 1], refs[upto - 1])
  }

  /** Each call so far was answered with the reference its effect is journaled under. */
  ghost predicate Answered(answers: seq<Option<string>>, slots: seq<Slot>, journal: map<Slot, Known>) {
    && |answers| <= |slots|
    && forall j :: 0 <= j < |answers| ==> slots[j] in journal && answers[j] == journal[slots[j]].ref
  }

  lemma {:induction false} RowAdds(all: seq<Row>, body: seq<Call>, slots: seq<Slot>, run: nat, i: nat,
                                   given: Option<string>)
    requires Named(body, slots) && Placed(all, body, slots, run) && i < |body|
    ensures var row := Row(run, i, slots[i], body[i].content, given);
            && Placed(all + [row], body, slots, run)
            && JournalOf(all + [row], run) == JournalOf(all, run)[slots[i] := Known(body[i].content, given)]
            && Performed(all + [row], body[i].kind.Artifact?, run) == Performed(all, body[i].kind.Artifact?, run) + [i]
            && Performed(all + [row], !body[i].kind.Artifact?, run) == Performed(all, !body[i].kind.Artifact?, run)
  {
    var row := Row(run, i, slots[i], body[i].content, given);
    var more := all + [row];
    assert more[..|all|] == all && more[|all|] == row;
  }

  lemma {:induction false} BoundMoves(body: seq<Call>, artifacts: bool, n: nat, i: nat)
    requires i <= n <= |body| && i < |body|
    ensures CallsBelow(body, artifacts, Max(n, i + 1))
         == CallsBelow(body, artifacts, n) + if n == i && body[i].kind.Artifact? == artifacts then [i] else []
  {
  }

  /** A call that gets its row unless performed before moves each bound past it. */
  lemma {:induction false} RowInOrder(all: seq<Row>, body: seq<Call>, slots: seq<Slot>, run: nat, i: nat,
                                      given: Option<string>, others: nat, artifacts: nat)
    requires Named(body, slots) && Placed(all, body, slots, run) && i < |body|
    requires InOrder(all, body, run, others, artifacts) && i <= others && i <= artifacts
    ensures InOrder(if i in Performed(all, body[i].kind.Artifact?, run) then all
                    else all + [Row(run, i, slots[i], body[i].content, given)],
                    body, run, Max(others, i + 1), Max(artifacts, i + 1))
  {
    var sort := body[i].kind.Artifact?;
    CallsBelowHas(body, sort, if sort then artifacts else others, i);
    BoundMoves(body, false, others, i);
    BoundMoves(body, true, artifacts, i);
    RowAdds(all, body, slots, run, i, given);
  }

  // -- A pass of any body, from any journal ----------------------------------------------------

  /** The slot is new, or holds something else. */
  predicate Changed(effects: map<Slot, Known>, slot: Slot, content: string) {
    slot in effects ==> effects[slot].hash != content
  }

  /** The rows of those of the first `upto` calls that are new or have changed. */
  function ChangedRows(effects: map<Slot, Known>, run: nat, body: seq<Call>, upto: nat,
              refs: seq<Option<string>>): seq<Row>
    requires upto <= |body| == |refs|
    decreases upto
  {
    if upto == 0 then []
    else
      var i := upto - 1;
      ChangedRows(effects, run, body, i, refs)
        + if Changed(effects, SlotAt(body, i), body[i].content)
          then [Row(run, i, SlotAt(body, i), body[i].content, refs[i])] else []
  }

  /** What the journal holds for call `i` once a pass has made it. */
  function KnownOf(effects: map<Slot, Known>, body: seq<Call>, i: nat, refs: seq<Option<string>>): Known
    requires i < |body| == |refs|
  {
    var slot := SlotAt(body, i);
    if Changed(effects, slot, body[i].content) then Known(body[i].content, refs[i]) else effects[slot]
  }

  lemma SlotsDiffer(body: seq<Call>, i: nat, j: nat)
    requires i < j < |body|
    ensures SlotAt(body, i) != SlotAt(body, j)
  {
    if SlotAt(body, i) == SlotAt(body, j) {
      UsesGrow(body, i, j);
    }
  }

  /** One call takes its own slot and decides by what that slot holds. */
  lemma {:induction false} CallDecides(p: Progress, q: Progress, run: nat, body: seq<Call>, i: nat,
                                       given: Option<string>)
    requires i < |body| && q == Perform(p, run, body[i], given)
    requires CountersAt(p.ctx.effectCounters, body, i) && |p.answers| == i
    ensures CountersAt(q.ctx.effectCounters, body, i + 1) && |q.answers| == i + 1
    ensures var slot := SlotAt(body, i);
            if Changed(p.ctx.effects, slot, body[i].content) then
              && q.performed == p.performed + [Row(run, i, slot, body[i].content, given)]
              && q.ctx.effects == p.ctx.effects[slot := Known(body[i].content, given)]
                 && q.answers == p.answers + [given]
            else
              && q.performed == p.performed && q.ctx.effects == p.ctx.effects
              && q.answers == p.answers + [p.ctx.effects[slot].ref]
  {
    CountersAdvance(p.ctx.effectCounters, body, i);
    assert Get(p.ctx.effectCounters, CounterOf(body[i])) == Uses(body, i, CounterOf(body[i]));
  }

  /** A pass keeps count of its calls. */
  lemma {:induction false} PassCounts(ctx: Context, run: nat, body: seq<Call>, upto: nat, refs: seq<Option<string>>,
                                      p: Progress)
    requires upto <= |body| == |refs| && p == RunPass(ctx, run, body, upto, refs) && ctx.effectCounters == map[]
    ensures CountersAt(p.ctx.effectCounters, body, upto) && |p.answers| == upto
    decreases upto
  {
    if upto > 0 {
      var before := RunPass(ctx, run, body, upto - 1, refs);
      assert p == Perform(before, run, body[upto - 1], refs[upto - 1]);
      PassCounts(ctx, run, body, upto - 1, refs, before);
      CallDecides(before, p, run, body, upto - 1, refs[upto - 1]);
    }
  }

  /** A pass leaves the slots of no call of it alone. */
  lemma {:induction false} PassLeaves(ctx: Context, run: nat, body: seq<Call>, upto: nat, refs: seq<Option<string>>,
                                      p: Progress, slot: Slot)
    requires upto <= |body| == |refs| && p == RunPass(ctx, run, body, upto, refs) && ctx.effectCounters == map[]
    requires forall j :: 0 <= j < upto ==> SlotAt(body, j) != slot
    ensures slot in p.ctx.effects <==> slot in ctx.effects
    ensures slot in p.ctx.effects ==> p.ctx.effects[slot] == ctx.effects[slot]
    decreases upto
  {
    if upto > 0 {
      var before := RunPass(ctx, run, body, upto - 1, refs);
      assert p == Perform(before, run, body[upto - 1], refs[upto - 1]);
      PassLeaves(ctx, run, body, upto - 1, refs, before, slot);
      PassCounts(ctx, run, body, upto - 1, refs, before);
      CallDecides(before, p, run, body, upto - 1, refs[upto - 1]);
    }
  }

  lemma {:induction false} PassLeavesLater(ctx: Context, run: nat, body: seq<Call>, upto: nat,
                                           refs: seq<Option<string>>, p: Progress, i: nat)
    requires upto <= i < |body| == |refs| && p == RunPass(ctx, run, body, upto, refs) && ctx.effectCounters == map[]
    ensures SlotAt(body, i) in p.ctx.effects <==> SlotAt(body, i) in ctx.effects
    ensures SlotAt(body, i) in p.ctx.effects ==> p.ctx.effects[SlotAt(body, i)] == ctx.effects[SlotAt(body, i)]
  {
    forall j | 0 <= j < upto ensures SlotAt(body, j) != SlotAt(body, i) {
      SlotsDiffer(body, j, i);
    }
    PassLeaves(ctx, run, body, upto, refs, p, SlotAt(body, i));
  }

  /** Whatever the journal holds: a pass performs exactly the calls whose slot is new or
      holds other content, in order. */
  lemma {:induction false} PassPerformsChanged(ctx: Context, run: nat, body: seq<Call>, upto: nat,
                                               refs: seq<Option<string>>, p: Progress)
    requires upto <= |body| == |refs| && p == RunPass(ctx, run, body, upto, refs) && ctx.effectCounters == map[]
    ensures p.performed == ChangedRows(ctx.effects, run, body, upto, refs)
    decreases upto
  {
    if upto > 0 {
      var before := RunPass(ctx, run, body, upto - 1, refs);
      assert p == Perform(before, run, body[upto - 1], refs[upto - 1]);
      PassPerformsChanged(ctx, run, body, upto - 1, refs, before);
      PassLeavesLater(ctx, run, body, upto - 1, refs, before, upto - 1);
      PassCounts(ctx, run, body, upto - 1, refs, before);
      CallDecides(before, p, run, body, upto - 1, refs[upto - 1]);
    }
  }

  /** Call `i` is journaled as `known`, and was answered so. */
  ghost predicate Journaled(p: Progress, slot: Slot, i: nat, known: Known) {
    match p
    case Progress(ctx, _, answers) =>
      slot in ctx.effects && ctx.effects[slot] == known && i < |answers| && answers[i] == known.ref
  }

  lemma {:induction false} StaysJournaled(p: Progress, q: Progress, run: nat, body: seq<Call>, j: nat,
                                          given: Option<string>, i: nat, known: Known)
    requires i < j < |body| && q == Perform(p, run, body[j], given)
    requires CountersAt(p.ctx.effectCounters, body, j) && |p.answers| == j && Journaled(p, SlotAt(body, i), i, known)
    ensures Journaled(q, SlotAt(body, i), i, known)
  {
    CallDecides(p, q, run, body, j, given);
    SlotsDiffer(body, i, j);
  }

  /** Afterwards the journal holds the content of every call made, and the call was answered
      with the reference it stands under: the new one if it was performed, else the old. */
  lemma {:induction false} PassJournals(ctx: Context, run: nat, body: seq<Call>, upto: nat,
                                        refs: seq<Option<string>>, p: Progress, i: nat)
    requires i < upto <= |body| == |refs| && p == RunPass(ctx, run, body, upto, refs) && ctx.effectCounters == map[]
    ensures Journaled(p, SlotAt(body, i), i, KnownOf(ctx.effects, body, i, refs))
    decreases upto
  {
    var last := upto - 1;
    var before := RunPass(ctx, run, body, last, refs);
    assert p == Perform(before, run, body[last], refs[last]);
    PassCounts(ctx, run, body, last, refs, before);
    if i < last {
      PassJournals(ctx, run, body, last, refs, before, i);
      StaysJournaled(before, p, run, body, last, refs[last], i, KnownOf(ctx.effects, body, i, refs));
    } else {
      PassLeavesLater(ctx, run, body, last, refs, before, last);
      GetsJournaled(before, p, run, body, last, refs, ctx.effects);
    }
  }

  lemma {:induction false} GetsJournaled(p: Progress, q: Progress, run: nat, body: seq<Call>, i: nat,
                                         refs: seq<Option<string>>, effects: map<Slot, Known>)
    requires i < |body| == |refs| && q == Perform(p, run, body[i], refs[i])
    requires CountersAt(p.ctx.effectCounters, body, i) && |p.answers| == i
    requires SlotAt(body, i) in p.ctx.effects <==> SlotAt(body, i) in effects
    requires SlotAt(body, i) in effects ==> p.ctx.effects[SlotAt(body, i)] == effects[SlotAt(body, i)]
    ensures Journaled(q, SlotAt(body, i), i, KnownOf(effects, body, i, refs))
  {
    CallDecides(p, q, run, body, i, refs[i]);
  }

  /** The calls of `now`, one for one with those of `was`, whose content is another. */
  function Differing(was: seq<Call>, now: seq<Call>, run: nat, upto: nat, refs: seq<Option<string>>): seq<Row>
    requires upto <= |was| == |now| == |refs|
    decreases upto
  {
    if upto == 0 then []
    else
      var i := upto - 1;
      Differing(was, now, run, i, refs)
        + if was[i].content != now[i].content
          then [Row(run, i, SlotAt(now, i), now[i].content, refs[i])] else []
  }

  lemma {:induction false} ChangedIsDiffering(effects: map<Slot, Known>, was: seq<Call>, now: seq<Call>, run: nat,
                                              upto: nat,
                                              refs: seq<Option<string>>)
    requires upto <= |was| == |now| == |refs|
    requires forall i :: 0 <= i < |now| ==> SlotAt(now, i) in effects && effects[SlotAt(now, i)].hash == was[i].content
    ensures ChangedRows(effects, run, now, upto, refs) == Differing(was, now, run, upto, refs)
    decreases upto
  {
    if upto > 0 {
      ChangedIsDiffering(effects, was, now, run, upto - 1, refs);
    }
  }

  /** A pass after a whole pass of a body that made the same calls, perhaps with other
      content, performs exactly the calls whose content has changed since. */
  lemma {:induction false} ChangedContentRepeats(ctx: Context, run: nat, was: seq<Call>, now: seq<Call>,
                                                 refs: seq<Option<string>>, more: seq<Option<string>>, upto: nat,
                                                 first: Progress, second: Progress)
    requires upto <= |was| == |now| == |refs| == |more| && ctx.effectCounters == map[]
    requires forall i :: 0 <= i < |now| ==> SlotAt(was, i) == SlotAt(now, i)
    requires first == RunPass(ctx, run, was, |was|, refs)
    requires second == RunPass(first.ctx.(effectCounters := map[]), run, now, upto, more)
    ensures second.performed == Differing(was, now, run, upto, more)
  {
    var ctx' := first.ctx.(effectCounters := map[]);
    forall i | 0 <= i < |now|
      ensures SlotAt(now, i) in ctx'.effects && ctx'.effects[SlotAt(now, i)].hash == was[i].content
    {
      PassJournals(ctx, run, was, |was|, refs, first, i);
    }
    PassPerformsChanged(ctx', run, now, upto, more, second);
    ChangedIsDiffering(ctx'.effects, was, now, run, upto, more);
  }

  // -- A pass of the body that was run before ----------------------------------------------------

  /** The journal with these rows entered. */
  function Entered(effects: map<Slot, Known>, rows: seq<Row>): map<Slot, Known>
    decreases |rows|
  {
    if rows == [] then effects
    else
      var row := rows[|rows| - 1];
      Entered(effects, rows[..|rows| - 1])[row.slot := Known(row.hash, row.ref)]
  }

  lemma EnteredOne(effects: map<Slot, Known>, rows: seq<Row>, row: Row)
    ensures Entered(effects, rows + [row]) == Entered(effects, rows)[row.slot := Known(row.hash, row.ref)]
  {
    assert (rows + [row])[..|rows|] == rows;
  }

  lemma {:induction false} PassEnters(ctx: Context, run: nat, body: seq<Call>, upto: nat, refs: seq<Option<string>>,
                                      p: Progress)
    requires upto <= |body| == |refs| && p == RunPass(ctx, run, body, upto, refs) && ctx.effectCounters == map[]
    ensures p.ctx.effects == Entered(ctx.effects, p.performed)
    decreases upto
  {
    if upto > 0 {
      var i := upto - 1;
      var before := RunPass(ctx, run, body, i, refs);
      assert p == Perform(before, run, body[i], refs[i]);
      PassEnters(ctx, run, body, i, refs, before);
      PassCounts(ctx, run, body, i, refs, before);
      CallDecides(before, p, run, body, i, refs[i]);
      EnteredOne(ctx.effects, before.performed, Row(run, i, SlotAt(body, i), body[i].content, refs[i]));
    }
  }

  lemma {:induction false} JournalEnters(log: seq<Row>, rows: seq<Row>, run: nat)
    requires forall k :: 0 <= k < |rows| ==> rows[k].run == run
    ensures JournalOf(log + rows, run) == Entered(JournalOf(log, run), rows)
    decreases |rows|
  {
    if rows == [] {
      assert log + rows == log;
    } else {
      var front := rows[..|rows| - 1];
      assert (log + rows)[..|log + rows| - 1] == log + front;
      JournalEnters(log, front, run);
    }
  }

  /** The rows of a pass record its calls. */
  lemma {:induction false} ChangedRowsAre(effects: map<Slot, Known>, run: nat, body: seq<Call>, upto: nat,
                                          refs: seq<Option<string>>, k: nat)
    requires upto <= |body| == |refs| && k < |ChangedRows(effects, run, body, upto, refs)|
    ensures var row := ChangedRows(effects, run, body, upto, refs)[k];
            row.run == run && row.at < upto && row.slot == SlotAt(body, row.at) && row.hash == body[row.at].content
    decreases upto
  {
    if k < |ChangedRows(effects, run, body, upto - 1, refs)| {
      ChangedRowsAre(effects, run, body, upto - 1, refs, k);
    }
  }

  lemma {:induction false} ChangedPlaced(log: seq<Row>, effects: map<Slot, Known>, body: seq<Call>, slots: seq<Slot>,
                                         run: nat, upto: nat, refs: seq<Option<string>>, rows: seq<Row>)
    requires upto <= |body| == |refs| && slots == Slots(body) && Placed(log, body, slots, run)
    requires rows == ChangedRows(effects, run, body, upto, refs)
    ensures Placed(log + rows, body, slots, run) && forall k :: 0 <= k < |rows| ==> rows[k].run == run
  {
    forall k | 0 <= k < |rows|
      ensures rows[k].run == run && rows[k].at < |body|
      ensures rows[k].slot == slots[rows[k].at] && rows[k].hash == body[rows[k].at].content
    {
      ChangedRowsAre(effects, run, body, upto, refs, k);
      SlotsUptoAt(body, |body|, rows[k].at);
    }
  }

  /** A call is new or changed for the journal exactly when it was not performed. */
  lemma ChangedExactly(log: seq<Row>, body: seq<Call>, slots: seq<Slot>, run: nat, i: nat)
    requires slots == Slots(body) && Placed(log, body, slots, run) && i < |body|
    ensures Changed(JournalOf(log, run), SlotAt(body, i), body[i].content)
       <==> i !in Performed(log, body[i].kind.Artifact?, run)
  {
    SlotsNamed(body);
    SlotsUptoAt(body, |body|, i);
    JournalKnows(log, body, slots, run, i);
  }

  /** Calls below the bounds are performed, so the rows of a pass are those past them. */
  lemma {:induction false} RestInOrder(log: seq<Row>, body: seq<Call>, slots: seq<Slot>, run: nat, upto: nat,
                                       refs: seq<Option<string>>, rows: seq<Row>, others: nat, artifacts: nat)
    requires upto <= |body| == |refs| && slots == Slots(body) && Placed(log, body, slots, run)
    requires rows == ChangedRows(JournalOf(log, run), run, body, upto, refs)
    requires InOrder(log, body, run, others, artifacts)
    ensures InOrder(log + rows, body, run, Max(others, upto), Max(artifacts, upto))
    decreases upto
  {
    if upto == 0 {
      assert log + rows == log;
    } else {
      var i := upto - 1;
      var front := ChangedRows(JournalOf(log, run), run, body, i, refs);
      RestInOrder(log, body, slots, run, i, refs, front, others, artifacts);
      ChangedPlaced(log, JournalOf(log, run), body, slots, run, i, refs, front);
      NextInOrder(log, body, slots, run, i, refs, front, rows, others, artifacts);
    }
  }

  lemma {:induction false} NextInOrder(log: seq<Row>, body: seq<Call>, slots: seq<Slot>, run: nat, i: nat,
                                       refs: seq<Option<string>>, front: seq<Row>, rows: seq<Row>,
                                       others: nat, artifacts: nat)
    requires i < |body| == |refs| && slots == Slots(body) && Placed(log, body, slots, run)
    requires Placed(log + front, body, slots, run) && InOrder(log, body, run, others, artifacts)
    requires InOrder(log + front, body, run, Max(others, i), Max(artifacts, i))
    requires rows == front + if Changed(JournalOf(log, run), SlotAt(body, i), body[i].content)
                             then [Row(run, i, SlotAt(body, i), body[i].content, refs[i])] else []
    ensures InOrder(log + rows, body, run, Max(others, i + 1), Max(artifacts, i + 1))
  {
    var sort := body[i].kind.Artifact?;
    var bound := if sort then artifacts else others;
    ChangedExactly(log, body, slots, run, i);
    CallsBelowHas(body, sort, bound, i);
    CallsBelowHas(body, sort, Max(bound, i), i);
    SlotsNamed(body);
    SlotsUptoAt(body, |body|, i);
    RowInOrder(log + front, body, slots, run, i, refs[i], Max(others, i), Max(artifacts, i));
    ConcatAssociates(log, front, [Row(run, i, SlotAt(body, i), body[i].content, refs[i])]);
    assert front + [] == front;
  }

  /** A pass that stops after `upto` calls performs exactly the calls below `upto` that
      were not performed before, in order, and answers every call with the reference
      its effect is journaled under. */
  lemma {:induction false} PassPerformsTheRest(ctx: Context, run: nat, body: seq<Call>, slots: seq<Slot>, upto: nat,
                                               refs: seq<Option<string>>, p: Progress, log: seq<Row>, all: seq<Row>,
                                               others: nat, artifacts: nat)
    requires upto <= |body| == |refs| && p == RunPass(ctx, run, body, upto, refs) && all == log + p.performed
    requires ctx.effectCounters == map[] && slots == Slots(body)
    requires Placed(log, body, slots, run) && ctx.effects == JournalOf(log, run)
    requires InOrder(log, body, run, others, artifacts)
    ensures InOrder(all, body, run, Max(others, upto), Max(artifacts, upto))
    ensures Placed(all, body, slots, run) && p.ctx.effects == JournalOf(all, run)
    ensures |p.answers| == upto && Answered(p.answers, slots, p.ctx.effects)
  {
    PassPerformsChanged(ctx, run, body, upto, refs, p);
    ChangedPlaced(log, ctx.effects, body, slots, run, upto, refs, p.performed);
    RestInOrder(log, body, slots, run, upto, refs, p.performed, others, artifacts);
    PassEnters(ctx, run, body, upto, refs, p);
    JournalEnters(log, p.performed, run);
    PassAnswers(ctx, run, body, slots, upto, refs, p);
  }

  lemma {:induction false} PassAnswers(ctx: Context, run: nat, body: seq<Call>, slots: seq<Slot>, upto: nat,
                                       refs: seq<Option<string>>, p: Progress)
    requires upto <= |body| == |refs| && p == RunPass(ctx, run, body, upto, refs)
    requires ctx.effectCounters == map[] && slots == Slots(body)
    ensures |p.answers| == upto && Answered(p.answers, slots, p.ctx.effects)
  {
    PassCounts(ctx, run, body, upto, refs, p);
    forall j | 0 <= j < upto ensures slots[j] in p.ctx.effects && p.answers[j] == p.ctx.effects[slots[j]].ref {
      SlotsUptoAt(body, |body|, j);
      PassJournals(ctx, run, body, upto, refs, p, j);
    }
  }
}
