/** What a raw value is read as, case by case, without the order in which the code tries
    things (python/cereyan/params.py); coercion answers exactly that. */
module ParamsReading {
  import opened Basics
  import opened Params

  // -- Scalars -----------------------------------------------------------------------------------

  /** A truth value is read from itself, from 0 or 1, or from a word. */
  predicate ReadsBool(env: Env, x: Value, b: bool) {
    match x
    case VBool(y) => y == b
    case VInt(n) => n == if b then 1 else 0
    case VStr(s) => if b then env.readsTrue(s) else env.readsFalse(s) && !env.readsTrue(s)
    case _ => false
  }

  /** A number is read from itself or from a text of it, never from a truth value. */
  predicate ReadsInt(env: Env, x: Value, n: int) {
    match x
    case VInt(m) => m == n
    case VStr(s) => env.parseInt(s) == Some(n)
    case _ => false
  }

  /** A text is read from itself, and from numbers and truth values as Python writes them. */
  predicate ReadsText(env: Env, x: Value, text: string) {
    match x
    case VStr(s) => s == text
    case VInt(n) => env.intText(n) == text
    case VBool(b) => text == if b then "True" else "False"
    case _ => false
  }

  predicate ReadsScalar(env: Env, x: Value, h: Hint, v: Value)
    requires h.HStr? || h.HInt? || h.HBool?
  {
    match h
    case HBool => v.VBool? && ReadsBool(env, x, v.b)
    case HInt => v.VInt? && ReadsInt(env, x, v.n)
    case HStr => v.VStr? && ReadsText(env, x, v.s)
  }

  lemma ScalarExactly(env: Env, x: Value, h: Hint, v: Value)
    requires h.HStr? || h.HInt? || h.HBool?
    ensures CoerceScalar(env, x, h) == Ok(v) <==> ReadsScalar(env, x, h, v)
  {
  }

  /** The value can be read as this choice, by the choice's own type. */
  predicate ReadsAs(env: Env, x: Value, choice: Value) {
    match choice
    case VStr(_) => ReadsScalar(env, x, HStr, choice)
    case VInt(_) => ReadsScalar(env, x, HInt, choice)
    case VBool(_) => ReadsScalar(env, x, HBool, choice)
    case _ => PyEq(x, choice)
  }

  lemma LikeExactly(env: Env, x: Value, choice: Value)
    ensures ReadsAs(env, x, choice)
       <==> CoerceLike(env, x, choice).Ok? && PyEq(CoerceLike(env, x, choice).value, choice)
  {
  }

  // -- Choices and members ------------------------------------------------------------------------

  ghost predicate FirstChoice(env: Env, x: Value, choices: seq<Value>, i: nat) {
    && i < |choices| && ReadsAs(env, x, choices[i])
    && forall j :: 0 <= j < i ==> !ReadsAs(env, x, choices[j])
  }

  lemma {:induction false} EqualExactly(x: Value, choices: seq<Value>)
    ensures FirstEqual(x, choices) <==> exists i :: 0 <= i < |choices| && PyEq(x, choices[i])
  {
    if choices != [] {
      EqualExactly(x, choices[1..]);
      if i :| 0 <= i < |choices[1..]| && PyEq(x, choices[1..][i]) {
        assert choices[i + 1] == choices[1..][i];
      }
      assert forall i :: 0 < i < |choices| ==> choices[i] == choices[1..][i - 1];
    }
  }

  lemma {:induction false} LiteralExactly(env: Env, x: Value, choices: seq<Value>) returns (i: nat)
    ensures FirstLike(env, x, choices).Ok? ==>
              FirstChoice(env, x, choices, i) && FirstLike(env, x, choices) == Ok(choices[i])
    ensures FirstLike(env, x, choices).Fail? ==> forall j :: 0 <= j < |choices| ==> !ReadsAs(env, x, choices[j])
  {
    i := 0;
    if choices != [] {
      LikeExactly(env, x, choices[0]);
      if !ReadsAs(env, x, choices[0]) {
        var k := LiteralExactly(env, x, choices[1..]);
        assert forall j :: 0 < j < |choices| ==> choices[j] == choices[1..][j - 1];
        i := k + 1;
      }
    }
  }

  /** A value equal to a choice stays as it is; another is the first choice it can be read as. */
  ghost predicate ReadsChoice(env: Env, x: Value, choices: seq<Value>, v: Value) {
    if exists i :: 0 <= i < |choices| && PyEq(x, choices[i]) then v == x
    else exists i: nat :: FirstChoice(env, x, choices, i) && v == choices[i]
  }

  lemma ChoiceOnly(env: Env, x: Value, choices: seq<Value>, v: Value, i: nat)
    requires FirstChoice(env, x, choices, i)
    ensures v == choices[i] <==> exists k: nat :: FirstChoice(env, x, choices, k) && v == choices[k]
  {
    forall k: nat | FirstChoice(env, x, choices, k) ensures k == i {
    }
  }

  lemma ChoiceExactly(env: Env, x: Value, choices: seq<Value>, v: Value)
    ensures (if FirstEqual(x, choices) then Ok(x) else FirstLike(env, x, choices)) == Ok(v)
       <==> ReadsChoice(env, x, choices, v)
  {
    EqualExactly(x, choices);
    if !FirstEqual(x, choices) {
      var i := LiteralExactly(env, x, choices);
      if FirstLike(env, x, choices).Ok? {
        ChoiceOnly(env, x, choices, v, i);
      }
    }
  }

  ghost predicate FirstByValue(x: Value, members: seq<Member>, i: nat) {
    && i < |members| && PyEq(members[i].value, x)
    && forall j :: 0 <= j < i ==> !PyEq(members[j].value, x)
  }

  ghost predicate FirstByName(name: string, members: seq<Member>, i: nat) {
    && i < |members| && members[i].name == name
    && forall j :: 0 <= j < i ==> members[j].name != name
  }

  ghost predicate FirstByReading(env: Env, x: Value, members: seq<Member>, i: nat) {
    && i < |members| && ReadsAs(env, x, members[i].value)
    && forall j :: 0 <= j < i ==> !ReadsAs(env, x, members[j].value)
  }

  lemma {:induction false} ByValueExactly(x: Value, members: seq<Member>) returns (i: nat)
    ensures ByValue(x, members).Some? ==> FirstByValue(x, members, i) && ByValue(x, members) == Some(members[i])
    ensures ByValue(x, members).None? ==> forall j :: 0 <= j < |members| ==> !PyEq(members[j].value, x)
  {
    i := 0;
    if members != [] && !PyEq(members[0].value, x) {
      var k := ByValueExactly(x, members[1..]);
      assert forall j :: 0 < j < |members| ==> members[j] == members[1..][j - 1];
      i := k + 1;
    }
  }

  lemma {:induction false} ByNameExactly(name: string, members: seq<Member>) returns (i: nat)
    ensures ByName(name, members).Some? ==> FirstByName(name, members, i) && ByName(name, members) == Some(members[i])
    ensures ByName(name, members).None? ==> forall j :: 0 <= j < |members| ==> members[j].name != name
  {
    i := 0;
    if members != [] && members[0].name != name {
      var k := ByNameExactly(name, members[1..]);
      assert forall j :: 0 < j < |members| ==> members[j] == members[1..][j - 1];
      i := k + 1;
    }
  }

  lemma {:induction false} ByReadingExactly(env: Env, x: Value, members: seq<Member>) returns (i: nat)
    ensures ByReading(env, x, members).Some? ==>
              FirstByReading(env, x, members, i) && ByReading(env, x, members) == Some(members[i])
    ensures ByReading(env, x, members).None? ==> forall j :: 0 <= j < |members| ==> !ReadsAs(env, x, members[j].value)
  {
    i := 0;
    if members != [] {
      LikeExactly(env, x, members[0].value);
      if !ReadsAs(env, x, members[0].value) {
        var k := ByReadingExactly(env, x, members[1..]);
        assert forall j :: 0 < j < |members| ==> members[j] == members[1..][j - 1];
        i := k + 1;
      }
    }
  }

  /** Which member a value stands for: the first with that value; if there is none, a text
      stands for the member it names, else for the first whose value it can be read as. */
  ghost predicate StandsFor(env: Env, x: Value, members: seq<Member>, i: nat) {
    || FirstByValue(x, members, i)
    || (&& x.VStr? && (forall j :: 0 <= j < |members| ==> !PyEq(members[j].value, x))
        && (|| FirstByName(x.s, members, i)
            || (&& (forall j :: 0 <= j < |members| ==> members[j].name != x.s)
                && FirstByReading(env, x, members, i))))
  }

  ghost predicate ReadsMember(env: Env, x: Value, cls: string, members: seq<Member>, v: Value) {
    if x.VEnum? && x.cls == cls then v == x
    else exists i: nat :: StandsFor(env, x, members, i) && v == VEnum(cls, members[i])
  }

  lemma StandsForOne(env: Env, x: Value, members: seq<Member>, i: nat, j: nat)
    requires StandsFor(env, x, members, i) && StandsFor(env, x, members, j)
    ensures i == j
  {
  }

  lemma EnumExactly(env: Env, x: Value, cls: string, members: seq<Member>, v: Value)
    ensures CoerceEnum(env, x, cls, members) == Ok(v) <==> ReadsMember(env, x, cls, members, v)
  {
    var a := ByValueExactly(x, members);
    if x.VEnum? && x.cls == cls {
    } else if ByValue(x, members).Some? {
      StandsForOnly(env, x, cls, members, v, a);
    } else if x.VStr? {
      var b := ByNameExactly(x.s, members);
      if ByName(x.s, members).Some? {
        StandsForOnly(env, x, cls, members, v, b);
      } else {
        var c := ByReadingExactly(env, x, members);
        if ByReading(env, x, members).Some? {
          StandsForOnly(env, x, cls, members, v, c);
        }
      }
    }
  }

  lemma StandsForOnly(env: Env, x: Value, cls: string, members: seq<Member>, v: Value, i: nat)
    requires StandsFor(env, x, members, i)
    ensures v == VEnum(cls, members[i])
       <==> exists k: nat :: StandsFor(env, x, members, k) && v == VEnum(cls, members[k])
  {
    forall k: nat | StandsFor(env, x, members, k) ensures k == i {
      StandsForOne(env, x, members, i, k);
    }
  }

  // -- Every hint ------------------------------------------------------------------------------------

  /** A container is given as such, or as its JSON text. */
  predicate OpensAs(env: Env, x: Value, y: Value) {
    if x.VStr? then env.loads(x.s) == Some(y) else x == y
  }

  /** The value given for a field is the first under its name. */
  ghost predicate GivenAt(entries: seq<Entry>, name: string, k: nat) {
    k < |entries| && entries[k].key == name && forall j :: 0 <= j < k ==> entries[j].key != name
  }

  ghost predicate NotGiven(entries: seq<Entry>, name: string) {
    forall k :: 0 <= k < |entries| ==> entries[k].key != name
  }

  /** What `x` is read as under a hint. */
  ghost predicate Reads(env: Env, x: Value, h: Hint, v: Value)
    decreases h, 1, 0
  {
    match h
    case HStr => ReadsScalar(env, x, h, v)
    case HInt => ReadsScalar(env, x, h, v)
    case HBool => ReadsScalar(env, x, h, v)
    case HOptional(inner) =>
      if x.VNone? || (x.VStr? && env.readsNone(x.s)) then v == VNone else Reads(env, x, inner, v)
    case HList(item) =>
      v.VList? && exists items :: OpensAs(env, x, VList(items)) && ItemsRead(env, items, item, v.items)
    case HDict(item) =>
      v.VDict? && exists entries :: OpensAs(env, x, VDict(entries)) && EntriesRead(env, entries, item, v.entries)
    case HLiteral(choices) => ReadsChoice(env, x, choices, v)
    case HEnum(cls, members) => ReadsMember(env, x, cls, members, v)
    case HData(cls, fields) =>
      if x.VData? && x.cls == cls then v == x
      else v.VData? && v.cls == cls
           && exists entries :: OpensAs(env, x, VDict(entries)) && FieldsRead(env, entries, h, v.fields, 0)
  }

  ghost predicate ItemsRead(env: Env, items: seq<Value>, h: Hint, out: seq<Value>)
    decreases h, 2, 0
  {
    |items| == |out| && forall i :: 0 <= i < |items| ==> Reads(env, items[i], h, out[i])
  }

  ghost predicate EntriesRead(env: Env, entries: seq<Entry>, h: Hint, out: seq<Entry>)
    decreases h, 2, 0
  {
    && |entries| == |out|
    && forall i :: 0 <= i < |entries| ==> entries[i].key == out[i].key && Reads(env, entries[i].value, h, out[i].value)
  }

  /** The fields from `from` on, in order: a given one is read, another has its default. */
  ghost predicate FieldsRead(env: Env, entries: seq<Entry>, h: Hint, out: seq<Entry>, from: nat)
    requires h.HData? && from <= |h.fields|
    decreases h, 0, 0
  {
    && |out| == |h.fields| - from
    && forall i :: 0 <= i < |out| ==> NamedRead(env, entries, h.fields[from + i], out[i])
  }

  /** One field: given and read, or by default. */
  ghost predicate FieldRead(env: Env, entries: seq<Entry>, f: Field, v: Value)
    decreases f, 0, 0
  {
    && (forall k: nat :: GivenAt(entries, f.name, k) ==> Reads(env, entries[k].value, f.hint, v))
    && (NotGiven(entries, f.name) ==> f.default == Some(v))
  }

  ghost predicate NamedRead(env: Env, entries: seq<Entry>, f: Field, e: Entry)
    decreases f, 1, 0
  {
    e.key == f.name && FieldRead(env, entries, f, e.value)
  }

  lemma {:induction false} LookupExactly(entries: seq<Entry>, name: string) returns (k: nat)
    ensures Lookup(entries, name).Some? ==> GivenAt(entries, name, k) && Lookup(entries, name) == Some(entries[k].value)
    ensures Lookup(entries, name).None? ==> NotGiven(entries, name)
  {
    k := 0;
    if entries != [] && entries[0].key != name {
      var i := LookupExactly(entries[1..], name);
      assert forall j :: 0 < j < |entries| ==> entries[j] == entries[1..][j - 1];
      k := i + 1;
    }
  }

  lemma OpenedExactly(env: Env, x: Value, y: Value)
    ensures Opened(env, x) == Ok(y) <==> OpensAs(env, x, y)
  {
  }

  lemma {:induction false} ItemsExactly(env: Env, items: seq<Value>, h: Hint, out: seq<Value>)
    ensures CoerceItems(env, items, h) == Some(out) <==> ItemsRead(env, items, h, out)
    decreases h, 2, |items|
  {
    if items != [] && out != [] {
      CoerceExactly(env, items[0], h, out[0]);
      ItemsExactly(env, items[1..], h, out[1..]);
      ItemsSplit(env, items, h, out);
      HeadTail(env, items, h, out);
    }
  }

  lemma ItemsSplit(env: Env, items: seq<Value>, h: Hint, out: seq<Value>)
    requires items != [] && out != []
    ensures ItemsRead(env, items, h, out)
       <==> Reads(env, items[0], h, out[0]) && ItemsRead(env, items[1..], h, out[1..])
  {
    var more, rest := items[1..], out[1..];
    assert forall i :: 0 <= i < |more| ==> more[i] == items[i + 1];
    assert forall i :: 0 < i < |items| ==> items[i] == more[i - 1];
    assert forall i :: 0 <= i < |rest| ==> rest[i] == out[i + 1];
  }

  lemma HeadTail(env: Env, items: seq<Value>, h: Hint, out: seq<Value>)
    requires items != [] && out != []
    ensures CoerceItems(env, items, h) == Some(out)
       <==> Coerce(env, items[0], h) == Ok(out[0]) && CoerceItems(env, items[1..], h) == Some(out[1..])
  {
    var first, rest := Coerce(env, items[0], h), CoerceItems(env, items[1..], h);
    assert out == [out[0]] + out[1..];
    if first.Ok? && rest.Some? {
      SameHead(first.value, rest.value, out[0], out[1..]);
    }
  }

  lemma {:induction false} EntriesExactly(env: Env, entries: seq<Entry>, h: Hint, out: seq<Entry>)
    ensures CoerceEntries(env, entries, h) == Some(out) <==> EntriesRead(env, entries, h, out)
    decreases h, 2, |entries|
  {
    if entries != [] && out != [] {
      CoerceExactly(env, entries[0].value, h, out[0].value);
      EntriesExactly(env, entries[1..], h, out[1..]);
      EntriesSplit(env, entries, h, out);
      HeadEntry(env, entries, h, out);
    }
  }

  lemma EntriesSplit(env: Env, entries: seq<Entry>, h: Hint, out: seq<Entry>)
    requires entries != [] && out != []
    ensures EntriesRead(env, entries, h, out)
       <==> entries[0].key == out[0].key && Reads(env, entries[0].value, h, out[0].value)
            && EntriesRead(env, entries[1..], h, out[1..])
  {
    var more, rest := entries[1..], out[1..];
    assert forall i :: 0 <= i < |more| ==> more[i] == entries[i + 1];
    assert forall i :: 0 < i < |entries| ==> entries[i] == more[i - 1];
    assert forall i :: 0 <= i < |rest| ==> rest[i] == out[i + 1];
  }

  lemma HeadEntry(env: Env, entries: seq<Entry>, h: Hint, out: seq<Entry>)
    requires entries != [] && out != []
    ensures CoerceEntries(env, entries, h) == Some(out)
       <==> entries[0].key == out[0].key && Coerce(env, entries[0].value, h) == Ok(out[0].value)
            && CoerceEntries(env, entries[1..], h) == Some(out[1..])
  {
    var first, rest := Coerce(env, entries[0].value, h), CoerceEntries(env, entries[1..], h);
    assert out == [out[0]] + out[1..];
    if first.Ok? && rest.Some? {
      SameHead(Entry(entries[0].key, first.value), rest.value, out[0], out[1..]);
    }
  }

  lemma FieldExactly(env: Env, entries: seq<Entry>, h: Hint, i: nat, v: Value)
    requires h.HData? && i < |h.fields|
    ensures FieldValue(env, entries, h.fields[i]) == Ok(v) <==> FieldRead(env, entries, h.fields[i], v)
    decreases h, 0, 0
  {
    var f := h.fields[i];
    var k := LookupExactly(entries, f.name);
    if Lookup(entries, f.name).Some? {
      CoerceExactly(env, entries[k].value, f.hint, v);
      assert forall j: nat :: GivenAt(entries, f.name, j) ==> j == k;
    }
  }

  lemma {:induction false} FieldsExactly(env: Env, entries: seq<Entry>, h: Hint, from: nat, out: seq<Entry>)
    requires h.HData? && from <= |h.fields|
    ensures CoerceFields(env, entries, h, from) == Some(out) <==> FieldsRead(env, entries, h, out, from)
    decreases h, 0, |h.fields| - from + 1
  {
    if from < |h.fields| && out != [] {
      FieldExactly(env, entries, h, from, out[0].value);
      FieldsExactly(env, entries, h, from + 1, out[1..]);
      FieldsSplit(env, entries, h, from, out);
      HeadField(env, entries, h, from, out);
    }
  }

  lemma FieldsSplit(env: Env, entries: seq<Entry>, h: Hint, from: nat, out: seq<Entry>)
    requires h.HData? && from < |h.fields| && out != []
    ensures FieldsRead(env, entries, h, out, from)
       <==> NamedRead(env, entries, h.fields[from], out[0]) && FieldsRead(env, entries, h, out[1..], from + 1)
  {
    var rest := out[1..];
    if FieldsRead(env, entries, h, out, from) {
      forall i | 0 <= i < |rest| ensures NamedRead(env, entries, h.fields[from + 1 + i], rest[i]) {
        assert rest[i] == out[i + 1];
      }
    } else if |out| == |h.fields| - from {
      var i :| 0 <= i < |out| && !NamedRead(env, entries, h.fields[from + i], out[i]);
      if i > 0 {
        assert rest[i - 1] == out[i];
      }
    }
  }

  lemma HeadField(env: Env, entries: seq<Entry>, h: Hint, from: nat, out: seq<Entry>)
    requires h.HData? && from < |h.fields| && out != []
    ensures CoerceFields(env, entries, h, from) == Some(out)
       <==> out[0].key == h.fields[from].name && FieldValue(env, entries, h.fields[from]) == Ok(out[0].value)
            && CoerceFields(env, entries, h, from + 1) == Some(out[1..])
  {
    var first, rest := FieldValue(env, entries, h.fields[from]), CoerceFields(env, entries, h, from + 1);
    assert out == [out[0]] + out[1..];
    if first.Ok? && rest.Some? {
      SameHead(Entry(h.fields[from].name, first.value), rest.value, out[0], out[1..]);
    }
  }

  /** Coercion answers with what the value is read as, and fails exactly when it is read as
      nothing. */
  lemma {:induction false} CoerceExactly(env: Env, x: Value, h: Hint, v: Value)
    ensures Coerce(env, x, h) == Ok(v) <==> Reads(env, x, h, v)
    decreases h, 1, 0
  {
    if h.HStr? || h.HInt? || h.HBool? || h.HLiteral? || h.HEnum? {
      PlainExactly(env, x, h, v);
    } else if h.HOptional? {
      OptionalExactly(env, x, h, v);
    } else if h.HList? {
      ListExactly(env, x, h, v);
    } else if h.HDict? {
      DictExactly(env, x, h, v);
    } else {
      DataExactly(env, x, h, v);
    }
  }

  lemma PlainExactly(env: Env, x: Value, h: Hint, v: Value)
    requires h.HStr? || h.HInt? || h.HBool? || h.HLiteral? || h.HEnum?
    ensures Coerce(env, x, h) == Ok(v) <==> Reads(env, x, h, v)
  {
    if h.HLiteral? {
      ChoiceExactly(env, x, h.choices, v);
    } else if h.HEnum? {
      EnumExactly(env, x, h.cls, h.members, v);
    } else {
      ScalarExactly(env, x, h, v);
    }
  }

  lemma {:induction false} OptionalExactly(env: Env, x: Value, h: Hint, v: Value)
    requires h.HOptional?
    ensures Coerce(env, x, h) == Ok(v) <==> Reads(env, x, h, v)
    decreases h, 0, 0
  {
    CoerceExactly(env, x, h.inner, v);
  }

  lemma {:induction false} ListExactly(env: Env, x: Value, h: Hint, v: Value)
    requires h.HList?
    ensures Coerce(env, x, h) == Ok(v) <==> Reads(env, x, h, v)
    decreases h, 0, 0
  {
    var o := Opened(env, x);
    if o.Ok? {
      OpenedExactly(env, x, o.value);
      if o.value.VList? && v.VList? {
        ItemsExactly(env, o.value.items, h.item, v.items);
      }
    }
  }

  lemma {:induction false} DictExactly(env: Env, x: Value, h: Hint, v: Value)
    requires h.HDict?
    ensures Coerce(env, x, h) == Ok(v) <==> Reads(env, x, h, v)
    decreases h, 0, 0
  {
    var o := Opened(env, x);
    if o.Ok? {
      OpenedExactly(env, x, o.value);
      if o.value.VDict? && v.VDict? {
        EntriesExactly(env, o.value.entries, h.item, v.entries);
      }
    }
  }

  lemma {:induction false} DataExactly(env: Env, x: Value, h: Hint, v: Value)
    requires h.HData?
    ensures Coerce(env, x, h) == Ok(v) <==> Reads(env, x, h, v)
    decreases h, 0, |h.fields| + 2
  {
    var o := Opened(env, x);
    if o.Ok? && !(x.VData? && x.cls == h.cls) {
      OpenedExactly(env, x, o.value);
      if o.value.VDict? && v.VData? {
        FieldsExactly(env, o.value.entries, h, 0, v.fields);
      }
    }
  }

  // -- All parameters of a flow ------------------------------------------------------------------------

  /** A declared parameter: given and read, or by default. */
  ghost predicate ParamRead(env: Env, spec: Spec, values: map<string, Value>, v: Value) {
    if spec.name in values then Reads(env, values[spec.name], spec.hint, v) else spec.default == Some(v)
  }

  /** The parameters as the flow gets them: exactly the declared names, each read or by its
      default. */
  ghost predicate AllRead(env: Env, specs: seq<Spec>, values: map<string, Value>, filled: map<string, Value>) {
    && (forall name :: name in filled <==> Declared(specs, name))
    && forall i :: 0 <= i < |specs| ==>
         specs[i].name in filled && ParamRead(env, specs[i], values, filled[specs[i].name])
  }

  lemma GivenExactly(env: Env, spec: Spec, values: map<string, Value>, v: Value)
    ensures Given(env, spec, values) == Ok(v) <==> ParamRead(env, spec, values, v)
  {
    if spec.name in values {
      CoerceExactly(env, values[spec.name], spec.hint, v);
    }
  }

  lemma HoldsIsRead(env: Env, specs: seq<Spec>, values: map<string, Value>, filled: map<string, Value>)
    ensures HoldsGiven(env, specs, values, filled) <==> AllRead(env, specs, values, filled)
  {
    forall i | 0 <= i < |specs| && specs[i].name in filled
      ensures Given(env, specs[i], values) == Ok(filled[specs[i].name])
         <==> ParamRead(env, specs[i], values, filled[specs[i].name])
    {
      GivenExactly(env, specs[i], values, filled[specs[i].name]);
    }
  }

  /** A flow gets its parameters exactly when every name given is declared and every declared
      one is read or has a default; and then it gets those. */
  lemma ParametersExactly(env: Env, specs: seq<Spec>, values: map<string, Value>, out: All, filled: map<string, Value>)
    requires DistinctNames(specs)
    requires out == if AllDeclared(specs, values) then Filled(env, specs, values, |specs|) else AllFail
    ensures out == AllOk(filled) <==> AllDeclared(specs, values) && AllRead(env, specs, values, filled)
  {
    FilledExactly(env, specs, values, |specs|);
    assert specs[..|specs|] == specs;
    HoldsIsRead(env, specs, values, filled);
    if AllDeclared(specs, values) && HoldsGiven(env, specs, values, filled) {
      assert AllGiven(env, specs, values);
      SameFilled(env, specs, values, filled, out.values);
    }
  }

  lemma SameFilled(env: Env, specs: seq<Spec>, values: map<string, Value>, a: map<string, Value>, b: map<string, Value>)
    requires HoldsGiven(env, specs, values, a) && HoldsGiven(env, specs, values, b)
    ensures a == b
  {
    forall name | name in a ensures name in b && a[name] == b[name] {
      var i :| 0 <= i < |specs| && specs[i].name == name;
    }
    assert a.Keys == b.Keys;
  }
}
