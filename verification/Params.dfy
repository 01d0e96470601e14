/** Parameter coercion from type hints and its inverse (python/cereyan/params.py), for
    hints built from str, int, bool, list, dict, Literal, Enum, dataclasses and Optional.
    Reading words, numbers and JSON texts are oracles. */
module Params {
  import opened Basics

  /** A Python value. Dictionaries keep their order and have text keys; an enum member
      and a dataclass instance carry what they are made of. */
  datatype Value =
    | VNone
    | VBool(b: bool)
    | VInt(n: int)
    | VStr(s: string)
    | VList(items: seq<Value>)
    | VDict(entries: seq<Entry>)
    | VEnum(cls: string, member: Member)
    | VData(cls: string, fields: seq<Entry>)

  datatype Entry = Entry(key: string, value: Value)

  datatype Member = Member(name: string, value: Value)

  datatype Hint =
    | HStr
    | HInt
    | HBool
    | HList(item: Hint)
    | HDict(item: Hint)
    | HOptional(inner: Hint)
    | HLiteral(choices: seq<Value>)
    | HEnum(cls: string, members: seq<Member>)
    | HData(cls: string, fields: seq<Field>)

  datatype Field = Field(name: string, hint: Hint, default: Option<Value>)

  /** How texts read: as none or null, as a truth value, as a number, as JSON; and how a
      number is written. */
  datatype Env = Env(
    readsNone: string -> bool,
    readsTrue: string -> bool,
    readsFalse: string -> bool,
    parseInt: string -> Option<int>,
    intText: int -> string,
    loads: string -> Option<Value>)

  datatype Result = Ok(value: Value) | Fail

  // -- Python's equality ------------------------------------------------------------------

  function Lookup(entries: seq<Entry>, key: string): Option<Value> {
    if entries == [] then None
    else if entries[0].key == key then Some(entries[0].value)
    else Lookup(entries[1..], key)
  }

  /** `==`: booleans are the numbers 0 and 1, dictionaries compare without order. */
  predicate PyEq(a: Value, b: Value) {
    match a
    case VBool(x) => (b.VBool? && x == b.b) || (b.VInt? && b.n == if x then 1 else 0)
    case VInt(n) => (b.VInt? && n == b.n) || (b.VBool? && n == if b.b then 1 else 0)
    case VList(items) =>
      b.VList? && |items| == |b.items| && forall i :: 0 <= i < |items| ==> PyEq(items[i], b.items[i])
    case VDict(entries) =>
      b.VDict? && |entries| == |b.entries| && forall i :: 0 <= i < |entries| ==>
        var found := Lookup(b.entries, entries[i].key);
        found.Some? && PyEq(entries[i].value, found.value)
    case _ => a == b
  }

  // -- Rendering as JSON --------------------------------------------------------------------

  function ToJson(v: Value): Value {
    match v
    case VList(items) => VList(ToJsonAll(items))
    case VDict(entries) => VDict(ToJsonEntries(entries))
    case VEnum(_, member) => ToJson(member.value)
    case VData(_, fields) => VDict(ToJsonEntries(fields))
    case _ => v
  }

  function ToJsonAll(items: seq<Value>): (out: seq<Value>)
    ensures |out| == |items|
  {
    if items == [] then [] else [ToJson(items[0])] + ToJsonAll(items[1..])
  }

  function ToJsonEntries(entries: seq<Entry>): (out: seq<Entry>)
    ensures |out| == |entries|
  {
    if entries == [] then []
    else [Entry(entries[0].key, ToJson(entries[0].value))] + ToJsonEntries(entries[1..])
  }

  // -- Coercion -------------------------------------------------------------------------------

  /** Coercion to str, int or bool. */
  function CoerceScalar(env: Env, x: Value, h: Hint): Result
    requires h.HStr? || h.HInt? || h.HBool?
  {
    match h
    case HBool =>
      if x.VBool? then Ok(x)
      else if x.VInt? && (x.n == 0 || x.n == 1) then Ok(VBool(x.n == 1))
      else if x.VStr? && env.readsTrue(x.s) then Ok(VBool(true))
      else if x.VStr? && env.readsFalse(x.s) then Ok(VBool(false))
      else Fail
    case HInt =>
      if x.VInt? then Ok(x)
      else if x.VStr? && env.parseInt(x.s).Some? then Ok(VInt(env.parseInt(x.s).value))
      else Fail
    case HStr =>
      if x.VStr? then Ok(x)
      else if x.VInt? then Ok(VStr(env.intText(x.n)))
      else if x.VBool? then Ok(VStr(if x.b then "True" else "False"))
      else Fail
  }

  /** `coerce(x, type(like))`: what `like` is not of a supported type for passes through. */
  function CoerceLike(env: Env, x: Value, like: Value): Result {
    match like
    case VStr(_) => CoerceScalar(env, x, HStr)
    case VInt(_) => CoerceScalar(env, x, HInt)
    case VBool(_) => CoerceScalar(env, x, HBool)
    case _ => Ok(x)
  }

  function FirstEqual(x: Value, choices: seq<Value>): bool {
    choices != [] && (PyEq(x, choices[0]) || FirstEqual(x, choices[1..]))
  }

  /** The first choice the value can be read as. */
  function FirstLike(env: Env, x: Value, choices: seq<Value>): Result {
    if choices == [] then Fail
    else
      var r := CoerceLike(env, x, choices[0]);
      if r.Ok? && PyEq(r.value, choices[0]) then Ok(choices[0]) else FirstLike(env, x, choices[1..])
  }

  function ByValue(x: Value, members: seq<Member>): Option<Member> {
    if members == [] then None
    else if PyEq(members[0].value, x) then Some(members[0])
    else ByValue(x, members[1..])
  }

  function ByName(name: string, members: seq<Member>): Option<Member> {
    if members == [] then None
    else if members[0].name == name then Some(members[0])
    else ByName(name, members[1..])
  }

  function ByReading(env: Env, x: Value, members: seq<Member>): Option<Member> {
    if members == [] then None
    else
      var r := CoerceLike(env, x, members[0].value);
      if r.Ok? && PyEq(r.value, members[0].value) then Some(members[0]) else ByReading(env, x, members[1..])
  }

  function CoerceEnum(env: Env, x: Value, cls: string, members: seq<Member>): Result {
    if x.VEnum? && x.cls == cls then Ok(x)
    else if ByValue(x, members).Some? then Ok(VEnum(cls, ByValue(x, members).value))
    else if x.VStr? && ByName(x.s, members).Some? then Ok(VEnum(cls, ByName(x.s, members).value))
    else if x.VStr? && ByReading(env, x, members).Some? then Ok(VEnum(cls, ByReading(env, x, members).value))
    else Fail
  }

  /** A text where a container is expected is read as JSON. */
  function Opened(env: Env, x: Value): Result {
    if !x.VStr? then Ok(x)
    else if env.loads(x.s).Some? then Ok(env.loads(x.s).value)
    else Fail
  }

  function Coerce(env: Env, x: Value, h: Hint): Result
    decreases h, 1, 0
  {
    match h
    case HStr => CoerceScalar(env, x, h)
    case HInt => CoerceScalar(env, x, h)
    case HBool => CoerceScalar(env, x, h)
    case HOptional(inner) =>
      if x.VNone? || (x.VStr? && env.readsNone(x.s)) then Ok(VNone) else Coerce(env, x, inner)
    case HList(item) =>
      var o := Opened(env, x);
      if o.Ok? && o.value.VList? then
        var r := CoerceItems(env, o.value.items, item);
        if r.Some? then Ok(VList(r.value)) else Fail
      else Fail
    case HDict(item) =>
      var o := Opened(env, x);
      if o.Ok? && o.value.VDict? then
        var r := CoerceEntries(env, o.value.entries, item);
        if r.Some? then Ok(VDict(r.value)) else Fail
      else Fail
    case HLiteral(choices) => if FirstEqual(x, choices) then Ok(x) else FirstLike(env, x, choices)
    case HEnum(cls, members) => CoerceEnum(env, x, cls, members)
    case HData(cls, fields) =>
      if x.VData? && x.cls == cls then Ok(x)
      else
        var o := Opened(env, x);
        if o.Ok? && o.value.VDict? then
          var r := CoerceFields(env, o.value.entries, h, 0);
          if r.Some? then Ok(VData(cls, r.value)) else Fail
        else Fail
  }

  function CoerceItems(env: Env, items: seq<Value>, h: Hint): Option<seq<Value>>
    decreases h, 2, |items|
  {
    if items == [] then Some([])
    else
      var first, rest := Coerce(env, items[0], h), CoerceItems(env, items[1..], h);
      if first.Ok? && rest.Some? then Some([first.value] + rest.value) else None
  }

  function CoerceEntries(env: Env, entries: seq<Entry>, h: Hint): Option<seq<Entry>>
    decreases h, 2, |entries|
  {
    if entries == [] then Some([])
    else
      var first, rest := Coerce(env, entries[0].value, h), CoerceEntries(env, entries[1..], h);
      if first.Ok? && rest.Some? then Some([Entry(entries[0].key, first.value)] + rest.value) else None
  }

  /** The fields from `i` on: given ones coerced, others by their default. */
  function CoerceFields(env: Env, entries: seq<Entry>, h: Hint, i: nat): Option<seq<Entry>>
    requires h.HData? && i <= |h.fields|
    decreases h, 0, |h.fields| - i
  {
    if i == |h.fields| then Some([])
    else
      var first, rest := FieldValue(env, entries, h.fields[i]), CoerceFields(env, entries, h, i + 1);
      if first.Ok? && rest.Some? then Some([Entry(h.fields[i].name, first.value)] + rest.value) else None
  }

  /** A field's value: the given one coerced, or its default. */
  function FieldValue(env: Env, entries: seq<Entry>, f: Field): Result
    decreases f, 0, 0
  {
    var given := Lookup(entries, f.name);
    if given.Some? then Coerce(env, given.value, f.hint)
    else if f.default.Some? then Ok(f.default.value)
    else Fail
  }

  // -- Types ------------------------------------------------------------------------------------

  predicate Scalar(v: Value) { v.VNone? || v.VBool? || v.VInt? || v.VStr? }

  ghost predicate DistinctKeys(entries: seq<Entry>) {
    forall i, j :: 0 <= i < j < |entries| ==> entries[i].key != entries[j].key
  }

  /** What JSON can hold. */
  ghost predicate IsJson(v: Value) {
    match v
    case VList(items) => forall i :: 0 <= i < |items| ==> IsJson(items[i])
    case VDict(entries) => DistinctKeys(entries) && forall i :: 0 <= i < |entries| ==> IsJson(entries[i].value)
    case _ => Scalar(v)
  }

  /** The values of a hint. A literal's are those equal to a choice, so 1 and true are
      values of each other's literals. */
  ghost predicate HasType(v: Value, h: Hint)
    decreases h
  {
    match h
    case HStr => v.VStr?
    case HInt => v.VInt?
    case HBool => v.VBool?
    case HList(item) => v.VList? && forall i :: 0 <= i < |v.items| ==> HasType(v.items[i], item)
    case HDict(item) =>
      v.VDict? && DistinctKeys(v.entries) && forall i :: 0 <= i < |v.entries| ==> HasType(v.entries[i].value, item)
    case HOptional(inner) => v.VNone? || HasType(v, inner)
    case HLiteral(choices) => Scalar(v) && FirstEqual(v, choices)
    case HEnum(cls, members) => v.VEnum? && v.cls == cls && v.member in members
    case HData(cls, fields) =>
      && v.VData? && v.cls == cls && |v.fields| == |fields|
      && forall i :: 0 <= i < |fields| ==>
           v.fields[i].key == fields[i].name && HasType(v.fields[i].value, fields[i].hint)
  }

  /** Hints as Python lets them be built: an Optional of an Optional is one, members with
      equal values are one, fields have their own names and fitting defaults. */
  ghost predicate WellFormed(h: Hint)
    decreases h
  {
    match h
    case HList(item) => WellFormed(item)
    case HDict(item) => WellFormed(item)
    case HOptional(inner) => !inner.HOptional? && WellFormed(inner)
    case HLiteral(choices) => forall i :: 0 <= i < |choices| ==> Scalar(choices[i])
    case HEnum(_, members) =>
      && (forall i :: 0 <= i < |members| ==> IsJson(members[i].value))
      && forall i, j :: 0 <= i < j < |members| ==> !PyEq(members[i].value, members[j].value)
    case HData(_, fields) =>
      && (forall i, j :: 0 <= i < j < |fields| ==> fields[i].name != fields[j].name)
      && forall i :: 0 <= i < |fields| ==>
           WellFormed(fields[i].hint) && (fields[i].default.Some? ==> HasType(fields[i].default.value, fields[i].hint))
    case _ => true
  }

  // -- JSON values are their own rendering ---------------------------------------------------------

  lemma {:induction false} JsonIsItself(v: Value)
    requires IsJson(v)
    ensures ToJson(v) == v
    decreases v, 1, 0
  {
    match v
    case VList(items) => JsonItems(v, items);
    case VDict(entries) => JsonEntries(v, entries);
    case _ =>
  }

  lemma {:induction false} JsonItems(v: Value, items: seq<Value>)
    requires forall i :: 0 <= i < |items| ==> IsJson(items[i]) && items[i] < v
    ensures ToJsonAll(items) == items
    decreases v, 0, |items|
  {
    if items != [] {
      JsonIsItself(items[0]);
      JsonItems(v, items[1..]);
    }
  }

  lemma {:induction false} JsonEntries(v: Value, entries: seq<Entry>)
    requires forall i :: 0 <= i < |entries| ==> IsJson(entries[i].value) && entries[i].value < v
    ensures ToJsonEntries(entries) == entries
    decreases v, 0, |entries|
  {
    if entries != [] {
      JsonIsItself(entries[0].value);
      JsonEntries(v, entries[1..]);
    }
  }

  lemma {:induction false} LookupAt(entries: seq<Entry>, i: nat)
    requires DistinctKeys(entries) && i < |entries|
    ensures Lookup(entries, entries[i].key) == Some(entries[i].value)
  {
    if i > 0 {
      assert entries[0].key != entries[i].key;
      LookupAt(entries[1..], i - 1);
    }
  }

  lemma {:induction false} EqualToItself(v: Value)
    requires IsJson(v)
    ensures PyEq(v, v)
  {
    match v
    case VList(items) =>
      forall i | 0 <= i < |items| ensures PyEq(items[i], items[i]) {
        EqualToItself(items[i]);
      }
    case VDict(entries) =>
      forall i | 0 <= i < |entries|
        ensures Lookup(entries, entries[i].key).Some? && PyEq(entries[i].value, Lookup(entries, entries[i].key).value)
      {
        LookupAt(entries, i);
        EqualToItself(entries[i].value);
      }
    case _ =>
  }

  // -- The round trip -----------------------------------------------------------------------------

  /** No Optional in the hint meets a present value whose JSON form reads as none. */
  ghost predicate Readable(env: Env, v: Value, h: Hint)
    requires HasType(v, h)
    decreases h
  {
    match h
    case HList(item) => forall i :: 0 <= i < |v.items| ==> Readable(env, v.items[i], item)
    case HDict(item) => forall i :: 0 <= i < |v.entries| ==> Readable(env, v.entries[i].value, item)
    case HOptional(inner) =>
      v.VNone? || (!ReadsAsNone(env, ToJson(v)) && Readable(env, v, inner))
    case HData(_, fields) => forall i :: 0 <= i < |fields| ==> Readable(env, v.fields[i].value, fields[i].hint)
    case _ => true
  }

  predicate ReadsAsNone(env: Env, x: Value) {
    x.VNone? || (x.VStr? && env.readsNone(x.s))
  }

  lemma {:induction false} FoundByValue(members: seq<Member>, k: nat)
    requires k < |members| && IsJson(members[k].value)
    requires forall i :: 0 <= i < k ==> !PyEq(members[i].value, members[k].value)
    ensures ByValue(members[k].value, members) == Some(members[k])
  {
    EqualToItself(members[k].value);
    if k > 0 {
      assert members[1..][k - 1] == members[k];
      forall i | 0 <= i < k - 1 ensures !PyEq(members[1..][i].value, members[k].value) {
        assert members[1..][i] == members[i + 1];
      }
      FoundByValue(members[1..], k - 1);
    }
  }

  lemma EnumRoundTrip(env: Env, v: Value, h: Hint)
    requires h.HEnum? && WellFormed(h) && HasType(v, h)
    ensures Coerce(env, ToJson(v), h) == Ok(v)
  {
    var k :| 0 <= k < |h.members| && h.members[k] == v.member;
    JsonIsItself(v.member.value);
    FoundByValue(h.members, k);
  }

  /** Rendering a value of a hint as JSON and coercing it back gives the value, for every
      hint and value, exactly when no Optional meets a present value that reads as none. */
  lemma {:induction false} RoundTripExactly(env: Env, v: Value, h: Hint)
    requires WellFormed(h) && HasType(v, h)
    ensures Coerce(env, ToJson(v), h) == Ok(v) <==> Readable(env, v, h)
    decreases h, 1, 0
  {
    match h
    case HList(item) =>
      ItemsRoundTrip(env, v.items, item);
      CoerceIsItems(env, v, h);
    case HDict(item) =>
      EntriesRoundTrip(env, v.entries, item);
      CoerceIsEntries(env, v, h);
    case HOptional(inner) =>
      if !v.VNone? {
        RoundTripExactly(env, v, inner);
      }
    case HEnum(_, _) => EnumRoundTrip(env, v, h);
    case HData(_, _) =>
      FieldsRoundTrip(env, v, h, 0);
      CoerceIsFields(env, v, h);
    case _ =>
  }

  lemma CoerceIsItems(env: Env, v: Value, h: Hint)
    requires h.HList? && v.VList?
    ensures Coerce(env, ToJson(v), h) == Ok(v) <==> CoerceItems(env, ToJsonAll(v.items), h.item) == Some(v.items)
  {
  }

  lemma CoerceIsEntries(env: Env, v: Value, h: Hint)
    requires h.HDict? && v.VDict?
    ensures Coerce(env, ToJson(v), h) == Ok(v)
       <==> CoerceEntries(env, ToJsonEntries(v.entries), h.item) == Some(v.entries)
  {
  }

  lemma CoerceIsFields(env: Env, v: Value, h: Hint)
    requires h.HData? && HasType(v, h)
    ensures Coerce(env, ToJson(v), h) == Ok(v)
       <==> CoerceFields(env, ToJsonEntries(v.fields), h, 0) == Some(v.fields[0..])
    ensures Readable(env, v, h) <==> ReadableFrom(env, v, h, 0)
  {
    assert v.fields[0..] == v.fields;
  }

  lemma {:induction false} ItemsRoundTrip(env: Env, items: seq<Value>, h: Hint)
    requires WellFormed(h) && forall i :: 0 <= i < |items| ==> HasType(items[i], h)
    ensures CoerceItems(env, ToJsonAll(items), h) == Some(items)
       <==> forall i :: 0 <= i < |items| ==> Readable(env, items[i], h)
    decreases h, 2, |items|
  {
    if items != [] {
      assert items == [items[0]] + items[1..];
      assert forall i :: 0 < i < |items| ==> items[i] == items[1..][i - 1];
      RoundTripExactly(env, items[0], h);
      ItemsRoundTrip(env, items[1..], h);
      OneItem(env, items[0], items[1..], h);
    }
  }

  lemma OneItem(env: Env, item: Value, rest: seq<Value>, h: Hint)
    ensures CoerceItems(env, ToJsonAll([item] + rest), h) == Some([item] + rest)
       <==> Coerce(env, ToJson(item), h) == Ok(item) && CoerceItems(env, ToJsonAll(rest), h) == Some(rest)
  {
    assert ([item] + rest)[1..] == rest;
    var json := ToJsonAll([item] + rest);
    assert json == [ToJson(item)] + ToJsonAll(rest) && json[1..] == ToJsonAll(rest);
    var first, more := Coerce(env, ToJson(item), h), CoerceItems(env, ToJsonAll(rest), h);
    if first.Ok? && more.Some? {
      SameHead(first.value, more.value, item, rest);
    }
  }

  lemma {:induction false} EntriesRoundTrip(env: Env, entries: seq<Entry>, h: Hint)
    requires WellFormed(h) && forall i :: 0 <= i < |entries| ==> HasType(entries[i].value, h)
    ensures CoerceEntries(env, ToJsonEntries(entries), h) == Some(entries)
       <==> forall i :: 0 <= i < |entries| ==> Readable(env, entries[i].value, h)
    decreases h, 2, |entries|
  {
    if entries != [] {
      assert entries == [entries[0]] + entries[1..];
      assert forall i :: 0 < i < |entries| ==> entries[i] == entries[1..][i - 1];
      RoundTripExactly(env, entries[0].value, h);
      EntriesRoundTrip(env, entries[1..], h);
      OneEntry(env, entries[0], entries[1..], h);
    }
  }

  lemma OneEntry(env: Env, e: Entry, rest: seq<Entry>, h: Hint)
    ensures CoerceEntries(env, ToJsonEntries([e] + rest), h) == Some([e] + rest)
       <==> Coerce(env, ToJson(e.value), h) == Ok(e.value) && CoerceEntries(env, ToJsonEntries(rest), h) == Some(rest)
  {
    assert ([e] + rest)[1..] == rest;
    var json := ToJsonEntries([e] + rest);
    assert json == [Entry(e.key, ToJson(e.value))] + ToJsonEntries(rest) && json[1..] == ToJsonEntries(rest);
    var first, more := Coerce(env, ToJson(e.value), h), CoerceEntries(env, ToJsonEntries(rest), h);
    if first.Ok? && more.Some? {
      SameHead(Entry(e.key, first.value), more.value, e, rest);
    }
  }

  lemma {:induction false} LookupJson(entries: seq<Entry>, i: nat)
    requires DistinctKeys(entries) && i < |entries|
    ensures Lookup(ToJsonEntries(entries), entries[i].key) == Some(ToJson(entries[i].value))
  {
    if i > 0 {
      assert entries[0].key != entries[i].key;
      LookupJson(entries[1..], i - 1);
    }
    assert ToJsonEntries(entries)[1..] == ToJsonEntries(entries[1..]);
  }

  /** The fields from the `i`-th on can be read back. */
  ghost predicate ReadableFrom(env: Env, v: Value, h: Hint, i: nat)
    requires h.HData? && HasType(v, h)
  {
    forall k :: i <= k < |h.fields| ==> Readable(env, v.fields[k].value, h.fields[k].hint)
  }

  lemma ReadableSplits(env: Env, v: Value, h: Hint, i: nat)
    requires h.HData? && HasType(v, h) && i < |h.fields|
    ensures ReadableFrom(env, v, h, i)
       <==> Readable(env, v.fields[i].value, h.fields[i].hint) && ReadableFrom(env, v, h, i + 1)
  {
  }

  lemma {:induction false} FieldsRoundTrip(env: Env, v: Value, h: Hint, i: nat)
    requires h.HData? && WellFormed(h) && HasType(v, h) && i <= |h.fields|
    ensures CoerceFields(env, ToJsonEntries(v.fields), h, i) == Some(v.fields[i..]) <==> ReadableFrom(env, v, h, i)
    decreases h, 0, |h.fields| - i
  {
    if i == |h.fields| {
      assert v.fields[i..] == [];
    } else {
      var f, entries := v.fields[i], ToJsonEntries(v.fields);
      assert v.fields[i..] == [f] + v.fields[i + 1..];
      assert Lookup(entries, f.key) == Some(ToJson(f.value)) by {
        assert DistinctKeys(v.fields);
        LookupJson(v.fields, i);
      }
      ReadableSplits(env, v, h, i);
      RoundTripExactly(env, f.value, h.fields[i].hint);
      FieldsRoundTrip(env, v, h, i + 1);
      GivenField(env, entries, h, i, f, v.fields[i + 1..]);
    }
  }

  lemma GivenField(env: Env, entries: seq<Entry>, h: Hint, i: nat, f: Entry, rest: seq<Entry>)
    requires h.HData? && i < |h.fields| && f.key == h.fields[i].name && Lookup(entries, f.key) == Some(ToJson(f.value))
    ensures CoerceFields(env, entries, h, i) == Some([f] + rest)
       <==> Coerce(env, ToJson(f.value), h.fields[i].hint) == Ok(f.value)
            && CoerceFields(env, entries, h, i + 1) == Some(rest)
  {
    var first, more := Coerce(env, ToJson(f.value), h.fields[i].hint), CoerceFields(env, entries, h, i + 1);
    if first.Ok? && more.Some? {
      SameHead(Entry(f.key, first.value), more.value, f, rest);
    }
  }

  lemma SameHead<T>(a: T, r: seq<T>, b: T, s: seq<T>)
    ensures [a] + r == [b] + s <==> a == b && r == s
  {
    if [a] + r == [b] + s {
      assert ([a] + r)[0] == a && ([b] + s)[0] == b;
      assert ([a] + r)[1..] == r && ([b] + s)[1..] == s;
    }
  }

  // -- Results are values of the hint, and stay as they are ------------------------------------------

  /** JSON texts hold JSON, and no number or truth value is written like none. */
  ghost predicate Sound(env: Env) {
    && (forall text :: env.loads(text).Some? ==> IsJson(env.loads(text).value))
    && (forall n :: !env.readsNone(env.intText(n)))
    && !env.readsNone("True") && !env.readsNone("False")
  }

  /** A value of the hint with no text under an Optional that reads as none. */
  ghost predicate Settled(env: Env, v: Value, h: Hint)
    decreases h
  {
    match h
    case HList(item) => v.VList? && forall i :: 0 <= i < |v.items| ==> Settled(env, v.items[i], item)
    case HDict(item) =>
      v.VDict? && DistinctKeys(v.entries) && forall i :: 0 <= i < |v.entries| ==> Settled(env, v.entries[i].value, item)
    case HOptional(inner) => v.VNone? || (!ReadsAsNone(env, v) && Settled(env, v, inner))
    case _ => HasType(v, h)
  }

  lemma {:induction false} SettledHasType(env: Env, v: Value, h: Hint)
    requires Settled(env, v, h)
    ensures HasType(v, h)
    decreases h
  {
    match h
    case HList(item) =>
      forall i | 0 <= i < |v.items| ensures HasType(v.items[i], item) {
        SettledHasType(env, v.items[i], item);
      }
    case HDict(item) =>
      forall i | 0 <= i < |v.entries| ensures HasType(v.entries[i].value, item) {
        SettledHasType(env, v.entries[i].value, item);
      }
    case HOptional(inner) =>
      if !v.VNone? {
        SettledHasType(env, v, inner);
      }
    case _ =>
  }

  lemma {:induction false} EqualIsScalar(x: Value, choices: seq<Value>)
    requires FirstEqual(x, choices) && forall i :: 0 <= i < |choices| ==> Scalar(choices[i])
    ensures Scalar(x)
  {
    if !PyEq(x, choices[0]) {
      EqualIsScalar(x, choices[1..]);
    }
  }

  lemma {:induction false} LikeIsChoice(env: Env, x: Value, choices: seq<Value>)
    requires FirstLike(env, x, choices).Ok? && forall i :: 0 <= i < |choices| ==> Scalar(choices[i])
    ensures var c := FirstLike(env, x, choices).value;
            Scalar(c) && FirstEqual(c, choices) && CoerceLike(env, x, c).Ok? && PyEq(CoerceLike(env, x, c).value, c)
  {
    var r := CoerceLike(env, x, choices[0]);
    if !(r.Ok? && PyEq(r.value, choices[0])) {
      LikeIsChoice(env, x, choices[1..]);
    }
  }

  lemma LiteralSettles(env: Env, x: Value, h: Hint)
    requires Sound(env) && h.HLiteral? && WellFormed(h) && Coerce(env, x, h).Ok?
    ensures HasType(Coerce(env, x, h).value, h)
    ensures !ReadsAsNone(env, x) ==>
              Coerce(env, x, h).value.VNone? || !ReadsAsNone(env, Coerce(env, x, h).value)
  {
    if FirstEqual(x, h.choices) {
      EqualIsScalar(x, h.choices);
    } else {
      LikeIsChoice(env, x, h.choices);
    }
  }

  lemma {:induction false} ByValueIn(x: Value, members: seq<Member>)
    ensures ByValue(x, members).Some? ==> ByValue(x, members).value in members
  {
    if members != [] {
      ByValueIn(x, members[1..]);
    }
  }

  lemma {:induction false} ByNameIn(name: string, members: seq<Member>)
    ensures ByName(name, members).Some? ==> ByName(name, members).value in members
  {
    if members != [] {
      ByNameIn(name, members[1..]);
    }
  }

  lemma {:induction false} ByReadingIn(env: Env, x: Value, members: seq<Member>)
    ensures ByReading(env, x, members).Some? ==> ByReading(env, x, members).value in members
  {
    if members != [] {
      ByReadingIn(env, x, members[1..]);
    }
  }

  lemma EnumSettles(env: Env, x: Value, h: Hint)
    requires h.HEnum? && !x.VEnum? && Coerce(env, x, h).Ok?
    ensures HasType(Coerce(env, x, h).value, h)
  {
    ByValueIn(x, h.members);
    if x.VStr? {
      ByNameIn(x.s, h.members);
    }
    ByReadingIn(env, x, h.members);
  }

  lemma OpenedIsJson(env: Env, x: Value)
    requires Sound(env) && IsJson(x) && Opened(env, x).Ok?
    ensures IsJson(Opened(env, x).value)
  {
  }

  lemma ScalarSettles(env: Env, x: Value, h: Hint)
    requires Sound(env) && (h.HStr? || h.HInt? || h.HBool?) && CoerceScalar(env, x, h).Ok?
    ensures HasType(CoerceScalar(env, x, h).value, h)
    ensures !ReadsAsNone(env, x) ==> !ReadsAsNone(env, CoerceScalar(env, x, h).value)
  {
  }

  /** Under an Optional, what did not read as none is not coerced to a text that does. */
  lemma NoneDoesNotAppear(env: Env, x: Value, h: Hint)
    requires Sound(env) && WellFormed(h) && !h.HOptional? && !ReadsAsNone(env, x) && Coerce(env, x, h).Ok?
    ensures Coerce(env, x, h).value.VNone? || !ReadsAsNone(env, Coerce(env, x, h).value)
  {
    match h
    case HStr => ScalarSettles(env, x, h);
    case HInt => ScalarSettles(env, x, h);
    case HBool => ScalarSettles(env, x, h);
    case HLiteral(_) => LiteralSettles(env, x, h);
    case _ =>
  }

  /** Whatever JSON value comes in, a coerced value is one of the hint's. */
  lemma {:induction false} CoerceSettles(env: Env, x: Value, h: Hint)
    requires Sound(env) && WellFormed(h) && IsJson(x) && Coerce(env, x, h).Ok?
    ensures Settled(env, Coerce(env, x, h).value, h)
    decreases h, 1, 0
  {
    match h
    case HStr => ScalarSettles(env, x, h);
    case HInt => ScalarSettles(env, x, h);
    case HBool => ScalarSettles(env, x, h);
    case HList(item) =>
      OpenedIsJson(env, x);
      ItemsSettle(env, Opened(env, x).value.items, item);
    case HDict(item) =>
      OpenedIsJson(env, x);
      EntriesSettle(env, Opened(env, x).value.entries, item);
    case HOptional(inner) =>
      if !ReadsAsNone(env, x) {
        CoerceSettles(env, x, inner);
        NoneDoesNotAppear(env, x, inner);
      }
    case HLiteral(_) => LiteralSettles(env, x, h);
    case HEnum(_, _) => EnumSettles(env, x, h);
    case HData(_, _) =>
      OpenedIsJson(env, x);
      FieldsSettle(env, Opened(env, x).value.entries, h, 0);
  }

  lemma {:induction false} ItemsSettle(env: Env, items: seq<Value>, h: Hint)
    requires Sound(env) && WellFormed(h) && (forall i :: 0 <= i < |items| ==> IsJson(items[i]))
    requires CoerceItems(env, items, h).Some?
    ensures var out := CoerceItems(env, items, h).value;
            forall i :: 0 <= i < |out| ==> Settled(env, out[i], h)
    decreases h, 2, |items|
  {
    if items != [] {
      CoerceSettles(env, items[0], h);
      ItemsSettle(env, items[1..], h);
    }
  }

  lemma {:induction false} EntriesSettle(env: Env, entries: seq<Entry>, h: Hint)
    requires Sound(env) && WellFormed(h) && DistinctKeys(entries)
    requires forall i :: 0 <= i < |entries| ==> IsJson(entries[i].value)
    requires CoerceEntries(env, entries, h).Some?
    ensures var out := CoerceEntries(env, entries, h).value;
            && |out| == |entries| && (forall i :: 0 <= i < |out| ==> out[i].key == entries[i].key)
            && forall i :: 0 <= i < |out| ==> Settled(env, out[i].value, h)
    decreases h, 2, |entries|
  {
    if entries != [] {
      CoerceSettles(env, entries[0].value, h);
      EntriesSettle(env, entries[1..], h);
    }
  }

  lemma {:induction false} LookupJsonValue(entries: seq<Entry>, key: string)
    requires forall i :: 0 <= i < |entries| ==> IsJson(entries[i].value)
    ensures Lookup(entries, key).Some? ==> IsJson(Lookup(entries, key).value)
  {
    if entries != [] {
      LookupJsonValue(entries[1..], key);
    }
  }

  ghost predicate FieldsFit(out: seq<Entry>, h: Hint, i: nat)
    requires h.HData? && i <= |h.fields|
  {
    && |out| == |h.fields| - i
    && forall k :: 0 <= k < |out| ==> out[k].key == h.fields[i + k].name && HasType(out[k].value, h.fields[i + k].hint)
  }

  lemma {:induction false} FieldsSettle(env: Env, entries: seq<Entry>, h: Hint, i: nat)
    requires Sound(env) && h.HData? && WellFormed(h) && i <= |h.fields|
    requires forall k :: 0 <= k < |entries| ==> IsJson(entries[k].value)
    requires CoerceFields(env, entries, h, i).Some?
    ensures FieldsFit(CoerceFields(env, entries, h, i).value, h, i)
    decreases h, 0, |h.fields| - i
  {
    if i < |h.fields| {
      var f := h.fields[i];
      FieldsSettle(env, entries, h, i + 1);
      LookupJsonValue(entries, f.name);
      var given, rest := Lookup(entries, f.name), CoerceFields(env, entries, h, i + 1).value;
      if given.Some? {
        var r := Coerce(env, given.value, f.hint);
        CoerceSettles(env, given.value, f.hint);
        SettledHasType(env, r.value, f.hint);
        OneFieldFits(Entry(f.name, r.value), rest, h, i);
      } else {
        OneFieldFits(Entry(f.name, f.default.value), rest, h, i);
      }
    }
  }

  lemma OneFieldFits(e: Entry, rest: seq<Entry>, h: Hint, i: nat)
    requires h.HData? && i < |h.fields| && FieldsFit(rest, h, i + 1)
    requires e.key == h.fields[i].name && HasType(e.value, h.fields[i].hint)
    ensures FieldsFit([e] + rest, h, i)
  {
    var out := [e] + rest;
    forall k | 0 <= k < |out|
      ensures out[k].key == h.fields[i + k].name && HasType(out[k].value, h.fields[i + k].hint)
    {
      if k > 0 {
        assert out[k] == rest[k - 1] && h.fields[i + 1 + (k - 1)] == h.fields[i + k];
      }
    }
  }

  lemma {:induction false} SettledStays(env: Env, v: Value, h: Hint)
    requires WellFormed(h) && Settled(env, v, h)
    ensures Coerce(env, v, h) == Ok(v)
    decreases h, 1, 0
  {
    match h
    case HList(item) => ItemsStay(env, v.items, item);
    case HDict(item) => EntriesStay(env, v.entries, item);
    case HOptional(inner) =>
      if !v.VNone? {
        SettledStays(env, v, inner);
      }
    case _ =>
  }

  lemma {:induction false} ItemsStay(env: Env, items: seq<Value>, h: Hint)
    requires WellFormed(h) && forall i :: 0 <= i < |items| ==> Settled(env, items[i], h)
    ensures CoerceItems(env, items, h) == Some(items)
    decreases h, 2, |items|
  {
    if items != [] {
      assert items == [items[0]] + items[1..];
      SettledStays(env, items[0], h);
      ItemsStay(env, items[1..], h);
    }
  }

  lemma {:induction false} EntriesStay(env: Env, entries: seq<Entry>, h: Hint)
    requires WellFormed(h) && forall i :: 0 <= i < |entries| ==> Settled(env, entries[i].value, h)
    ensures CoerceEntries(env, entries, h) == Some(entries)
    decreases h, 2, |entries|
  {
    if entries != [] {
      assert entries == [entries[0]] + entries[1..];
      SettledStays(env, entries[0].value, h);
      EntriesStay(env, entries[1..], h);
    }
  }

  /** Coercing any JSON value gives a value of the hint, and coercing that again changes
      nothing. */
  lemma CoerceIsTypedAndIdempotent(env: Env, x: Value, h: Hint)
    requires Sound(env) && WellFormed(h) && IsJson(x) && Coerce(env, x, h).Ok?
    ensures HasType(Coerce(env, x, h).value, h)
    ensures Coerce(env, Coerce(env, x, h).value, h) == Coerce(env, x, h)
  {
    CoerceSettles(env, x, h);
    SettledHasType(env, Coerce(env, x, h).value, h);
    SettledStays(env, Coerce(env, x, h).value, h);
  }

  /** Two ways a value is lost: a text under an Optional that reads as none, and, under an
      Optional, an enum member whose value is None. */
  lemma OptionalLosesNone(env: Env, text: string, cls: string, name: string)
    requires env.readsNone(text)
    ensures var h := HOptional(HStr);
            WellFormed(h) && HasType(VStr(text), h) && Coerce(env, ToJson(VStr(text)), h) == Ok(VNone)
    ensures var member := Member(name, VNone);
            var h := HOptional(HEnum(cls, [member]));
            WellFormed(h) && HasType(VEnum(cls, member), h) && Coerce(env, ToJson(VEnum(cls, member)), h) == Ok(VNone)
  {
  }

  // -- All parameters of a flow ---------------------------------------------------------------------

  /** A declared parameter; one without a default is required. */
  datatype Spec = Spec(name: string, hint: Hint, default: Option<Value>)

  datatype All = AllOk(values: map<string, Value>) | AllFail

  ghost predicate Declared(specs: seq<Spec>, name: string) {
    exists i :: 0 <= i < |specs| && specs[i].name == name
  }

  /** What the parameter ends up as. */
  function Given(env: Env, spec: Spec, values: map<string, Value>): Result {
    if spec.name in values then Coerce(env, values[spec.name], spec.hint)
    else if spec.default.Some? then Ok(spec.default.value)
    else Fail
  }

  ghost predicate AllDeclared(specs: seq<Spec>, values: map<string, Value>) {
    forall name :: name in values ==> Declared(specs, name)
  }

  ghost predicate AllGiven(env: Env, specs: seq<Spec>, values: map<string, Value>) {
    forall i :: 0 <= i < |specs| ==> Given(env, specs[i], values).Ok?
  }

  ghost predicate DistinctNames(specs: seq<Spec>) {
    forall i, j :: 0 <= i < j < |specs| ==> specs[i].name != specs[j].name
  }

  /** The first `n` parameters' values, by name. */
  function Filled(env: Env, specs: seq<Spec>, values: map<string, Value>, n: nat): All
    requires n <= |specs|
  {
    if n == 0 then AllOk(map[])
    else
      var before, r := Filled(env, specs, values, n - 1), Given(env, specs[n - 1], values);
      if before.AllOk? && r.Ok? then AllOk(before.values[specs[n - 1].name := r.value]) else AllFail
  }

  lemma {:induction false} FailedStays(env: Env, specs: seq<Spec>, values: map<string, Value>, i: nat, n: nat)
    requires i <= n <= |specs| && Filled(env, specs, values, i).AllFail?
    ensures Filled(env, specs, values, n).AllFail?
    decreases n
  {
    if i < n {
      FailedStays(env, specs, values, i, n - 1);
    }
  }

  method CoerceAll(env: Env, specs: seq<Spec>, values: map<string, Value>) returns (out: All)
    ensures out == if AllDeclared(specs, values) then Filled(env, specs, values, |specs|) else AllFail
  {
    var names := set i | 0 <= i < |specs| :: specs[i].name;
    if exists name :: name in values && name !in names {
      return AllFail;
    }
    var filled: map<string, Value> := map[];
    var i := 0;
    while i < |specs|
      invariant 0 <= i <= |specs|
      invariant Filled(env, specs, values, i) == AllOk(filled)
    {
      var r := Given(env, specs[i], values);
      if r.Fail? {
        FailedStays(env, specs, values, i + 1, |specs|);
        return AllFail;
      }
      filled := filled[specs[i].name := r.value];
      i := i + 1;
    }
    out := AllOk(filled);
  }

  /** The parameters are filled exactly when each has a value, given or by default; then
      each declared name, and no other, has its own. */
  lemma {:induction false} FilledExactly(env: Env, specs: seq<Spec>, values: map<string, Value>, n: nat)
    requires DistinctNames(specs) && n <= |specs|
    ensures Filled(env, specs, values, n).AllOk? <==> AllGiven(env, specs[..n], values)
    ensures Filled(env, specs, values, n).AllOk? ==>
              HoldsGiven(env, specs[..n], values, Filled(env, specs, values, n).values)
  {
    if n > 0 {
      var front, last := specs[..n - 1], specs[n - 1];
      assert specs[..n] == front + [last];
      FilledExactly(env, specs, values, n - 1);
      AllGivenNext(env, front, last, values);
      var before, r := Filled(env, specs, values, n - 1), Given(env, last, values);
      if before.AllOk? && r.Ok? {
        GivenNext(env, front, last, values, before.values, r.value);
      }
    }
  }

  lemma AllGivenNext(env: Env, front: seq<Spec>, last: Spec, values: map<string, Value>)
    ensures AllGiven(env, front + [last], values) <==> AllGiven(env, front, values) && Given(env, last, values).Ok?
  {
    var more := front + [last];
    assert more[|front|] == last && forall i :: 0 <= i < |front| ==> more[i] == front[i];
  }

  ghost predicate HoldsGiven(env: Env, specs: seq<Spec>, values: map<string, Value>, filled: map<string, Value>) {
    && (forall name :: name in filled <==> Declared(specs, name))
    && forall i :: 0 <= i < |specs| ==>
         specs[i].name in filled && Given(env, specs[i], values) == Ok(filled[specs[i].name])
  }

  lemma GivenNext(env: Env, front: seq<Spec>, last: Spec, values: map<string, Value>, filled: map<string, Value>,
                  v: Value)
    requires AllGiven(env, front, values) && HoldsGiven(env, front, values, filled) && Given(env, last, values) == Ok(v)
    requires forall i :: 0 <= i < |front| ==> front[i].name != last.name
    ensures AllGiven(env, front + [last], values) && HoldsGiven(env, front + [last], values, filled[last.name := v])
  {
    var more := front + [last];
    forall name ensures Declared(more, name) <==> name == last.name || Declared(front, name) {
      if Declared(front, name) {
        var k :| 0 <= k < |front| && front[k].name == name;
        assert more[k].name == name;
      } else if name == last.name {
        assert more[|front|].name == name;
      }
    }
  }
}
