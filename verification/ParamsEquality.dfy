/** Python's equality of parameter values (`==` in python/cereyan/params.py), which decides
    whether a value is one of the choices of a Literal or an Enum. */
module ParamsEquality {
  import opened Basics
  import opened Params

  /** A JSON value without what equality does not see: truth values are numbers and
      dictionaries have no order. */
  datatype Plain =
    | PNone
    | PNum(n: int)
    | PText(s: string)
    | PList(items: seq<Plain>)
    | PDict(entries: set<(string, Plain)>)

  ghost function PlainOf(v: Value): Plain
    requires IsJson(v)
  {
    match v
    case VNone => PNone
    case VBool(b) => PNum(if b then 1 else 0)
    case VInt(n) => PNum(n)
    case VStr(s) => PText(s)
    case VList(items) => PList(seq(|items|, i requires 0 <= i < |items| => PlainOf(items[i])))
    case VDict(entries) =>
      PDict(Elements(seq(|entries|, i requires 0 <= i < |entries| => (entries[i].key, PlainOf(entries[i].value)))))
  }

  ghost function Elements<T>(s: seq<T>): set<T> { set x | x in s }

  lemma {:induction false} ElementsCount<T>(s: seq<T>)
    requires forall i, j :: 0 <= i < j < |s| ==> s[i] != s[j]
    ensures |Elements(s)| == |s|
  {
    if s == [] {
      assert Elements(s) == {};
    } else {
      var front, last := s[..|s| - 1], s[|s| - 1];
      ElementsCount(front);
      assert Elements(s) == Elements(front) + {last};
      assert last !in front;
    }
  }

  lemma SameElements<T>(s: seq<T>, t: seq<T>)
    requires forall i, j :: 0 <= i < j < |s| ==> s[i] != s[j]
    requires forall i, j :: 0 <= i < j < |t| ==> t[i] != t[j]
    ensures Elements(s) == Elements(t) <==> |s| == |t| && forall i :: 0 <= i < |s| ==> s[i] in t
  {
    ElementsCount(s);
    ElementsCount(t);
    if |s| == |t| && forall i :: 0 <= i < |s| ==> s[i] in t {
      SameSet(Elements(s), Elements(t));
    } else if Elements(s) == Elements(t) {
      forall i | 0 <= i < |s| ensures s[i] in t {
        assert s[i] in Elements(s);
      }
    }
  }

  lemma SameSet<T>(a: set<T>, b: set<T>)
    requires a <= b && |a| == |b|
    ensures a == b
  {
    if x :| x in b && x !in a {
      SmallerSet(a, b - {x});
    }
  }

  lemma {:induction false} SmallerSet<T>(a: set<T>, b: set<T>)
    requires a <= b
    ensures |a| <= |b|
  {
    if x :| x in a {
      SmallerSet(a - {x}, b - {x});
    }
  }

  lemma {:induction false} LookupFinds(entries: seq<Entry>, key: string)
    ensures Lookup(entries, key).Some? <==> exists i :: 0 <= i < |entries| && entries[i].key == key
  {
    if entries != [] {
      LookupFinds(entries[1..], key);
      if i :| 0 <= i < |entries| && entries[i].key == key {
        assert i > 0 ==> entries[1..][i - 1].key == key;
      }
    }
  }

  ghost predicate EntryEqual(e: Entry, entries: seq<Entry>) {
    Lookup(entries, e.key).Some? && PyEq(e.value, Lookup(entries, e.key).value)
  }

  /** Python's equality of JSON values is equality but for the order of dictionaries and for
      truth values, which are the numbers 0 and 1. */
  lemma {:induction false} EqualityExactly(a: Value, b: Value)
    requires IsJson(a) && IsJson(b)
    ensures PyEq(a, b) <==> PlainOf(a) == PlainOf(b)
    decreases a, 2
  {
    match a
    case VList(items) =>
      if b.VList? {
        assert |PlainOf(a).items| == |items| && |PlainOf(b).items| == |b.items|;
        if |b.items| == |items| {
          EqualLists(a, b);
        }
      }
    case VDict(entries) =>
      if b.VDict? {
        EqualDicts(a, b, Pairs(a.entries), Pairs(b.entries));
      }
    case _ =>
  }

  lemma {:induction false} EqualLists(a: Value, b: Value)
    requires IsJson(a) && IsJson(b) && a.VList? && b.VList? && |a.items| == |b.items|
    ensures PyEq(a, b) <==> PlainOf(a) == PlainOf(b)
    decreases a, 1
  {
    forall i | 0 <= i < |a.items|
      ensures PyEq(a.items[i], b.items[i]) <==> PlainOf(a).items[i] == PlainOf(b).items[i]
    {
      EqualityExactly(a.items[i], b.items[i]);
    }
  }

  ghost function Pairs(entries: seq<Entry>): (pairs: seq<(string, Plain)>)
    requires IsJson(VDict(entries))
    ensures |pairs| == |entries|
    ensures forall i :: 0 <= i < |entries| ==> pairs[i] == (entries[i].key, PlainOf(entries[i].value))
    ensures PlainOf(VDict(entries)) == PDict(Elements(pairs))
  {
    seq(|entries|, i requires 0 <= i < |entries| => (entries[i].key, PlainOf(entries[i].value)))
  }

  lemma {:induction false} EqualDicts(a: Value, b: Value, mine: seq<(string, Plain)>, other: seq<(string, Plain)>)
    requires IsJson(a) && IsJson(b) && a.VDict? && b.VDict?
    requires mine == Pairs(a.entries) && other == Pairs(b.entries)
    ensures PyEq(a, b) <==> PlainOf(a) == PlainOf(b)
    decreases a, 1
  {
    assert VDict(a.entries) == a && VDict(b.entries) == b;
    forall i | 0 <= i < |a.entries| ensures EntryEqual(a.entries[i], b.entries) <==> mine[i] in other {
      EqualEntry(a, b, i, other);
    }
    SameElements(mine, other);
    assert PyEq(a, b) <==>
             |a.entries| == |b.entries| && forall i :: 0 <= i < |a.entries| ==> EntryEqual(a.entries[i], b.entries);
  }

  lemma {:induction false} EqualEntry(a: Value, b: Value, i: nat, other: seq<(string, Plain)>)
    requires IsJson(a) && IsJson(b) && a.VDict? && b.VDict? && i < |a.entries| && other == Pairs(b.entries)
    ensures EntryEqual(a.entries[i], b.entries) <==> (a.entries[i].key, PlainOf(a.entries[i].value)) in other
    decreases a, 0
  {
    var e := a.entries[i];
    LookupFinds(b.entries, e.key);
    if j :| 0 <= j < |b.entries| && b.entries[j].key == e.key {
      LookupAt(b.entries, j);
      EqualityExactly(e.value, b.entries[j].value);
      assert forall k :: 0 <= k < |b.entries| && k != j ==> other[k] != (e.key, PlainOf(e.value));
    }
  }
}
