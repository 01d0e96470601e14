/** Secret masking (python/cereyan/masking.py): registered values are replaced one after
    the other, longest first, each from the left without overlaps. */
module Masking {
  import opened Basics

  const MIN_LENGTH := 4
  const MASK := "***"

  // -- Replacing one value -------------------------------------------------------------

  /** The text with every occurrence of `v`, from the left, replaced by the mask. */
  function Replace(text: string, v: string): string
    requires v != []
  {
    if text == [] then []
    else if v <= text then MASK + Replace(text[|v|..], v)
    else [text[0]] + Replace(text[1..], v)
  }

  predicate OccursAt(w: string, text: string, p: nat) {
    p + |w| <= |text| && text[p..p + |w|] == w
  }

  predicate Occurs(w: string, text: string) {
    exists p: nat :: p <= |text| && OccursAt(w, text, p)
  }

  lemma OccursShift(w: string, head: string, tail: string, p: nat)
    requires p >= |head| && OccursAt(w, head + tail, p)
    ensures OccursAt(w, tail, p - |head|)
  {
    assert (head + tail)[p..p + |w|] == tail[p - |head|..p - |head| + |w|];
  }

  lemma OccursInLonger(w: string, head: string, tail: string, p: nat)
    requires OccursAt(w, tail, p)
    ensures OccursAt(w, head + tail, |head| + p)
  {
    assert (head + tail)[|head| + p..|head| + p + |w|] == tail[p..p + |w|];
  }

  // -- Values that masking handles -------------------------------------------------------

  /** A value that cannot be put together from a mask and what stands next to it: no star
      at either end, and no mask inside. */
  predicate Safe(w: string) {
    w != [] && w[0] != '*' && w[|w| - 1] != '*' && !Occurs(MASK, w)
  }

  predicate StarFree(w: string) { '*' !in w }

  lemma StarFreeIsSafe(w: string)
    requires w != [] && StarFree(w)
    ensures Safe(w)
  {
    forall p: nat | p <= |w| ensures !OccursAt(MASK, w, p) {
      if p + 3 <= |w| {
        assert w[p..p + 3][0] == w[p] && w[p] in w;
      }
    }
  }

  lemma SuffixNoMask(w: string)
    requires w != [] && !Occurs(MASK, w)
    ensures !Occurs(MASK, w[1..])
  {
    forall p: nat | p + 3 <= |w[1..]| ensures !OccursAt(MASK, w[1..], p) {
      assert w == [w[0]] + w[1..];
      if OccursAt(MASK, w[1..], p) {
        OccursInLonger(MASK, [w[0]], w[1..], p);
      }
    }
  }

  /** What stands at the start of a masked text, without a mask in it or a star at its
      end, was copied from the text. */
  lemma {:induction false} PrefixCopied(w: string, text: string, v: string)
    requires v != [] && !Occurs(MASK, w) && (w != [] ==> w[|w| - 1] != '*')
    requires w <= Replace(text, v)
    ensures w <= text
    decreases |text|
  {
    if w != [] {
      if v <= text {
        MaskedStart(w, Replace(text[|v|..], v));
        assert false;
      } else {
        SuffixNoMask(w);
        assert w == [w[0]] + w[1..];
        PrefixCopied(w[1..], text[1..], v);
      }
    }
  }

  lemma MaskedStart(w: string, rest: string)
    requires w != [] && w[|w| - 1] != '*' && w <= MASK + rest
    ensures OccursAt(MASK, w, 0)
  {
    assert |w| > 2;
    assert w[..3] == (MASK + rest)[..3];
  }

  /** An occurrence of a safe value in a masked text is one in the text itself. */
  lemma OccurrenceStart(w: string, text: string, v: string)
    requires v != [] && text != [] && Safe(w) && OccursAt(w, Replace(text, v), 0)
    ensures !(v <= text) && w <= text
  {
    assert w == Replace(text, v)[..|w|];
    PrefixCopied(w, text, v);
    if v <= text {
      MaskedStart(w, Replace(text[|v|..], v));
      assert false;
    }
  }

  /** Replacing one value never makes another safe value appear. */
  lemma {:induction false} NothingAppears(w: string, text: string, v: string)
    requires v != [] && Safe(w) && !Occurs(w, text)
    ensures !Occurs(w, Replace(text, v))
    decreases |text|
  {
    if text != [] {
      var cut := if v <= text then |v| else 1;
      var head, rest := if v <= text then MASK else [text[0]], Replace(text[cut..], v);
      forall p: nat | p <= |text[cut..]| ensures !OccursAt(w, text[cut..], p) {
        if OccursAt(w, text[cut..], p) {
          assert text == text[..cut] + text[cut..];
          OccursInLonger(w, text[..cut], text[cut..], p);
        }
      }
      NothingAppears(w, text[cut..], v);
      forall p: nat | p <= |head + rest| ensures !OccursAt(w, head + rest, p) {
        NotAtStart(w, text, v, head, rest, p);
      }
    }
  }

  lemma NotAtStart(w: string, text: string, v: string, head: string, rest: string, p: nat)
    requires v != [] && text != [] && Safe(w) && Replace(text, v) == head + rest && !Occurs(w, rest)
             && !OccursAt(w, text, 0)
    requires head == if v <= text then MASK else [text[0]]
    ensures !OccursAt(w, head + rest, p)
  {
    if OccursAt(w, head + rest, p) {
      OccursFirst(w, head + rest, p);
      if p >= |head| {
        OccursShift(w, head, rest, p);
      } else if p == 0 {
        OccurrenceStart(w, text, v);
      }
    }
  }

  lemma OccursFirst(w: string, s: string, p: nat)
    requires w != [] && OccursAt(w, s, p)
    ensures s[p] == w[0]
  {
    assert s[p..p + |w|][0] == s[p];
  }

  /** Replacing a safe value leaves no occurrence of it. */
  lemma {:induction false} NoneLeft(text: string, v: string)
    requires Safe(v)
    ensures !Occurs(v, Replace(text, v))
    decreases |text|
  {
    if text != [] {
      var cut := if v <= text then |v| else 1;
      var head, rest := if v <= text then MASK else [text[0]], Replace(text[cut..], v);
      NoneLeft(text[cut..], v);
      forall p: nat | p <= |head + rest| ensures !OccursAt(v, head + rest, p) {
        NoneLeftAt(text, v, head, rest, p);
      }
    }
  }

  lemma NoneLeftAt(text: string, v: string, head: string, rest: string, p: nat)
    requires text != [] && Safe(v) && Replace(text, v) == head + rest && !Occurs(v, rest)
    requires head == if v <= text then MASK else [text[0]]
    ensures !OccursAt(v, head + rest, p)
  {
    if OccursAt(v, head + rest, p) {
      OccursFirst(v, head + rest, p);
      if p >= |head| {
        OccursShift(v, head, rest, p);
      } else if p == 0 {
        OccurrenceStart(v, text, v);
      }
    }
  }

  lemma {:induction false} NothingToReplace(text: string, v: string)
    requires v != [] && !Occurs(v, text)
    ensures Replace(text, v) == text
    decreases |text|
  {
    if text != [] {
      assert !OccursAt(v, text, 0);
      forall p: nat | p <= |text[1..]| ensures !OccursAt(v, text[1..], p) {
        if OccursAt(v, text[1..], p) {
          assert text == [text[0]] + text[1..];
          OccursInLonger(v, [text[0]], text[1..], p);
        }
      }
      NothingToReplace(text[1..], v);
    }
  }

  // -- Masking with every registered value --------------------------------------------------

  function Masked(text: string, values: seq<string>): string
    requires forall i :: 0 <= i < |values| ==> values[i] != []
  {
    if values == [] then text
    else Replace(Masked(text, values[..|values| - 1]), values[|values| - 1])
  }

  ghost predicate AllSafe(values: seq<string>) {
    forall i :: 0 <= i < |values| ==> Safe(values[i])
  }

  ghost predicate NoneOccurs(values: seq<string>, text: string) {
    forall i :: 0 <= i < |values| ==> !Occurs(values[i], text)
  }

  ghost predicate NoneEmpty(values: seq<string>) {
    forall i :: 0 <= i < |values| ==> values[i] != []
  }

  /** Whatever the text and the other values, no safe value is left: no later replacement
      brings it back. */
  lemma {:induction false} SafeValueHidden(text: string, values: seq<string>, i: nat)
    requires NoneEmpty(values) && i < |values| && Safe(values[i])
    ensures !Occurs(values[i], Masked(text, values))
    decreases |values|
  {
    var front, last := values[..|values| - 1], values[|values| - 1];
    if i < |front| {
      SafeValueHidden(text, front, i);
      NothingAppears(values[i], Masked(text, front), last);
    } else {
      NoneLeft(Masked(text, front), last);
    }
  }

  lemma OccursWithin(u: string, w: string, text: string)
    requires Occurs(u, w) && Occurs(w, text)
    ensures Occurs(u, text)
  {
    var p: nat :| p <= |w| && OccursAt(u, w, p);
    var q: nat :| q <= |text| && OccursAt(w, text, q);
    assert text[q..q + |w|] == w && w[p..p + |u|] == u;
    forall k | 0 <= k < |u| ensures text[q + p + k] == u[k] {
      assert text[q + p + k] == text[q..q + |w|][p + k] && w[p + k] == w[p..p + |u|][k];
    }
    assert OccursAt(u, text, q + p);
  }

  /** A value with a safe registered value in it is never left, safe or not. */
  lemma HiddenByPart(text: string, values: seq<string>, i: nat, j: nat)
    requires NoneEmpty(values) && i < |values| && j < |values| && Safe(values[j]) && Occurs(values[j], values[i])
    ensures !Occurs(values[i], Masked(text, values))
  {
    SafeValueHidden(text, values, j);
    if Occurs(values[i], Masked(text, values)) {
      OccursWithin(values[j], values[i], Masked(text, values));
    }
  }

  /** Whatever the text, no registered value is left in it. */
  lemma MaskingIsComplete(text: string, values: seq<string>)
    requires AllSafe(values)
    ensures NoneOccurs(values, Masked(text, values))
  {
    forall i | 0 <= i < |values| ensures !Occurs(values[i], Masked(text, values)) {
      SafeValueHidden(text, values, i);
    }
  }

  /** A text without registered values is left as it is. */
  lemma {:induction false} MaskingKeepsOtherText(text: string, values: seq<string>)
    requires NoneOccurs(values, text) && forall i :: 0 <= i < |values| ==> values[i] != []
    ensures Masked(text, values) == text
  {
    if values != [] {
      MaskingKeepsOtherText(text, values[..|values| - 1]);
      NothingToReplace(text, values[|values| - 1]);
    }
  }

  lemma MaskingTwice(text: string, values: seq<string>)
    requires AllSafe(values)
    ensures Masked(Masked(text, values), values) == Masked(text, values)
  {
    MaskingIsComplete(text, values);
    MaskingKeepsOtherText(Masked(text, values), values);
  }

  // -- Exactly which single values are handled ------------------------------------------------

  lemma FirstShifts(text: string, v: string, k: nat)
    requires 0 < k && v != [] && OccursAt(v, text, k) && forall p: nat :: p < k ==> !OccursAt(v, text, p)
    ensures OccursAt(v, text[1..], k - 1) && forall p: nat :: p < k - 1 ==> !OccursAt(v, text[1..], p)
  {
    assert text == [text[0]] + text[1..];
    OccursShift(v, [text[0]], text[1..], k);
    forall p: nat | p < k - 1 ensures !OccursAt(v, text[1..], p) {
      if OccursAt(v, text[1..], p) {
        OccursInLonger(v, [text[0]], text[1..], p);
      }
    }
  }

  /** Everything up to the first occurrence is copied. */
  lemma {:induction false} ReplaceAtFirst(text: string, v: string, k: nat)
    requires v != [] && OccursAt(v, text, k) && forall p: nat :: p < k ==> !OccursAt(v, text, p)
    ensures Replace(text, v) == text[..k] + (MASK + Replace(text[k + |v|..], v))
    decreases k
  {
    if k == 0 {
      assert text[..|v|] == v && text[..0] == [];
    } else {
      FirstShifts(text, v, k);
      ReplaceAtFirst(text[1..], v, k - 1);
      assert !OccursAt(v, text, 0);
      assert text[1..][k - 1 + |v|..] == text[k + |v|..];
      CopyFirst(text, k, MASK + Replace(text[k + |v|..], v));
    }
  }

  lemma CopyFirst(text: string, k: nat, end: string)
    requires 0 < k <= |text|
    ensures [text[0]] + (text[1..][..k - 1] + end) == text[..k] + end
  {
  }

  lemma TooShort(w: string, text: string)
    requires |text| < |w|
    ensures !Occurs(w, text)
  {
  }

  /** A text in which `v` stands from `k` on and is followed by something shorter. */
  lemma ReplacedOnce(head: string, v: string, tail: string)
    requires v != [] && |tail| < |v| && forall p: nat :: p < |head| ==> !OccursAt(v, head + v + tail, p)
    ensures Replace(head + v + tail, v) == head + MASK + tail
  {
    var text := head + v + tail;
    assert text[|head|..|head| + |v|] == v && text[|head| + |v|..] == tail && text[..|head|] == head;
    ReplaceAtFirst(text, v, |head|);
    TooShort(v, tail);
    NothingToReplace(tail, v);
    assert head + (MASK + tail) == head + MASK + tail;
  }

  /** A text that the value can be put together from once it has been masked. */
  ghost predicate Leaks(v: string, text: string)
    requires v != []
  {
    Occurs(v, Replace(text, v))
  }

  lemma OccursBetween(a: string, w: string, b: string)
    ensures Occurs(w, a + w + b)
  {
    assert (a + w + b)[|a|..|a| + |w|] == w;
    assert OccursAt(w, a + w + b, |a|);
  }

  /** A value that starts with a star comes back from a mask and its own rest. */
  lemma StarFirstLeaks(v: string)
    requires |v| >= MIN_LENGTH && v[0] == '*'
    ensures Leaks(v, v + v[1..])
  {
    assert [] + v + v[1..] == v + v[1..];
    assert "**" + v + [] == [] + MASK + v[1..];
    ReplacedOnce([], v, v[1..]);
    OccursBetween("**", v, []);
  }

  lemma {:induction false} StarLastNotEarlier(v: string, p: nat)
    requires |v| >= MIN_LENGTH && v[0] != '*' && v[|v| - 1] == '*' && p < |v| - 1
    ensures !OccursAt(v, v[..|v| - 1] + v, p)
  {
    var text := v[..|v| - 1] + v;
    if OccursAt(v, text, p) {
      OccursFirst(v, text, p);
      OccursLast(v, text, p);
    }
  }

  lemma OccursLast(w: string, s: string, p: nat)
    requires w != [] && OccursAt(w, s, p)
    ensures s[p + |w| - 1] == w[|w| - 1]
  {
    assert s[p..p + |w|][|w| - 1] == s[p + |w| - 1];
  }

  /** A value that ends with a star comes back from its own start and a mask. */
  lemma StarLastLeaks(v: string)
    requires |v| >= MIN_LENGTH && v[0] != '*' && v[|v| - 1] == '*'
    ensures Leaks(v, v[..|v| - 1] + v)
  {
    var head := v[..|v| - 1];
    assert head + v + [] == head + v;
    assert [] + v + "**" == head + MASK + [];
    forall p: nat | p < |head| ensures !OccursAt(v, head + v + [], p) {
      StarLastNotEarlier(v, p);
    }
    ReplacedOnce(head, v, []);
    OccursBetween([], v, "**");
  }

  /** Where the value stands `p` into its own copy, its mask stands `p` into it. */
  lemma MaskMoves(v: string, j: nat, p: nat)
    requires OccursAt(MASK, v, j) && p <= j && OccursAt(v, v[..j] + v + v[j + 3..], p)
    ensures OccursAt(MASK, v, p)
  {
    var text := v[..j] + v + v[j + 3..];
    assert text[p..p + |v|][j..j + 3] == text[p + j..p + j + 3] == v[p..p + 3];
  }

  lemma MaskInsideNotEarlier(v: string, j: nat, p: nat)
    requires OccursAt(MASK, v, j) && (forall q: nat :: q < j ==> !OccursAt(MASK, v, q)) && p < j
    ensures !OccursAt(v, v[..j] + v + v[j + 3..], p)
  {
    if OccursAt(v, v[..j] + v + v[j + 3..], p) {
      MaskMoves(v, j, p);
    }
  }

  /** A value with a mask inside comes back when it stands between its own two parts. */
  lemma MaskInsideLeaks(v: string, j: nat)
    requires |v| >= MIN_LENGTH && OccursAt(MASK, v, j) && forall q: nat :: q < j ==> !OccursAt(MASK, v, q)
    ensures Leaks(v, v[..j] + v + v[j + 3..])
  {
    var head, tail := v[..j], v[j + 3..];
    assert [] + v + [] == head + MASK + tail;
    forall p: nat | p < |head| ensures !OccursAt(v, head + v + tail, p) {
      MaskInsideNotEarlier(v, j, p);
    }
    ReplacedOnce(head, v, tail);
    OccursBetween([], v, []);
  }

  lemma {:induction false} FirstMask(v: string, p: nat) returns (j: nat)
    requires OccursAt(MASK, v, p)
    ensures j <= p && OccursAt(MASK, v, j) && forall q: nat :: q < j ==> !OccursAt(MASK, v, q)
  {
    if q: nat :| q < p && OccursAt(MASK, v, q) {
      j := FirstMask(v, q);
    } else {
      j := p;
    }
  }

  /** Masking a single value, of a length that is registered, hides it in every text
      exactly when it is safe. */
  lemma SingleValueExactly(v: string)
    requires |v| >= MIN_LENGTH
    ensures Safe(v) <==> forall text :: !Leaks(v, text)
  {
    if Safe(v) {
      forall text ensures !Leaks(v, text) {
        NoneLeft(text, v);
      }
    } else if v[0] == '*' {
      StarFirstLeaks(v);
    } else if v[|v| - 1] == '*' {
      StarLastLeaks(v);
    } else {
      var p: nat :| p <= |v| && OccursAt(MASK, v, p);
      var j := FirstMask(v, p);
      MaskInsideLeaks(v, j);
    }
  }

  /** Values that do not occur in what the ones before made of a text change nothing. */
  lemma {:induction false} MaskedMore(text: string, values: seq<string>, i: nat)
    requires NoneEmpty(values) && i <= |values|
    requires forall j :: i <= j < |values| ==> !Occurs(values[j], Masked(text, values[..i]))
    ensures Masked(text, values) == Masked(text, values[..i])
    decreases |values|
  {
    if i == |values| {
      assert values[..i] == values;
    } else {
      var front := values[..|values| - 1];
      assert front[..i] == values[..i];
      MaskedMore(text, front, i);
      NothingToReplace(Masked(text, front), values[|values| - 1]);
    }
  }

  /** A value among others comes back from a text of its own when no value before it occurs
      in that text, and none after it in what it leaves there. */
  lemma LeaksAmongOthers(text: string, values: seq<string>, i: nat)
    requires NoneEmpty(values) && i < |values| && Leaks(values[i], text)
    requires NoneOccurs(values[..i], text) && NoneOccurs(values[i + 1..], Replace(text, values[i]))
    ensures Occurs(values[i], Masked(text, values))
  {
    MaskingKeepsOtherText(text, values[..i]);
    assert values[..i + 1][..i] == values[..i];
    assert Masked(text, values[..i + 1]) == Replace(text, values[i]);
    forall j | i + 1 <= j < |values| ensures !Occurs(values[j], Replace(text, values[i])) {
      assert values[i + 1..][j - i - 1] == values[j];
    }
    MaskedMore(text, values, i + 1);
  }

  // -- The registry ------------------------------------------------------------------------

  /** A secret as a variable holds it: text, containers, or another scalar by its JSON
      text; nulls and booleans count for nothing. */
  datatype Value =
    | Text(text: string)
    | Dict(entries: seq<Value>)
    | List(items: seq<Value>)
    | Scalar(json: string)
    | Nothing

  function Collected(value: Value): seq<string> {
    match value
    case Text(text) => [text]
    case Dict(entries) => CollectedAll(entries)
    case List(items) => CollectedAll(items)
    case Scalar(json) => [json]
    case Nothing => []
  }

  function CollectedAll(values: seq<Value>): seq<string> {
    if values == [] then [] else Collected(values[0]) + CollectedAll(values[1..])
  }

  /** `text` is the whole of the value, or of one somewhere inside it. */
  ghost predicate IsLeaf(value: Value, text: string) {
    match value
    case Text(own) => text == own
    case Scalar(json) => text == json
    case Dict(entries) => exists i :: 0 <= i < |entries| && IsLeaf(entries[i], text)
    case List(items) => exists i :: 0 <= i < |items| && IsLeaf(items[i], text)
    case Nothing => false
  }

  /** However deep the containers go, exactly the texts and scalars in them are found. */
  lemma {:induction false} CollectedExactly(value: Value, text: string)
    ensures text in Collected(value) <==> IsLeaf(value, text)
  {
    match value
    case Dict(entries) => CollectedAllExactly(entries, text);
    case List(items) => CollectedAllExactly(items, text);
    case _ =>
  }

  lemma {:induction false} CollectedAllExactly(values: seq<Value>, text: string)
    ensures text in CollectedAll(values) <==> exists i :: 0 <= i < |values| && IsLeaf(values[i], text)
  {
    if values != [] {
      CollectedExactly(values[0], text);
      CollectedAllExactly(values[1..], text);
      if exists i :: 0 <= i < |values| && IsLeaf(values[i], text) {
        var i :| 0 <= i < |values| && IsLeaf(values[i], text);
        assert i > 0 ==> values[1..][i - 1] == values[i];
      }
    }
  }

  /** Into a list by falling length, behind those of the same length. */
  function Placed(sorted: seq<string>, x: string): seq<string> {
    if sorted == [] || |sorted[0]| < |x| then [x] + sorted else [sorted[0]] + Placed(sorted[1..], x)
  }

  /** A stable sort by falling length. */
  function Sorted(values: seq<string>): seq<string> {
    if values == [] then [] else Placed(Sorted(values[..|values| - 1]), values[|values| - 1])
  }

  ghost predicate Falling(values: seq<string>) {
    forall i, j :: 0 <= i < j < |values| ==> |values[i]| >= |values[j]|
  }

  ghost predicate NoRepeat(values: seq<string>) {
    forall i, j :: 0 <= i < j < |values| ==> values[i] != values[j]
  }

  ghost predicate Registry(values: seq<string>) {
    Falling(values) && NoRepeat(values) && forall i :: 0 <= i < |values| ==> |values[i]| >= MIN_LENGTH
  }

  lemma {:induction false} PlacedKeeps(sorted: seq<string>, x: string)
    requires Falling(sorted)
    ensures Falling(Placed(sorted, x))
    ensures forall y :: y in Placed(sorted, x) <==> y == x || y in sorted
    ensures NoRepeat(sorted) && x !in sorted ==> NoRepeat(Placed(sorted, x))
  {
    if sorted != [] && |sorted[0]| >= |x| {
      PlacedKeeps(sorted[1..], x);
      var rest := Placed(sorted[1..], x);
      forall k | 0 <= k < |rest|
        ensures |sorted[0]| >= |rest[k]| && (NoRepeat(sorted) && x !in sorted ==> sorted[0] != rest[k])
      {
        assert rest[k] in rest;
      }
    }
  }

  lemma {:induction false} SortedKeeps(values: seq<string>)
    ensures Falling(Sorted(values))
    ensures forall y :: y in Sorted(values) <==> y in values
    ensures NoRepeat(values) ==> NoRepeat(Sorted(values))
  {
    if values != [] {
      SortedKeeps(values[..|values| - 1]);
      PlacedKeeps(Sorted(values[..|values| - 1]), values[|values| - 1]);
    }
  }

  function Only(x: string, n: nat): seq<string> {
    if |x| == n then [x] else []
  }

  function OfLength(values: seq<string>, n: nat): seq<string> {
    if values == [] then [] else Only(values[0], n) + OfLength(values[1..], n)
  }

  lemma OfLengthFirst(x: string, rest: seq<string>, n: nat)
    ensures OfLength([x] + rest, n) == Only(x, n) + OfLength(rest, n)
  {
    assert ([x] + rest)[1..] == rest;
  }

  lemma {:induction false} OfLengthLast(values: seq<string>, x: string, n: nat)
    ensures OfLength(values + [x], n) == OfLength(values, n) + Only(x, n)
  {
    if values == [] {
      OfLengthFirst(x, [], n);
      assert values + [x] == [x] + [];
    } else {
      OfLengthLast(values[1..], x, n);
      OfLengthFirst(values[0], values[1..] + [x], n);
      assert values + [x] == [values[0]] + (values[1..] + [x]);
    }
  }

  lemma {:induction false} NoneOfLength(values: seq<string>, n: nat)
    requires forall i :: 0 <= i < |values| ==> |values[i]| < n
    ensures OfLength(values, n) == []
  {
    if values != [] {
      NoneOfLength(values[1..], n);
    }
  }

  lemma {:induction false} PlacedLast(sorted: seq<string>, x: string, n: nat)
    requires Falling(sorted)
    ensures OfLength(Placed(sorted, x), n) == OfLength(sorted, n) + Only(x, n)
  {
    if sorted == [] || |sorted[0]| < |x| {
      OfLengthFirst(x, sorted, n);
      if |x| == n {
        NoneOfLength(sorted, n);
      }
    } else {
      PlacedLast(sorted[1..], x, n);
      OfLengthFirst(sorted[0], Placed(sorted[1..], x), n);
    }
  }

  /** Values of one length stay in the order they were registered in. */
  lemma {:induction false} SortedStable(values: seq<string>, n: nat)
    ensures OfLength(Sorted(values), n) == OfLength(values, n)
  {
    if values != [] {
      SortedStable(values[..|values| - 1], n);
      SortedKeeps(values[..|values| - 1]);
      PlacedLast(Sorted(values[..|values| - 1]), values[|values| - 1], n);
      OfLengthLast(values[..|values| - 1], values[|values| - 1], n);
      assert values == values[..|values| - 1] + [values[|values| - 1]];
    }
  }

  /** The list with what is new of the texts found, in order. */
  function Extended(values: seq<string>, found: seq<string>): (all: seq<string>)
    ensures values <= all
  {
    if found == [] then values
    else
      var all, last := Extended(values, found[..|found| - 1]), found[|found| - 1];
      if |last| >= MIN_LENGTH && last !in all then all + [last] else all
  }

  /** The values are those from before and what was found of registered length. */
  ghost predicate Joined(values: seq<string>, before: seq<string>, found: seq<string>) {
    forall t :: t in values <==> t in before || (t in found && |t| >= MIN_LENGTH)
  }

  lemma ExtendedNext(values: seq<string>, found: seq<string>, i: nat)
    requires i < |found|
    ensures var all, more := Extended(values, found[..i]), Extended(values, found[..i + 1]);
            more == if |found[i]| >= MIN_LENGTH && found[i] !in all then all + [found[i]] else all
  {
    assert found[..i + 1][..i] == found[..i];
  }

  lemma {:induction false} ExtendedJoins(values: seq<string>, found: seq<string>)
    requires NoRepeat(values)
    ensures NoRepeat(Extended(values, found)) && Joined(Extended(values, found), values, found)
  {
    if found != [] {
      var front, last := found[..|found| - 1], found[|found| - 1];
      var all, more := Extended(values, front), Extended(values, found);
      ExtendedJoins(values, front);
      assert found == front + [last];
      forall t ensures t in more <==> t in values || (t in found && |t| >= MIN_LENGTH) {
        assert t in found <==> t in front || t == last;
        assert t in more <==> t in all || (t == last && |last| >= MIN_LENGTH);
      }
    }
  }

  lemma LongEnough(values: seq<string>, before: seq<string>, found: seq<string>)
    requires Joined(values, before, found)
    requires forall i :: 0 <= i < |before| ==> |before[i]| >= MIN_LENGTH
    ensures forall i :: 0 <= i < |values| ==> |values[i]| >= MIN_LENGTH
  {
    forall i | 0 <= i < |values| ensures |values[i]| >= MIN_LENGTH {
      assert values[i] in values;
    }
  }

  lemma RegisteredKeeps(values: seq<string>, found: seq<string>)
    requires Registry(values)
    ensures var all := Sorted(Extended(values, found));
            Registry(all) && Joined(all, values, found)
  {
    var more := Extended(values, found);
    ExtendedJoins(values, found);
    SortedKeeps(more);
    LongEnough(Sorted(more), values, found);
  }

  class Masker {
    var values: seq<string>

    constructor ()
      ensures values == []
    {
      values := [];
    }

    /** Registering adds exactly the value's texts of registered length, and keeps the
        registry without repeats and longest first, older values before newer ones of the
        same length. */
    method Register(value: Value)
      requires Registry(values)
      modifies this
      ensures Registry(values)
      ensures Joined(values, old(values), Collected(value))
      ensures values == Sorted(Extended(old(values), Collected(value)))
    {
      var found := Collected(value);
      var i := 0;
      while i < |found|
        invariant 0 <= i <= |found|
        invariant values == Extended(old(values), found[..i])
      {
        ExtendedNext(old(values), found, i);
        if |found[i]| >= MIN_LENGTH && found[i] !in values {
          values := values + [found[i]];
        }
        i := i + 1;
      }
      assert found[..i] == found;
      RegisteredKeeps(old(values), found);
      values := Sorted(values);
    }

    /** The text as every registered value leaves it. */
    method Mask(text: string) returns (out: string)
      requires Registry(values)
      ensures out == Masked(text, values)
    {
      out := text;
      var i := 0;
      while i < |values|
        invariant 0 <= i <= |values|
        invariant out == Masked(text, values[..i])
      {
        assert values[..i + 1][..i] == values[..i];
        if !Occurs(values[i], out) {
          NothingToReplace(out, values[i]);
        } else {
          out := Replace(out, values[i]);
        }
        i := i + 1;
      }
      assert values[..|values|] == values;
    }
  }

  lemma {:induction false} ShortStays(text: string, values: seq<string>)
    requires forall i :: 0 <= i < |values| ==> |values[i]| > |text|
    ensures Masked(text, values) == text
  {
    if values != [] {
      ShortStays(text, values[..|values| - 1]);
      TooShort(values[|values| - 1], text);
      NothingToReplace(text, values[|values| - 1]);
    }
  }

  /** Longest first means that a registered value by itself always becomes one mask,
      whatever characters it has. */
  lemma ValueBecomesMask(values: seq<string>, k: nat)
    requires Registry(values) && k < |values|
    ensures Masked(values[k], values) == MASK
  {
    MaskedUpto(values, k, |values|);
    assert values[..|values|] == values;
  }

  lemma {:induction false} MaskedUpto(values: seq<string>, k: nat, n: nat)
    requires Registry(values) && k < |values| && n <= |values|
    ensures Masked(values[k], values[..n]) == if n <= k then values[k] else MASK
  {
    if n > 0 {
      var v, w := values[k], values[n - 1];
      MaskedUpto(values, k, n - 1);
      assert values[..n][..n - 1] == values[..n - 1];
      if n - 1 == k {
        assert v[|v|..] == [];
        assert Replace(v, v) == MASK + [];
      } else if n - 1 < k {
        DoesNotFit(w, v);
        NothingToReplace(v, w);
      } else {
        TooShort(w, MASK);
        NothingToReplace(MASK, w);
      }
    }
  }

  lemma DoesNotFit(w: string, v: string)
    requires |w| >= |v| && w != v
    ensures !Occurs(w, v)
  {
    forall p: nat | p <= |v| ensures !OccursAt(w, v, p) {
      if p == 0 && |w| == |v| {
        assert v[0..|v|] == v;
      }
    }
  }
}
