/** The rule index (crates/rules/src/lib.rs): a rule is filed by how its
    patterns begin, and an event looks up only what begins as it does. */
module RuleIndex {
  import opened Basics

  /** A rule's event patterns: those that fire it (none means every event), those that
      disarm it, and whether a clock arms it. */
  datatype Rule = Rule(id: int, events: seq<string>, unless: Option<seq<string>>, at: bool)

  // -- Patterns ----------------------------------------------------------------------

  /** A name, or a prefix followed by a star. */
  predicate NameMatches(pattern: string, name: string) {
    if pattern != [] && pattern[|pattern| - 1] == '*' then pattern[..|pattern| - 1] <= name else pattern == name
  }

  predicate Starred(pattern: string, prefix: string) {
    pattern == prefix + "*"
  }

  predicate Continues(name: string, prefix: string, rest: string) {
    name == prefix + rest
  }

  /** A prefix and a star match the names that continue the prefix, by nothing at all
      included; any other pattern matches itself. */
  lemma MatchesExactly(pattern: string, name: string)
    ensures NameMatches(pattern, name)
       <==> || (exists prefix, rest :: Starred(pattern, prefix) && Continues(name, prefix, rest))
            || (pattern == name && !exists prefix :: Starred(pattern, prefix))
  {
    if pattern != [] && pattern[|pattern| - 1] == '*' {
      var prefix := pattern[..|pattern| - 1];
      assert Starred(pattern, prefix);
      if prefix <= name {
        assert Continues(name, prefix, name[|prefix|..]);
      }
      forall other | Starred(pattern, other) ensures other == prefix {
        assert (other + "*")[..|other|] == other;
      }
    }
  }

  /** The text before the first dot. */
  function FirstSegment(s: string): string {
    if s == [] || s[0] == '.' then [] else [s[0]] + FirstSegment(s[1..])
  }

  function TrimStars(s: string): string {
    if s != [] && s[|s| - 1] == '*' then TrimStars(s[..|s| - 1]) else s
  }

  /** The key a pattern is filed under; the empty key stands for every event. */
  function Key(pattern: string): string {
    TrimStars(FirstSegment(pattern))
  }

  // -- The index -----------------------------------------------------------------------

  datatype Index = Index(byPrefix: map<string, seq<int>>, all: seq<int>)

  function At(idx: Index, key: string): seq<int> {
    if key == [] then idx.all
    else if key in idx.byPrefix then idx.byPrefix[key]
    else []
  }

  function Filed(idx: Index, key: string, id: int): Index {
    if key == [] then idx.(all := idx.all + [id])
    else idx.(byPrefix := idx.byPrefix[key := At(idx, key) + [id]])
  }

  function KeysOf(patterns: seq<string>): seq<string> {
    if patterns == [] then [] else KeysOf(patterns[..|patterns| - 1]) + [Key(patterns[|patterns| - 1])]
  }

  /** Everything a rule is filed under. A clock-armed rule never fires on an event, so
      only the events that disarm it count. */
  function RuleKeys(r: Rule): seq<string> {
    (if r.unless.Some? then KeysOf(r.unless.value) else [])
      + (if r.unless.Some? && r.at then [] else if r.events == [] then [[]] else KeysOf(r.events))
  }

  /** A rule with this id is filed under `key`. */
  ghost predicate HasKey(rules: seq<Rule>, key: string, id: int) {
    exists i :: 0 <= i < |rules| && rules[i].id == id && key in RuleKeys(rules[i])
  }

  /** The index holds exactly these rules' ids under exactly their keys. */
  ghost predicate Indexes(idx: Index, rules: seq<Rule>) {
    && [] !in idx.byPrefix
    && forall key, id :: id in At(idx, key) <==> HasKey(rules, key, id)
  }

  /** `idx'` is `idx` with `id` also filed under `keys`. */
  ghost predicate Adds(idx: Index, idx': Index, id: int, keys: seq<string>) {
    && ([] !in idx.byPrefix ==> [] !in idx'.byPrefix)
    && forall key, x :: x in At(idx', key) <==> x in At(idx, key) || (x == id && key in keys)
  }

  lemma FiledAdds(idx: Index, key: string, id: int)
    ensures Adds(idx, Filed(idx, key, id), id, [key])
  {
    forall k, x ensures x in At(Filed(idx, key, id), k) <==> x in At(idx, k) || (x == id && k in [key]) {
    }
  }

  lemma AddsTwice(a: Index, b: Index, c: Index, id: int, more: seq<string>, most: seq<string>)
    requires Adds(a, b, id, more) && Adds(b, c, id, most)
    ensures Adds(a, c, id, more + most)
  {
    forall k, x ensures x in At(c, k) <==> x in At(a, k) || (x == id && k in more + most) {
      assert x in At(b, k) <==> x in At(a, k) || (x == id && k in more);
    }
  }

  method FilePatterns(idx: Index, patterns: seq<string>, id: int) returns (out: Index)
    ensures Adds(idx, out, id, KeysOf(patterns))
  {
    out := idx;
    var i := 0;
    assert Adds(idx, idx, id, []);
    while i < |patterns|
      invariant 0 <= i <= |patterns|
      invariant Adds(idx, out, id, KeysOf(patterns[..i]))
    {
      assert patterns[..i + 1][..i] == patterns[..i];
      var key := Key(patterns[i]);
      FiledAdds(out, key, id);
      AddsTwice(idx, out, Filed(out, key, id), id, KeysOf(patterns[..i]), [key]);
      out := Filed(out, key, id);
      i := i + 1;
    }
    assert patterns[..|patterns|] == patterns;
  }

  method FileRule(idx: Index, r: Rule) returns (out: Index)
    ensures Adds(idx, out, r.id, RuleKeys(r))
  {
    out := idx;
    ghost var filed: seq<string> := [];
    assert Adds(idx, idx, r.id, []);
    if r.unless.Some? {
      out := FilePatterns(out, r.unless.value, r.id);
      filed := KeysOf(r.unless.value);
      if r.at {
        assert filed + [] == filed;
        return;
      }
    }
    ghost var before := out;
    if r.events == [] {
      FiledAdds(out, [], r.id);
      out := out.(all := out.all + [r.id]);
      AddsTwice(idx, before, out, r.id, filed, [[]]);
    } else {
      out := FilePatterns(out, r.events, r.id);
      AddsTwice(idx, before, out, r.id, filed, KeysOf(r.events));
    }
  }

  method Build(rules: seq<Rule>) returns (idx: Index)
    ensures Indexes(idx, rules)
  {
    idx := Index(map[], []);
    var i := 0;
    while i < |rules|
      invariant 0 <= i <= |rules|
      invariant Indexes(idx, rules[..i])
    {
      var next := FileRule(idx, rules[i]);
      IndexesNext(idx, next, rules, i);
      idx := next;
      i := i + 1;
    }
    assert rules[..|rules|] == rules;
  }

  lemma HasKeyNext(rules: seq<Rule>, i: nat, key: string, id: int)
    requires i < |rules|
    ensures HasKey(rules[..i + 1], key, id)
       <==> HasKey(rules[..i], key, id) || (rules[i].id == id && key in RuleKeys(rules[i]))
  {
    var before, after := rules[..i], rules[..i + 1];
    assert after[i] == rules[i];
    assert forall k :: 0 <= k < i ==> after[k] == before[k];
  }

  lemma IndexesNext(idx: Index, next: Index, rules: seq<Rule>, i: nat)
    requires i < |rules| && Indexes(idx, rules[..i]) && Adds(idx, next, rules[i].id, RuleKeys(rules[i]))
    ensures Indexes(next, rules[..i + 1])
  {
    forall key, id ensures id in At(next, key) <==> HasKey(rules[..i + 1], key, id) {
      HasKeyNext(rules, i, key, id);
    }
  }

  // -- Candidates ------------------------------------------------------------------------

  function Insert(sorted: seq<int>, x: int): seq<int> {
    if sorted == [] || x <= sorted[0] then [x] + sorted else [sorted[0]] + Insert(sorted[1..], x)
  }

  function Sort(ids: seq<int>): seq<int> {
    if ids == [] then [] else Insert(Sort(ids[1..]), ids[0])
  }

  function Dedup(ids: seq<int>): seq<int> {
    if |ids| < 2 then ids
    else if ids[0] == ids[1] then Dedup(ids[1..])
    else [ids[0]] + Dedup(ids[1..])
  }

  function Candidates(idx: Index, name: string): seq<int> {
    var key := FirstSegment(name);
    Dedup(Sort(idx.all + if key in idx.byPrefix then idx.byPrefix[key] else []))
  }

  ghost predicate Ascending(ids: seq<int>) {
    forall i, j :: 0 <= i < j < |ids| ==> ids[i] <= ids[j]
  }

  ghost predicate StrictlyAscending(ids: seq<int>) {
    forall i, j :: 0 <= i < j < |ids| ==> ids[i] < ids[j]
  }

  lemma {:induction false} InsertSorts(sorted: seq<int>, x: int)
    requires Ascending(sorted)
    ensures Ascending(Insert(sorted, x))
    ensures forall y :: y in Insert(sorted, x) <==> y == x || y in sorted
  {
    if sorted != [] && x > sorted[0] {
      InsertSorts(sorted[1..], x);
      var rest := Insert(sorted[1..], x);
      forall k | 0 <= k < |rest| ensures sorted[0] <= rest[k] {
        assert rest[k] in rest;
      }
    }
  }

  lemma {:induction false} SortSorts(ids: seq<int>)
    ensures Ascending(Sort(ids))
    ensures forall y :: y in Sort(ids) <==> y in ids
  {
    if ids != [] {
      SortSorts(ids[1..]);
      InsertSorts(Sort(ids[1..]), ids[0]);
    }
  }

  lemma {:induction false} DedupDrops(ids: seq<int>)
    requires Ascending(ids)
    ensures StrictlyAscending(Dedup(ids))
    ensures forall y :: y in Dedup(ids) <==> y in ids
  {
    if |ids| >= 2 {
      DedupDrops(ids[1..]);
      if ids[0] != ids[1] {
        var rest := Dedup(ids[1..]);
        forall k | 0 <= k < |rest| ensures ids[0] < rest[k] {
          assert rest[k] in rest && rest[k] in ids[1..];
        }
      }
    }
  }

  /** The candidates are ascending without repeats, and are exactly the rules filed under
      every event or under the event's first segment. */
  lemma CandidatesAre(idx: Index, rules: seq<Rule>, name: string)
    requires Indexes(idx, rules)
    ensures StrictlyAscending(Candidates(idx, name))
    ensures forall id :: id in Candidates(idx, name) <==> HasKey(rules, [], id) || HasKey(rules, FirstSegment(name), id)
  {
    var key := FirstSegment(name);
    var ids := idx.all + if key in idx.byPrefix then idx.byPrefix[key] else [];
    SortSorts(ids);
    DedupDrops(Sort(ids));
    forall id ensures id in Candidates(idx, name) <==> HasKey(rules, [], id) || HasKey(rules, key, id) {
      assert id in Candidates(idx, name) <==> id in At(idx, []) || id in At(idx, key);
    }
  }

  // -- The index agrees with the matcher ----------------------------------------------------

  /** Patterns whose stars are all of the first segment or none of its end. */
  predicate Safe(pattern: string) {
    var segment := FirstSegment(pattern);
    TrimStars(segment) == [] || TrimStars(segment) == segment
  }

  lemma {:induction false} SegmentSplits(s: string)
    ensures FirstSegment(s) <= s && '.' !in FirstSegment(s)
    ensures |FirstSegment(s)| < |s| ==> s[|FirstSegment(s)|] == '.'
  {
    if s != [] && s[0] != '.' {
      SegmentSplits(s[1..]);
    }
  }

  lemma {:induction false} SegmentIs(s: string, segment: string)
    requires segment <= s && '.' !in segment && (|segment| == |s| || s[|segment|] == '.')
    ensures FirstSegment(s) == segment
  {
    if segment != [] {
      assert s[0] == segment[0] && segment == [segment[0]] + segment[1..];
      SegmentIs(s[1..], segment[1..]);
    }
  }

  lemma TrimStarsChanges(s: string)
    requires s != [] && s[|s| - 1] == '*'
    ensures TrimStars(s) != s
  {
    TrimShortens(s[..|s| - 1]);
  }

  lemma {:induction false} TrimShortens(s: string)
    ensures |TrimStars(s)| <= |s|
  {
    if s != [] && s[|s| - 1] == '*' {
      TrimShortens(s[..|s| - 1]);
    }
  }

  /** A match of a safe pattern has the pattern's key for its first segment. */
  lemma SafeMatchHasKey(pattern: string, name: string)
    requires Safe(pattern) && NameMatches(pattern, name)
    ensures Key(pattern) == [] || Key(pattern) == FirstSegment(name)
  {
    var segment := FirstSegment(pattern);
    SegmentSplits(pattern);
    if pattern != [] && pattern[|pattern| - 1] == '*' {
      if |segment| == |pattern| {
        assert segment == pattern;
        TrimStarsChanges(pattern);
      } else {
        SegmentIs(name, segment);
      }
    }
  }

  lemma MatchesItself(pattern: string)
    ensures NameMatches(pattern, pattern)
  {
  }

  /** Filing under the key misses no event the matcher accepts exactly when the pattern
      is safe. */
  lemma KeySafeExactly(pattern: string)
    ensures Safe(pattern)
       <==> forall name :: NameMatches(pattern, name) ==> Key(pattern) == [] || Key(pattern) == FirstSegment(name)
  {
    if Safe(pattern) {
      forall name | NameMatches(pattern, name) ensures Key(pattern) == [] || Key(pattern) == FirstSegment(name) {
        SafeMatchHasKey(pattern, name);
      }
    } else {
      MatchesItself(pattern);
    }
  }

  ghost predicate AnyMatches(patterns: seq<string>, name: string) {
    exists i :: 0 <= i < |patterns| && NameMatches(patterns[i], name)
  }

  ghost predicate AllSafe(patterns: seq<string>) {
    forall i :: 0 <= i < |patterns| ==> Safe(patterns[i])
  }

  lemma {:induction false} KeysOfHas(patterns: seq<string>, i: nat)
    requires i < |patterns|
    ensures Key(patterns[i]) in KeysOf(patterns)
  {
    if i < |patterns| - 1 {
      KeysOfHas(patterns[..|patterns| - 1], i);
    }
  }

  lemma MatchIsFiled(patterns: seq<string>, name: string)
    requires AllSafe(patterns) && AnyMatches(patterns, name)
    ensures [] in KeysOf(patterns) || FirstSegment(name) in KeysOf(patterns)
  {
    var i :| 0 <= i < |patterns| && NameMatches(patterns[i], name);
    SafeMatchHasKey(patterns[i], name);
    KeysOfHas(patterns, i);
  }

  /** Whether the event concerns the rule: it fires it, unless a clock does, or disarms it. */
  ghost predicate Concerns(r: Rule, name: string) {
    || (!(r.unless.Some? && r.at) && (r.events == [] || AnyMatches(r.events, name)))
    || (r.unless.Some? && AnyMatches(r.unless.value, name))
  }

  /** The patterns a rule is filed under. */
  function FiledPatterns(r: Rule): seq<string> {
    (if r.unless.Some? then r.unless.value else []) + if r.unless.Some? && r.at then [] else r.events
  }

  /** When the patterns a rule is filed under are safe, the index offers it for every event
      that concerns it. */
  lemma IndexMissesNothing(idx: Index, rules: seq<Rule>, i: nat, name: string)
    requires Indexes(idx, rules) && i < |rules| && Concerns(rules[i], name) && AllSafe(FiledPatterns(rules[i]))
    ensures rules[i].id in Candidates(idx, name)
  {
    var r := rules[i];
    CandidatesAre(idx, rules, name);
    FiledPartsSafe(r);
    if r.unless.Some? && AnyMatches(r.unless.value, name) {
      MatchIsFiled(r.unless.value, name);
    } else if r.events != [] {
      MatchIsFiled(r.events, name);
    }
  }

  lemma FiledPartsSafe(r: Rule)
    requires AllSafe(FiledPatterns(r))
    ensures r.unless.Some? ==> AllSafe(r.unless.value)
    ensures !(r.unless.Some? && r.at) ==> AllSafe(r.events)
  {
    var n := if r.unless.Some? then |r.unless.value| else 0;
    assert r.unless.Some? ==> forall k :: 0 <= k < n ==> FiledPatterns(r)[k] == r.unless.value[k];
    assert !(r.unless.Some? && r.at) ==> forall k :: 0 <= k < |r.events| ==> FiledPatterns(r)[n + k] == r.events[k];
  }

  lemma {:induction false} KeysOfConcat(a: seq<string>, b: seq<string>)
    ensures KeysOf(a + b) == KeysOf(a) + KeysOf(b)
    decreases |b|
  {
    if b == [] {
      assert a + b == a;
    } else {
      var front := b[..|b| - 1];
      assert (a + b)[..|a + b| - 1] == a + front;
      KeysOfConcat(a, front);
    }
  }

  lemma {:induction false} TrimmedEnd(s: string)
    ensures TrimStars(s) != [] ==> TrimStars(s)[|TrimStars(s)| - 1] != '*'
  {
    if s != [] && s[|s| - 1] == '*' {
      TrimmedEnd(s[..|s| - 1]);
    }
  }

  lemma {:induction false} KeysOfEnd(patterns: seq<string>, key: string)
    requires key in KeysOf(patterns) && key != []
    ensures key[|key| - 1] != '*'
  {
    var last := patterns[|patterns| - 1];
    if key == Key(last) {
      TrimmedEnd(FirstSegment(last));
    } else {
      KeysOfEnd(patterns[..|patterns| - 1], key);
    }
  }

  lemma RuleKeysAre(r: Rule)
    requires [] !in RuleKeys(r)
    ensures RuleKeys(r) == KeysOf(FiledPatterns(r))
  {
    KeysOfConcat(if r.unless.Some? then r.unless.value else [], if r.unless.Some? && r.at then [] else r.events);
  }

  lemma {:induction false} TrimSame(s: string)
    requires s == [] || s[|s| - 1] != '*'
    ensures TrimStars(s) == s
  {
  }

  /** An unsafe pattern taken as an event name concerns its rule and is filed nowhere. */
  lemma UnsafeIsMissed(r: Rule, i: nat)
    requires [] !in RuleKeys(r) && i < |FiledPatterns(r)| && !Safe(FiledPatterns(r)[i])
    ensures Concerns(r, FiledPatterns(r)[i])
    ensures FirstSegment(FiledPatterns(r)[i]) !in RuleKeys(r)
  {
    var name := FiledPatterns(r)[i];
    var segment := FirstSegment(name);
    MatchesItself(name);
    FiledConcerns(r, i);
    assert segment != [] && segment[|segment| - 1] == '*' by {
      if segment == [] || segment[|segment| - 1] != '*' {
        TrimSame(segment);
      }
    }
    RuleKeysAre(r);
    if segment in KeysOf(FiledPatterns(r)) {
      KeysOfEnd(FiledPatterns(r), segment);
    }
  }

  lemma FiledConcerns(r: Rule, i: nat)
    requires i < |FiledPatterns(r)|
    ensures Concerns(r, FiledPatterns(r)[i])
  {
    var name := FiledPatterns(r)[i];
    MatchesItself(name);
    var n := if r.unless.Some? then |r.unless.value| else 0;
    if i < n {
      assert r.unless.value[i] == name;
    } else {
      assert r.events[i - n] == name;
    }
  }

  /** No two rules share an id. */
  ghost predicate OwnIds(rules: seq<Rule>) {
    forall i, j :: 0 <= i < j < |rules| ==> rules[i].id != rules[j].id
  }

  ghost predicate AlwaysOffered(idx: Index, r: Rule) {
    forall name :: Concerns(r, name) ==> r.id in Candidates(idx, name)
  }

  lemma OfferedWhenFiled(idx: Index, rules: seq<Rule>, i: nat, name: string)
    requires Indexes(idx, rules) && OwnIds(rules) && i < |rules|
    ensures rules[i].id in Candidates(idx, name)
       <==> [] in RuleKeys(rules[i]) || FirstSegment(name) in RuleKeys(rules[i])
  {
    CandidatesAre(idx, rules, name);
    assert forall key :: HasKey(rules, key, rules[i].id) <==> key in RuleKeys(rules[i]);
  }

  /** A rule is offered for every event that concerns it exactly when it is filed under every
      event or all the patterns it is filed under are safe. */
  lemma OfferedExactly(idx: Index, rules: seq<Rule>, i: nat)
    requires Indexes(idx, rules) && OwnIds(rules) && i < |rules|
    ensures AlwaysOffered(idx, rules[i]) <==> [] in RuleKeys(rules[i]) || AllSafe(FiledPatterns(rules[i]))
  {
    var r := rules[i];
    if [] in RuleKeys(r) {
      forall name ensures r.id in Candidates(idx, name) {
        OfferedWhenFiled(idx, rules, i, name);
      }
    } else if AllSafe(FiledPatterns(r)) {
      forall name | Concerns(r, name) ensures r.id in Candidates(idx, name) {
        IndexMissesNothing(idx, rules, i, name);
      }
    } else {
      var k :| 0 <= k < |FiledPatterns(r)| && !Safe(FiledPatterns(r)[k]);
      UnsafeIsMissed(r, k);
      OfferedWhenFiled(idx, rules, i, FiledPatterns(r)[k]);
    }
  }

  lemma OneKey(pattern: string)
    ensures KeysOf([pattern]) == [Key(pattern)]
  {
    assert [pattern][..0] == [];
  }

  lemma OrdersSegments()
    ensures Key("ord*") == "ord" && FirstSegment("orders.x") == "orders" && NameMatches("ord*", "orders.x")
  {
    SegmentIs("ord*", "ord*");
    assert "ord*"[..3] == "ord";
    TrimSame("ord");
    SegmentIs("orders.x", "orders");
  }

  /** The matcher takes `orders.x` for `ord*`; the index files the pattern under `ord`. */
  lemma OrdersMissed(idx: Index, r: Rule)
    requires Indexes(idx, [r]) && r.events == ["ord*"] && r.unless.None?
    ensures Concerns(r, "orders.x") && r.id !in Candidates(idx, "orders.x")
  {
    OrdersSegments();
    OneKey("ord*");
    assert NameMatches(r.events[0], "orders.x");
    OfferedWhenFiled(idx, [r], 0, "orders.x");
  }
}
