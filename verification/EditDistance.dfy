/** Suggestions for mistyped names: the two-row edit distance and the choice of the
    nearest candidate (crates/core/src/events.rs). */
module EditDistance {
  import opened Basics

  function Min(a: nat, b: nat): nat { if a < b then a else b }

  function Cost(a: char, b: char): nat { if a == b then 0 else 1 }

  // -- The distance ----------------------------------------------------------------

  /** The distance between the first `i` characters of `a` and the first `j` of `b`. */
  function Cell(a: string, b: string, i: nat, j: nat): nat
    requires i <= |a| && j <= |b|
    decreases i + j
  {
    if i == 0 then j
    else if j == 0 then i
    else Min(Min(Cell(a, b, i - 1, j - 1) + Cost(a[i - 1], b[j - 1]), Cell(a, b, i - 1, j) + 1),
             Cell(a, b, i, j - 1) + 1)
  }

  function Distance(a: string, b: string): nat {
    Cell(a, b, |a|, |b|)
  }

  /** The row holds, up to `upto`, the distances from the first `i` characters of `a` to
      the prefixes of `b`. */
  ghost predicate IsRow(row: array<nat>, a: string, b: string, i: nat, upto: nat)
    requires i <= |a| && upto <= |b| + 1 == row.Length
    reads row
  {
    forall j :: 0 <= j < upto ==> row[j] == Cell(a, b, i, j)
  }

  /** One turn of the outer loop: the row of one more character of `a`. */
  method NextRow(a: string, b: string, i: nat, prev: array<nat>, cur: array<nat>)
    requires i < |a| && prev != cur && prev.Length == cur.Length == |b| + 1
    requires IsRow(prev, a, b, i, |b| + 1)
    modifies cur
    ensures IsRow(cur, a, b, i + 1, |b| + 1)
  {
    cur[0] := i + 1;
    var j := 0;
    while j < |b|
      invariant 0 <= j <= |b|
      invariant IsRow(prev, a, b, i, |b| + 1) && IsRow(cur, a, b, i + 1, j + 1)
    {
      cur[j + 1] := Min(Min(prev[j] + Cost(a[i], b[j]), prev[j + 1] + 1), cur[j] + 1);
      j := j + 1;
    }
  }

  method Levenshtein(a: string, b: string) returns (d: nat)
    ensures d == Distance(a, b)
  {
    var n := |b|;
    var prev := new nat[n + 1](j => j);
    var cur := new nat[n + 1](_ => 0);
    var i := 0;
    while i < |a|
      invariant 0 <= i <= |a|
      invariant prev != cur && prev.Length == cur.Length == n + 1
      invariant fresh(prev) && fresh(cur)
      invariant IsRow(prev, a, b, i, n + 1)
    {
      NextRow(a, b, i, prev, cur);
      prev, cur := cur, prev;
      i := i + 1;
    }
    d := prev[n];
  }

  // -- What the distance means ---------------------------------------------------------

  /** One step of an edit script, read from left to right. */
  datatype Edit = Keep | Substitute(to: char) | Insert(added: char) | Delete

  /** Whether the script turns the first `i` characters of `a` into the first `j` of `b`. */
  ghost predicate TurnsPrefix(script: seq<Edit>, a: string, i: nat, b: string, j: nat)
    requires i <= |a| && j <= |b|
  {
    if script == [] then i == 0 && j == 0
    else
      var rest := script[..|script| - 1];
      match script[|script| - 1]
      case Keep => i > 0 && j > 0 && a[i - 1] == b[j - 1] && TurnsPrefix(rest, a, i - 1, b, j - 1)
      case Substitute(to) => i > 0 && j > 0 && to == b[j - 1] && TurnsPrefix(rest, a, i - 1, b, j - 1)
      case Insert(added) => j > 0 && added == b[j - 1] && TurnsPrefix(rest, a, i, b, j - 1)
      case Delete => i > 0 && TurnsPrefix(rest, a, i - 1, b, j)
  }

  ghost predicate Turns(script: seq<Edit>, a: string, b: string) {
    TurnsPrefix(script, a, |a|, b, |b|)
  }

  /** The number of edits: everything but keeping a character. */
  function Edits(script: seq<Edit>): nat {
    if script == [] then 0
    else Edits(script[..|script| - 1]) + if script[|script| - 1].Keep? then 0 else 1
  }

  lemma Appended(script: seq<Edit>, e: Edit)
    ensures (script + [e])[..|script|] == script
    ensures Edits(script + [e]) == Edits(script) + if e.Keep? then 0 else 1
  {
  }

  /** Some script needs no more edits than the distance. */
  lemma {:induction false} ScriptOfDistance(a: string, i: nat, b: string, j: nat) returns (script: seq<Edit>)
    requires i <= |a| && j <= |b|
    ensures TurnsPrefix(script, a, i, b, j) && Edits(script) == Cell(a, b, i, j)
    decreases i + j
  {
    var s, e := [], Delete;
    if i == 0 && j == 0 {
      return [];
    } else if i > 0 && j > 0 && Cell(a, b, i, j) == Cell(a, b, i - 1, j - 1) + Cost(a[i - 1], b[j - 1]) {
      s := ScriptOfDistance(a, i - 1, b, j - 1);
      e := if a[i - 1] == b[j - 1] then Keep else Substitute(b[j - 1]);
    } else if i > 0 && (j == 0 || Cell(a, b, i, j) == Cell(a, b, i - 1, j) + 1) {
      s := ScriptOfDistance(a, i - 1, b, j);
    } else {
      s := ScriptOfDistance(a, i, b, j - 1);
      e := Insert(b[j - 1]);
    }
    Appended(s, e);
    script := s + [e];
  }

  /** No script that turns `a` into `b` has fewer edits than the distance. */
  lemma {:induction false} NoShorterScript(script: seq<Edit>, a: string, i: nat, b: string, j: nat)
    requires i <= |a| && j <= |b| && TurnsPrefix(script, a, i, b, j)
    ensures Edits(script) >= Cell(a, b, i, j)
    decreases |script|
  {
    if script != [] {
      var rest := script[..|script| - 1];
      match script[|script| - 1]
      case Keep => NoShorterScript(rest, a, i - 1, b, j - 1);
      case Substitute(_) => NoShorterScript(rest, a, i - 1, b, j - 1);
      case Insert(_) => NoShorterScript(rest, a, i, b, j - 1);
      case Delete => NoShorterScript(rest, a, i - 1, b, j);
    }
  }

  /** The distance is the least number of edits that turn one string into the other. */
  lemma DistanceIsLeastEdits(a: string, b: string)
    ensures exists script :: Turns(script, a, b) && Edits(script) == Distance(a, b)
    ensures forall script :: Turns(script, a, b) ==> Distance(a, b) <= Edits(script)
  {
    var s := ScriptOfDistance(a, |a|, b, |b|);
    assert Turns(s, a, b);
    forall script | Turns(script, a, b) ensures Distance(a, b) <= Edits(script) {
      NoShorterScript(script, a, |a|, b, |b|);
    }
  }

  // -- A metric --------------------------------------------------------------------------

  lemma {:induction false} CellSymmetric(a: string, b: string, i: nat, j: nat)
    requires i <= |a| && j <= |b|
    ensures Cell(a, b, i, j) == Cell(b, a, j, i)
    decreases i + j
  {
    if i > 0 && j > 0 {
      CellSymmetric(a, b, i - 1, j - 1);
      CellSymmetric(a, b, i - 1, j);
      CellSymmetric(a, b, i, j - 1);
    }
  }

  lemma Symmetric(a: string, b: string)
    ensures Distance(a, b) == Distance(b, a)
  {
    CellSymmetric(a, b, |a|, |b|);
  }

  lemma {:induction false} CellZero(a: string, b: string, i: nat, j: nat)
    requires i <= |a| && j <= |b|
    ensures Cell(a, b, i, j) == 0 <==> a[..i] == b[..j]
    decreases i
  {
    if i > 0 && j > 0 {
      CellZero(a, b, i - 1, j - 1);
      SamePrefix(a, b, i, j);
    }
  }

  lemma SamePrefix(a: string, b: string, i: nat, j: nat)
    requires 0 < i <= |a| && 0 < j <= |b|
    ensures a[..i] == b[..j] <==> a[..i - 1] == b[..j - 1] && a[i - 1] == b[j - 1]
  {
    assert a[..i] == a[..i - 1] + [a[i - 1]] && b[..j] == b[..j - 1] + [b[j - 1]];
    if a[..i] == b[..j] {
      assert a[..i][..i - 1] == b[..j][..j - 1] && a[..i][i - 1] == b[..j][i - 1];
    }
  }

  lemma ZeroExactlyWhenEqual(a: string, b: string)
    ensures Distance(a, b) == 0 <==> a == b
  {
    CellZero(a, b, |a|, |b|);
    assert a[..|a|] == a && b[..|b|] == b;
  }

  /** Two scripts in a row make one that needs no more edits than both together. */
  lemma {:induction false} Compose(s: seq<Edit>, t: seq<Edit>, a: string, i: nat, b: string, j: nat, c: string, k: nat)
    returns (u: seq<Edit>)
    requires i <= |a| && j <= |b| && k <= |c| && TurnsPrefix(s, a, i, b, j) && TurnsPrefix(t, b, j, c, k)
    ensures TurnsPrefix(u, a, i, c, k) && Edits(u) <= Edits(s) + Edits(t)
    decreases |s| + |t|
  {
    if s == [] && t == [] {
      return [];
    }
    var r: seq<Edit>, e: Edit;
    if s != [] && s[|s| - 1].Delete? {
      r := Compose(s[..|s| - 1], t, a, i - 1, b, j, c, k);
      e := Delete;
    } else if t != [] && t[|t| - 1].Insert? {
      r := Compose(s, t[..|t| - 1], a, i, b, j, c, k - 1);
      e := Insert(c[k - 1]);
    } else if s[|s| - 1].Insert? && t[|t| - 1].Delete? {
      u := Compose(s[..|s| - 1], t[..|t| - 1], a, i, b, j - 1, c, k);
      return;
    } else if s[|s| - 1].Insert? {
      r := Compose(s[..|s| - 1], t[..|t| - 1], a, i, b, j - 1, c, k - 1);
      e := Insert(c[k - 1]);
    } else if t[|t| - 1].Delete? {
      r := Compose(s[..|s| - 1], t[..|t| - 1], a, i - 1, b, j - 1, c, k);
      e := Delete;
    } else {
      r := Compose(s[..|s| - 1], t[..|t| - 1], a, i - 1, b, j - 1, c, k - 1);
      e := if a[i - 1] == c[k - 1] then Keep else Substitute(c[k - 1]);
    }
    Appended(r, e);
    u := r + [e];
  }

  /** Going through a third string is never shorter. */
  lemma Triangle(a: string, b: string, c: string)
    ensures Distance(a, c) <= Distance(a, b) + Distance(b, c)
  {
    var s := ScriptOfDistance(a, |a|, b, |b|);
    var t := ScriptOfDistance(b, |b|, c, |c|);
    var u := Compose(s, t, a, |a|, b, |b|, c, |c|);
    NoShorterScript(u, a, |a|, c, |c|);
  }

  // -- The nearest candidate --------------------------------------------------------------

  function LowerChar(c: char): char {
    if 'A' <= c <= 'Z' then c + 32 as char else c
  }

  function Lowered(s: string): (out: string)
    ensures |out| == |s|
  {
    seq(|s|, i requires 0 <= i < |s| => LowerChar(s[i]))
  }

  /** The letter number `i` of the alphabet, capital or small. */
  predicate Letter(c: char, i: int) {
    0 <= i < 26 && (c as int == 0x41 + i || c as int == 0x61 + i)
  }

  ghost predicate SameLetter(x: char, y: char) {
    x == y || exists i :: Letter(x, i) && Letter(y, i)
  }

  /** Two names are the same in lower case exactly when they differ at most in the case of
      their letters. */
  lemma SameLowered(a: string, b: string)
    ensures Lowered(a) == Lowered(b) <==> |a| == |b| && forall i :: 0 <= i < |a| ==> SameLetter(a[i], b[i])
  {
    forall i | 0 <= i < |a| && i < |b|
      ensures SameLetter(a[i], b[i]) <==> Lowered(a)[i] == Lowered(b)[i]
    {
      SameCharLowered(a[i], b[i]);
    }
  }

  lemma SameCharLowered(x: char, y: char)
    ensures SameLetter(x, y) <==> LowerChar(x) == LowerChar(y)
  {
    var i := x as int - if 'A' <= x <= 'Z' then 0x41 else 0x61;
    if x != y && LowerChar(x) == LowerChar(y) {
      assert Letter(x, i) && Letter(y, i);
    }
  }

  /** The length in UTF-8. */
  function ByteLength(s: string): nat {
    if s == [] then 0
    else
      var c := s[0] as int;
      (if c < 0x80 then 1 else if c < 0x800 then 2 else if c < 0x10000 then 3 else 4) + ByteLength(s[1..])
  }

  /** What `n` bytes of UTF-8 can hold: seven bits in a single byte, else six in each
      following byte and what the length marker leaves in the first. */
  function Capacity(n: nat): nat {
    if n <= 1 then 0x80
    else if n == 2 then 0x20 * 0x40
    else if n == 3 then 0x10 * 0x40 * 0x40
    else 0x8 * 0x40 * 0x40 * 0x40
  }

  /** A character takes the fewest bytes that can hold it. */
  lemma BytesOfChar(c: char, n: nat)
    requires n == ByteLength([c])
    ensures 1 <= n <= 4 && c as int < Capacity(n)
    ensures forall m :: 1 <= m < n ==> Capacity(m) <= c as int
  {
    assert [c][1..] == [] && [c][0] == c;
    assert c as int < 0x11_0000;
  }

  lemma {:induction false} BytesAdd(a: string, b: string)
    ensures ByteLength(a + b) == ByteLength(a) + ByteLength(b)
  {
    if a == [] {
      assert a + b == b;
    } else {
      assert (a + b)[1..] == a[1..] + b;
      BytesAdd(a[1..], b);
    }
  }

  function Budget(name: string): nat {
    if |name| / 3 < 1 then 1 else |name| / 3
  }

  function DistanceTo(name: string, candidate: string): nat {
    Distance(Lowered(name), Lowered(candidate))
  }

  /** A candidate with its distance from the name and its own length. */
  datatype Scored = Scored(distance: nat, length: nat, candidate: string)

  function Scores(name: string, candidates: seq<string>): (scores: seq<Scored>)
    ensures |scores| == |candidates|
    ensures forall i :: 0 <= i < |candidates| ==>
              scores[i] == Scored(DistanceTo(name, candidates[i]), ByteLength(candidates[i]), candidates[i])
  {
    seq(|candidates|, i requires 0 <= i < |candidates| =>
      Scored(DistanceTo(name, candidates[i]), ByteLength(candidates[i]), candidates[i]))
  }

  /** Nearer, or as near and shorter. */
  predicate Better(x: Scored, y: Scored) {
    x.distance < y.distance || (x.distance == y.distance && x.length < y.length)
  }

  /** The first of the best within the budget. */
  function BestOf(scores: seq<Scored>, budget: nat): Option<Scored> {
    if scores == [] then None
    else
      var best, c := BestOf(scores[..|scores| - 1], budget), scores[|scores| - 1];
      if c.distance <= budget && (best.None? || Better(c, best.value)) then Some(c) else best
  }

  function Nearest(name: string, candidates: seq<string>): Option<string> {
    var best := BestOf(Scores(name, candidates), Budget(name));
    if best.None? then None else Some(best.value.candidate)
  }

  /** Entry `k` is within the budget, nothing within it is better, and everything within
      it that comes earlier is worse. */
  ghost predicate FirstBest(scores: seq<Scored>, budget: nat, k: nat) {
    && k < |scores| && scores[k].distance <= budget
    && (forall i :: 0 <= i < |scores| && scores[i].distance <= budget ==> !Better(scores[i], scores[k]))
    && forall i :: 0 <= i < k && scores[i].distance <= budget ==> Better(scores[k], scores[i])
  }

  lemma {:induction false} BestOfIsFirstBest(scores: seq<Scored>, budget: nat) returns (k: nat)
    ensures BestOf(scores, budget).None? ==> forall i :: 0 <= i < |scores| ==> scores[i].distance > budget
    ensures BestOf(scores, budget).Some? ==> FirstBest(scores, budget, k) && BestOf(scores, budget).value == scores[k]
  {
    k := 0;
    if scores != [] {
      var n := |scores| - 1;
      var front, c := scores[..n], scores[n];
      k := BestOfIsFirstBest(front, budget);
      var best := BestOf(front, budget);
      if c.distance <= budget && (best.None? || Better(c, best.value)) {
        k := n;
      }
    }
  }

  /** Within a third of the length of the name, or a single edit away. */
  predicate Near(name: string, candidate: string) {
    3 * DistanceTo(name, candidate) <= |name| || DistanceTo(name, candidate) <= 1
  }

  /** Candidate `x` is nearer than `y`, or as near and shorter. */
  predicate Beats(name: string, x: string, y: string) {
    || DistanceTo(name, x) < DistanceTo(name, y)
    || (DistanceTo(name, x) == DistanceTo(name, y) && ByteLength(x) < ByteLength(y))
  }

  /** Candidate `k` is near, no near one beats it, and it beats every near one before it. */
  ghost predicate Suggested(name: string, candidates: seq<string>, k: nat) {
    && k < |candidates| && Near(name, candidates[k])
    && forall i :: 0 <= i < |candidates| && Near(name, candidates[i]) ==>
         !Beats(name, candidates[i], candidates[k]) && (i < k ==> Beats(name, candidates[k], candidates[i]))
  }

  /** The suggestion is the earliest near candidate that no other near one beats; there is
      none exactly when no candidate is near. */
  lemma NearestIsFirstBest(name: string, candidates: seq<string>)
    ensures Nearest(name, candidates).None? <==> forall i :: 0 <= i < |candidates| ==> !Near(name, candidates[i])
    ensures Nearest(name, candidates).Some? ==>
              exists k: nat :: Suggested(name, candidates, k) && Nearest(name, candidates).value == candidates[k]
  {
    var scores := Scores(name, candidates);
    var k := BestOfIsFirstBest(scores, Budget(name));
    forall i | 0 <= i < |candidates| ensures Near(name, candidates[i]) <==> scores[i].distance <= Budget(name) {
    }
    if Nearest(name, candidates).Some? {
      assert Suggested(name, candidates, k);
    }
  }

  /** A name that differs from a candidate in the case of its letters only gets such a
      candidate suggested, whatever else is offered. */
  lemma ExactNameWins(name: string, candidates: seq<string>, k: nat)
    requires k < |candidates| && Lowered(candidates[k]) == Lowered(name)
    ensures Nearest(name, candidates).Some? && Lowered(Nearest(name, candidates).value) == Lowered(name)
  {
    ZeroExactlyWhenEqual(Lowered(name), Lowered(candidates[k]));
    var scores := Scores(name, candidates);
    assert scores[k].distance == 0;
    var j := BestOfIsFirstBest(scores, Budget(name));
    assert scores[j].distance == 0;
    ZeroExactlyWhenEqual(Lowered(name), Lowered(candidates[j]));
  }
}
