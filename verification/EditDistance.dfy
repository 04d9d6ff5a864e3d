/** Command corrections: the optimal-string-alignment distance behind
    "did you mean", and the search for the closest candidate.

    `Osa` is the recurrence the table is filled with; `Script` is the
    independent meaning of the distance: a list of edits that reads one
    string and writes the other. */
module EditDistance {
  import opened Numbers
  import opened Sequences
  import opened Text
  import opened Wrappers

  /** The last two characters of the two prefixes are each other's swap. */
  predicate Swapped(a: string, b: string, i: nat, j: nat)
    requires i <= |a| && j <= |b|
  {
    i > 1 && j > 1 && a[i - 1] == b[j - 2] && a[i - 2] == b[j - 1]
  }

  /** One table cell from its neighbours: above, left, diagonal, and two up
      and two left, which counts only for a swap. */
  function Cell(same: bool, swapped: bool, above: nat, before: nat, diagonal: nat, back: nat): nat {
    var plain := Min(Min(above + 1, before + 1), diagonal + if same then 0 else 1);
    if swapped then Min(plain, back + 1) else plain
  }

  /** Distance between the first `i` characters of `a` and the first `j` of `b`. */
  function Osa(a: string, b: string, i: nat, j: nat): nat
    requires i <= |a| && j <= |b|
    decreases i + j
  {
    if i == 0 then j
    else if j == 0 then i
    else
      var swapped := Swapped(a, b, i, j);
      Cell(a[i - 1] == b[j - 1], swapped,
           Osa(a, b, i - 1, j), Osa(a, b, i, j - 1), Osa(a, b, i - 1, j - 1),
           if swapped then Osa(a, b, i - 2, j - 2) else 0)
  }

  /** One unfolding of `Osa`, for proofs that hide the recursion. */
  lemma OsaStep(a: string, b: string, i: nat, j: nat)
    requires 0 < i <= |a| && 0 < j <= |b|
    ensures Osa(a, b, i, j) == Cell(a[i - 1] == b[j - 1], Swapped(a, b, i, j),
                                    Osa(a, b, i - 1, j), Osa(a, b, i, j - 1), Osa(a, b, i - 1, j - 1),
                                    if Swapped(a, b, i, j) then Osa(a, b, i - 2, j - 2) else 0)
  {
  }

  lemma OsaEdge(a: string, b: string, i: nat, j: nat)
    requires i <= |a| && j <= |b| && (i == 0 || j == 0)
    ensures Osa(a, b, i, j) == i + j
  {
  }

  function Distance(a: string, b: string): nat {
    Osa(a, b, |a|, |b|)
  }

  // ----- what the distance means: edit scripts

  datatype Edit =
    | Keep(c: char)
    | Substitute(from: char, to: char)
    | Insert(c: char)
    | Delete(c: char)
    | Swap(first: char, second: char)

  function Reads(e: Edit): string {
    match e
    case Keep(c) => [c]
    case Substitute(from, _) => [from]
    case Insert(_) => []
    case Delete(c) => [c]
    case Swap(x, y) => [x, y]
  }

  function Writes(e: Edit): string {
    match e
    case Keep(c) => [c]
    case Substitute(_, to) => [to]
    case Insert(c) => [c]
    case Delete(_) => []
    case Swap(x, y) => [y, x]
  }

  function EditCost(e: Edit): nat {
    if e.Keep? then 0 else 1
  }

  function Source(script: seq<Edit>): string {
    if script == [] then [] else Source(script[..|script| - 1]) + Reads(script[|script| - 1])
  }

  function Target(script: seq<Edit>): string {
    if script == [] then [] else Target(script[..|script| - 1]) + Writes(script[|script| - 1])
  }

  function Cost(script: seq<Edit>): nat {
    if script == [] then 0 else Cost(script[..|script| - 1]) + EditCost(script[|script| - 1])
  }

  ghost predicate Rewrites(script: seq<Edit>, a: string, b: string) {
    Source(script) == a && Target(script) == b
  }

  /** Osa looks only at the prefixes it is asked about. */
  lemma {:induction false} OsaPrefix(a: string, b: string, a': string, b': string, i: nat, j: nat)
    requires i <= |a| && j <= |b| && i <= |a'| && j <= |b'|
    requires a[..i] == a'[..i] && b[..j] == b'[..j]
    ensures Osa(a, b, i, j) == Osa(a', b', i, j)
    decreases i + j
  {
    hide Osa;
    if i == 0 || j == 0 {
      OsaEdge(a, b, i, j);
      OsaEdge(a', b', i, j);
    } else {
      OsaStep(a, b, i, j);
      OsaStep(a', b', i, j);
      forall k | 0 <= k < i ensures a[k] == a'[k] { assert a[..i][k] == a'[..i][k]; }
      forall k | 0 <= k < j ensures b[k] == b'[k] { assert b[..j][k] == b'[..j][k]; }
      OsaPrefix(a, b, a', b', i - 1, j);
      OsaPrefix(a, b, a', b', i, j - 1);
      OsaPrefix(a, b, a', b', i - 1, j - 1);
      if Swapped(a, b, i, j) {
        OsaPrefix(a, b, a', b', i - 2, j - 2);
      }
    }
  }

  /** Appending one edit moves the distance by at most its cost. */
  lemma OsaExtend(a: string, b: string, e: Edit)
    ensures Distance(a + Reads(e), b + Writes(e)) <= Distance(a, b) + EditCost(e)
  {
    hide Osa;
    var a', b' := a + Reads(e), b + Writes(e);
    var i, j := |a'|, |b'|;
    OsaPrefix(a, b, a', b', |a|, |b|);
    OsaBorders(a', b', i, j);
    if i > 0 && j > 0 {
      OsaStep(a', b', i, j);
    }
    if e.Swap? {
      OsaBorders(a', b', i - 1, j);
      assert a'[i - 2] == e.first && a'[i - 1] == e.second && b'[j - 2] == e.second && b'[j - 1] == e.first;
    }
  }

  /** Every neighbour bounds the cell, on the borders of the table too. */
  lemma OsaBorders(a: string, b: string, i: nat, j: nat)
    requires i <= |a| && j <= |b|
    ensures i > 0 ==> Osa(a, b, i, j) <= Osa(a, b, i - 1, j) + 1
    ensures j > 0 ==> Osa(a, b, i, j) <= Osa(a, b, i, j - 1) + 1
  {
  }

  /** No script that turns `a` into `b` is cheaper than the distance. */
  lemma {:induction false} DistanceIsLowerBound(script: seq<Edit>, a: string, b: string)
    requires Rewrites(script, a, b)
    ensures Distance(a, b) <= Cost(script)
    decreases |script|
  {
    if script != [] {
      var init, last := script[..|script| - 1], script[|script| - 1];
      DistanceIsLowerBound(init, Source(init), Target(init));
      OsaExtend(Source(init), Target(init), last);
    }
  }

  lemma SnocScript(script: seq<Edit>, e: Edit)
    ensures Source(script + [e]) == Source(script) + Reads(e)
    ensures Target(script + [e]) == Target(script) + Writes(e)
    ensures Cost(script + [e]) == Cost(script) + EditCost(e)
  {
    assert (script + [e])[..|script|] == script;
  }

  /** `e` is the last edit of some script between the two prefixes. */
  predicate Ends(e: Edit, a: string, b: string, i: nat, j: nat)
    requires i <= |a| && j <= |b|
  {
    match e
    case Keep(c) => i > 0 && j > 0 && a[i - 1] == c == b[j - 1]
    case Substitute(from, to) => i > 0 && j > 0 && a[i - 1] == from && b[j - 1] == to
    case Insert(c) => j > 0 && b[j - 1] == c
    case Delete(c) => i > 0 && a[i - 1] == c
    case Swap(x, y) => i > 1 && j > 1 && a[i - 2] == x == b[j - 1] && a[i - 1] == y == b[j - 2]
  }

  function Consumed(e: Edit): nat {
    match e case Insert(_) => 0 case Swap(_, _) => 2 case _ => 1
  }

  function Produced(e: Edit): nat {
    match e case Delete(_) => 0 case Swap(_, _) => 2 case _ => 1
  }

  /** The edit a filled cell came from. */
  lemma LastEdit(a: string, b: string, i: nat, j: nat) returns (e: Edit)
    requires i <= |a| && j <= |b| && i + j > 0
    ensures Ends(e, a, b, i, j)
    ensures Osa(a, b, i, j) == Osa(a, b, i - Consumed(e), j - Produced(e)) + EditCost(e)
  {
    hide Osa;
    if i == 0 {
      OsaEdge(a, b, i, j);
      OsaEdge(a, b, i, j - 1);
      return Insert(b[j - 1]);
    }
    if j == 0 {
      OsaEdge(a, b, i, j);
      OsaEdge(a, b, i - 1, j);
      return Delete(a[i - 1]);
    }
    OsaStep(a, b, i, j);
    var d := Osa(a, b, i, j);
    if Swapped(a, b, i, j) && d == Osa(a, b, i - 2, j - 2) + 1 {
      e := Swap(a[i - 2], a[i - 1]);
    } else if d == Osa(a, b, i - 1, j) + 1 {
      e := Delete(a[i - 1]);
    } else if d == Osa(a, b, i, j - 1) + 1 {
      e := Insert(b[j - 1]);
    } else if a[i - 1] == b[j - 1] {
      e := Keep(a[i - 1]);
    } else {
      e := Substitute(a[i - 1], b[j - 1]);
    }
  }

  lemma EndsExtends(e: Edit, a: string, b: string, i: nat, j: nat)
    requires i <= |a| && j <= |b| && Ends(e, a, b, i, j)
    ensures a[..i] == a[..i - Consumed(e)] + Reads(e)
    ensures b[..j] == b[..j - Produced(e)] + Writes(e)
  {
  }

  /** Some script reaches the distance. */
  lemma {:induction false} DistanceIsReached(a: string, b: string, i: nat, j: nat) returns (script: seq<Edit>)
    requires i <= |a| && j <= |b|
    ensures Rewrites(script, a[..i], b[..j]) && Cost(script) == Osa(a, b, i, j)
    decreases i + j
  {
    hide Osa;
    if i + j == 0 {
      OsaEdge(a, b, i, j);
      return [];
    }
    var e := LastEdit(a, b, i, j);
    var init := DistanceIsReached(a, b, i - Consumed(e), j - Produced(e));
    EndsExtends(e, a, b, i, j);
    SnocScript(init, e);
    script := init + [e];
  }

  /** The distance is the least cost of any script from `a` to `b`. */
  lemma DistanceIsLeastCost(a: string, b: string)
    ensures exists script :: Rewrites(script, a, b) && Cost(script) == Distance(a, b)
    ensures forall script :: Rewrites(script, a, b) ==> Distance(a, b) <= Cost(script)
  {
    var best := DistanceIsReached(a, b, |a|, |b|);
    assert a[..|a|] == a && b[..|b|] == b;
    forall script | Rewrites(script, a, b) ensures Distance(a, b) <= Cost(script) {
      DistanceIsLowerBound(script, a, b);
    }
  }

  // ----- laws of the distance

  lemma {:induction false} OsaSymmetric(a: string, b: string, i: nat, j: nat)
    requires i <= |a| && j <= |b|
    ensures Osa(a, b, i, j) == Osa(b, a, j, i)
    decreases i + j
  {
    hide Osa;
    if i == 0 || j == 0 {
      OsaEdge(a, b, i, j);
      OsaEdge(b, a, j, i);
    } else {
      OsaStep(a, b, i, j);
      OsaStep(b, a, j, i);
      OsaSymmetric(a, b, i - 1, j);
      OsaSymmetric(a, b, i, j - 1);
      OsaSymmetric(a, b, i - 1, j - 1);
      if Swapped(a, b, i, j) {
        OsaSymmetric(a, b, i - 2, j - 2);
      }
    }
  }

  lemma {:induction false} OsaBounds(a: string, b: string, i: nat, j: nat)
    requires i <= |a| && j <= |b|
    ensures i - j <= Osa(a, b, i, j) && j - i <= Osa(a, b, i, j) <= Max(i, j)
    decreases i + j
  {
    hide Osa;
    if i == 0 || j == 0 {
      OsaEdge(a, b, i, j);
    } else {
      OsaStep(a, b, i, j);
      OsaBounds(a, b, i - 1, j);
      OsaBounds(a, b, i, j - 1);
      OsaBounds(a, b, i - 1, j - 1);
      if Swapped(a, b, i, j) {
        OsaBounds(a, b, i - 2, j - 2);
      }
    }
  }

  lemma {:induction false} OsaZero(a: string, b: string, i: nat, j: nat)
    requires i <= |a| && j <= |b|
    ensures Osa(a, b, i, j) == 0 <==> a[..i] == b[..j]
    decreases i + j
  {
    hide Osa;
    OsaBounds(a, b, i, j);
    if i == 0 || j == 0 {
      OsaEdge(a, b, i, j);
    } else {
      OsaStep(a, b, i, j);
      OsaBounds(a, b, i - 1, j);
      OsaBounds(a, b, i, j - 1);
      OsaZero(a, b, i - 1, j - 1);
      assert a[..i] == a[..i - 1] + [a[i - 1]] && b[..j] == b[..j - 1] + [b[j - 1]];
    }
  }

  /** Symmetric, zero exactly on equal strings, between the length
      difference and the longer length. */
  lemma DistanceLaws(a: string, b: string)
    ensures Distance(a, b) == Distance(b, a)
    ensures Distance(a, b) == 0 <==> a == b
    ensures |a| - |b| <= Distance(a, b) && |b| - |a| <= Distance(a, b) <= Max(|a|, |b|)
  {
    OsaSymmetric(a, b, |a|, |b|);
    OsaZero(a, b, |a|, |b|);
    OsaBounds(a, b, |a|, |b|);
    assert a[..|a|] == a && b[..|b|] == b;
  }

  /** Why it is not called a metric: the triangle through "ac" is broken. */
  lemma TriangleFails()
    ensures Distance("ca", "abc") > Distance("ca", "ac") + Distance("ac", "abc")
  {
    var a, b, c := "ca", "ac", "abc";
    assert Rewrites([Swap('c', 'a')], a, b) && Cost([Swap('c', 'a')]) == 1;
    DistanceIsLowerBound([Swap('c', 'a')], a, b);
    var ins := [Keep('a'), Insert('b'), Keep('c')];
    assert ins[..2] == [Keep('a'), Insert('b')] && ins[..1] == [Keep('a')] && ins[..2][..1] == ins[..1];
    assert Source(ins) == b && Target(ins) == c && Cost(ins) == 1;
    DistanceIsLowerBound(ins, b, c);
    assert Osa(a, c, 1, 1) == 1 && Osa(a, c, 1, 2) == 2 && Osa(a, c, 1, 3) == 2;
    assert Osa(a, c, 2, 1) == 1 && Osa(a, c, 2, 2) == 2;
  }

  predicate NoSwaps(script: seq<Edit>) {
    forall i :: 0 <= i < |script| ==> !script[i].Swap?
  }

  /** What an edit that writes one character and an edit that reads it do
      together. */
  function Combined(first: Edit, second: Edit): seq<Edit>
    requires first.Keep? || first.Substitute? || first.Insert?
    requires second.Keep? || second.Substitute? || second.Delete?
  {
    match (first, second)
    case (Keep(_), _) => [second]
    case (_, Keep(_)) => [first]
    case (Substitute(x, _), Substitute(_, y)) => [Substitute(x, y)]
    case (Substitute(x, _), _) => [Delete(x)]
    case (_, Substitute(_, y)) => [Insert(y)]
    case _ => []
  }

  lemma CombinedIs(first: Edit, second: Edit)
    requires first.Keep? || first.Substitute? || first.Insert?
    requires second.Keep? || second.Substitute? || second.Delete?
    requires Writes(first) == Reads(second)
    ensures var both := Combined(first, second);
      && Source(both) == Reads(first) && Target(both) == Writes(second)
      && Cost(both) <= EditCost(first) + EditCost(second)
  {
    hide Source, Target, Cost;
    var both := Combined(first, second);
    if both == [] {
      EmptyScript();
    } else {
      OneEdit(both[0]);
      assert both == [both[0]];
    }
  }

  lemma OneEdit(e: Edit)
    ensures Source([e]) == Reads(e) && Target([e]) == Writes(e) && Cost([e]) == EditCost(e)
  {
    hide Reads, Writes, EditCost;
    EmptyScript();
    assert [e][..0] == [];
  }

  /** Script after script, when nothing is swapped: one script of no more cost. */
  lemma {:induction false} Compose(first: seq<Edit>, second: seq<Edit>) returns (script: seq<Edit>)
    requires NoSwaps(first) && NoSwaps(second) && Target(first) == Source(second)
    ensures Source(script) == Source(first) && Target(script) == Target(second)
    ensures Cost(script) <= Cost(first) + Cost(second)
    decreases |first| + |second|
  {
    hide Combined, EditCost;
    if first != [] && first[|first| - 1].Delete? {
      var rest := Compose(first[..|first| - 1], second);
      script := rest + [first[|first| - 1]];
      SnocScript(rest, first[|first| - 1]);
    } else if second != [] && second[|second| - 1].Insert? {
      var rest := Compose(first, second[..|second| - 1]);
      script := rest + [second[|second| - 1]];
      SnocScript(rest, second[|second| - 1]);
    } else if first == [] || second == [] {
      assert first == [] && second == [];
      script := [];
    } else {
      var e, f := first[|first| - 1], second[|second| - 1];
      SameEnds(Target(first[..|first| - 1]), Writes(e), Source(second[..|second| - 1]), Reads(f));
      var rest := Compose(first[..|first| - 1], second[..|second| - 1]);
      CombinedIs(e, f);
      script := rest + Combined(e, f);
      JoinScripts(rest, Combined(e, f));
    }
  }

  lemma SameEnds(a: string, x: string, b: string, y: string)
    requires a + x == b + y && |x| == |y| == 1
    ensures a == b && x == y
  {
    assert (a + x)[..|a|] == a && (b + y)[..|b|] == b;
    assert (a + x)[|a|] == x[0] && (b + y)[|b|] == y[0];
  }

  lemma {:induction false} JoinScripts(first: seq<Edit>, second: seq<Edit>)
    ensures Source(first + second) == Source(first) + Source(second)
    ensures Target(first + second) == Target(first) + Target(second)
    ensures Cost(first + second) == Cost(first) + Cost(second)
    decreases |second|
  {
    EmptyScript();
    hide *;
    if second == [] {
      assert first + second == first;
    } else {
      var init, last := second[..|second| - 1], second[|second| - 1];
      assert second == init + [last];
      JoinScripts(first, init);
      Associate(first, init, [last]);
      SnocScript(first + init, last);
      SnocScript(init, last);
      Associate(Source(first), Source(init), Reads(last));
      Associate(Target(first), Target(init), Writes(last));
    }
  }

  lemma EmptyScript()
    ensures Source([]) == [] && Target([]) == [] && Cost([]) == 0
  {
  }

  /** The distance comes of a script without swaps. */
  ghost predicate ReachedWithoutSwaps(a: string, b: string) {
    exists script :: NoSwaps(script) && Rewrites(script, a, b) && Cost(script) == Distance(a, b)
  }

  /** The triangle inequality holds wherever the two shorter ways need no swap. */
  lemma TriangleWithoutSwaps(a: string, b: string, c: string)
    requires ReachedWithoutSwaps(a, b) && ReachedWithoutSwaps(b, c)
    ensures Distance(a, c) <= Distance(a, b) + Distance(b, c)
  {
    hide Distance, Source, Target, Cost;
    var first :| NoSwaps(first) && Rewrites(first, a, b) && Cost(first) == Distance(a, b);
    var second :| NoSwaps(second) && Rewrites(second, b, c) && Cost(second) == Distance(b, c);
    var script := Compose(first, second);
    DistanceIsLowerBound(script, a, c);
  }

  // ----- the table

  /** The dynamic program: one row per character of `left`, filled in place. */
  method ComputeDistance(left: string, right: string) returns (d: nat)
    ensures d == Distance(left, right)
  {
    hide Osa;
    var rows, cols := |left|, |right|;
    var table := new nat[rows + 1, cols + 1]((_, _) => 0);
    for i := 0 to rows + 1
      invariant forall p :: 0 <= p < i ==> table[p, 0] == p
    {
      table[i, 0] := i;
    }
    for j := 0 to cols + 1
      invariant forall p :: 0 <= p <= rows ==> table[p, 0] == p
      invariant forall q :: 0 <= q < j ==> table[0, q] == q
    {
      table[0, j] := j;
    }
    forall p, q | 0 <= p <= rows && 0 <= q <= cols && (p == 0 || q == 0)
      ensures Osa(left, right, p, q) == p + q
    {
      OsaEdge(left, right, p, q);
    }
    for i := 1 to rows + 1
      invariant forall p, q :: 0 <= p <= rows && 0 <= q <= cols && (p < i || q == 0) ==>
        table[p, q] == Osa(left, right, p, q)
    {
      for j := 1 to cols + 1
        invariant forall p, q :: 0 <= p <= rows && 0 <= q <= cols && (p < i || q == 0 || (p == i && q < j)) ==>
          table[p, q] == Osa(left, right, p, q)
      {
        OsaStep(left, right, i, j);
        var cost := if left[i - 1] != right[j - 1] then 1 else 0;
        table[i, j] := Min(Min(table[i - 1, j] + 1, table[i, j - 1] + 1), table[i - 1, j - 1] + cost);
        if i > 1 && j > 1 && left[i - 1] == right[j - 2] && left[i - 2] == right[j - 1] {
          table[i, j] := Min(table[i, j], table[i - 2, j - 2] + 1);
        }
      }
    }
    d := table[rows, cols];
  }

  // ----- the closest candidate

  /** Bytes a string takes in UTF-8: the length Rust's `len` reports. */
  function Utf8Length(s: string): nat {
    if s == [] then 0
    else
      var c := s[0] as int;
      (if c < 0x80 then 1 else if c < 0x800 then 2 else if c < 0x1_0000 then 3 else 4) + Utf8Length(s[1..])
  }

  lemma {:induction false} Utf8LengthAdds(a: string, b: string)
    ensures Utf8Length(a + b) == Utf8Length(a) + Utf8Length(b)
  {
    if a == [] {
      assert a + b == b;
    } else {
      Utf8LengthAdds(a[1..], b);
      assert (a + b)[1..] == a[1..] + b;
    }
  }

  /** The bits of a code point that so many bytes hold (section 3 of RFC 3629). */
  function BitsIn(bytes: nat): nat
    requires bytes > 0
  {
    if bytes == 1 then 7 else 5 * bytes + 1
  }

  /** A character takes the fewest bytes that hold its code point. */
  lemma FewestBytes(c: char)
    ensures var n := Utf8Length([c]);
      && 1 <= n <= 4 && c as int < Power2(BitsIn(n)) && (n > 1 ==> Power2(BitsIn(n - 1)) <= c as int)
  {
    assert Power2(7) == 0x80 && Power2(11) == 0x800 by {
      assert Power2(4) == 16;
      assert Power2(8) == 256;
    }
    assert Power2(16) == 0x1_0000 by {
      assert Power2(13) == 4 * Power2(11);
    }
    assert Power2(21) == 0x20_0000 by {
      assert Power2(18) == 4 * Power2(16);
    }
    assert [c][1..] == [];
  }

  /** Strictly better: fewer edits, then fewer bytes, then the earlier name. */
  predicate Better(word: string, c: string, d: string) {
    var dc, dd := Distance(word, c), Distance(word, d);
    dc < dd || (dc == dd && (Utf8Length(c) < Utf8Length(d) || (Utf8Length(c) == Utf8Length(d) && Before(c, d))))
  }

  predicate Eligible(word: string, c: string, max: nat) {
    c != word && Distance(word, c) <= max
  }

  /** The best of the candidates within `max` edits; nothing only when no
      candidate qualifies. Equal names are the only ties. */
  method Closest(word: string, candidates: seq<string>, max: nat) returns (best: Option<string>)
    ensures best.None? <==> forall c :: c in candidates ==> !Eligible(word, c, max)
    ensures best.Some? ==> best.value in candidates && Eligible(word, best.value, max)
    ensures best.Some? ==>
      forall c :: c in candidates && Eligible(word, c, max) && c != best.value ==> Better(word, best.value, c)
    ensures best.Some? ==> best.value != word && Distance(word, best.value) <= max
    ensures best.Some? ==>
      var d := Distance(word, best.value);
      forall c :: c in candidates && c != word && c != best.value ==>
        || d < Distance(word, c)
        || (d == Distance(word, c) && Utf8Length(best.value) < Utf8Length(c))
        || (d == Distance(word, c) && Utf8Length(best.value) == Utf8Length(c) && Before(best.value, c))
  {
    best := None;
    var bd := 0;
    for i := 0 to |candidates|
      invariant best.None? ==> forall c :: c in candidates[..i] ==> !Eligible(word, c, max)
      invariant best.Some? ==> best.value in candidates[..i] && Eligible(word, best.value, max)
      invariant best.Some? ==> bd == Distance(word, best.value)
      invariant best.Some? ==>
        forall c :: c in candidates[..i] && Eligible(word, c, max) && c != best.value ==> Better(word, best.value, c)
    {
      var c := candidates[i];
      assert candidates[..i + 1] == candidates[..i] + [c];
      if c == word {
        continue;
      }
      var d := ComputeDistance(word, c);
      if d <= max {
        if best.None? {
          best, bd := Some(c), d;
        } else {
          var bc := best.value;
          BeforeIsTotalOrder(c, bc, c);
          var n, bn := Utf8Length(c), Utf8Length(bc);
          if d < bd || (d == bd && (n < bn || (n == bn && Before(c, bc)))) {
            assert Better(word, c, bc);
            forall o | o in candidates[..i + 1] && Eligible(word, o, max) && o != c
              ensures Better(word, c, o)
            {
              if o != bc {
                assert Better(word, bc, o);
                BeforeIsTotalOrder(c, bc, o);
              }
            }
            best, bd := Some(c), d;
          }
        }
      }
    }
    assert candidates[..|candidates|] == candidates;
  }
}
