/** Redaction: rule matches replaced from the right, in place, and then every
    random-looking word replaced by a placeholder.

    Matching a rule and estimating entropy are not part of this model: a rule
    comes as the spans it finds, the estimate as a predicate on the word. */
module Redact {
  import opened Sequences
  import opened Strings
  import opened Wrappers

  type Span = (nat, nat)

  // ----- replacing spans

  /** In order, apart, and within the text from `from` on. */
  predicate Ordered(spans: seq<Span>, from: nat, length: nat) {
    if spans == [] then from <= length
    else from <= spans[0].0 <= spans[0].1 && Ordered(spans[1..], spans[0].1, length)
  }

  /** The text around the spans, piece by piece. */
  function Around(text: string, spans: seq<Span>, from: nat): (pieces: seq<string>)
    requires Ordered(spans, from, |text|)
    ensures |pieces| == |spans| + 1
  {
    if spans == [] then [text[from..]]
    else
      OrderedFits(spans, from, |text|);
      [text[from..spans[0].0]] + Around(text, spans[1..], spans[0].1)
  }

  lemma {:induction false} OrderedFits(spans: seq<Span>, from: nat, length: nat)
    requires Ordered(spans, from, length)
    ensures from <= length && forall i :: 0 <= i < |spans| ==> from <= spans[i].0 <= spans[i].1 <= length
  {
    if spans != [] {
      OrderedFits(spans[1..], spans[0].1, length);
    }
  }

  lemma AroundFirst(text: string, spans: seq<Span>, from: nat, placeholder: string)
    requires spans != [] && Ordered(spans, from, |text|)
    ensures from <= spans[0].0 <= |text|
    ensures Join(Around(text, spans, from), placeholder) ==
      text[from..spans[0].0] + placeholder + Join(Around(text, spans[1..], spans[0].1), placeholder)
  {
    OrderedFits(spans, from, |text|);
    var first, rest := [text[from..spans[0].0]], Around(text, spans[1..], spans[0].1);
    assert (first + rest)[1..] == rest;
  }

  /** Replacing one more span, with those to its right already replaced: what is
      to its left has not moved. */
  lemma ReplaceOne(text: string, spans: seq<Span>, from: nat, placeholder: string, out: string)
    requires spans != [] && Ordered(spans, from, |text|) && spans[0].1 <= |text|
    requires out == text[..spans[0].1] + Join(Around(text, spans[1..], spans[0].1), placeholder)
    ensures out[..spans[0].0] + placeholder + out[spans[0].1..] ==
      text[..from] + Join(Around(text, spans, from), placeholder)
  {
    hide Around, Join;
    AroundFirst(text, spans, from, placeholder);
    var s, e := spans[0].0, spans[0].1;
    assert out[..s] == text[..s] && out[e..] == Join(Around(text, spans[1..], e), placeholder);
    assert text[..s] == text[..from] + text[from..s];
  }

  /** Where the span before the k-th ends. */
  function EndBefore(spans: seq<Span>, k: nat): nat
    requires k <= |spans|
  {
    if k == 0 then 0 else spans[k - 1].1
  }

  lemma RestIsOrdered(spans: seq<Span>, k: nat, length: nat)
    requires Ordered(spans, 0, length) && k <= |spans|
    ensures Ordered(spans[k..], EndBefore(spans, k), length)
    ensures EndBefore(spans, k) <= length
  {
    if k == 0 {
      assert spans[0..] == spans;
    } else {
      OrderedTail(spans, 0, k - 1, length);
      assert spans[k - 1..][1..] == spans[k..];
    }
    OrderedFits(spans[k..], EndBefore(spans, k), length);
  }

  /** Going through the spans from the right, each replaced in place, leaves the
      text around them with a placeholder between the pieces: as if all had been
      replaced at once. */
  method ReplaceSpans(text: string, spans: seq<Span>, placeholder: string) returns (out: string, replacements: nat)
    requires Ordered(spans, 0, |text|)
    ensures out == Join(Around(text, spans, 0), placeholder) && replacements == |spans|
  {
    out, replacements := text, 0;
    var k := |spans|;
    RestIsOrdered(spans, k, |text|);
    assert spans[k..] == [];
    assert text == text[..EndBefore(spans, k)] + text[EndBefore(spans, k)..];
    hide Around, Join, Ordered;
    while k > 0
      invariant 0 <= k <= |spans| && replacements == |spans| - k
      invariant Ordered(spans[k..], EndBefore(spans, k), |text|) && EndBefore(spans, k) <= |text|
      invariant out == text[..EndBefore(spans, k)] + Join(Around(text, spans[k..], EndBefore(spans, k)), placeholder)
    {
      k := k - 1;
      RestIsOrdered(spans, k, |text|);
      assert spans[k..][0] == spans[k] && spans[k..][1..] == spans[k + 1..];
      OrderedFits(spans[k..], EndBefore(spans, k), |text|);
      ReplaceOne(text, spans[k..], EndBefore(spans, k), placeholder, out);
      out := out[..spans[k].0] + placeholder + out[spans[k].1..];
      replacements := replacements + 1;
    }
    assert spans[0..] == spans && text[..0] == "";
  }

  lemma {:induction false} OrderedTail(spans: seq<Span>, from: nat, k: nat, length: nat)
    requires Ordered(spans, from, length) && k < |spans|
    ensures Ordered(spans[k..], spans[k].0, length)
    decreases k
  {
    if k > 0 {
      OrderedTail(spans[1..], spans[0].1, k - 1, length);
      assert spans[1..][k - 1..] == spans[k..];
    }
  }

  /** The pieces kept are the text between one span and the next. */
  lemma {:induction false} PiecesAre(text: string, spans: seq<Span>, from: nat, k: nat)
    requires Ordered(spans, from, |text|) && k <= |spans|
    ensures var start := if k == 0 then from else spans[k - 1].1;
      var end := if k == |spans| then |text| else spans[k].0;
      start <= end <= |text| && Around(text, spans, from)[k] == text[start..end]
    decreases k
  {
    OrderedFits(spans, from, |text|);
    if k > 0 {
      PiecesAre(text, spans[1..], spans[0].1, k - 1);
    }
  }

  // ----- random-looking words

  const TRIMMED := ",.;)]}>'\""
  const PLACEHOLDER := "[REDACTED:entropy]"

  predicate IsTrimmed(c: char) {
    c in TRIMMED
  }

  /** How many characters to trim at the front. */
  function Lead(w: string): (k: nat)
    ensures k <= |w|
    ensures forall i :: 0 <= i < k ==> IsTrimmed(w[i])
    ensures k < |w| ==> !IsTrimmed(w[k])
  {
    if w == "" || !IsTrimmed(w[0]) then 0 else 1 + Lead(w[1..])
  }

  /** Where the trimming at the back begins. */
  function Tail(w: string): (k: nat)
    ensures k <= |w|
    ensures forall i :: k <= i < |w| ==> IsTrimmed(w[i])
    ensures k > 0 ==> !IsTrimmed(w[k - 1])
  {
    if w == "" || !IsTrimmed(w[|w| - 1]) then |w| else Tail(w[..|w| - 1])
  }

  function Core(w: string): string {
    if Lead(w) <= Tail(w) then w[Lead(w)..Tail(w)] else ""
  }

  predicate Symbol(c: char) { c in "+/=-_." }

  function Slashes(t: string): nat {
    if t == "" then 0 else Slashes(t[..|t| - 1]) + if t[|t| - 1] == '/' then 1 else 0
  }

  function One(b: bool): nat {
    if b then 1 else 0
  }

  /** How many of the four classes of characters occur. */
  function Classes(t: string): nat {
    One(Occurs(t, IsUpper)) + One(Occurs(t, IsLower)) + One(Occurs(t, IsDigit)) + One(Occurs(t, Symbol))
  }

  predicate Occurs(t: string, kind: char -> bool) {
    exists i :: 0 <= i < |t| && kind(t[i])
  }

  lemma OccursSnoc(t: string, c: char, kind: char -> bool)
    ensures Occurs(t + [c], kind) <==> Occurs(t, kind) || kind(c)
  {
    var all := t + [c];
    if Occurs(t, kind) {
      var i :| 0 <= i < |t| && kind(t[i]);
      assert kind(all[i]);
    }
    assert all[|t|] == c;
  }

  /** Only characters of the four classes. */
  predicate Plain(t: string) {
    forall i :: 0 <= i < |t| ==> IsPlain(t[i])
  }

  /** Long enough, and no link or path. */
  predicate Long(t: string) {
    |t| >= 32 && !("http" <= t) && t[0] != '/' && t[0] != '~'
  }

  /** A credential shape: long, of these characters only, of three classes or
      more, not a path or a link, and dense enough by `entropic`. */
  predicate Random(w: string, entropic: string -> bool) {
    var t := Core(w);
    && Long(t) && Plain(t) && Classes(t) >= 3 && Slashes(t) <= 3 && entropic(t)
  }

  lemma {:induction false} SlashesAreCounted(t: string)
    ensures Slashes(t) == multiset(t)['/']
  {
    if t != "" {
      SlashesAreCounted(t[..|t| - 1]);
      assert t == t[..|t| - 1] + [t[|t| - 1]];
    }
  }

  ghost predicate Has(t: string, low: char, high: char) {
    exists c :: c in t && low <= c <= high
  }

  lemma OccursIs(t: string)
    ensures Occurs(t, IsUpper) <==> Has(t, 'A', 'Z')
    ensures Occurs(t, IsLower) <==> Has(t, 'a', 'z')
    ensures Occurs(t, IsDigit) <==> Has(t, '0', '9')
    ensures Occurs(t, Symbol) <==> exists c :: c in t && c in {'+', '/', '=', '-', '_', '.'}
  {
    MemberOccurs(t, IsUpper);
    MemberOccurs(t, IsLower);
    MemberOccurs(t, IsDigit);
    MemberOccurs(t, Symbol);
    hide Occurs;
    forall c ensures Symbol(c) <==> c in {'+', '/', '=', '-', '_', '.'} {
      Signs(c);
    }
  }

  lemma Signs(c: char)
    ensures Symbol(c) <==> c in {'+', '/', '=', '-', '_', '.'}
  {
    assert "+/=-_." == ['+', '/', '=', '-', '_', '.'];
  }

  lemma MemberOccurs(t: string, kind: char -> bool)
    ensures Occurs(t, kind) <==> exists c :: c in t && kind(c)
  {
    if i :| 0 <= i < |t| && kind(t[i]) {
      assert t[i] in t;
    }
    if c :| c in t && kind(c) {
      var i :| 0 <= i < |t| && t[i] == c;
    }
  }

  /** A word looks random exactly when what is left of it, without the punctuation
      around it, has 32 characters or more, is no link and no path, consists of
      letters, digits and six signs, lacks at most one of upper case, lower case,
      digits and signs, has three slashes at most, and is dense. */
  lemma RandomExactlyWhen(w: string, entropic: string -> bool)
    ensures var t := Core(w);
      var upper, lower, digit := Has(t, 'A', 'Z'), Has(t, 'a', 'z'), Has(t, '0', '9');
      var sign := exists c :: c in t && c in {'+', '/', '=', '-', '_', '.'};
      Random(w, entropic) <==>
        && |t| >= 32 && !("http" <= t) && !("/" <= t) && !("~" <= t)
        && (forall c :: c in t ==>
              'A' <= c <= 'Z' || 'a' <= c <= 'z' || '0' <= c <= '9' || c in {'+', '/', '=', '-', '_', '.'})
        && (upper || lower) && (upper || digit) && (upper || sign)
        && (lower || digit) && (lower || sign) && (digit || sign)
        && multiset(t)['/'] <= 3 && entropic(t)
  {
    var t := Core(w);
    OccursIs(t);
    SlashesAreCounted(t);
    PlainIs(t);
    LongIs(t);
    hide Core, Occurs, Has, Plain, Long, Slashes;
  }

  lemma PlainIs(t: string)
    ensures Plain(t) <==> forall c :: c in t ==>
      'A' <= c <= 'Z' || 'a' <= c <= 'z' || '0' <= c <= '9' || c in {'+', '/', '=', '-', '_', '.'}
  {
    hide Symbol;
    forall c ensures Symbol(c) <==> c in {'+', '/', '=', '-', '_', '.'} {
      Signs(c);
    }
    assert forall i :: 0 <= i < |t| ==> t[i] in t;
  }

  lemma LongIs(t: string)
    ensures Long(t) <==> |t| >= 32 && !("http" <= t) && !("/" <= t) && !("~" <= t)
  {
  }

  /** What the loop knows of the text it has seen. */
  datatype Tally = Tally(upper: bool, lower: bool, digit: bool, symbol: bool, slashes: nat)

  function TallyOf(t: string): Tally {
    Tally(Occurs(t, IsUpper), Occurs(t, IsLower), Occurs(t, IsDigit), Occurs(t, Symbol), Slashes(t))
  }

  function Counted(a: Tally, c: char): Tally {
    var slashes := a.slashes + if c == '/' then 1 else 0;
    if IsUpper(c) then Tally(true, a.lower, a.digit, a.symbol, slashes)
    else if IsLower(c) then Tally(a.upper, true, a.digit, a.symbol, slashes)
    else if IsDigit(c) then Tally(a.upper, a.lower, true, a.symbol, slashes)
    else Tally(a.upper, a.lower, a.digit, true, slashes)
  }

  predicate IsPlain(c: char) {
    IsUpper(c) || IsLower(c) || IsDigit(c) || Symbol(c)
  }

  lemma TallySnoc(t: string, c: char)
    requires IsPlain(c)
    ensures TallyOf(t + [c]) == Counted(TallyOf(t), c)
  {
    OccursSnoc(t, c, IsUpper);
    OccursSnoc(t, c, IsLower);
    OccursSnoc(t, c, IsDigit);
    OccursSnoc(t, c, Symbol);
    assert (t + [c])[..|t|] == t;
    hide Occurs;
  }

  lemma TallyNothing()
    ensures TallyOf("") == Tally(false, false, false, false, 0)
  {
  }

  /** The loop over the characters; it stops at one of no class. */
  method Count(t: string) returns (plain: bool, tally: Tally)
    ensures plain == Plain(t)
    ensures plain ==> tally == TallyOf(t)
  {
    var upper, lower, digit, symbol := false, false, false, false;
    var slashes := 0;
    TallyNothing();
    assert Plain(t[..0]);
    hide TallyOf, IsUpper, IsLower, IsDigit, Symbol, Plain;
    for i := 0 to |t|
      invariant TallyOf(t[..i]) == Tally(upper, lower, digit, symbol, slashes)
      invariant Plain(t[..i])
    {
      var c := t[i];
      assert t[..i + 1] == t[..i] + [c];
      PlainSnoc(t, i);
      if IsPlain(c) {
        TallySnoc(t[..i], c);
      }
      if IsUpper(c) {
        upper := true;
      } else if IsLower(c) {
        lower := true;
      } else if IsDigit(c) {
        digit := true;
      } else if Symbol(c) {
        symbol := true;
      } else {
        return false, Tally(upper, lower, digit, symbol, slashes);
      }
      slashes := slashes + if c == '/' then 1 else 0;
    }
    assert t[..|t|] == t;
    return true, Tally(upper, lower, digit, symbol, slashes);
  }

  method LooksRandom(w: string, entropic: string -> bool) returns (r: bool)
    ensures r == Random(w, entropic)
  {
    hide Core, Plain, TallyOf, Classes, Slashes;
    var t := Core(w);
    if |t| < 32 || "http" <= t || t[0] == '/' || t[0] == '~' {
      return false;
    }
    var plain, a := Count(t);
    if !plain {
      return false;
    }
    ClassesOf(t);
    r := One(a.upper) + One(a.lower) + One(a.digit) + One(a.symbol) >= 3 && a.slashes <= 3 && entropic(t);
  }

  lemma ClassesOf(t: string)
    ensures var a := TallyOf(t);
      Classes(t) == One(a.upper) + One(a.lower) + One(a.digit) + One(a.symbol) && Slashes(t) == a.slashes
  {
  }

  lemma PlainSnoc(t: string, i: nat)
    requires i < |t|
    ensures Plain(t[..i + 1]) <==> Plain(t[..i]) && IsPlain(t[i])
    ensures Plain(t) ==> Plain(t[..i + 1])
  {
    hide IsPlain;
  }

  /** A random word's core gives way to the placeholder, the punctuation around
      it stays. */
  function RedactedWord(w: string, entropic: string -> bool): string {
    if Random(w, entropic) then w[..Lead(w)] + PLACEHOLDER + w[Tail(w)..] else w
  }

  /** A word is punctuation, a core that neither begins nor ends with any, and
      punctuation; of a random one the core alone is replaced. */
  lemma RedactedWordIs(w: string, entropic: string -> bool) returns (lead: string, tail: string)
    ensures forall c :: c in lead || c in tail ==> c in {',', '.', ';', ')', ']', '}', '>', '\'', '"'}
    ensures Core(w) != "" ==>
      var t := Core(w);
      && w == lead + t + tail
      && t[0] !in {',', '.', ';', ')', ']', '}', '>', '\'', '"'}
      && t[|t| - 1] !in {',', '.', ';', ')', ']', '}', '>', '\'', '"'}
    ensures Core(w) == "" ==> forall c :: c in w ==> c in {',', '.', ';', ')', ']', '}', '>', '\'', '"'}
    ensures RedactedWord(w, entropic) ==
      if Random(w, entropic) then lead + "[REDACTED:entropy]" + tail else w
  {
    hide Random, RedactedWord, Lead, Tail, Core;
    lead, tail := w[..Lead(w)], w[Tail(w)..];
    Punctuated(w);
    RedactedOrKept(w, entropic);
    if Core(w) != "" {
      CoreParts(w);
    }
  }

  lemma Punctuated(w: string)
    ensures var marks := {',', '.', ';', ')', ']', '}', '>', '\'', '"'};
      && (forall c :: c in w[..Lead(w)] || c in w[Tail(w)..] ==> c in marks)
      && (Core(w) == "" ==> forall c :: c in w ==> c in marks)
      && (Core(w) != "" ==> Core(w)[0] !in marks && Core(w)[|Core(w)| - 1] !in marks)
  {
    hide IsTrimmed, Lead, Tail;
    forall c ensures IsTrimmed(c) <==> c in {',', '.', ';', ')', ']', '}', '>', '\'', '"'} {
      Punctuation(c);
    }
    forall c | c in w[..Lead(w)] ensures IsTrimmed(c) {
    }
    forall c | c in w[Tail(w)..] ensures IsTrimmed(c) {
      var i :| Tail(w) <= i < |w| && w[i] == c;
    }
    if Core(w) == "" {
      AllTrimmed(w);
    } else {
      CoreParts(w);
      assert Core(w)[0] == w[Lead(w)] && Core(w)[|Core(w)| - 1] == w[Tail(w) - 1];
    }
  }

  lemma AllTrimmed(w: string)
    requires Core(w) == ""
    ensures forall c :: c in w ==> IsTrimmed(c)
  {
    hide IsTrimmed, Lead, Tail;
    forall c | c in w ensures IsTrimmed(c) {
      var i :| 0 <= i < |w| && w[i] == c;
      assert i < Lead(w) || Tail(w) <= i;
    }
  }

  lemma RedactedOrKept(w: string, entropic: string -> bool)
    ensures RedactedWord(w, entropic) ==
      if Random(w, entropic) then w[..Lead(w)] + "[REDACTED:entropy]" + w[Tail(w)..] else w
  {
    hide Random, Lead, Tail;
  }

  lemma Punctuation(c: char)
    ensures IsTrimmed(c) <==> c in {',', '.', ';', ')', ']', '}', '>', '\'', '"'}
  {
    assert TRIMMED == [',', '.', ';', ')', ']', '}', '>', '\'', '"'];
  }

  predicate OccursAt(w: string, t: string, k: nat) {
    k + |t| <= |w| && w[k..k + |t|] == t
  }

  /** Where a text first occurs in another that has it. */
  function FindText(w: string, t: string, from: nat): (k: nat)
    requires exists i :: from <= i && OccursAt(w, t, i)
    ensures OccursAt(w, t, k) && from <= k
    ensures forall i :: from <= i < k ==> !OccursAt(w, t, i)
    decreases |w| - from
  {
    if OccursAt(w, t, from) then from else FindText(w, t, from + 1)
  }

  lemma ThreeParts(w: string, a: nat, b: nat)
    requires a <= b <= |w|
    ensures w == w[..a] + w[a..b] + w[b..]
  {
  }

  lemma CoreParts(w: string)
    requires Core(w) != ""
    ensures Lead(w) < Tail(w) && w == w[..Lead(w)] + Core(w) + w[Tail(w)..]
  {
    hide Lead, Tail;
    ThreeParts(w, Lead(w), Tail(w));
  }

  /** The first occurrence of the core is the core. */
  lemma CoreIsFoundAfterLead(w: string)
    requires Core(w) != ""
    ensures OccursAt(w, Core(w), Lead(w)) && FindText(w, Core(w), 0) == Lead(w)
  {
    var t := Core(w);
    assert OccursAt(w, t, Lead(w)) && t[0] == w[Lead(w)];
    var k := FindText(w, t, 0);
    if k < Lead(w) {
      StartsAlike(w, t, k);
      assert false;
    }
  }

  lemma StartsAlike(w: string, t: string, i: nat)
    requires t != "" && OccursAt(w, t, i)
    ensures w[i] == t[0]
  {
    assert w[i..i + |t|][0] == t[0];
  }

  method RedactWord(w: string, entropic: string -> bool) returns (out: string, replaced: bool)
    ensures out == RedactedWord(w, entropic) && replaced == Random(w, entropic)
  {
    replaced := LooksRandom(w, entropic);
    out := w;
    if replaced {
      var trimmed := Core(w);
      CoreParts(w);
      CoreIsFoundAfterLead(w);
      var at := FindText(w, trimmed, 0);
      var lead, rest := w[..at], w[at..];
      var tail := rest[|trimmed|..];
      out := lead + PLACEHOLDER + tail;
    }
  }

  // ----- lines and words

  function WordsOf(text: string): seq<seq<string>> {
    var lines := Split(text, '\n');
    seq(|lines|, i requires 0 <= i < |lines| => Split(lines[i], ' '))
  }

  function RedactedWords(words: seq<string>, entropic: string -> bool): (r: seq<string>)
    ensures |r| == |words|
  {
    seq(|words|, i requires 0 <= i < |words| => RedactedWord(words[i], entropic))
  }

  function RedactedLine(line: string, entropic: string -> bool): string {
    Join(RedactedWords(Split(line, ' '), entropic), " ")
  }

  function RedactedLines(lines: seq<string>, entropic: string -> bool): (r: seq<string>)
    ensures |r| == |lines|
  {
    seq(|lines|, i requires 0 <= i < |lines| => RedactedLine(lines[i], entropic))
  }

  function RedactedText(text: string, entropic: string -> bool): string {
    Join(RedactedLines(Split(text, '\n'), entropic), "\n")
  }

  function Randoms(words: seq<string>, entropic: string -> bool): nat {
    if words == [] then 0 else Randoms(words[..|words| - 1], entropic) + One(Random(words[|words| - 1], entropic))
  }

  function RandomsOfLines(lines: seq<string>, entropic: string -> bool): nat {
    if lines == [] then 0
    else RandomsOfLines(lines[..|lines| - 1], entropic) + Randoms(Split(lines[|lines| - 1], ' '), entropic)
  }

  /** The words that look random, each as often as it stands there. */
  function RandomOnes(words: seq<string>, entropic: string -> bool): seq<string> {
    if words == [] then []
    else
      var last := words[|words| - 1];
      RandomOnes(words[..|words| - 1], entropic) + if Random(last, entropic) then [last] else []
  }

  lemma {:induction false} RandomOnesAre(words: seq<string>, entropic: string -> bool, w: string)
    ensures multiset(RandomOnes(words, entropic))[w] == if Random(w, entropic) then multiset(words)[w] else 0
    ensures |RandomOnes(words, entropic)| == Randoms(words, entropic)
  {
    hide Random;
    if words != [] {
      RandomOnesAre(words[..|words| - 1], entropic, w);
      assert words == words[..|words| - 1] + [words[|words| - 1]];
    }
  }

  lemma {:induction false} RandomsConcat(a: seq<string>, b: seq<string>, entropic: string -> bool)
    ensures Randoms(a + b, entropic) == Randoms(a, entropic) + Randoms(b, entropic)
    decreases |b|
  {
    hide Random;
    if b == [] {
      assert a + b == a;
    } else {
      RandomsConcat(a, b[..|b| - 1], entropic);
      assert (a + b)[..|a + b| - 1] == a + b[..|b| - 1];
    }
  }

  lemma {:induction false} LinesAddUp(lines: seq<string>, entropic: string -> bool)
    ensures var words := seq(|lines|, i requires 0 <= i < |lines| => Split(lines[i], ' '));
      RandomsOfLines(lines, entropic) == Randoms(Whole(words), entropic)
  {
    hide Random, Split;
    var words := seq(|lines|, i requires 0 <= i < |lines| => Split(lines[i], ' '));
    if lines == [] {
      assert words == [];
    } else {
      var init := lines[..|lines| - 1];
      LinesAddUp(init, entropic);
      var before := seq(|init|, i requires 0 <= i < |init| => Split(init[i], ' '));
      var last := Split(lines[|lines| - 1], ' ');
      assert words == before + [last];
      WholeSnoc(before, last);
      RandomsConcat(Whole(before), last, entropic);
    }
  }

  /** The count is that of the random words of the text, as often as each stands
      there. */
  lemma CountIsOfRandomWords(text: string, entropic: string -> bool, w: string)
    ensures var found := RandomOnes(Whole(WordsOf(text)), entropic);
      && RandomsOfLines(Split(text, '\n'), entropic) == |found|
      && multiset(found)[w] == if Random(w, entropic) then multiset(Whole(WordsOf(text)))[w] else 0
  {
    hide Random, Split, Randoms, RandomOnes;
    LinesAddUp(Split(text, '\n'), entropic);
    RandomOnesAre(Whole(WordsOf(text)), entropic, w);
  }

  // What has been pushed when the first i pieces are: a separator before each
  // but the first.
  lemma JoinPush(pieces: seq<string>, i: nat, glue: string)
    requires i < |pieces|
    ensures Join(pieces[..i + 1], glue) == (if i > 0 then Join(pieces[..i], glue) + glue else "") + pieces[i]
  {
    assert pieces[..i + 1] == pieces[..i] + [pieces[i]];
    if i > 0 {
      JoinSnoc(pieces[..i], pieces[i], glue);
    }
  }

  method RedactLine(line: string, entropic: string -> bool) returns (out: string, replacements: nat)
    ensures out == RedactedLine(line, entropic) && replacements == Randoms(Split(line, ' '), entropic)
  {
    hide RedactedWord, Random, Join;
    var words := Split(line, ' ');
    ghost var redacted := RedactedWords(words, entropic);
    out, replacements := "", 0;
    var first := true;
    for i := 0 to |words|
      invariant first <==> i == 0
      invariant i > 0 ==> out == Join(redacted[..i], " ")
      invariant i == 0 ==> out == ""
      invariant replacements == Randoms(words[..i], entropic)
    {
      if !first {
        out := out + " ";
      }
      first := false;
      var word, replaced := RedactWord(words[i], entropic);
      JoinPush(redacted, i, " ");
      assert words[..i + 1][..i] == words[..i];
      out := out + word;
      replacements := replacements + One(replaced);
    }
    assert redacted[..|words|] == redacted && words[..|words|] == words;
  }

  /** Words go by spaces, lines by line feeds; the separators stay. */
  method RedactEntropy(text: string, entropic: string -> bool) returns (out: string, replacements: nat)
    ensures out == RedactedText(text, entropic)
    ensures replacements == RandomsOfLines(Split(text, '\n'), entropic)
  {
    hide RedactedLine, Randoms, Join;
    var lines := Split(text, '\n');
    ghost var redacted := RedactedLines(lines, entropic);
    out, replacements := "", 0;
    for i := 0 to |lines|
      invariant i > 0 ==> out == Join(redacted[..i], "\n")
      invariant i == 0 ==> out == ""
      invariant replacements == RandomsOfLines(lines[..i], entropic)
    {
      if i > 0 {
        out := out + "\n";
      }
      var line, n := RedactLine(lines[i], entropic);
      JoinPush(redacted, i, "\n");
      assert lines[..i + 1][..i] == lines[..i];
      out := out + line;
      replacements := replacements + n;
    }
    assert redacted[..|lines|] == redacted && lines[..|lines|] == lines;
  }

  // ----- what redaction leaves

  lemma CoreOfPlaceholder(lead: string, tail: string)
    requires forall i :: 0 <= i < |lead| ==> IsTrimmed(lead[i])
    requires forall i :: 0 <= i < |tail| ==> IsTrimmed(tail[i])
    ensures |Core(lead + PLACEHOLDER + tail)| == 17
  {
    var w := lead + PLACEHOLDER + tail;
    assert w[|lead|] == '[' && w[|lead| + 16] == 'y';
    assert w[|lead| + 17] == ']';
    assert Lead(w) == |lead|;
    assert forall i :: |lead| + 18 <= i < |w| ==> w[i] == tail[i - |lead| - 18];
    assert Tail(w) == |lead| + 17;
  }

  /** No word looks random once redacted, whatever passes for random. */
  lemma RedactedWordIsPlain(w: string, entropic: string -> bool)
    ensures !Random(RedactedWord(w, entropic), entropic)
  {
    if Random(w, entropic) {
      CoreOfPlaceholder(w[..Lead(w)], w[Tail(w)..]);
    }
  }

  lemma RedactedWordHas(w: string, entropic: string -> bool, c: char)
    requires c !in w && (c == ' ' || c == '\n')
    ensures c !in RedactedWord(w, entropic)
  {
    hide Random, Lead, Tail;
    assert c !in PLACEHOLDER;
    assert c !in w[..Lead(w)] && c !in w[Tail(w)..];
  }

  lemma RedactedLineWords(line: string, entropic: string -> bool)
    ensures Split(RedactedLine(line, entropic), ' ') == RedactedWords(Split(line, ' '), entropic)
  {
    hide RedactedWord;
    SplitParts(line, ' ');
    var words := Split(line, ' ');
    forall i | 0 <= i < |words| ensures ' ' !in RedactedWords(words, entropic)[i] {
      RedactedWordHas(words[i], entropic, ' ');
    }
    SplitJoin(RedactedWords(words, entropic), ' ');
  }

  lemma {:induction false} JoinHas(parts: seq<string>, glue: string, c: char)
    requires NoneHas(parts, c) && c !in glue
    ensures c !in Join(parts, glue)
    decreases |parts|
  {
    if |parts| > 1 {
      JoinHas(parts[1..], glue, c);
    }
  }

  lemma RedactedLineHas(line: string, entropic: string -> bool)
    requires '\n' !in line
    ensures '\n' !in RedactedLine(line, entropic)
  {
    hide RedactedWord, Join;
    var words := Split(line, ' ');
    JoinSplit(line, ' ');
    forall i | 0 <= i < |words| ensures '\n' !in RedactedWords(words, entropic)[i] {
      PartHas(words, " ", i, '\n');
      RedactedWordHas(words[i], entropic, '\n');
    }
    JoinHas(RedactedWords(words, entropic), " ", '\n');
  }

  lemma {:induction false} PartHas(parts: seq<string>, glue: string, i: nat, c: char)
    requires i < |parts| && c !in Join(parts, glue)
    ensures c !in parts[i]
    decreases |parts|
  {
    if |parts| > 1 {
      assert forall x :: x in parts[0] || x in Join(parts[1..], glue) ==> x in Join(parts, glue);
      if i > 0 {
        PartHas(parts[1..], glue, i - 1, c);
      }
    }
  }

  /** Redaction keeps every separator: word for word, line for line, the redacted
      text is made of the redacted words of the text. */
  lemma WordsAreRedacted(text: string, entropic: string -> bool)
    ensures var was, now := WordsOf(text), WordsOf(RedactedText(text, entropic));
      |now| == |was| && forall i :: 0 <= i < |was| ==> now[i] == RedactedWords(was[i], entropic)
  {
    hide RedactedLine, RedactedWords, Join;
    var lines := Split(text, '\n');
    var redacted := RedactedLines(lines, entropic);
    SplitParts(text, '\n');
    forall i | 0 <= i < |lines| ensures '\n' !in redacted[i] {
      RedactedLineHas(lines[i], entropic);
    }
    SplitJoin(redacted, '\n');
    forall i | 0 <= i < |lines| ensures Split(redacted[i], ' ') == RedactedWords(Split(lines[i], ' '), entropic) {
      RedactedLineWords(lines[i], entropic);
    }
  }

  ghost predicate NoneRandom(text: string, entropic: string -> bool) {
    forall i, k :: 0 <= i < |WordsOf(text)| && 0 <= k < |WordsOf(text)[i]| ==> !Random(WordsOf(text)[i][k], entropic)
  }

  /** No word of the redacted text looks random. */
  lemma NothingRandomIsLeft(text: string, entropic: string -> bool)
    ensures NoneRandom(RedactedText(text, entropic), entropic)
  {
    hide Random, RedactedWord, WordsOf, RedactedText;
    WordsAreRedacted(text, entropic);
    var was, now := WordsOf(text), WordsOf(RedactedText(text, entropic));
    forall i, k | 0 <= i < |now| && 0 <= k < |now[i]| ensures !Random(now[i][k], entropic) {
      RedactedWordIsPlain(was[i][k], entropic);
    }
  }

  /** A text with no random word is left as it is. */
  lemma PlainTextIsKept(text: string, entropic: string -> bool)
    requires NoneRandom(text, entropic)
    ensures RedactedText(text, entropic) == text
  {
    hide Random, Join;
    var lines := Split(text, '\n');
    forall i | 0 <= i < |lines| ensures RedactedLines(lines, entropic)[i] == lines[i] {
      var words := Split(lines[i], ' ');
      assert WordsOf(text)[i] == words;
      assert RedactedWords(words, entropic) == words;
      JoinSplit(lines[i], ' ');
    }
    assert RedactedLines(lines, entropic) == lines;
    JoinSplit(text, '\n');
  }

  /** A second pass changes nothing. */
  lemma RedactionIsIdempotent(text: string, entropic: string -> bool)
    ensures RedactedText(RedactedText(text, entropic), entropic) == RedactedText(text, entropic)
  {
    hide RedactedText, NoneRandom;
    NothingRandomIsLeft(text, entropic);
    PlainTextIsKept(RedactedText(text, entropic), entropic);
  }

  // ----- the whole pipeline

  /** A rule that matches, and the spans it finds in a text. */
  datatype Hit = Hit(name: string, find: string -> seq<Span>)

  ghost predicate FindsInOrder(h: Hit) {
    forall t: string :: Ordered(h.find(t), 0, |t|)
  }

  function PlaceholderFor(h: Hit): string {
    "[REDACTED:" + h.name + "]"
  }

  lemma HitIsOrdered(h: Hit, t: string)
    requires FindsInOrder(h)
    ensures Ordered(h.find(t), 0, |t|)
  {
  }

  /** The text once each rule's spans have been replaced, rule after rule. */
  ghost function AfterRules(text: string, hits: seq<Hit>): string
    requires forall i :: 0 <= i < |hits| ==> FindsInOrder(hits[i])
  {
    if hits == [] then text
    else
      var before := AfterRules(text, hits[..|hits| - 1]);
      var last := hits[|hits| - 1];
      HitIsOrdered(last, before);
      Join(Around(before, last.find(before), 0), PlaceholderFor(last))
  }

  /** A rule keeps the text between its spans, and leaves its name in place of each. */
  lemma OneRule(text: string, hits: seq<Hit>, h: Hit)
    requires FindsInOrder(h) && forall i :: 0 <= i < |hits| ==> FindsInOrder(hits[i])
    ensures var before := AfterRules(text, hits);
      && Ordered(h.find(before), 0, |before|)
      && AfterRules(text, hits + [h]) == Join(Around(before, h.find(before), 0), "[REDACTED:" + h.name + "]")
      && SpansFound(text, hits + [h]) == SpansFound(text, hits) + |h.find(before)|
    ensures AfterRules(text, []) == text && SpansFound(text, []) == 0
  {
    hide Join, Around, Ordered;
    assert (hits + [h])[..|hits|] == hits;
    HitIsOrdered(h, AfterRules(text, hits));
  }

  /** How many spans the rules replace. */
  ghost function SpansFound(text: string, hits: seq<Hit>): nat
    requires forall i :: 0 <= i < |hits| ==> FindsInOrder(hits[i])
  {
    if hits == [] then 0
    else
      var init := hits[..|hits| - 1];
      SpansFound(text, init) + |hits[|hits| - 1].find(AfterRules(text, init))|
  }

  /** All layers, or nothing: a rule that would start too late drops the request,
      and what is returned otherwise has no random word left. */
  method Apply(text: string, hits: seq<Hit>, late: nat -> bool, entropic: string -> bool)
    returns (r: Option<(string, nat)>)
    requires forall i :: 0 <= i < |hits| ==> FindsInOrder(hits[i])
    ensures r.Some? <==> forall i :: 0 <= i < |hits| ==> !late(i)
    ensures r.Some? ==> r.value.0 == RedactedText(AfterRules(text, hits), entropic) && NoneRandom(r.value.0, entropic)
    ensures r.Some? ==>
      r.value.1 == SpansFound(text, hits) + RandomsOfLines(Split(AfterRules(text, hits), '\n'), entropic)
  {
    hide RedactedText, NoneRandom, Around, Join, Ordered, PlaceholderFor, FindsInOrder;
    var out, replacements := text, 0;
    for i := 0 to |hits|
      invariant out == AfterRules(text, hits[..i]) && replacements == SpansFound(text, hits[..i])
      invariant forall k :: 0 <= k < i ==> !late(k)
    {
      if late(i) {
        return None;
      }
      assert hits[..i + 1][..i] == hits[..i];
      HitIsOrdered(hits[i], out);
      var n;
      out, n := ReplaceSpans(out, hits[i].find(out), PlaceholderFor(hits[i]));
      replacements := replacements + n;
    }
    assert hits[..|hits|] == hits;
    NothingRandomIsLeft(out, entropic);
    var extra;
    out, extra := RedactEntropy(out, entropic);
    r := Some((out, replacements + extra));
  }
}
