/** Shell-integration marks (OSC 133 and 633) scanned out of the byte stream.

    A byte is a character below 256, and the text of a payload is its bytes,
    which for ASCII is what UTF-8 decoding gives. */
module Osc {
  import opened Decimals
  import opened Sequences
  import opened Strings
  import opened Wrappers

  const ESC := '\U{1B}'
  const BEL := '\U{07}'
  const MAX_PAYLOAD := 64 * 1024

  datatype Mark =
    | PromptStart(params: seq<(string, string)>)
    | CommandStart
    | CommandExecuted
    | CommandFinished(exit: Option<int>)
    | CommandLine(cmdline: string, nonce: Option<string>)
    | Malformed(payload: string)

  // ----- splitting

  /** The last place of a character, or the length. */
  function FindLast(s: string, c: char): (k: nat)
    ensures k <= |s|
    ensures k < |s| ==> s[k] == c && forall i :: k < i < |s| ==> s[i] != c
    ensures k == |s| ==> c !in s
  {
    if s == "" then 0
    else if s[|s| - 1] == c then |s| - 1
    else
      var k := FindLast(s[..|s| - 1], c);
      if k == |s| - 1 then |s| else k
  }

  function Before(s: string, c: char): string {
    s[..Find(s, c)]
  }

  function After(s: string, c: char): string {
    var k := Find(s, c);
    if k < |s| then s[k + 1..] else ""
  }

  // ----- parsing a payload

  function Pairs(parts: seq<string>): seq<(string, string)> {
    if parts == [] then []
    else if parts[0] == "" then Pairs(parts[1..])
    else [(Before(parts[0], '='), After(parts[0], '='))] + Pairs(parts[1..])
  }

  /** A decimal 32-bit integer with an optional sign. */
  function ParseInt(s: string): Option<int> {
    var signed := s != "" && (s[0] == '-' || s[0] == '+');
    var digits := if signed then s[1..] else s;
    if digits == "" || Digits(digits).None? then None
    else
      var n: int := Digits(digits).value;
      var value := if signed && s[0] == '-' then -n else n;
      if -0x8000_0000 <= value < 0x8000_0000 then Some(value) else None
  }

  function ExitOf(tail: string): Option<int> {
    ParseInt(Trim(Before(tail, ';')))
  }

  function HexDigit(c: char): Option<nat> {
    if '0' <= c <= '9' then Some((c - '0') as nat)
    else if 'a' <= c <= 'f' then Some(10 + (c - 'a') as nat)
    else if 'A' <= c <= 'F' then Some(10 + (c - 'A') as nat)
    else None
  }

  /** A byte from two characters: two hexadecimal digits, or a plus and one. */
  function HexByte(a: char, b: char): (r: Option<nat>)
    ensures r.Some? ==> r.value < 256
  {
    if HexDigit(b).None? then None
    else if a == '+' then HexDigit(b)
    else if HexDigit(a).None? then None
    else Some(16 * HexDigit(a).value + HexDigit(b).value)
  }

  predicate IsEscape(s: string) {
    |s| >= 4 && s[0] == '\\' && s[1] == 'x' && HexByte(s[2], s[3]).Some?
  }

  function Unescaped(s: string): string {
    if s == "" then ""
    else if IsEscape(s) then [HexByte(s[2], s[3]).value as char] + Unescaped(s[4..])
    else [s[0]] + Unescaped(s[1..])
  }

  lemma UnescapedAt(s: string, i: nat)
    requires i < |s|
    ensures Unescaped(s[i..]) ==
      if IsEscape(s[i..]) then [HexByte(s[i + 2], s[i + 3]).value as char] + Unescaped(s[i + 4..])
      else [s[i]] + Unescaped(s[i + 1..])
  {
    hide HexByte;
    assert s[i..][1..] == s[i + 1..];
    if IsEscape(s[i..]) {
      assert s[i..][4..] == s[i + 4..];
    }
  }

  lemma UnescapedNothing()
    ensures Unescaped("") == ""
  {
  }

  method Unescape(s: string) returns (out: string)
    ensures out == Unescaped(s)
  {
    hide Unescaped, HexByte;
    out := "";
    var i := 0;
    while i < |s|
      invariant 0 <= i <= |s|
      invariant out + Unescaped(s[i..]) == Unescaped(s)
    {
      UnescapedAt(s, i);
      var v := if s[i] == '\\' && i + 3 < |s| && s[i + 1] == 'x' then HexByte(s[i + 2], s[i + 3]) else None;
      var step := if v.Some? then 4 else 1;
      var c := if v.Some? then v.value as char else s[i];
      assert Unescaped(s[i..]) == [c] + Unescaped(s[i + step..]);
      Associate(out, [c], Unescaped(s[i + step..]));
      out := out + [c];
      i := i + step;
    }
    assert s[i..] == "";
    UnescapedNothing();
  }

  function CommandOf(tail: string): Mark {
    var k := FindLast(tail, ';');
    if k < |tail| && tail[k + 1..] != "" && '\\' !in tail[k + 1..] then
      CommandLine(Unescaped(tail[..k]), Some(tail[k + 1..]))
    else CommandLine(Unescaped(tail), None)
  }

  function Parse133(rest: string): Mark {
    var code, tail := Before(rest, ';'), After(rest, ';');
    if code == "A" || code == "P" || code == "I" || code == "N" then PromptStart(Pairs(Split(tail, ';')))
    else if code == "B" then CommandStart
    else if code == "C" then CommandExecuted
    else if code == "D" then CommandFinished(ExitOf(tail))
    else Malformed(rest)
  }

  function Parse633(rest: string): Mark {
    var code, tail := Before(rest, ';'), After(rest, ';');
    if code == "A" then PromptStart([])
    else if code == "B" then CommandStart
    else if code == "C" then CommandExecuted
    else if code == "D" then CommandFinished(ExitOf(tail))
    else if code == "E" then CommandOf(tail)
    else if code == "P" then PromptStart(Pairs(Split(tail, ';')))
    else Malformed(rest)
  }

  /** Other sequences give nothing. */
  function Parse(payload: string): Option<Mark> {
    var kind, rest := Before(payload, ';'), After(payload, ';');
    if kind == "133" then Some(Parse133(rest))
    else if kind == "633" then Some(Parse633(rest))
    else None
  }

  // ----- the scanner as a state machine

  datatype Phase = Ground | Escape | Collecting | CollectingEscape

  datatype Machine = Machine(phase: Phase, payload: string)

  const START := Machine(Ground, "")

  /** An escape sequence is a control string when its next byte is `]`. */
  function Introduced(m: Machine, b: char): Machine {
    if b == ']' then Machine(Collecting, "") else Machine(Ground, m.payload)
  }

  predicate Finishes(m: Machine, b: char) {
    (m.phase.Collecting? && b == BEL) || (m.phase.CollectingEscape? && b == '\\')
  }

  function Step(m: Machine, b: char): Machine {
    if Finishes(m, b) then Machine(Ground, "")
    else
      match m.phase
      case Ground => Machine(if b == ESC then Escape else Ground, m.payload)
      case Escape => Introduced(m, b)
      case Collecting =>
        if b == ESC then Machine(CollectingEscape, m.payload)
        else if |m.payload| < MAX_PAYLOAD then Machine(Collecting, m.payload + [b])
        else Machine(Ground, m.payload)
      case CollectingEscape => Introduced(m, b)
  }

  type Marks = seq<(nat, Mark)>

  function Emitted(m: Machine, b: char, end: nat): Marks {
    if Finishes(m, b) && Parse(m.payload).Some? then [(end, Parse(m.payload).value)] else []
  }

  function Advanced(m: Machine, bytes: string): Machine {
    if bytes == "" then m else Step(Advanced(m, bytes[..|bytes| - 1]), bytes[|bytes| - 1])
  }

  /** The marks of a chunk, each with the offset just past its terminator. */
  function MarksOf(m: Machine, bytes: string): Marks {
    if bytes == "" then []
    else
      var init := bytes[..|bytes| - 1];
      MarksOf(m, init) + Emitted(Advanced(m, init), bytes[|bytes| - 1], |bytes|)
  }

  /** The scanner of one session, fed chunk by chunk. */
  class Scanner {
    var phase: Phase
    var payload: string

    ghost function View(): Machine
      reads this
    {
      Machine(phase, payload)
    }

    constructor ()
      ensures View() == START
    {
      phase, payload := Ground, "";
    }

    method Finish(end: nat, out: Marks) returns (more: Marks)
      modifies this
      ensures View() == Machine(Ground, "")
      ensures more == out + (if Parse(old(payload)).Some? then [(end, Parse(old(payload)).value)] else [])
    {
      phase := Ground;
      var taken := payload;
      payload := "";
      var mark := Parse(taken);
      more := if mark.Some? then out + [(end, mark.value)] else out;
    }

    method Scan(bytes: string) returns (out: Marks)
      modifies this
      ensures View() == Advanced(old(View()), bytes)
      ensures out == MarksOf(old(View()), bytes)
    {
      hide Parse;
      out := [];
      ghost var start := View();
      for i := 0 to |bytes|
        invariant View() == Advanced(start, bytes[..i])
        invariant out == MarksOf(start, bytes[..i])
      {
        var b := bytes[i];
        assert bytes[..i + 1] == bytes[..i] + [b];
        AdvancedSnoc(start, bytes[..i], b);
        hide Advanced, MarksOf;
        match phase
        case Ground =>
          if b == ESC {
            phase := Escape;
          }
        case Escape =>
          if b == ']' {
            payload := "";
            phase := Collecting;
          } else {
            phase := Ground;
          }
        case Collecting =>
          if b == BEL {
            out := Finish(i + 1, out);
          } else if b == ESC {
            phase := CollectingEscape;
          } else if |payload| < MAX_PAYLOAD {
            payload := payload + [b];
          } else {
            phase := Ground;
          }
        case CollectingEscape =>
          if b == '\\' {
            out := Finish(i + 1, out);
          } else if b == ']' {
            payload := "";
            phase := Collecting;
          } else {
            phase := Ground;
          }
      }
      assert bytes[..|bytes|] == bytes;
    }
  }

  // ----- chunks

  lemma AdvancedSnoc(m: Machine, bytes: string, b: char)
    ensures Advanced(m, bytes + [b]) == Step(Advanced(m, bytes), b)
    ensures MarksOf(m, bytes + [b]) == MarksOf(m, bytes) + Emitted(Advanced(m, bytes), b, |bytes| + 1)
  {
    hide Step, Emitted;
    assert (bytes + [b])[..|bytes|] == bytes;
  }

  function Shifted(marks: Marks, shift: nat): (r: Marks)
    ensures |r| == |marks|
  {
    seq(|marks|, i requires 0 <= i < |marks| => (marks[i].0 + shift, marks[i].1))
  }

  lemma ShiftedConcat(a: Marks, b: Marks, shift: nat)
    ensures Shifted(a + b, shift) == Shifted(a, shift) + Shifted(b, shift)
  {
  }

  lemma ShiftedTwice(a: Marks, first: nat, second: nat)
    ensures Shifted(Shifted(a, first), second) == Shifted(a, first + second)
  {
  }

  lemma ShiftedNone(shift: nat)
    ensures Shifted([], shift) == []
  {
  }

  lemma EmittedShifted(m: Machine, b: char, end: nat, shift: nat)
    ensures Shifted(Emitted(m, b, end), shift) == Emitted(m, b, end + shift)
  {
    hide Parse;
  }

  lemma ShiftedLast(before: Marks, marks: Marks, last: Marks, shift: nat)
    ensures before + Shifted(marks, shift) + Shifted(last, shift) == before + Shifted(marks + last, shift)
  {
    hide Shifted;
    ShiftedConcat(marks, last, shift);
    Associate(before, Shifted(marks, shift), Shifted(last, shift));
  }

  /** Scanning a concatenation is scanning the parts in turn, the offsets of the
      second part counted on from the first. */
  lemma {:induction false} ScanConcat(m: Machine, a: string, b: string)
    ensures Advanced(m, a + b) == Advanced(Advanced(m, a), b)
    ensures MarksOf(m, a + b) == MarksOf(m, a) + Shifted(MarksOf(Advanced(m, a), b), |a|)
    decreases |b|
  {
    if b == "" {
      assert a + b == a;
      ShiftedNone(|a|);
    } else {
      hide *;
      var init, last := b[..|b| - 1], b[|b| - 1];
      SnocOfConcat(a, b);
      ScanConcat(m, a, init);
      ConcatSnoc(m, a, init, last);
    }
  }

  lemma ConcatSnoc(m: Machine, a: string, init: string, last: char)
    requires Advanced(m, a + init) == Advanced(Advanced(m, a), init)
    requires MarksOf(m, a + init) == MarksOf(m, a) + Shifted(MarksOf(Advanced(m, a), init), |a|)
    ensures Advanced(m, a + init + [last]) == Advanced(Advanced(m, a), init + [last])
    ensures MarksOf(m, a + init + [last]) == MarksOf(m, a) + Shifted(MarksOf(Advanced(m, a), init + [last]), |a|)
  {
    hide *;
    var mid := Advanced(m, a);
    AdvancedSnoc(m, a + init, last);
    AdvancedSnoc(mid, init, last);
    EmittedShifted(Advanced(mid, init), last, |init| + 1, |a|);
    ShiftedLast(MarksOf(m, a), MarksOf(mid, init), Emitted(Advanced(mid, init), last, |init| + 1), |a|);
  }

  lemma SnocOfConcat(a: string, b: string)
    requires b != ""
    ensures a + b == (a + b[..|b| - 1]) + [b[|b| - 1]] && b == b[..|b| - 1] + [b[|b| - 1]]
  {
  }

  /** The marks of a stream scanned chunk by chunk, with offsets into the stream. */
  function ChunkMarks(m: Machine, chunks: seq<string>, at: nat): Marks
    decreases |chunks|
  {
    if chunks == [] then []
    else Shifted(MarksOf(m, chunks[0]), at) + ChunkMarks(Advanced(m, chunks[0]), chunks[1..], at + |chunks[0]|)
  }

  lemma ShiftedInTurn(first: Marks, rest: Marks, n: nat, at: nat)
    ensures Shifted(first, at) + Shifted(rest, at + n) == Shifted(first + Shifted(rest, n), at)
  {
    hide Shifted;
    ShiftedTwice(rest, n, at);
    ShiftedConcat(first, Shifted(rest, n), at);
  }

  lemma NoChunks(m: Machine, at: nat)
    ensures ChunkMarks(m, [], at) == Shifted(MarksOf(m, Whole([])), at)
  {
    ShiftedNone(at);
  }

  lemma FirstChunk(m: Machine, chunks: seq<string>, at: nat)
    requires chunks != []
    ensures Whole(chunks) == chunks[0] + Whole(chunks[1..])
    ensures ChunkMarks(m, chunks, at) ==
      Shifted(MarksOf(m, chunks[0]), at) + ChunkMarks(Advanced(m, chunks[0]), chunks[1..], at + |chunks[0]|)
  {
    hide Shifted, MarksOf, Advanced;
  }

  /** How a stream is cut into chunks makes no difference to its marks. */
  lemma {:induction false} ChunksDoNotMatter(m: Machine, chunks: seq<string>, at: nat)
    ensures ChunkMarks(m, chunks, at) == Shifted(MarksOf(m, Whole(chunks)), at)
    decreases |chunks|
  {
    hide *;
    if chunks == [] {
      NoChunks(m, at);
    } else {
      FirstChunk(m, chunks, at);
      var next := Advanced(m, chunks[0]);
      var rest := Whole(chunks[1..]);
      ChunksDoNotMatter(next, chunks[1..], at + |chunks[0]|);
      ScanConcat(m, chunks[0], rest);
      ShiftedInTurn(MarksOf(m, chunks[0]), MarksOf(next, rest), |chunks[0]|, at);
    }
  }

  /** The payload is never longer than 64 KiB. */
  lemma {:induction false} PayloadIsBounded(bytes: string)
    ensures |Advanced(START, bytes).payload| <= 65536
  {
    if bytes != "" {
      PayloadIsBounded(bytes[..|bytes| - 1]);
    }
  }

  // ----- one control string

  predicate Clean(text: string) {
    ESC !in text && BEL !in text
  }

  /** The two ways a control string ends. */
  predicate Terminator(end: string) {
    end == "\U{07}" || end == "\U{1B}\\"
  }

  const INTRODUCER := "\U{1B}]"

  lemma OneByte(m: Machine, b: char)
    ensures Advanced(m, [b]) == Step(m, b) && MarksOf(m, [b]) == Emitted(m, b, 1)
  {
    hide Step, Emitted;
    assert [b][..0] == "";
    assert Advanced(m, "") == m && MarksOf(m, "") == [];
  }

  lemma TwoBytes(m: Machine, a: char, b: char)
    ensures Advanced(m, [a, b]) == Step(Step(m, a), b)
    ensures MarksOf(m, [a, b]) == Emitted(m, a, 1) + Emitted(Step(m, a), b, 2)
  {
    hide *;
    OneByte(m, a);
    AdvancedSnoc(m, [a], b);
    assert [a] + [b] == [a, b];
  }

  lemma IntroducerCollects(m: Machine)
    requires m.phase.Ground?
    ensures Advanced(m, INTRODUCER) == Machine(Collecting, "") && MarksOf(m, INTRODUCER) == []
  {
    hide Advanced, MarksOf;
    TwoBytes(m, ESC, ']');
  }

  /** The state after collecting some clean bytes. */
  function Collected(text: string): Machine {
    if |text| <= MAX_PAYLOAD then Machine(Collecting, text) else Machine(Ground, text[..MAX_PAYLOAD])
  }

  lemma CollectOne(text: string, b: char)
    requires b != ESC && b != BEL
    ensures Step(Collected(text), b) == Collected(text + [b]) && Emitted(Collected(text), b, |text| + 1) == []
  {
    if |text| >= MAX_PAYLOAD {
      assert (text + [b])[..MAX_PAYLOAD] == text[..MAX_PAYLOAD];
    }
  }

  lemma CollectNothing()
    ensures Advanced(Machine(Collecting, ""), "") == Collected("") && MarksOf(Machine(Collecting, ""), "") == []
  {
  }

  lemma CleanInit(text: string)
    requires Clean(text) && text != ""
    ensures Clean(text[..|text| - 1]) && text[|text| - 1] != ESC && text[|text| - 1] != BEL
  {
    assert text[|text| - 1] in text;
    assert forall c :: c in text[..|text| - 1] ==> c in text;
  }

  /** Clean bytes are kept up to the limit, and past it the control string is
      abandoned. */
  lemma {:induction false} CollectClean(text: string)
    requires Clean(text)
    ensures Advanced(Machine(Collecting, ""), text) == Collected(text) && MarksOf(Machine(Collecting, ""), text) == []
  {
    if text == "" {
      CollectNothing();
    } else {
      hide *;
      var init, last := text[..|text| - 1], text[|text| - 1];
      CleanInit(text);
      CollectClean(init);
      assert init + [last] == text;
      CollectOne(init, last);
      AdvancedSnoc(Machine(Collecting, ""), init, last);
    }
  }

  lemma TerminatorFinishes(payload: string, end: string)
    requires Terminator(end)
    ensures Advanced(Machine(Collecting, payload), end) == START
    ensures MarksOf(Machine(Collecting, payload), end) ==
      if Parse(payload).Some? then [(|end|, Parse(payload).value)] else []
  {
    hide Parse, Advanced, MarksOf;
    OneByte(Machine(Collecting, payload), BEL);
    TwoBytes(Machine(Collecting, payload), ESC, '\\');
  }

  lemma TerminatorInGround(payload: string, end: string)
    requires Terminator(end)
    ensures Advanced(Machine(Ground, payload), end) == Machine(Ground, payload)
    ensures MarksOf(Machine(Ground, payload), end) == []
  {
    hide Parse, Advanced, MarksOf;
    OneByte(Machine(Ground, payload), BEL);
    TwoBytes(Machine(Ground, payload), ESC, '\\');
  }

  /** A control string scanned from the ground state gives the mark its payload
      parses to, just past its terminator, exactly when it fits the limit. */
  lemma ControlStringIsScanned(m: Machine, payload: string, end: string)
    requires m.phase.Ground? && Clean(payload) && Terminator(end)
    ensures var bytes := INTRODUCER + payload + end;
      && Advanced(m, bytes).phase.Ground?
      && MarksOf(m, bytes) ==
           if |payload| <= 65_536 && Parse(payload).Some? then [(|bytes|, Parse(payload).value)] else []
  {
    hide Parse, Advanced, MarksOf, Step, Clean, Terminator;
    IntroducerCollects(m);
    CollectClean(payload);
    ScanConcat(m, INTRODUCER, payload);
    ScanConcat(m, INTRODUCER + payload, end);
    if |payload| <= MAX_PAYLOAD {
      TerminatorFinishes(payload, end);
    } else {
      TerminatorInGround(payload[..MAX_PAYLOAD], end);
    }
  }

  // ----- the command line escapes

  function HexChar(d: nat): char
    requires d < 16
  {
    if d < 10 then '0' + d as char else 'a' + (d - 10) as char
  }

  predicate NeedsEscape(c: char) {
    c == ';' || c == '\\' || c <= ' '
  }

  function EscapedChar(c: char): string
    requires c < 128 as char
  {
    if NeedsEscape(c) then ['\\', 'x', HexChar(c as int / 16), HexChar(c as int % 16)] else [c]
  }

  predicate Ascii(s: string) {
    forall i :: 0 <= i < |s| ==> s[i] < 128 as char
  }

  /** What the shell sends for a command. */
  function Escaped(s: string): string
    requires Ascii(s)
  {
    if s == "" then "" else EscapedChar(s[0]) + Escaped(s[1..])
  }

  lemma HexRoundTrip(n: nat)
    requires n < 128
    ensures HexByte(HexChar(n / 16), HexChar(n % 16)) == Some(n)
  {
  }

  lemma UnescapedChar(c: char, rest: string)
    requires c < 128 as char
    ensures Unescaped(EscapedChar(c) + rest) == [c] + Unescaped(rest)
  {
    hide HexByte, HexChar;
    var s := EscapedChar(c) + rest;
    if NeedsEscape(c) {
      HexRoundTrip(c as int);
      assert s[4..] == rest;
    } else {
      assert s[1..] == rest;
    }
  }

  /** Text that could be added to an escaped command and be read as itself. */
  lemma {:induction false} UnescapedConcat(cmd: string, rest: string)
    requires Ascii(cmd)
    ensures Unescaped(Escaped(cmd) + rest) == cmd + Unescaped(rest)
  {
    hide Unescaped, EscapedChar;
    if cmd == "" {
      assert Escaped(cmd) + rest == rest;
    } else {
      assert Escaped(cmd) + rest == EscapedChar(cmd[0]) + (Escaped(cmd[1..]) + rest);
      UnescapedChar(cmd[0], Escaped(cmd[1..]) + rest);
      UnescapedConcat(cmd[1..], rest);
    }
  }

  /** An escaped command has no separator and no byte of a terminator. */
  lemma {:induction false} EscapedIsPlain(cmd: string)
    requires Ascii(cmd)
    ensures ';' !in Escaped(cmd) && Clean(Escaped(cmd))
  {
    if cmd != "" {
      EscapedIsPlain(cmd[1..]);
    }
  }

  lemma FindSplits(head: string, c: char, tail: string)
    requires c !in head
    ensures Before(head + [c] + tail, c) == head && After(head + [c] + tail, c) == tail
  {
    var s := head + [c] + tail;
    assert s[|head|] == c;
    assert forall i :: 0 <= i < |head| ==> s[i] == head[i];
  }

  lemma LastIs(s: string, c: char, k: nat)
    requires k < |s| && s[k] == c && forall i :: k < i < |s| ==> s[i] != c
    ensures FindLast(s, c) == k
  {
  }

  lemma SplitsAt(head: string, c: char, tail: string)
    ensures var s := head + [c] + tail; s[|head|] == c && s[..|head|] == head && s[|head| + 1..] == tail
  {
  }

  lemma FindLastSplits(head: string, c: char, tail: string)
    requires c !in tail
    ensures FindLast(head + [c] + tail, c) == |head|
    ensures (head + [c] + tail)[..|head|] == head && (head + [c] + tail)[|head| + 1..] == tail
  {
    hide FindLast;
    var s := head + [c] + tail;
    SplitsAt(head, c, tail);
    forall i | |head| < i < |s| ensures s[i] != c {
      assert s[i] == s[|head| + 1..][i - |head| - 1];
    }
    LastIs(s, c, |head|);
  }

  /** The payload of a command line: escaped text, and perhaps a nonce. */
  function CommandPayload(cmd: string, nonce: Option<string>): string
    requires Ascii(cmd)
  {
    "633;E;" + TailOf(cmd, nonce)
  }

  function TailOf(cmd: string, nonce: Option<string>): string
    requires Ascii(cmd)
  {
    match nonce
    case None => Escaped(cmd)
    case Some(n) => Escaped(cmd) + ";" + n
  }

  lemma CommandParses(cmd: string, nonce: Option<string>)
    requires Ascii(cmd)
    ensures Parse(CommandPayload(cmd, nonce)) == Some(CommandOf(TailOf(cmd, nonce)))
  {
    hide CommandOf, TailOf;
    var tail := TailOf(cmd, nonce);
    assert CommandPayload(cmd, nonce) == "633" + [';'] + ("E" + [';'] + tail);
    FindSplits("633", ';', "E" + [';'] + tail);
    FindSplits("E", ';', tail);
  }

  /** A nonce that the scanner recognises as one. */
  predicate Recognised(nonce: string) {
    nonce != "" && '\\' !in nonce && ';' !in nonce
  }

  /** The part of a nonce after its last semicolon, and what comes before. */
  function LastField(nonce: string): string {
    var k := FindLast(nonce, ';');
    if k < |nonce| then nonce[k + 1..] else nonce
  }

  function Spill(nonce: string): string {
    var k := FindLast(nonce, ';');
    if k < |nonce| then ";" + nonce[..k] else ""
  }

  lemma NonceFields(nonce: string)
    ensures Spill(nonce) + ";" + LastField(nonce) == ";" + nonce && ';' !in LastField(nonce)
    ensures ';' !in nonce ==> Spill(nonce) == "" && LastField(nonce) == nonce
    ensures ';' in nonce ==> LastField(nonce) != nonce
  {
    hide FindLast;
    var k := FindLast(nonce, ';');
    if k < |nonce| {
      assert nonce == nonce[..k] + ";" + nonce[k + 1..];
    }
  }

  /** What the tail is read as, for every nonce: its last field is the nonce when
      it is not empty and has no backslash, and whatever is not the nonce becomes
      part of the command. */
  lemma CommandOfTail(cmd: string, nonce: Option<string>)
    requires Ascii(cmd)
    ensures CommandOf(TailOf(cmd, nonce)) == match nonce
      case None => CommandLine(cmd, None)
      case Some(n) =>
        if Recognised(LastField(n)) then CommandLine(cmd + Unescaped(Spill(n)), Some(LastField(n)))
        else CommandLine(cmd + Unescaped(";" + n), None)
  {
    hide Escaped, Unescaped, LastField, Spill, FindLast;
    match nonce
    case None =>
      EscapedIsPlain(cmd);
      UnescapedConcat(cmd, "");
      UnescapedNothing();
      assert Escaped(cmd) + "" == Escaped(cmd) && cmd + "" == cmd;
    case Some(n) =>
      NonceFields(n);
      FindLastSplits(Escaped(cmd) + Spill(n), ';', LastField(n));
      UnescapedConcat(cmd, Spill(n));
      UnescapedConcat(cmd, ";" + n);
      assert Escaped(cmd) + ";" + n == Escaped(cmd) + (";" + n);
      assert Escaped(cmd) + Spill(n) + [';'] + LastField(n) == Escaped(cmd) + (Spill(n) + ";" + LastField(n));
  }

  /** Any ASCII command, escaped and sent with either terminator, is scanned back
      as that command, and a nonce free of terminators with it, exactly when the
      payload fits the limit and the nonce is not empty and has neither semicolon
      nor backslash. */
  lemma CommandRoundTrip(m: Machine, cmd: string, nonce: Option<string>, end: string)
    requires m.phase.Ground? && Ascii(cmd) && Terminator(end)
    requires nonce.Some? ==> Clean(nonce.value)
    ensures var bytes := INTRODUCER + CommandPayload(cmd, nonce) + end;
      MarksOf(m, bytes) == [(|bytes|, CommandLine(cmd, nonce))] <==>
        |CommandPayload(cmd, nonce)| <= 65_536 && (nonce.None? || Recognised(nonce.value))
  {
    hide Advanced, MarksOf, Parse, CommandOf, Escaped, Unescaped, LastField, Spill;
    EscapedIsPlain(cmd);
    CommandParses(cmd, nonce);
    CommandOfTail(cmd, nonce);
    assert Clean(CommandPayload(cmd, nonce));
    ControlStringIsScanned(m, CommandPayload(cmd, nonce), end);
    if nonce.Some? {
      NonceFields(nonce.value);
      UnescapedNothing();
      assert cmd + "" == cmd;
    }
  }

  /** An empty nonce turns into a semicolon at the end of the command. */
  lemma EmptyNonceIsMisread(cmd: string)
    requires Ascii(cmd)
    ensures CommandOf(TailOf(cmd, Some(""))) == CommandLine(cmd + ";", None)
  {
    NonceFields("");
    CommandOfTail(cmd, Some(""));
    assert ";" + "" == ";";
    assert Unescaped(";") == ";";
  }

  // ----- the exit status

  function Signed(n: int): string {
    if n < 0 then "-" + Decimal(-n) else Decimal(n)
  }

  predicate Fits32(n: int) {
    -0x8000_0000 <= n < 0x8000_0000
  }

  lemma SignedIsParsed(n: int)
    ensures ParseInt(Signed(n)) == if Fits32(n) then Some(n) else None
    ensures Signed(n) != ""
  {
    hide ParseInt, Digits, Decimal;
    if n < 0 {
      DigitsRoundTrip(-n);
      DigitsParse(Decimal(-n), n, true);
    } else {
      DigitsRoundTrip(n);
      DigitsParse(Decimal(n), n, false);
    }
  }

  /** Digits parse as their number, with a minus in front as its negative. */
  lemma DigitsParse(s: string, n: int, minus: bool)
    requires s != "" && IsDigit(s[0]) && minus == (n < 0) && Digits(s) == Some(if minus then -n else n)
    ensures ParseInt(if minus then "-" + s else s) == if Fits32(n) then Some(n) else None
  {
    hide Digits;
    assert ("-" + s)[1..] == s;
  }

  lemma SignedIsPlain(n: int)
    ensures forall c :: c in Signed(n) ==> IsDigit(c) || c == '-'
  {
    DigitsRoundTrip(if n < 0 then -n else n);
    hide Digits, Decimal;
  }

  lemma ExitOfDigits(tail: string)
    requires tail != "" && forall c :: c in tail ==> IsDigit(c) || c == '-'
    ensures ExitOf(tail) == ParseInt(tail)
  {
    hide ParseInt;
    assert ';' !in tail;
    assert Before(tail, ';') == tail;
    assert tail[0] in tail && tail[|tail| - 1] in tail;
    TrimmedIsKept(tail);
  }

  lemma ExitParses(kind: string, tail: string)
    requires kind == "133" || kind == "633"
    ensures Parse(kind + ";D;" + tail) == Some(CommandFinished(ExitOf(tail)))
  {
    hide ExitOf, Before, After;
    var payload := kind + ";D;" + tail;
    assert payload == kind + [';'] + ("D" + [';'] + tail);
    FindSplits(kind, ';', "D" + [';'] + tail);
    FindSplits("D", ';', tail);
  }

  /** The exit status a shell reports is read back, exactly when it fits 32 bits. */
  lemma ExitRoundTrip(m: Machine, kind: string, n: int, end: string)
    requires m.phase.Ground? && Terminator(end) && (kind == "133" || kind == "633")
    requires |Signed(n)| <= MAX_PAYLOAD - 6
    ensures var bytes := INTRODUCER + (kind + ";D;" + Signed(n)) + end;
      MarksOf(m, bytes) == [(|bytes|, CommandFinished(if Fits32(n) then Some(n) else None))]
  {
    hide Advanced, MarksOf, Signed, ParseInt, ExitOf, Parse;
    SignedIsParsed(n);
    SignedIsPlain(n);
    ExitOfDigits(Signed(n));
    ExitParses(kind, Signed(n));
    ControlStringIsScanned(m, kind + ";D;" + Signed(n), end);
  }

  // ----- the parameters of a prompt

  function PairText(pair: (string, string)): string {
    pair.0 + "=" + pair.1
  }

  function PairTexts(pairs: seq<(string, string)>): (r: seq<string>)
    ensures |r| == |pairs|
  {
    seq(|pairs|, i requires 0 <= i < |pairs| => PairText(pairs[i]))
  }

  /** Keys without separators, values without semicolons. */
  predicate Separable(pairs: seq<(string, string)>) {
    forall i :: 0 <= i < |pairs| ==> '=' !in pairs[i].0 && ';' !in pairs[i].0 && ';' !in pairs[i].1
  }

  lemma {:induction false} PairsOfTexts(pairs: seq<(string, string)>)
    requires Separable(pairs)
    ensures Pairs(PairTexts(pairs)) == pairs && NoneHas(PairTexts(pairs), ';')
  {
    if pairs == [] {
    } else {
      hide Before, After;
      PairsOfTexts(pairs[1..]);
      FindSplits(pairs[0].0, '=', pairs[0].1);
      assert pairs[0].0 + ['='] + pairs[0].1 == PairText(pairs[0]);
      assert PairTexts(pairs)[1..] == PairTexts(pairs[1..]);
      assert PairText(pairs[0]) != "";
      forall i | 0 <= i < |pairs| ensures ';' !in PairTexts(pairs)[i] {
        assert ';' !in "=";
      }
    }
  }

  /** The key and value pairs of a prompt mark are read back, in order. */
  lemma PromptRoundTrip(pairs: seq<(string, string)>)
    requires Separable(pairs)
    ensures Parse("133;A;" + Join(PairTexts(pairs), ";")) == Some(PromptStart(pairs))
  {
    hide Before, After, Join, Pairs, PairTexts, Separable;
    var tail := Join(PairTexts(pairs), ";");
    assert "133;A;" + tail == "133" + [';'] + ("A" + [';'] + tail);
    FindSplits("133", ';', "A" + [';'] + tail);
    FindSplits("A", ';', tail);
    PairsOfTexts(pairs);
    assert [';'] == ";";
    if pairs == [] {
      NoPairs();
    } else {
      SplitJoin(PairTexts(pairs), ';');
    }
  }

  /** A parameter without a value has an empty one, and empty parameters are none. */
  lemma BareParameters(key: string, rest: seq<string>)
    requires key != "" && '=' !in key
    ensures Pairs([key] + rest) == [(key, "")] + Pairs(rest) && Pairs([""] + rest) == Pairs(rest)
  {
    NothingSplits(key, '=');
    assert ([key] + rest)[1..] == rest && ([""] + rest)[1..] == rest;
  }

  lemma NoPairs()
    ensures Pairs(Split(Join(PairTexts([]), ";"), ';')) == []
  {
    assert PairTexts([]) == [];
    assert Split("", ';') == [""];
  }

  // ----- what each code means

  /** A payload of a kind, a code and perhaps more. */
  function Sent(kind: string, code: string, tail: Option<string>): string {
    kind + ";" + code + if tail.Some? then ";" + tail.value else ""
  }

  lemma SentParts(kind: string, code: string, tail: Option<string>)
    requires ';' !in kind && ';' !in code
    ensures var p := Sent(kind, code, tail);
      && Before(p, ';') == kind
      && Before(After(p, ';'), ';') == code && After(After(p, ';'), ';') == (if tail.Some? then tail.value else "")
      && After(p, ';') == code + if tail.Some? then ";" + tail.value else ""
  {
    hide Before, After;
    var rest := code + if tail.Some? then ";" + tail.value else "";
    assert Sent(kind, code, tail) == kind + [';'] + rest;
    FindSplits(kind, ';', rest);
    if tail.Some? {
      assert rest == code + [';'] + tail.value;
      FindSplits(code, ';', tail.value);
    } else {
      assert rest == code;
      NothingSplits(code, ';');
    }
  }

  lemma CommandsAreLines(tail: string)
    ensures CommandOf(tail).CommandLine?
  {
  }

  lemma SentRest(kind: string, code: string, tail: Option<string>)
    ensures Sent(kind, code + if tail.Some? then ";" + tail.value else "", None) == Sent(kind, code, tail)
  {
  }

  lemma NothingSplits(s: string, c: char)
    requires c !in s
    ensures Before(s, c) == s && After(s, c) == ""
  {
  }

  /** Starts, executions and ends of commands are told by one letter, in either kind
      and whatever comes after; a prompt by A, P, I or N in the one and by A or P in
      the other, where only P has parameters. Any other code is malformed, and any
      other kind is nothing. */
  lemma CodesMean(code: string, tail: Option<string>)
    requires ';' !in code
    ensures var p, q := Parse(Sent("133", code, tail)), Parse(Sent("633", code, tail));
      && (p == Some(CommandStart) <==> code == "B") && (q == Some(CommandStart) <==> code == "B")
      && (p == Some(CommandExecuted) <==> code == "C") && (q == Some(CommandExecuted) <==> code == "C")
      && p.Some? && (p.value.CommandFinished? <==> code == "D")
      && q.Some? && (q.value.CommandFinished? <==> code == "D") && (code == "D" ==> p == q)
      && !p.value.CommandLine? && (q.value.CommandLine? <==> code == "E")
      && (p.value.PromptStart? <==> code in {"A", "P", "I", "N"})
      && (p.value.PromptStart? ==> p == Parse(Sent("133", "A", tail)))
      && (q.value.PromptStart? <==> code in {"A", "P"})
      && (code == "A" ==> q == Some(PromptStart([])))
      && (code == "P" ==> q == Parse(Sent("133", "A", tail)))
      && (p.value.Malformed? ==> Sent("133", p.value.payload, None) == Sent("133", code, tail))
      && (q.value.Malformed? ==> Sent("633", q.value.payload, None) == Sent("633", code, tail))
  {
    hide Before, After, Sent, Split, Pairs, CommandOf, ExitOf;
    SentParts("133", code, tail);
    SentParts("633", code, tail);
    SentParts("133", "A", tail);
    CommandsAreLines(if tail.Some? then tail.value else "");
    SentRest("133", code, tail);
    SentRest("633", code, tail);
  }

  lemma OtherKindsAreNothing(kind: string, code: string, tail: Option<string>)
    requires ';' !in kind && ';' !in code
    ensures Parse(Sent(kind, code, tail)).Some? <==> kind == "133" || kind == "633"
  {
    hide Before, After, Sent, Parse133, Parse633;
    SentParts(kind, code, tail);
  }

  // ----- numbers, escapes and white space, as they may also be written

  function Blanks(s: string): bool {
    forall i :: 0 <= i < |s| ==> s[i] == ' ' || s[i] == '\t'
  }

  lemma {:induction false} TrimmedOf(before: string, s: string, after: string)
    requires Blanks(before) && Blanks(after) && s != "" && !IsSpace(s[0]) && !IsSpace(s[|s| - 1])
    ensures Trim(before + s + after) == s
    decreases |before| + |after|
  {
    var all := before + s + after;
    if before != "" {
      TrimmedOf(before[1..], s, after);
      assert all[1..] == before[1..] + s + after && all[0] == before[0];
    } else if after != "" {
      TrimmedOf("", s, after[..|after| - 1]);
      assert all == s + after && all[0] == s[0] && all[|all| - 1] == after[|after| - 1];
      assert all[..|all| - 1] == "" + s + after[..|after| - 1];
    } else {
      assert all == s;
      TrimmedIsKept(s);
    }
  }

  /** A status is an optional sign and digits, within 32 bits, in the first field,
      blanks around it or not; anything else is no status. */
  lemma StatusIsRead(before: string, sign: string, digits: string, after: string, more: Option<string>)
    requires Blanks(before) && Blanks(after) && sign in {"", "+", "-"} && IsNumeral(digits)
    ensures Digits(digits).Some?
    ensures var d: int := Digits(digits).value;
      var n := if sign == "-" then -d else d;
      ExitOf(before + (sign + digits) + after + if more.Some? then ";" + more.value else "")
      == if Fits32(n) then Some(n) else None
  {
    NumeralIsRead(sign, digits);
    StatusField(before, sign, digits, after);
    hide *;
    var field := before + (sign + digits) + after;
    FirstField(field, more);
    ExitOfField(field + if more.Some? then ";" + more.value else "", sign + digits);
  }

  lemma ExitOfField(tail: string, s: string)
    requires Trim(Before(tail, ';')) == s
    ensures ExitOf(tail) == ParseInt(s)
  {
    hide Trim, Before, ParseInt;
  }

  lemma StatusField(before: string, sign: string, digits: string, after: string)
    requires Blanks(before) && Blanks(after) && sign in {"", "+", "-"} && IsNumeral(digits)
    ensures var field := before + (sign + digits) + after; ';' !in field && Trim(field) == sign + digits
  {
    var s := sign + digits;
    assert s[0] == (if sign == "" then digits[0] else sign[0]) && s[|s| - 1] == digits[|digits| - 1];
    assert ';' !in sign && ';' !in digits && ';' !in before && ';' !in after;
    hide Blanks, IsNumeral;
    TrimmedOf(before, s, after);
  }

  lemma FirstField(field: string, more: Option<string>)
    requires ';' !in field
    ensures Before(field + if more.Some? then ";" + more.value else "", ';') == field
  {
    if more.Some? {
      assert field + (";" + more.value) == field + [';'] + more.value;
      FindSplits(field, ';', more.value);
    } else {
      assert field + "" == field;
      NothingSplits(field, ';');
    }
  }

  lemma NumeralIsRead(sign: string, digits: string)
    requires sign in {"", "+", "-"} && IsNumeral(digits)
    ensures Digits(digits).Some?
    ensures var d: int := Digits(digits).value;
      var n := if sign == "-" then -d else d;
      ParseInt(sign + digits) == if Fits32(n) then Some(n) else None
  {
    DigitsAre(digits);
    hide Digits;
    assert sign != "" ==> (sign + digits)[1..] == digits;
    assert sign == "" ==> sign + digits == digits;
  }

  lemma OnlyNumeralsAreRead(tail: string)
    ensures ExitOf(tail).Some? ==>
      var s := Trim(Before(tail, ';')); IsNumeral(s) || (s != "" && s[0] in "+-" && IsNumeral(s[1..]))
  {
    var s := Trim(Before(tail, ';'));
    DigitsAre(s);
    if s != "" {
      DigitsAre(s[1..]);
    }
    hide Digits;
  }

  function UpperHexChar(d: nat): char
    requires d < 16
  {
    if d < 10 then '0' + d as char else 'A' + (d - 10) as char
  }

  predicate IsHex(c: char, d: nat) {
    d < 16 && (c == HexChar(d) || c == UpperHexChar(d))
  }

  lemma HexDigitIs(c: char, d: nat)
    ensures HexDigit(c) == Some(d) <==> IsHex(c, d)
  {
  }

  /** The two characters of an escape: hexadecimal digits in either case, or a plus
      and one of them. */
  lemma EscapesAre(a: char, b: char, n: nat)
    ensures HexByte(a, b) == Some(n) <==> (a == '+' && IsHex(b, n)) || (IsHex(a, n / 16) && IsHex(b, n % 16))
  {
    hide HexDigit, IsHex;
    HexDigitIs(b, n);
    HexDigitIs(a, n / 16);
    HexDigitIs(b, n % 16);
    PlusIsNoHex(n / 16);
    HexBounds(a);
    HexBounds(b);
  }

  lemma PlusIsNoHex(d: nat)
    ensures !IsHex('+', d)
  {
  }

  lemma HexBounds(c: char)
    ensures HexDigit(c).Some? ==> HexDigit(c).value < 16
  {
  }

  /** Text that has no backslash before an x stays as it is. */
  lemma {:induction false} PlainTextStays(s: string)
    requires forall i :: 0 <= i < |s| - 1 ==> !(s[i] == '\\' && s[i + 1] == 'x')
    ensures Unescaped(s) == s
  {
    hide HexByte;
    if s != "" {
      forall i | 0 <= i < |s[1..]| - 1 ensures !(s[1..][i] == '\\' && s[1..][i + 1] == 'x') {
        assert s[1..][i] == s[i + 1] && s[1..][i + 1] == s[i + 2];
      }
      PlainTextStays(s[1..]);
    }
  }
}
