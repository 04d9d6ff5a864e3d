/** The detector of terminal modes in a session's output: it looks for eight
    control sequences, and carries the end of one chunk over to the next. */
module Detector {
  import opened Bytes
  import opened Sequences
  import opened Wrappers

  const ESC: Byte := 0x1b
  const WINDOW := 12

  datatype Flag = AltScreen | BracketedPaste | KittyKeyboard

  datatype Modes = Modes(altScreen: bool, bracketedPaste: bool, kittyKeyboard: bool)

  const NO_MODES := Modes(false, false, false)

  /** What a control sequence does: sets a flag, and says so if that changed it. */
  datatype Change = Change(flag: Flag, to: bool, what: string)

  datatype ModeSeq = ModeSeq(bytes: seq<Byte>, change: Change)

  const ENTERED := Change(AltScreen, true, "entered the alternate screen")
  const LEFT := Change(AltScreen, false, "left the alternate screen")
  const PASTE_ON := Change(BracketedPaste, true, "enabled bracketed paste")
  const PASTE_OFF := Change(BracketedPaste, false, "disabled bracketed paste")
  const KITTY_ON := Change(KittyKeyboard, true, "pushed kitty keyboard flags")
  const KITTY_OFF := Change(KittyKeyboard, false, "popped kitty keyboard flags")

  const MODE_SEQS: seq<ModeSeq> := [
    ModeSeq([0x1b, 0x5b, 0x3f, 0x31, 0x30, 0x34, 0x39, 0x68], ENTERED), // ESC [ ? 1 0 4 9 h
    ModeSeq([0x1b, 0x5b, 0x3f, 0x31, 0x30, 0x34, 0x39, 0x6c], LEFT), // ESC [ ? 1 0 4 9 l
    ModeSeq([0x1b, 0x5b, 0x3f, 0x34, 0x37, 0x68], ENTERED), // ESC [ ? 4 7 h
    ModeSeq([0x1b, 0x5b, 0x3f, 0x34, 0x37, 0x6c], LEFT), // ESC [ ? 4 7 l
    ModeSeq([0x1b, 0x5b, 0x3f, 0x32, 0x30, 0x30, 0x34, 0x68], PASTE_ON), // ESC [ ? 2 0 0 4 h
    ModeSeq([0x1b, 0x5b, 0x3f, 0x32, 0x30, 0x30, 0x34, 0x6c], PASTE_OFF), // ESC [ ? 2 0 0 4 l
    ModeSeq([0x1b, 0x5b, 0x3e, 0x31, 0x75], KITTY_ON), // ESC [ > 1 u
    ModeSeq([0x1b, 0x5b, 0x3c, 0x75], KITTY_OFF) // ESC [ < u
  ]

  /** The bytes h, l and u. */
  predicate IsFinal(b: Byte) {
    b == 0x68 || b == 0x6c || b == 0x75
  }

  /** A sequence starts with the one escape it has, and ends with the one final
      byte it has. */
  predicate WellFormed(m: ModeSeq) {
    && 2 <= |m.bytes| <= 8 && m.bytes[0] == ESC && IsFinal(m.bytes[|m.bytes| - 1])
    && (forall i :: 1 <= i < |m.bytes| ==> m.bytes[i] != ESC)
    && (forall i :: 0 <= i < |m.bytes| - 1 ==> !IsFinal(m.bytes[i]))
  }

  lemma SequencesAreWellFormed(k: nat)
    requires k < |MODE_SEQS|
    ensures WellFormed(MODE_SEQS[k])
  {
    hide WellFormed;
    if k < 4 {
      ScreenSequences(k);
    } else {
      OtherSequences(k);
    }
  }

  lemma ScreenSequences(k: nat)
    requires k < 4
    ensures WellFormed(MODE_SEQS[k])
  {
  }

  lemma OtherSequences(k: nat)
    requires 4 <= k < |MODE_SEQS|
    ensures WellFormed(MODE_SEQS[k])
  {
  }

  // ----- one change

  function Get(m: Modes, flag: Flag): bool {
    match flag
    case AltScreen => m.altScreen
    case BracketedPaste => m.bracketedPaste
    case KittyKeyboard => m.kittyKeyboard
  }

  function Put(m: Modes, flag: Flag, to: bool): Modes {
    match flag
    case AltScreen => m.(altScreen := to)
    case BracketedPaste => m.(bracketedPaste := to)
    case KittyKeyboard => m.(kittyKeyboard := to)
  }

  /** The modes after some input, and the transitions reported on the way. */
  datatype Scan = Scan(modes: Modes, reports: seq<string>)

  function Changed(s: Scan, c: Change): Scan {
    if Get(s.modes, c.flag) == c.to then s
    else Scan(Put(s.modes, c.flag, c.to), s.reports + [c.what])
  }

  // ----- the specification: every position of a stream, left to right

  predicate StartsWith(input: seq<Byte>, m: ModeSeq) {
    m.bytes <= input
  }

  /** The first listed sequence, from the k-th on, that the input starts with. */
  function FirstOf(input: seq<Byte>, k: nat): (j: nat)
    requires k <= |MODE_SEQS|
    ensures k <= j <= |MODE_SEQS|
    ensures j < |MODE_SEQS| ==> StartsWith(input, MODE_SEQS[j])
    decreases |MODE_SEQS| - k
  {
    if k == |MODE_SEQS| || StartsWith(input, MODE_SEQS[k]) then k else FirstOf(input, k + 1)
  }

  predicate Matches(input: seq<Byte>) {
    FirstOf(input, 0) < |MODE_SEQS|
  }

  function Here(s: Scan, input: seq<Byte>): Scan {
    var j := FirstOf(input, 0);
    if j < |MODE_SEQS| then Changed(s, MODE_SEQS[j].change) else s
  }

  /** The effect of the sequences that start at positions lo up to hi. */
  function Scanned(s: Scan, stream: seq<Byte>, lo: nat, hi: nat): Scan
    requires lo <= hi <= |stream|
    decreases hi - lo
  {
    if lo == hi then s else Here(Scanned(s, stream, lo, hi - 1), stream[hi - 1..])
  }

  function Reading(stream: seq<Byte>): Scan {
    Scanned(Scan(NO_MODES, []), stream, 0, |stream|)
  }

  // ----- facts about matching

  lemma {:induction false} FirstOfEscape(input: seq<Byte>, k: nat)
    requires k <= |MODE_SEQS| && (input == [] || input[0] != ESC)
    ensures FirstOf(input, k) == |MODE_SEQS|
    decreases |MODE_SEQS| - k
  {
    hide StartsWith;
    if k < |MODE_SEQS| {
      NoEscapeNoStart(input, k);
      FirstOfEscape(input, k + 1);
    }
  }

  lemma NoEscapeNoStart(input: seq<Byte>, k: nat)
    requires k < |MODE_SEQS| && (input == [] || input[0] != ESC)
    ensures !StartsWith(input, MODE_SEQS[k])
  {
    SequencesAreWellFormed(k);
    hide WellFormed;
    StartBytes(input, MODE_SEQS[k]);
  }

  lemma StartBytes(input: seq<Byte>, m: ModeSeq)
    requires WellFormed(m)
    ensures StartsWith(input, m) <==> |m.bytes| <= |input| && forall i :: 0 <= i < |m.bytes| ==> input[i] == m.bytes[i]
    ensures StartsWith(input, m) ==> input != [] && input[0] == ESC
  {
  }

  lemma OnlyEscapesMatter(s: Scan, input: seq<Byte>)
    requires input == [] || input[0] != ESC
    ensures Here(s, input) == s
  {
    FirstOfEscape(input, 0);
  }

  /** The sequences an input can start with do not depend on what follows its
      first eight bytes, or a second escape. */
  ghost predicate Settled(input: seq<Byte>) {
    |input| >= 8 || (exists i :: 1 <= i < |input| && input[i] == ESC)
  }

  lemma {:induction false} MatchIsLocal(input: seq<Byte>, more: seq<Byte>, k: nat)
    requires k <= |MODE_SEQS| && Settled(input)
    ensures FirstOf(input + more, k) == FirstOf(input, k)
    decreases |MODE_SEQS| - k
  {
    hide StartsWith, Settled;
    if k < |MODE_SEQS| {
      SequencesAreWellFormed(k);
      StartIsLocal(input, more, MODE_SEQS[k]);
      MatchIsLocal(input, more, k + 1);
    }
  }

  lemma StartIsLocal(input: seq<Byte>, more: seq<Byte>, m: ModeSeq)
    requires WellFormed(m) && (Settled(input) || |m.bytes| <= |input|)
    ensures StartsWith(input + more, m) <==> StartsWith(input, m)
  {
    hide StartsWith, IsFinal;
    StartBytes(input, m);
    StartBytes(input + more, m);
    assert forall i :: 0 <= i < |input| ==> (input + more)[i] == input[i];
  }

  /** A match stays the same match whatever follows: no sequence begins with
      another. */
  lemma {:induction false} MatchStays(input: seq<Byte>, more: seq<Byte>, k: nat)
    requires k <= |MODE_SEQS| && FirstOf(input, k) < |MODE_SEQS|
    ensures FirstOf(input + more, k) == FirstOf(input, k)
    decreases |MODE_SEQS| - k
  {
    hide StartsWith;
    var j := FirstOf(input, k);
    SequencesAreWellFormed(k);
    SequencesAreWellFormed(j);
    if |MODE_SEQS[k].bytes| <= |input| {
      StartIsLocal(input, more, MODE_SEQS[k]);
    } else {
      LongerCannotStart(input, more, MODE_SEQS[k], MODE_SEQS[j]);
      StartBytes(input, MODE_SEQS[k]);
    }
    if k < j {
      MatchStays(input, more, k + 1);
    }
  }

  lemma LongerCannotStart(input: seq<Byte>, more: seq<Byte>, long: ModeSeq, m: ModeSeq)
    requires WellFormed(long) && WellFormed(m) && StartsWith(input, m) && |long.bytes| > |input|
    ensures !StartsWith(input + more, long)
  {
    hide StartsWith, IsFinal;
    StartBytes(input, m);
    StartBytes(input + more, long);
    var last := |m.bytes| - 1;
    assert (input + more)[last] == input[last] == m.bytes[last];
  }

  // ----- scanning in parts

  lemma {:induction false} ScannedSplit(s: Scan, stream: seq<Byte>, lo: nat, mid: nat, hi: nat)
    requires lo <= mid <= hi <= |stream|
    ensures Scanned(s, stream, lo, hi) == Scanned(Scanned(s, stream, lo, mid), stream, mid, hi)
    decreases hi - mid
  {
    hide Here;
    if mid < hi {
      ScannedSplit(s, stream, lo, mid, hi - 1);
    }
  }

  /** A scan sees only the bytes from where it starts. */
  lemma {:induction false} ScannedSuffix(s: Scan, stream: seq<Byte>, at: nat, hi: nat)
    requires at <= hi <= |stream|
    ensures Scanned(s, stream, at, hi) == Scanned(s, stream[at..], 0, hi - at)
    decreases hi - at
  {
    hide Here;
    if at < hi {
      ScannedSuffix(s, stream, at, hi - 1);
      assert stream[at..][hi - 1 - at..] == stream[hi - 1..];
    }
  }

  /** Positions without an escape change nothing. */
  lemma {:induction false} ScannedQuiet(s: Scan, stream: seq<Byte>, lo: nat, hi: nat)
    requires lo <= hi <= |stream| && forall i :: lo <= i < hi ==> stream[i] != ESC
    ensures Scanned(s, stream, lo, hi) == s
    decreases hi - lo
  {
    hide Here;
    if lo < hi {
      ScannedQuiet(s, stream, lo, hi - 1);
      OnlyEscapesMatter(s, stream[hi - 1..]);
    }
  }

  /** A position whose effect no further input can change. */
  ghost predicate Decided(stream: seq<Byte>, i: nat)
    requires i < |stream|
  {
    stream[i] != ESC || Settled(stream[i..])
  }

  lemma HereExtends(s: Scan, stream: seq<Byte>, more: seq<Byte>, i: nat)
    requires i < |stream| && Decided(stream, i)
    ensures Here(s, (stream + more)[i..]) == Here(s, stream[i..])
  {
    hide Settled;
    var input := stream[i..];
    assert (stream + more)[i..] == input + more;
    if stream[i] != ESC {
      OnlyEscapesMatter(s, input);
      OnlyEscapesMatter(s, input + more);
    } else {
      MatchIsLocal(input, more, 0);
    }
  }

  lemma {:induction false} ScannedExtends(s: Scan, stream: seq<Byte>, more: seq<Byte>, hi: nat)
    requires hi <= |stream| && forall i :: 0 <= i < hi ==> Decided(stream, i)
    ensures Scanned(s, stream + more, 0, hi) == Scanned(s, stream, 0, hi)
    decreases hi
  {
    hide Decided, Here;
    if hi > 0 {
      ScannedExtends(s, stream, more, hi - 1);
      HereExtends(Scanned(s, stream, 0, hi - 1), stream, more, hi - 1);
    }
  }

  /** What was reported before is not looked at again. */
  lemma {:induction false} ScannedReports(m: Modes, before: seq<string>, stream: seq<Byte>, lo: nat, hi: nat)
    requires lo <= hi <= |stream|
    ensures var t := Scanned(Scan(m, []), stream, lo, hi);
      Scanned(Scan(m, before), stream, lo, hi) == Scan(t.modes, before + t.reports)
    decreases hi - lo
  {
    hide FirstOf;
    if lo < hi {
      ScannedReports(m, before, stream, lo, hi - 1);
      var t := Scanned(Scan(m, []), stream, lo, hi - 1);
      var input := stream[hi - 1..];
      HereReports(t, before, input);
    } else {
      assert before + [] == before;
    }
  }

  lemma HereReports(t: Scan, before: seq<string>, input: seq<Byte>)
    ensures Here(Scan(t.modes, before + t.reports), input) ==
      Scan(Here(t, input).modes, before + Here(t, input).reports)
  {
    hide FirstOf;
    var j := FirstOf(input, 0);
    if j < |MODE_SEQS| {
      var what := MODE_SEQS[j].change.what;
      assert before + t.reports + [what] == before + (t.reports + [what]);
    }
  }

  // ----- the carry

  /** The last escape among the last twelve bytes, or the end. */
  function CarryAt(buf: seq<Byte>): (p: nat)
    ensures p <= |buf|
    ensures |buf| - p <= WINDOW
    ensures p < |buf| ==> buf[p] == ESC
    ensures forall i :: p < i < |buf| ==> buf[i] != ESC
    ensures p == |buf| ==> forall i :: 0 <= i < |buf| && |buf| - WINDOW <= i ==> buf[i] != ESC
  {
    LastEscape(buf, |buf|)
  }

  function LastEscape(buf: seq<Byte>, end: nat): (p: nat)
    requires end <= |buf| && |buf| - WINDOW <= end
    requires forall i :: end <= i < |buf| ==> buf[i] != ESC
    ensures p <= |buf| && |buf| - p <= WINDOW
    ensures p < |buf| ==> buf[p] == ESC
    ensures forall i :: p < i < |buf| ==> buf[i] != ESC
    ensures p == |buf| ==> forall i :: 0 <= i < |buf| && |buf| - WINDOW <= i ==> buf[i] != ESC
  {
    if end == 0 || end == |buf| - WINDOW then |buf|
    else if buf[end - 1] == ESC then end - 1
    else LastEscape(buf, end - 1)
  }

  function CarryOf(buf: seq<Byte>): (c: seq<Byte>)
    ensures |c| <= WINDOW
  {
    buf[CarryAt(buf)..]
  }

  /** Only the carry can grow into a sequence: everything before it is decided. */
  lemma BeforeCarryIsDecided(buf: seq<Byte>, i: nat)
    requires i < CarryAt(buf)
    ensures Decided(buf, i)
  {
    var p := CarryAt(buf);
    if p < |buf| {
      assert buf[i..][p - i] == ESC;
    }
  }

  lemma CarryIsUnique(buf: seq<Byte>, p: nat)
    requires p <= |buf| && |buf| - p <= WINDOW
    requires p < |buf| ==> buf[p] == ESC
    requires forall i :: p < i < |buf| ==> buf[i] != ESC
    requires p == |buf| ==> forall i :: 0 <= i < |buf| && |buf| - WINDOW <= i ==> buf[i] != ESC
    ensures CarryAt(buf) == p
  {
  }

  // ----- the state after any input

  datatype State = State(modes: Modes, carry: seq<Byte>)

  const INIT := State(NO_MODES, [])

  /** One chunk: the whole carry is scanned again in front of it. */
  function Chunk(s: State, bytes: seq<Byte>): (State, seq<string>) {
    var buf := s.carry + bytes;
    var t := Scanned(Scan(s.modes, []), buf, 0, |buf|);
    (State(t.modes, CarryOf(buf)), t.reports)
  }

  function Fed(s: State, chunks: seq<seq<Byte>>): (State, seq<string>) {
    if chunks == [] then (s, [])
    else
      var before := Fed(s, chunks[..|chunks| - 1]);
      var step := Chunk(before.0, chunks[|chunks| - 1]);
      (step.0, before.1 + step.1)
  }

  /** No escape among the last twelve bytes. */
  predicate Quiet(buf: seq<Byte>) {
    forall i :: 0 <= i < |buf| && |buf| - WINDOW <= i ==> buf[i] != ESC
  }

  lemma CarryBehind(front: seq<Byte>, buf: seq<Byte>)
    requires Quiet(front) || (buf != [] && buf[0] == ESC)
    ensures CarryAt(front + buf) == |front| + CarryAt(buf)
  {
    hide CarryAt;
    var all, n, q := front + buf, |front|, CarryAt(buf);
    forall i | n + q < i < |all| ensures all[i] != ESC {
      assert all[i] == buf[i - n];
    }
    if q == |buf| {
      assert buf != [] && buf[0] == ESC ==> |buf| > WINDOW;
      forall i | 0 <= i < |all| && |all| - WINDOW <= i ensures all[i] != ESC {
        if i >= n {
          assert all[i] == buf[i - n];
        } else {
          assert all[i] == front[i];
        }
      }
    } else {
      assert all[n + q] == buf[q];
    }
    CarryIsUnique(all, n + q);
  }

  /** The carry of a stream is the carry of its last chunk behind the carry of
      the rest. */
  lemma CarryOfCarry(stream: seq<Byte>, bytes: seq<Byte>)
    ensures CarryOf(CarryOf(stream) + bytes) == CarryOf(stream + bytes)
  {
    hide CarryAt, Quiet;
    var p := CarryAt(stream);
    var front, buf := stream[..p], stream[p..] + bytes;
    assert stream + bytes == front + buf;
    if p < |stream| {
      assert buf[0] == ESC;
    } else {
      assert Quiet(front) by {
        assert front == stream;
        NothingCarried(stream);
      }
    }
    CarryBehind(front, buf);
    assert (front + buf)[p + CarryAt(buf)..] == buf[CarryAt(buf)..];
  }

  lemma NothingCarried(buf: seq<Byte>)
    requires CarryAt(buf) == |buf|
    ensures Quiet(buf)
  {
  }

  /** Applying the sequence at the carry's start again changes nothing. */
  lemma RescanIsIdempotent(a: Scan, carry: seq<Byte>, bytes: seq<Byte>)
    requires carry != []
    ensures Here(Here(a, carry), carry + bytes) == Here(a, carry + bytes)
  {
    hide FirstOf;
    if Matches(carry) {
      MatchStays(carry, bytes, 0);
    }
  }

  lemma ScannedOne(s: Scan, stream: seq<Byte>)
    requires stream != []
    ensures Scanned(s, stream, 0, 1) == Here(s, stream)
  {
    assert stream[0..] == stream;
    assert Scanned(s, stream, 0, 0) == s;
  }

  /** Reading the stream up to its carry, and then the carry. */
  lemma ReadingToCarry(stream: seq<Byte>) returns (a: Scan)
    ensures a == Scanned(Scan(NO_MODES, []), stream, 0, CarryAt(stream))
    ensures Reading(stream) == if CarryOf(stream) == [] then a else Here(a, CarryOf(stream))
  {
    hide Here;
    var p, n := CarryAt(stream), |stream|;
    var start := Scan(NO_MODES, []);
    a := Scanned(start, stream, 0, p);
    if p < n {
      ScannedSplit(start, stream, 0, p, n);
      ScannedSplit(a, stream, p, p + 1, n);
      ScannedQuiet(Scanned(a, stream, p, p + 1), stream, p + 1, n);
    }
  }

  /** The next chunk continues the reading, although it scans the carry twice. */
  lemma ChunkContinues(stream: seq<Byte>, bytes: seq<Byte>)
    ensures var buf := CarryOf(stream) + bytes;
      Scanned(Reading(stream), buf, 0, |buf|) == Reading(stream + bytes)
  {
    hide Here, Decided;
    var start := Scan(NO_MODES, []);
    var p, all, carry := CarryAt(stream), stream + bytes, CarryOf(stream);
    var buf := carry + bytes;
    var a := ReadingToCarry(stream);
    assert all[p..] == buf;
    ScannedSplit(start, all, 0, p, |all|);
    forall i | 0 <= i < p ensures Decided(stream, i) {
      BeforeCarryIsDecided(stream, i);
    }
    ScannedExtends(start, stream, bytes, p);
    ScannedSuffix(a, all, p, |all|);
    assert Reading(all) == Scanned(a, buf, 0, |buf|);
    if carry != [] {
      var b := Here(a, carry);
      ScannedSplit(a, buf, 0, 1, |buf|);
      ScannedSplit(b, buf, 0, 1, |buf|);
      ScannedOne(a, buf);
      ScannedOne(b, buf);
      RescanIsIdempotent(a, carry, bytes);
    }
  }

  /** After any chunks the modes and the reports are those of the whole stream,
      each transition once, and the carry is the stream's. */
  lemma {:induction false} FedIsReading(chunks: seq<seq<Byte>>)
    ensures var stream := Whole(chunks);
      Fed(INIT, chunks) == (State(Reading(stream).modes, CarryOf(stream)), Reading(stream).reports)
  {
    hide Here;
    if chunks != [] {
      var init, bytes := chunks[..|chunks| - 1], chunks[|chunks| - 1];
      var stream := Whole(init);
      WholeSnoc(init, bytes);
      assert chunks == init + [bytes];
      FedIsReading(init);
      ChunkContinues(stream, bytes);
      CarryOfCarry(stream, bytes);
      var buf := CarryOf(stream) + bytes;
      ScannedReports(Reading(stream).modes, Reading(stream).reports, buf, 0, |buf|);
    }
  }

  /** How a stream is cut into chunks makes no difference, and the carry stays
      within the window. */
  lemma ChunksDoNotMatter(chunks: seq<seq<Byte>>)
    ensures Fed(INIT, chunks) == Chunk(INIT, Whole(chunks))
    ensures |Fed(INIT, chunks).0.carry| <= 12
  {
    hide Here, Scanned;
    FedIsReading(chunks);
    assert [] + Whole(chunks) == Whole(chunks);
  }

  // ----- what the sequences mean

  /** The input begins with this text. */
  predicate At(input: seq<Byte>, text: string) {
    |text| <= |input| && forall i :: 0 <= i < |text| ==> input[i] == text[i] as int
  }

  predicate Enters(input: seq<Byte>) {
    At(input, "\U{1B}[?1049h") || At(input, "\U{1B}[?47h")
  }

  predicate Leaves(input: seq<Byte>) {
    At(input, "\U{1B}[?1049l") || At(input, "\U{1B}[?47l")
  }

  predicate TurnsPasteOn(input: seq<Byte>) {
    At(input, "\U{1B}[?2004h")
  }

  predicate TurnsPasteOff(input: seq<Byte>) {
    At(input, "\U{1B}[?2004l")
  }

  predicate TurnsKittyOn(input: seq<Byte>) {
    At(input, "\U{1B}[>1u")
  }

  predicate TurnsKittyOff(input: seq<Byte>) {
    At(input, "\U{1B}[<u")
  }

  lemma Beginnings(input: seq<Byte>, k: nat)
    requires k < |MODE_SEQS|
    ensures StartsWith(input, MODE_SEQS[k]) ==>
      match k
      case 0 => At(input, "\U{1B}[?1049h")
      case 1 => At(input, "\U{1B}[?1049l")
      case 2 => At(input, "\U{1B}[?47h")
      case 3 => At(input, "\U{1B}[?47l")
      case 4 => At(input, "\U{1B}[?2004h")
      case 5 => At(input, "\U{1B}[?2004l")
      case 6 => At(input, "\U{1B}[>1u")
      case _ => At(input, "\U{1B}[<u")
  {
  }

  lemma Listed(input: seq<Byte>)
    ensures At(input, "\U{1B}[?1049h") ==> StartsWith(input, MODE_SEQS[0])
    ensures At(input, "\U{1B}[?1049l") ==> StartsWith(input, MODE_SEQS[1])
    ensures At(input, "\U{1B}[?47h") ==> StartsWith(input, MODE_SEQS[2])
    ensures At(input, "\U{1B}[?47l") ==> StartsWith(input, MODE_SEQS[3])
    ensures At(input, "\U{1B}[?2004h") ==> StartsWith(input, MODE_SEQS[4])
    ensures At(input, "\U{1B}[?2004l") ==> StartsWith(input, MODE_SEQS[5])
    ensures At(input, "\U{1B}[>1u") ==> StartsWith(input, MODE_SEQS[6])
    ensures At(input, "\U{1B}[<u") ==> StartsWith(input, MODE_SEQS[7])
  {
  }

  /** At most one sequence stands at a place. */
  lemma OneMeaning(input: seq<Byte>)
    ensures Enters(input) ==> !Leaves(input) && !TurnsPasteOn(input) && !TurnsPasteOff(input)
    ensures Enters(input) || Leaves(input) ==> !TurnsKittyOn(input) && !TurnsKittyOff(input)
    ensures Leaves(input) ==> !TurnsPasteOn(input) && !TurnsPasteOff(input)
    ensures TurnsPasteOn(input) ==> !TurnsPasteOff(input)
    ensures TurnsPasteOn(input) || TurnsPasteOff(input) ==> !TurnsKittyOn(input) && !TurnsKittyOff(input)
    ensures TurnsKittyOn(input) ==> !TurnsKittyOff(input)
  {
    SomeBytes(input, "\U{1B}[?1049h");
    SomeBytes(input, "\U{1B}[?1049l");
    SomeBytes(input, "\U{1B}[?47h");
    SomeBytes(input, "\U{1B}[?47l");
    SomeBytes(input, "\U{1B}[?2004h");
    SomeBytes(input, "\U{1B}[?2004l");
    SomeBytes(input, "\U{1B}[>1u");
    SomeBytes(input, "\U{1B}[<u");
    hide At;
  }

  lemma SomeBytes(input: seq<Byte>, text: string)
    requires |text| >= 4
    ensures At(input, text) ==> |text| <= |input| && input[2] == text[2] as int && input[3] == text[3] as int
    ensures At(input, text) ==> input[|text| - 1] == text[|text| - 1] as int
  {
  }

  lemma {:induction false} FirstOfListed(input: seq<Byte>, k: nat)
    requires k <= |MODE_SEQS|
    ensures FirstOf(input, k) == |MODE_SEQS| ==> forall j :: k <= j < |MODE_SEQS| ==> !StartsWith(input, MODE_SEQS[j])
    decreases |MODE_SEQS| - k
  {
    hide StartsWith;
    if k < |MODE_SEQS| && !StartsWith(input, MODE_SEQS[k]) {
      FirstOfListed(input, k + 1);
    }
  }

  /** What each sequence does where it stands: it sets its own mode and no other, and
      says so exactly if that changed it. Anything else does nothing. */
  lemma SequencesMean(s: Scan, input: seq<Byte>)
    ensures var m, t := s.modes, Here(s, input);
      && (Enters(input) ==> t == if m.altScreen then s
          else Scan(Modes(true, m.bracketedPaste, m.kittyKeyboard), s.reports + ["entered the alternate screen"]))
      && (Leaves(input) ==> t == if !m.altScreen then s
          else Scan(Modes(false, m.bracketedPaste, m.kittyKeyboard), s.reports + ["left the alternate screen"]))
      && (TurnsPasteOn(input) ==> t == if m.bracketedPaste then s
          else Scan(Modes(m.altScreen, true, m.kittyKeyboard), s.reports + ["enabled bracketed paste"]))
      && (TurnsPasteOff(input) ==> t == if !m.bracketedPaste then s
          else Scan(Modes(m.altScreen, false, m.kittyKeyboard), s.reports + ["disabled bracketed paste"]))
      && (TurnsKittyOn(input) ==> t == if m.kittyKeyboard then s
          else Scan(Modes(m.altScreen, m.bracketedPaste, true), s.reports + ["pushed kitty keyboard flags"]))
      && (TurnsKittyOff(input) ==> t == if !m.kittyKeyboard then s
          else Scan(Modes(m.altScreen, m.bracketedPaste, false), s.reports + ["popped kitty keyboard flags"]))
    ensures Enters(input) || Leaves(input) || TurnsPasteOn(input) || TurnsPasteOff(input)
            || TurnsKittyOn(input) || TurnsKittyOff(input) || Here(s, input) == s
  {
    var k := FirstOf(input, 0);
    Listed(input);
    FirstOfListed(input, 0);
    OneMeaning(input);
    if k < |MODE_SEQS| {
      Beginnings(input, k);
    }
    hide At, StartsWith, FirstOf;
  }

  /** The sequence stands somewhere, and the contrary one nowhere after it. */
  ghost predicate LastSaid(stream: seq<Byte>, hi: nat, on: seq<Byte> -> bool, off: seq<Byte> -> bool)
    requires hi <= |stream|
  {
    exists i: nat :: i < hi && on(stream[i..]) && forall j :: i < j < hi ==> !off(stream[j..])
  }

  lemma LastSaidStep(stream: seq<Byte>, hi: nat, on: seq<Byte> -> bool, off: seq<Byte> -> bool)
    requires hi < |stream| && !(on(stream[hi..]) && off(stream[hi..]))
    ensures LastSaid(stream, hi + 1, on, off) <==>
      on(stream[hi..]) || (LastSaid(stream, hi, on, off) && !off(stream[hi..]))
  {
    if i: nat :| i < hi && on(stream[i..]) && forall j :: i < j < hi ==> !off(stream[j..]) {
      if !off(stream[hi..]) {
        assert forall j :: i < j < hi + 1 ==> !off(stream[j..]);
      }
    }
    if i: nat :| i < hi + 1 && on(stream[i..]) && forall j :: i < j < hi + 1 ==> !off(stream[j..]) {
      assert i < hi ==> !off(stream[hi..]);
    }
  }

  lemma {:induction false} ModesUpTo(stream: seq<Byte>, hi: nat)
    requires hi <= |stream|
    ensures var m := Scanned(Scan(NO_MODES, []), stream, 0, hi).modes;
      && (m.altScreen <==> LastSaid(stream, hi, Enters, Leaves))
      && (m.bracketedPaste <==> LastSaid(stream, hi, TurnsPasteOn, TurnsPasteOff))
      && (m.kittyKeyboard <==> LastSaid(stream, hi, TurnsKittyOn, TurnsKittyOff))
  {
    hide Here, Enters, Leaves, TurnsPasteOn, TurnsPasteOff, TurnsKittyOn, TurnsKittyOff;
    if hi > 0 {
      ModesUpTo(stream, hi - 1);
      var s, input := Scanned(Scan(NO_MODES, []), stream, 0, hi - 1), stream[hi - 1..];
      OneMeaning(input);
      SequencesMean(s, input);
      LastSaidStep(stream, hi - 1, Enters, Leaves);
      LastSaidStep(stream, hi - 1, TurnsPasteOn, TurnsPasteOff);
      LastSaidStep(stream, hi - 1, TurnsKittyOn, TurnsKittyOff);
    }
  }

  /** However a stream is cut, each mode is on at its end exactly when the sequence that
      turns it on stands somewhere in it, and the one that turns it off nowhere after. */
  lemma ModesAreTheLastSaid(chunks: seq<seq<Byte>>)
    ensures var stream, m := Whole(chunks), Fed(INIT, chunks).0.modes;
      && (m.altScreen <==> LastSaid(stream, |stream|, Enters, Leaves))
      && (m.bracketedPaste <==> LastSaid(stream, |stream|, TurnsPasteOn, TurnsPasteOff))
      && (m.kittyKeyboard <==> LastSaid(stream, |stream|, TurnsKittyOn, TurnsKittyOff))
  {
    hide LastSaid, Fed, Scanned;
    FedIsReading(chunks);
    ModesUpTo(Whole(chunks), |Whole(chunks)|);
  }

  // ----- the detector of one session

  class Detector {
    var modes: Modes
    var carry: seq<Byte>

    ghost function View(): State
      reads this
    {
      State(modes, carry)
    }

    constructor ()
      ensures View() == INIT
    {
      modes, carry := NO_MODES, [];
    }

    /** `set`: changes the flag, and says so if it changed. */
    method Set(c: Change) returns (what: Option<string>)
      modifies this`modes
      ensures what == (if Get(old(modes), c.flag) == c.to then None else Some(c.what))
      ensures modes == if what.None? then old(modes) else Put(old(modes), c.flag, c.to)
    {
      if Get(modes, c.flag) == c.to {
        what := None;
      } else {
        modes := Put(modes, c.flag, c.to);
        what := Some(c.what);
      }
    }

    /** Looks for a sequence at the front of the input and applies the first. */
    method Match(input: seq<Byte>) returns (matched: nat, what: Option<string>)
      modifies this`modes
      ensures matched == if Matches(input) then |MODE_SEQS[FirstOf(input, 0)].bytes| else 0
      ensures forall out ::
        Here(Scan(old(modes), out), input) == Scan(modes, out + if what.Some? then [what.value] else [])
    {
      hide FirstOf, Get, Put, IsFinal;
      matched, what := 0, None;
      for k := 0 to |MODE_SEQS|
        invariant matched == 0 && what.None? && modes == old(modes) && FirstOf(input, 0) == FirstOf(input, k)
      {
        FirstOfStep(input, k);
        if MODE_SEQS[k].bytes <= input {
          SequencesAreWellFormed(k);
          what := Set(MODE_SEQS[k].change);
          return |MODE_SEQS[k].bytes|, what;
        }
      }
      FirstOfNone(input);
      assert forall out: seq<string> :: out + [] == out;
    }

    method OnOutput(bytes: seq<Byte>) returns (out: seq<string>)
      modifies this
      ensures (View(), out) == Chunk(old(View()), bytes)
    {
      hide Scanned, FirstOf, Here, Matches;
      var buf := carry + bytes;
      carry := [];
      out := [];
      ghost var start := Scan(modes, []);
      ScannedNothing(start, buf);
      var i := 0;
      while i < |buf|
        invariant 0 <= i <= |buf| && carry == []
        invariant Scan(modes, out) == Scanned(start, buf, 0, i)
      {
        if buf[i] == ESC {
          var matched, what := Match(buf[i..]);
          SkipMatched(start, buf, i, matched);
          out := out + if what.Some? then [what.value] else [];
          i := i + if matched > 1 then matched else 1;
        } else {
          ScannedNext(start, buf, i);
          OnlyEscapesMatter(Scan(modes, out), buf[i..]);
          i := i + 1;
        }
      }
      var keep := if |buf| <= WINDOW then 0 else |buf| - WINDOW;
      var pos := |buf|;
      while pos > keep && buf[pos - 1] != ESC
        invariant keep <= pos <= |buf|
        invariant forall j :: pos <= j < |buf| ==> buf[j] != ESC
      {
        pos := pos - 1;
      }
      if pos > keep {
        carry := buf[pos - 1..];
        CarryIsUnique(buf, pos - 1);
      } else {
        CarryIsUnique(buf, |buf|);
        assert buf[|buf|..] == [];
      }
    }
  }

  lemma FirstOfStep(input: seq<Byte>, k: nat)
    requires k < |MODE_SEQS|
    ensures FirstOf(input, k) == if StartsWith(input, MODE_SEQS[k]) then k else FirstOf(input, k + 1)
  {
  }

  lemma FirstOfNone(input: seq<Byte>)
    ensures FirstOf(input, |MODE_SEQS|) == |MODE_SEQS|
  {
  }

  lemma ScannedNothing(s: Scan, stream: seq<Byte>)
    ensures Scanned(s, stream, 0, 0) == s
  {
  }

  lemma ScannedNext(s: Scan, stream: seq<Byte>, i: nat)
    requires i < |stream|
    ensures Scanned(s, stream, 0, i + 1) == Here(Scanned(s, stream, 0, i), stream[i..])
  {
  }

  lemma MatchIsOneEscape(input: seq<Byte>)
    requires Matches(input)
    ensures var matched := |MODE_SEQS[FirstOf(input, 0)].bytes|;
      2 <= matched <= |input| && forall j :: 1 <= j < matched ==> input[j] != ESC
  {
    hide FirstOf, IsFinal, StartsWith;
    var m := MODE_SEQS[FirstOf(input, 0)];
    SequencesAreWellFormed(FirstOf(input, 0));
    StartBytes(input, m);
  }

  /** Skipping a matched sequence skips no other. */
  lemma SkipMatched(s: Scan, stream: seq<Byte>, i: nat, matched: nat)
    requires i < |stream|
    requires Matches(stream[i..]) ==> matched == |MODE_SEQS[FirstOf(stream[i..], 0)].bytes|
    requires !Matches(stream[i..]) ==> matched == 0
    ensures var next := i + if matched > 1 then matched else 1;
      next <= |stream| && Scanned(s, stream, 0, next) == Here(Scanned(s, stream, 0, i), stream[i..])
  {
    hide Scanned, Here, FirstOf, Matches;
    ScannedNext(s, stream, i);
    if Matches(stream[i..]) {
      MatchIsOneEscape(stream[i..]);
      forall j | i + 1 <= j < i + matched ensures stream[j] != ESC {
        assert stream[j] == stream[i..][j - i];
      }
      ScannedSplit(s, stream, 0, i + 1, i + matched);
      ScannedQuiet(Scanned(s, stream, 0, i + 1), stream, i + 1, i + matched);
    }
  }
}
