/** The WebSocket framing (RFC 6455, section 5) spoken to the app-server: text,
    ping, pong and close frames over a byte stream.

    Bytes are numbers below 256: bit 7 is the value 128, the low seven bits the
    remainder modulo 128, the low nibble the remainder modulo 16. */
module WebSocket {
  import opened Bytes
  import opened Wrappers

  type Key = k: seq<Byte> | |k| == 4 witness [0, 0, 0, 0]

  type Opcode = o: nat | o < 16

  const CONT: Opcode := 0
  const TEXT: Opcode := 1
  const CLOSE: Opcode := 8
  const PING: Opcode := 9
  const PONG: Opcode := 10

  const LENGTHS := 0x1_0000_0000_0000_0000

  // ----- masking

  /** Masking, and unmasking: byte `i` against byte `i % 4` of the key. */
  function Masked(payload: seq<Byte>, key: Key): (m: seq<Byte>)
    ensures |m| == |payload|
  {
    seq(|payload|, i requires 0 <= i < |payload| => Xor(payload[i], key[i % 4]))
  }

  lemma MaskedTwice(payload: seq<Byte>, key: Key)
    ensures Masked(Masked(payload, key), key) == payload
  {
    hide Xor;
    forall i | 0 <= i < |payload| ensures Masked(Masked(payload, key), key)[i] == payload[i] {
      XorTwice(payload[i], key[i % 4]);
    }
  }

  function XorLeft(x: bv32, n: nat): bv32
    requires n <= 32
  {
    x ^ (x << n)
  }

  function XorRight(x: bv32, n: nat): bv32
    requires n <= 32
  {
    x ^ (x >> n)
  }

  /** The generator of masking keys: one xorshift step. */
  function NextSeed(seed: bv32): bv32 {
    XorLeft(XorRight(XorLeft(seed, 13), 17), 5)
  }

  function KeyOf(seed: bv32): Key {
    [(seed & 0xff) as Byte, ((seed >> 8) & 0xff) as Byte, ((seed >> 16) & 0xff) as Byte, ((seed >> 24) & 0xff) as Byte]
  }

  /** The seed starts odd, so no masking key is ever all zeroes. */
  lemma SeedStaysNonzero(seed: bv32)
    ensures NextSeed(seed) == 0 <==> seed == 0
  {
  }

  /** From 1 the generator goes where Marsaglia's xorshift does, and the lowest byte of
      a seed comes first in its key. */
  lemma FirstSeeds()
    ensures NextSeed(1) == 0x0004_2021 && NextSeed(0x0004_2021) == 0x0408_0601
    ensures KeyOf(0x0408_0601) == [0x01, 0x06, 0x08, 0x04]
  {
  }

  lemma KeyIsNonzero(seed: bv32)
    ensures KeyOf(seed) == [0, 0, 0, 0] ==> seed == 0
  {
    if KeyOf(seed) == [0, 0, 0, 0] {
      var k := KeyOf(seed);
      assert k[0] == 0 && k[1] == 0 && k[2] == 0 && k[3] == 0;
    }
  }

  // ----- lengths

  function Power(width: nat): (p: nat)
    ensures p >= 1
  {
    if width == 0 then 1 else 256 * Power(width - 1)
  }

  function BigEndian(n: nat, width: nat): (bytes: seq<Byte>)
    ensures |bytes| == width
  {
    if width == 0 then [] else BigEndian(n / 256, width - 1) + [n % 256]
  }

  function ValueOf(bytes: seq<Byte>): (n: nat)
    ensures n < Power(|bytes|)
  {
    if bytes == [] then 0 else 256 * ValueOf(bytes[..|bytes| - 1]) + bytes[|bytes| - 1]
  }

  lemma {:induction false} BigEndianRoundTrip(n: nat, width: nat)
    requires n < Power(width)
    ensures ValueOf(BigEndian(n, width)) == n
  {
    if width > 0 {
      BigEndianRoundTrip(n / 256, width - 1);
      var high := BigEndian(n / 256, width - 1);
      assert (high + [n % 256])[..width - 1] == high;
    }
  }

  lemma Powers()
    ensures Power(2) == 65536 && Power(8) == LENGTHS
  {
    assert Power(3) == 256 * 65536;
    assert Power(5) == 256 * 256 * Power(3);
    assert Power(7) == 256 * 256 * Power(5);
  }

  // ----- frames

  function LengthField(len: nat, masked: bool): seq<Byte>
    requires len < LENGTHS
  {
    var bit := if masked then 128 else 0;
    if len < 126 then [bit + len]
    else if len < 65536 then [bit + 126] + BigEndian(len, 2)
    else [bit + 127] + BigEndian(len, 8)
  }

  function Body(key: Option<Key>, payload: seq<Byte>): seq<Byte> {
    match key
    case None => payload
    case Some(k) => k + Masked(payload, k)
  }

  function FirstByte(fin: bool, op: Opcode): Byte {
    (if fin then 128 else 0) + op
  }

  /** A frame as section 5.2 lays it out. */
  function Encode(fin: bool, op: Opcode, key: Option<Key>, payload: seq<Byte>): seq<Byte>
    requires |payload| < LENGTHS
  {
    [FirstByte(fin, op)] + LengthField(|payload|, key.Some?) + Body(key, payload)
  }

  /** What reading one frame finds: nothing more, too few bytes, or a frame. */
  datatype Read = Nothing | Truncated | Frame(fin: bool, op: Opcode, payload: seq<Byte>, rest: seq<Byte>)

  /** The extra bytes of the length, by its short form. */
  function Wide(short: nat): nat {
    if short == 126 then 2 else if short == 127 then 8 else 0
  }

  function Parse(input: seq<Byte>): (r: Read)
    ensures r.Frame? ==> |r.rest| + 2 <= |input| && |r.payload| < LENGTHS
  {
    Powers();
    if |input| < 2 then Nothing
    else
      var short := input[1] % 128;
      var wide := Wide(short);
      if |input| < 2 + wide then Truncated
      else
        var len := if wide == 0 then short else ValueOf(input[2..2 + wide]);
        ParseBody(input[0] >= 128, input[0] % 16, input[1] >= 128, len, input[2 + wide..])
  }

  function ParseBody(fin: bool, op: Opcode, masked: bool, len: nat, input: seq<Byte>): (r: Read)
    ensures r.Frame? ==> |r.rest| <= |input| && |r.payload| == len
  {
    if !masked then
      if |input| < len then Truncated else Frame(fin, op, input[..len], input[len..])
    else
      if |input| < 4 || |input| - 4 < len then Truncated
      else Frame(fin, op, Masked(input[4..4 + len], input[..4]), input[4 + len..])
  }

  lemma BodyIs(fin: bool, op: Opcode, masked: bool, len: nat, input: seq<Byte>)
    requires (if masked then 4 else 0) + len <= |input|
    ensures ParseBody(fin, op, masked, len, input) ==
      if masked then Frame(fin, op, Masked(input[4..4 + len], input[..4]), input[4 + len..])
      else Frame(fin, op, input[..len], input[len..])
  {
    hide Masked;
  }

  lemma BodyIsShort(fin: bool, op: Opcode, masked: bool, len: nat, input: seq<Byte>)
    requires |input| < (if masked then 4 else 0) + len
    ensures ParseBody(fin, op, masked, len, input) == Truncated
  {
  }

  lemma ParseBodyOf(fin: bool, op: Opcode, key: Option<Key>, payload: seq<Byte>, tail: seq<Byte>)
    ensures ParseBody(fin, op, key.Some?, |payload|, Body(key, payload) + tail) == Frame(fin, op, payload, tail)
  {
    var input := Body(key, payload) + tail;
    match key
    case None =>
      assert input[..|payload|] == payload && input[|payload|..] == tail;
    case Some(k) =>
      MaskedTwice(payload, k);
      assert input[..4] == k && input[4..4 + |payload|] == Masked(payload, k) && input[4 + |payload|..] == tail;
  }

  /** Reading a length field gives back the length and what follows it. */
  lemma ParseLength(first: Byte, masked: bool, len: nat, rest: seq<Byte>)
    requires len < LENGTHS
    ensures Parse([first] + LengthField(len, masked) + rest) == ParseBody(first >= 128, first % 16, masked, len, rest)
  {
    hide ParseBody, BigEndian, ValueOf, Power;
    Powers();
    var input := [first] + LengthField(len, masked) + rest;
    if len < 126 {
      assert input[2..] == rest;
    } else if len < 65536 {
      BigEndianRoundTrip(len, 2);
      assert input[2..4] == BigEndian(len, 2) && input[4..] == rest;
    } else {
      BigEndianRoundTrip(len, 8);
      assert input[2..10] == BigEndian(len, 8) && input[10..] == rest;
    }
  }

  /** A frame is read back whole, whichever of the three length forms it takes,
      masked or not, and whatever follows it is left unread. */
  lemma ParseEncoded(fin: bool, op: Opcode, key: Option<Key>, payload: seq<Byte>, tail: seq<Byte>)
    requires |payload| < LENGTHS
    ensures Parse(Encode(fin, op, key, payload) + tail) == Frame(fin, op, payload, tail)
  {
    hide Parse, ParseBody, LengthField, Body;
    var first := [FirstByte(fin, op)];
    var head := first + LengthField(|payload|, key.Some?);
    assert Encode(fin, op, key, payload) + tail == head + (Body(key, payload) + tail);
    ParseLength(FirstByte(fin, op), key.Some?, |payload|, Body(key, payload) + tail);
    ParseBodyOf(fin, op, key, payload, tail);
  }

  // ----- the layout of section 5.2, byte by byte

  /** How many bytes the length takes, by the length. */
  function HeadLength(len: nat, masked: bool): nat {
    2 + (if len < 126 then 0 else if len < 65536 then 2 else 8) + if masked then 4 else 0
  }

  /** The number with one more byte. */
  function Then(high: nat, low: nat): nat {
    256 * high + low
  }

  /** The length a frame declares, read off its bytes. */
  function Declared(f: seq<Byte>): nat
    requires |f| >= 2 && (f[1] % 128 == 126 ==> |f| >= 4) && (f[1] % 128 == 127 ==> |f| >= 10)
  {
    if f[1] % 128 == 126 then Then(f[2], f[3])
    else if f[1] % 128 == 127 then
      Then(Then(Then(Then(Then(Then(Then(f[2], f[3]), f[4]), f[5]), f[6]), f[7]), f[8]), f[9])
    else f[1] % 128
  }

  lemma TwoBytes(n: nat)
    requires n < 65536
    ensures var b := BigEndian(n, 2); Then(b[0], b[1]) == n
  {
    assert Power(1) == 256 && Power(2) == 65536;
    BigEndianRoundTrip(n, 2);
    ValueOfTwo(BigEndian(n, 2));
  }

  lemma ValueOfTwo(b: seq<Byte>)
    requires |b| == 2
    ensures ValueOf(b) == Then(b[0], b[1])
  {
    assert b[..1][..0] == [];
    assert ValueOf(b[..1]) == b[0];
  }

  lemma ValueOfMore(b: seq<Byte>)
    requires b != []
    ensures ValueOf(b) == 256 * ValueOf(b[..|b| - 1]) + b[|b| - 1]
  {
  }

  lemma ValueOfEight(b: seq<Byte>)
    requires |b| == 8
    ensures ValueOf(b) ==
      Then(Then(Then(Then(Then(Then(Then(b[0], b[1]), b[2]), b[3]), b[4]), b[5]), b[6]), b[7])
  {
    hide ValueOf, Power;
    ValueOfTwo(b[..2]);
    ValueOfMore(b[..3]);
    ValueOfMore(b[..4]);
    ValueOfMore(b[..5]);
    ValueOfMore(b[..6]);
    ValueOfMore(b[..7]);
    ValueOfMore(b);
    assert b[..3][..2] == b[..2] && b[..4][..3] == b[..3] && b[..5][..4] == b[..4] && b[..6][..5] == b[..5];
    assert b[..7][..6] == b[..6];
  }

  lemma DeclaredIs(first: Byte, masked: bool, len: nat, rest: seq<Byte>)
    requires len < LENGTHS
    ensures var f := [first] + LengthField(len, masked) + rest;
      && |[first] + LengthField(len, masked)| == HeadLength(len, masked) - (if masked then 4 else 0)
      && f[0] == first && (f[1] >= 128 <==> masked)
      && (f[1] % 128 == 126 <==> 126 <= len < 65536) && (f[1] % 128 == 127 <==> 65536 <= len)
      && Declared(f) == len
  {
    hide BigEndian, Declared, Power;
    var f := [first] + LengthField(len, masked) + rest;
    if 126 <= len < 65536 {
      MiddleDeclared(f, len);
    } else if 65536 <= len {
      LongDeclared(f, len);
    } else {
      ShortDeclared(f, len);
    }
  }

  lemma ShortDeclared(f: seq<Byte>, len: nat)
    requires |f| >= 2 && f[1] % 128 == len < 126
    ensures Declared(f) == len
  {
  }

  lemma MiddleDeclared(f: seq<Byte>, len: nat)
    requires len < 65536 && |f| >= 4 && f[1] % 128 == 126 && f[2..4] == BigEndian(len, 2)
    ensures Declared(f) == len
  {
    TwoBytes(len);
    assert f[2] == f[2..4][0] && f[3] == f[2..4][1];
    hide BigEndian, Then;
  }

  lemma LongDeclared(f: seq<Byte>, len: nat)
    requires len < LENGTHS && |f| >= 10 && f[1] % 128 == 127 && f[2..10] == BigEndian(len, 8)
    ensures Declared(f) == len
  {
    hide BigEndian, ValueOf, Power, Then;
    Powers();
    BigEndianRoundTrip(len, 8);
    var b := f[2..10];
    ValueOfEight(b);
    assert f[2] == b[0] && f[3] == b[1] && f[4] == b[2] && f[5] == b[3];
    assert f[6] == b[4] && f[7] == b[5] && f[8] == b[6] && f[9] == b[7];
  }

  /** Byte by byte: the final bit and the opcode, the mask bit and the length in as
      few bytes as it takes, the key, and the payload, its i-th byte against byte
      i modulo 4 of the key. */
  lemma FrameLayout(fin: bool, op: Opcode, key: Option<Key>, payload: seq<Byte>)
    requires |payload| < LENGTHS
    ensures var f, h := Encode(fin, op, key, payload), HeadLength(|payload|, key.Some?);
      && |f| == h + |payload|
      && f[0] == (if fin then 128 else 0) + op
      && (f[1] >= 128 <==> key.Some?)
      && (f[1] % 128 == 126 <==> 126 <= |payload| < 65536) && (f[1] % 128 == 127 <==> 65536 <= |payload|)
      && Declared(f) == |payload|
      && (key.Some? ==> f[h - 4..h] == key.value)
      && forall i :: 0 <= i < |payload| ==>
           f[h + i] == if key.Some? then Xor(payload[i], key.value[i % 4]) else payload[i]
  {
    DeclaredIs(FirstByte(fin, op), key.Some?, |payload|, Body(key, payload));
    hide LengthField, Xor;
  }

  /** What is less than a frame is none: too short for a head, or truncated. */
  lemma PrefixIsNoFrame(fin: bool, op: Opcode, key: Option<Key>, payload: seq<Byte>, n: nat)
    requires |payload| < LENGTHS && n < |Encode(fin, op, key, payload)|
    ensures Parse(Encode(fin, op, key, payload)[..n]) == if n < 2 then Nothing else Truncated
  {
    hide *;
    var f := Encode(fin, op, key, payload);
    FrameHead(fin, op, key, payload);
    if n >= 2 {
      var wide := Wide(f[1] % 128);
      WideIs(f[1] % 128);
      LengthOf(f);
      SamePrefix(f, n, wide);
      ParseOfShort(f[..n], |payload|);
    } else {
      ParseOfShort(f[..n], 0);
    }
  }

  lemma FrameHead(fin: bool, op: Opcode, key: Option<Key>, payload: seq<Byte>)
    requires |payload| < LENGTHS
    ensures var f := Encode(fin, op, key, payload);
      && |f| == 2 + Wide(f[1] % 128) + (if f[1] >= 128 then 4 else 0) + |payload|
      && (f[1] >= 128 <==> key.Some?) && Declared(f) == |payload|
  {
    FrameLayout(fin, op, key, payload);
    hide Encode, Declared;
  }

  lemma WideIs(short: nat)
    ensures Wide(short) == 0 || (short == 126 && Wide(short) == 2) || (short == 127 && Wide(short) == 8)
  {
  }

  lemma SamePrefix(f: seq<Byte>, n: nat, wide: nat)
    requires 2 <= n <= |f|
    ensures f[..n][1] == f[1] && (2 + wide <= n ==> f[..n][2..2 + wide] == f[2..2 + wide])
  {
  }

  /** Reading what falls short of a head, of a length, or of the declared body. */
  lemma ParseOfShort(p: seq<Byte>, len: nat)
    requires |p| >= 2 && |p| >= 2 + Wide(p[1] % 128) ==>
      && len == (if Wide(p[1] % 128) == 0 then p[1] % 128 else ValueOf(p[2..2 + Wide(p[1] % 128)]))
      && |p| - 2 - Wide(p[1] % 128) < (if p[1] >= 128 then 4 else 0) + len
    ensures Parse(p) == if |p| < 2 then Nothing else Truncated
  {
    hide ParseBody, ValueOf, Wide, Power;
    if |p| >= 2 && |p| >= 2 + Wide(p[1] % 128) {
      BodyIsShort(p[0] >= 128, p[0] % 16, p[1] >= 128, len, p[2 + Wide(p[1] % 128)..]);
    }
  }

  lemma LengthOf(f: seq<Byte>)
    requires |f| >= 2 && |f| >= 2 + Wide(f[1] % 128)
    ensures Declared(f) == if Wide(f[1] % 128) == 0 then f[1] % 128 else ValueOf(f[2..2 + Wide(f[1] % 128)])
  {
    if Wide(f[1] % 128) == 2 {
      ValueOfTwo(f[2..4]);
    } else if Wide(f[1] % 128) == 8 {
      ValueOfEight(f[2..10]);
    }
  }

  // ----- writing

  datatype Out = Out(stream: seq<Byte>, seed: bv32, mask: bool)

  function KeyFor(w: Out): Option<Key> {
    if w.mask then Some(KeyOf(NextSeed(w.seed))) else None
  }

  function Written(w: Out, op: Opcode, payload: seq<Byte>): Out
    requires |payload| < LENGTHS
  {
    Out(w.stream + Encode(true, op, KeyFor(w), payload), if w.mask then NextSeed(w.seed) else w.seed, w.mask)
  }

  lemma Regroup(a: seq<Byte>, b: seq<Byte>, c: seq<Byte>, d: seq<Byte>)
    ensures a + b + c + d == a + (b + (c + d))
  {
  }

  class Writer {
    var stream: seq<Byte>
    var maskSeed: bv32
    const mask: bool

    ghost function View(): Out
      reads this
    {
      Out(stream, maskSeed, mask)
    }

    constructor (seed: bv32, mask: bool)
      ensures View() == Out([], seed, mask)
    {
      this.stream, this.maskSeed, this.mask := [], seed, mask;
    }

    method NextMask() returns (key: Key)
      modifies this`maskSeed
      ensures maskSeed == NextSeed(old(maskSeed)) && key == KeyOf(maskSeed)
    {
      hide KeyOf, XorLeft, XorRight;
      var x := maskSeed;
      x := XorLeft(x, 13);
      x := XorRight(x, 17);
      x := XorLeft(x, 5);
      maskSeed := x;
      key := KeyOf(x);
    }

    method WriteFrame(opcode: Opcode, payload: seq<Byte>)
      requires |payload| < LENGTHS
      modifies this
      ensures View() == Written(old(View()), opcode, payload)
    {
      hide KeyOf, NextSeed, BigEndian, Xor;
      var head: seq<Byte> := [128 + opcode];
      var len := |payload|;
      var maskBit := if mask then 128 else 0;
      if len < 126 {
        head := head + [maskBit + len];
      } else if len < 65536 {
        head := head + [maskBit + 126];
        head := head + BigEndian(len, 2);
      } else {
        head := head + [maskBit + 127];
        head := head + BigEndian(len, 8);
      }
      assert head == [FirstByte(true, opcode)] + LengthField(len, mask);
      hide LengthField, FirstByte, Masked;
      stream := stream + head;
      if mask {
        var key := NextMask();
        stream := stream + key;
        var masked := Masked(payload, key);
        stream := stream + masked;
        Regroup(old(stream), head, key, masked);
      } else {
        stream := stream + payload;
        Regroup(old(stream), head, [], payload);
        assert old(stream) + head + [] == old(stream) + head && [] + payload == payload;
      }
    }
  }

  // ----- receiving

  /** What a receive returns: the bytes of a message, the end, or a failure. */
  datatype Reply = Message(bytes: seq<Byte>) | End | Failed

  datatype Received = Received(reply: Reply, rest: seq<Byte>, out: Out)

  /** The frames of one message, answering pings on the way. */
  function Receive(input: seq<Byte>, sofar: seq<Byte>, w: Out): Received
    decreases |input|
  {
    match Parse(input)
    case Nothing => Received(End, [], w)
    case Truncated => Received(Failed, [], w)
    case Frame(fin, op, payload, rest) =>
      if op == TEXT || op == CONT then
        if fin then Received(Message(sofar + payload), rest, w) else Receive(rest, sofar + payload, w)
      else if op == PING then Receive(rest, sofar, Written(w, PONG, payload))
      else if op == CLOSE then Received(End, rest, Written(w, CLOSE, []))
      else Receive(rest, sofar, w)
  }

  class Socket {
    var incoming: seq<Byte>
    const writer: Writer

    constructor (writer: Writer, incoming: seq<Byte>)
      ensures this.writer == writer && this.incoming == incoming
    {
      this.writer, this.incoming := writer, incoming;
    }

    /** All of the next `n` bytes, or none. */
    method ReadExact(n: nat) returns (bytes: Option<seq<Byte>>)
      modifies this`incoming
      ensures if n <= |old(incoming)| then bytes == Some(old(incoming)[..n]) && incoming == old(incoming)[n..]
              else bytes == None && incoming == []
    {
      if n <= |incoming| {
        bytes, incoming := Some(incoming[..n]), incoming[n..];
      } else {
        bytes, incoming := None, [];
      }
    }

    /** One frame off the stream. */
    method ReadFrame() returns (frame: Read)
      modifies this`incoming
      ensures frame == Parse(old(incoming))
      ensures incoming == if frame.Frame? then frame.rest else []
    {
      hide ValueOf, Masked, Power, ParseBody;
      ghost var input := incoming;
      var head := ReadExact(2);
      if head.None? {
        return Nothing;
      }
      var fin := head.value[0] >= 128;
      var opcode := head.value[0] % 16;
      var masked := head.value[1] >= 128;
      var len := head.value[1] % 128;
      assert incoming == input[2..];
      if len == 126 {
        var b := ReadExact(2);
        if b.None? {
          return Truncated;
        }
        len := ValueOf(b.value);
        assert b.value == input[2..4] && incoming == input[4..];
      } else if len == 127 {
        var b := ReadExact(8);
        if b.None? {
          return Truncated;
        }
        len := ValueOf(b.value);
        assert b.value == input[2..10] && incoming == input[10..];
      }
      ghost var body := incoming;
      var mask: Key := [0, 0, 0, 0];
      if masked {
        var b := ReadExact(4);
        if b.None? {
          BodyIsShort(fin, opcode, masked, len, body);
          return Truncated;
        }
        mask := b.value;
      }
      var payload := ReadExact(len);
      if payload.None? {
        BodyIsShort(fin, opcode, masked, len, body);
        return Truncated;
      }
      if masked {
        assert payload.value == body[4..4 + len] && incoming == body[4 + len..];
        payload := Some(Masked(payload.value, mask));
      }
      BodyIs(fin, opcode, masked, len, body);
      frame := Frame(fin, opcode, payload.value, incoming);
    }

    method RecvText() returns (reply: Reply)
      modifies this, writer
      ensures Received(reply, incoming, writer.View()) == Receive(old(incoming), [], old(writer.View()))
    {
      hide Parse, Written;
      var message: seq<Byte> := [];
      while true
        invariant Receive(incoming, message, writer.View()) == Receive(old(incoming), [], old(writer.View()))
        decreases |incoming|
      {
        var frame := ReadFrame();
        match frame
        case Nothing => return End;
        case Truncated => return Failed;
        case Frame(fin, opcode, payload, rest) =>
          if opcode == TEXT || opcode == CONT {
            message := message + payload;
            if fin {
              return Message(message);
            }
          } else if opcode == PING {
            writer.WriteFrame(PONG, payload);
          } else if opcode == CLOSE {
            writer.WriteFrame(CLOSE, []);
            return End;
          }
      }
    }
  }

  // ----- one frame, one message

  /** What a written text frame adds to the stream is received as its payload by
      any peer, and nothing is answered. */
  lemma WrittenTextIsReceived(w: Out, payload: seq<Byte>, tail: seq<Byte>, peer: Out)
    requires |payload| < LENGTHS
    ensures var sent := Written(w, 1, payload).stream;
      && w.stream <= sent && |sent| > |w.stream| + 1 && (sent[|w.stream| + 1] >= 128 <==> w.mask)
      && Receive(sent[|w.stream|..] + tail, [], peer) == Received(Message(payload), tail, peer)
  {
    hide *;
    FrameHead(true, TEXT, KeyFor(w), payload);
    MaskedFor(w);
    TextIsReceived(w, payload, tail, peer);
  }

  lemma MaskedFor(w: Out)
    ensures KeyFor(w).Some? <==> w.mask
  {
  }

  lemma TextIsReceived(w: Out, payload: seq<Byte>, tail: seq<Byte>, peer: Out)
    requires |payload| < LENGTHS
    ensures var sent, frame := Written(w, 1, payload).stream, Encode(true, TEXT, KeyFor(w), payload);
      && |frame| >= 2 && sent == w.stream + frame && w.stream <= sent && sent[|w.stream| + 1] == frame[1]
      && Receive(sent[|w.stream|..] + tail, [], peer) == Received(Message(payload), tail, peer)
  {
    FrameHead(true, TEXT, KeyFor(w), payload);
    hide Parse, Encode, Receive, KeyFor;
    var frame := Encode(true, TEXT, KeyFor(w), payload);
    var sent := Written(w, 1, payload).stream;
    assert sent == w.stream + frame && sent[|w.stream|..] == frame;
    FrameIsReceived(KeyFor(w), payload, tail, peer);
  }

  lemma FrameIsReceived(key: Option<Key>, payload: seq<Byte>, tail: seq<Byte>, peer: Out)
    requires |payload| < LENGTHS
    ensures Receive(Encode(true, 1, key, payload) + tail, [], peer) == Received(Message(payload), tail, peer)
  {
    hide Parse, Encode;
    ParseEncoded(true, TEXT, key, payload, tail);
    assert [] + payload == payload;
  }

  /** A close frame ends the conversation, and is answered by a close frame. */
  lemma CloseIsAnswered(key: Option<Key>, payload: seq<Byte>, tail: seq<Byte>, sofar: seq<Byte>, w: Out)
    requires |payload| < LENGTHS
    ensures Receive(Encode(true, 8, key, payload) + tail, sofar, w) == Received(End, tail, Written(w, 8, []))
  {
    hide Parse, Encode, Written;
    ParseEncoded(true, CLOSE, key, payload, tail);
  }

  // ----- fragmentation (section 5.4)

  /** A frame before the last of a message: a fragment, a ping, or a frame that
      is skipped. */
  datatype Piece =
    | Fragment(key: Option<Key>, payload: seq<Byte>, op: Opcode)
    | Ping(key: Option<Key>, payload: seq<Byte>)
    | Skipped(key: Option<Key>, payload: seq<Byte>, op: Opcode, fin: bool)

  predicate Proper(p: Piece) {
    && |p.payload| < LENGTHS
    && (p.Fragment? ==> p.op == 1 || p.op == 0)
    && (p.Skipped? ==> p.op !in {0, 1, 8, 9})
  }

  predicate AllProper(pieces: seq<Piece>) {
    forall i :: 0 <= i < |pieces| ==> Proper(pieces[i])
  }

  function PieceBytes(p: Piece): seq<Byte>
    requires Proper(p)
  {
    match p
    case Fragment(key, payload, op) => Encode(false, op, key, payload)
    case Ping(key, payload) => Encode(true, 9, key, payload)
    case Skipped(key, payload, op, fin) => Encode(fin, op, key, payload)
  }

  function Wire(pieces: seq<Piece>): seq<Byte>
    requires AllProper(pieces)
  {
    if pieces == [] then [] else PieceBytes(pieces[0]) + Wire(pieces[1..])
  }

  function Joined(pieces: seq<Piece>): seq<Byte> {
    if pieces == [] then [] else (if pieces[0].Fragment? then pieces[0].payload else []) + Joined(pieces[1..])
  }

  function Pings(pieces: seq<Piece>): seq<seq<Byte>> {
    if pieces == [] then [] else (if pieces[0].Ping? then [pieces[0].payload] else []) + Pings(pieces[1..])
  }

  /** The writer after answering these pings. */
  function Answered(w: Out, pieces: seq<Piece>): Out
    requires AllProper(pieces)
    decreases |pieces|
  {
    if pieces == [] then w
    else Answered(if pieces[0].Ping? then Written(w, PONG, pieces[0].payload) else w, pieces[1..])
  }

  lemma ReceivePiece(p: Piece, rest: seq<Byte>, sofar: seq<Byte>, w: Out)
    requires Proper(p)
    ensures Receive(PieceBytes(p) + rest, sofar, w) ==
      Receive(rest, if p.Fragment? then sofar + p.payload else sofar,
              if p.Ping? then Written(w, PONG, p.payload) else w)
  {
    hide Parse, Encode, Written;
    match p
    case Fragment(key, payload, op) => ParseEncoded(false, op, key, payload, rest);
    case Ping(key, payload) => ParseEncoded(true, PING, key, payload, rest);
    case Skipped(key, payload, op, fin) => ParseEncoded(fin, op, key, payload, rest);
  }

  /** However a message is split into fragments, and whatever pings and ignored
      frames come between, the concatenation is received, what follows the last
      fragment is left unread, and the pings are answered on the way. */
  lemma FragmentsReassemble(pieces: seq<Piece>, last: Piece, tail: seq<Byte>, sofar: seq<Byte>,
      w: Out)
    requires AllProper(pieces) && Proper(last) && last.Fragment?
    ensures Receive(Wire(pieces) + (Encode(true, last.op, last.key, last.payload) + tail), sofar, w) ==
      Received(Message(sofar + Joined(pieces) + last.payload), tail, Answered(w, pieces))
  {
    hide Parse, Encode, Written, Receive, Wire, Answered;
    PiecesThenRest(pieces, Encode(true, last.op, last.key, last.payload) + tail, sofar, w);
    LastIsReceived(last, tail, sofar + Joined(pieces), Answered(w, pieces));
  }

  /** Whatever comes after the frames before the last is received with what they
      carried, their pings answered. */
  lemma {:induction false} PiecesThenRest(pieces: seq<Piece>, rest: seq<Byte>, sofar: seq<Byte>, w: Out)
    requires AllProper(pieces)
    ensures Receive(Wire(pieces) + rest, sofar, w) == Receive(rest, sofar + Joined(pieces), Answered(w, pieces))
    decreases |pieces|
  {
    hide Parse, Encode, Written, PieceBytes, Receive;
    if pieces == [] {
      assert Wire(pieces) + rest == rest && sofar + Joined(pieces) == sofar;
    } else {
      var p := pieces[0];
      var sofar' := if p.Fragment? then sofar + p.payload else sofar;
      assert Wire(pieces) + rest == PieceBytes(p) + (Wire(pieces[1..]) + rest);
      ReceivePiece(p, Wire(pieces[1..]) + rest, sofar, w);
      PiecesThenRest(pieces[1..], rest, sofar', if p.Ping? then Written(w, PONG, p.payload) else w);
      assert sofar + Joined(pieces) == sofar' + Joined(pieces[1..]);
    }
  }

  /** A conversation that breaks off between frames, or within the first two bytes of
      one, ends; one that breaks off later in a frame fails. The pings before are
      answered all the same, and nothing is received. */
  lemma BreaksOff(pieces: seq<Piece>, fin: bool, op: Opcode, key: Option<Key>, payload: seq<Byte>, n: nat, w: Out)
    requires AllProper(pieces) && |payload| < LENGTHS && n < |Encode(fin, op, key, payload)|
    ensures Receive(Wire(pieces) + Encode(fin, op, key, payload)[..n], [], w) ==
      Received(if n < 2 then End else Failed, [], Answered(w, pieces))
  {
    hide Parse, Encode, Wire, Answered;
    PiecesThenRest(pieces, Encode(fin, op, key, payload)[..n], [], w);
    PrefixIsNoFrame(fin, op, key, payload, n);
  }

  lemma LastIsReceived(last: Piece, tail: seq<Byte>, sofar: seq<Byte>, w: Out)
    requires Proper(last) && last.Fragment?
    ensures Receive(Encode(true, last.op, last.key, last.payload) + tail, sofar, w) ==
      Received(Message(sofar + last.payload), tail, w)
  {
    hide Parse, Encode;
    ParseEncoded(true, last.op, last.key, last.payload, tail);
  }

  /** The frames a stream of whole frames holds. */
  function Frames(input: seq<Byte>): seq<(Opcode, seq<Byte>)>
    decreases |input|
  {
    var r := Parse(input);
    if r.Frame? then [(r.op, r.payload)] + Frames(r.rest) else []
  }

  function Pongs(payloads: seq<seq<Byte>>): seq<(Opcode, seq<Byte>)> {
    seq(|payloads|, i requires 0 <= i < |payloads| => (10, payloads[i]))
  }

  /** What answering adds to the stream reads as one pong for each ping, with
      its payload, in order. */
  lemma {:induction false} OnePongEach(w: Out, pieces: seq<Piece>) returns (added: seq<Byte>)
    requires AllProper(pieces)
    ensures Answered(w, pieces).stream == w.stream + added
    ensures Frames(added) == Pongs(Pings(pieces))
    decreases |pieces|
  {
    hide Parse, Encode;
    if pieces == [] {
      added := [];
      NoFrames();
    } else if !pieces[0].Ping? {
      added := OnePongEach(w, pieces[1..]);
      assert Pings(pieces) == Pings(pieces[1..]);
    } else {
      var payload := pieces[0].payload;
      var frame := Encode(true, PONG, KeyFor(w), payload);
      var rest := OnePongEach(Written(w, PONG, payload), pieces[1..]);
      added := frame + rest;
      ParseEncoded(true, PONG, KeyFor(w), payload, rest);
      assert w.stream + frame + rest == w.stream + added;
      assert Pings(pieces) == [payload] + Pings(pieces[1..]);
      assert Pongs(Pings(pieces)) == [(PONG, payload)] + Pongs(Pings(pieces[1..]));
    }
  }

  lemma NoFrames()
    ensures Frames([]) == []
  {
  }
}
