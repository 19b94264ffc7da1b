/** The wire protocol: packets, their byte encoding, and the framing rule the receiver applies. */
module Wire {

  type byte = x: int | 0 <= x < 0x100
  type uint32 = x: int | 0 <= x < 0x1_0000_0000
  type uint64 = x: int | 0 <= x < 0x1_0000_0000_0000_0000
  type int64 = x: int | -0x8000_0000_0000_0000 <= x < 0x8000_0000_0000_0000

  const HEADER_SIZE: nat := 5
  const PREFIX_SIZE: nat := 17
  const MAX_FIXED_PART: nat := HEADER_SIZE + PREFIX_SIZE
  const TWO_32: nat := 0x1_0000_0000

  const TYPE_PING: byte := 0
  const TYPE_MESSAGE: byte := 1
  const TYPE_BYE: byte := 2

  /** Message text. A packet carrying it has a size that fits in 32 bits. */
  type Text = t: seq<byte> | |t| + MAX_FIXED_PART < TWO_32

  datatype Message = Message(timestamp: int64, index: uint32, category: uint32, level: byte, text: Text)

  datatype Packet = Ping | Msg(message: Message) | Bye

  /* ---------- Little-endian integers ---------- */

  function Put32(x: uint32): (b: seq<byte>)
    ensures |b| == 4
  {
    [x % 0x100, x / 0x100 % 0x100, x / 0x1_0000 % 0x100, x / 0x100_0000 % 0x100]
  }

  function Get32(b: seq<byte>): uint32
    requires |b| == 4
  {
    var b0: int, b1: int, b2: int, b3: int := b[0], b[1], b[2], b[3];
    b3 * 0x100_0000 + b2 * 0x1_0000 + b1 * 0x100 + b0
  }

  function Put64(x: uint64): (b: seq<byte>)
    ensures |b| == 8
  {
    Put32(x % TWO_32) + Put32(x / TWO_32)
  }

  function Get64(b: seq<byte>): uint64
    requires |b| == 8
  {
    Get32(b[..4]) + Get32(b[4..]) * TWO_32
  }

  /** The C conversions between gint64 and guint64. */
  function Unsigned(x: int64): uint64 { if x < 0 then x + TWO_32 * TWO_32 else x }

  function Signed(x: uint64): int64 {
    if x < 0x8000_0000_0000_0000 then x else x - TWO_32 * TWO_32
  }

  lemma GetPut32(x: uint32)
    ensures Get32(Put32(x)) == x
  {
    var q := x / 0x100;
    assert x == q * 0x100 + x % 0x100;
    assert q == q / 0x100 * 0x100 + q % 0x100 && q / 0x100 == x / 0x1_0000;
    var h := x / 0x1_0000;
    assert h == h / 0x100 * 0x100 + h % 0x100 && h / 0x100 == x / 0x100_0000;
  }

  lemma PutGet32(b: seq<byte>)
    requires |b| == 4
    ensures Put32(Get32(b)) == b
  {
    var b0: int, b1: int, b2: int, b3: int := b[0], b[1], b[2], b[3];
    var x := Get32(b);
    var x1 := b3 * 0x1_0000 + b2 * 0x100 + b1;
    var x2 := b3 * 0x100 + b2;
    assert x / 0x100 == x1 && x % 0x100 == b0;
    assert x / 0x1_0000 == x2 && x1 % 0x100 == b1;
    assert x / 0x100_0000 == b3 && x2 % 0x100 == b2;
  }

  lemma GetPut64(x: uint64)
    ensures Get64(Put64(x)) == x
  {
    GetPut32(x % TWO_32);
    GetPut32(x / TWO_32);
  }

  lemma PutGet64(b: seq<byte>)
    requires |b| == 8
    ensures Put64(Get64(b)) == b
  {
    var lo, hi := Get32(b[..4]), Get32(b[4..]);
    assert (lo + hi * TWO_32) % TWO_32 == lo && (lo + hi * TWO_32) / TWO_32 == hi;
    PutGet32(b[..4]);
    PutGet32(b[4..]);
    assert b == b[..4] + b[4..];
  }

  /* ---------- Encoding (sender side) ---------- */

  function Header(payload: uint32, kind: byte): (b: seq<byte>)
    ensures |b| == HEADER_SIZE
  {
    Put32(payload) + [kind]
  }

  function Prefix(m: Message): (b: seq<byte>)
    ensures |b| == PREFIX_SIZE
  {
    Put64(Unsigned(m.timestamp)) + Put32(m.index) + Put32(m.category) + [m.level]
  }

  function Encode(p: Packet): (b: seq<byte>)
    ensures |b| == PacketSize(p)
  {
    match p
    case Ping => Header(0, TYPE_PING)
    case Bye => Header(0, TYPE_BYE)
    case Msg(m) => Header(PREFIX_SIZE + |m.text|, TYPE_MESSAGE) + Prefix(m) + m.text
  }

  function PacketSize(p: Packet): (n: nat)
    ensures HEADER_SIZE <= n < TWO_32
  {
    if p.Msg? then MAX_FIXED_PART + |p.message.text| else HEADER_SIZE
  }

  function FixedPart(p: Packet): nat {
    if PacketSize(p) < MAX_FIXED_PART then PacketSize(p) else MAX_FIXED_PART
  }

  /** The bytes of a sequence of packets. */
  function EncodeAll(ps: seq<Packet>): seq<byte> {
    if ps == [] then [] else Encode(ps[0]) + EncodeAll(ps[1..])
  }

  lemma {:induction false} EncodeAllSnoc(ps: seq<Packet>, p: Packet)
    ensures EncodeAll(ps + [p]) == EncodeAll(ps) + Encode(p)
  {
    hide Encode, PacketSize;
    if ps == [] {
      assert [p][1..] == [];
    } else {
      EncodeAllSnoc(ps[1..], p);
      assert (ps + [p])[0] == ps[0] && (ps + [p])[1..] == ps[1..] + [p];
    }
  }

  /* ---------- Framing and decoding (receiver side) ---------- */

  /** What the receiver makes of one complete frame. */
  datatype Frame = Known(packet: Packet) | Unknown(kind: byte)

  function Kind(h: seq<byte>): byte
    requires |h| >= HEADER_SIZE
  {
    h[4]
  }

  /** `packet_size`: 32-bit arithmetic, so a body size close to 2^32 wraps. */
  function SizeField(h: seq<byte>): uint32
    requires |h| >= HEADER_SIZE
  {
    (Get32(h[..4]) + HEADER_SIZE) % TWO_32
  }

  function FixedField(h: seq<byte>): nat
    requires |h| >= HEADER_SIZE
  {
    if Kind(h) == TYPE_PING || Kind(h) == TYPE_BYE then HEADER_SIZE else MAX_FIXED_PART
  }

  /** How many bytes the receiver consumes for the frame that starts with this header. */
  function FrameSize(h: seq<byte>): (n: nat)
    requires |h| >= HEADER_SIZE
    ensures n >= HEADER_SIZE && n >= FixedField(h) && n >= SizeField(h)
  {
    if FixedField(h) < SizeField(h) then SizeField(h) else FixedField(h)
  }

  predicate Complete(b: seq<byte>) {
    |b| >= HEADER_SIZE && |b| >= FrameSize(b)
  }

  /** A ping or bye header must announce an empty body. */
  predicate HeadOk(b: seq<byte>) {
    |b| >= HEADER_SIZE && FixedField(b) == HEADER_SIZE ==> SizeField(b) <= HEADER_SIZE
  }

  function Decode(b: seq<byte>): Frame
    requires Complete(b) && |b| == FrameSize(b)
  {
    if Kind(b) == TYPE_PING then Known(Ping)
    else if Kind(b) == TYPE_BYE then Known(Bye)
    else if Kind(b) == TYPE_MESSAGE then Known(Msg(DecodeMessage(b)))
    else Unknown(Kind(b))
  }

  function DecodeMessage(b: seq<byte>): Message
    requires MAX_FIXED_PART <= |b| < TWO_32
  {
    Message(Signed(Get64(b[5..13])), Get32(b[13..17]), Get32(b[17..21]), b[21], b[22..])
  }

  /** Header fields survive whatever follows the header. */
  lemma HeaderStable(b: seq<byte>, x: seq<byte>)
    requires |b| >= HEADER_SIZE
    ensures Kind(b + x) == Kind(b) && SizeField(b + x) == SizeField(b)
    ensures FixedField(b + x) == FixedField(b) && FrameSize(b + x) == FrameSize(b)
    ensures HeadOk(b + x) == HeadOk(b)
  {
    assert (b + x)[..4] == b[..4];
  }

  /** What the receiver reads in a header is what the sender put there. */
  lemma HeaderFields(payload: uint32, kind: byte)
    requires payload + HEADER_SIZE < TWO_32
    ensures Kind(Header(payload, kind)) == kind
    ensures SizeField(Header(payload, kind)) == payload + HEADER_SIZE
  {
    hide Put32, Get32;
    assert Header(payload, kind)[..4] == Put32(payload);
    GetPut32(payload);
  }

  /** The receiver frames every packet the sender writes exactly. */
  lemma EncodeFrames(p: Packet)
    ensures FrameSize(Encode(p)) == |Encode(p)| && HeadOk(Encode(p))
    ensures FixedField(Encode(p)) == FixedPart(p)
  {
    hide Put32, Get32, Header, Prefix, Kind, SizeField;
    match p
    case Ping => HeaderFields(0, TYPE_PING);
    case Bye => HeaderFields(0, TYPE_BYE);
    case Msg(m) =>
      var payload := PREFIX_SIZE + |m.text|;
      HeaderFields(payload, TYPE_MESSAGE);
      HeaderStable(Header(payload, TYPE_MESSAGE), Prefix(m) + m.text);
      assert Encode(p) == Header(payload, TYPE_MESSAGE) + (Prefix(m) + m.text);
  }

  /** Decoding undoes encoding, for every packet. */
  lemma DecodeEncode(p: Packet)
    ensures Complete(Encode(p)) && FrameSize(Encode(p)) == |Encode(p)|
    ensures Decode(Encode(p)) == Known(p)
  {
    EncodeFrames(p);
    if p.Msg? {
      var m, b := p.message, Encode(p);
      assert b[5..13] == Put64(Unsigned(m.timestamp));
      assert b[13..17] == Put32(m.index);
      assert b[17..21] == Put32(m.category);
      assert b[22..] == m.text;
      GetPut64(Unsigned(m.timestamp));
      GetPut32(m.index);
      GetPut32(m.category);
    }
  }

  /** A frame the encoder could have produced: its size field is its real size. */
  predicate Canonical(b: seq<byte>) {
    Complete(b) && |b| == FrameSize(b) == SizeField(b)
  }

  /** Encoding undoes decoding: on canonical frames nothing on the wire is lost. */
  lemma EncodeDecode(b: seq<byte>)
    requires Canonical(b) && Decode(b).Known?
    requires Kind(b) != TYPE_MESSAGE ==> HeadOk(b)
    ensures Encode(Decode(b).packet) == b
  {
    PutGet32(b[..4]);
    assert Get32(b[..4]) == |b| - HEADER_SIZE;
    assert b[..5] == b[..4] + [b[4]];
    if Kind(b) == TYPE_MESSAGE {
      PutGet64(b[5..13]);
      PutGet32(b[13..17]);
      PutGet32(b[17..21]);
      assert b == b[..5] + (b[5..13] + b[13..17] + b[17..21] + [b[21]]) + b[22..];
    } else {
      assert b == b[..5];
    }
  }

  /* ---------- Batch parsing ---------- */

  /** All frames of `b` up to and including the first bye, and the bytes left over. */
  function Frames(b: seq<byte>): (r: (seq<Frame>, seq<byte>))
  {
    if !Complete(b) then ([], b)
    else
      var n := FrameSize(b);
      assert FrameSize(b[..n]) == n by { HeaderStable(b[..n], b[n..]); assert b == b[..n] + b[n..]; }
      var f := Decode(b[..n]);
      if f == Known(Bye) then ([f], b[n..])
      else
        var (fs, rest) := Frames(b[n..]);
        ([f] + fs, rest)
  }

  /* ---------- The layout on the wire ---------- */

  /** The number that a sequence of bytes stands for, least significant byte first. */
  function Value(b: seq<byte>): nat {
    if b == [] then 0 else b[0] + 0x100 * Value(b[1..])
  }

  /** Four more bytes on the less significant side. */
  lemma ValueFour(a: seq<byte>, b: seq<byte>)
    requires |a| == 4
    ensures Value(a + b) == Get32(a) + TWO_32 * Value(b)
  {
    var b0: int, b1: int, b2: int, b3: int := a[0], a[1], a[2], a[3];
    var c := a + b;
    assert c[4..] == b;
    assert c[3..][0] == a[3] && c[3..][1..] == c[4..] && Value(c[3..]) == b3 + 0x100 * Value(b);
    assert c[2..][0] == a[2] && c[2..][1..] == c[3..] && Value(c[2..]) == b2 + 0x100 * Value(c[3..]);
    assert c[1..][0] == a[1] && c[1..][1..] == c[2..] && Value(c[1..]) == b1 + 0x100 * Value(c[2..]);
    assert c[0] == a[0] && Value(c) == b0 + 0x100 * Value(c[1..]);
  }

  lemma Value4(x: uint32)
    ensures Value(Put32(x)) == x
  {
    hide Put32, Get32;
    GetPut32(x);
    ValueFour(Put32(x), []);
    assert Put32(x) + [] == Put32(x);
  }

  lemma Value8(x: uint64)
    ensures Value(Put64(x)) == x
  {
    hide Put32, Value;
    GetPut32(x % TWO_32);
    Value4(x / TWO_32);
    ValueFour(Put32(x % TWO_32), Put32(x / TWO_32));
  }

  /** The places of the fields in a message packet. */
  lemma MessageLayout(m: Message)
    ensures var b := Encode(Msg(m));
      && |b| == 22 + |m.text|
      && Value(b[0..4]) == 17 + |m.text| && b[4] == 1
      && Value(b[5..13]) == Unsigned(m.timestamp)
      && Value(b[13..17]) == m.index
      && Value(b[17..21]) == m.category
      && b[21] == m.level && b[22..] == m.text
  {
    hide Put32, Put64, Value;
    var n: uint32 := PREFIX_SIZE + |m.text|;
    Value4(n);
    Value8(Unsigned(m.timestamp));
    Value4(m.index);
    Value4(m.category);
    var b, t := Encode(Msg(m)), Put64(Unsigned(m.timestamp));
    assert b[0..4] == Put32(n) && b[5..13] == t && b[13..17] == Put32(m.index) && b[17..21] == Put32(m.category);
  }

  /** The packets without a body. */
  lemma PingBytes()
    ensures Encode(Ping) == [0, 0, 0, 0, 0]
  {
  }

  lemma ByeBytes()
    ensures Encode(Bye) == [0, 0, 0, 0, 2]
  {
  }
}
