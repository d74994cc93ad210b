/**
 * WebSocket frames: what the servers emit and accept, against the base framing protocol of
 * sections 5.2 and 5.3 of RFC 6455.
 */
module WebSocket {
  import opened Bytes

  /** Exclusive or of the low `bits` bits. */
  function XorBits(a: nat, b: nat, bits: nat): (x: nat) {
    if bits == 0 then 0
    else (if a % 2 != b % 2 then 1 else 0) + 2 * XorBits(a / 2, b / 2, bits - 1)
  }

  function Pow2(n: nat): (p: nat) {
    if n == 0 then 1 else 2 * Pow2(n - 1)
  }

  lemma XorBitsBound(a: nat, b: nat, bits: nat)
    ensures XorBits(a, b, bits) < Pow2(bits)
  {
  }

  lemma {:induction false} XorBitsTwice(a: nat, m: nat, bits: nat)
    requires a < Pow2(bits)
    ensures XorBits(XorBits(a, m, bits), m, bits) == a
  {
    if bits > 0 {
      XorBitsTwice(a / 2, m / 2, bits - 1);
      var bit, half := if a % 2 != m % 2 then 1 else 0, XorBits(a / 2, m / 2, bits - 1);
      assert XorBits(a, m, bits) == bit + 2 * half;
      assert XorBits(bit + 2 * half, m, bits)
          == (if bit != m % 2 then 1 else 0) + 2 * XorBits(half, m / 2, bits - 1) by { Halves(bit, half); }
      hide XorBits;
    }
  }

  lemma Halves(bit: nat, half: nat)
    requires bit < 2
    ensures (bit + 2 * half) % 2 == bit && (bit + 2 * half) / 2 == half
  {
  }

  function Xor(a: byte, b: byte): (x: byte) {
    XorBitsBound(a, b, 8);
    assert Pow2(8) == 256 by { assert Pow2(4) == 16; }
    XorBits(a, b, 8)
  }

  // ---------- it is the exclusive or of bit-vectors ----------

  lemma LowBit(x: bv8)
    ensures (x as int) / 2 == (x >> 1) as int && (x as int) % 2 == (x & 1) as int
  {
  }

  lemma Shifted(x: bv8, bit: bv8)
    requires x < 128 && bit < 2
    ensures (2 * x + bit) as int == 2 * (x as int) + (bit as int)
  {
  }

  lemma XorSplits(x: bv8, y: bv8)
    ensures (x >> 1) ^ (y >> 1) < 128 && (x & 1) ^ (y & 1) < 2
    ensures x ^ y == 2 * ((x >> 1) ^ (y >> 1)) + ((x & 1) ^ (y & 1))
  {
  }

  lemma OneBit(x: bv8, y: bv8)
    ensures ((x & 1) ^ (y & 1)) as int == if (x & 1) as int != (y & 1) as int then 1 else 0
  {
  }

  // The bit-vector operations as functions, so that they can be kept apart.
  function Number(x: bv8): (n: nat) { x as int }
  function Half(x: bv8): (h: bv8) { x >> 1 }
  function Either(x: bv8, y: bv8): (n: nat) { (x ^ y) as int }

  lemma Halved(x: bv8, y: bv8)
    ensures Number(Half(x)) == Number(x) / 2 && Number(Half(y)) == Number(y) / 2
    ensures Either(x, y) == 2 * Either(Half(x), Half(y)) + if Number(x) % 2 != Number(y) % 2 then 1 else 0
  {
    XorSplits(x, y);
    LowBit(x);
    LowBit(y);
    OneBit(x, y);
    Shifted((x >> 1) ^ (y >> 1), (x & 1) ^ (y & 1));
  }

  /** As numbers, step by step: `x`, `y` and their exclusive or `z`. */
  lemma XorStep(x: nat, y: nat, z: nat, rest: nat, bits: nat)
    requires bits > 0 && rest == XorBits(x / 2, y / 2, bits - 1)
    requires z == 2 * rest + if x % 2 != y % 2 then 1 else 0
    ensures XorBits(x, y, bits) == z
  {
  }

  lemma {:induction false} XorBitsIsXor(x: bv8, y: bv8, bits: nat)
    requires Number(x) < Pow2(bits) && Number(y) < Pow2(bits)
    ensures XorBits(Number(x), Number(y), bits) == Either(x, y)
    decreases bits
  {
    hide Number, Half, Either;
    if bits > 0 {
      Halved(x, y);
      XorBitsIsXor(Half(x), Half(y), bits - 1);
      hide XorBits;
      XorStep(Number(x), Number(y), Either(x, y), Either(Half(x), Half(y)), bits);
    } else {
      NoBits(x, y);
    }
  }

  lemma NoBits(x: bv8, y: bv8)
    requires Number(x) == 0 && Number(y) == 0
    ensures Either(x, y) == 0
  {
  }

  /** The octet with the value `a`. */
  function Octet(a: byte): (x: bv8)
    ensures x as int == a
  {
    if a == 0 then 0 else Incremented(Octet(a - 1)); Octet(a - 1) + 1
  }

  lemma Incremented(x: bv8)
    requires x as int < 255
    ensures (x + 1) as int == x as int + 1
  {
  }

  lemma XorOf(x: bv8, y: bv8)
    ensures Xor(x as int, y as int) == (x ^ y) as int
  {
    EightBits();
    hide XorBits, Pow2;
    XorBitsIsXor(x, y, 8);
  }

  /** Section 5.3: the transformation is exclusive or. */
  lemma XorIsXor(a: byte, b: byte)
    ensures Xor(a, b) == (Octet(a) ^ Octet(b)) as int
  {
    hide Xor;
    XorOf(Octet(a), Octet(b));
  }

  lemma EightBits()
    ensures Pow2(8) == 256
  {
    assert Pow2(4) == 16;
  }

  /** Octet i of the result is octet i of the data exclusive-or octet i mod 4 of the key. */
  lemma MaskedIsXor(data: seq<byte>, mask: seq<byte>)
    requires |mask| == 4
    ensures forall i | 0 <= i < |data| :: Masked(data, mask)[i] == (Octet(data[i]) ^ Octet(mask[i % 4])) as int
  {
    hide Xor;
    forall i | 0 <= i < |data|
      ensures Masked(data, mask)[i] == (Octet(data[i]) ^ Octet(mask[i % 4])) as int
    {
      XorIsXor(data[i], mask[i % 4]);
    }
  }

  lemma HelloOctets()
    ensures Xor(0x48, 0x37) == 0x7f && Xor(0x65, 0xfa) == 0x9f && Xor(0x6c, 0x21) == 0x4d
    ensures Xor(0x6c, 0x3d) == 0x51 && Xor(0x6f, 0x37) == 0x58
  {
    hide Xor;
    XorOf(0x48, 0x37);
    XorOf(0x65, 0xfa);
    XorOf(0x6c, 0x21);
    XorOf(0x6c, 0x3d);
    XorOf(0x6f, 0x37);
  }

  /** The masked "Hello" of section 5.7. */
  lemma HelloMasked()
    ensures Masked([0x48, 0x65, 0x6c, 0x6c, 0x6f], [0x37, 0xfa, 0x21, 0x3d]) == [0x7f, 0x9f, 0x4d, 0x51, 0x58]
  {
    HelloOctets();
    hide Xor;
  }

  /** Its frame. */
  lemma HelloFrame()
    ensures ClientFrame([0x48, 0x65, 0x6c, 0x6c, 0x6f], [0x37, 0xfa, 0x21, 0x3d])
      == [0x81, 0x85, 0x37, 0xfa, 0x21, 0x3d, 0x7f, 0x9f, 0x4d, 0x51, 0x58]
  {
    HelloMasked();
    hide Masked;
  }

  lemma XorTwice(a: byte, m: byte)
    ensures Xor(Xor(a, m), m) == a
  {
    assert Pow2(8) == 256 by { assert Pow2(4) == 16; }
    XorBitsTwice(a, m, 8);
  }

  /** Section 5.3: octet i of the data is combined with octet i mod 4 of the key. */
  function Masked(data: seq<byte>, mask: seq<byte>): (m: seq<byte>)
    requires |mask| == 4
    ensures |m| == |data|
  {
    seq(|data|, i requires 0 <= i < |data| => Xor(data[i], mask[i % 4]))
  }

  lemma MaskTwice(data: seq<byte>, mask: seq<byte>)
    requires |mask| == 4
    ensures Masked(Masked(data, mask), mask) == data
  {
    forall i | 0 <= i < |data|
      ensures Masked(Masked(data, mask), mask)[i] == data[i]
    {
      XorTwice(data[i], mask[i % 4]);
    }
  }

  // ---------- the length field ----------

  const MAX_SIZE: nat := TWO_32 * TWO_32  // lengths are size_t

  function WriteBe16(n: nat): (p: seq<byte>)
    requires n < 0x1_0000
    ensures |p| == 2
  {
    [n / 256, n % 256]
  }

  /** The second header byte and the extended length; `flag` is the MASK bit. */
  function LengthField(n: nat, flag: nat): (h: seq<byte>)
    requires n < MAX_SIZE && (flag == 0 || flag == 0x80)
    ensures h != []
  {
    if n < 126 then [flag + n]
    else if n <= 65535 then [flag + 126] + WriteBe16(n)
    else [flag + 127] + WriteBe64(n)
  }

  datatype Length = Short | Length(n: nat, size: nat)

  /** Reads the length that starts in byte 1 of `s`; `size` counts that byte and the extension. */
  function ReadLength(s: seq<byte>): (l: Length)
    requires |s| >= 2
    ensures l.Length? ==> l.n < MAX_SIZE && 1 + l.size <= |s|
  {
    var n := s[1] % 128;
    if n < 126 then Length(n, 1)
    else if n == 126 then if |s| < 4 then Short else Length(s[2] as int * 256 + s[3], 3)
    else if |s| < 10 then Short else Length(ReadBe64(s[2..10]), 9)
  }

  lemma ReadsBack(b0: byte, n: nat, flag: nat, rest: seq<byte>)
    requires n < MAX_SIZE && (flag == 0 || flag == 0x80)
    ensures var s := [b0] + LengthField(n, flag) + rest;
      ReadLength(s) == Length(n, |LengthField(n, flag)|) && (s[1] >= 0x80 <==> flag == 0x80)
  {
    var extension := if n < 126 then [] else if n <= 65535 then WriteBe16(n) else WriteBe64(n);
    var second: byte := flag + if n < 126 then n else if n <= 65535 then 126 else 127;
    assert LengthField(n, flag) == [second] + extension;
    Extended(b0, second, extension, rest);
    hide ReadBe64, WriteBe64, LengthField;
    assert n > 65535 ==> extension == WriteBe64(n);
  }

  lemma Extended(b0: byte, second: byte, extension: seq<byte>, rest: seq<byte>)
    ensures var s := [b0] + ([second] + extension) + rest;
      && |s| >= 2 + |extension| && s[1] == second && s[2..2 + |extension|] == extension
      && forall i | 0 <= i < |extension| :: s[2 + i] == extension[i]
  {
  }

  /** Section 5.2: the minimal number of bytes must be used to encode the length. */
  predicate Minimal(l: Length) {
    l.Length? ==> (l.size == 3 ==> l.n >= 126) && (l.size == 9 ==> l.n > 65535)
  }

  /** The lengths of the examples of section 5.7: 5 bytes masked, 256 bytes, 64 KiB. */
  lemma LengthExamples()
    ensures LengthField(5, 0x80) == [0x85] && LengthField(256, 0) == [0x7e, 0x01, 0x00]
    ensures LengthField(65536, 0) == [0x7f, 0, 0, 0, 0, 0, 1, 0, 0]
  {
    assert WriteBe64(65536) == WriteBe32(0) + WriteBe32(65536);
  }

  // ---------- frames ----------

  datatype Frame = Frame(fin: bool, opcode: nat, payload: seq<byte>)
  datatype Decoded = Malformed | Decoded(frame: Frame, rest: seq<byte>)

  /** The receiver of section 5.2: refuses reserved bits and lengths that are not minimal. */
  function Decode(s: seq<byte>): (d: Decoded)
    ensures d.Decoded? ==> |d.rest| < |s|
  {
    if |s| < 2 || s[0] / 16 % 8 != 0 then Malformed
    else
      var l := ReadLength(s);
      if l.Short? || !Minimal(l) then Malformed
      else
        var keyed := s[1] >= 0x80;
        var start := 1 + l.size + (if keyed then 4 else 0);
        if |s| < start + l.n then Malformed
        else
          var data := s[start..start + l.n];
          var payload := if keyed then Masked(data, s[1 + l.size..start]) else data;
          Decoded(Frame(s[0] >= 0x80, s[0] % 16, payload), s[start + l.n..])
  }

  function DecodeAll(s: seq<byte>): (frames: seq<Frame>)
    decreases |s|
  {
    match Decode(s)
    case Malformed => []
    case Decoded(f, rest) => [f] + DecodeAll(rest)
  }

  const BINARY: byte := 0x82
  const TEXT: byte := 0x81

  /** A frame from a server: no mask. */
  function ServerFrame(b0: byte, payload: seq<byte>): (f: seq<byte>)
    requires |payload| < MAX_SIZE
  {
    [b0] + LengthField(|payload|, 0) + payload
  }

  /** A frame from a browser: masked, as section 5.3 requires. */
  function ClientFrame(text: seq<byte>, mask: seq<byte>): (f: seq<byte>)
    requires |text| < MAX_SIZE && |mask| == 4
  {
    [TEXT] + LengthField(|text|, 0x80) + mask + Masked(text, mask)
  }

  lemma DecodeServerFrame(b0: byte, payload: seq<byte>, rest: seq<byte>)
    requires |payload| < MAX_SIZE && b0 / 16 % 8 == 0
    ensures Decode(ServerFrame(b0, payload) + rest) == Decoded(Frame(b0 >= 0x80, b0 % 16, payload), rest)
  {
    var n := |payload|;
    var s := ServerFrame(b0, payload) + rest;
    assert s == [b0] + LengthField(n, 0) + (payload + rest);
    ReadsBack(b0, n, 0, payload + rest);
    var start := 1 + |LengthField(n, 0)|;
    assert s[start..] == payload + rest;
    assert s[start..start + n] == payload && s[start + n..] == rest;
  }

  lemma DecodeClientFrame(text: seq<byte>, mask: seq<byte>, rest: seq<byte>)
    requires |text| < MAX_SIZE && |mask| == 4
    ensures Decode(ClientFrame(text, mask) + rest) == Decoded(Frame(true, 1, text), rest)
  {
    hide Masked, ReadLength, ClientFrame;
    var n := |text|;
    var s := ClientFrame(text, mask) + rest;
    var tail := mask + Masked(text, mask) + rest;
    ClientFrameParts(text, mask, rest);
    ReadsBack(TEXT, n, 0x80, tail);
    var at := 1 + |LengthField(n, 0x80)|;
    assert s[at..] == tail;
    MaskTwice(text, mask);
    Parts(s, at, mask, Masked(text, mask), rest);
  }

  lemma ClientFrameParts(text: seq<byte>, mask: seq<byte>, rest: seq<byte>)
    requires |text| < MAX_SIZE && |mask| == 4
    ensures ClientFrame(text, mask) + rest == [TEXT] + LengthField(|text|, 0x80) + (mask + Masked(text, mask) + rest)
  {
    hide Masked, LengthField;
  }

  lemma Parts(s: seq<byte>, at: nat, mask: seq<byte>, data: seq<byte>, rest: seq<byte>)
    requires at <= |s| && s[at..] == mask + data + rest
    ensures var mid, end := at + |mask|, at + |mask| + |data|;
      end <= |s| && s[at..mid] == mask && s[mid..end] == data && s[end..] == rest
  {
    var tail := mask + data + rest;
    assert tail[..|mask|] == mask && tail[|mask|..|mask| + |data|] == data && tail[|mask| + |data|..] == rest;
  }

  function ServerFrames(payloads: seq<seq<byte>>): (s: seq<byte>)
    requires forall p | p in payloads :: |p| < MAX_SIZE
  {
    if payloads == [] then [] else ServerFrame(BINARY, payloads[0]) + ServerFrames(payloads[1..])
  }

  lemma {:induction false} FramesGrow(payloads: seq<seq<byte>>, p: seq<byte>)
    requires |p| < MAX_SIZE && forall q | q in payloads :: |q| < MAX_SIZE
    ensures ServerFrames(payloads + [p]) == ServerFrames(payloads) + ServerFrame(BINARY, p)
  {
    hide ServerFrame;
    if payloads == [] {
      assert payloads + [p] == [p] && [p][1..] == [];
    } else {
      FramesGrow(payloads[1..], p);
      assert (payloads + [p])[0] == payloads[0] && (payloads + [p])[1..] == payloads[1..] + [p];
      Regroup(ServerFrame(BINARY, payloads[0]), ServerFrames(payloads[1..]), ServerFrame(BINARY, p));
    }
  }

  function BinaryMessages(payloads: seq<seq<byte>>): (fs: seq<Frame>) {
    seq(|payloads|, i requires 0 <= i < |payloads| => Frame(true, 2, payloads[i]))
  }

  /** A run of frames decodes to the same messages in the same order. */
  lemma {:induction false} RunDecodes(payloads: seq<seq<byte>>)
    requires forall p | p in payloads :: |p| < MAX_SIZE
    ensures DecodeAll(ServerFrames(payloads)) == BinaryMessages(payloads)
  {
    hide ServerFrame, Decode, ServerFrames, BinaryMessages;
    if payloads == [] {
      NothingDecodes();
    } else {
      var p, tail := payloads[0], payloads[1..];
      RunDecodes(tail);
      DecodeServerFrame(BINARY, p, ServerFrames(tail));
      assert payloads[..|tail| + 1] == payloads && tail[..|tail|] == tail;
      FramesTake(payloads, |tail|);
    }
  }

  lemma NothingDecodes()
    ensures ServerFrames([]) == [] && DecodeAll([]) == BinaryMessages([])
  {
  }

  /** The length of a cut stream is that of the whole, or the cut is in the length field. */
  lemma LengthOfCut(s: seq<byte>, q: seq<byte>)
    requires q <= s && |q| >= 2
    ensures ReadLength(q) == Short || ReadLength(q) == ReadLength(s)
  {
    if |q| >= 10 { assert q[2..10] == s[2..10]; }
    hide ReadBe64;
  }

  /** A frame that is not there to its end is not decoded. */
  lemma CutFrame(b0: byte, payload: seq<byte>, q: seq<byte>)
    requires |payload| < MAX_SIZE && q <= ServerFrame(b0, payload) && |q| < |ServerFrame(b0, payload)|
    ensures Decode(q) == Malformed
  {
    if |q| >= 2 {
      var s := ServerFrame(b0, payload);
      assert s == [b0] + LengthField(|payload|, 0) + payload;
      ReadsBack(b0, |payload|, 0, payload);
      LengthOfCut(s, q);
      hide ReadLength, Masked, LengthField;
    }
  }

  lemma FramesTake(payloads: seq<seq<byte>>, j: nat)
    requires j < |payloads| && forall p | p in payloads :: |p| < MAX_SIZE
    ensures ServerFrames(payloads[..j + 1]) == ServerFrame(BINARY, payloads[0]) + ServerFrames(payloads[1..][..j])
    ensures BinaryMessages(payloads[..j + 1]) == [Frame(true, 2, payloads[0])] + BinaryMessages(payloads[1..][..j])
  {
    assert payloads[..j + 1][1..] == payloads[1..][..j];
    hide ServerFrame;
  }

  lemma CutInFirst(payloads: seq<seq<byte>>, q: seq<byte>)
    requires payloads != [] && (forall p | p in payloads :: |p| < MAX_SIZE)
    requires q <= ServerFrames(payloads) && |q| < |ServerFrame(BINARY, payloads[0])|
    ensures DecodeAll(q) == BinaryMessages(payloads[..0]) && ServerFrames(payloads[..0]) == []
    ensures |q| < |ServerFrames(payloads[..1])|
  {
    CutFrame(BINARY, payloads[0], q);
    FramesTake(payloads, 0);
    hide ServerFrame, Decode;
  }

  lemma FirstIsWhole(payloads: seq<seq<byte>>, q: seq<byte>)
    requires payloads != [] && (forall p | p in payloads :: |p| < MAX_SIZE)
    requires q <= ServerFrames(payloads) && |q| >= |ServerFrame(BINARY, payloads[0])|
    ensures var frame := ServerFrame(BINARY, payloads[0]);
      frame <= q && q[|frame|..] <= ServerFrames(payloads[1..])
  {
    hide ServerFrame;
  }

  /** A run of frames cut anywhere decodes to exactly the messages whose frames are complete. */
  lemma {:induction false} CutRunDecodes(payloads: seq<seq<byte>>, q: seq<byte>) returns (k: nat)
    requires (forall p | p in payloads :: |p| < MAX_SIZE) && q <= ServerFrames(payloads)
    ensures k <= |payloads| && DecodeAll(q) == BinaryMessages(payloads[..k])
    ensures ServerFrames(payloads[..k]) <= q
    ensures k < |payloads| ==> |q| < |ServerFrames(payloads[..k + 1])|
  {
    hide ServerFrame, Decode, DecodeAll, BinaryMessages, ServerFrames;
    if payloads == [] {
      NothingDecodes();
      return 0;
    }
    var frame, tail := ServerFrame(BINARY, payloads[0]), payloads[1..];
    if |q| < |frame| {
      CutInFirst(payloads, q);
      return 0;
    }
    FirstIsWhole(payloads, q);
    var j := CutRunDecodes(tail, q[|frame|..]);
    CutBehindFirst(payloads, q, j);
    k := j + 1;
  }

  lemma CutBehindFirst(payloads: seq<seq<byte>>, q: seq<byte>, j: nat)
    requires payloads != [] && (forall p | p in payloads :: |p| < MAX_SIZE) && ServerFrame(BINARY, payloads[0]) <= q
    requires var tail, rest := payloads[1..], q[|ServerFrame(BINARY, payloads[0])|..];
      && j <= |tail| && DecodeAll(rest) == BinaryMessages(tail[..j]) && ServerFrames(tail[..j]) <= rest
      && (j < |tail| ==> |rest| < |ServerFrames(tail[..j + 1])|)
    ensures DecodeAll(q) == BinaryMessages(payloads[..j + 1]) && ServerFrames(payloads[..j + 1]) <= q
    ensures j + 1 < |payloads| ==> |q| < |ServerFrames(payloads[..j + 2])|
  {
    hide ServerFrame, Decode, ServerFrames, BinaryMessages;
    var frame := ServerFrame(BINARY, payloads[0]);
    var rest := q[|frame|..];
    assert q == frame + rest;
    DecodeServerFrame(BINARY, payloads[0], rest);
    assert DecodeAll(q) == [Frame(true, 2, payloads[0])] + DecodeAll(rest);
    FramesTake(payloads, j);
    if j + 1 < |payloads| { FramesTake(payloads, j + 1); }
  }
}
