/** SHA-1: the recursive function of FIPS 180-4 and the in-place computation of aoa_h264server.c. */
module Sha1 {
  type word = bv32
  type octet = bv8

  // ---------- FIPS 180-4 ----------

  function Rotl(x: word, n: nat): (r: word)
    requires 0 < n < 32
  {
    (x << n) | (x >> (32 - n))
  }

  /** Section 4.1.1. */
  function Ch(x: word, y: word, z: word): (r: word) { (x & y) ^ (!x & z) }
  function Parity(x: word, y: word, z: word): (r: word) { x ^ y ^ z }
  function Maj(x: word, y: word, z: word): (r: word) { (x & y) ^ (x & z) ^ (y & z) }

  function F(t: nat, x: word, y: word, z: word): (r: word)
    requires t < 80
  {
    if t < 20 then Ch(x, y, z) else if t < 40 then Parity(x, y, z) else if t < 60 then Maj(x, y, z) else Parity(x, y, z)
  }

  /** Section 4.2.1. */
  function K(t: nat): (r: word)
    requires t < 80
  {
    if t < 20 then 0x5a827999 else if t < 40 then 0x6ed9eba1 else if t < 60 then 0x8f1bbcdc else 0xca62c1d6
  }

  function WordOf(p: seq<octet>): (w: word)
    requires |p| == 4
  {
    (p[0] as word << 24) | (p[1] as word << 16) | (p[2] as word << 8) | (p[3] as word)
  }

  function OctetsOf(w: word): (p: seq<octet>)
    ensures |p| == 4
  {
    [((w >> 24) & 0xff) as octet, ((w >> 16) & 0xff) as octet, ((w >> 8) & 0xff) as octet, (w & 0xff) as octet]
  }

  datatype State = State(a: word, b: word, c: word, d: word, e: word)

  const H0 := State(0x67452301, 0xefcdab89, 0x98badcfe, 0x10325476, 0xc3d2e1f0)

  type Block = b: seq<octet> | |b| == 64 witness seq(64, _ => 0)

  function Expand(x: word, y: word, z: word, u: word): (w: word) { Rotl(x ^ y ^ z ^ u, 1) }

  /** Section 6.1.2, step 1: the message schedule. */
  function W(block: Block, t: nat): (w: word)
    requires t < 80
  {
    if t < 16 then WordOf(block[4 * t..4 * t + 4])
    else Expand(W(block, t - 3), W(block, t - 8), W(block, t - 14), W(block, t - 16))
  }

  function Mix(a: word, f: word, e: word, k: word, w: word): (t: word) { Sum(Rotl(a, 5), f, e, k, w) }

  function Sum(r: word, f: word, e: word, k: word, w: word): (t: word) { r + f + e + k + w }

  /** Step 3, once. */
  function Round(s: State, t: nat, w: word): (r: State)
    requires t < 80
  {
    State(Mix(s.a, F(t, s.b, s.c, s.d), s.e, K(t), w), s.a, Rotl(s.b, 30), s.c, s.d)
  }

  function Rounds(s: State, block: Block, t: nat): (r: State)
    requires t <= 80
  {
    if t == 0 then s else Round(Rounds(s, block, t - 1), t - 1, W(block, t - 1))
  }

  function Plus(s: State, r: State): (h: State) {
    State(s.a + r.a, s.b + r.b, s.c + r.c, s.d + r.d, s.e + r.e)
  }

  function Compress(s: State, block: Block): (h: State) {
    Plus(s, Rounds(s, block, 80))
  }

  /** The hash value after the first `n` blocks. */
  function Blocks(m: seq<octet>, n: nat): (h: State)
    requires 64 * n <= |m|
  {
    if n == 0 then H0 else Compress(Blocks(m, n - 1), m[64 * (n - 1)..64 * n])
  }

  function BigEndian(v: nat, n: nat): (p: seq<octet>)
    ensures |p| == n
  {
    if n == 0 then [] else BigEndian(v / 256, n - 1) + [(v % 256) as octet]
  }

  function Zeros(n: nat): (z: seq<octet>) { seq(n, _ => 0) }

  /** The least multiple of 64 that is at least `n`. */
  function RoundUp(n: nat): (m: nat)
    ensures m % 64 == 0 && n <= m < n + 64
  {
    (n + 63) / 64 * 64
  }

  /** Section 5.1.1. */
  function Pad(m: seq<octet>): (p: seq<octet>)
    ensures |p| == RoundUp(|m| + 9) && |p| % 64 == 0
  {
    m + [0x80] + Zeros(RoundUp(|m| + 9) - |m| - 9) + BigEndian(8 * |m|, 8)
  }

  function Bytes(s: State): (p: seq<octet>)
    ensures |p| == 20
  {
    OctetsOf(s.a) + OctetsOf(s.b) + OctetsOf(s.c) + OctetsOf(s.d) + OctetsOf(s.e)
  }

  function Digest(m: seq<octet>): (d: seq<octet>)
    ensures |d| == 20
  {
    var p := Pad(m);
    Bytes(Blocks(p, |p| / 64))
  }

  // ---------- facts about the standard's function ----------

  /** The forms the code uses: or instead of exclusive or. */
  function ChOr(x: word, y: word, z: word): (r: word) { (x & y) | (!x & z) }
  function MajOr(x: word, y: word, z: word): (r: word) { (x & y) | (x & z) | (y & z) }

  lemma ChByOr(x: word, y: word, z: word)
    ensures ChOr(x, y, z) == Ch(x, y, z)
  {
    assert (x & y) | (!x & z) == (x & y) ^ (!x & z) by { hide ChOr, Ch; }
  }

  lemma MajByOr(x: word, y: word, z: word)
    ensures MajOr(x, y, z) == Maj(x, y, z)
  {
    assert (x & y) | (x & z) | (y & z) == (x & y) ^ (x & z) ^ (y & z) by { hide MajOr, Maj; }
  }

  lemma WordRoundTrip(w: word)
    ensures WordOf(OctetsOf(w)) == w
  {
  }

  /** Different messages have different paddings: the last 0x80 before the length marks the end. */
  lemma PadInjective(m: seq<octet>, n: seq<octet>)
    ensures Pad(m) == Pad(n) <==> m == n
  {
    PadEnd(m);
    PadEnd(n);
    if Pad(m) == Pad(n) && |m| == |n| {
      assert Pad(m)[..|m|] == m && Pad(n)[..|n|] == n;
    }
  }

  lemma PadEnd(m: seq<octet>)
    ensures var p := Pad(m);
      |m| < |p| - 8 && p[|m|] == 0x80 && forall i | |m| < i < |p| - 8 :: p[i] == 0
  {
  }

  // ---------- the computation ----------

  /** `v >> 8 * i` */
  function ShiftBytes(v: nat, i: nat): (r: nat) {
    if i == 0 then v else ShiftBytes(v / 256, i - 1)
  }

  lemma {:induction false} BigEndianByte(v: nat, n: nat, i: nat)
    requires i < n
    ensures BigEndian(v, n)[n - 1 - i] == (ShiftBytes(v, i) % 256) as octet
  {
    if i > 0 { BigEndianByte(v / 256, n - 1, i - 1); }
  }

  /** The counting loop for the padded length. */
  method PaddedLength(len: nat) returns (paddedLen: nat)
    ensures paddedLen % 64 == 0 && len + 9 <= paddedLen
    ensures forall n: nat | n % 64 == 0 && len + 9 <= n :: paddedLen <= n
    ensures paddedLen == RoundUp(len + 9)
  {
    hide RoundUp;
    paddedLen := len + 1 + 8;
    while paddedLen % 64 != 0
      invariant len + 9 <= paddedLen <= RoundUp(len + 9)
      decreases RoundUp(len + 9) - paddedLen
    {
      paddedLen := paddedLen + 1;
    }
    forall n: nat | n % 64 == 0 && len + 9 <= n ensures RoundUp(len + 9) <= n { LeastMultiple(len + 9, n); }
  }

  lemma LeastMultiple(n: nat, m: nat)
    requires m % 64 == 0 && n <= m
    ensures RoundUp(n) <= m
  {
    var up := RoundUp(n);
    hide RoundUp;
    assert up == 64 * (up / 64) && m == 64 * (m / 64);
  }

  /** The last eight bytes: the bit length, low byte last. */
  method PutBitLength(msg: array<octet>, bitLen: nat)
    requires msg.Length >= 8
    modifies msg
    ensures msg[..msg.Length - 8] == old(msg[..])[..msg.Length - 8]
    ensures msg[msg.Length - 8..] == BigEndian(bitLen, 8)
  {
    var n := msg.Length;
    for i := 0 to 8
      invariant msg[..n - 8] == old(msg[..])[..n - 8]
      invariant forall j | 8 - i <= j < 8 :: msg[n - 8 + j] == BigEndian(bitLen, 8)[j]
    {
      BigEndianByte(bitLen, 8, i);
      msg[n - 1 - i] := (ShiftBytes(bitLen, i) % 256) as octet;
    }
  }

  method CopyMessage(msg: array<octet>, data: seq<octet>)
    requires |data| + 9 <= msg.Length && msg[..] == Zeros(msg.Length)
    modifies msg
    ensures msg[..] == data + [0x80] + Zeros(msg.Length - |data| - 1)
  {
    assert forall k | 0 <= k < msg.Length :: msg[k] == msg[..][k] == 0;
    for i := 0 to |data|
      invariant forall k | 0 <= k < i :: msg[k] == data[k]
      invariant forall k | i <= k < msg.Length :: msg[k] == 0
    {
      msg[i] := data[i];
    }
    msg[|data|] := 0x80;
  }

  /** The padded message in a zeroed buffer; at 2^61 bytes the 64-bit bit length would wrap. */
  method PadMessage(data: seq<octet>) returns (msg: array<octet>)
    ensures fresh(msg)
    ensures |data| < 0x2000_0000_0000_0000 ==> msg[..] == Pad(data)
  {
    hide BigEndian, RoundUp;
    var bitLen := |data| * 8 % 0x1_0000_0000_0000_0000;
    var paddedLen := PaddedLength(|data|);
    msg := new octet[paddedLen](_ => 0);
    CopyMessage(msg, data);
    TrimZeros(data + [0x80], paddedLen - |data| - 1);
    PutBitLength(msg, bitLen);
    if |data| < 0x2000_0000_0000_0000 {
      IsPadded(data, msg[..], paddedLen);
    }
  }

  lemma IsPadded(m: seq<octet>, p: seq<octet>, n: nat)
    requires |p| == n == RoundUp(|m| + 9)
    requires p[..n - 8] == m + [0x80] + Zeros(n - |m| - 9)
    requires p[n - 8..] == BigEndian(8 * |m|, 8)
    ensures p == Pad(m)
  {
    assert p == p[..n - 8] + p[n - 8..];
  }

  lemma TrimZeros(head: seq<octet>, k: nat)
    requires k >= 8
    ensures (head + Zeros(k))[..|head| + k - 8] == head + Zeros(k - 8)
  {
  }

  /** `w[0..80]` for the block of `msg` at `off`. */
  method Schedule(msg: array<octet>, off: nat) returns (w: array<word>)
    requires off + 64 <= msg.Length
    ensures fresh(w) && w.Length == 80
    ensures forall t | 0 <= t < 80 :: w[t] == W(msg[off..off + 64], t)
  {
    hide Expand, WordOf;
    ghost var block := msg[off..off + 64];
    w := new word[80](_ => 0);
    for i := 0 to 16
      invariant forall t | 0 <= t < i :: w[t] == W(block, t)
    {
      var p := off + i * 4;
      assert block[4 * i..4 * i + 4] == msg[p..p + 4];
      w[i] := LoadWord(msg, p);
    }
    for i := 16 to 80
      invariant forall t | 0 <= t < i :: w[t] == W(block, t)
    {
      w[i] := Expand(w[i - 3], w[i - 8], w[i - 14], w[i - 16]);
    }
  }

  method LoadWord(msg: array<octet>, p: nat) returns (w: word)
    requires p + 4 <= msg.Length
    ensures w == WordOf(msg[p..p + 4])
  {
    w := (msg[p] as word << 24) | (msg[p + 1] as word << 16) | (msg[p + 2] as word << 8) | (msg[p + 3] as word);
  }

  /** The four-way choice of the round function and constant. */
  method RoundChoice(i: nat, b: word, c: word, d: word) returns (f: word, k: word)
    requires i < 80
    ensures f == F(i, b, c, d) && k == K(i)
  {
    hide Ch, Maj, ChOr, MajOr, Parity;
    if i < 20 {
      f := ChOr(b, c, d);
      k := 0x5A827999;
      ChByOr(b, c, d);
    } else if i < 40 {
      f := Parity(b, c, d);
      k := 0x6ED9EBA1;
    } else if i < 60 {
      f := MajOr(b, c, d);
      k := 0x8F1BBCDC;
      MajByOr(b, c, d);
    } else {
      f := Parity(b, c, d);
      k := 0xCA62C1D6;
    }
  }

  /** The eighty rounds over a..e. */
  method RunRounds(s: State, w: array<word>, ghost block: Block) returns (r: State)
    requires w.Length == 80 && forall t | 0 <= t < 80 :: w[t] == W(block, t)
    ensures r == Rounds(s, block, 80)
  {
    hide Rotl, Mix, F, K, W;
    var a, b, c, d, e := s.a, s.b, s.c, s.d, s.e;
    for i := 0 to 80
      invariant State(a, b, c, d, e) == Rounds(s, block, i)
    {
      var f, k := RoundChoice(i, b, c, d);
      var temp := Mix(a, f, e, k, w[i]);
      e := d;
      d := c;
      c := Rotl(b, 30);
      b := a;
      a := temp;
    }
    r := State(a, b, c, d, e);
  }

  lemma NextBlock(m: seq<octet>, n: nat, r: State)
    requires 64 * n + 64 <= |m| && r == Rounds(Blocks(m, n), m[64 * n..64 * n + 64], 80)
    ensures Plus(Blocks(m, n), r) == Blocks(m, n + 1)
  {
    hide Rounds, Plus;
    assert 64 * (n + 1) == 64 * n + 64;
  }

  /** sha1_compute */
  method Compute(data: seq<octet>) returns (out: seq<octet>)
    requires |data| < 0x2000_0000_0000_0000
    ensures out == Digest(data)
  {
    var msg := PadMessage(data);
    ghost var padded := Pad(data);
    var h, off := H0, 0;
    ghost var n := 0;
    hide Rounds, W, BigEndian, Plus, Bytes, Pad;
    while off < msg.Length
      invariant off == 64 * n <= msg.Length && msg.Length % 64 == 0
      invariant msg[..] == padded && h == Blocks(padded, n)
    {
      hide Blocks;
      var w := Schedule(msg, off);
      assert msg[off..off + 64] == padded[off..off + 64];
      var r := RunRounds(h, w, msg[off..off + 64]);
      NextBlock(padded, n, r);
      h := Plus(h, r);
      off, n := off + 64, n + 1;
    }
    out := Bytes(h);
  }
}
