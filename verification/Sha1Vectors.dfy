/** SHA-1 of two messages whose digests are known, worked out from the standard's function. */
module Sha1Vectors {
  import opened Sha1

  // Rotations by a fixed number of bits.
  function Left1(x: word): (r: word) { (x << 1) | (x >> 31) }
  function Left5(x: word): (r: word) { (x << 5) | (x >> 27) }
  function Left30(x: word): (r: word) { (x << 30) | (x >> 2) }

  lemma Rotated(x: word)
    ensures Rotl(x, 1) == Left1(x) && Rotl(x, 5) == Left5(x) && Rotl(x, 30) == Left30(x)
  {
  }

  function Turn(s: State, t: nat, w: word): (r: State)
    requires t < 80
  {
    State(Sum(Left5(s.a), F(t, s.b, s.c, s.d), s.e, K(t), w), s.a, Left30(s.b), s.c, s.d)
  }

  lemma TurnIsRound(s: State, t: nat, w: word)
    requires t < 80
    ensures Turn(s, t, w) == Round(s, t, w)
  {
    Rotated(s.a);
    Rotated(s.b);
    hide Rotl, Left5, Left30, Sum, F, K;
  }

  function More(x: word, y: word, z: word, u: word): (w: word) { Left1(x ^ y ^ z ^ u) }

  lemma MoreIsExpand(x: word, y: word, z: word, u: word)
    ensures More(x, y, z, u) == Expand(x, y, z, u)
  {
    Rotated(x ^ y ^ z ^ u);
    hide Rotl, Left1;
  }

  datatype Quad = Quad(a: word, b: word, c: word, d: word)

  /** Four rounds, on the next four words. */
  function Round4(r: State, t: nat, q: Quad): (r': State)
    requires t <= 76
  {
    Turn(Turn(Turn(Turn(r, t, q.a), t + 1, q.b), t + 2, q.c), t + 3, q.d)
  }

  /** The four words after sixteen. */
  function Expand4(p: Quad, q: Quad, r: Quad, s: Quad): (more: Quad) {
    var x := More(s.b, r.a, p.c, p.a);
    Quad(x, More(s.c, r.b, p.d, p.b), More(s.d, r.c, q.a, p.c), More(x, r.d, q.b, p.d))
  }

  ghost predicate Words(block: Block, t: nat, q: Quad) {
    t <= 76 ==> W(block, t) == q.a && W(block, t + 1) == q.b && W(block, t + 2) == q.c && W(block, t + 3) == q.d
  }

  /** After `t` rounds from `s`: the state, and the next sixteen words as far as there are any. */
  ghost predicate At(s: State, block: Block, t: nat, p: Quad, q: Quad, r: Quad, u: Quad, x: State) {
    && t <= 80 && Rounds(s, block, t) == x
    && Words(block, t, p) && Words(block, t + 4, q) && Words(block, t + 8, r) && Words(block, t + 12, u)
  }

  lemma Four(s: State, block: Block, t: nat, p: Quad, q: Quad, r: Quad, u: Quad, x: State)
    returns (more: Quad, y: State)
    requires At(s, block, t, p, q, r, u, x) && t <= 76 && t % 4 == 0
    ensures more == Expand4(p, q, r, u) && y == Round4(x, t, p)
    ensures At(s, block, t + 4, q, r, u, more, y) && Rounds(s, block, t + 4) == y
  {
    more, y := Expand4(p, q, r, u), Round4(x, t, p);
    hide Turn, More;
    FourRounds(s, block, t, p, x);
    hide Rounds;
    if t <= 60 { FourWords(block, t, p, q, r, u); }
  }

  lemma FourRounds(s: State, block: Block, t: nat, p: Quad, x: State)
    requires t <= 76 && Rounds(s, block, t) == x && Words(block, t, p)
    ensures Rounds(s, block, t + 4) == Round4(x, t, p)
  {
    hide Round, W, Turn;
    var x1 := Turn(x, t, p.a);
    var x2 := Turn(x1, t + 1, p.b);
    var x3 := Turn(x2, t + 2, p.c);
    TurnIsRound(x, t, p.a);
    TurnIsRound(x1, t + 1, p.b);
    TurnIsRound(x2, t + 2, p.c);
    TurnIsRound(x3, t + 3, p.d);
    assert Rounds(s, block, t + 1) == x1;
    assert Rounds(s, block, t + 2) == x2;
    assert Rounds(s, block, t + 3) == x3;
  }

  lemma FourWords(block: Block, t: nat, p: Quad, q: Quad, r: Quad, u: Quad)
    requires t <= 60
    requires Words(block, t, p) && Words(block, t + 4, q) && Words(block, t + 8, r) && Words(block, t + 12, u)
    ensures Words(block, t + 16, Expand4(p, q, r, u))
  {
    NextWord(block, t + 16);
    NextWord(block, t + 17);
    NextWord(block, t + 18);
    NextWord(block, t + 19);
    hide More, W;
  }

  lemma NextWord(block: Block, t: nat)
    requires 16 <= t < 80
    ensures W(block, t) == More(W(block, t - 3), W(block, t - 8), W(block, t - 14), W(block, t - 16))
  {
    hide Expand, More, WordOf;
    MoreIsExpand(W(block, t - 3), W(block, t - 8), W(block, t - 14), W(block, t - 16));
  }

  // ---------- octets and words ----------

  function Octs(q: Quad): (p: seq<octet>)
    ensures |p| == 16
  {
    OctetsOf(q.a) + OctetsOf(q.b) + OctetsOf(q.c) + OctetsOf(q.d)
  }

  lemma OneWord(b: Block, t: nat, w: word)
    requires t < 16 && b[4 * t..4 * t + 4] == OctetsOf(w)
    ensures W(b, t) == w
  {
    hide WordOf, OctetsOf;
    WordRoundTrip(w);
  }

  lemma OctsParts(q: Quad)
    ensures var p := Octs(q);
      p[0..4] == OctetsOf(q.a) && p[4..8] == OctetsOf(q.b) && p[8..12] == OctetsOf(q.c) && p[12..16] == OctetsOf(q.d)
  {
    hide OctetsOf;
  }

  lemma Slice(b: seq<octet>, at: nat, i: nat)
    requires at + 16 <= |b| && i <= 12
    ensures b[at..at + 16][i..i + 4] == b[at + i..at + i + 4]
  {
    var x, y := b[at..at + 16][i..i + 4], b[at + i..at + i + 4];
    assert |x| == |y|;
    assert forall k | 0 <= k < 4 :: x[k] == b[at..at + 16][i + k] == b[at + (i + k)] && y[k] == b[at + i + k];
  }

  lemma FourFirst(b: Block, t: nat, q: Quad)
    requires t <= 12 && b[4 * t..4 * t + 16] == Octs(q)
    ensures Words(b, t, q)
  {
    hide OctetsOf, W, Octs;
    OctsParts(q);
    Slice(b, 4 * t, 0);
    Slice(b, 4 * t, 4);
    Slice(b, 4 * t, 8);
    Slice(b, 4 * t, 12);
    OneWord(b, t, q.a);
    OneWord(b, t + 1, q.b);
    OneWord(b, t + 2, q.c);
    OneWord(b, t + 3, q.d);
  }

  /** The schedule starts with the block's own words. */
  lemma Start(s: State, b: Block, p: Quad, q: Quad, r: Quad, u: Quad)
    requires b == Octs(p) + Octs(q) + Octs(r) + Octs(u)
    ensures At(s, b, 0, p, q, r, u, s)
  {
    hide Octs, Words, W;
    assert b[0..16] == Octs(p) && b[16..32] == Octs(q) && b[32..48] == Octs(r) && b[48..64] == Octs(u);
    FourFirst(b, 0, p);
    FourFirst(b, 4, q);
    FourFirst(b, 8, r);
    FourFirst(b, 12, u);
  }

  const NONE := Quad(0, 0, 0, 0)

  lemma NoOctets()
    ensures Octs(NONE) == Zeros(16)
  {
    assert OctetsOf(0) == [0, 0, 0, 0];
  }

  /** The last eight octets of a short message's padding. */
  lemma ShortLength(n: nat)
    requires n < 0x1_0000
    ensures BigEndian(n, 8) == [0, 0, 0, 0, 0, 0, (n / 256) as octet, (n % 256) as octet]
  {
    ZeroLength(6);
    assert n / 256 / 256 == 0;
    assert BigEndian(n / 256 / 256, 6) == Zeros(6);
    assert BigEndian(n / 256, 7) == Zeros(6) + [(n / 256 % 256) as octet];
  }

  lemma {:induction false} ZeroLength(k: nat)
    ensures BigEndian(0, k) == Zeros(k)
  {
    if k > 0 { ZeroLength(k - 1); }
  }

  // ---------- "abc" ----------

  lemma Abc40(b: Block)
    requires At(H0, b, 0, Quad(0x61626380, 0, 0, 0), Quad(0, 0, 0, 0), Quad(0, 0, 0, 0), Quad(0, 0, 0, 0x00000018), H0)
    ensures At(H0, b, 40, Quad(0xd2e138c4, 0x00000f00, 0x3afb5079, 0x898e04e5),
               Quad(0xe2ba3c2b, 0x000060c0, 0x053a37cd, 0x74458547),
               Quad(0xda9415ed, 0x26380a16, 0x626383a1, 0x4ebf54de),
               Quad(0x3835b44b, 0x0000f600, 0x1e84c7a3, 0x98e04d98),
               State(0x32de1cba, 0x4c986405, 0xf718e5cf, 0x03d447f6, 0xf72eec32))
  {
    hide At, Rounds, W;
    var q0 := Quad(0x61626380, 0, 0, 0);
    var q4 := Quad(0, 0, 0, 0);
    var q8 := Quad(0, 0, 0, 0);
    var q12 := Quad(0, 0, 0, 0x00000018);
    var q16, r4 := Four(H0, b, 0, q0, q4, q8, q12, H0);
    var q20, r8 := Four(H0, b, 4, q4, q8, q12, q16, r4);
    var q24, r12 := Four(H0, b, 8, q8, q12, q16, q20, r8);
    var q28, r16 := Four(H0, b, 12, q12, q16, q20, q24, r12);
    var q32, r20 := Four(H0, b, 16, q16, q20, q24, q28, r16);
    var q36, r24 := Four(H0, b, 20, q20, q24, q28, q32, r20);
    var q40, r28 := Four(H0, b, 24, q24, q28, q32, q36, r24);
    var q44, r32 := Four(H0, b, 28, q28, q32, q36, q40, r28);
    var q48, r36 := Four(H0, b, 32, q32, q36, q40, q44, r32);
    var q52, r40 := Four(H0, b, 36, q36, q40, q44, q48, r36);
  }

  lemma Abc80(b: Block)
    requires At(H0, b, 40, Quad(0xd2e138c4, 0x00000f00, 0x3afb5079, 0x898e04e5),
                Quad(0xe2ba3c2b, 0x000060c0, 0x053a37cd, 0x74458547),
                Quad(0xda9415ed, 0x26380a16, 0x626383a1, 0x4ebf54de),
                Quad(0x3835b44b, 0x0000f600, 0x1e84c7a3, 0x98e04d98),
                State(0x32de1cba, 0x4c986405, 0xf718e5cf, 0x03d447f6, 0xf72eec32))
    ensures Rounds(H0, b, 80) == State(0x42541b35, 0x5738d5e1, 0x21834873, 0x681e6df6, 0xd8fdf6ad)
  {
    hide At, Rounds, W;
    var q40 := Quad(0xd2e138c4, 0x00000f00, 0x3afb5079, 0x898e04e5);
    var q44 := Quad(0xe2ba3c2b, 0x000060c0, 0x053a37cd, 0x74458547);
    var q48 := Quad(0xda9415ed, 0x26380a16, 0x626383a1, 0x4ebf54de);
    var q52 := Quad(0x3835b44b, 0x0000f600, 0x1e84c7a3, 0x98e04d98);
    var r40 := State(0x32de1cba, 0x4c986405, 0xf718e5cf, 0x03d447f6, 0xf72eec32);
    var q56, r44 := Four(H0, b, 40, q40, q44, q48, q52, r40);
    var q60, r48 := Four(H0, b, 44, q44, q48, q52, q56, r44);
    var q64, r52 := Four(H0, b, 48, q48, q52, q56, q60, r48);
    var q68, r56 := Four(H0, b, 52, q52, q56, q60, q64, r52);
    var q72, r60 := Four(H0, b, 56, q56, q60, q64, q68, r56);
    var q76, r64 := Four(H0, b, 60, q60, q64, q68, q72, r60);
    var q80, r68 := Four(H0, b, 64, q64, q68, q72, q76, r64);
    var q84, r72 := Four(H0, b, 68, q68, q72, q76, q80, r68);
    var q88, r76 := Four(H0, b, 72, q72, q76, q80, q84, r72);
    var q92, r80 := Four(H0, b, 76, q76, q80, q84, q88, r76);
  }

  const ABC: seq<octet> := [0x61, 0x62, 0x63]

  lemma AbcPadded()
    ensures Pad(ABC) == Octs(Quad(0x61626380, 0, 0, 0)) + Octs(NONE) + Octs(NONE) + Octs(Quad(0, 0, 0, 0x18))
  {
    ShortLength(24);
    NoOctets();
    assert OctetsOf(0x61626380) == [0x61, 0x62, 0x63, 0x80];
    assert OctetsOf(0x18) == [0, 0, 0, 0x18] && OctetsOf(0) == [0, 0, 0, 0];
    hide OctetsOf, BigEndian;
    assert Octs(Quad(0x61626380, 0, 0, 0)) == [0x61, 0x62, 0x63, 0x80] + Zeros(12);
    assert Octs(Quad(0, 0, 0, 0x18)) == Zeros(15) + [0x18];
    hide Octs;
    assert Pad(ABC) == ABC + [0x80] + Zeros(52) + ([0, 0, 0, 0, 0, 0, 0] + [0x18]);
    assert [0x61, 0x62, 0x63, 0x80] == ABC + [0x80];
  }

  /** The digest of "abc" that FIPS 180-4 is published with. */
  lemma AbcDigest()
    ensures Digest(ABC) ==
      [0xa9, 0x99, 0x3e, 0x36, 0x47, 0x06, 0x81, 0x6a, 0xba, 0x3e, 0x25, 0x71, 0x78, 0x50, 0xc2, 0x6c, 0x9c, 0xd0,
       0xd8, 0x9d]
  {
    hide Rounds, W, WordOf, Pad, At, Octs;
    var p := Pad(ABC);
    AbcPadded();
    Start(H0, p, Quad(0x61626380, 0, 0, 0), NONE, NONE, Quad(0, 0, 0, 0x18));
    Abc40(p);
    Abc80(p);
    assert p[64 * 0..64 * 1] == p;
    assert Blocks(p, 1) == Plus(H0, Rounds(H0, p, 80));
    assert Blocks(p, 1) == State(0xa9993e36, 0x4706816a, 0xba3e2571, 0x7850c26c, 0x9cd0d89d);
    hide Blocks;
  }

  // ---------- the sample key of section 1.3 of RFC 6455, with the GUID ----------

  /** The state after the first block. */
  const MIDDLE := State(0x5bcf7727, 0x7327416a, 0xbe7bfbf9, 0x5a781878, 0x5e46a4e2)

  lemma First40(b: Block)
    requires At(H0, b, 0, Quad(0x6447686c, 0x49484e68, 0x62584273, 0x5a534275),
                Quad(0x6232356a, 0x5a513d3d, 0x32353845, 0x41464135),
                Quad(0x2d453931, 0x342d3437, 0x44412d39, 0x3543412d),
                Quad(0x43354142, 0x30444338, 0x35423131, 0x80000000),
                H0)
    ensures At(H0, b, 40, Quad(0xce8628b4, 0x415dba9e, 0x2792f049, 0x8e9b79e7),
               Quad(0x79c425c5, 0x6353b49d, 0x00994218, 0x8a950ed1),
               Quad(0xaf5d0b99, 0xfd9883de, 0x1ed8ffeb, 0xf007ff28),
               Quad(0x425e3674, 0x059631c0, 0xad6c3c31, 0x860b71d7),
               State(0x2ba2c83e, 0xd0869081, 0x1a1d8209, 0xd3334889, 0x2779e4f2))
  {
    hide At, Rounds, W;
    var q0 := Quad(0x6447686c, 0x49484e68, 0x62584273, 0x5a534275);
    var q4 := Quad(0x6232356a, 0x5a513d3d, 0x32353845, 0x41464135);
    var q8 := Quad(0x2d453931, 0x342d3437, 0x44412d39, 0x3543412d);
    var q12 := Quad(0x43354142, 0x30444338, 0x35423131, 0x80000000);
    var q16, r4 := Four(H0, b, 0, q0, q4, q8, q12, H0);
    var q20, r8 := Four(H0, b, 4, q4, q8, q12, q16, r4);
    var q24, r12 := Four(H0, b, 8, q8, q12, q16, q20, r8);
    var q28, r16 := Four(H0, b, 12, q12, q16, q20, q24, r12);
    var q32, r20 := Four(H0, b, 16, q16, q20, q24, q28, r16);
    var q36, r24 := Four(H0, b, 20, q20, q24, q28, q32, r20);
    var q40, r28 := Four(H0, b, 24, q24, q28, q32, q36, r24);
    var q44, r32 := Four(H0, b, 28, q28, q32, q36, q40, r28);
    var q48, r36 := Four(H0, b, 32, q32, q36, q40, q44, r32);
    var q52, r40 := Four(H0, b, 36, q36, q40, q44, q48, r36);
  }

  lemma First80(b: Block)
    requires At(H0, b, 40, Quad(0xce8628b4, 0x415dba9e, 0x2792f049, 0x8e9b79e7),
                Quad(0x79c425c5, 0x6353b49d, 0x00994218, 0x8a950ed1),
                Quad(0xaf5d0b99, 0xfd9883de, 0x1ed8ffeb, 0xf007ff28),
                Quad(0x425e3674, 0x059631c0, 0xad6c3c31, 0x860b71d7),
                State(0x2ba2c83e, 0xd0869081, 0x1a1d8209, 0xd3334889, 0x2779e4f2))
    ensures Rounds(H0, b, 80) == State(0xf48a5426, 0x835995e1, 0x25c11efb, 0x4a45c402, 0x9a73c2f2)
  {
    hide At, Rounds, W;
    var q40 := Quad(0xce8628b4, 0x415dba9e, 0x2792f049, 0x8e9b79e7);
    var q44 := Quad(0x79c425c5, 0x6353b49d, 0x00994218, 0x8a950ed1);
    var q48 := Quad(0xaf5d0b99, 0xfd9883de, 0x1ed8ffeb, 0xf007ff28);
    var q52 := Quad(0x425e3674, 0x059631c0, 0xad6c3c31, 0x860b71d7);
    var r40 := State(0x2ba2c83e, 0xd0869081, 0x1a1d8209, 0xd3334889, 0x2779e4f2);
    var q56, r44 := Four(H0, b, 40, q40, q44, q48, q52, r40);
    var q60, r48 := Four(H0, b, 44, q44, q48, q52, q56, r44);
    var q64, r52 := Four(H0, b, 48, q48, q52, q56, q60, r48);
    var q68, r56 := Four(H0, b, 52, q52, q56, q60, q64, r52);
    var q72, r60 := Four(H0, b, 56, q56, q60, q64, q68, r56);
    var q76, r64 := Four(H0, b, 60, q60, q64, q68, q72, r60);
    var q80, r68 := Four(H0, b, 64, q64, q68, q72, q76, r64);
    var q84, r72 := Four(H0, b, 68, q68, q72, q76, q80, r68);
    var q88, r76 := Four(H0, b, 72, q72, q76, q80, q84, r72);
    var q92, r80 := Four(H0, b, 76, q76, q80, q84, q88, r76);
  }

  lemma Second40(b: Block)
    requires At(MIDDLE, b, 0, Quad(0, 0, 0, 0), Quad(0, 0, 0, 0), Quad(0, 0, 0, 0), Quad(0, 0, 0, 0x000001e0), MIDDLE)
    ensures At(MIDDLE, b, 40, Quad(0, 0x0000cc00, 0x0003c000, 0x00004380),
               Quad(0, 0x00078f00, 0x0000ff00, 0x00032680),
               Quad(0x000f0000, 0x0000f000, 0x00003300, 0x001eff00),
               Quad(0, 0x000cb800, 0x003c0000, 0x00040b00),
               State(0x6f698f1a, 0xc6ff0cd3, 0xde5ab7bc, 0x5f6f3cbb, 0x1da48a85))
  {
    hide At, Rounds, W;
    var q0 := Quad(0, 0, 0, 0);
    var q4 := Quad(0, 0, 0, 0);
    var q8 := Quad(0, 0, 0, 0);
    var q12 := Quad(0, 0, 0, 0x000001e0);
    var q16, r4 := Four(MIDDLE, b, 0, q0, q4, q8, q12, MIDDLE);
    var q20, r8 := Four(MIDDLE, b, 4, q4, q8, q12, q16, r4);
    var q24, r12 := Four(MIDDLE, b, 8, q8, q12, q16, q20, r8);
    var q28, r16 := Four(MIDDLE, b, 12, q12, q16, q20, q24, r12);
    var q32, r20 := Four(MIDDLE, b, 16, q16, q20, q24, q28, r16);
    var q36, r24 := Four(MIDDLE, b, 20, q20, q24, q28, q32, r20);
    var q40, r28 := Four(MIDDLE, b, 24, q24, q28, q32, q36, r24);
    var q44, r32 := Four(MIDDLE, b, 28, q28, q32, q36, q40, r28);
    var q48, r36 := Four(MIDDLE, b, 32, q32, q36, q40, q44, r32);
    var q52, r40 := Four(MIDDLE, b, 36, q36, q40, q44, q48, r36);
  }

  lemma Second80(b: Block)
    requires At(MIDDLE, b, 40, Quad(0, 0x0000cc00, 0x0003c000, 0x00004380),
                Quad(0, 0x00078f00, 0x0000ff00, 0x00032680),
                Quad(0x000f0000, 0x0000f000, 0x00003300, 0x001eff00),
                Quad(0, 0x000cb800, 0x003c0000, 0x00040b00),
                State(0x6f698f1a, 0xc6ff0cd3, 0xde5ab7bc, 0x5f6f3cbb, 0x1da48a85))
    ensures Rounds(MIDDLE, b, 80) == State(0x57aad805, 0x4d3b0dac, 0xd27a4a0d, 0x74c040cd, 0x54782008)
  {
    hide At, Rounds, W;
    var q40 := Quad(0, 0x0000cc00, 0x0003c000, 0x00004380);
    var q44 := Quad(0, 0x00078f00, 0x0000ff00, 0x00032680);
    var q48 := Quad(0x000f0000, 0x0000f000, 0x00003300, 0x001eff00);
    var q52 := Quad(0, 0x000cb800, 0x003c0000, 0x00040b00);
    var r40 := State(0x6f698f1a, 0xc6ff0cd3, 0xde5ab7bc, 0x5f6f3cbb, 0x1da48a85);
    var q56, r44 := Four(MIDDLE, b, 40, q40, q44, q48, q52, r40);
    var q60, r48 := Four(MIDDLE, b, 44, q44, q48, q52, q56, r44);
    var q64, r52 := Four(MIDDLE, b, 48, q48, q52, q56, q60, r48);
    var q68, r56 := Four(MIDDLE, b, 52, q52, q56, q60, q64, r52);
    var q72, r60 := Four(MIDDLE, b, 56, q56, q60, q64, q68, r56);
    var q76, r64 := Four(MIDDLE, b, 60, q60, q64, q68, q72, r60);
    var q80, r68 := Four(MIDDLE, b, 64, q64, q68, q72, q76, r64);
    var q84, r72 := Four(MIDDLE, b, 68, q68, q72, q76, q80, r68);
    var q88, r76 := Four(MIDDLE, b, 72, q72, q76, q80, q84, r72);
    var q92, r80 := Four(MIDDLE, b, 76, q76, q80, q84, q88, r76);
  }

  const KEY0 := Quad(0x6447686c, 0x49484e68, 0x62584273, 0x5a534275)
  const KEY1 := Quad(0x6232356a, 0x5a513d3d, 0x32353845, 0x41464135)
  const KEY2 := Quad(0x2d453931, 0x342d3437, 0x44412d39, 0x3543412d)
  const KEY3 := Quad(0x43354142, 0x30444338, 0x35423131, 0x80000000)

  /** The sixty octets of key and GUID. */
  const SAMPLE: seq<octet> := Octs(KEY0) + Octs(KEY1) + Octs(KEY2) + Octs(KEY3)[..12]

  /** A message of sixty octets: its padding reaches into a second block. */
  lemma PaddedSixty(m: seq<octet>)
    requires |m| == 60
    ensures |Pad(m)| == 128 && Pad(m)[..64] == m + ([0x80] + Zeros(3))
    ensures Pad(m)[64..] == Zeros(62) + [1, 0xe0]
  {
    ShortLength(480);
    hide BigEndian;
    var end := Zeros(6) + [1, 0xe0];
    assert BigEndian(480, 8) == end;
    var p := m + [0x80] + Zeros(59) + end;
    assert Pad(m) == p;
    assert p[..64] == m + ([0x80] + Zeros(3)) && p[64..] == Zeros(62) + [1, 0xe0];
  }

  lemma SampleFront()
    ensures |SAMPLE| == 60 && SAMPLE + ([0x80] + Zeros(3)) == Octs(KEY0) + Octs(KEY1) + Octs(KEY2) + Octs(KEY3)
  {
    assert OctetsOf(0x80000000) == [0x80, 0, 0, 0];
    hide OctetsOf;
    assert Octs(KEY3) == Octs(KEY3)[..12] + ([0x80] + Zeros(3));
    hide Octs;
  }

  lemma SampleBack()
    ensures Octs(NONE) + Octs(NONE) + Octs(NONE) + Octs(Quad(0, 0, 0, 0x1e0)) == Zeros(62) + [1, 0xe0]
  {
    NoOctets();
    assert OctetsOf(0x1e0) == [0, 0, 1, 0xe0] && OctetsOf(0) == [0, 0, 0, 0];
    hide OctetsOf;
    assert Octs(Quad(0, 0, 0, 0x1e0)) == Zeros(14) + [1, 0xe0];
    hide Octs;
  }

  /** What a server has to answer to that key, before Base64. */
  lemma SampleDigest()
    ensures Digest(SAMPLE) ==
      [0xb3, 0x7a, 0x4f, 0x2c, 0xc0, 0x62, 0x4f, 0x16, 0x90, 0xf6, 0x46, 0x06, 0xcf, 0x38, 0x59, 0x45, 0xb2, 0xbe,
       0xc4, 0xea]
  {
    hide Rounds, W, WordOf, Pad, At, Octs;
    var p := Pad(SAMPLE);
    SampleFront();
    SampleBack();
    PaddedSixty(SAMPLE);
    Start(H0, p[..64], KEY0, KEY1, KEY2, KEY3);
    First40(p[..64]);
    First80(p[..64]);
    Start(MIDDLE, p[64..], NONE, NONE, NONE, Quad(0, 0, 0, 0x1e0));
    Second40(p[64..]);
    Second80(p[64..]);
    assert p[64 * 0..64 * 1] == p[..64] && p[64 * 1..64 * 2] == p[64..];
    assert Blocks(p, 1) == MIDDLE;
    assert Blocks(p, 2) == State(0xb37a4f2c, 0xc0624f16, 0x90f64606, 0xcf385945, 0xb2bec4ea);
    hide Blocks;
  }
}
