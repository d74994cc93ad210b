/**
 * The AVC1 packet format and the flat-stream meaning of deframing it: what every reader of the
 * stream must consume and return, independent of buffers, windows and chunk boundaries.
 */
module Avc1 {
  import opened Bytes

  const MAGIC: seq<byte> := [0x41, 0x56, 0x43, 0x31]  // "AVC1"
  const HEADER: nat := 28
  const MAX_DATA: nat := 8 * 1024 * 1024

  predicate MagicAt(s: seq<byte>, i: nat) {
    i + 4 <= |s| && s[i] == MAGIC[0] && s[i + 1] == MAGIC[1] && s[i + 2] == MAGIC[2] && s[i + 3] == MAGIC[3]
  }

  predicate NoMagic(s: seq<byte>) {
    forall i: nat | i < |s| :: !MagicAt(s, i)
  }

  /** The data_len field is acceptable: non-zero and at most 8 MiB. */
  predicate ValidLength(n: nat) {
    0 < n <= MAX_DATA
  }

  function DataLength(h: seq<byte>): (n: nat)
    requires |h| >= HEADER
  {
    ReadBe32(h[24..28])
  }

  predicate WellFormed(p: seq<byte>) {
    && |p| >= HEADER
    && p[..4] == MAGIC
    && ValidLength(DataLength(p))
    && |p| == HEADER + DataLength(p)
  }

  /** The position of the first magic. */
  function FindMagic(s: seq<byte>): (at: Option<nat>)
    ensures at.None? <==> NoMagic(s)
    ensures at.Some? ==> MagicAt(s, at.value) && forall j: nat | j < at.value :: !MagicAt(s, j)
  {
    if |s| < 4 then None
    else if MagicAt(s, 0) then Some(0)
    else
      assert forall i: nat :: MagicAt(s[1..], i) <==> MagicAt(s, i + 1);
      match FindMagic(s[1..])
      case None =>
        assert forall i: nat | 0 < i < |s| :: MagicAt(s, i) ==> MagicAt(s[1..], i - 1);
        None
      case Some(i) =>
        assert forall j: nat | 0 < j < i + 1 :: MagicAt(s, j) ==> MagicAt(s[1..], j - 1);
        Some(i + 1)
  }

  /**
   * One attempt at a packet. A header with a bad length is rejected as a whole: all 28 bytes are
   * consumed and none of them is scanned again.
   */
  datatype Attempt =
    | Incomplete
    | Rejected(rest: seq<byte>)
    | Found(packet: seq<byte>, rest: seq<byte>)

  /** The attempt on a stream that begins with a magic. */
  function AttemptAtMagic(h: seq<byte>): (a: Attempt)
    requires MagicAt(h, 0)
    ensures a.Found? ==> WellFormed(a.packet) && a.packet + a.rest == h
    ensures a.Rejected? ==> |a.rest| + HEADER == |h| && !ValidLength(DataLength(h))
  {
    if |h| < HEADER then Incomplete
    else
      var n := DataLength(h);
      if !ValidLength(n) then Rejected(h[HEADER..])
      else if |h| < HEADER + n then Incomplete
      else
        assert h[..HEADER + n][24..28] == h[24..28];
        Found(h[..HEADER + n], h[HEADER + n..])
  }

  function Try(s: seq<byte>): (a: Attempt)
    ensures !a.Incomplete? ==> |a.rest| < |s|
    ensures a.Found? ==> WellFormed(a.packet)
  {
    match FindMagic(s)
    case None => Incomplete
    case Some(i) => AttemptAtMagic(s[i..])
  }

  /** The next packet: rejected headers are skipped. Never `Rejected`. */
  function Next(s: seq<byte>): (a: Attempt)
    ensures !a.Rejected?
    ensures a.Found? ==> WellFormed(a.packet) && |a.rest| < |s|
  {
    match Try(s)
    case Rejected(rest) => Next(rest)
    case a => a
  }

  /** Going on from an attempt: the scan starts again after a rejected header. */
  function Resume(a: Attempt): (next: Attempt) {
    if a.Rejected? then Next(a.rest) else a
  }

  lemma NothingFound(seen: seq<byte>, unread: seq<byte>)
    requires NoMagic(seen)
    ensures unread == [] ==> Next(seen + unread) == Incomplete
  {
    if unread == [] { assert seen + unread == seen && FindMagic(seen) == None; }
  }

  function ParseAll(s: seq<byte>): (packets: seq<seq<byte>>)
    decreases |s|
  {
    match Next(s)
    case Found(p, rest) => [p] + ParseAll(rest)
    case _ => []
  }

  /** Every packet ever returned has the magic, an acceptable length field and exactly that length. */
  lemma {:induction false} ParsedAreWellFormed(s: seq<byte>)
    ensures forall p | p in ParseAll(s) :: WellFormed(p)
    decreases |s|
  {
    match Next(s)
    case Found(p, rest) => ParsedAreWellFormed(rest);
    case _ =>
  }

  /** What that means for the bytes: "AVC1", a length field of 1 to 8 MiB, and as many bytes behind the header. */
  lemma WellFormedIff(p: seq<byte>)
    ensures WellFormed(p) <==>
      && |p| >= 28 && p[0] == 65 && p[1] == 86 && p[2] == 67 && p[3] == 49
      && 1 <= ReadBe32(p[24..28]) <= 8388608 && |p| == 28 + ReadBe32(p[24..28])
  {
    hide ReadBe32;
    assert |p| >= 4 ==> (p[..4] == MAGIC <==> p[0] == 65 && p[1] == 86 && p[2] == 67 && p[3] == 49);
  }

  /**
   * AVC1 has no border: no proper suffix of the magic is a prefix of it, so two occurrences never
   * overlap.
   */
  lemma MagicHasNoBorder(s: seq<byte>, i: nat, j: nat)
    requires MagicAt(s, i) && MagicAt(s, j) && i < j
    ensures i + 4 <= j
  {
    assert j == i + 1 || j == i + 2 || j == i + 3 || i + 4 <= j;
  }

  /** `seen` holds no magic and the last four bytes of `seen + [b]` are one: the first occurrence. */
  lemma FirstMagic(seen: seq<byte>, rest: seq<byte>)
    requires |seen| >= 4 && MagicAt(seen, |seen| - 4)
    requires NoMagic(seen[..|seen| - 1])
    ensures FindMagic(seen + rest) == Some(|seen| - 4)
  {
    var s := seen + rest;
    assert MagicAt(s, |seen| - 4);
    forall j: nat | j < |seen| - 4
      ensures !MagicAt(s, j)
    {
      assert !MagicAt(seen[..|seen| - 1], j);
    }
  }

  lemma StillNoMagic(seen: seq<byte>, b: byte)
    requires NoMagic(seen)
    requires !(|seen| >= 3 && MagicAt(seen + [b], |seen| - 3))
    ensures NoMagic(seen + [b])
  {
    forall i: nat | i < |seen| + 1
      ensures !MagicAt(seen + [b], i)
    {
      if MagicAt(seen + [b], i) && i + 4 <= |seen| { assert MagicAt(seen, i); }
    }
  }

  /** Once the first magic has been read, the attempt depends only on the magic and what follows. */
  lemma TryAfterScan(seen: seq<byte>, b: byte, rest: seq<byte>)
    requires NoMagic(seen) && |seen| >= 3 && MagicAt(seen + [b], |seen| - 3)
    ensures Try(seen + [b] + rest) == AttemptAtMagic(MAGIC + rest)
  {
    var s := seen + [b];
    assert s[..|s| - 1] == seen;
    FirstMagic(s, rest);
    assert (s + rest)[|s| - 4..] == MAGIC + rest;
    hide NoMagic, FindMagic, AttemptAtMagic;
  }

  lemma HeaderAttempt(rest: seq<byte>, header: seq<byte>)
    requires |rest| >= 24 && header == MAGIC + rest[..24]
    ensures !ValidLength(DataLength(header)) ==> AttemptAtMagic(MAGIC + rest) == Rejected(rest[24..])
  {
    assert header[24..28] == (MAGIC + rest)[24..28];
    assert (MAGIC + rest)[HEADER..] == rest[24..];
  }

  lemma BodyAttempt(rest: seq<byte>, header: seq<byte>, n: nat)
    requires |rest| >= 24 && header == MAGIC + rest[..24]
    requires n == DataLength(header) && ValidLength(n)
    ensures AttemptAtMagic(MAGIC + rest) ==
      if |rest[24..]| < n then Incomplete else Found(header + rest[24..][..n], rest[24..][n..])
  {
    var h := MAGIC + rest;
    assert header[24..28] == h[24..28];
    if |rest[24..]| >= n {
      assert h[..HEADER + n] == header + rest[24..][..n];
      assert h[HEADER + n..] == rest[24..][n..];
    }
  }

  /** Garbage in front of a packet cannot shift the packet: the magic is found where it starts. */
  lemma MagicAfterGarbage(garbage: seq<byte>, s: seq<byte>)
    requires NoMagic(garbage) && MagicAt(s, 0)
    ensures FindMagic(garbage + s) == Some(|garbage|)
  {
    var t := garbage + s;
    assert MagicAt(t, |garbage|);
    forall j: nat | j < |garbage|
      ensures !MagicAt(t, j)
    {
      if MagicAt(t, j) {
        MagicHasNoBorder(t, j, |garbage|);
        assert MagicAt(garbage, j);
      }
    }
  }

  lemma AttemptOnPacket(p: seq<byte>, tail: seq<byte>)
    requires WellFormed(p)
    ensures MagicAt(p + tail, 0) && AttemptAtMagic(p + tail) == Found(p, tail)
  {
    assert p[..4][0] == MAGIC[0] && p[..4][1] == MAGIC[1] && p[..4][2] == MAGIC[2] && p[..4][3] == MAGIC[3];
    assert (p + tail)[24..28] == p[24..28];
    assert (p + tail)[..|p|] == p && (p + tail)[|p|..] == tail;
  }

  lemma NextAfterGarbage(garbage: seq<byte>, p: seq<byte>, tail: seq<byte>)
    requires NoMagic(garbage) && WellFormed(p)
    ensures Next(garbage + p + tail) == Found(p, tail)
  {
    AttemptOnPacket(p, tail);
    assert garbage + p + tail == garbage + (p + tail);
    MagicAfterGarbage(garbage, p + tail);
    assert (garbage + (p + tail))[|garbage|..] == p + tail;
    hide AttemptAtMagic, WellFormed, NoMagic, MagicAt;
  }

  datatype Noisy = Noisy(garbage: seq<byte>, packet: seq<byte>)

  function NoisyStream(items: seq<Noisy>): (s: seq<byte>) {
    if items == [] then [] else items[0].garbage + items[0].packet + NoisyStream(items[1..])
  }

  function Packets(items: seq<Noisy>): (ps: seq<seq<byte>>) {
    if items == [] then [] else [items[0].packet] + Packets(items[1..])
  }

  ghost predicate Resyncable(items: seq<Noisy>) {
    forall x | x in items :: NoMagic(x.garbage) && WellFormed(x.packet)
  }

  /**
   * Round trip and resynchronisation: valid packets, each preceded by bytes that do not contain
   * the magic, come back exactly and in order, whatever their payloads contain.
   */
  lemma {:induction false} Resynchronises(items: seq<Noisy>, tail: seq<byte>)
    requires Resyncable(items) && NoMagic(tail)
    ensures ParseAll(NoisyStream(items) + tail) == Packets(items)
  {
    if items == [] {
      assert NoisyStream(items) + tail == tail;
    } else {
      var x, rest := items[0], items[1..];
      assert NoisyStream(items) + tail == x.garbage + x.packet + (NoisyStream(rest) + tail);
      NextAfterGarbage(x.garbage, x.packet, NoisyStream(rest) + tail);
      Resynchronises(rest, tail);
    }
  }

  /** A cut inside the first packet leaves nothing to parse. */
  lemma CutPacketIsIncomplete(p: seq<byte>, q: seq<byte>)
    requires WellFormed(p) && q <= p && q != p
    ensures Next(q) == Incomplete
  {
    match FindMagic(q) {
      case None =>
      case Some(i) =>
        assert p[..4] == MAGIC;
        assert MagicAt(p, 0) && MagicAt(q, 0);
        assert i == 0 && q[0..] == q;
        if |q| >= HEADER { assert q[24..28] == p[24..28]; }
    }
  }

  /**
   * Parsing any prefix of a concatenation of valid packets yields the packets that are complete in
   * the prefix: `k` of them, where the cut falls inside packet `k`.
   */
  lemma {:induction false} ParsePrefix(ps: seq<seq<byte>>, q: seq<byte>) returns (k: nat)
    requires forall p | p in ps :: WellFormed(p)
    requires q <= Concat(ps)
    ensures k <= |ps| && ParseAll(q) == ps[..k]
    ensures Concat(ps[..k]) <= q
    ensures k < |ps| ==> |q| < |Concat(ps[..k + 1])|
  {
    if ps == [] {
      k := 0;
    } else if |q| < |ps[0]| {
      CutPacketIsIncomplete(ps[0], q);
      assert ps[..1] == [ps[0]] && Concat(ps[..1]) == ps[0];
      k := 0;
    } else {
      var j := ParsePrefix(ps[1..], q[|ps[0]|..]);
      ParsePacketFirst(ps, q, j);
      CutBefore(ps, q, j);
      k := j + 1;
    }
  }

  lemma ConcatTake<T>(ps: seq<seq<T>>, j: nat)
    requires ps != [] && j <= |ps| - 1
    ensures ps[..j + 1] == [ps[0]] + ps[1..][..j]
    ensures Concat(ps[..j + 1]) == ps[0] + Concat(ps[1..][..j])
  {
    assert ps[..j + 1][1..] == ps[1..][..j];
  }

  lemma ParsePacketFirst(ps: seq<seq<byte>>, q: seq<byte>, j: nat)
    requires ps != [] && WellFormed(ps[0]) && ps[0] <= q && j <= |ps| - 1
    requires ParseAll(q[|ps[0]|..]) == ps[1..][..j]
    ensures ParseAll(q) == ps[..j + 1]
  {
    hide Next, WellFormed, Concat, NoMagic;
    var q' := q[|ps[0]|..];
    assert q == [] + ps[0] + q';
    NothingBefore();
    NextAfterGarbage([], ps[0], q');
    assert ParseAll(q) == [ps[0]] + ParseAll(q');
    ConcatTake(ps, j);
  }

  lemma NothingBefore()
    ensures NoMagic([])
  {
  }

  lemma CutBefore(ps: seq<seq<byte>>, q: seq<byte>, j: nat)
    requires ps != [] && ps[0] <= q && j <= |ps| - 1
    requires Concat(ps[1..][..j]) <= q[|ps[0]|..]
    requires j < |ps| - 1 ==> |q[|ps[0]|..]| < |Concat(ps[1..][..j + 1])|
    ensures Concat(ps[..j + 1]) <= q
    ensures j + 1 < |ps| ==> |q| < |Concat(ps[..j + 2])|
  {
    ConcatTake(ps, j);
    if j + 1 < |ps| { ConcatTake(ps, j + 1); }
    hide Concat;
    assert q == ps[0] + q[|ps[0]|..];
  }
}
