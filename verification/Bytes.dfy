/** Bytes, big-endian fields and concatenation: the vocabulary every other module shares. */
module Bytes {

  type byte = x: int | 0 <= x < 256

  datatype Option<+T> = None | Some(value: T)

  const TWO_32: nat := 0x1_0000_0000

  /** A big-endian unsigned 32-bit field: the shifts and ors of the C code act on disjoint bits. */
  function ReadBe32(p: seq<byte>): (v: nat)
    requires |p| == 4
    ensures v < TWO_32
  {
    p[0] as int * 0x1000000 + p[1] as int * 0x10000 + p[2] as int * 0x100 + p[3] as int
  }

  function WriteBe32(v: nat): (p: seq<byte>)
    requires v < TWO_32
    ensures |p| == 4 && ReadBe32(p) == v
  {
    var hi, lo := v / 0x10000, v % 0x10000;
    [hi / 256, hi % 256, lo / 256, lo % 256]
  }

  function ReadBe64(p: seq<byte>): (v: nat)
    requires |p| == 8
    ensures v < TWO_32 * TWO_32
  {
    ReadBe32(p[..4]) * TWO_32 + ReadBe32(p[4..])
  }

  function WriteBe64(v: nat): (p: seq<byte>)
    requires v < TWO_32 * TWO_32
    ensures |p| == 8 && ReadBe64(p) == v
  {
    var p := WriteBe32(v / TWO_32) + WriteBe32(v % TWO_32);
    assert p[..4] == WriteBe32(v / TWO_32) && p[4..] == WriteBe32(v % TWO_32);
    p
  }

  /** Reading and writing invert each other the other way round too. */
  lemma Rewritten32(p: seq<byte>)
    requires |p| == 4
    ensures WriteBe32(ReadBe32(p)) == p
  {
    var v, hi, lo := ReadBe32(p), p[0] as int * 256 + p[1] as int, p[2] as int * 256 + p[3] as int;
    assert v == hi * 0x10000 + lo && 0 <= lo < 0x10000;
    Halves16(hi, lo);
  }

  lemma Halves16(hi: nat, lo: nat)
    requires lo < 0x10000
    ensures (hi * 0x10000 + lo) / 0x10000 == hi && (hi * 0x10000 + lo) % 0x10000 == lo
  {
  }

  lemma Rewritten64(p: seq<byte>)
    requires |p| == 8
    ensures WriteBe64(ReadBe64(p)) == p
  {
    var hi, lo := ReadBe32(p[..4]), ReadBe32(p[4..]);
    Rewritten32(p[..4]);
    Rewritten32(p[4..]);
    hide ReadBe32, WriteBe32;
    assert (hi * TWO_32 + lo) / TWO_32 == hi && (hi * TWO_32 + lo) % TWO_32 == lo;
  }

  /** ASCII text and its bytes. */
  type text = s: string | forall c | c in s :: c as int < 128 witness ""

  function Ascii(s: text): (b: seq<byte>)
    ensures |b| == |s| && forall i | 0 <= i < |s| :: b[i] == s[i] as int
  {
    seq(|s|, i requires 0 <= i < |s| => assert s[i] in s; s[i] as int)
  }

  function FromBytes(b: seq<byte>): (s: string)
    ensures |s| == |b|
  {
    seq(|b|, i requires 0 <= i < |b| => b[i] as char)
  }

  lemma AsciiReadsBack(s: text)
    ensures FromBytes(Ascii(s)) == s
  {
  }

  function Front<T>(s: seq<T>): (f: seq<T>)
    requires s != []
  {
    s[..|s| - 1]
  }

  function Last<T>(s: seq<T>): (x: T)
    requires s != []
  {
    s[|s| - 1]
  }

  lemma SplitLast<T>(s: seq<T>)
    requires s != []
    ensures s == Front(s) + [Last(s)]
  {
  }

  lemma Regroup<T>(a: seq<T>, b: seq<T>, c: seq<T>)
    ensures a + b + c == a + (b + c)
  {
  }

  function Concat<T>(parts: seq<seq<T>>): (whole: seq<T>) {
    if parts == [] then [] else parts[0] + Concat(parts[1..])
  }

  lemma ConcatAppend<T>(a: seq<seq<T>>, b: seq<seq<T>>)
    ensures Concat(a + b) == Concat(a) + Concat(b)
  {
    if a == [] {
      assert a + b == b;
    } else {
      assert (a + b)[1..] == a[1..] + b;
    }
  }

  lemma ConcatSnoc<T>(a: seq<seq<T>>, x: seq<T>)
    ensures Concat(a + [x]) == Concat(a) + x
  {
    ConcatAppend(a, [x]);
    assert Concat([x]) == x;
  }

  /** `a` is obtained from `b` by leaving elements out: nothing added, repeated or reordered. */
  ghost predicate Subsequence<T>(a: seq<T>, b: seq<T>) {
    if a == [] then true
    else b != [] && ((a[0] == b[0] && Subsequence(a[1..], b[1..])) || Subsequence(a, b[1..]))
  }

  lemma SubsequenceSkip<T>(a: seq<T>, b: seq<T>, x: T)
    requires Subsequence(a, b)
    ensures Subsequence(a, b + [x])
  {
    if a != [] {
      assert (b + [x])[1..] == b[1..] + [x];
    }
  }

  lemma {:induction false} SubsequenceTake<T>(a: seq<T>, b: seq<T>, x: T)
    requires Subsequence(a, b)
    ensures Subsequence(a + [x], b + [x])
    decreases b
  {
    if a == [] {
      assert a + [x] == [x];
      SubsequenceLast(b, x);
    } else {
      assert (b + [x])[1..] == b[1..] + [x];
      assert (a + [x])[1..] == a[1..] + [x];
      if a[0] == b[0] && Subsequence(a[1..], b[1..]) {
        SubsequenceTake(a[1..], b[1..], x);
      } else {
        SubsequenceTake(a, b[1..], x);
      }
    }
  }

  lemma SubsequenceShorter<T>(a: seq<T>, b: seq<T>)
    requires Subsequence(a, b)
    ensures |a| <= |b|
  {
    if a != [] {
      if a[0] == b[0] && Subsequence(a[1..], b[1..]) {
        SubsequenceShorter(a[1..], b[1..]);
      } else {
        SubsequenceShorter(a, b[1..]);
      }
    }
  }

  /** A subsequence that is as long is the whole. */
  lemma SubsequenceWhole<T>(a: seq<T>, b: seq<T>)
    requires Subsequence(a, b)
    ensures |a| == |b| ==> a == b
  {
    if a != [] && |a| == |b| {
      if a[0] == b[0] && Subsequence(a[1..], b[1..]) {
        SubsequenceWhole(a[1..], b[1..]);
        assert a == [a[0]] + a[1..] && b == [b[0]] + b[1..];
      } else {
        SubsequenceShorter(a, b[1..]);
      }
    }
  }

  lemma SubsequenceLast<T>(b: seq<T>, x: T)
    ensures Subsequence([x], b + [x])
  {
    if b != [] {
      SubsequenceLast(b[1..], x);
      assert (b + [x])[1..] == b[1..] + [x];
    }
  }

  lemma {:induction false} SubsequenceTransitive<T>(a: seq<T>, b: seq<T>, c: seq<T>)
    requires Subsequence(a, b) && Subsequence(b, c)
    ensures Subsequence(a, c)
    decreases |b| + |c|
  {
    if a == [] || b == [] {
    } else if b[0] == c[0] && Subsequence(b[1..], c[1..]) {
      if a[0] == b[0] && Subsequence(a[1..], b[1..]) {
        SubsequenceTransitive(a[1..], b[1..], c[1..]);
      } else {
        SubsequenceTransitive(a, b[1..], c[1..]);
      }
    } else {
      SubsequenceTransitive(a, b, c[1..]);
    }
  }

  lemma {:induction false} SubsequenceAppend<T>(a: seq<T>, b: seq<T>, c: seq<T>, d: seq<T>)
    requires Subsequence(a, b) && Subsequence(c, d)
    ensures Subsequence(a + c, b + d)
    decreases |b|
  {
    if b == [] {
      assert a + c == c && b + d == d;
    } else {
      assert (b + d)[1..] == b[1..] + d;
      if a != [] && a[0] == b[0] && Subsequence(a[1..], b[1..]) {
        SubsequenceAppend(a[1..], b[1..], c, d);
        assert (a + c)[1..] == a[1..] + c;
      } else {
        SubsequenceAppend(a, b[1..], c, d);
      }
    }
  }
}
