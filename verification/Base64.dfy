/** Base64 of section 4 of RFC 4648, and the encoding loop of aoa_h264server.c. */
module Base64 {
  import opened Bytes

  const UPPER: string := "ABCDEFGHIJKLMNOPQRSTUVWXYZ"
  const LOWER: string := "abcdefghijklmnopqrstuvwxyz"
  const DIGITS: string := "0123456789"
  const TABLE: string := UPPER + LOWER + DIGITS + "+/"

  type sextet = i: nat | i < 64

  /** Table 1 of RFC 4648. */
  function Letter(i: sextet): (c: char) {
    if i < 26 then 'A' + i as char
    else if i < 52 then 'a' + (i - 26) as char
    else if i < 62 then '0' + (i - 52) as char
    else if i == 62 then '+' else '/'
  }

  function Value(c: char): (i: Option<sextet>) {
    if 'A' <= c <= 'Z' then Some((c - 'A') as int)
    else if 'a' <= c <= 'z' then Some((c - 'a') as int + 26)
    else if '0' <= c <= '9' then Some((c - '0') as int + 52)
    else if c == '+' then Some(62) else if c == '/' then Some(63) else None
  }

  lemma ValueOfLetter(i: sextet)
    ensures Value(Letter(i)) == Some(i) && Letter(i) != '='
  {
  }

  lemma Parts(i: sextet)
    ensures |UPPER| == 26 && |LOWER| == 26 && |DIGITS| == 10
    ensures i < 26 ==> UPPER[i] == Letter(i)
    ensures 26 <= i < 52 ==> LOWER[i - 26] == Letter(i)
    ensures 52 <= i < 62 ==> DIGITS[i - 52] == Letter(i)
  {
  }

  /** The table the code indexes is the alphabet of the standard. */
  lemma TableIsAlphabet(i: sextet)
    ensures |TABLE| == 64 && TABLE[i] == Letter(i)
  {
    Parts(i);
    hide Letter;
    if i >= 62 { assert Letter(62) == '+' && Letter(63) == '/' by { LastLetters(); } }
  }

  lemma LastLetters()
    ensures Letter(62) == '+' && Letter(63) == '/'
  {
  }

  // ---------- section 4 ----------

  /** The four letters of three bytes: sextets cut from left to right. */
  function Quad(a: byte, b: byte, c: byte): (s: string)
    ensures |s| == 4
  {
    [Letter(a / 4), Letter(a % 4 * 16 + b / 16), Letter(b % 16 * 4 + c / 64), Letter(c % 64)]
  }

  /** 24-bit groups; a final group of one or two bytes is filled with zero bits and padded. */
  function Encode(s: seq<byte>): (e: string) {
    if s == [] then []
    else if |s| == 1 then Quad(s[0], 0, 0)[..2] + "=="
    else if |s| == 2 then Quad(s[0], s[1], 0)[..3] + "="
    else Quad(s[0], s[1], s[2]) + Encode(s[3..])
  }

  /** A quantum of four characters; the bits the padding leaves over must be zero. */
  function DecodeQuad(a: char, b: char, c: char, d: char): (s: Option<seq<byte>>)
    ensures s.Some? ==> 1 <= |s.value| <= 3
  {
    var x, y, z, w := Value(a), Value(b), Value(c), Value(d);
    if x.None? || y.None? then None
    else
      var first: byte := x.value * 4 + y.value / 16;
      if c == '=' && d == '=' then if y.value % 16 == 0 then Some([first]) else None
      else if z.None? then None
      else
        var second: byte := y.value % 16 * 16 + z.value / 4;
        if d == '=' then if z.value % 4 == 0 then Some([first, second]) else None
        else if w.None? then None
        else
          var third: byte := z.value % 4 * 64 + w.value;
          Some([first, second, third])
  }

  /** Padding may only end the text. */
  function Decode(e: string): (s: Option<seq<byte>>) {
    if e == [] then Some([])
    else if |e| < 4 then None
    else
      match DecodeQuad(e[0], e[1], e[2], e[3])
      case None => None
      case Some(head) =>
        if |head| < 3 then if |e| == 4 then Some(head) else None
        else
          match Decode(e[4..])
          case None => None
          case Some(tail) => Some(head + tail)
  }

  lemma QuadLetters(a: byte, b: byte, c: byte)
    ensures var q := Quad(a, b, c);
      && Value(q[0]) == Some(a / 4) && Value(q[1]) == Some(a % 4 * 16 + b / 16)
      && Value(q[2]) == Some(b % 16 * 4 + c / 64) && Value(q[3]) == Some(c % 64)
      && '=' !in q && Value('=') == None
  {
    ValueOfLetter(a / 4);
    ValueOfLetter(a % 4 * 16 + b / 16);
    ValueOfLetter(b % 16 * 4 + c / 64);
    ValueOfLetter(c % 64);
    assert Value('=') == None;
    hide Letter, Value;
  }

  lemma QuadInverse(a: byte, b: byte, c: byte)
    ensures var q := Quad(a, b, c); DecodeQuad(q[0], q[1], q[2], q[3]) == Some([a, b, c])
  {
    hide Value, Quad;
    QuadLetters(a, b, c);
    Sextets(a, b);
    ThirdSextets(b, c);
  }

  lemma ThirdSextets(b: byte, c: byte)
    ensures (b % 16 * 4 + c / 64) / 4 == b % 16 && (b % 16 * 4 + c / 64) % 4 * 64 + c % 64 == c
  {
  }

  lemma TailInverse(a: byte, b: byte)
    ensures var q := Quad(a, b, 0); DecodeQuad(q[0], q[1], q[2], '=') == Some([a, b])
  {
    QuadLetters(a, b, 0);
    hide Value, Quad;
    Sextets(a, b);
  }

  lemma Sextets(a: byte, b: byte)
    ensures (a / 4) * 4 + (a % 4 * 16 + b / 16) / 16 == a
    ensures (a % 4 * 16 + b / 16) % 16 * 16 + (b % 16 * 4) / 4 == b
    ensures b % 16 * 4 % 4 == 0 && 0 / 64 == 0 && b % 16 * 4 + 0 / 64 == b % 16 * 4
  {
  }

  lemma ShortTailInverse(a: byte)
    ensures var q := Quad(a, 0, 0); DecodeQuad(q[0], q[1], '=', '=') == Some([a])
  {
    QuadLetters(a, 0, 0);
    hide Value, Quad;
  }

  /** The decoder of section 4 recovers every byte string from its encoding. */
  lemma {:induction false} DecodeEncode(s: seq<byte>)
    ensures Decode(Encode(s)) == Some(s)
  {
    if s == [] {
    } else if |s| <= 2 {
      DecodeTail(s);
    } else {
      DecodeEncode(s[3..]);
      hide Encode, Decode;
      OneMoreGroup(s);
    }
  }

  lemma OneMoreGroup(s: seq<byte>)
    requires |s| >= 3 && Decode(Encode(s[3..])) == Some(s[3..])
    ensures Decode(Encode(s)) == Some(s)
  {
    hide Encode, Decode, Quad;
    EncodeGroup(s);
    DecodeGroup(s[0], s[1], s[2], s[3..], Encode(s[3..]));
    assert s == [s[0], s[1], s[2]] + s[3..];
  }

  lemma DecodeTail(s: seq<byte>)
    requires 1 <= |s| <= 2
    ensures Decode(Encode(s)) == Some(s)
  {
    hide Quad, DecodeQuad;
    if |s| == 1 {
      ShortTailInverse(s[0]);
      assert s == [s[0]];
    } else {
      TailInverse(s[0], s[1]);
      assert s == [s[0], s[1]];
    }
  }

  lemma EncodeGroup(s: seq<byte>)
    requires |s| >= 3
    ensures Encode(s) == Quad(s[0], s[1], s[2]) + Encode(s[3..])
  {
    hide Quad;
  }

  lemma DecodeGroup(a: byte, b: byte, c: byte, rest: seq<byte>, tail: string)
    requires Decode(tail) == Some(rest)
    ensures Decode(Quad(a, b, c) + tail) == Some([a, b, c] + rest)
  {
    QuadInverse(a, b, c);
    hide Quad, DecodeQuad, Decode;
    DecodeFirst(Quad(a, b, c), tail);
  }

  lemma DecodeFirst(q: string, tail: string)
    requires |q| == 4 && DecodeQuad(q[0], q[1], q[2], q[3]).Some? && Decode(tail).Some?
    requires |DecodeQuad(q[0], q[1], q[2], q[3]).value| == 3
    ensures Decode(q + tail) == Some(DecodeQuad(q[0], q[1], q[2], q[3]).value + Decode(tail).value)
  {
    hide DecodeQuad;
    var e := q + tail;
    assert e[0] == q[0] && e[1] == q[1] && e[2] == q[2] && e[3] == q[3] && e[4..] == tail;
  }

  function Count(s: string, c: char): (n: nat) {
    if s == [] then 0 else (if s[0] == c then 1 else 0) + Count(s[1..], c)
  }

  lemma CountConcat(s: string, t: string, c: char)
    ensures Count(s + t, c) == Count(s, c) + Count(t, c)
  {
    if s == [] {
      assert s + t == t;
    } else {
      assert (s + t)[1..] == s[1..] + t;
    }
  }

  lemma CountNone(s: string, c: char)
    requires c !in s
    ensures Count(s, c) == 0
  {
  }

  lemma QuadHasNoPad(a: byte, b: byte, c: byte)
    ensures Count(Quad(a, b, c), '=') == 0
    ensures Count(Quad(a, b, c)[..3] + "=", '=') == 1
    ensures Count(Quad(a, b, c)[..2] + "==", '=') == 2
  {
    QuadLetters(a, b, c);
    var q := Quad(a, b, c);
    hide Quad, Value;
    CountNone(q, '=');
    CountNone(q[..3], '=');
    CountNone(q[..2], '=');
    CountConcat(q[..3], "=", '=');
    CountConcat(q[..2], "==", '=');
    assert "=="[1..] == "=" && Count("=", '=') == 1;
  }

  /** The padding is what the length modulo three leaves over; twenty bytes take 28 characters, one of them a pad. */
  lemma {:induction false} EncodedShape(s: seq<byte>)
    ensures |Encode(s)| == (|s| + 2) / 3 * 4
    ensures Count(Encode(s), '=') == if |s| % 3 == 0 then 0 else 3 - |s| % 3
  {
    hide Quad, Count;
    if s == [] {
      assert Count([], '=') == 0 by { CountNone([], '='); }
    } else if |s| == 1 {
      QuadHasNoPad(s[0], 0, 0);
    } else if |s| == 2 {
      QuadHasNoPad(s[0], s[1], 0);
    } else {
      QuadHasNoPad(s[0], s[1], s[2]);
      EncodedShape(s[3..]);
      CountConcat(Quad(s[0], s[1], s[2]), Encode(s[3..]), '=');
    }
  }

  // ---------- the computation ----------

  /** The shifts and masks of the 24-bit value are the sextets of the bytes. */
  lemma ShiftsAreSextets(a: byte, b: byte, c: byte)
    ensures var v := a as int * 0x10000 + b as int * 0x100 + c as int;
      && v / 0x40000 % 64 == a / 4 && v / 0x1000 % 64 == a % 4 * 16 + b / 16
      && v / 0x40 % 64 == b % 16 * 4 + c / 64 && v % 64 == c % 64
  {
    var v := a as int * 0x10000 + b as int * 0x100 + c as int;
    var p, q, r, t := a as int / 4, a as int % 4 * 16 + b as int / 16, b as int % 16 * 4 + c as int / 64, c as int % 64;
    assert v == p * 0x40000 + q * 0x1000 + r * 0x40 + t;
    Digits(p, q, r, t);
  }

  lemma Digits(p: nat, q: nat, r: nat, t: nat)
    requires p < 64 && q < 64 && r < 64 && t < 64
    ensures var v := p * 0x40000 + q * 0x1000 + r * 0x40 + t;
      v / 0x40000 % 64 == p && v / 0x1000 % 64 == q && v / 0x40 % 64 == r && v % 64 == t
  {
    var v := p * 0x40000 + q * 0x1000 + r * 0x40 + t;
    assert v / 0x40 == p * 0x1000 + q * 0x40 + r;
    assert v / 0x1000 == p * 0x40 + q;
    assert v / 0x40000 == p;
  }

  /** The table entries at the shifts of `v` are the letters of the three bytes. */
  lemma TableQuad(a: byte, b: byte, c: byte)
    ensures |TABLE| == 64
    ensures var v := a as int * 0x10000 + b as int * 0x100 + c as int;
      [TABLE[v / 0x40000 % 64], TABLE[v / 0x1000 % 64], TABLE[v / 0x40 % 64], TABLE[v % 64]] == Quad(a, b, c)
  {
    ShiftsAreSextets(a, b, c);
    TableIsAlphabet(a / 4);
    TableIsAlphabet(a % 4 * 16 + b / 16);
    TableIsAlphabet(b % 16 * 4 + c / 64);
    TableIsAlphabet(c % 64);
  }

  method PutFour(output: array<char>, j: nat, a: char, b: char, c: char, d: char)
    requires j + 4 <= output.Length
    modifies output
    ensures output[..j + 4] == old(output[..j]) + [a, b, c, d]
  {
    output[j] := a;
    output[j + 1] := b;
    output[j + 2] := c;
    output[j + 3] := d;
  }

  /** One turn of the loop. */
  method PutQuad(input: array<byte>, i: nat, output: array<char>, j: nat)
    requires i + 3 <= input.Length && j + 4 <= output.Length
    modifies output
    ensures output[..j + 4] == old(output[..j]) + Quad(input[i], input[i + 1], input[i + 2])
  {
    hide TABLE, Quad;
    TableQuad(input[i], input[i + 1], input[i + 2]);
    var v := input[i] as int * 0x10000 + input[i + 1] as int * 0x100 + input[i + 2] as int;
    PutFour(output, j, TABLE[v / 0x40000 % 64], TABLE[v / 0x1000 % 64], TABLE[v / 0x40 % 64], TABLE[v % 64]);
  }

  /** The last four characters, for one or two bytes left over. */
  method TailLetters(rest: seq<byte>) returns (a: char, b: char, c: char, d: char)
    requires 1 <= |rest| <= 2
    ensures [a, b, c, d] == Encode(rest)
  {
    hide TABLE, Quad;
    var v := rest[0] as int * 0x10000;
    TableQuad(rest[0], 0, 0);
    a, d := TABLE[v / 0x40000 % 64], '=';
    if |rest| == 2 {
      TableQuad(rest[0], rest[1], 0);
      SameFirst(rest[0], rest[1]);
      v := v + rest[1] as int * 0x100;
      b, c := TABLE[v / 0x1000 % 64], TABLE[v / 0x40 % 64];
    } else {
      b, c := TABLE[v / 0x1000 % 64], '=';
    }
  }

  lemma SameFirst(a: byte, b: byte)
    ensures Quad(a, b, 0)[0] == Quad(a, 0, 0)[0]
  {
  }

  lemma EncodeStep(s: seq<byte>, i: nat)
    requires i + 3 <= |s|
    ensures Encode(s[i..]) == Quad(s[i], s[i + 1], s[i + 2]) + Encode(s[i + 3..])
  {
    hide Quad;
    assert s[i..][3..] == s[i + 3..];
  }

  lemma Finished(s: seq<byte>)
    ensures s[|s|..] == [] && Encode([]) == []
  {
  }

  /** base64_encode_20, for an input of any length (the source fixes twenty bytes). */
  method EncodeInto(input: array<byte>, output: array<char>) returns (j: nat)
    requires (input.Length + 2) / 3 * 4 < output.Length
    modifies output
    ensures j < output.Length && output[..j] == Encode(input[..]) && output[j] == '\0'
  {
    hide Quad, Encode;
    var i: nat := 0;
    j := 0;
    ghost var all := input[..];
    while i + 2 < input.Length
      invariant i <= input.Length && j * 3 == i * 4
      invariant j <= output.Length && output[..j] + Encode(all[i..]) == Encode(all)
      invariant all == input[..]
    {
      EncodeStep(all, i);
      ghost var head, q, tail := output[..j], Quad(input[i], input[i + 1], input[i + 2]), Encode(all[i + 3..]);
      PutQuad(input, i, output, j);
      assert head + (q + tail) == (head + q) + tail;
      j, i := j + 4, i + 3;
    }
    Finished(all);
    if i < input.Length {
      var a, b, c, d := TailLetters(input[i..]);
      PutFour(output, j, a, b, c, d);
      j := j + 4;
    }
    output[j] := '\0';
  }
}
