/**
 * The substring scanners that pick fields out of a command, on text in the compact form that
 * JSON.stringify writes: why looking for "key" and "type":"name" finds the right member.
 */
module JsonText {
  import opened Bytes

  const QUOTE: char := '"'

  // ---------- the C library functions ----------

  /** strstr: the rest of `s` from the first occurrence of `pat`. */
  function Strstr(s: string, pat: string): (r: Option<string>) {
    if pat <= s then Some(s) else if s == [] then None else Strstr(s[1..], pat)
  }

  function Strchr(s: string, c: char): (r: Option<string>)
    ensures r.Some? ==> r.value != [] && r.value[0] == c
  {
    if s == [] then None else if s[0] == c then Some(s) else Strchr(s[1..], c)
  }

  predicate IsDigit(c: char) { '0' <= c <= '9' }

  predicate IsSpace(c: char) { c == ' ' || '\t' as int <= c as int <= '\r' as int }

  function DigitsValue(s: string, acc: nat): (v: nat) {
    if s == [] || !IsDigit(s[0]) then acc else DigitsValue(s[1..], acc * 10 + (s[0] as int - '0' as int))
  }

  /** atoi, for values in range. */
  function Atoi(s: string): (v: int) {
    if s == [] then 0
    else if IsSpace(s[0]) then Atoi(s[1..])
    else if s[0] == '-' then
      var d: int := DigitsValue(s[1..], 0);
      -d
    else if s[0] == '+' then DigitsValue(s[1..], 0)
    else DigitsValue(s, 0)
  }

  // ---------- the scanners ----------

  function ExtractJsonInt(body: string, key: string, def: int): (v: int) {
    match Strstr(body, [QUOTE] + key + [QUOTE])
    case None => def
    case Some(p) =>
      match Strchr(p, ':')
      case None => def
      case Some(q) => Atoi(q[1..])
  }

  predicate JsonHasType(body: string, name: string) {
    || Strstr(body, "\"type\":\"" + name + "\"").Some?
    || Strstr(body, "\"type\": \"" + name + "\"").Some?
  }

  // ---------- compact JSON ----------

  datatype Value = Int(v: int) | Text(t: string)
  datatype Member = Member(key: string, value: Value)

  function Digits(n: nat): (s: string)
    ensures s != [] && forall c | c in s :: IsDigit(c)
  {
    if n < 10 then ['0' + n as char] else Digits(n / 10) + ['0' + (n % 10) as char]
  }

  function Decimal(v: int): (s: string)
    ensures s != [] && forall c | c in s :: IsDigit(c) || c == '-'
  {
    if v < 0 then ['-'] + Digits(-v) else Digits(v)
  }

  function Literal(v: Value): (s: string) {
    match v case Int(n) => Decimal(n) case Text(t) => [QUOTE] + t + [QUOTE]
  }

  function MemberText(m: Member): (s: string) { [QUOTE] + m.key + [QUOTE] + ":" + Literal(m.value) }

  function Members(ms: seq<Member>): (s: string) {
    if ms == [] then []
    else MemberText(ms[0]) + (if |ms| == 1 then "" else "," + Members(ms[1..]))
  }

  function Render(ms: seq<Member>): (s: string) { "{" + Members(ms) + "}" }

  // ---------- atoi reads decimals back ----------

  lemma {:induction false} DigitsReadBack(n: nat, tail: string, acc: nat)
    requires tail == [] || !IsDigit(tail[0])
    ensures acc == 0 ==> DigitsValue(Digits(n) + tail, acc) == n
  {
    DigitsAppend(n, tail);
  }

  lemma {:induction false} DigitsAppend(n: nat, tail: string)
    ensures DigitsValue(Digits(n) + tail, 0) == DigitsValue(tail, n)
  {
    if n < 10 {
      assert (Digits(n) + tail)[1..] == tail;
    } else {
      var d := ['0' + (n % 10) as char];
      DigitsAppend(n / 10, d + tail);
      assert Digits(n) + tail == Digits(n / 10) + (d + tail);
      assert (d + tail)[1..] == tail;
    }
  }

  lemma FirstDigit(n: nat, tail: string)
    ensures IsDigit((Digits(n) + tail)[0])
  {
    assert Digits(n)[0] in Digits(n);
  }

  lemma AtoiOfDigits(s: string)
    requires s != [] && IsDigit(s[0])
    ensures Atoi(s) == DigitsValue(s, 0)
  {
    hide DigitsValue;
  }

  lemma AtoiOfMinus(s: string)
    requires s != [] && s[0] == '-'
    ensures Atoi(s) == 0 - DigitsValue(s[1..], 0) as int
  {
    hide DigitsValue;
  }

  lemma AtoiDecimal(v: int, tail: string)
    requires tail == [] || !IsDigit(tail[0])
    ensures Atoi(Decimal(v) + tail) == v
  {
    var s := Decimal(v) + tail;
    hide Digits, DigitsValue, Atoi;
    if v < 0 {
      DigitsReadBack(-v, tail, 0);
      assert s[0] == '-' && s[1..] == Digits(-v) + tail;
      AtoiOfMinus(s);
    } else {
      DigitsReadBack(v, tail, 0);
      FirstDigit(v, tail);
      AtoiOfDigits(s);
    }
  }

  // ---------- text as segments between quotes ----------

  predicate Plain(s: string) { QUOTE !in s }

  ghost predicate AllPlain(segs: seq<string>) { forall i | 0 <= i < |segs| :: Plain(segs[i]) }

  function Join(segs: seq<string>): (s: string)
    requires segs != []
  {
    if |segs| == 1 then segs[0] else segs[0] + [QUOTE] + Join(segs[1..])
  }

  /** The pattern made of `ks` between quotes. */
  function Quoted(ks: seq<string>): (s: string)
    requires ks != []
  {
    [QUOTE] + Join(ks) + [QUOTE]
  }

  /** The segments from the first place where `ks` stand next to each other between quotes. */
  function Find(segs: seq<string>, ks: seq<string>): (r: Option<seq<string>>)
    ensures r.Some? ==> |r.value| > |ks| && ks <= r.value
  {
    if |segs| < 2 then None
    else if |segs| > |ks| + 1 && ks <= segs[1..] then Some(segs[1..])
    else Find(segs[1..], ks)
  }

  lemma SkipPlain(a: string, s: string, pat: string)
    requires Plain(a) && pat != [] && pat[0] == QUOTE
    ensures Strstr(a + s, pat) == Strstr(s, pat)
  {
    if a == [] {
      assert a + s == s;
    } else {
      assert a[0] in a && (a + s)[0] == a[0];
      assert (a + s)[1..] == a[1..] + s;
      SkipPlain(a[1..], s, pat);
    }
  }

  lemma FirstQuote(a: string, x: string)
    requires Plain(a)
    ensures (a + [QUOTE] + x)[|a|] == QUOTE
    ensures forall k | 0 <= k < |a| :: (a + [QUOTE] + x)[k] != QUOTE
  {
    forall k | 0 <= k < |a|
      ensures (a + [QUOTE] + x)[k] != QUOTE
    {
      assert a[k] in a;
    }
  }

  /** Two texts that go on after a quote agree up to it exactly when their plain beginnings are the same. */
  lemma SameBeginning(a: string, x: string, b: string, y: string)
    requires Plain(a) && Plain(b)
    ensures a + [QUOTE] + x <= b + [QUOTE] + y <==> a == b && x <= y
  {
    var s, t := a + [QUOTE] + x, b + [QUOTE] + y;
    FirstQuote(a, x);
    FirstQuote(b, y);
    if s <= t {
      assert t[|a|] == QUOTE && |a| >= |b|;
      assert s[|b|] == QUOTE && |b| >= |a|;
      assert a == s[..|a|] == t[..|a|] == b;
      assert x == s[|a| + 1..] && y == t[|a| + 1..];
    }
  }

  lemma NoQuoteNoMatch(a: string, x: string, b: string)
    requires Plain(b)
    ensures !(a + [QUOTE] + x <= b)
  {
    if |a| < |b| {
      assert b[|a|] in b && (a + [QUOTE] + x)[|a|] == QUOTE;
    }
  }

  lemma {:induction false} PrefixMatch(ks: seq<string>, segs: seq<string>)
    requires ks != [] && segs != [] && AllPlain(ks) && AllPlain(segs)
    ensures Join(ks) + [QUOTE] <= Join(segs) <==> |segs| > |ks| && ks <= segs
  {
    var k, s := ks[0], segs[0];
    if |segs| == 1 {
      if |ks| == 1 {
        NoQuoteNoMatch(k, [], s);
        assert k + [QUOTE] + [] == k + [QUOTE];
      } else {
        NoQuoteNoMatch(k, Join(ks[1..]) + [QUOTE], s);
        assert k + [QUOTE] + (Join(ks[1..]) + [QUOTE]) == Join(ks) + [QUOTE];
      }
    } else if |ks| == 1 {
      SameBeginning(k, [], s, Join(segs[1..]));
      assert k + [QUOTE] + [] == k + [QUOTE];
    } else {
      assert k + [QUOTE] + (Join(ks[1..]) + [QUOTE]) == Join(ks) + [QUOTE];
      SameBeginning(k, Join(ks[1..]) + [QUOTE], s, Join(segs[1..]));
      PrefixMatch(ks[1..], segs[1..]);
      assert ks <= segs <==> k == s && ks[1..] <= segs[1..] by { PrefixTail(ks, segs); }
    }
  }

  lemma PrefixTail<T>(a: seq<T>, b: seq<T>)
    requires a != [] && b != []
    ensures a <= b <==> a[0] == b[0] && a[1..] <= b[1..]
  {
    assert a == [a[0]] + a[1..] && b == [b[0]] + b[1..];
  }

  lemma SameHead(q: char, a: string, b: string)
    ensures [q] + a <= [q] + b <==> a <= b
  {
    var x, y := [q] + a, [q] + b;
    assert x[1..] == a && y[1..] == b;
    PrefixTail(x, y);
  }

  /** strstr for a quoted pattern, on text cut at its quotes, is the search for neighbouring segments. */
  lemma {:induction false} StrstrIsFind(segs: seq<string>, ks: seq<string>)
    requires segs != [] && ks != [] && AllPlain(segs) && AllPlain(ks)
    ensures Strstr(Join(segs), Quoted(ks)) ==
      match Find(segs, ks) case None => None case Some(t) => Some([QUOTE] + Join(t))
  {
    var pat := Quoted(ks);
    if |segs| == 1 {
      assert segs[0] + [] == segs[0];
      SkipPlain(segs[0], [], pat);
    } else {
      var rest := segs[1..];
      var s := [QUOTE] + Join(rest);
      assert Join(segs) == segs[0] + s;
      SkipPlain(segs[0], s, pat);
      PrefixMatch(ks, rest);
      assert pat == [QUOTE] + (Join(ks) + [QUOTE]);
      SameHead(QUOTE, Join(ks) + [QUOTE], Join(rest));
      assert s[1..] == Join(rest);
      StrstrIsFind(rest, ks);
    }
  }
}
