/** Touch commands as compact JSON: the scanners select exactly the type and recover every field. */
module Command {
  import opened Bytes
  import opened JsonText

  const TYPES: set<string> := {"cursor", "down", "move", "up", "tap", "doubletap", "swipe"}
  const KEYS: set<string> := {"x", "y", "width", "height", "x1", "y1", "x2", "y2", "duration"}

  /** A member name: not empty, no quote, and not starting like the punctuation between members. */
  predicate Name(s: string) {
    s != [] && Plain(s) && s[0] != ':' && s[0] != ',' && s[0] != '{' && s[0] != '}' && ':' !in s
  }

  // ---------- compact text as segments ----------

  function Separator(last: bool): (s: string) { if last then "}" else "," }

  /** The segments of the members, from the first key on. */
  function Segments(ms: seq<Member>): (segs: seq<string>)
    ensures ms != [] ==> segs != [] && segs[0] == ms[0].key
  {
    if ms == [] then []
    else
      var sep := Separator(|ms| == 1);
      (match ms[0].value
       case Int(v) => [ms[0].key, ":" + Decimal(v) + sep]
       case Text(t) => [ms[0].key, ":", t, sep]) + Segments(ms[1..])
  }

  /** The joined segments with the quote before them, if any. */
  function Tail(segs: seq<string>): (s: string) {
    if segs == [] then "" else [QUOTE] + Join(segs)
  }

  lemma JoinCons(a: string, segs: seq<string>)
    ensures Join([a] + segs) == a + Tail(segs)
  {
    assert ([a] + segs)[1..] == segs;
  }

  lemma TailCons(b: string, segs: seq<string>)
    ensures Tail([b] + segs) == [QUOTE] + (b + Tail(segs))
  {
    JoinCons(b, segs);
    hide Join;
  }

  lemma JoinTwo(a: string, b: string, segs: seq<string>)
    ensures Join([a, b] + segs) == a + ([QUOTE] + (b + Tail(segs)))
  {
    TailCons(b, segs);
    hide Join, Tail;
    JoinCons(a, [b] + segs);
    assert [a, b] + segs == [a] + ([b] + segs);
  }

  /** What follows the first member. */
  function AfterFirst(ms: seq<Member>): (s: string)
    requires ms != []
  {
    if |ms| == 1 then "}" else "," + (Members(ms[1..]) + "}")
  }

  lemma MembersSplit(ms: seq<Member>)
    requires ms != []
    ensures Members(ms) + "}" == MemberText(ms[0]) + AfterFirst(ms)
  {
    hide MemberText;
    if |ms| == 1 {
      assert Members(ms) == MemberText(ms[0]) + "";
    } else {
      assert MemberText(ms[0]) + ("," + Members(ms[1..])) + "}" == MemberText(ms[0]) + ("," + (Members(ms[1..]) + "}"));
    }
  }

  lemma IntText(key: string, v: int, sep: string, rest: string)
    ensures MemberText(Member(key, Int(v))) + (sep + rest) == [QUOTE]
        + (key + ([QUOTE] + (":" + Decimal(v) + sep + rest)))
  {
    hide Decimal;
  }

  lemma TextText(key: string, t: string, sep: string, rest: string)
    ensures MemberText(Member(key, Text(t))) + (sep + rest)
      == [QUOTE] + (key + ([QUOTE] + (":" + ([QUOTE] + (t + ([QUOTE] + (sep + rest)))))))
  {
  }

  lemma JoinFour(a: string, b: string, c: string, d: string, segs: seq<string>)
    ensures Join([a, b, c, d] + segs) == a + ([QUOTE] + (b + ([QUOTE] + (c + ([QUOTE] + (d + Tail(segs)))))))
  {
    JoinTwo(c, d, segs);
    JoinTwo(a, b, [c, d] + segs);
    assert Tail([c, d] + segs) == [QUOTE] + Join([c, d] + segs);
    hide Join, Tail;
    assert [a, b, c, d] + segs == [a, b] + ([c, d] + segs);
  }

  /** The rendering, cut at its quotes. */
  lemma {:induction false} RenderIsJoin(ms: seq<Member>)
    requires ms != []
    ensures Members(ms) + "}" == [QUOTE] + Join(Segments(ms))
  {
    MembersSplit(ms);
    RestIsTail(ms) by { if |ms| > 1 { RenderIsJoin(ms[1..]); } }
    var m, sep, segs := ms[0], Separator(|ms| == 1), Segments(ms[1..]);
    if m.value.Int? {
      var v := m.value.v;
      assert Segments(ms) == [m.key, ":" + Decimal(v) + sep] + segs;
      hide *;
      JoinTwo(m.key, ":" + Decimal(v) + sep, segs);
      IntText(m.key, v, sep, Tail(segs));
      assert m == Member(m.key, Int(v));
    } else {
      var t := m.value.t;
      assert Segments(ms) == [m.key, ":", t, sep] + segs;
      hide *;
      JoinFour(m.key, ":", t, sep, segs);
      TextText(m.key, t, sep, Tail(segs));
      assert m == Member(m.key, Text(t));
    }
  }

  lemma RestIsTail(ms: seq<Member>)
    requires ms != [] && (|ms| > 1 ==> Members(ms[1..]) + "}" == [QUOTE] + Join(Segments(ms[1..])))
    ensures AfterFirst(ms) == Separator(|ms| == 1) + Tail(Segments(ms[1..]))
  {
    hide Join, Members;
    assert |ms| == 1 ==> ms[1..] == [];
  }

  // ---------- what the scanners find ----------

  /** Names for keys, plain strings without an escape for texts. */
  ghost predicate Compact(ms: seq<Member>) {
    forall m | m in ms :: Name(m.key) && (m.value.Text? ==> Plain(m.value.t))
  }

  ghost predicate NoText(ms: seq<Member>, k: string) {
    forall m | m in ms :: m.value.Text? ==> m.value.t != k
  }

  /** The members from the first one with key `k` on. */
  function From(ms: seq<Member>, k: string): (r: seq<Member>)
    ensures r != [] ==> r[0] in ms && r[0].key == k
  {
    if ms == [] then [] else if ms[0].key == k then ms else From(ms[1..], k)
  }

  predicate HasText(ms: seq<Member>, k: string, t: string) {
    ms != [] && (ms[0] == Member(k, Text(t)) || HasText(ms[1..], k, t))
  }

  lemma FindNext(a: string, b: string, rest: seq<string>, ks: seq<string>)
    requires ks != [] && b != ks[0]
    ensures Find([a, b] + rest, ks) == Find([b] + rest, ks)
  {
    assert ([a, b] + rest)[1..] == [b] + rest;
    assert ([b] + rest)[0] == b;
  }

  lemma FindHere(a: string, rest: seq<string>, ks: seq<string>)
    requires ks != [] && |rest| > |ks| && ks <= rest
    ensures Find([a] + rest, ks) == Some(rest)
  {
    assert ([a] + rest)[1..] == rest;
  }

  lemma FindNot(a: string, rest: seq<string>, ks: seq<string>)
    requires ks != [] && !(|rest| > |ks| && ks <= rest)
    ensures Find([a] + rest, ks) == Find(rest, ks)
  {
    if rest != [] {
      assert ([a] + rest)[1..] == rest;
    }
  }

  /** The segments of the first member, then those of the rest. */
  lemma SegmentsHead(ms: seq<Member>)
    requires ms != []
    ensures var m, sep, segs := ms[0], Separator(|ms| == 1), Segments(ms[1..]);
      && (m.value.Int? ==> Segments(ms) == [m.key, ":" + Decimal(m.value.v) + sep] + segs)
      && (m.value.Text? ==> Segments(ms) == [m.key, ":", m.value.t, sep] + segs)
  {
  }

  lemma {:induction false} KeyFound(x: string, ms: seq<Member>, k: string)
    requires Compact(ms) && Name(k) && NoText(ms, k)
    ensures Find([x] + Segments(ms), [k]) == var f := From(ms, k); if f == [] then None else Some(Segments(f))
    decreases |ms|
  {
    if ms == [] {
      assert Find([x], [k]) == None;
    } else {
      SegmentsHead(ms);
      var m, sep, rest, segs := ms[0], Separator(|ms| == 1), Segments(ms[1..]), Segments(ms);
      assert m in ms;
      hide Segments, Decimal, Find;
      if m.key == k {
        FindHere(x, segs, [k]);
      } else {
        FindNot(x, segs, [k]);
        KeyFoundLater(m, sep, rest, k);
        KeyFound(if m.value.Int? then ":" + Decimal(m.value.v) + sep else sep, ms[1..], k);
      }
    }
  }

  /** No segment of a member but its key can be a name, so the search goes on with the next member. */
  lemma KeyFoundLater(m: Member, sep: string, rest: seq<string>, k: string)
    requires Name(k) && (m.value.Text? ==> m.value.t != k) && (sep == "}" || sep == ",")
    ensures m.value.Int? ==>
      Find([m.key, ":" + Decimal(m.value.v) + sep] + rest, [k]) == Find([":" + Decimal(m.value.v) + sep] + rest, [k])
    ensures m.value.Text? ==> Find([m.key, ":", m.value.t, sep] + rest, [k]) == Find([sep] + rest, [k])
  {
    hide Find;
    if m.value.Int? {
      assert (":" + Decimal(m.value.v) + sep)[0] == ':';
      FindNext(m.key, ":" + Decimal(m.value.v) + sep, rest, [k]);
    } else {
      FindNext(m.key, ":", [m.value.t, sep] + rest, [k]);
      FindNext(":", m.value.t, [sep] + rest, [k]);
      FindNext(m.value.t, sep, rest, [k]);
      assert [m.key, ":", m.value.t, sep] + rest == [m.key, ":"] + ([m.value.t, sep] + rest);
      assert [":"] + ([m.value.t, sep] + rest) == [":", m.value.t] + ([sep] + rest);
      assert [m.value.t] + ([sep] + rest) == [m.value.t, sep] + rest;
    }
  }

  lemma SegmentsPlain(ms: seq<Member>)
    requires Compact(ms)
    ensures AllPlain(Segments(ms))
  {
    if ms != [] {
      SegmentsHead(ms);
      assert ms[0] in ms;
      SegmentsPlain(ms[1..]);
      hide Segments, Decimal;
      if ms[0].value.Int? { DecimalPlain(ms[0].value.v, Separator(|ms| == 1)); }
    }
  }

  lemma DecimalPlain(v: int, sep: string)
    requires sep == "}" || sep == ","
    ensures Plain(":" + Decimal(v) + sep)
  {
    hide Decimal;
  }

  /** The rendering is its segments joined, and all of them are plain. */
  lemma RenderedSegments(ms: seq<Member>)
    requires ms != [] && Compact(ms)
    ensures AllPlain(["{"] + Segments(ms)) && Render(ms) == Join(["{"] + Segments(ms))
  {
    SegmentsPlain(ms);
    RenderIsJoin(ms);
    JoinCons("{", Segments(ms));
    hide Join, Members;
  }

  lemma StrchrSkips(a: string, s: string, c: char)
    requires c !in a
    ensures Strchr(a + s, c) == Strchr(s, c)
  {
    if a == [] {
      assert a + s == s;
    } else {
      assert a[0] in a && (a + s)[0] == a[0] && (a + s)[1..] == a[1..] + s;
      StrchrSkips(a[1..], s, c);
    }
  }

  /** From the quoted key on, the first colon is the member's and atoi reads its value. */
  lemma ValueAfterKey(key: string, v: int, sep: string, rest: string)
    requires Name(key) && (sep == "}" || sep == ",")
    ensures var p := [QUOTE] + (key + ([QUOTE] + (":" + Decimal(v) + sep + rest)));
      Strchr(p, ':').Some? && Atoi(Strchr(p, ':').value[1..]) == v
  {
    var q, name := ":" + Decimal(v) + sep + rest, [QUOTE] + key + [QUOTE];
    ColonAfter(v, sep, rest);
    assert ':' !in name;
    AtoiDecimal(v, sep + rest);
    hide Decimal, Atoi, Strchr, Name;
    assert [QUOTE] + (key + ([QUOTE] + q)) == name + q;
    StrchrSkips(name, q, ':');
  }

  lemma ColonAfter(v: int, sep: string, rest: string)
    ensures var q := ":" + Decimal(v) + sep + rest;
      Strchr(q, ':') == Some(q) && q[1..] == Decimal(v) + (sep + rest)
  {
    hide Decimal;
  }

  function IntField(ms: seq<Member>, k: string, def: int): (v: int) {
    var f := From(ms, k);
    if f != [] && f[0].value.Int? then f[0].value.v else def
  }

  /** Every integer field is recovered, and a missing one yields the default. */
  lemma FieldRecovered(ms: seq<Member>, k: string, def: int)
    requires ms != [] && Compact(ms) && Name(k) && NoText(ms, k)
    requires From(ms, k) != [] ==> From(ms, k)[0].value.Int?
    ensures ExtractJsonInt(Render(ms), k, def) == IntField(ms, k, def)
  {
    RenderedSegments(ms);
    KeyFound("{", ms, k);
    StrstrIsFind(["{"] + Segments(ms), [k]);
    assert Quoted([k]) == [QUOTE] + k + [QUOTE];
    var f := From(ms, k);
    if f != [] {
      SegmentsHead(f);
      var v, sep, segs := f[0].value.v, Separator(|f| == 1), Segments(f[1..]);
      hide Segments, Find, Strstr, Decimal, Render, Join, Strchr, Atoi, Tail;
      JoinTwo(k, ":" + Decimal(v) + sep, segs);
      ValueAfterKey(k, v, sep, Tail(segs));
    }
  }

  /** The neighbours "type", ":" and the name occur exactly where a member says so. */
  lemma {:induction false} TypeFound(x: string, ms: seq<Member>, colon: string, t: string)
    requires Compact(ms) && (colon == ":" || colon == ": ")
    ensures Find([x] + Segments(ms), ["type", colon, t]).Some? <==> colon == ":" && HasText(ms, "type", t)
    decreases |ms|
  {
    var ks := ["type", colon, t];
    if ms == [] {
      assert Find([x], ks) == None;
    } else {
      SegmentsHead(ms);
      var m, sep, rest, segs := ms[0], Separator(|ms| == 1), Segments(ms[1..]), Segments(ms);
      assert m in ms;
      hide Segments, Decimal, Find;
      TypeHere(m, sep, rest, colon, t);
      TypeLater(m, sep, rest, colon, t);
      TypeFound(if m.value.Int? then ":" + Decimal(m.value.v) + sep else sep, ms[1..], colon, t);
      if m == Member("type", Text(t)) && colon == ":" {
        FindHere(x, segs, ks);
      } else {
        FindNot(x, segs, ks);
      }
    }
  }

  lemma TypeHere(m: Member, sep: string, rest: seq<string>, colon: string, t: string)
    requires colon == ":" || colon == ": "
    ensures m.value.Int? ==> !(["type", colon, t] <= [m.key, ":" + Decimal(m.value.v) + sep] + rest)
    ensures m.value.Text? ==>
      (["type", colon, t] <= [m.key, ":", m.value.t, sep] + rest <==> colon == ":" && m == Member("type", Text(t)))
  {
    if m.value.Int? {
      var s := ":" + Decimal(m.value.v) + sep;
      assert s[1] == Decimal(m.value.v)[0] && Decimal(m.value.v)[0] in Decimal(m.value.v);
      hide Decimal;
      assert |s| >= 2 && s[1] != ' ';
      assert ([m.key, s] + rest)[1] == s;
    } else {
      var s := [m.key, ":", m.value.t, sep] + rest;
      assert s[0] == m.key && s[1] == ":" && s[2] == m.value.t;
      if colon == ":" && m == Member("type", Text(t)) {
        assert s[..3] == ["type", colon, t];
      }
    }
  }

  lemma TypeLater(m: Member, sep: string, rest: seq<string>, colon: string, t: string)
    requires (colon == ":" || colon == ": ") && (sep == "}" || sep == ",")
    ensures var ks := ["type", colon, t];
      && (m.value.Int? ==>
        Find([m.key, ":" + Decimal(m.value.v) + sep] + rest, ks) == Find([":" + Decimal(m.value.v) + sep] + rest, ks))
      && (m.value.Text? ==> Find([m.key, ":", m.value.t, sep] + rest, ks) == Find([sep] + rest, ks))
  {
    var ks := ["type", colon, t];
    hide Find;
    if m.value.Int? {
      assert (":" + Decimal(m.value.v) + sep)[0] == ':';
      FindNext(m.key, ":" + Decimal(m.value.v) + sep, rest, ks);
    } else {
      FindNext(m.key, ":", [m.value.t, sep] + rest, ks);
      assert [m.key, ":", m.value.t, sep] + rest == [m.key, ":"] + ([m.value.t, sep] + rest);
      var after := [m.value.t, sep] + rest;
      assert after[1] == sep && sep != colon;
      FindNot(":", after, ks);
      assert [":"] + after == [":"] + ([m.value.t, sep] + rest);
      FindNext(m.value.t, sep, rest, ks);
    }
  }

  /** The type scanner accepts exactly the names that some "type" member has. */
  lemma TypeSelected(ms: seq<Member>, t: string)
    requires ms != [] && Compact(ms) && Plain(t)
    ensures JsonHasType(Render(ms), t) <==> HasText(ms, "type", t)
  {
    PatternFound(ms, ":", t);
    PatternFound(ms, ": ", t);
    QuotedType(t);
    hide *;
    TypeByPatterns(Render(ms), t);
  }

  lemma TypeByPatterns(body: string, t: string)
    requires Quoted(["type", ":", t]) == "\"type\":\"" + t + "\""
    requires Quoted(["type", ": ", t]) == "\"type\": \"" + t + "\""
    ensures JsonHasType(body, t) <==>
      Strstr(body, Quoted(["type", ":", t])).Some? || Strstr(body, Quoted(["type", ": ", t])).Some?
  {
    hide Strstr, Quoted;
  }

  lemma PatternFound(ms: seq<Member>, colon: string, t: string)
    requires ms != [] && Compact(ms) && Plain(t) && (colon == ":" || colon == ": ")
    ensures Strstr(Render(ms), Quoted(["type", colon, t])).Some? <==> colon == ":" && HasText(ms, "type", t)
  {
    RenderedSegments(ms);
    TypeFound("{", ms, colon, t);
    var ks := ["type", colon, t];
    assert AllPlain(ks) by {
      assert ks[0] == "type" && ks[1] == colon && ks[2] == t && Plain("type") && Plain(colon);
    }
    hide Segments, Find, Strstr, Render, Join, HasText, Quoted;
    StrstrIsFind(["{"] + Segments(ms), ks);
  }

  lemma QuotedThree(a: string, b: string, c: string)
    ensures Quoted([a, b, c]) == [QUOTE] + (a + ([QUOTE] + (b + ([QUOTE] + c)))) + [QUOTE]
  {
    JoinTwo(a, b, [c]);
    assert [a, b] + [c] == [a, b, c] && Tail([c]) == [QUOTE] + c;
    hide Join, Tail;
  }

  lemma QuotedType(t: string)
    ensures Quoted(["type", ":", t]) == "\"type\":\"" + t + "\""
    ensures Quoted(["type", ": ", t]) == "\"type\": \"" + t + "\""
  {
    QuotedThree("type", ":", t);
    QuotedThree("type", ": ", t);
    hide Quoted;
    assert "\"type\":\"" == [QUOTE] + "type" + [QUOTE] + ":" + [QUOTE];
    assert "\"type\": \"" == [QUOTE] + "type" + [QUOTE] + ": " + [QUOTE];
    RegroupQuoted("type", ":", t);
    RegroupQuoted("type", ": ", t);
  }

  lemma RegroupQuoted(a: string, b: string, c: string)
    ensures [QUOTE] + (a + ([QUOTE] + (b + ([QUOTE] + c)))) + [QUOTE]
      == ([QUOTE] + a + [QUOTE] + b + [QUOTE]) + c + [QUOTE]
  {
  }
  lemma Numerals()
    ensures Decimal(12) == "12" && Decimal(-3) == "-3"
  {
    assert Digits(1) == "1" && Digits(3) == "3";
    assert Digits(12) == Digits(1) + "2";
  }

  lemma MemberTexts()
    ensures MemberText(Member("type", Text("tap"))) == "\"type\":\"tap\""
    ensures MemberText(Member("x", Int(12))) == "\"x\":12" && MemberText(Member("y", Int(-3))) == "\"y\":-3"
  {
    Numerals();
    hide Decimal;
  }

  lemma ThreeMembers(a: Member, b: Member, c: Member)
    ensures Members([a, b, c]) == MemberText(a) + ("," + (MemberText(b) + ("," + MemberText(c))))
  {
    hide MemberText;
    assert [a, b, c][1..] == [b, c] && [b, c][1..] == [c];
    assert Members([c]) == MemberText(c) + "" == MemberText(c);
    assert Members([b, c]) == MemberText(b) + ("," + MemberText(c));
  }

  /** A command as the browser writes it. */
  lemma TapRendered()
    ensures Render([Member("type", Text("tap")), Member("x", Int(12)), Member("y", Int(-3))])
      == "{\"type\":\"tap\",\"x\":12,\"y\":-3}"
  {
    MemberTexts();
    hide MemberText, Members;
    ThreeMembers(Member("type", Text("tap")), Member("x", Int(12)), Member("y", Int(-3)));
  }
}
