/** The bridge's side of the control path: reading the command line and turning it into HID reports. */
module BridgeControl {
  import opened Bytes
  import opened WinReceiver
  import opened Coordinates
  import opened Touch
  import opened JsonText
  import opened Command

  // ---------- the line reader ----------

  const LINE_BUFFER: nat := 4096
  const NEWLINE: byte := 10

  /** The bytes before the first newline or the end, at most `room` of them. */
  function Line(data: seq<byte>, room: nat): (l: seq<byte>)
    ensures |l| <= room
  {
    if room == 0 || data == [] || data[0] == NEWLINE then [] else [data[0]] + Line(data[1..], room - 1)
  }

  /** control_server_thread: one line of a connection into the 4096-byte buffer. */
  method ReadLine(conn: TcpConnection, buf: array<byte>) returns (pos: nat)
    requires buf.Length == LINE_BUFFER
    modifies conn, buf
    ensures pos < LINE_BUFFER && buf[..pos] == Line(old(conn.data), LINE_BUFFER - 1) && buf[pos] == 0
  {
    hide Line;
    pos := 0;
    assert LINE_BUFFER - 1 - 0 == LINE_BUFFER - 1;
    ghost var all := Line(conn.data, LINE_BUFFER - 1);
    ghost var left := all;
    while pos + 1 < LINE_BUFFER
      invariant pos < LINE_BUFFER && |all| <= LINE_BUFFER - 1
      invariant buf[..pos] + left == all && left == Line(conn.data, LINE_BUFFER - 1 - pos)
      decreases LINE_BUFFER - pos
    {
      LineStep(conn.data, LINE_BUFFER - 1 - pos);
      var c := conn.Recv(1);
      if c == [] || c[0] == NEWLINE { break; }
      buf[pos] := c[0];
      pos, left := pos + 1, left[1..];
    }
    assert left == [] by { LineEnds(); }
    buf[pos] := 0;
  }

  lemma LineStep(d: seq<byte>, room: nat)
    requires room > 0
    ensures d == [] || d[0] == NEWLINE ==> Line(d, room) == []
    ensures d != [] && d[0] != NEWLINE ==>
      Line(d, room) != [] && Line(d, room)[0] == d[0] && Line(d, room)[1..] == Line(d[1..], room - 1)
  {
  }

  lemma LineEnds()
    ensures forall d :: Line(d, 0) == []
  {
  }

  lemma LineReadsBack(text: seq<byte>, tail: seq<byte>, room: nat)
    requires NEWLINE !in text
    ensures Line(text + [NEWLINE] + tail, room) == if |text| <= room then text else text[..room]
  {
    if text != [] && room > 0 {
      assert text[0] in text;
      assert (text + [NEWLINE] + tail)[1..] == text[1..] + [NEWLINE] + tail;
      LineReadsBack(text[1..], tail, room - 1);
    }
  }

  // ---------- what a command means ----------

  datatype Action =
    | Cursor
    | Gesture(plan: seq<Contact>, width: int, height: int)       // stops at the first report that fails
    | DoubleTap(plan: seq<Contact>, width: int, height: int)     // goes on whatever happens
    | Unknown

  function Steps(duration: int): (n: nat)
    ensures n >= 1
  {
    var n := TruncDiv(duration, 10);
    if n < 1 then 1 else n
  }

  /** A command by its type and the values of its fields. */
  function Meaning(name: string, field: (string, int) -> int): (a: Action) {
    var x, y, w, h := field("x", 0), field("y", 0), field("width", 1080), field("height", 2340);
    if name == "cursor" then Cursor
    else if name == "down" || name == "move" then Gesture([Contact(true, x, y)], w, h)
    else if name == "up" then Gesture([Contact(false, x, y)], w, h)
    else if name == "tap" then Gesture(TapPlan(x, y), w, h)
    else if name == "doubletap" then DoubleTap(TapPlan(x, y) + TapPlan(x, y), w, h)
    else if name == "swipe" then
      Gesture(SwipePlan(field("x1", 0), field("y1", 0), field("x2", 0), field("y2", 0),
          Steps(field("duration", 300))), w, h)
    else Unknown
  }

  /** The order in which the text is tried against the type names. */
  function TypeOf(body: string): (name: string) {
    if JsonHasType(body, "cursor") then "cursor"
    else if JsonHasType(body, "down") then "down"
    else if JsonHasType(body, "move") then "move"
    else if JsonHasType(body, "up") then "up"
    else if JsonHasType(body, "tap") then "tap"
    else if JsonHasType(body, "doubletap") then "doubletap"
    else if JsonHasType(body, "swipe") then "swipe"
    else ""
  }

  function Interpret(body: string): (a: Action) {
    Meaning(TypeOf(body), (k, def) => ExtractJsonInt(body, k, def))
  }

  /** A command: one type member, whose name is known, and integer members under other names. */
  ghost predicate CommandForm(ms: seq<Member>, name: string) {
    && name in TYPES
    && (forall m | m in ms :: Name(m.key) && (m.value.Text? <==> m.key == "type"))
    && (forall m | m in ms :: m.value.Text? ==> m.value.t == name)
    && HasText(ms, "type", name)
  }

  lemma OnlyType(ms: seq<Member>, name: string, t: string)
    requires forall m | m in ms :: m.value.Text? ==> m.value.t == name
    requires t != name
    ensures !HasText(ms, "type", t)
  {
  }

  lemma NamesPlain(name: string)
    requires name in TYPES
    ensures Plain(name) && name != "" && name !in KEYS
  {
  }

  /** The type scanners settle on exactly the command's type. */
  lemma TypeRecovered(ms: seq<Member>, name: string)
    requires CommandForm(ms, name)
    ensures TypeOf(Render(ms)) == name
  {
    assert ms != [];
    NamesPlain(name);
    assert Compact(ms);
    forall t | t in TYPES
      ensures JsonHasType(Render(ms), t) <==> t == name
    {
      NamesPlain(t);
      TypeSelected(ms, t);
      if t != name { OnlyType(ms, name, t); }
    }
    hide JsonHasType, Render;
  }

  lemma KeyIsName(k: string)
    requires k in KEYS
    ensures Name(k) && k != "type"
  {
  }

  /**
   * What the bridge makes of a rendered command is what the command means: its type, and every
   * field's value, with the defaults for those left out.
   */
  lemma CommandRecovered(ms: seq<Member>, name: string)
    requires CommandForm(ms, name)
    ensures Interpret(Render(ms)) == Meaning(name, (k, def) => IntField(ms, k, def))
    ensures forall k, def | k in KEYS :: ExtractJsonInt(Render(ms), k, def) == IntField(ms, k, def)
  {
    TypeRecovered(ms, name);
    NamesPlain(name);
    forall k, def | k in KEYS
      ensures ExtractJsonInt(Render(ms), k, def) == IntField(ms, k, def)
    {
      KeyIsName(k);
      assert NoText(ms, k);
      FieldRecovered(ms, k, def);
    }
    hide ExtractJsonInt, Render, IntField, TypeOf;
    SameMeaning(name, (k, def) => ExtractJsonInt(Render(ms), k, def), (k, def) => IntField(ms, k, def));
  }

  lemma SameMeaning(name: string, f: (string, int) -> int, g: (string, int) -> int)
    requires forall k, def | k in KEYS :: f(k, def) == g(k, def)
    ensures Meaning(name, f) == Meaning(name, g)
  {
    hide SwipePlan, TapPlan;
  }

  // ---------- carrying it out ----------

  type Attempts = seq<Option<int>>

  /** What the next with_hid_handle meets: HID not ready, or the result of the transfer. */
  function Head(a: Attempts): (o: Option<int>) { if a == [] then None else a[0] }
  function Later(a: Attempts): (r: Attempts) { if a == [] then [] else a[1..] }
  function Succeeds(a: Attempts): (ok: bool) { Head(a).Some? && Head(a).value >= 0 }

  function One(bytes: seq<byte>, a: Attempts): (log: seq<Report>) {
    if Head(a).None? then [] else [Report(bytes, Succeeds(a))]
  }

  /** Reports up to the first that does not succeed. */
  function Chain(reports: seq<seq<byte>>, a: Attempts): (log: seq<Report>) {
    if reports == [] then [] else One(reports[0], a) + (if Succeeds(a) then Chain(reports[1..], Later(a)) else [])
  }

  function ChainOk(n: nat, a: Attempts): (ok: bool) { n == 0 || (Succeeds(a) && ChainOk(n - 1, Later(a))) }

  /** All reports, whatever becomes of them. */
  function Every(reports: seq<seq<byte>>, a: Attempts): (log: seq<Report>) {
    if reports == [] then [] else One(reports[0], a) + Every(reports[1..], Later(a))
  }

  function BridgeReports(plan: seq<Contact>, width: int, height: int): (rs: seq<seq<byte>>)
    ensures |rs| == |plan| && forall k | 0 <= k < |rs| :: rs[k] == BridgeBytes(plan[k], width, height)
  {
    seq(|plan|, i requires 0 <= i < |plan| => BridgeBytes(plan[i], width, height))
  }

  /** The attempts left over once `n` reports, or those up to the first that does not succeed, were tried. */
  function ChainLeft(n: nat, a: Attempts): (rest: Attempts) {
    if n == 0 then a else if Succeeds(a) then ChainLeft(n - 1, Later(a)) else Later(a)
  }

  /** No int overflows in the scaling of a contact, which is done only when HID is ready. */
  predicate ContactInRange(c: Contact, width: int, height: int, a: Attempts) {
    Head(a).Some? ==> ScaleFits(c.x, width) && ScaleFits(c.y, height)
  }

  /** Nor in the reports of a plan, as far as they are tried. */
  predicate InRange(plan: seq<Contact>, width: int, height: int, a: Attempts) {
    forall i | 0 <= i < |plan| && ChainOk(i, a) :: ContactInRange(plan[i], width, height, ChainLeft(i, a))
  }

  /** Nor in those of a plan of which all are tried. */
  predicate EveryInRange(plan: seq<Contact>, width: int, height: int, a: Attempts) {
    plan == [] || (ContactInRange(plan[0], width, height, a) && EveryInRange(plan[1..], width, height, Later(a)))
  }

  /** Nor in the points of a swipe, as far as its loop goes. */
  predicate StepsInRange(x1: int, y1: int, x2: int, y2: int, steps: nat, a: Attempts) {
    forall i | 1 <= i <= steps && ChainOk(i, a) :: StepFits(x1, x2, i) && StepFits(y1, y2, i)
  }

  /** None overflows in what the text asks for. */
  predicate Fits(body: string, a: Attempts) {
    && (match Interpret(body)
        case Gesture(plan, w, h) => InRange(plan, w, h, a)
        case DoubleTap(plan, w, h) => EveryInRange(plan, w, h, a)
        case _ => true)
    && (TypeOf(body) == "swipe" ==>
      StepsInRange(ExtractJsonInt(body, "x1", 0), ExtractJsonInt(body, "y1", 0), ExtractJsonInt(body, "x2", 0),
                   ExtractJsonInt(body, "y2", 0), Steps(ExtractJsonInt(body, "duration", 300)), a))
  }

  class BridgeHid {
    var attempts: Attempts
    var log: seq<Report>
    var forwarded: seq<string>  // cursor commands passed on to the phone app

    constructor (attempts: Attempts)
      ensures this.attempts == attempts && log == [] && forwarded == []
    {
      this.attempts, log, forwarded := attempts, [], [];
    }

    /** One report under hid_mutex. */
    method WithHidHandle(touching: bool, x: int, y: int, width: int, height: int) returns (r: int)
      requires ContactInRange(Contact(touching, x, y), width, height, attempts)
      modifies this`attempts, this`log
      ensures (r == 0) == Succeeds(old(attempts)) && attempts == Later(old(attempts))
      ensures log == old(log) + One(BridgeBytes(Contact(touching, x, y), width, height), old(attempts))
    {
      var outcome := Head(attempts);
      attempts := Later(attempts);
      if outcome.None? { return -1; }
      var sx, sy := Scale(x, width), Scale(y, height);
      ScaleRange(x, width);
      ScaleRange(y, height);
      var report := [if touching then 3 else 0, 1, sx % 256, sx / 256 % 256, sy % 256, sy / 256 % 256,
                     if touching then 1 else 0];
      assert Packed(sx) == [sx % 256, sx / 256 % 256] && Packed(sy) == [sy % 256, sy / 256 % 256];
      assert report == BridgeBytes(Contact(touching, x, y), width, height);
      r := if outcome.value < 0 then outcome.value else 0;
      log := log + [Report(report, r == 0)];
    }

    method Tap(x: int, y: int, width: int, height: int) returns (r: int)
      requires InRange(TapPlan(x, y), width, height, attempts)
      modifies this`attempts, this`log
      ensures (r == 0) == ChainOk(2, old(attempts)) && attempts == ChainLeft(2, old(attempts))
      ensures log == old(log) + Chain(BridgeReports(TapPlan(x, y), width, height), old(attempts))
    {
      hide BridgeBytes, One, Chain, ChainOk, ChainLeft, Succeeds, Later, ContactInRange;
      ReachedTap(x, y, width, height, attempts);
      ChainTwo(BridgeReports(TapPlan(x, y), width, height), attempts);
      r := WithHidHandle(true, x, y, width, height);
      if r == 0 { r := WithHidHandle(false, x, y, width, height); }
    }

    method TapTwice(x: int, y: int, width: int, height: int) returns (r: int)
      requires EveryInRange(TapPlan(x, y) + TapPlan(x, y), width, height, attempts)
      modifies this`attempts, this`log
      ensures (r == 0) == Succeeds(Later(Later(Later(old(attempts)))))
      ensures attempts == Later(Later(Later(Later(old(attempts)))))
      ensures log == old(log) + Every(BridgeReports(TapPlan(x, y) + TapPlan(x, y), width, height), old(attempts))
    {
      hide BridgeBytes, One, Every, EveryInRange, Succeeds, Later, ContactInRange;
      ghost var rs := BridgeReports(TapPlan(x, y) + TapPlan(x, y), width, height);
      assert TapPlan(x, y)[0] == Contact(true, x, y);
      FourInRange(x, y, width, height, attempts);
      EveryFour(rs, attempts);
      var ignored := WithHidHandle(true, x, y, width, height);
      ignored := WithHidHandle(false, x, y, width, height);
      ignored := WithHidHandle(true, x, y, width, height);
      r := WithHidHandle(false, x, y, width, height);
    }

    method Swipe(x1: int, y1: int, x2: int, y2: int, width: int, height: int, duration: int) returns (r: int)
      requires InRange(SwipePlan(x1, y1, x2, y2, Steps(duration)), width, height, attempts)
      requires StepsInRange(x1, y1, x2, y2, Steps(duration), attempts)
      modifies this`attempts, this`log
      ensures (r == 0) == ChainOk(Steps(duration) + 2, old(attempts))
      ensures attempts == ChainLeft(Steps(duration) + 2, old(attempts))
      ensures log == old(log)
          + Chain(BridgeReports(SwipePlan(x1, y1, x2, y2, Steps(duration)), width, height), old(attempts))
    {
      hide BridgeBytes, Along, Chain, ChainOk, ChainLeft, ChainSoFar, One, Succeeds, Later;
      hide ContactInRange, InRange, StepsInRange, SwipePlan;
      var steps := TruncDiv(duration, 10);
      if steps < 1 { steps := 1; }
      ghost var reports := BridgeReports(SwipePlan(x1, y1, x2, y2, steps), width, height);
      SwipeShape(x1, y1, x2, y2, steps);
      NothingChained(reports, attempts, log);
      ChainOne(reports, old(attempts), old(log), 0, attempts, log);
      TriedContact(x1, y1, x2, y2, steps, width, height, old(attempts), 0);
      r := WithHidHandle(true, x1, y1, width, height);
      var i: nat;
      r, i := SwipeSteps(x1, y1, x2, y2, width, height, steps, r, reports, old(attempts), old(log));
      if r == 0 {
        ChainOne(reports, old(attempts), old(log), i, attempts, log);
        TriedContact(x1, y1, x2, y2, steps, width, height, old(attempts), i);
        r := WithHidHandle(false, x2, y2, width, height);
        i := i + 1;
      }
      AllChained(reports, old(attempts), old(log), i, r == 0, attempts, log);
    }

    /** The loop of a swipe: one touching report per step while all is well. */
    method SwipeSteps(x1: int, y1: int, x2: int, y2: int, width: int, height: int, steps: nat, r0: int,
                      ghost reports: seq<seq<byte>>, ghost a0: Attempts, ghost log0: seq<Report>)
      returns (r: int, i: nat)
      requires 0 < steps && InRange(SwipePlan(x1, y1, x2, y2, steps), width, height, a0)
      requires StepsInRange(x1, y1, x2, y2, steps, a0)
      requires reports == BridgeReports(SwipePlan(x1, y1, x2, y2, steps), width, height)
      requires ChainSoFar(reports, a0, log0, 1, r0 == 0, attempts, log)
      modifies this`attempts, this`log
      ensures r == 0 ==> i == steps + 1
      ensures ChainSoFar(reports, a0, log0, i, r == 0, attempts, log)
    {
      hide BridgeBytes, Along, Chain, ChainOk, ChainLeft, ChainSoFar, One, Succeeds, Later;
      hide ContactInRange, InRange, StepsInRange, StepFits;
      r, i := r0, 1;
      while i <= steps && r == 0
        invariant 1 <= i <= steps + 1
        invariant ChainSoFar(reports, a0, log0, i, r == 0, attempts, log)
      {
        ChainOne(reports, a0, log0, i, attempts, log);
        TriedContact(x1, y1, x2, y2, steps, width, height, a0, i);
        r := WithHidHandle(true, Interpolate(x1, x2, i, steps), Interpolate(y1, y2, i, steps), width, height);
        i := i + 1;
      }
    }

    method ExecuteTouchAction(body: string) returns (r: int)
      requires Fits(body, attempts)
      modifies this
      ensures match Interpret(body)
              case Cursor =>
                r == 0 && log == old(log) && forwarded == old(forwarded) + [body] && attempts == old(attempts)
              case Unknown => r == -1 && log == old(log) && forwarded == old(forwarded) && attempts == old(attempts)
              case Gesture(plan, w, h) =>
                && forwarded == old(forwarded) && attempts == ChainLeft(|plan|, old(attempts))
                && (r == 0) == ChainOk(|plan|, old(attempts))
                && log == old(log) + Chain(BridgeReports(plan, w, h), old(attempts))
              case DoubleTap(plan, w, h) =>
                && forwarded == old(forwarded) && attempts == Later(Later(Later(Later(old(attempts)))))
                && (r == 0) == Succeeds(Later(Later(Later(old(attempts)))))
                && log == old(log) + Every(BridgeReports(plan, w, h), old(attempts))
      ensures log == old(log) + Performed(body, old(attempts))
    {
      hide ExtractJsonInt, JsonHasType, BridgeReports, SwipePlan, TapPlan, Chain, Every, One, ChainOk, ChainLeft;
      hide Succeeds, ContactInRange, InRange, EveryInRange, StepsInRange, Later;
      var x, y := ExtractJsonInt(body, "x", 0), ExtractJsonInt(body, "y", 0);
      var width, height := ExtractJsonInt(body, "width", 1080), ExtractJsonInt(body, "height", 2340);
      if JsonHasType(body, "cursor") {
        forwarded := forwarded + [body];
        return 0;
      }
      if JsonHasType(body, "down") || JsonHasType(body, "move") {
        SingleChain(Contact(true, x, y), width, height, attempts);
        r := WithHidHandle(true, x, y, width, height);
        return;
      }
      if JsonHasType(body, "up") {
        SingleChain(Contact(false, x, y), width, height, attempts);
        r := WithHidHandle(false, x, y, width, height);
        return;
      }
      if JsonHasType(body, "tap") {
        assert |TapPlan(x, y)| == 2 by { TapLength(x, y); }
        r := Tap(x, y, width, height);
        return;
      }
      if JsonHasType(body, "doubletap") {
        r := TapTwice(x, y, width, height);
        return;
      }
      if JsonHasType(body, "swipe") {
        var x1, y1 := ExtractJsonInt(body, "x1", 0), ExtractJsonInt(body, "y1", 0);
        var x2, y2 := ExtractJsonInt(body, "x2", 0), ExtractJsonInt(body, "y2", 0);
        var duration := ExtractJsonInt(body, "duration", 300);
        SwipeShape(x1, y1, x2, y2, Steps(duration));
        r := Swipe(x1, y1, x2, y2, width, height, duration);
        return;
      }
      r := -1;
    }
  }

  lemma ReachedTap(x: int, y: int, width: int, height: int, a: Attempts)
    requires InRange(TapPlan(x, y), width, height, a)
    ensures ContactInRange(Contact(true, x, y), width, height, a)
    ensures Succeeds(a) ==> ContactInRange(Contact(false, x, y), width, height, Later(a))
  {
    var plan := TapPlan(x, y);
    assert plan[0] == Contact(true, x, y) && plan[1] == Contact(false, x, y);
    ChainStart(a);
    hide ContactInRange, ChainOk, ChainLeft, Succeeds, Later;
  }

  lemma FourInRange(x: int, y: int, width: int, height: int, a: Attempts)
    requires EveryInRange(TapPlan(x, y) + TapPlan(x, y), width, height, a)
    ensures ContactInRange(Contact(true, x, y), width, height, a)
    ensures ContactInRange(Contact(false, x, y), width, height, Later(a))
    ensures ContactInRange(Contact(true, x, y), width, height, Later(Later(a)))
    ensures ContactInRange(Contact(false, x, y), width, height, Later(Later(Later(a))))
  {
    hide ContactInRange, Later;
    var down, up := Contact(true, x, y), Contact(false, x, y);
    assert TapPlan(x, y) + TapPlan(x, y) == [down, up, down, up];
    assert [down, up, down, up][1..] == [up, down, up] && [up, down, up][1..] == [down, up];
    assert [down, up][1..] == [up];
    assert EveryInRange([up, down, up], width, height, Later(a));
    assert EveryInRange([down, up], width, height, Later(Later(a)));
    assert EveryInRange([up], width, height, Later(Later(Later(a))));
  }

  /** Report `i` of a swipe, if it is tried, can be computed. */
  lemma TriedContact(x1: int, y1: int, x2: int, y2: int, steps: nat, width: int, height: int, a: Attempts, i: nat)
    requires 0 < steps && InRange(SwipePlan(x1, y1, x2, y2, steps), width, height, a)
    requires StepsInRange(x1, y1, x2, y2, steps, a) && i <= steps + 1 && ChainOk(i, a)
    ensures i == 0 ==> ContactInRange(Contact(true, x1, y1), width, height, ChainLeft(i, a))
    ensures 1 <= i <= steps ==>
      && StepFits(x1, x2, i) && StepFits(y1, y2, i)
      && ContactInRange(Contact(true, Along(x1, x2, i, steps), Along(y1, y2, i, steps)), width, height, ChainLeft(i, a))
    ensures i == steps + 1 ==> ContactInRange(Contact(false, x2, y2), width, height, ChainLeft(i, a))
  {
    hide Along, ContactInRange, StepFits, ChainOk, ChainLeft;
    var plan := SwipePlan(x1, y1, x2, y2, steps);
    assert plan[0] == Contact(true, x1, y1) && plan[steps + 1] == Contact(false, x2, y2);
    assert ContactInRange(plan[i], width, height, ChainLeft(i, a));
    if 1 <= i <= steps {
      assert plan[i] == Contact(true, Along(x1, x2, i, steps), Along(y1, y2, i, steps));
    }
  }

  lemma TapLength(x: int, y: int)
    ensures |TapPlan(x, y)| == 2
  {
  }

  lemma SingleChain(c: Contact, width: int, height: int, a: Attempts)
    ensures Chain(BridgeReports([c], width, height), a) == One(BridgeBytes(c, width, height), a)
    ensures ChainOk(1, a) == Succeeds(a) && ChainLeft(1, a) == Later(a)
    ensures InRange([c], width, height, a) ==> ContactInRange(c, width, height, a)
  {
    assert [c][0] == c;
    ChainStart(a);
    hide BridgeBytes, ContactInRange;
    assert BridgeReports([c], width, height)[1..] == [];
  }

  lemma ChainTwo(rs: seq<seq<byte>>, a: Attempts)
    requires |rs| == 2
    ensures Chain(rs, a) == One(rs[0], a) + (if Succeeds(a) then One(rs[1], Later(a)) else [])
    ensures ChainOk(2, a) == (Succeeds(a) && Succeeds(Later(a)))
    ensures ChainLeft(2, a) == if Succeeds(a) then Later(Later(a)) else Later(a)
  {
    ChainFrom(rs, 0, a);
    ChainFrom(rs, 1, Later(a));
    assert rs[0..] == rs && rs[2..] == [];
    hide One;
    assert One(rs[1], Later(a)) + [] == One(rs[1], Later(a));
  }

  lemma EveryFour(rs: seq<seq<byte>>, a: Attempts)
    requires |rs| == 4
    ensures Every(rs, a) == One(rs[0], a) + One(rs[1], Later(a)) + One(rs[2], Later(Later(a)))
        + One(rs[3], Later(Later(Later(a))))
  {
    hide One, Later, Every;
    EveryHead(rs, a);
    EveryHead(rs[1..], Later(a));
    EveryHead(rs[2..], Later(Later(a)));
    EveryHead(rs[3..], Later(Later(Later(a))));
    assert rs[1..][1..] == rs[2..] && rs[2..][1..] == rs[3..];
    var one, two := One(rs[0], a), One(rs[1], Later(a));
    var three, four := One(rs[2], Later(Later(a))), One(rs[3], Later(Later(Later(a))));
    assert one + (two + (three + four)) == one + two + three + four;
  }

  lemma EveryHead(rs: seq<seq<byte>>, a: Attempts)
    requires rs != []
    ensures Every(rs, a) == One(rs[0], a) + Every(rs[1..], Later(a))
    ensures |rs| == 1 ==> Every(rs, a) == One(rs[0], a)
  {
    if |rs| == 1 { assert rs[1..] == [] && One(rs[0], a) + [] == One(rs[0], a); }
    hide One;
  }

  /** `i` reports have been tried, the last of them with success `ok`. */
  ghost predicate ChainSoFar(reports: seq<seq<byte>>, a0: Attempts, log0: seq<Report>, i: nat, ok: bool, a: Attempts,
      log: seq<Report>) {
    && i <= |reports|
    && log0 + Chain(reports, a0) == log + (if ok then Chain(reports[i..], a) else [])
    && ChainOk(|reports|, a0) == (ok && ChainOk(|reports| - i, a))
    && ChainLeft(|reports|, a0) == (if ok then ChainLeft(|reports| - i, a) else a)
    && (ok ==> ChainOk(i, a0) && a == ChainLeft(i, a0))
  }

  lemma ChainStart(a: Attempts)
    ensures ChainOk(0, a) && ChainLeft(0, a) == a
    ensures ChainOk(1, a) == Succeeds(a) && ChainLeft(1, a) == Later(a)
  {
    assert ChainOk(0, Later(a)) && ChainLeft(0, Later(a)) == Later(a);
  }

  lemma {:induction false} ChainNext(i: nat, a: Attempts)
    ensures ChainOk(i + 1, a) == (ChainOk(i, a) && Succeeds(ChainLeft(i, a)))
    ensures ChainOk(i + 1, a) ==> ChainLeft(i + 1, a) == Later(ChainLeft(i, a))
  {
    if i > 0 { ChainNext(i - 1, Later(a)); } else { ChainStart(a); }
    hide Succeeds, Later;
  }

  lemma NothingChained(reports: seq<seq<byte>>, a: Attempts, log: seq<Report>)
    ensures ChainSoFar(reports, a, log, 0, true, a, log)
  {
    assert reports[0..] == reports;
  }

  lemma ChainOne(reports: seq<seq<byte>>, a0: Attempts, log0: seq<Report>, i: nat, a: Attempts, log: seq<Report>)
    requires ChainSoFar(reports, a0, log0, i, true, a, log) && i < |reports|
    ensures ChainOk(i, a0) && a == ChainLeft(i, a0)
    ensures ChainSoFar(reports, a0, log0, i + 1, Succeeds(a), Later(a), log + One(reports[i], a))
  {
    ChainFrom(reports, i, a);
    ChainNext(i, a0);
    hide Chain, ChainOk, ChainLeft, One, Succeeds, Later;
    var tail := if Succeeds(a) then Chain(reports[i + 1..], Later(a)) else [];
    assert log + (One(reports[i], a) + tail) == log + One(reports[i], a) + tail;
  }

  lemma ChainFrom(reports: seq<seq<byte>>, i: nat, a: Attempts)
    requires i < |reports|
    ensures Chain(reports[i..], a) == One(reports[i], a)
        + (if Succeeds(a) then Chain(reports[i + 1..], Later(a)) else [])
    ensures ChainOk(|reports| - i, a) == (Succeeds(a) && ChainOk(|reports| - (i + 1), Later(a)))
    ensures ChainLeft(|reports| - i, a)
      == if Succeeds(a) then ChainLeft(|reports| - (i + 1), Later(a)) else Later(a)
  {
    assert reports[i..][0] == reports[i] && reports[i..][1..] == reports[i + 1..];
  }

  lemma AllChained(reports: seq<seq<byte>>, a0: Attempts, log0: seq<Report>, i: nat, ok: bool, a: Attempts,
      log: seq<Report>)
    requires ChainSoFar(reports, a0, log0, i, ok, a, log) && (ok ==> i == |reports|)
    ensures log == log0 + Chain(reports, a0) && ok == ChainOk(|reports|, a0) && a == ChainLeft(|reports|, a0)
  {
  }
  // ---------- what the bridge sends for a command ----------

  /** The log entries of a command, by its text and the attempts. */
  function Performed(body: string, a: Attempts): (log: seq<Report>) {
    match Interpret(body)
    case Gesture(plan, w, h) => Chain(BridgeReports(plan, w, h), a)
    case DoubleTap(plan, w, h) => Every(BridgeReports(plan, w, h), a)
    case _ => []
  }

  /**
   * A seven-byte report that went out: tip and range bits, contact 1, the pixel in two coordinates
   * of two bytes each, and the number of contacts. The pixel can be read back in frames of up to
   * 32768 pixels a side.
   */
  ghost predicate Says(r: Report, touching: bool, x: int, y: int, w: int, h: int) {
    var b := r.bytes;
    && r.ok && |b| == 7
    && b[0] == (if touching then 3 else 0) && b[1] == 1 && b[6] == (if touching then 1 else 0)
    && (2 <= w <= 32768 && 0 <= x < w ==> PixelOf(Unpacked(b[2], b[3]), w) == x)
    && (2 <= h <= 32768 && 0 <= y < h ==> PixelOf(Unpacked(b[4], b[5]), h) == y)
  }

  lemma BridgeReadsBack(c: Contact, w: int, h: int)
    ensures Says(Report(BridgeBytes(c, w, h), true), c.touching, c.x, c.y, w, h)
  {
    hide Scale, PixelOf, Unpacked, Packed;
    CoordinateReadsBack(c.x, w);
    CoordinateReadsBack(c.y, h);
    var x, y := Packed(Scale(c.x, w)), Packed(Scale(c.y, h));
    assert BridgeBytes(c, w, h) == [if c.touching then 3 else 0, 1] + x + y + [if c.touching then 1 else 0];
  }

  lemma CoordinateReadsBack(v: int, max: int)
    ensures 0 <= Scale(v, max) <= HID_MAX && |Packed(Scale(v, max))| == 2
    ensures var p := Packed(Scale(v, max));
      2 <= max <= 32768 && 0 <= v < max ==> PixelOf(Unpacked(p[0], p[1]), max) == v
  {
    hide Scale, PixelOf, Unpacked;
    ScaleRange(v, max);
    if 2 <= max <= 32768 && 0 <= v < max { ReportCarriesPixel(v, max); }
  }

  /** HID is ready and the transfer succeeds, `n` times. */
  predicate AllSucceed(n: nat, a: Attempts) {
    n <= |a| && forall i | 0 <= i < n :: a[i].Some? && a[i].value >= 0
  }

  /** Then every report goes out. */
  lemma {:induction false} ChainGoesOut(reports: seq<seq<byte>>, a: Attempts)
    requires AllSucceed(|reports|, a)
    ensures Chain(reports, a) == Every(reports, a)
      == seq(|reports|, i requires 0 <= i < |reports| => Report(reports[i], true))
  {
    if reports != [] {
      ChainGoesOut(reports[1..], a[1..]);
      assert Succeeds(a) && One(reports[0], a) == [Report(reports[0], true)];
    }
  }

  lemma ReportsSay(plan: seq<Contact>, w: int, h: int, a: Attempts)
    requires AllSucceed(|plan|, a)
    ensures var log := Chain(BridgeReports(plan, w, h), a);
      && log == Every(BridgeReports(plan, w, h), a) && |log| == |plan|
      && forall i | 0 <= i < |plan| :: Says(log[i], plan[i].touching, plan[i].x, plan[i].y, w, h)
  {
    hide BridgeBytes, Says, Chain, Every;
    ChainGoesOut(BridgeReports(plan, w, h), a);
    forall i | 0 <= i < |plan|
      ensures Says(Report(BridgeBytes(plan[i], w, h), true), plan[i].touching, plan[i].x, plan[i].y, w, h)
    {
      BridgeReadsBack(plan[i], w, h);
    }
  }

  /** How many reports a command makes when all succeed. */
  function Making(name: string, duration: int): (n: nat) {
    if name == "cursor" then 0
    else if name == "tap" then 2
    else if name == "doubletap" then 4
    else if name == "swipe" then 2 + if duration < 20 then 1 else duration / 10
    else 1
  }

  /** The log of a gesture at one point, by the command's name. */
  ghost predicate SaysPoint(name: string, log: seq<Report>, x: int, y: int, w: int, h: int) {
    if name == "down" || name == "move" then |log| == 1 && Says(log[0], true, x, y, w, h)
    else if name == "up" then |log| == 1 && Says(log[0], false, x, y, w, h)
    else if name == "tap" then |log| == 2 && Says(log[0], true, x, y, w, h) && Says(log[1], false, x, y, w, h)
    else if name == "doubletap" then
      && |log| == 4
      && Says(log[0], true, x, y, w, h) && Says(log[1], false, x, y, w, h)
      && Says(log[2], true, x, y, w, h) && Says(log[3], false, x, y, w, h)
    else log == []
  }

  /** The log of a swipe: touching from the start in equal steps to the target, then the release there. */
  ghost predicate SaysSwipe(log: seq<Report>, x1: int, y1: int, x2: int, y2: int, n: nat, w: int, h: int) {
    && n >= 3 && |log| == n && Says(log[0], true, x1, y1, w, h)
    && (forall i | 1 <= i <= n - 2 :: Says(log[i], true, Along(x1, x2, i, n - 2), Along(y1, y2, i, n - 2), w, h))
    && Says(log[n - 2], true, x2, y2, w, h) && Says(log[n - 1], false, x2, y2, w, h)
  }

  lemma SwipeSends(x1: int, y1: int, x2: int, y2: int, duration: int, w: int, h: int, a: Attempts)
    requires AllSucceed(Making("swipe", duration), a)
    ensures SaysSwipe(Chain(BridgeReports(SwipePlan(x1, y1, x2, y2, Steps(duration)), w, h), a),
                      x1, y1, x2, y2, Making("swipe", duration), w, h)
  {
    hide Says, Along, Chain, Every, BridgeReports, SwipePlan;
    var steps := Steps(duration);
    assert Making("swipe", duration) == steps + 2;
    SwipeShape(x1, y1, x2, y2, steps);
    SwipePoints(x1, y1, x2, y2, steps);
    ReportsSay(SwipePlan(x1, y1, x2, y2, steps), w, h, a);
  }

  lemma TapSends(x: int, y: int, w: int, h: int, a: Attempts)
    requires AllSucceed(2, a)
    ensures SaysPoint("tap", Chain(BridgeReports(TapPlan(x, y), w, h), a), x, y, w, h)
    ensures AllSucceed(4, a) ==>
      SaysPoint("doubletap", Every(BridgeReports(TapPlan(x, y) + TapPlan(x, y), w, h), a), x, y, w, h)
  {
    hide Says, Chain, Every, BridgeReports;
    ReportsSay(TapPlan(x, y), w, h, a);
    if AllSucceed(4, a) { ReportsSay(TapPlan(x, y) + TapPlan(x, y), w, h, a); }
  }

  lemma ContactSends(touching: bool, x: int, y: int, w: int, h: int, a: Attempts)
    requires AllSucceed(1, a)
    ensures var log := Chain(BridgeReports([Contact(touching, x, y)], w, h), a);
      |log| == 1 && Says(log[0], touching, x, y, w, h)
  {
    hide Says, Chain, Every, BridgeReports;
    ReportsSay([Contact(touching, x, y)], w, h, a);
  }

  /**
   * From the members of a command to the reports of the bridge, all of them going through: what a
   * phone reads from the bytes is the gesture the command names, at the points it names.
   */
  lemma CommandSends(ms: seq<Member>, name: string, a: Attempts)
    requires CommandForm(ms, name) && AllSucceed(Making(name, IntField(ms, "duration", 300)), a)
    ensures var log, w, h := Performed(Render(ms), a), IntField(ms, "width", 1080), IntField(ms, "height", 2340);
      if name == "swipe" then
        SaysSwipe(log, IntField(ms, "x1", 0), IntField(ms, "y1", 0), IntField(ms, "x2", 0), IntField(ms, "y2", 0),
                  Making(name, IntField(ms, "duration", 300)), w, h)
      else SaysPoint(name, log, IntField(ms, "x", 0), IntField(ms, "y", 0), w, h)
  {
    hide IntField, Render, Chain, Every, Says, SaysSwipe, BridgeReports, SwipePlan, TapPlan, Interpret, AllSucceed;
    CommandRecovered(ms, name);
    var w, h := IntField(ms, "width", 1080), IntField(ms, "height", 2340);
    var x, y := IntField(ms, "x", 0), IntField(ms, "y", 0);
    if name == "swipe" {
      SwipeSends(IntField(ms, "x1", 0), IntField(ms, "y1", 0), IntField(ms, "x2", 0), IntField(ms, "y2", 0),
                 IntField(ms, "duration", 300), w, h, a);
    } else if name == "doubletap" || name == "tap" {
      assert AllSucceed(2, a) by { Fewer(2, Making(name, IntField(ms, "duration", 300)), a); }
      TapSends(x, y, w, h, a);
    } else if name != "cursor" {
      ContactSends(name != "up", x, y, w, h, a);
    }
  }

  lemma Fewer(n: nat, k: nat, a: Attempts)
    requires n <= k && AllSucceed(k, a)
    ensures AllSucceed(n, a)
  {
  }
}
