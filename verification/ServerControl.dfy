/**
 * The server's own control path: what the page sends over its WebSocket, the dispatcher that turns
 * a message into gestures, and what the phone's finger does in the end.
 */
module ServerControl {
  import opened Bytes
  import opened Coordinates
  import opened Touch
  import opened JsonText
  import opened Command
  import opened WinReceiver
  import opened WebSocket
  import opened WebSocketIo
  import BridgeControl
  import ControlPath
  import Pointer

  // ---------- the dispatcher ----------

  /** The gesture calls of a command, each a plan that stops at its first failure. */
  function Gestures(name: string, field: (string, int) -> int): (plans: seq<seq<Contact>>) {
    var x, y := field("x", 0), field("y", 0);
    if name == "down" || name == "move" then [[Contact(true, x, y)]]
    else if name == "up" then [[Contact(false, x, y)]]
    else if name == "tap" then [TapPlan(x, y)]
    else if name == "doubletap" then [TapPlan(x, y), TapPlan(x, y)]
    else if name == "swipe" then
      [SwipePlan(field("x1", 0), field("y1", 0), field("x2", 0), field("y2", 0), StepsFor(field("duration", 300)))]
    else []
  }

  function BodyGestures(body: string): (plans: seq<seq<Contact>>) {
    Gestures(BridgeControl.TypeOf(body), (k, def) => ExtractJsonInt(body, k, def))
  }

  /** The reports of one call after another. */
  function RunAll(plans: seq<seq<Contact>>, width: int, height: int, results: seq<int>): (log: seq<Report>) {
    if plans == [] then []
    else Run(ServerReports(plans[0], width, height), results)
         + RunAll(plans[1..], width, height, After(|plans[0]|, results))
  }

  function AllWell(plans: seq<seq<Contact>>, results: seq<int>): (ok: bool) {
    plans == [] || (AllOk(|plans[0]|, results) && AllWell(plans[1..], After(|plans[0]|, results)))
  }

  function AfterAll(plans: seq<seq<Contact>>, results: seq<int>): (rest: seq<int>) {
    if plans == [] then results else AfterAll(plans[1..], After(|plans[0]|, results))
  }

  /** No int of the server's arithmetic overflows in what these calls compute. */
  predicate PlansFit(plans: seq<seq<Contact>>, width: int, height: int, results: seq<int>) {
    plans == []
    || (PlanFits(plans[0], width, height, results)
        && PlansFit(plans[1..], width, height, After(|plans[0]|, results)))
  }

  /** Nor in what is computed for the text. */
  predicate Fits(body: string, results: seq<int>) {
    var w, h := ExtractJsonInt(body, "width", 1080), ExtractJsonInt(body, "height", 2340);
    && PlansFit(BodyGestures(body), w, h, results)
    && (BridgeControl.TypeOf(body) == "swipe" ==>
      StepsFit(ExtractJsonInt(body, "x1", 0), ExtractJsonInt(body, "y1", 0), ExtractJsonInt(body, "x2", 0),
               ExtractJsonInt(body, "y2", 0), StepsFor(ExtractJsonInt(body, "duration", 300)), results))
  }

  lemma OneGesture(plan: seq<Contact>, width: int, height: int, results: seq<int>)
    ensures RunAll([plan], width, height, results) == Run(ServerReports(plan, width, height), results)
    ensures AllWell([plan], results) == AllOk(|plan|, results) && AfterAll([plan], results) == After(|plan|, results)
    ensures PlansFit([plan], width, height, results) == PlanFits(plan, width, height, results)
  {
    assert [plan][0] == plan;
    assert [plan][1..] == [];
    var log := Run(ServerReports(plan, width, height), results);
    assert log + [] == log;
    hide Run, AllOk, After, ServerReports, PlanFits;
  }

  lemma TwoGestures(p: seq<Contact>, q: seq<Contact>, width: int, height: int, results: seq<int>)
    ensures var later := After(|p|, results);
      && RunAll([p, q], width, height, results)
         == Run(ServerReports(p, width, height), results) + Run(ServerReports(q, width, height), later)
      && AllWell([p, q], results) == (AllOk(|p|, results) && AllOk(|q|, later))
      && AfterAll([p, q], results) == After(|q|, later)
      && PlansFit([p, q], width, height, results)
         == (PlanFits(p, width, height, results) && PlanFits(q, width, height, later))
  {
    assert [p, q][0] == p;
    assert [p, q][1..] == [q];
    OneGesture(q, width, height, After(|p|, results));
    hide Run, AllOk, After, ServerReports, PlanFits;
  }

  /** The double tap: the second tap is sent whatever became of the first. */
  method DoubleTap(hid: ServerHid, x: int, y: int, w: int, h: int) returns (ok: bool)
    requires hid.handle && hid.ready ==> PlansFit([TapPlan(x, y), TapPlan(x, y)], w, h, hid.results)
    modifies hid`results, hid`log
    ensures var plans := [TapPlan(x, y), TapPlan(x, y)];
      && ok == (hid.handle && hid.ready && AllWell(plans, old(hid.results)))
      && hid.results == (if hid.handle && hid.ready then AfterAll(plans, old(hid.results)) else old(hid.results))
      && hid.log == old(hid.log)
                    + (if hid.handle && hid.ready then RunAll(plans, w, h, old(hid.results)) else [])
  {
    hide Run, AllOk, After, RunAll, AllWell, AfterAll, ServerReports, PlanFits, PlansFit;
    TwoGestures(TapPlan(x, y), TapPlan(x, y), w, h, hid.results);
    Regroup(hid.log, Run(ServerReports(TapPlan(x, y), w, h), hid.results),
            Run(ServerReports(TapPlan(x, y), w, h), After(2, hid.results)));
    var r1 := hid.Tap(x, y, w, h);
    var r2 := hid.Tap(x, y, w, h);
    ok := r1 == 0 && r2 == 0;
  }

  /** execute_touch_action of aoa_h264server.c: 1 for a cursor command and for gestures that succeed. */
  method ExecuteTouchAction(hid: ServerHid, body: string) returns (ok: bool)
    requires hid.handle && hid.ready ==> Fits(body, hid.results)
    modifies hid`results, hid`log
    ensures var plans, name := BodyGestures(body), BridgeControl.TypeOf(body);
      var w, h := ExtractJsonInt(body, "width", 1080), ExtractJsonInt(body, "height", 2340);
      && ok == (name == "cursor" || (name != "" && hid.handle && hid.ready && AllWell(plans, old(hid.results))))
      && hid.results == (if hid.handle && hid.ready then AfterAll(plans, old(hid.results)) else old(hid.results))
      && hid.log == old(hid.log)
                    + (if hid.handle && hid.ready then RunAll(plans, w, h, old(hid.results)) else [])
  {
    hide ExtractJsonInt, JsonHasType, SwipePlan, Run, AllOk, After, RunAll, AllWell, AfterAll, ServerReports;
    hide PlanFits, PlansFit, StepsFit, StepsFor;
    var w, h := ExtractJsonInt(body, "width", 1080), ExtractJsonInt(body, "height", 2340);
    var x, y := ExtractJsonInt(body, "x", 0), ExtractJsonInt(body, "y", 0);
    var r: int;
    if JsonHasType(body, "cursor") {
      NoGesture(w, h, hid.results);
      return true;
    } else if JsonHasType(body, "down") || JsonHasType(body, "move") {
      OneGesture([Contact(true, x, y)], w, h, hid.results);
      r := hid.Touch(true, x, y, w, h);
    } else if JsonHasType(body, "up") {
      OneGesture([Contact(false, x, y)], w, h, hid.results);
      r := hid.Touch(false, x, y, w, h);
    } else if JsonHasType(body, "tap") {
      OneGesture(TapPlan(x, y), w, h, hid.results);
      r := hid.Tap(x, y, w, h);
    } else if JsonHasType(body, "doubletap") {
      ok := DoubleTap(hid, x, y, w, h);
      return;
    } else if JsonHasType(body, "swipe") {
      var x1, y1 := ExtractJsonInt(body, "x1", 0), ExtractJsonInt(body, "y1", 0);
      var x2, y2 := ExtractJsonInt(body, "x2", 0), ExtractJsonInt(body, "y2", 0);
      var duration := ExtractJsonInt(body, "duration", 300);
      SwipeShape(x1, y1, x2, y2, StepsFor(duration));
      OneGesture(SwipePlan(x1, y1, x2, y2, StepsFor(duration)), w, h, hid.results);
      r := hid.Swipe(x1, y1, x2, y2, w, h, duration);
    } else {
      NoGesture(w, h, hid.results);
      return false;
    }
    ok := r == 0;
  }

  lemma NoGesture(width: int, height: int, results: seq<int>)
    ensures RunAll([], width, height, results) == [] && AllWell([], results) && AfterAll([], results) == results
  {
  }

  // ---------- a message reaches the dispatcher ----------

  const MESSAGE_BUFFER: nat := 4096

  lemma SameGestures(name: string, f: (string, int) -> int, g: (string, int) -> int)
    requires forall k, def | k in KEYS :: f(k, def) == g(k, def)
    ensures Gestures(name, f) == Gestures(name, g)
  {
    hide SwipePlan, TapPlan;
  }

  /**
   * The server's own control socket: a command that fits its buffer is read whole and dispatched as
   * the type and field values the browser put in, under any mask and whatever follows.
   */
  lemma CommandReachesServer(ms: seq<Member>, name: string, mask: seq<byte>, rest: seq<byte>)
    requires BridgeControl.CommandForm(ms, name) && ControlPath.Printable(ms)
    requires |mask| == 4 && |Render(ms)| < MESSAGE_BUFFER
    ensures ControlPath.Visible(Render(ms))
    ensures ServerText(ClientFrame(Ascii(Render(ms)), mask) + rest, MESSAGE_BUFFER) == Got(Ascii(Render(ms)), rest)
    ensures FromBytes(Ascii(Render(ms))) == Render(ms) && BridgeControl.TypeOf(Render(ms)) == name
    ensures BodyGestures(Render(ms)) == Gestures(name, (k, def) => IntField(ms, k, def))
    ensures forall k, def | k in KEYS :: ExtractJsonInt(Render(ms), k, def) == IntField(ms, k, def)
  {
    ControlPath.RenderVisible(ms);
    ClientFrameIsRead(Ascii(Render(ms)), mask, rest, MESSAGE_BUFFER);
    AsciiReadsBack(Render(ms));
    BridgeControl.TypeRecovered(ms, name);
    BridgeControl.CommandRecovered(ms, name);
    hide ExtractJsonInt, Render, IntField;
    SameGestures(name, (k, def) => ExtractJsonInt(Render(ms), k, def), (k, def) => IntField(ms, k, def));
  }

  // ---------- what the server sends for a command ----------

  /**
   * A five-byte report that went out: the touch bit, and a pixel that can be read back, in a frame
   * of 1080 by 2340 if the size is missing.
   */
  ghost predicate Says(r: Report, touching: bool, x: int, y: int, w: int, h: int) {
    var b := r.bytes;
    && r.ok && |b| == 5 && b[0] == (if touching then 1 else 0)
    && (2 <= w <= 32768 && 0 <= x < w ==> PixelOf(Unpacked(b[1], b[2]), w) == x)
    && (2 <= h <= 32768 && 0 <= y < h ==> PixelOf(Unpacked(b[3], b[4]), h) == y)
    && (w <= 1 && 0 <= x < 1080 ==> PixelOf(Unpacked(b[1], b[2]), 1080) == x)
    && (h <= 1 && 0 <= y < 2340 ==> PixelOf(Unpacked(b[3], b[4]), 2340) == y)
  }

  lemma CoordinateReadsBack(v: int, size: int, default: int)
    requires 2 <= default <= 32768
    ensures 0 <= ServerScale(v, size, default) <= HID_MAX && |Packed(ServerScale(v, size, default))| == 2
    ensures var p := Packed(ServerScale(v, size, default));
      && (2 <= size <= 32768 && 0 <= v < size ==> PixelOf(Unpacked(p[0], p[1]), size) == v)
      && (size <= 1 && 0 <= v < default ==> PixelOf(Unpacked(p[0], p[1]), default) == v)
  {
    hide PixelOf, Unpacked;
    ServerScaleRange(v, size, default);
    VersionsAgreeIff(v, size, default);
    if 2 <= size <= 32768 && 0 <= v < size { ReportCarriesPixel(v, size); }
    if size <= 1 && 0 <= v < default { ReportCarriesPixel(v, default); }
    DefaultScale(v, size, default);
    hide Scale, ServerScale;
  }

  lemma DefaultScale(v: int, size: int, default: int)
    requires default > 1
    ensures size <= 1 ==> ServerScale(v, size, default) == Scale(v, default)
  {
  }

  lemma ReportReadsBack(c: Contact, w: int, h: int)
    ensures Says(Report(ServerBytes(c, w, h), true), c.touching, c.x, c.y, w, h)
  {
    hide Scale, ServerScale, PixelOf, Unpacked, Packed;
    CoordinateReadsBack(c.x, w, 1080);
    CoordinateReadsBack(c.y, h, 2340);
    var x, y := Packed(ServerScale(c.x, w, 1080)), Packed(ServerScale(c.y, h, 2340));
    assert ServerBytes(c, w, h) == [if c.touching then 1 else 0] + x + y;
  }

  lemma PlanSays(plan: seq<Contact>, w: int, h: int, results: seq<int>)
    requires AllOk(|plan|, results)
    ensures var log := Run(ServerReports(plan, w, h), results);
      && |log| == |plan|
      && forall i | 0 <= i < |plan| :: Says(log[i], plan[i].touching, plan[i].x, plan[i].y, w, h)
  {
    hide Says, ServerBytes, AllOk, Run;
    RunIsPrefix(ServerReports(plan, w, h), results);
    forall i | 0 <= i < |plan|
      ensures Says(Report(ServerBytes(plan[i], w, h), true), plan[i].touching, plan[i].x, plan[i].y, w, h)
    {
      ReportReadsBack(plan[i], w, h);
    }
  }

  ghost predicate SaysPoint(name: string, log: seq<Report>, x: int, y: int, w: int, h: int) {
    if name == "down" || name == "move" then |log| == 1 && Says(log[0], true, x, y, w, h)
    else if name == "up" then |log| == 1 && Says(log[0], false, x, y, w, h)
    else if name == "tap" then |log| == 2 && Says(log[0], true, x, y, w, h) && Says(log[1], false, x, y, w, h)
    else if name == "doubletap" then
      && |log| == 4
      && Says(log[0], true, x, y, w, h) && Says(log[1], false, x, y, w, h)
      && Says(log[2], true, x, y, w, h) && Says(log[3], false, x, y, w, h)
    else log == []
  }

  ghost predicate SaysSwipe(log: seq<Report>, x1: int, y1: int, x2: int, y2: int, n: nat, w: int, h: int) {
    && n >= 3 && |log| == n && Says(log[0], true, x1, y1, w, h)
    && (forall i | 1 <= i <= n - 2 :: Says(log[i], true, Along(x1, x2, i, n - 2), Along(y1, y2, i, n - 2), w, h))
    && Says(log[n - 2], true, x2, y2, w, h) && Says(log[n - 1], false, x2, y2, w, h)
  }

  /** How many reports a command makes when all succeed; durations count from 100 to 2000 milliseconds. */
  function Making(name: string, duration: int): (n: nat) {
    if name == "cursor" then 0
    else if name == "tap" then 2
    else if name == "doubletap" then 4
    else if name == "swipe" then 2 + if duration < 100 then 10 else if duration > 2000 then 200 else duration / 10
    else 1
  }

  lemma SwipeSays(x1: int, y1: int, x2: int, y2: int, duration: int, w: int, h: int, results: seq<int>)
    requires AllOk(Making("swipe", duration), results)
    ensures SaysSwipe(RunAll([SwipePlan(x1, y1, x2, y2, StepsFor(duration))], w, h, results),
                      x1, y1, x2, y2, Making("swipe", duration), w, h)
  {
    hide Says, Along, Run, RunAll, AllOk, ServerReports, SwipePlan;
    var steps := StepsFor(duration);
    assert Making("swipe", duration) == steps + 2;
    var plan := SwipePlan(x1, y1, x2, y2, steps);
    SwipeShape(x1, y1, x2, y2, steps);
    SwipePoints(x1, y1, x2, y2, steps);
    OneGesture(plan, w, h, results);
    PlanSays(plan, w, h, results);
  }

  lemma TapsSay(x: int, y: int, w: int, h: int, results: seq<int>)
    requires AllOk(2, results)
    ensures SaysPoint("tap", RunAll([TapPlan(x, y)], w, h, results), x, y, w, h)
    ensures AllOk(4, results) ==>
      SaysPoint("doubletap", RunAll([TapPlan(x, y), TapPlan(x, y)], w, h, results), x, y, w, h)
  {
    hide Says, Run, RunAll, AllOk, ServerReports, After;
    OneGesture(TapPlan(x, y), w, h, results);
    PlanSays(TapPlan(x, y), w, h, results);
    if AllOk(4, results) {
      AllOkSplits(2, 2, results);
      TwoGestures(TapPlan(x, y), TapPlan(x, y), w, h, results);
      PlanSays(TapPlan(x, y), w, h, After(2, results));
    }
  }

  lemma ContactSays(touching: bool, x: int, y: int, w: int, h: int, results: seq<int>)
    requires AllOk(1, results)
    ensures var log := RunAll([[Contact(touching, x, y)]], w, h, results);
      |log| == 1 && Says(log[0], touching, x, y, w, h)
  {
    hide Says, Run, RunAll, AllOk, ServerReports;
    OneGesture([Contact(touching, x, y)], w, h, results);
    PlanSays([Contact(touching, x, y)], w, h, results);
  }

  /**
   * From the members of a command to the reports of the server, all of them going through: what a
   * phone reads from the bytes is the gesture the command names, at the points it names.
   */
  lemma CommandSends(ms: seq<Member>, name: string, results: seq<int>)
    requires BridgeControl.CommandForm(ms, name) && ControlPath.Printable(ms) && |Render(ms)| < MESSAGE_BUFFER
    requires AllOk(Making(name, IntField(ms, "duration", 300)), results)
    ensures var w, h := IntField(ms, "width", 1080), IntField(ms, "height", 2340);
      var log := RunAll(BodyGestures(Render(ms)), w, h, results);
      && ExtractJsonInt(Render(ms), "width", 1080) == w && ExtractJsonInt(Render(ms), "height", 2340) == h
      && if name == "swipe" then
           SaysSwipe(log, IntField(ms, "x1", 0), IntField(ms, "y1", 0), IntField(ms, "x2", 0), IntField(ms, "y2", 0),
                     Making(name, IntField(ms, "duration", 300)), w, h)
         else SaysPoint(name, log, IntField(ms, "x", 0), IntField(ms, "y", 0), w, h)
  {
    hide IntField, Render, RunAll, Says, SaysSwipe, SwipePlan, TapPlan, AllOk, BodyGestures, ExtractJsonInt, ServerText;
    CommandReachesServer(ms, name, [0, 0, 0, 0], []);
    var w, h := IntField(ms, "width", 1080), IntField(ms, "height", 2340);
    var x, y := IntField(ms, "x", 0), IntField(ms, "y", 0);
    if name == "swipe" {
      SwipeSays(IntField(ms, "x1", 0), IntField(ms, "y1", 0), IntField(ms, "x2", 0), IntField(ms, "y2", 0),
                IntField(ms, "duration", 300), w, h, results);
    } else if name == "doubletap" {
      AllOkSplits(2, 2, results);
      TapsSay(x, y, w, h, results);
    } else if name == "tap" {
      TapsSay(x, y, w, h, results);
    } else if name == "cursor" {
      NoGesture(w, h, results);
    } else {
      ContactSays(name != "up", x, y, w, h, results);
    }
  }

  // ---------- the page's orders ----------

  function TypeName(n: Pointer.Name): (t: string)
    ensures t in TYPES
  {
    match n
    case CursorTo => "cursor"
    case DownAt => "down"
    case MoveTo => "move"
    case UpAt => "up"
    case TapAt => "tap"
  }

  /** videoWidth and videoHeight, as far as atoi can read them back. */
  type FrameSize = n: nat | n <= INT_MAX

  /** The object the page passes to JSON.stringify. */
  function OrderMembers(o: Pointer.Order, w: FrameSize, h: FrameSize): (ms: seq<Member>) {
    [Member("type", Text(TypeName(o.name))), Member("x", Int(o.at.x)), Member("y", Int(o.at.y)),
     Member("width", Int(w)), Member("height", Int(h))]
  }

  predicate InRange(o: Pointer.Order) { IsInt32(o.at.x) && IsInt32(o.at.y) }

  lemma OrderForm(o: Pointer.Order, w: FrameSize, h: FrameSize)
    ensures BridgeControl.CommandForm(OrderMembers(o, w, h), TypeName(o.name))
    ensures ControlPath.Printable(OrderMembers(o, w, h))
  {
    var ms := OrderMembers(o, w, h);
    BridgeControl.NamesPlain(TypeName(o.name));
    NamesVisible(o.name);
    assert HasText(ms, "type", TypeName(o.name));
    hide HasText, Name, TypeName, ControlPath.Visible;
  }

  lemma NamesVisible(n: Pointer.Name)
    ensures ControlPath.Visible(TypeName(n))
    ensures forall k | k in {"type", "x", "y", "width", "height"} :: Name(k) && ControlPath.Visible(k)
  {
  }

  lemma OrderFields(o: Pointer.Order, w: FrameSize, h: FrameSize)
    ensures var ms := OrderMembers(o, w, h);
      && (forall def :: IntField(ms, "x", def) == o.at.x && IntField(ms, "y", def) == o.at.y)
      && (forall def :: IntField(ms, "width", def) == w && IntField(ms, "height", def) == h)
  {
    var ms := OrderMembers(o, w, h);
    FieldAt(ms, 1);
    FieldAt(ms, 2);
    FieldAt(ms, 3);
    FieldAt(ms, 4);
    hide IntField;
  }

  /** A member whose key no earlier member has is the one its field is read from. */
  lemma FieldAt(ms: seq<Member>, i: nat)
    requires i < |ms| && ms[i].value.Int? && forall j | 0 <= j < i :: ms[j].key != ms[i].key
    ensures forall def :: IntField(ms, ms[i].key, def) == ms[i].value.v
  {
    FromAt(ms, i);
  }

  lemma {:induction false} FromAt(ms: seq<Member>, i: nat)
    requires i < |ms| && forall j | 0 <= j < i :: ms[j].key != ms[i].key
    ensures From(ms, ms[i].key) == ms[i..]
  {
    if i > 0 {
      FromAt(ms[1..], i - 1);
      assert ms[1..][i - 1..] == ms[i..];
    }
  }

  lemma {:induction false} DigitsLength(n: nat, k: nat, bound: nat)
    requires k >= 1 && n < bound && bound <= TenTo(k)
    ensures |Digits(n)| <= k
  {
    if k > 1 && n >= 10 { DigitsLength(n / 10, k - 1, TenTo(k - 1)); }
  }

  function TenTo(k: nat): (p: nat) { if k == 0 then 1 else 10 * TenTo(k - 1) }

  lemma {:induction false} MembersLength(ms: seq<Member>)
    requires forall i | 0 <= i < |ms| :: |MemberText(ms[i])| <= 30
    ensures |Members(ms)| <= 31 * |ms|
  {
    if ms != [] {
      forall i | 0 <= i < |ms[1..]|
        ensures |MemberText(ms[1..][i])| <= 30
      {
        assert ms[1..][i] == ms[i + 1];
      }
      MembersLength(ms[1..]);
      hide MemberText;
    }
  }

  lemma OrderShort(o: Pointer.Order, w: FrameSize, h: FrameSize)
    requires InRange(o)
    ensures |Render(OrderMembers(o, w, h))| < MESSAGE_BUFFER
  {
    assert TenTo(2) == 100 && TenTo(4) == 10000 && TenTo(6) == 1000000 && TenTo(8) == 100000000;
    assert TenTo(10) == 10000000000;
    forall v | IsInt32(v)
      ensures |Decimal(v)| <= 11
    {
      DigitsLength(Abs(v), 10, 10000000000);
    }
    var ms := OrderMembers(o, w, h);
    assert forall i | 0 <= i < |ms| :: |MemberText(ms[i])| <= 30 by { hide Decimal, TenTo; }
    MembersLength(ms);
    hide Members, MemberText;
  }

  // ---------- what the finger does ----------

  /** How many reports an order's command makes. */
  function Reports(n: Pointer.Name): (k: nat) {
    match n case CursorTo => 0 case DownAt => 1 case MoveTo => 1 case UpAt => 1 case TapAt => 2
  }

  function AllReports(orders: seq<Pointer.Order>): (k: nat) {
    if orders == [] then 0 else Reports(orders[0].name) + AllReports(orders[1..])
  }

  /** Whether the phone sees a contact: the touch byte of the last report that went through. */
  predicate Finger(log: seq<Report>) {
    log != []
    && if Last(log).ok then Last(log).bytes != [] && Last(log).bytes[0] == 1 else Finger(Front(log))
  }

  lemma FingerLast(log: seq<Report>, r: Report)
    ensures Finger(log + [r]) == if r.ok then r.bytes != [] && r.bytes[0] == 1 else Finger(log)
  {
    assert Front(log + [r]) == log;
  }

  /** The reports of a plan move the finger as far as they go through. */
  lemma {:induction false} FingerRun(log: seq<Report>, plan: seq<Contact>, w: int, h: int, results: seq<int>)
    ensures Finger(log + Run(ServerReports(plan, w, h), results)) == ContactAfter(plan, results, Finger(log))
    decreases |plan|
  {
    if plan == [] {
      assert log + [] == log;
    } else {
      var reports, r := ServerReports(plan, w, h), Report(ServerBytes(plan[0], w, h), ResultOk(results));
      assert reports[1..] == ServerReports(plan[1..], w, h);
      RunUnfold(reports, results);
      FingerLast(log, r);
      assert r.bytes[0] == if plan[0].touching then 1 else 0;
      hide Finger, Run, ServerReports, ServerBytes;
      if ResultOk(results) {
        FingerRun(log + [r], plan[1..], w, h, Rest(results));
        Regroup(log, [r], Run(reports[1..], Rest(results)));
      } else {
        assert [r] + [] == [r];
      }
    }
  }

  /** What an order does to the finger, by the results of its reports. */
  function Moved(n: Pointer.Name, results: seq<int>, down: bool): (after: bool) {
    match n
    case CursorTo => down
    case DownAt => down || ResultOk(results)
    case MoveTo => down || ResultOk(results)
    case UpAt => down && !ResultOk(results)
    case TapAt => if ResultOk(results) then !ResultOk(Rest(results)) else down
  }

  /** It is what the page believes exactly when its reports go through or have nothing to change. */
  lemma MovedAsBelievedIff(o: Pointer.Order, results: seq<int>, down: bool)
    ensures Moved(o.name, results, down) == Pointer.ContactAfter(down, o)
      <==> match o.name
           case CursorTo => true
           case DownAt => down || ResultOk(results)
           case MoveTo => down || ResultOk(results)
           case UpAt => !down || ResultOk(results)
           case TapAt => AllOk(2, results) || (!down && !ResultOk(results))
    ensures AllOk(Reports(o.name), results) ==> Moved(o.name, results, down) == Pointer.ContactAfter(down, o)
  {
    assert AllOk(2, results) == (ResultOk(results) && AllOk(1, Rest(results)));
    assert AllOk(1, results) == (ResultOk(results) && AllOk(0, Rest(results)));
    assert AllOk(1, Rest(results)) == (ResultOk(Rest(results)) && AllOk(0, Rest(Rest(results))));
  }

  lemma OneContactMoves(c: Contact, w: int, h: int, results: seq<int>, log: seq<Report>)
    ensures Finger(log + RunAll([[c]], w, h, results)) == if ResultOk(results) then c.touching else Finger(log)
    ensures AfterAll([[c]], results) == After(1, results)
  {
    OneGesture([c], w, h, results);
    FingerRun(log, [c], w, h, results);
    assert [c][1..] == [];
    hide RunAll, AllWell, AfterAll, Finger, Run;
  }

  lemma TapMoves(x: int, y: int, w: int, h: int, results: seq<int>, log: seq<Report>)
    ensures Finger(log + RunAll([TapPlan(x, y)], w, h, results)) == Moved(Pointer.TapAt, results, Finger(log))
    ensures AfterAll([TapPlan(x, y)], results) == After(2, results)
  {
    OneGesture(TapPlan(x, y), w, h, results);
    FingerRun(log, TapPlan(x, y), w, h, results);
    var up := [Contact(false, x, y)];
    assert TapPlan(x, y)[1..] == up && up[1..] == [];
    assert ContactAfter(up, Rest(results), true) == !ResultOk(Rest(results));
    hide RunAll, AllWell, AfterAll, Finger, Run;
  }

  /** The gesture calls of an order. */
  function OrderPlans(o: Pointer.Order): (plans: seq<seq<Contact>>) {
    match o.name
    case CursorTo => []
    case DownAt => [[Contact(true, o.at.x, o.at.y)]]
    case MoveTo => [[Contact(true, o.at.x, o.at.y)]]
    case UpAt => [[Contact(false, o.at.x, o.at.y)]]
    case TapAt => [TapPlan(o.at.x, o.at.y)]
  }

  /** An order's command moves the finger by the results of its reports, and uses up as many. */
  lemma OrderMoves(o: Pointer.Order, w: int, h: int, results: seq<int>, log: seq<Report>)
    ensures Finger(log + RunAll(OrderPlans(o), w, h, results)) == Moved(o.name, results, Finger(log))
    ensures AfterAll(OrderPlans(o), results) == After(Reports(o.name), results)
  {
    match o.name {
      case CursorTo =>
        NoGesture(w, h, results);
        assert log + [] == log;
      case TapAt => TapMoves(o.at.x, o.at.y, w, h, results, log);
      case _ => OneContactMoves(Contact(o.name != Pointer.UpAt, o.at.x, o.at.y), w, h, results, log);
    }
    hide RunAll, AllWell, AfterAll, Finger, After, ResultOk, TapPlan;
  }

  function OrdersMove(orders: seq<Pointer.Order>, results: seq<int>, down: bool): (after: bool) {
    if orders == [] then down
    else
      OrdersMove(orders[1..], After(Reports(orders[0].name), results), Moved(orders[0].name, results, down))
  }

  function OrdersUse(orders: seq<Pointer.Order>, results: seq<int>): (rest: seq<int>) {
    if orders == [] then results else OrdersUse(orders[1..], After(Reports(orders[0].name), results))
  }

  lemma {:induction false} AllOkSplits(a: nat, b: nat, results: seq<int>)
    requires AllOk(a + b, results)
    ensures AllOk(a, results) && AllOk(b, After(a, results))
  {
    if a > 0 { AllOkSplits(a - 1, b, Rest(results)); }
  }

  /** When every report goes through, the finger ends up where the page believes it. */
  lemma {:induction false} OrdersBelieved(orders: seq<Pointer.Order>, results: seq<int>, down: bool)
    requires AllOk(AllReports(orders), results)
    ensures OrdersMove(orders, results, down) == Pointer.Contact(down, orders)
  {
    if orders != [] {
      var o, rest := orders[0], orders[1..];
      AllOkSplits(Reports(o.name), AllReports(rest), results);
      MovedAsBelievedIff(o, results, down);
      OrdersBelieved(rest, After(Reports(o.name), results), Pointer.ContactAfter(down, o));
      Pointer.ContactSplit(down, [o], rest);
      Pointer.TwoOrders(down, o, o);
      assert orders == [o] + rest;
      hide AllOk, After, Moved, Pointer.ContactAfter, Pointer.Contact, Pointer.AllLegal;
    }
  }

  /** Only the point matters for the commands of the page. */
  lemma PointDecides(o: Pointer.Order, f: (string, int) -> int)
    requires f("x", 0) == o.at.x && f("y", 0) == o.at.y
    ensures Gestures(TypeName(o.name), f) == OrderPlans(o)
  {
    hide SwipePlan, TapPlan;
  }

  function OrderText(o: Pointer.Order, w: FrameSize, h: FrameSize): (t: text)
    requires InRange(o)
    ensures t == Render(OrderMembers(o, w, h)) && |t| < MESSAGE_BUFFER
  {
    OrderForm(o, w, h);
    ControlPath.RenderVisible(OrderMembers(o, w, h));
    OrderShort(o, w, h);
    Render(OrderMembers(o, w, h))
  }

  /** What the dispatcher is given for an order, and what it makes of it. */
  lemma OrderArrives(o: Pointer.Order, w: FrameSize, h: FrameSize, mask: seq<byte>, rest: seq<byte>)
    requires InRange(o) && |mask| == 4
    ensures var body := OrderText(o, w, h);
      && ServerText(ClientFrame(Ascii(body), mask) + rest, MESSAGE_BUFFER) == Got(Ascii(body), rest)
      && FromBytes(Ascii(body)) == body && BridgeControl.TypeOf(body) == TypeName(o.name)
      && BodyGestures(body) == OrderPlans(o)
      && ExtractJsonInt(body, "width", 1080) == w && ExtractJsonInt(body, "height", 2340) == h
  {
    var ms := OrderMembers(o, w, h);
    OrderForm(o, w, h);
    OrderFields(o, w, h);
    assert OrderText(o, w, h) == Render(ms) && |Render(ms)| < MESSAGE_BUFFER;
    hide OrderText, OrderMembers, IntField, ExtractJsonInt, Render, Gestures;
    CommandReachesServer(ms, TypeName(o.name), mask, rest);
    PointDecides(o, (k, def) => IntField(ms, k, def));
  }

  /** An order on its way: its text, with the frame size of the moment, under a mask of the browser's choice. */
  datatype Sent = Sent(order: Pointer.Order, w: FrameSize, h: FrameSize, mask: seq<byte>)

  ghost predicate Framable(sent: seq<Sent>) {
    forall i | 0 <= i < |sent| :: InRange(sent[i].order) && |sent[i].mask| == 4
  }

  /** Scaling an order's point overflows no int; a cursor command scales none. */
  predicate PointFits(m: Sent) {
    m.order.name.CursorTo? || ContactFits(Contact(true, m.order.at.x, m.order.at.y), m.w, m.h)
  }

  ghost function Frames(sent: seq<Sent>): (s: seq<byte>)
    requires Framable(sent)
  {
    if sent == [] then []
    else ClientFrame(Ascii(OrderText(sent[0].order, sent[0].w, sent[0].h)), sent[0].mask) + Frames(sent[1..])
  }

  function Orders(sent: seq<Sent>): (orders: seq<Pointer.Order>)
    ensures |orders| == |sent| && forall i | 0 <= i < |orders| :: orders[i] == sent[i].order
  {
    seq(|sent|, i requires 0 <= i < |sent| => sent[i].order)
  }

  /** The reports of one order after another, each scaled to the frame size it was sent with. */
  function RunSent(sent: seq<Sent>, results: seq<int>): (log: seq<Report>) {
    if sent == [] then []
    else
      var plans := OrderPlans(sent[0].order);
      RunAll(plans, sent[0].w, sent[0].h, results) + RunSent(sent[1..], AfterAll(plans, results))
  }

  function AfterSent(sent: seq<Sent>, results: seq<int>): (rest: seq<int>) {
    if sent == [] then results else AfterSent(sent[1..], AfterAll(OrderPlans(sent[0].order), results))
  }

  /** What these reports do to the finger. */
  lemma {:induction false} SentMoves(sent: seq<Sent>, results: seq<int>, log: seq<Report>)
    ensures Finger(log + RunSent(sent, results)) == OrdersMove(Orders(sent), results, Finger(log))
    ensures AfterSent(sent, results) == OrdersUse(Orders(sent), results)
  {
    hide Finger, RunAll, AfterAll, After, Moved, Reports, OrderPlans;
    if sent == [] {
      assert log + [] == log;
    } else {
      var m, plans := sent[0], OrderPlans(sent[0].order);
      var run, rest := RunAll(plans, m.w, m.h, results), AfterAll(plans, results);
      OrderMoves(m.order, m.w, m.h, results, log);
      SentMoves(sent[1..], rest, log + run);
      Regroup(log, run, RunSent(sent[1..], rest));
      assert Orders(sent)[1..] == Orders(sent[1..]);
    }
  }

  /** The contacts an order asks for. */
  function Contacts(o: Pointer.Order): (cs: seq<Contact>)
    ensures |cs| == Reports(o.name)
  {
    match o.name
    case CursorTo => []
    case DownAt => [Contact(true, o.at.x, o.at.y)]
    case MoveTo => [Contact(true, o.at.x, o.at.y)]
    case UpAt => [Contact(false, o.at.x, o.at.y)]
    case TapAt => [Contact(true, o.at.x, o.at.y), Contact(false, o.at.x, o.at.y)]
  }

  function Reported(cs: seq<Contact>, w: int, h: int): (log: seq<Report>) {
    seq(|cs|, i requires 0 <= i < |cs| => Report(ServerBytes(cs[i], w, h), true))
  }

  function AllReported(sent: seq<Sent>): (log: seq<Report>) {
    if sent == [] then []
    else Reported(Contacts(sent[0].order), sent[0].w, sent[0].h) + AllReported(sent[1..])
  }

  lemma OrderReported(o: Pointer.Order, w: int, h: int, results: seq<int>)
    requires AllOk(Reports(o.name), results)
    ensures RunAll(OrderPlans(o), w, h, results) == Reported(Contacts(o), w, h)
  {
    if o.name.CursorTo? {
      NoGesture(w, h, results);
    } else {
      var plan := Contacts(o);
      assert OrderPlans(o) == [plan];
      OneGesture(plan, w, h, results);
      RunIsPrefix(ServerReports(plan, w, h), results);
      hide Run, RunAll, ServerBytes, AllOk;
      assert Run(ServerReports(plan, w, h), results) == Reported(plan, w, h);
    }
  }

  /** When every report goes through, they are those of the orders' contacts, in order. */
  lemma {:induction false} SentReported(sent: seq<Sent>, results: seq<int>)
    requires AllOk(AllReports(Orders(sent)), results)
    ensures RunSent(sent, results) == AllReported(sent)
  {
    if sent != [] {
      var m, tail := sent[0], sent[1..];
      assert Orders(sent)[1..] == Orders(tail);
      AllOkSplits(Reports(m.order.name), AllReports(Orders(tail)), results);
      OrderReported(m.order, m.w, m.h, results);
      OrderMoves(m.order, m.w, m.h, results, []);
      hide AllOk, RunAll, AfterAll, After, Reported, Contacts, OrderPlans, Reports, AllReports;
      SentReported(tail, After(Reports(m.order.name), results));
    }
  }

  lemma FramesFrom(sent: seq<Sent>, k: nat)
    requires k < |sent| && Framable(sent) && Framable(sent[k..]) && Framable(sent[k + 1..])
    ensures Frames(sent[k..])
      == ClientFrame(Ascii(OrderText(sent[k].order, sent[k].w, sent[k].h)), sent[k].mask) + Frames(sent[k + 1..])
  {
    assert sent[k..][1..] == sent[k + 1..];
  }

  /** Messages from `k` on are still to come. */
  ghost predicate Serving(sent: seq<Sent>, k: nat, data: seq<byte>)
    requires k <= |sent|
  {
    Framable(sent) && Framable(sent[k..]) && data == Frames(sent[k..])
  }

  /** Those before have had their effect: none while HID is not ready. */
  ghost predicate Served(sent: seq<Sent>, k: nat, live: bool, results0: seq<int>, log0: seq<Report>,
                         results: seq<int>, log: seq<Report>)
    requires k <= |sent|
  {
    if live then
      && log + RunSent(sent[k..], results) == log0 + RunSent(sent, results0)
      && AfterSent(sent[k..], results) == AfterSent(sent, results0)
    else results == results0 && log == log0
  }

  lemma StartServing(sent: seq<Sent>, live: bool, results: seq<int>, log: seq<Report>)
    requires Framable(sent)
    ensures Serving(sent, 0, Frames(sent)) && Served(sent, 0, live, results, log, results, log)
  {
    assert sent[0..] == sent;
  }

  /** What one order adds to the log and takes from the results. */
  ghost predicate CarriedOut(m: Sent, live: bool, results: seq<int>, log: seq<Report>, results': seq<int>,
                             log': seq<Report>)
  {
    if live then
      && results' == AfterAll(OrderPlans(m.order), results)
      && log' == log + RunAll(OrderPlans(m.order), m.w, m.h, results)
    else results' == results && log' == log
  }

  lemma ServedOne(sent: seq<Sent>, k: nat, live: bool, results0: seq<int>, log0: seq<Report>,
                  results: seq<int>, log: seq<Report>, results': seq<int>, log': seq<Report>)
    requires k < |sent| && Served(sent, k, live, results0, log0, results, log)
    requires CarriedOut(sent[k], live, results, log, results', log')
    ensures Served(sent, k + 1, live, results0, log0, results', log')
  {
    assert sent[k..][0] == sent[k] && sent[k..][1..] == sent[k + 1..];
    hide RunAll, AfterAll, OrderPlans;
    if live {
      Regroup(log, RunAll(OrderPlans(sent[k].order), sent[k].w, sent[k].h, results), RunSent(sent[k + 1..], results'));
    }
  }

  lemma ServedAll(sent: seq<Sent>, live: bool, results0: seq<int>, log0: seq<Report>, results: seq<int>,
                  log: seq<Report>)
    requires Served(sent, |sent|, live, results0, log0, results, log)
    ensures if live then log == log0 + RunSent(sent, results0) && results == AfterSent(sent, results0)
      else results == results0 && log == log0
  {
    assert sent[|sent|..] == [] && log + [] == log;
  }

  /** The next message, if there is one. */
  lemma NextMessage(sent: seq<Sent>, k: nat, data: seq<byte>)
    requires k < |sent| && Serving(sent, k, data)
    ensures InRange(sent[k].order) && Framable(sent[k + 1..])
    ensures var o, w, h := sent[k].order, sent[k].w, sent[k].h;
      var body, rest := OrderText(o, w, h), Frames(sent[k + 1..]);
      && ServerText(data, MESSAGE_BUFFER) == Got(Ascii(body), rest)
      && FromBytes(Ascii(body)) == body && |body| > 0 && BridgeControl.TypeOf(body) == TypeName(o.name)
      && BodyGestures(body) == OrderPlans(o)
      && ExtractJsonInt(body, "width", 1080) == w && ExtractJsonInt(body, "height", 2340) == h
      && Serving(sent, k + 1, rest)
  {
    var o, w, h := sent[k].order, sent[k].w, sent[k].h;
    FramesFrom(sent, k);
    assert |OrderText(o, w, h)| > 0;
    hide OrderText, Gestures, ExtractJsonInt, Render, Frames, ServerText;
    OrderArrives(o, w, h, sent[k].mask, Frames(sent[k + 1..]));
  }

  lemma NoMoreMessages(sent: seq<Sent>, data: seq<byte>)
    requires Serving(sent, |sent|, data)
    ensures ServerText(data, MESSAGE_BUFFER) == Failed
  {
    assert sent[|sent|..] == [];
  }

  /** The dispatcher on the text of an order, whatever becomes of its reports. */
  method CarryOut(hid: ServerHid, body: string, ghost m: Sent)
    requires BridgeControl.TypeOf(body) == TypeName(m.order.name) && BodyGestures(body) == OrderPlans(m.order)
    requires ExtractJsonInt(body, "width", 1080) == m.w && ExtractJsonInt(body, "height", 2340) == m.h
    requires hid.handle && hid.ready ==> PointFits(m)
    modifies hid`results, hid`log
    ensures CarriedOut(m, hid.handle && hid.ready, old(hid.results), old(hid.log), hid.results, hid.log)
  {
    hide ExtractJsonInt, RunAll, AllWell, AfterAll, Fits, BodyGestures, PointFits, OrderPlans;
    assert TypeName(m.order.name) != "swipe";
    if PointFits(m) { OrderFits(body, m, hid.results); }
    var ok := ExecuteTouchAction(hid, body);
    assert hid.log + [] == hid.log;
  }

  lemma OrderFits(body: string, m: Sent, results: seq<int>)
    requires BridgeControl.TypeOf(body) != "swipe" && BodyGestures(body) == OrderPlans(m.order) && PointFits(m)
    requires ExtractJsonInt(body, "width", 1080) == m.w && ExtractJsonInt(body, "height", 2340) == m.h
    ensures Fits(body, results)
  {
    hide ExtractJsonInt, BodyGestures, BridgeControl.TypeOf, AllOk, After;
    assert OrderPlans(m.order) == [] || OrderPlans(m.order)[1..] == [];
    assert PlansFit([], m.w, m.h, After(|Contacts(m.order)|, results));
    PlanFitsAll(Contacts(m.order), m.w, m.h, results);
  }

  lemma PlanFitsAll(plan: seq<Contact>, w: int, h: int, results: seq<int>)
    requires forall i | 0 <= i < |plan| :: ContactFits(plan[i], w, h)
    ensures PlanFits(plan, w, h, results)
  {
  }

  /** The loop body of serve_ws: a message is read and handed to the dispatcher; at the end the read fails. */
  method ServeNext(conn: TcpConnection, hid: ServerHid, message: array<byte>, ghost sent: seq<Sent>, ghost k: nat)
    returns (n: int, ghost k': nat)
    requires message.Length == MESSAGE_BUFFER && k <= |sent| && Serving(sent, k, conn.data)
    requires hid.handle && hid.ready ==> forall m | m in sent :: PointFits(m)
    modifies conn, message, hid`results, hid`log
    ensures n > 0 <==> k < |sent|
    ensures if k < |sent| then k' == k + 1 && Serving(sent, k', conn.data)
            else k' == k && hid.results == old(hid.results) && hid.log == old(hid.log)
    ensures k < |sent| ==>
      CarriedOut(sent[k], hid.handle && hid.ready, old(hid.results), old(hid.log), hid.results, hid.log)
  {
    if k < |sent| {
      NextMessage(sent, k, conn.data);
      assert sent[k] in sent;
    } else {
      NoMoreMessages(sent, conn.data);
    }
    hide OrderText, ExtractJsonInt, ServerText, Gestures, BodyGestures, TypeName, Serving, Frames;
    hide CarriedOut, PointFits, OrderPlans;
    k' := k;
    n := WebsocketReadText(conn, message);
    if n <= 0 { return; }
    CarryOut(hid, FromBytes(message[..n]), sent[k]);
    k' := k + 1;
  }

  /**
   * serve_ws: one message after another until the browser closes. The reports are those of the orders,
   * one by one, each of them consuming its results; so the finger ends up where they put it.
   */
  method ServeWs(conn: TcpConnection, hid: ServerHid, ghost sent: seq<Sent>)
    requires Framable(sent) && conn.data == Frames(sent)
    requires hid.handle && hid.ready ==> forall m | m in sent :: PointFits(m)
    modifies conn, hid`results, hid`log
    ensures if hid.handle && hid.ready then
        && hid.log == old(hid.log) + RunSent(sent, old(hid.results))
        && hid.results == AfterSent(sent, old(hid.results)) == OrdersUse(Orders(sent), old(hid.results))
        && Finger(hid.log) == OrdersMove(Orders(sent), old(hid.results), Finger(old(hid.log)))
      else hid.results == old(hid.results) && hid.log == old(hid.log)
  {
    hide Finger, Frames, Framable, Serving, Served, CarriedOut, PointFits, RunSent, AfterSent, OrdersMove, OrdersUse;
    var message := new byte[MESSAGE_BUFFER](_ => 0);
    ghost var k: nat := 0;
    ghost var live, results0, log0 := hid.handle && hid.ready, hid.results, hid.log;
    StartServing(sent, live, results0, log0);
    SentMoves(sent, results0, log0);
    while true
      invariant k <= |sent| && Serving(sent, k, conn.data)
      invariant Served(sent, k, live, results0, log0, hid.results, hid.log)
      decreases |sent| - k
    {
      ghost var at, results, log := k, hid.results, hid.log;
      var n;
      n, k := ServeNext(conn, hid, message, sent, k);
      if n <= 0 { break; }
      ServedOne(sent, at, live, results0, log0, results, log, hid.results, hid.log);
    }
    ServedAll(sent, live, results0, log0, hid.results, hid.log);
  }

  /**
   * From the page to the phone: after any run of pointer events that keeps page and phone in step,
   * once the server has carried out what the page sent and every report went through, the phone has
   * had exactly the reports of the page's orders, and it sees a contact exactly when the page is dragging.
   */
  method PageDrivesFinger(ghost inputs: seq<Pointer.Input>, conn: TcpConnection, hid: ServerHid, ghost sent: seq<Sent>)
    requires Pointer.Harmless(inputs) && Orders(sent) == Pointer.Log(inputs)
    requires Framable(sent) && conn.data == Frames(sent) && forall m | m in sent :: PointFits(m)
    requires hid.handle && hid.ready && hid.log == [] && AllOk(AllReports(Orders(sent)), hid.results)
    modifies conn, hid`results, hid`log
    ensures hid.log == AllReported(sent)
    ensures Finger(hid.log) == Pointer.PageAfter(inputs).downSent
  {
    Pointer.HarmlessRun(inputs);
    OrdersBelieved(Orders(sent), hid.results, false);
    SentReported(sent, hid.results);
    assert !Finger(hid.log);
    hide Finger, AllOk, Frames, AllReports, Orders, OrdersMove, OrdersUse, PointFits, RunSent, AllReported, AfterSent;
    ServeWs(conn, hid, sent);
  }
}
