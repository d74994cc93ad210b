/** The pointer handling of the page that aoa_h264server.c serves, and the phone contact it drives. */
module Pointer {
  import opened Bytes

  datatype Point = Point(x: int, y: int)

  datatype Name = CursorTo | DownAt | MoveTo | UpAt | TapAt
  datatype Order = Order(name: Name, at: Point)

  datatype Event =
    | Enter(at: Point)
    | Move(id: int, at: Point, now: int)
    | Timer
    | Down(button: int, id: int, at: Point)
    | Up(id: int, at: Point)
    | Cancel(id: int, at: Point)

  datatype Page = Page(
    active: bool, activeId: Option<int>, downPoint: Option<Point>, lastPoint: Option<Point>,
    lastMoveTime: int, lastCursorTime: int, dragging: bool, downSent: bool, timerArmed: bool)

  const START := Page(false, None, None, None, 0, 0, false, false, false)

  const MOVE_THRESHOLD := 10
  const MOVE_INTERVAL := 16
  const CURSOR_INTERVAL := 50

  /** dist(a, b) >= MOVE_THRESHOLD, squared. */
  predicate FarFrom(a: Point, b: Point) {
    (a.x - b.x) * (a.x - b.x) + (a.y - b.y) * (a.y - b.y) >= MOVE_THRESHOLD * MOVE_THRESHOLD
  }

  // ---------- the listeners as functions ----------

  datatype Turn = Turn(page: Page, orders: seq<Order>)

  function StartDrag(pg: Page): (t: Turn) {
    if !pg.active || pg.downPoint.None? || pg.downSent then Turn(pg, [])
    else Turn(pg.(dragging := true, downSent := true), [Order(DownAt, pg.downPoint.value)])
  }

  function MaybeCursor(pg: Page, at: Point, now: int): (t: Turn) {
    if now - pg.lastCursorTime >= CURSOR_INTERVAL then Turn(pg.(lastCursorTime := now), [Order(CursorTo, at)])
    else Turn(pg, [])
  }

  function Released(pg: Page): (r: Page) {
    pg.(active := false, activeId := None, downPoint := None, lastPoint := None, dragging := false,
        downSent := false, timerArmed := false)
  }

  function HandleMove(pg: Page, e: Event): (t: Turn)
    requires e.Move?
  {
    if !pg.active then MaybeCursor(pg, e.at, e.now)
    else if pg.activeId != Some(e.id) then Turn(pg, [])
    else
      var seen := pg.(lastPoint := Some(e.at));
      var started :=
        if !seen.dragging && seen.downPoint.Some? && FarFrom(e.at, seen.downPoint.value)
        then StartDrag(seen.(timerArmed := false)) else Turn(seen, []);
      var p := started.page;
      if p.dragging then
        if e.now - p.lastMoveTime < MOVE_INTERVAL then started
        else Turn(p.(lastMoveTime := e.now), started.orders + [Order(MoveTo, e.at)])
      else
        var c := MaybeCursor(p, e.at, e.now);
        Turn(c.page, started.orders + c.orders)
  }

  function Handle(pg: Page, e: Event): (t: Turn) {
    match e
    case Enter(at) => Turn(pg, [Order(CursorTo, at)])
    case Move(_, _, _) => HandleMove(pg, e)
    case Timer => if pg.timerArmed then StartDrag(pg.(timerArmed := false)) else Turn(pg, [])
    case Down(button, id, at) =>
      if button != 0 then Turn(pg, [])
      else Turn(pg.(active := true, activeId := Some(id), downPoint := Some(at), lastPoint := Some(at),
                    lastMoveTime := 0, dragging := false, downSent := false, timerArmed := true), [])
    case Up(id, at) =>
      if !pg.active || pg.activeId != Some(id) then Turn(pg, [])
      else Turn(Released(pg), [Order(if pg.dragging || pg.downSent then UpAt else TapAt, at)])
    case Cancel(id, at) =>
      if !pg.active || pg.activeId != Some(id) then Turn(pg, [])
      else
        var p :=
          if pg.lastPoint.Some? then pg.lastPoint.value
          else if pg.downPoint.Some? then pg.downPoint.value
          else at;
        Turn(Released(pg), if pg.dragging || pg.downSent then [Order(UpAt, p)] else [])
  }

  // ---------- runs ----------

  /** An event, and whether the control socket is open for what it sends. */
  datatype Input = Input(event: Event, ready: bool)

  function PageAfter(inputs: seq<Input>): (pg: Page) {
    if inputs == [] then START else Handle(PageAfter(Front(inputs)), Last(inputs).event).page
  }

  function SentBy(pg: Page, input: Input): (orders: seq<Order>) {
    if input.ready then Handle(pg, input.event).orders else []
  }

  /** Everything the page has sent. */
  function Log(inputs: seq<Input>): (orders: seq<Order>) {
    if inputs == [] then [] else Log(Front(inputs)) + SentBy(PageAfter(Front(inputs)), Last(inputs))
  }

  /** Whether the finger is down on the phone once an order has been carried out. */
  function ContactAfter(down: bool, o: Order): (b: bool) {
    match o.name
    case CursorTo => down
    case DownAt => true
    case MoveTo => true
    case UpAt => false
    case TapAt => false
  }

  function Contact(down: bool, orders: seq<Order>): (b: bool) {
    if orders == [] then down else ContactAfter(Contact(down, orders[..|orders| - 1]), orders[|orders| - 1])
  }

  /** Downs and ups alternate, moves lie between a down and its up, taps outside. */
  predicate Legal(down: bool, o: Order) {
    match o.name
    case CursorTo => true
    case DownAt => !down
    case MoveTo => down
    case UpAt => down
    case TapAt => !down
  }

  predicate AllLegal(down: bool, orders: seq<Order>) {
    orders == [] ||
    (AllLegal(down, orders[..|orders| - 1]) && Legal(Contact(down, orders[..|orders| - 1]), orders[|orders| - 1]))
  }

  lemma ContactSplit(down: bool, a: seq<Order>, b: seq<Order>)
    ensures Contact(down, a + b) == Contact(Contact(down, a), b)
    ensures AllLegal(down, a + b) <==> AllLegal(down, a) && AllLegal(Contact(down, a), b)
  {
    if b == [] {
      assert a + b == a;
    } else {
      ContactSplit(down, a, b[..|b| - 1]);
      assert (a + b)[..|a + b| - 1] == a + b[..|b| - 1];
    }
  }

  // ---------- the press, from the events alone ----------

  /** The press under way: its pointer, where it began, and whether it has become a drag. */
  datatype Press = NoPress | Pressed(id: int, at: Point, dragged: bool)

  function NextPress(p: Press, e: Event): (p': Press) {
    match e
    case Enter(_) => p
    case Move(id, at, _) => if p.Pressed? && p.id == id && FarFrom(at, p.at) then p.(dragged := true) else p
    case Timer => if p.Pressed? then p.(dragged := true) else p
    case Down(button, id, at) => if button == 0 then Pressed(id, at, false) else p
    case Up(id, _) => if p.Pressed? && p.id == id then NoPress else p
    case Cancel(id, _) => if p.Pressed? && p.id == id then NoPress else p
  }

  function PressAfter(inputs: seq<Input>): (p: Press) {
    if inputs == [] then NoPress else NextPress(PressAfter(Front(inputs)), Last(inputs).event)
  }

  /**
   * An input that parts page and phone: another press during a drag; with the socket closed, what
   * turns a press into a drag, or what ends a drag.
   */
  predicate Harmful(p: Press, input: Input) {
    match input.event
    case Enter(_) => false
    case Move(id, at, _) => !input.ready && p.Pressed? && p.id == id && !p.dragged && FarFrom(at, p.at)
    case Timer => !input.ready && p.Pressed? && !p.dragged
    case Down(button, _, _) => button == 0 && p.Pressed? && p.dragged
    case Up(id, _) => !input.ready && p.Pressed? && p.id == id && p.dragged
    case Cancel(id, _) => !input.ready && p.Pressed? && p.id == id && p.dragged
  }

  /** The page keeps the press in its variables; the timer is armed until the press becomes a drag. */
  predicate Coherent(pg: Page, p: Press) {
    && pg.dragging == pg.downSent == (p.Pressed? && p.dragged)
    && pg.active == p.Pressed?
    && pg.timerArmed == (p.Pressed? && !p.dragged)
    && (p.Pressed? ==> pg.activeId == Some(p.id) && pg.downPoint == Some(p.at))
  }

  lemma TwoOrders(down: bool, o: Order, p: Order)
    ensures Contact(down, [o]) == ContactAfter(down, o) && (AllLegal(down, [o]) <==> Legal(down, o))
    ensures Contact(down, [o, p]) == ContactAfter(ContactAfter(down, o), p)
    ensures AllLegal(down, [o, p]) <==> Legal(down, o) && Legal(ContactAfter(down, o), p)
  {
    assert [o][..0] == [] && [o, p][..1] == [o];
  }

  lemma CoherentTurn(pg: Page, p: Press, e: Event)
    requires Coherent(pg, p)
    ensures Coherent(Handle(pg, e).page, NextPress(p, e))
  {
  }

  /** The page's variables follow the press in every run, whatever the socket does. */
  lemma {:induction false} AlwaysCoherent(inputs: seq<Input>)
    ensures Coherent(PageAfter(inputs), PressAfter(inputs))
  {
    if inputs != [] {
      AlwaysCoherent(Front(inputs));
      CoherentTurn(PageAfter(Front(inputs)), PressAfter(Front(inputs)), Last(inputs).event);
    }
  }

  /** What one turn sends, by whether a drag was under way before and is after. */
  lemma TurnOrders(pg: Page, p: Press, e: Event)
    requires Coherent(pg, p)
    ensures var t := Handle(pg, e);
      var os := t.orders;
      && |os| <= 2
      && (os == [] ==> t.page.downSent == pg.downSent || (e.Down? && e.button == 0 && pg.downSent))
      && (|os| == 1 ==>
        match os[0].name
        case CursorTo => t.page.downSent == pg.downSent
        case DownAt => !pg.downSent && t.page.downSent
        case MoveTo => pg.downSent && t.page.downSent
        case UpAt => pg.downSent && !t.page.downSent
        case TapAt => !pg.downSent && !t.page.downSent)
      && (|os| == 2 ==> os[0].name == DownAt && os[1].name == MoveTo && !pg.downSent && t.page.downSent)
      && (os != [] ==> !e.Down?)
  {
  }

  /** An order matters exactly if it begins or ends a drag; a closed socket drops it in a harmful turn. */
  lemma DroppedOrders(pg: Page, p: Press, input: Input)
    requires Coherent(pg, p) && !input.ready
    ensures Harmful(p, input) <==> Handle(pg, input.event).page.downSent != pg.downSent
                                   || (input.event.Down? && input.event.button == 0 && pg.downSent)
  {
  }

  /** A harmless turn sends only what the contact allows and leaves page and phone in step. */
  lemma HarmlessTurn(pg: Page, p: Press, input: Input)
    requires Coherent(pg, p) && !Harmful(p, input)
    ensures AllLegal(pg.downSent, SentBy(pg, input))
    ensures Contact(pg.downSent, SentBy(pg, input)) == Handle(pg, input.event).page.downSent
  {
    TurnOrders(pg, p, input.event);
    if !input.ready {
      DroppedOrders(pg, p, input);
      return;
    }
    var os := Handle(pg, input.event).orders;
    assert input.event.Down? && input.event.button == 0 ==> !pg.downSent;
    hide Handle, Harmful;
    if |os| == 1 {
      assert os == [os[0]];
      TwoOrders(pg.downSent, os[0], os[0]);
    } else if |os| == 2 {
      assert os == [os[0], os[1]];
      TwoOrders(pg.downSent, os[0], os[1]);
    }
  }

  /** A harmful turn leaves them apart. */
  lemma HarmfulTurn(pg: Page, p: Press, input: Input)
    requires Coherent(pg, p) && Harmful(p, input)
    ensures Contact(pg.downSent, SentBy(pg, input)) != Handle(pg, input.event).page.downSent
  {
    if !input.ready { DroppedOrders(pg, p, input); }
  }

  ghost predicate Harmless(inputs: seq<Input>) {
    inputs == [] || (Harmless(Front(inputs)) && !Harmful(PressAfter(Front(inputs)), Last(inputs)))
  }

  /** The page's idea of the contact is the phone's. */
  predicate InStep(inputs: seq<Input>) {
    PageAfter(inputs).downSent == Contact(false, Log(inputs))
  }

  /**
   * In every harmless run downs and ups alternate, moves lie between a down and its up, taps come
   * only while released, and dragging, downSent and the phone's contact are one and the same.
   */
  lemma {:induction false} HarmlessRun(inputs: seq<Input>)
    requires Harmless(inputs)
    ensures AllLegal(false, Log(inputs)) && InStep(inputs)
    ensures PageAfter(inputs).dragging == PageAfter(inputs).downSent
  {
    AlwaysCoherent(inputs);
    if inputs != [] {
      var front := Front(inputs);
      HarmlessRun(front);
      AlwaysCoherent(front);
      HarmlessTurn(PageAfter(front), PressAfter(front), Last(inputs));
      ContactSplit(false, Log(front), SentBy(PageAfter(front), Last(inputs)));
    }
  }

  lemma LastTurnDecides(inputs: seq<Input>)
    requires inputs != [] && Harmless(Front(inputs))
    ensures InStep(inputs) <==> !Harmful(PressAfter(Front(inputs)), Last(inputs))
  {
    var front, last := Front(inputs), Last(inputs);
    var pg, p := PageAfter(front), PressAfter(front);
    HarmlessRun(front);
    AlwaysCoherent(front);
    ContactSplit(false, Log(front), SentBy(pg, last));
    if Harmful(p, last) { HarmfulTurn(pg, p, last); } else { HarmlessTurn(pg, p, last); }
    hide Harmful, Handle, Coherent;
  }

  ghost predicate AlwaysInStep(inputs: seq<Input>) {
    forall k | 0 <= k <= |inputs| :: InStep(inputs[..k])
  }

  lemma PrefixesOf(inputs: seq<Input>)
    requires inputs != []
    ensures AlwaysInStep(inputs) <==> AlwaysInStep(Front(inputs)) && InStep(inputs)
  {
    hide InStep;
    var front := Front(inputs);
    assert inputs[..|inputs|] == inputs;
    assert forall k | 0 <= k <= |front| :: front[..k] == inputs[..k];
  }

  /** Page and phone stay in step through a whole run exactly when the run is harmless. */
  lemma {:induction false} InStepIffHarmless(inputs: seq<Input>)
    ensures AlwaysInStep(inputs) <==> Harmless(inputs)
  {
    if inputs == [] {
      assert InStep([]);
    } else {
      InStepIffHarmless(Front(inputs));
      PrefixesOf(inputs);
      hide InStep, Harmful, AlwaysInStep;
      if Harmless(Front(inputs)) { LastTurnDecides(inputs); }
    }
  }

  // ---------- what is sent, and where it points ----------

  function DistanceSquared(a: Point, b: Point): (d: int) {
    var dx, dy := b.x - a.x, b.y - a.y;
    dx * dx + dy * dy
  }

  /** At least ten pixels apart. */
  lemma FarIff(a: Point, b: Point)
    ensures FarFrom(a, b) <==> DistanceSquared(a, b) >= 100
  {
    SameSquare(a.x, b.x);
    SameSquare(a.y, b.y);
  }

  lemma SameSquare(a: int, b: int)
    ensures (a - b) * (a - b) == (b - a) * (b - a)
  {
  }

  /** Where the pointer of the press under way was seen last. */
  function LastSeen(inputs: seq<Input>): (at: Option<Point>) {
    if inputs == [] then None
    else
      var p := PressAfter(Front(inputs));
      match Last(inputs).event
      case Down(button, _, at) => if button == 0 then Some(at) else LastSeen(Front(inputs))
      case Move(id, at, _) => if p.Pressed? && p.id == id then Some(at) else LastSeen(Front(inputs))
      case _ => LastSeen(Front(inputs))
  }

  lemma {:induction false} LastSeenRight(inputs: seq<Input>)
    ensures PressAfter(inputs).Pressed? ==> LastSeen(inputs).Some? && PageAfter(inputs).lastPoint == LastSeen(inputs)
  {
    if inputs != [] {
      LastSeenRight(Front(inputs));
      AlwaysCoherent(Front(inputs));
      hide FarFrom;
    }
  }

  /** When the press last moved the finger, or 0; when a move last moved the cursor. */
  function MoveTime(inputs: seq<Input>): (t: int) {
    if inputs == [] then 0
    else
      var e, before := Last(inputs).event, Front(inputs);
      if e.Down? && e.button == 0 then 0
      else if e.Move? && Order(MoveTo, e.at) in Handle(PageAfter(before), e).orders then e.now
      else MoveTime(before)
  }

  function CursorTime(inputs: seq<Input>): (t: int) {
    if inputs == [] then 0
    else
      var e, before := Last(inputs).event, Front(inputs);
      if e.Move? && Order(CursorTo, e.at) in Handle(PageAfter(before), e).orders then e.now else CursorTime(before)
  }

  lemma {:induction false} TimesRight(inputs: seq<Input>)
    ensures PageAfter(inputs).lastMoveTime == MoveTime(inputs)
    ensures PageAfter(inputs).lastCursorTime == CursorTime(inputs)
  {
    if inputs != [] {
      TimesRight(Front(inputs));
      hide FarFrom, PageAfter, MoveTime, CursorTime;
      TimesOfTurn(PageAfter(Front(inputs)), Last(inputs).event);
      UnfoldTimes(inputs);
    }
  }

  lemma TimesOfTurn(pg: Page, e: Event)
    ensures var t := Handle(pg, e);
      && t.page.lastMoveTime == (if e.Down? && e.button == 0 then 0
                                 else if e.Move? && Order(MoveTo, e.at) in t.orders then e.now else pg.lastMoveTime)
      && t.page.lastCursorTime == (if e.Move? && Order(CursorTo, e.at) in t.orders then e.now else pg.lastCursorTime)
  {
    hide FarFrom;
  }

  lemma UnfoldTimes(inputs: seq<Input>)
    requires inputs != []
    ensures var e, before := Last(inputs).event, Front(inputs);
      var t := Handle(PageAfter(before), e);
      && PageAfter(inputs) == t.page
      && MoveTime(inputs) == (if e.Down? && e.button == 0 then 0
                              else if e.Move? && Order(MoveTo, e.at) in t.orders then e.now else MoveTime(before))
      && CursorTime(inputs) == (if e.Move? && Order(CursorTo, e.at) in t.orders then e.now else CursorTime(before))
  {
    hide Handle;
  }

  /**
   * Exactly what an event makes the page send, whatever came before: a down at the point where the
   * press began, once it has moved ten pixels or lasted; moves and ups at the event's point, at most
   * every 16 milliseconds for moves; an up for a cancelled drag where the pointer was last seen; a
   * tap at the point of release; cursor positions at most every 50 milliseconds.
   */
  lemma SaidByEvent(inputs: seq<Input>, e: Event)
    ensures var p, os := PressAfter(inputs), Handle(PageAfter(inputs), e).orders;
      match e
      case Enter(at) => os == [Order(CursorTo, at)]
      case Timer => os == if p.Pressed? && !p.dragged then [Order(DownAt, p.at)] else []
      case Down(_, _, _) => os == []
      case Up(id, at) => os == if p.Pressed? && p.id == id then [Order(if p.dragged then UpAt else TapAt, at)] else []
      case Cancel(id, _) =>
        if p.Pressed? && p.id == id && p.dragged
        then LastSeen(inputs).Some? && os == [Order(UpAt, LastSeen(inputs).value)] else os == []
      case Move(id, at, now) =>
        if p.Pressed? && p.id != id then os == []
        else
          var starts := p.Pressed? && !p.dragged && DistanceSquared(at, p.at) >= 100;
          os == (if starts then [Order(DownAt, p.at)] else [])
                + if p.Pressed? && (p.dragged || starts)
                  then if now - MoveTime(inputs) >= 16 then [Order(MoveTo, at)] else []
                  else if now - CursorTime(inputs) >= 50 then [Order(CursorTo, at)] else []
  {
    hide FarFrom, DistanceSquared, LastSeen, MoveTime, CursorTime, PressAfter, PageAfter;
    AlwaysCoherent(inputs);
    LastSeenRight(inputs);
    TimesRight(inputs);
    if e.Move? && PressAfter(inputs).Pressed? { FarIff(e.at, PressAfter(inputs).at); }
  }

  // ---------- well-behaved runs, and two that are not ----------

  /** The pointer whose primary press has not been released or cancelled yet. */
  function OpenPointer(inputs: seq<Input>): (id: Option<int>) {
    if inputs == [] then None
    else
      var open := OpenPointer(Front(inputs));
      match Last(inputs).event
      case Down(button, id, _) => if button == 0 then Some(id) else open
      case Up(id, _) => if open == Some(id) then None else open
      case Cancel(id, _) => if open == Some(id) then None else open
      case _ => open
  }

  /** Every primary press is closed before the next one. */
  ghost predicate Bracketed(inputs: seq<Input>) {
    inputs == []
    || (Bracketed(Front(inputs))
        && (Last(inputs).event.Down? && Last(inputs).event.button == 0 ==> OpenPointer(Front(inputs)) == None))
  }

  ghost predicate AllSent(inputs: seq<Input>) { forall i | 0 <= i < |inputs| :: inputs[i].ready }

  lemma {:induction false} OpenIsPressed(inputs: seq<Input>)
    ensures OpenPointer(inputs) == if PressAfter(inputs).Pressed? then Some(PressAfter(inputs).id) else None
  {
    if inputs != [] { OpenIsPressed(Front(inputs)); }
  }

  /** Bracketed presses with the socket open keep the page and the phone in step. */
  lemma {:induction false} BracketedRun(inputs: seq<Input>)
    requires Bracketed(inputs) && AllSent(inputs)
    ensures Harmless(inputs) && AllLegal(false, Log(inputs)) && AlwaysInStep(inputs)
    ensures PageAfter(inputs).dragging == PageAfter(inputs).downSent == Contact(false, Log(inputs))
  {
    if inputs != [] {
      var front := Front(inputs);
      BracketedRun(front);
      OpenIsPressed(front);
      assert Last(inputs).ready;
      assert !Harmful(PressAfter(front), Last(inputs));
    }
    HarmlessRun(inputs);
    InStepIffHarmless(inputs);
    hide Harmful, Handle;
  }

  /** A run of three inputs from the start. */
  lemma ThreeInputs(a: Input, b: Input, c: Input)
    ensures PressAfter([a, b]) == NextPress(NextPress(NoPress, a.event), b.event)
    ensures Harmless([a, b]) <==> !Harmful(NoPress, a) && !Harmful(NextPress(NoPress, a.event), b)
    ensures Front([a, b, c]) == [a, b]
  {
    assert Front([a, b, c]) == [a, b] && Front([a, b]) == [a] && Front([a]) == [];
    assert PressAfter([]) == NoPress && PressAfter([a]) == NextPress(NoPress, a.event);
    assert Harmless([a]) <==> !Harmful(NoPress, a);
    hide NextPress, Harmful;
  }

  /** A second pointer pressed during a long-press drag: the page forgets a finger that is still down. */
  lemma SecondPressParts(at: Point)
    ensures !InStep([Input(Down(0, 1, at), true), Input(Timer, true), Input(Down(0, 2, at), true)])
  {
    var a, b, c := Input(Down(0, 1, at), true), Input(Timer, true), Input(Down(0, 2, at), true);
    ThreeInputs(a, b, c);
    LastTurnDecides([a, b, c]);
  }

  /** The release of a long-press drag, dropped by a closed socket: the finger stays down on the phone. */
  lemma DroppedUpParts(at: Point)
    ensures !InStep([Input(Down(0, 1, at), true), Input(Timer, true), Input(Up(1, at), false)])
  {
    var a, b, c := Input(Down(0, 1, at), true), Input(Timer, true), Input(Up(1, at), false);
    ThreeInputs(a, b, c);
    LastTurnDecides([a, b, c]);
  }

  // ---------- the listeners ----------

  /** The variables of the page's script, and what it has sent. */
  class PointerPage {
    var active: bool
    var activeId: Option<int>
    var downPoint: Option<Point>
    var lastPoint: Option<Point>
    var lastMoveTime: int
    var lastCursorTime: int
    var dragging: bool
    var downSent: bool
    var timerArmed: bool
    var sent: seq<Order>

    function View(): (pg: Page)
      reads this
    {
      Page(active, activeId, downPoint, lastPoint, lastMoveTime, lastCursorTime, dragging, downSent, timerArmed)
    }

    constructor ()
      ensures View() == START && sent == []
    {
      active, activeId, downPoint, lastPoint := false, None, None, None;
      lastMoveTime, lastCursorTime, dragging, downSent, timerArmed, sent := 0, 0, false, false, false, [];
    }

    method Send(name: Name, at: Point, ready: bool)
      modifies this`sent
      ensures sent == old(sent) + if ready then [Order(name, at)] else []
    {
      if ready { sent := sent + [Order(name, at)]; }
    }

    method BeginDrag(ready: bool)
      modifies this
      ensures View() == StartDrag(old(View())).page
      ensures sent == old(sent) + if ready then StartDrag(old(View())).orders else []
    {
      if !active || downPoint.None? || downSent { return; }
      dragging := true;
      downSent := true;
      Send(DownAt, downPoint.value, ready);
    }

    method SendCursorSometimes(at: Point, now: int, ready: bool)
      modifies this
      ensures View() == MaybeCursor(old(View()), at, now).page
      ensures sent == old(sent) + if ready then MaybeCursor(old(View()), at, now).orders else []
    {
      if now - lastCursorTime >= CURSOR_INTERVAL {
        lastCursorTime := now;
        Send(CursorTo, at, ready);
      }
    }

    method OnPointerMove(id: int, at: Point, now: int, ready: bool)
      modifies this
      ensures View() == Handle(old(View()), Move(id, at, now)).page
      ensures sent == old(sent) + SentBy(old(View()), Input(Move(id, at, now), ready))
    {
      if !active {
        SendCursorSometimes(at, now, ready);
        return;
      }
      if activeId != Some(id) { return; }
      lastPoint := Some(at);
      if !dragging && downPoint.Some? && FarFrom(at, downPoint.value) {
        timerArmed := false;
        BeginDrag(ready);
      }
      if dragging {
        if now - lastMoveTime < MOVE_INTERVAL { return; }
        lastMoveTime := now;
        Send(MoveTo, at, ready);
      } else {
        SendCursorSometimes(at, now, ready);
      }
    }

    method OnTimer(ready: bool)
      modifies this
      ensures View() == Handle(old(View()), Timer).page
      ensures sent == old(sent) + SentBy(old(View()), Input(Timer, ready))
    {
      if timerArmed {
        timerArmed := false;
        BeginDrag(ready);
      }
    }

    method OnPointerDown(button: int, id: int, at: Point, ready: bool)
      modifies this
      ensures View() == Handle(old(View()), Down(button, id, at)).page
      ensures sent == old(sent) + SentBy(old(View()), Input(Down(button, id, at), ready))
    {
      if button != 0 { return; }
      active, activeId, downPoint, lastPoint := true, Some(id), Some(at), Some(at);
      lastMoveTime, dragging, downSent, timerArmed := 0, false, false, true;
    }

    method Reset()
      modifies this
      ensures View() == Released(old(View())) && sent == old(sent)
    {
      active, activeId, downPoint, lastPoint := false, None, None, None;
      dragging, downSent, timerArmed := false, false, false;
    }

    method OnPointerUp(id: int, at: Point, ready: bool)
      modifies this
      ensures View() == Handle(old(View()), Up(id, at)).page
      ensures sent == old(sent) + SentBy(old(View()), Input(Up(id, at), ready))
    {
      if !active || activeId != Some(id) { return; }
      if dragging || downSent { Send(UpAt, at, ready); } else { Send(TapAt, at, ready); }
      Reset();
    }

    method OnPointerCancel(id: int, at: Point, ready: bool)
      modifies this
      ensures View() == Handle(old(View()), Cancel(id, at)).page
      ensures sent == old(sent) + SentBy(old(View()), Input(Cancel(id, at), ready))
    {
      if !active || activeId != Some(id) { return; }
      var p := if lastPoint.Some? then lastPoint.value else if downPoint.Some? then downPoint.value else at;
      if dragging || downSent { Send(UpAt, p, ready); }
      Reset();
    }
  }
}
