/**
 * A touch command from the browser to the phone: a masked WebSocket frame to Windows, a line over
 * TCP to the bridge, HID reports from there.
 */
module ControlPath {
  import opened Bytes
  import opened WinReceiver
  import opened WebSocket
  import opened WebSocketIo
  import opened JsonText
  import opened Command
  import opened BridgeControl

  /** Hub.send_control: one line on a connection of its own. */
  function ControlLine(message: seq<byte>): (line: seq<byte>) { message + [NEWLINE] }

  /** ASCII keys and type, so that the rendering is ASCII and holds no line break. */
  ghost predicate Printable(ms: seq<Member>) {
    forall m | m in ms :: Visible(m.key) && (m.value.Text? ==> Visible(m.value.t))
  }

  predicate Visible(s: string) { forall c | c in s :: 32 <= c as int < 127 }

  lemma RenderVisible(ms: seq<Member>)
    requires Printable(ms)
    ensures Visible(Render(ms))
  {
    MembersVisible(ms);
  }

  lemma MembersVisible(ms: seq<Member>)
    requires Printable(ms)
    ensures Visible(Members(ms))
  {
    if ms != [] {
      assert ms[0] in ms;
      MembersVisible(ms[1..]);
      assert Visible(Literal(ms[0].value)) by { if ms[0].value.Int? { assert Visible(Decimal(ms[0].value.v)); } }
      hide Literal;
      assert Visible([QUOTE]) && Visible(":");
    }
  }

  /** The path of a message from the browser's socket to the bridge's line buffer. */
  method Deliver(frame: seq<byte>, sizes: seq<nat>, lineSizes: seq<nat>) returns (body: seq<byte>)
    ensures match WindowsText(frame)
            case Got(text, _) => body == Line(ControlLine(text), LINE_BUFFER - 1)
            case _ => body == []
  {
    var browser := new TcpConnection(frame, sizes);
    var text := WindowsReadText(browser);
    if text.None? { return []; }
    var bridge := new TcpConnection(ControlLine(text.value), lineSizes);
    var buf := new byte[LINE_BUFFER](_ => 0);
    var pos := ReadLine(bridge, buf);
    body := buf[..pos];
  }

  /** The text that reaches the bridge for a message: the message itself up to 4095 bytes. */
  lemma DeliveredText(s: text, mask: seq<byte>, rest: seq<byte>)
    requires |mask| == 4 && |s| < LINE_BUFFER && '\n' !in s
    ensures WindowsText(ClientFrame(Ascii(s), mask) + rest) == Got(Ascii(s), rest)
    ensures FromBytes(Line(ControlLine(Ascii(s)), LINE_BUFFER - 1)) == s
  {
    ClientFrameIsRead(Ascii(s), mask, rest, LINE_BUFFER);
    assert NEWLINE !in Ascii(s) by {
      forall i | 0 <= i < |s|
        ensures Ascii(s)[i] != NEWLINE
      {
        assert s[i] in s;
      }
    }
    LineReadsBack(Ascii(s), [], LINE_BUFFER - 1);
    assert Ascii(s) + [NEWLINE] + [] == ControlLine(Ascii(s));
    AsciiReadsBack(s);
  }

  /**
   * The whole control path: a command in compact JSON, under any mask and whatever follows it, is
   * interpreted by the bridge as the type and field values the browser put in.
   */
  lemma CommandArrives(ms: seq<Member>, name: string, mask: seq<byte>, rest: seq<byte>)
    requires CommandForm(ms, name) && Printable(ms) && |mask| == 4 && |Render(ms)| < LINE_BUFFER
    ensures Visible(Render(ms))
    ensures WindowsText(ClientFrame(Ascii(Render(ms)), mask) + rest) == Got(Ascii(Render(ms)), rest)
    ensures Interpret(FromBytes(Line(ControlLine(Ascii(Render(ms))), LINE_BUFFER - 1)))
      == Meaning(name, (k, def) => IntField(ms, k, def))
  {
    RenderVisible(ms);
    DeliveredText(Render(ms), mask, rest);
    CommandRecovered(ms, name);
  }
  /** And so it becomes the reports that the browser's command names, when all of them go through. */
  lemma CommandReachesPhone(ms: seq<Member>, name: string, mask: seq<byte>, rest: seq<byte>, a: Attempts)
    requires CommandForm(ms, name) && Printable(ms) && |mask| == 4 && |Render(ms)| < LINE_BUFFER
    requires AllSucceed(Making(name, IntField(ms, "duration", 300)), a)
    ensures Visible(Render(ms))
    ensures WindowsText(ClientFrame(Ascii(Render(ms)), mask) + rest) == Got(Ascii(Render(ms)), rest)
    ensures var body := FromBytes(Line(ControlLine(Ascii(Render(ms))), LINE_BUFFER - 1));
      var log, w, h := Performed(body, a), IntField(ms, "width", 1080), IntField(ms, "height", 2340);
      if name == "swipe" then
        SaysSwipe(log, IntField(ms, "x1", 0), IntField(ms, "y1", 0), IntField(ms, "x2", 0), IntField(ms, "y2", 0),
                  Making(name, IntField(ms, "duration", 300)), w, h)
      else SaysPoint(name, log, IntField(ms, "x", 0), IntField(ms, "y", 0), w, h)
  {
    RenderVisible(ms);
    DeliveredText(Render(ms), mask, rest);
    hide SaysSwipe, SaysPoint, Performed, Render, IntField;
    CommandSends(ms, name, a);
  }
}
