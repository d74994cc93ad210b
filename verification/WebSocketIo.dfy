/** The frame code of the two servers, step by step, against the framing functions. */
module WebSocketIo {
  import opened Bytes
  import opened WebSocket
  import opened WinReceiver

  /** The four shifts of a 32-bit word. */
  lemma ShiftedBytes(v: nat)
    requires v < TWO_32
    ensures WriteBe32(v) == [v / 0x1000000, v / 0x10000 % 256, v / 0x100 % 256, v % 256]
  {
    var p := WriteBe32(v);
    var a, b, c, d := p[0] as int, p[1] as int, p[2] as int, p[3] as int;
    assert v == a * 0x1000000 + b * 0x10000 + c * 0x100 + d;
    hide WriteBe32;
    AboveByte(a * 0x10000 + b * 0x100 + c, d);
    AboveWord(a * 0x100 + b, c * 0x100 + d);
    AboveThree(a, b * 0x10000 + c * 0x100 + d);
    AboveByte(a * 0x100 + b, c);
    AboveByte(a, b);
  }

  lemma AboveByte(hi: nat, lo: nat)
    requires lo < 0x100
    ensures (hi * 0x100 + lo) / 0x100 == hi && (hi * 0x100 + lo) % 0x100 == lo
  {
  }

  lemma AboveWord(hi: nat, lo: nat)
    requires lo < 0x10000
    ensures (hi * 0x10000 + lo) / 0x10000 == hi
  {
  }

  lemma AboveThree(hi: nat, lo: nat)
    requires lo < 0x1000000
    ensures (hi * 0x1000000 + lo) / 0x1000000 == hi
  {
  }

  /** write_be32_to_buf */
  method PutBe32(p: array<byte>, at: nat, v: nat)
    requires v < TWO_32 && at + 4 <= p.Length
    modifies p
    ensures p[..at + 4] == old(p[..at]) + WriteBe32(v)
  {
    ShiftedBytes(v);
    p[at] := v / 0x1000000;
    p[at + 1] := v / 0x10000 % 256;
    p[at + 2] := v / 0x100 % 256;
    p[at + 3] := v % 256;
  }

  /** websocket_send_binary_frame: the header it builds; the payload follows it unchanged. */
  method FrameHeader(len: nat) returns (hdr: array<byte>, hdrLen: nat)
    requires len < MAX_SIZE
    ensures fresh(hdr) && hdrLen <= hdr.Length == 10
    ensures hdr[..hdrLen] == [BINARY] + LengthField(len, 0)
  {
    hdr := new byte[10](_ => 0);
    hdr[0] := 0x82;
    if len < 126 {
      hdr[1] := len;
      hdrLen := 2;
    } else if len <= 65535 {
      hdr[1] := 126;
      hdr[2] := len / 0x100 % 256;
      hdr[3] := len % 256;
      hdrLen := 4;
    } else {
      hdr[1] := 127;
      assert hdr[..2] == [BINARY, 127];
      hide WriteBe32;
      // shifting by 56, 48, 40 and 32 shifts the high word
      PutBe32(hdr, 2, len / TWO_32);
      PutBe32(hdr, 6, len % TWO_32);
      hdrLen := 10;
      LongHeader(len);
    }
  }

  lemma LongHeader(len: nat)
    requires 65535 < len < MAX_SIZE
    ensures [BINARY, 127] + WriteBe32(len / TWO_32) + WriteBe32(len % TWO_32) == [BINARY] + LengthField(len, 0)
  {
    hide WriteBe32;
    assert WriteBe64(len) == WriteBe32(len / TWO_32) + WriteBe32(len % TWO_32);
  }

  datatype TextRead = Failed | Closing | Got(text: seq<byte>, rest: seq<byte>)

  /** A masked frame from position 0 of `s`, whatever its opcode. */
  function Unmask(s: seq<byte>): (t: TextRead)
    requires |s| >= 2 && s[1] >= 0x80
    ensures !t.Closing?
    ensures t.Got? ==> ReadLength(s).Length? && |t.text| == ReadLength(s).n
  {
    var l := ReadLength(s);
    if l.Short? then Failed
    else
      var at := 1 + l.size + 4;
      if |s| < at + l.n then Failed
      else Got(Masked(s[at..at + l.n], s[1 + l.size..at]), s[at + l.n..])
  }

  /** aoa_h264server.c accepts one unfragmented, masked text frame shorter than its buffer. */
  function ServerText(s: seq<byte>, size: nat): (t: TextRead) {
    if |s| < 2 || s[0] < 0x80 then Failed
    else if s[0] % 16 == 8 then Closing
    else if s[0] % 16 != 1 || s[1] < 0x80 then Failed
    else
      match Unmask(s)
      case Got(text, rest) => if |text| < size then Got(text, rest) else Failed
      case t => t
  }

  lemma UnmaskParts(hdr: seq<byte>, ext: seq<byte>, mask: seq<byte>, n: nat, rest: seq<byte>)
    requires |hdr| == 2 && hdr[1] >= 0x80 && |mask| == 4
    requires ReadLength(hdr + (ext + (mask + rest))) == Length(n, 1 + |ext|)
    ensures Unmask(hdr + (ext + (mask + rest)))
      == if |rest| < n then Failed else Got(Masked(rest[..n], mask), rest[n..])
  {
    var s, at := hdr + (ext + (mask + rest)), 2 + |ext| + 4;
    hide ReadLength, Masked;
    assert s[at..] == rest && s[2 + |ext|..at] == mask;
    if |rest| >= n { assert s[at..at + n] == rest[..n] && s[at + n..] == rest[n..]; }
  }

  /** The length field after a two-byte header: -1 when the connection ends in it. */
  method ReadExtendedLength(conn: TcpConnection, hdr: seq<byte>) returns (ok: bool, n: nat, ghost ext: seq<byte>)
    requires |hdr| == 2
    modifies conn
    ensures ok ==> old(conn.data) == ext + conn.data && ReadLength(hdr + old(conn.data)) == Length(n, 1 + |ext|)
    ensures !ok ==> ReadLength(hdr + old(conn.data)).Short?
  {
    ghost var s := hdr + conn.data;
    n, ext, ok := hdr[1] % 128, [], true;
    if n == 126 {
      var e := conn.ReadExact(2);
      if e.None? { return false, n, ext; }
      n, ext := e.value[0] as int * 256 + e.value[1], e.value;
    } else if n == 127 {
      var e := conn.ReadExact(8);
      if e.None? { return false, n, ext; }
      assert s[2..10] == e.value;
      var i, v: nat := 0, 0;
      while i < 8
        invariant 0 <= i <= 8 && v == Accumulated(e.value[..i])
      {
        assert e.value[..i + 1][..i] == e.value[..i];
        v := v * 256 + e.value[i];
        i := i + 1;
      }
      assert e.value[..8] == e.value;
      EightBytes(e.value);
      n, ext := v, e.value;
    }
  }

  function Accumulated(p: seq<byte>): (v: nat) {
    if p == [] then 0 else Accumulated(p[..|p| - 1]) * 256 + p[|p| - 1]
  }

  lemma EightBytes(p: seq<byte>)
    requires |p| == 8
    ensures Accumulated(p) == ReadBe64(p)
  {
    FourBytes(p, 4);
    FourBytes(p, 8);
    assert p[..0] == [] && p[0..4] == p[..4] && p[4..8] == p[4..] && p[..8] == p;
  }

  lemma OneByte(p: seq<byte>, k: nat)
    requires 0 < k <= |p|
    ensures Accumulated(p[..k]) == Accumulated(p[..k - 1]) * 256 + p[k - 1]
  {
    assert p[..k][..k - 1] == p[..k - 1];
  }

  lemma FourBytes(p: seq<byte>, k: nat)
    requires 4 <= k <= |p|
    ensures Accumulated(p[..k]) == Accumulated(p[..k - 4]) * TWO_32 + ReadBe32(p[k - 4..k])
  {
    OneByte(p, k);
    OneByte(p, k - 1);
    OneByte(p, k - 2);
    OneByte(p, k - 3);
    var q := p[k - 4..k];
    assert q[0] == p[k - 4] && q[1] == p[k - 3] && q[2] == p[k - 2] && q[3] == p[k - 1];
    hide Accumulated;
  }

  /**
   * aoa_h264server.c: the payload is received into `out` and unmasked in place. The result 0 stands
   * for a close frame and for an empty text alike; serve_ws ends the connection on both.
   */
  method WebsocketReadText(conn: TcpConnection, out: array<byte>) returns (n: int)
    requires out.Length > 0
    modifies conn, out
    ensures match ServerText(old(conn.data), out.Length)
            case Failed => n == -1
            case Closing => n == 0
            case Got(text, rest) => n == |text| && out[..n] == text && out[n] == 0 && conn.data == rest
  {
    ghost var s := conn.data;
    var h := conn.ReadExact(2);
    if h.None? { return -1; }
    var hdr := h.value;
    assert s == hdr + conn.data;
    hide ReadLength, Masked;
    if hdr[0] < 0x80 { return -1; }
    if hdr[0] % 16 == 8 { return 0; }
    if hdr[0] % 16 != 1 { return -1; }
    var ok, len, ext := ReadExtendedLength(conn, hdr);
    if !ok { return -1; }
    if hdr[1] < 0x80 { return -1; }
    ghost var after := conn.data;
    if len >= out.Length { return -1; }
    var mask := conn.ReadExact(4);
    if mask.None? { return -1; }
    assert after == mask.value + conn.data;
    UnmaskParts(hdr, ext, mask.value, len, conn.data);
    var data := conn.ReadExact(len);
    if data.None? { return -1; }
    UnmaskInPlace(out, data.value, mask.value);
    out[len] := 0;
    n := len;
  }

  method UnmaskInPlace(out: array<byte>, data: seq<byte>, mask: seq<byte>)
    requires |mask| == 4 && |data| < out.Length
    modifies out
    ensures out[..|data|] == Masked(data, mask)
  {
    for i := 0 to |data|
      invariant out[..i] == data[..i]
    {
      out[i] := data[i];
    }
    assert out[..|data|] == data;
    assert forall k | 0 <= k < |data| :: out[k] == out[..|data|][k];
    hide Xor;
    for i := 0 to |data|
      invariant forall k | 0 <= k < i :: out[k] == Xor(data[k], mask[k % 4])
      invariant forall k | i <= k < |data| :: out[k] == data[k]
    {
      out[i] := Xor(out[i], mask[i % 4]);
    }
    assert out[..|data|] == Masked(data, mask);
  }

  /** win_video_server.py does not look at FIN, takes every opcode but 8 as text, and reads unmasked frames too. */
  function WindowsText(s: seq<byte>): (t: TextRead) {
    if |s| < 2 then Failed
    else if s[0] % 16 == 8 then Closing
    else if s[1] >= 0x80 then Unmask(s)
    else
      var l := ReadLength(s);
      if l.Short? || |s| < 1 + l.size + l.n then Failed
      else Got(s[1 + l.size..1 + l.size + l.n], s[1 + l.size + l.n..])
  }

  method WindowsReadText(conn: TcpConnection) returns (text: Option<seq<byte>>)
    modifies conn
    ensures match WindowsText(old(conn.data))
            case Got(t, rest) => text == Some(t) && conn.data == rest
            case _ => text == None
  {
    ghost var s := conn.data;
    var h := conn.ReadExact(2);
    if h.None? { return None; }
    var hdr := h.value;
    assert s == hdr + conn.data;
    if hdr[0] % 16 == 8 { return None; }
    hide ReadLength, Masked;
    var ok, n, ext := ReadExtendedLength(conn, hdr);
    if !ok { return None; }
    ghost var after := conn.data;
    if hdr[1] >= 0x80 {
      var mask := conn.ReadExact(4);
      if mask.None? { return None; }
      assert after == mask.value + conn.data;
      UnmaskParts(hdr, ext, mask.value, n, conn.data);
      hide Unmask;
      var data := conn.ReadExact(n);
      if data.None? { return None; }
      text := Some(Masked(data.value, mask.value));
    } else {
      PlainParts(hdr, ext, n, after);
      hide WindowsText;
      text := conn.ReadExact(n);
    }
  }

  lemma PlainParts(hdr: seq<byte>, ext: seq<byte>, n: nat, rest: seq<byte>)
    requires |hdr| == 2 && hdr[0] % 16 != 8 && hdr[1] < 0x80
    requires ReadLength(hdr + (ext + rest)) == Length(n, 1 + |ext|)
    ensures WindowsText(hdr + (ext + rest)) == if |rest| < n then Failed else Got(rest[..n], rest[n..])
  {
    var s, at := hdr + (ext + rest), 2 + |ext|;
    hide ReadLength, Unmask;
    assert s[at..] == rest;
    if |rest| >= n { assert s[at..at + n] == rest[..n] && s[at + n..] == rest[n..]; }
  }

  /**
   * Every masked text frame a browser sends is read back by Windows; the C server reads it back
   * exactly when it is shorter than the buffer.
   */
  lemma ClientFrameIsRead(text: seq<byte>, mask: seq<byte>, rest: seq<byte>, size: nat)
    requires |text| < MAX_SIZE && |mask| == 4
    ensures WindowsText(ClientFrame(text, mask) + rest) == Got(text, rest)
    ensures ServerText(ClientFrame(text, mask) + rest, size) == if |text| < size then Got(text, rest) else Failed
  {
    var field, data := LengthField(|text|, 0x80), Masked(text, mask);
    assert ClientFrame(text, mask) + rest == [TEXT] + field + mask + data + rest;
    hide ClientFrame, Masked, LengthField, ReadLength, Unmask;
    FrameParts(TEXT, field, mask, data, rest);
    ReadsBack(TEXT, |text|, 0x80, mask + (data + rest));
    UnmaskParts([TEXT, field[0]], field[1..], mask, |text|, data + rest);
    MaskTwice(text, mask);
    assert (data + rest)[..|text|] == data && (data + rest)[|text|..] == rest;
  }

  lemma FrameParts(b0: byte, field: seq<byte>, mask: seq<byte>, data: seq<byte>, rest: seq<byte>)
    requires field != []
    ensures [b0] + field + mask + data + rest == [b0] + field + (mask + (data + rest))
      == [b0, field[0]] + (field[1..] + (mask + (data + rest)))
  {
    assert [b0] + field == [b0, field[0]] + field[1..];
  }
}
