/**
 * The two C deframing loops over the USB reader: `read_avc1_packet` of the bridge, which resets its
 * window after a bad length, and `read_avc1_header` with the reader-thread loop of the server,
 * which enters a fresh scan.
 */
module Deframer {
  import opened Bytes
  import opened Avc1
  import opened UsbReader

  function Min(a: nat, b: nat): (m: nat) { if a < b then a else b }

  /** The window holds the last bytes of `seen`, at most four. */
  predicate Shows(window: seq<byte>, filled: nat, seen: seq<byte>) {
    && |window| == 4 && filled == Min(4, |seen|)
    && forall k: nat | k < filled :: window[k] == seen[|seen| - filled + k]
  }

  method ShiftIn(window: array<byte>, filled: nat, b: byte, ghost seen: seq<byte>) returns (filled': nat)
    requires window.Length == 4 && Shows(window[..], filled, seen)
    modifies window
    ensures Shows(window[..], filled', seen + [b])
  {
    ghost var w := window[..];
    if filled < 4 {
      window[filled] := b;
      filled' := filled + 1;
      assert window[..] == w[filled := b];
    } else {
      window[0] := window[1];
      window[1] := window[2];
      window[2] := window[3];
      window[3] := b;
      filled' := filled;
      assert window[..] == [w[1], w[2], w[3], b];
    }
  }

  /** The window shows the magic exactly when the bytes seen end in it. */
  lemma WindowMatch(window: seq<byte>, filled: nat, seen: seq<byte>)
    requires Shows(window, filled, seen)
    ensures filled == 4 && window == MAGIC <==> |seen| >= 4 && MagicAt(seen, |seen| - 4)
  {
    if |seen| >= 4 {
      assert window == [window[0], window[1], window[2], window[3]];
    }
  }

  /** What a read of one packet may do to the stream (`before`, ended by `end`). */
  ghost predicate PacketRead(reader: UsbStreamReader, before: seq<byte>, end: End, r: int, packet: seq<byte>)
    reads reader
  {
    if r == 0 then Next(before) == Found(packet, reader.unread) && reader.ending == end
    else reader.Stopped(end, r, Next(before) == Incomplete)
  }

  /** The rest of a header whose magic has just been read, and its length field. */
  method ReadHeader(reader: UsbStreamReader, header: array<byte>) returns (r: int, n: nat)
    requires reader.Valid() && header.Length == HEADER && header != reader.buf
    modifies reader`pos, reader`len, reader`script, reader`runs, reader`unread, reader`ending, reader.buf, header
    ensures reader.Valid() && reader.Paid(old(reader.Reading()), r, 1, 1)
    ensures r == 0 ==>
      && |old(reader.unread)| >= 24 && header[..] == MAGIC + old(reader.unread)[..24]
      && reader.unread == old(reader.unread)[24..] && reader.ending == old(reader.ending)
      && reader.Left() == old(reader.Left()) - 24
      && n == DataLength(header[..])
      && (!ValidLength(n) ==> AttemptAtMagic(MAGIC + old(reader.unread)) == Rejected(reader.unread))
    ensures r != 0 ==> reader.Stopped(old(reader.ending), r, AttemptAtMagic(MAGIC + old(reader.unread)) == Incomplete)
  {
    header[0], header[1], header[2], header[3] := MAGIC[0], MAGIC[1], MAGIC[2], MAGIC[3];
    assert header[..4] == MAGIC;
    r := reader.ReadExact(header, 4, 24);
    n := ReadBe32(header[24..28]);
    if r == 0 {
      assert header[..28] == header[..] && header[..][24..28] == header[24..28];
      HeaderAttempt(old(reader.unread), header[..]);
    }
  }

  /**
   * One turn of the scanning loop: read a byte, shift it into the window, compare with the magic.
   * `seen` is what has been read since the scan last started afresh.
   */
  method ScanByte(reader: UsbStreamReader, window: array<byte>, filled: nat, ghost seen: seq<byte>)
    returns (r: int, filled': nat, ghost seen': seq<byte>, hit: bool)
    requires reader.Valid() && window.Length == 4 && window != reader.buf
    requires Shows(window[..], filled, seen) && NoMagic(seen)
    modifies reader`pos, reader`len, reader`script, reader`runs, reader`unread, reader`ending, reader.buf, window
    ensures reader.Valid() && reader.Paid(old(reader.Reading()), r, 0, 1)
    ensures r == 0 ==> reader.ending == old(reader.ending) && reader.Left() == old(reader.Left()) - 1
    ensures r == 0 && hit ==> Next(seen + old(reader.unread)) == Resume(AttemptAtMagic(MAGIC + reader.unread))
    ensures r == 0 && !hit ==> Shows(window[..], filled', seen') && NoMagic(seen')
    ensures r == 0 && !hit ==> seen + old(reader.unread) == seen' + reader.unread
    ensures r != 0 ==> reader.Stopped(old(reader.ending), r, Next(seen + old(reader.unread)) == Incomplete)
  {
    hit, filled', seen' := false, filled, seen;
    var b;
    r, b := reader.StreamReadByte();
    if r != 0 {
      assert seen + [] == seen;
      return;
    }
    seen' := seen + [b];
    assert seen + old(reader.unread) == seen' + reader.unread;
    filled' := ShiftIn(window, filled, b, seen);
    WindowMatch(window[..], filled', seen');
    hit := filled' == 4 && window[..] == MAGIC;
    if hit {
      TryAfterScan(seen, b, reader.unread);
    } else {
      StillNoMagic(seen, b);
    }
  }

  /** rk_aoa_bridge.c: one loop, `filled = 0` after a rejected header. */
  method ReadAvc1Packet(reader: UsbStreamReader) returns (r: int, out: seq<byte>)
    requires reader.Valid()
    modifies reader`pos, reader`len, reader`script, reader`runs, reader`unread, reader`ending, reader.buf
    ensures reader.Valid() && reader.Paid(old(reader.Reading()), r, 3, if r == 0 then -1 else 2)
    ensures PacketRead(reader, old(reader.unread), old(reader.ending), r, out)
  {
    var window, filled, header := new byte[4](_ => 0), 0, new byte[HEADER](_ => 0);
    ghost var seen: seq<byte> := [];
    out := [];
    assert [] + reader.unread == reader.unread;
    assert Shows(window[..], filled, seen) && NoMagic(seen);
    hide NoMagic, MagicAt, Next, AttemptAtMagic, Later, UsbStreamReader.Left;
    ghost var start := reader.Reading();
    while true
      invariant reader.Valid()
      invariant NotAhead(start, reader.Reading()) && Within(start, reader.Reading(), 3, 0)
      invariant Shows(window[..], filled, seen) && NoMagic(seen)
      invariant Next(seen + reader.unread) == Next(old(reader.unread))
      invariant reader.ending == old(reader.ending)
      decreases reader.runs
    {
      ghost var middle := reader.Reading();
      var run := reader.Running();
      if !run {
        NothingFound(seen, reader.unread);
        return -1, [];
      }
      var done;
      r, done, out, filled, seen := ScanTurn(reader, window, header, filled, seen);
      PaidThen(reader, start, middle, r, if r != 0 then 1 else if done then -2 else -1);
      if r != 0 || done { return; }
    }
  }

  /** One turn of the bridge's loop after the flag: a byte, and what follows if it completes a magic. */
  method ScanTurn(reader: UsbStreamReader, window: array<byte>, header: array<byte>, filled: nat, ghost seen: seq<byte>)
    returns (r: int, done: bool, out: seq<byte>, filled': nat, ghost seen': seq<byte>)
    requires reader.Valid() && window.Length == 4 && header.Length == HEADER
    requires window != header && window != reader.buf && header != reader.buf
    requires Shows(window[..], filled, seen) && NoMagic(seen)
    modifies reader`pos, reader`len, reader`script, reader`runs, reader`unread, reader`ending, reader.buf, window,
        header
    ensures reader.Valid() && reader.Paid(old(reader.Reading()), r, 3, if r != 0 then 1 else if done then -2 else -1)
    ensures r == 0 ==> reader.ending == old(reader.ending)
    ensures r == 0 && done ==> Next(seen + old(reader.unread)) == Found(out, reader.unread)
    ensures r == 0 && !done ==>
      && Shows(window[..], filled', seen') && NoMagic(seen')
      && Next(seen' + reader.unread) == Next(seen + old(reader.unread))
    ensures r != 0 ==> reader.Stopped(old(reader.ending), r, Next(seen + old(reader.unread)) == Incomplete)
  {
    hide MagicAt, Next, AttemptAtMagic, Later;
    done, out := false, [];
    var hit, rejected;
    r, filled', seen', hit := ScanByte(reader, window, filled, seen);
    if r != 0 || !hit { return; }
    r, out, rejected := ReadRest(reader, header);
    if r != 0 { return; }
    done := !rejected;
    if rejected {
      filled', seen' := 0, [];
      assert [] + reader.unread == reader.unread;
    }
  }

  /** What follows a magic in the bridge: the rest of the header, its length, and the body. */
  method ReadRest(reader: UsbStreamReader, header: array<byte>) returns (r: int, out: seq<byte>, rejected: bool)
    requires reader.Valid() && header.Length == HEADER && header != reader.buf
    modifies reader`pos, reader`len, reader`script, reader`runs, reader`unread, reader`ending, reader.buf, header
    ensures reader.Valid() && reader.Paid(old(reader.Reading()), r, 1, 2)
    ensures r == 0 ==>
      && reader.ending == old(reader.ending) && reader.Left() <= old(reader.Left()) - 24
      && AttemptAtMagic(MAGIC + old(reader.unread))
         == if rejected then Rejected(reader.unread) else Found(out, reader.unread)
    ensures r != 0 ==> reader.Stopped(old(reader.ending), r, AttemptAtMagic(MAGIC + old(reader.unread)) == Incomplete)
  {
    hide AttemptAtMagic, Later;
    out, rejected := [], false;
    ghost var rest := reader.unread;
    var n;
    r, n := ReadHeader(reader, header);
    if r != 0 { return; }
    if n == 0 || n > MAX_DATA {
      rejected := true;
      return;
    }
    r, out := ReadBody(reader, header, rest, n);
  }

  method ReadBody(reader: UsbStreamReader, header: array<byte>, ghost rest: seq<byte>, n: nat)
    returns (r: int, out: seq<byte>)
    requires reader.Valid() && header.Length == HEADER && header != reader.buf
    requires |rest| >= 24 && header[..] == MAGIC + rest[..24] && reader.unread == rest[24..]
    requires n == DataLength(header[..]) && ValidLength(n)
    modifies reader`pos, reader`len, reader`script, reader`runs, reader`unread, reader`ending, reader.buf
    ensures reader.Valid() && reader.Paid(old(reader.Reading()), r, 1, 1)
    ensures r == 0 ==> AttemptAtMagic(MAGIC + rest) == Found(out, reader.unread) && reader.ending == old(reader.ending)
    ensures r == 0 ==> reader.Left() == old(reader.Left()) - n
    ensures r != 0 ==> reader.Stopped(old(reader.ending), r, AttemptAtMagic(MAGIC + rest) == Incomplete)
  {
    var packet := new byte[HEADER + n](_ => 0);
    for i := 0 to HEADER
      invariant packet[..i] == header[..i] && reader.Valid()
      invariant reader.unread == rest[24..] && reader.runs == old(reader.runs) && reader.ending == old(reader.ending)
      modifies packet
    {
      packet[i] := header[i];
    }
    assert packet[..HEADER] == header[..];
    BodyAttempt(rest, header[..], n);
    r := reader.ReadExact(packet, HEADER, n);
    out := [];
    if r == 0 {
      assert packet[..HEADER + n] == packet[..];
      out := packet[..];
    }
  }

  /** aoa_h264server.c, `read_avc1_header`: scan from an empty window, then the rest of the header. */
  method ReadAvc1Header(reader: UsbStreamReader, header: array<byte>) returns (r: int, n: nat, ghost rest: seq<byte>)
    requires reader.Valid() && header.Length == HEADER && header != reader.buf
    modifies reader`pos, reader`len, reader`script, reader`runs, reader`unread, reader`ending, reader.buf, header
    ensures reader.Valid() && reader.Paid(old(reader.Reading()), r, 3, if r == 0 then -1 else 2)
    ensures r == 0 ==>
      && |rest| >= 24 && header[..] == MAGIC + rest[..24] && reader.unread == rest[24..]
      && n == DataLength(header[..]) && reader.ending == old(reader.ending)
      && Next(old(reader.unread)) == Resume(AttemptAtMagic(MAGIC + rest))
      && (!ValidLength(n) ==> AttemptAtMagic(MAGIC + rest) == Rejected(reader.unread))
    ensures r != 0 ==> reader.Stopped(old(reader.ending), r, Next(old(reader.unread)) == Incomplete)
  {
    var window, filled := new byte[4](_ => 0), 0;
    ghost var seen: seq<byte> := [];
    n, rest := 0, [];
    assert [] + reader.unread == reader.unread;
    assert Shows(window[..], filled, seen) && NoMagic(seen);
    hide NoMagic, MagicAt, Next, AttemptAtMagic, Later, UsbStreamReader.Left;
    ghost var start := reader.Reading();
    while true
      invariant reader.Valid()
      invariant NotAhead(start, reader.Reading()) && Within(start, reader.Reading(), 3, 0)
      invariant Shows(window[..], filled, seen) && NoMagic(seen)
      invariant seen + reader.unread == old(reader.unread)
      invariant reader.ending == old(reader.ending)
      decreases reader.runs
    {
      ghost var middle := reader.Reading();
      var run := reader.Running();
      if !run {
        NothingFound(seen, reader.unread);
        return -1, n, rest;
      }
      var hit;
      r, hit, n, filled, seen, rest := HeaderTurn(reader, window, header, filled, seen);
      PaidThen(reader, start, middle, r, if r != 0 then 1 else if hit then -2 else -1);
      if r != 0 || hit { return; }
    }
  }

  /** One turn of the server's loop after the flag: a byte, and the header if it completes a magic. */
  method HeaderTurn(reader: UsbStreamReader, window: array<byte>, header: array<byte>, filled: nat,
      ghost seen: seq<byte>)
    returns (r: int, hit: bool, n: nat, filled': nat, ghost seen': seq<byte>, ghost rest: seq<byte>)
    requires reader.Valid() && window.Length == 4 && header.Length == HEADER
    requires window != header && window != reader.buf && header != reader.buf
    requires Shows(window[..], filled, seen) && NoMagic(seen)
    modifies reader`pos, reader`len, reader`script, reader`runs, reader`unread, reader`ending, reader.buf, window,
        header
    ensures reader.Valid() && reader.Paid(old(reader.Reading()), r, 3, if r != 0 then 1 else if hit then -2 else -1)
    ensures r == 0 ==> reader.ending == old(reader.ending)
    ensures r == 0 && hit ==>
      && |rest| >= 24 && header[..] == MAGIC + rest[..24] && reader.unread == rest[24..]
      && n == DataLength(header[..])
      && Next(seen + old(reader.unread)) == Resume(AttemptAtMagic(MAGIC + rest))
      && (!ValidLength(n) ==> AttemptAtMagic(MAGIC + rest) == Rejected(reader.unread))
    ensures r == 0 && !hit ==>
      && Shows(window[..], filled', seen') && NoMagic(seen')
      && seen' + reader.unread == seen + old(reader.unread)
    ensures r != 0 ==> reader.Stopped(old(reader.ending), r, Next(seen + old(reader.unread)) == Incomplete)
  {
    hide MagicAt, Next, AttemptAtMagic, Later;
    n, rest := 0, [];
    r, filled', seen', hit := ScanByte(reader, window, filled, seen);
    if r != 0 || !hit { return; }
    rest := reader.unread;
    r, n := ReadHeader(reader, header);
  }

  /** What one turn of a reading loop does to the stream: yields the next packet or skips none. */
  ghost predicate Turn(before: Stream, out: Option<seq<byte>>, after: Stream) {
    match out
    case Some(p) => Next(before.bytes) == Found(p, after.bytes) && after.end == before.end
    case None =>
      || (Next(before.bytes) == Next(after.bytes) && after.end == before.end)
      || (Next(before.bytes) == Incomplete && before.end.Fault? && after == before.end.next)
  }

  lemma TurnParses(before: Stream, out: Option<seq<byte>>, after: Stream)
    requires Turn(before, out, after)
    ensures ParseStream(before) == (if out.Some? then [out.value] else []) + ParseStream(after)
  {
    if out.None? && !(Next(before.bytes) == Next(after.bytes) && after.end == before.end) {
      assert ParseAll(before.bytes) == [];
    }
  }

  const NOTHING_LEFT: Stream := Stream([], Quiet)

  /** What a turn does in which `running` is cleared: if all bytes are gone, they held no packet. */
  ghost predicate Interrupted(before: Stream, after: Stream) {
    after.end == before.end && (Next(before.bytes) == Incomplete || after.bytes != [])
  }

  lemma NothingLeftParses()
    ensures ParseStream(NOTHING_LEFT) == []
  {
    assert FindMagic([]) == None;
  }

  lemma InterruptedParses(before: Stream, after: Stream)
    requires Interrupted(before, after) && after == NOTHING_LEFT
    ensures ParseStream(before) == []
  {
    assert ParseAll(before.bytes) == [];
  }

  /**
   * aoa_h264server.c, one turn of the reader thread: a bad length, a failed header or a failed body
   * all `continue` with a fresh scan. Header and data of a packet are joined again here.
   */
  method ReaderTurn(reader: UsbStreamReader) returns (out: Option<seq<byte>>)
    requires reader.Valid()
    modifies reader`pos, reader`len, reader`script, reader`runs, reader`unread, reader`ending, reader.buf
    ensures reader.Valid() && reader.runs <= old(reader.runs) && reader.Onward(old(reader.runs), old(reader.Need()))
    ensures var before, after := Stream(old(reader.unread), old(reader.ending)), Stream(reader.unread, reader.ending);
      Turn(before, out, after) || (out == None && reader.runs == 0 && Interrupted(before, after))
  {
    hide Later, Next, AttemptAtMagic, Flatten, DataLength;
    var header := new byte[HEADER](_ => 0);
    var r, n, rest := ReadAvc1Header(reader, header);
    if r != 0 { return None; }
    if n == 0 || n > MAX_DATA { return None; }
    var packet;
    r, packet := ReadBody(reader, header, rest, n);
    out := if r == 0 then Some(packet) else None;
  }

  /** rk_aoa_bridge.c, the read at the head of the forwarding loop: a packet, or `continue`. */
  method BridgeTurn(reader: UsbStreamReader) returns (out: Option<seq<byte>>)
    requires reader.Valid()
    modifies reader`pos, reader`len, reader`script, reader`runs, reader`unread, reader`ending, reader.buf
    ensures reader.Valid() && reader.runs <= old(reader.runs) && reader.Onward(old(reader.runs), old(reader.Need()))
    ensures var before, after := Stream(old(reader.unread), old(reader.ending)), Stream(reader.unread, reader.ending);
      Turn(before, out, after) || (out == None && reader.runs == 0 && Interrupted(before, after))
  {
    var r, packet := ReadAvc1Packet(reader);
    hide Later, Next;
    out := if r == 0 then Some(packet) else None;
  }

  /**
   * What a reading loop has found out so far: `left` is still to be parsed, and nothing is once
   * the phone's bytes are used up.
   */
  ghost predicate Ahead(runs: nat, now: Stream, left: seq<seq<byte>>) {
    && (runs > 0 ==> left == ParseStream(now))
    && (now == NOTHING_LEFT ==> left == [])
  }

  lemma AheadAtStart(runs: nat, now: Stream)
    ensures Ahead(runs, now, ParseStream(now))
  {
    NothingLeftParses();
  }

  /** A turn of a reading loop moves at most the next packet from what is left to what was read. */
  lemma AheadStep(before: Stream, out: Option<seq<byte>>, runs: nat, after: Stream, left: seq<seq<byte>>)
    returns (left': seq<seq<byte>>)
    requires left == ParseStream(before)
    requires Turn(before, out, after) || (out == None && runs == 0 && Interrupted(before, after))
    ensures left == (if out.Some? then [out.value] else []) + left'
    ensures Ahead(runs, after, left')
  {
    NothingLeftParses();
    if Turn(before, out, after) {
      TurnParses(before, out, after);
      left' := ParseStream(after);
    } else {
      if after == NOTHING_LEFT { InterruptedParses(before, after); }
      left' := left;
      assert [] + left' == left;
    }
  }

  /** The flag will read as set often enough for everything to come, or everything is read. */
  ghost predicate LongEnough(reader: UsbStreamReader)
    reads reader
  {
    reader.Drained() || reader.runs >= reader.Need() + 4
  }

  lemma DrainedIff(reader: UsbStreamReader)
    ensures reader.Drained() <==> reader.Need() == 0
  {
  }

  /** A turn of a reading loop, the look at the flag before it included. */
  lemma StillLongEnough(reader: UsbStreamReader, before: nat, need: nat)
    requires reader.Onward(before, need) && (need == 0 || before + 1 >= need + 4)
    ensures LongEnough(reader)
  {
    DrainedIff(reader);
    hide Later, Faults;
  }

  /**
   * aoa_h264server.c: the packets the reader thread publishes before `running` is cleared: a prefix
   * of the packets there are, and all of them once the phone's bytes are used up, which they are if
   * the flag stays set for long enough.
   */
  method ReaderThread(reader: UsbStreamReader) returns (packets: seq<seq<byte>>)
    requires reader.Valid()
    modifies reader`pos, reader`len, reader`script, reader`runs, reader`unread, reader`ending, reader.buf
    ensures reader.runs == 0
    ensures packets <= ParseStream(Stream(old(reader.unread), old(reader.ending)))
    ensures Stream(reader.unread, reader.ending) == NOTHING_LEFT ==>
      packets == ParseStream(Stream(old(reader.unread), old(reader.ending)))
    ensures old(LongEnough(reader)) ==> Stream(reader.unread, reader.ending) == NOTHING_LEFT
  {
    hide ParseStream, Flatten, Next, Turn, Interrupted, UsbStreamReader.Need, UsbStreamReader.Onward;
    packets := [];
    ghost var all := ParseStream(Stream(reader.unread, reader.ending));
    ghost var left := all;
    AheadAtStart(reader.runs, Stream(reader.unread, reader.ending));
    while true
      invariant reader.Valid() && packets + left == all
      invariant Ahead(reader.runs, Stream(reader.unread, reader.ending), left)
      invariant old(LongEnough(reader)) ==> LongEnough(reader)
      decreases reader.runs
    {
      ghost var before, need := Stream(reader.unread, reader.ending), reader.Need();
      DrainedIff(reader);
      var run := reader.Running();
      if !run { return; }
      ghost var runs := reader.runs;
      var out := ReaderTurn(reader);
      if old(LongEnough(reader)) { StillLongEnough(reader, runs, need); }
      left := AheadStep(before, out, reader.runs, Stream(reader.unread, reader.ending), left);
      if out.Some? {
        packets := packets + [out.value];
      }
    }
  }
}
