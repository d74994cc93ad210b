/**
 * The buffered USB reader that rk_aoa_bridge.c and aoa_h264server.c share, and the two deframing
 * loops over it. The reader object is specified by its flat stream: the unread part of the buffer
 * followed by every transfer still to come.
 */
module UsbReader {
  import opened Bytes
  import opened Avc1

  const USB_BUFFER_SIZE: nat := 256 * 1024

  type Chunk = c: seq<byte> | |c| <= USB_BUFFER_SIZE witness []

  const TIMEOUT_CODE := -7

  /** A libusb error other than a timeout. */
  type FaultCode = c: int | c != 0 && c != TIMEOUT_CODE witness -4

  /**
   * What one bulk transfer does. A transfer that times out or fails may already have put bytes in
   * the buffer; the code looks at neither count nor bytes then, so they are lost.
   */
  datatype Transfer =
    | Done(data: Chunk)
    | TimedOut(lost: Chunk)
    | Broken(code: FaultCode, lost: Chunk)

  /** Bytes up to the end of what the phone sends, or up to a transfer that fails. */
  datatype Stream = Stream(bytes: seq<byte>, end: End)
  datatype End = Quiet | Fault(code: FaultCode, next: Stream)

  function Prepend(b: seq<byte>, s: Stream): (r: Stream) {
    Stream(b + s.bytes, s.end)
  }

  function Flatten(script: seq<Transfer>): (s: Stream) {
    if script == [] then Stream([], Quiet)
    else
      match script[0]
      case Done(data) => Prepend(data, Flatten(script[1..]))
      case TimedOut(_) => Flatten(script[1..])
      case Broken(code, _) => Stream([], Fault(code, Flatten(script[1..])))
  }

  /** The packets of a stream: a fault drops the packet being read and the scan starts afresh. */
  function ParseStream(s: Stream): (packets: seq<seq<byte>>)
    decreases s
  {
    ParseAll(s.bytes) + match s.end
                        case Quiet => []
                        case Fault(_, next) => ParseStream(next)
  }

  lemma {:induction false} StreamIsWellFormed(s: Stream)
    ensures forall p | p in ParseStream(s) :: WellFormed(p)
    decreases s
  {
    ParsedAreWellFormed(s.bytes);
    if s.end.Fault? { StreamIsWellFormed(s.end.next); }
  }

  /** Every byte the phone handed to a transfer, whatever became of the transfer. */
  function Sent(script: seq<Transfer>): (s: seq<byte>) {
    if script == [] then []
    else
      (match script[0]
       case Done(data) => data
       case TimedOut(lost) => lost
       case Broken(_, lost) => lost) + Sent(script[1..])
  }

  function Delivered(s: Stream): (b: seq<byte>)
    decreases s
  {
    s.bytes + match s.end case Quiet => [] case Fault(_, next) => Delivered(next)
  }

  /** The bytes behind the fault that ends a stream, if one does, and the number of faults. */
  function Later(e: End): (n: nat)
    decreases e
  {
    match e case Quiet => 0 case Fault(_, next) => |next.bytes| + Later(next.end)
  }

  function Faults(e: End): (n: nat)
    decreases e
  {
    match e case Quiet => 0 case Fault(_, next) => 1 + Faults(next.end)
  }

  predicate LosesNothing(script: seq<Transfer>) {
    forall t | t in script :: !t.Done? ==> t.lost == []
  }

  lemma DeliveredAtMostSent(script: seq<Transfer>)
    ensures |Delivered(Flatten(script))| <= |Sent(script)|
  {
  }

  /**
   * The reader sees everything the phone sent exactly when no timed-out or failed transfer had
   * moved bytes. Only completed transfers are looked at, so a partly filled timeout loses data.
   */
  lemma {:induction false} NothingLostIff(script: seq<Transfer>)
    ensures Delivered(Flatten(script)) == Sent(script) <==> LosesNothing(script)
  {
    if script != [] {
      var t, rest := script[0], script[1..];
      assert script == [t] + rest;
      NothingLostIff(rest);
      DeliveredAtMostSent(rest);
      match t {
        case Done(data) =>
          assert Delivered(Flatten(script)) == data + Delivered(Flatten(rest));
          assert Sent(script)[|data|..] == Sent(rest);
          assert Delivered(Flatten(script))[|data|..] == Delivered(Flatten(rest));
        case TimedOut(lost) => assert |Sent(script)| == |lost| + |Sent(rest)|;
        case Broken(_, lost) =>
          assert |Sent(script)| == |lost| + |Sent(rest)|;
          assert Delivered(Flatten(script)) == Delivered(Flatten(rest));
      }
    }
  }

  /** The bytes of the completed transfers. */
  function DoneBytes(script: seq<Transfer>): (b: seq<byte>) {
    if script == [] then [] else (if script[0].Done? then script[0].data else []) + DoneBytes(script[1..])
  }

  lemma {:induction false} FlattenSize(script: seq<Transfer>)
    ensures |Flatten(script).bytes| + Later(Flatten(script).end) == |DoneBytes(script)|
    ensures Faults(Flatten(script).end) <= |script|
  {
    if script != [] { FlattenSize(script[1..]); }
  }

  /** A number of looks at the flag that suffices to read everything, by bytes and transfers. */
  function Looks(script: seq<Transfer>): (n: nat) {
    3 * |DoneBytes(script)| + 5 * |script| + 4
  }

  /** Up to a fault only the concatenation counts; after it the stream starts anew. */
  lemma {:induction false} FlattenUpToFault(before: seq<Transfer>, after: seq<Transfer>)
    requires forall t | t in before :: !t.Broken?
    requires after != [] ==> after[0].Broken?
    ensures Flatten(before + after) ==
      Stream(DoneBytes(before), if after == [] then Quiet else Fault(after[0].code, Flatten(after[1..])))
  {
    if before == [] {
      assert before + after == after;
    } else {
      assert (before + after)[0] == before[0] && (before + after)[1..] == before[1..] + after;
      FlattenUpToFault(before[1..], after);
    }
  }

  /**
   * Chunk boundaries, empty transfers and timeouts make no difference: what is parsed up to the
   * next fault, and after it, depends only on the concatenation of the completed transfers.
   */
  lemma ChunkingIrrelevant(a: seq<Transfer>, b: seq<Transfer>, after: seq<Transfer>)
    requires forall t | t in a :: !t.Broken?
    requires forall t | t in b :: !t.Broken?
    requires after != [] ==> after[0].Broken?
    ensures DoneBytes(a) == DoneBytes(b) <==> Flatten(a + after) == Flatten(b + after)
    ensures ParseStream(Flatten(a + after)) ==
      ParseAll(DoneBytes(a)) + if after == [] then [] else ParseStream(Flatten(after[1..]))
  {
    FlattenUpToFault(a, after);
    FlattenUpToFault(b, after);
  }

  /** A whole packet that arrives in a transfer that then times out is never seen. */
  lemma TimeoutLosesPacket(p: Chunk)
    requires WellFormed(p)
    ensures ParseStream(Flatten([Done(p)])) == [p]
    ensures ParseStream(Flatten([TimedOut(p)])) == []
  {
    PacketAlone(p);
    hide ParseAll, WellFormed;
    assert p + [] == p;
    assert [Done(p)][1..] == [] && [TimedOut(p)][1..] == [];
    assert Flatten([Done(p)]) == Stream(p + [], Quiet) && Flatten([TimedOut(p)]) == Stream([], Quiet);
  }

  lemma PacketAlone(p: seq<byte>)
    requires WellFormed(p)
    ensures ParseAll(p) == [p] && ParseAll([]) == []
  {
    NextAfterGarbage([], p, []);
    assert Next([]) == Incomplete;
    hide Next, WellFormed;
    assert [] + p + [] == p;
  }

  lemma SplitStart(all: seq<byte>, offset: nat, n: nat)
    requires offset <= |all| && n <= |all[offset..]|
    ensures all[..offset + n] == all[..offset] + all[offset..][..n]
    ensures all[offset + n..] == all[offset..][n..]
  {
  }

  lemma CopiedMore(front: seq<byte>, all: seq<byte>, offset: nat, n: nat)
    requires offset <= |all| && n <= |all[offset..]|
    ensures front + all[..offset] + all[offset..][..n] == front + all[..offset + n]
    ensures all[offset + n..] == all[offset..][n..]
  {
    SplitStart(all, offset, n);
    Regroup(front, all[..offset], all[offset..][..n]);
  }

  /** What a read has at its disposal: looks at the flag, bytes and transfers to come. */
  datatype Meter = Meter(runs: nat, left: nat, transfers: nat)

  predicate NotAhead(before: Meter, now: Meter) {
    now.runs <= before.runs && now.left <= before.left && now.transfers <= before.transfers
  }

  predicate Within(before: Meter, now: Meter, perByte: nat, extra: int) {
    before.runs - now.runs <= perByte * (before.left - now.left) + (before.transfers - now.transfers) + extra
  }

  /** One more turn, the look at the flag before it included. */
  lemma PaidThen(reader: UsbStreamReader, start: Meter, middle: Meter, r: int, extra: int)
    requires NotAhead(start, middle) && Within(start, middle, 3, 0) && middle.runs > 0
    requires reader.Paid(middle.(runs := middle.runs - 1), r, 3, extra)
    ensures reader.Paid(start, r, 3, extra + 1)
    ensures r == 0 && extra <= -1 ==> NotAhead(start, reader.Reading()) && Within(start, reader.Reading(), 3, 0)
  {
    hide UsbStreamReader.Left;
  }

  class UsbStreamReader {
    const buf: array<byte>
    var pos: nat
    var len: nat
    var script: seq<Transfer>  // outcomes of the transfers to come
    var runs: nat              // how often the global `running` flag will still be read as set

    // The flat stream: the bytes up to the next fault, and what ends them.
    ghost var unread: seq<byte>
    ghost var ending: End

    ghost predicate Valid()
      reads this, buf
    {
      && buf.Length == USB_BUFFER_SIZE && pos <= len <= USB_BUFFER_SIZE
      && unread == buf[pos..len] + Flatten(script).bytes
      && ending == Flatten(script).end
    }

    /** How many bytes are still to come, over all faults. */
    ghost function Left(): (n: nat)
      reads this`unread, this`ending
    {
      |unread| + Later(ending)
    }

    /** Nothing is left and the phone stays silent. */
    ghost predicate Drained()
      reads this
    {
      script == [] && unread == [] && ending == Quiet
    }

    /**
     * A read that fails: it ran into the fault that ends the bytes, which were too few, and the
     * stream goes on after it; or `running` was cleared, with bytes left if there had been enough.
     */
    ghost predicate Stopped(before: End, r: int, tooFew: bool)
      reads this
    {
      || (before.Fault? && r == before.code && Stream(unread, ending) == before.next && tooFew)
      || (runs == 0 && ending == before && (tooFew || unread != []))
    }

    /**
     * Progress: the flag is looked at no more often than `perByte` times for each byte taken, once
     * for each transfer, and `extra` times, unless the phone has fallen silent for good. A read
     * that stops because the flag was cleared has therefore used up that many looks.
     */
    ghost predicate Paid(before: Meter, r: int, perByte: nat, extra: int)
      reads this
    {
      && NotAhead(before, Reading())
      && (Within(before, Reading(), perByte, extra) || (r != 0 && runs == 0 && Drained()))
    }

    /** How often the flag has to read as set, at most, until everything to come has been read. */
    ghost function Need(): (n: nat)
      reads this`unread, this`ending, this`script
    {
      3 * Left() + |script| + 4 * Faults(ending)
    }

    /** One turn of a reading loop: it pays for itself, flag included, unless the flag ran out in it or all is read. */
    ghost predicate Onward(before: nat, need: nat)
      reads this
    {
      && Need() <= need
      && (|| before - runs + 1 <= need - Need()
          || (runs == 0 && (Drained() || before <= need - Need() + 2)))
    }

    ghost function Reading(): (m: Meter)
      reads this
    {
      Meter(runs, Left(), |script|)
    }

    constructor (script: seq<Transfer>, runs: nat)
      ensures Valid() && fresh(buf) && Stream(unread, ending) == Flatten(script) && this.script == script
          && this.runs == runs
      ensures runs >= Looks(script) ==> runs >= Need() + 4
    {
      buf := new byte[USB_BUFFER_SIZE](_ => 0);
      pos, len := 0, 0;
      this.script, this.runs := script, runs;
      unread, ending := Flatten(script).bytes, Flatten(script).end;
      FlattenSize(script);
    }

    /** One read of the volatile flag; once it reads as cleared it stays cleared. */
    method Running() returns (b: bool)
      modifies this`runs
      ensures b == (old(runs) > 0)
      ensures runs == if b then old(runs) - 1 else 0
    {
      b := runs > 0;
      if b { runs := runs - 1; }
    }

    /** libusb_bulk_transfer into the whole buffer; a silent phone times out. */
    method BulkTransfer() returns (r: int, transferred: nat)
      requires buf.Length == USB_BUFFER_SIZE
      modifies this`script, buf
      ensures transferred <= USB_BUFFER_SIZE
      ensures if old(script) == [] then script == [] && r == TIMEOUT_CODE else |script| == |old(script)| - 1
      ensures r == 0 ==> old(Flatten(script)) == Prepend(buf[..transferred], Flatten(script))
      ensures r == TIMEOUT_CODE ==> old(Flatten(script)) == Flatten(script)
      ensures r != 0 && r != TIMEOUT_CODE ==> old(Flatten(script)) == Stream([], Fault(r, Flatten(script)))
    {
      if script == [] { return TIMEOUT_CODE, 0; }
      var t := script[0];
      script := script[1..];
      var data := if t.Done? then t.data else t.lost;
      for i := 0 to |data|
        invariant buf[..i] == data[..i] && script == old(script)[1..]
      {
        buf[i] := data[i];
      }
      transferred := |data|;
      assert buf[..transferred] == data;
      r := match t case Done(_) => 0 case TimedOut(_) => TIMEOUT_CODE case Broken(code, _) => code;
    }

    method StreamFill() returns (r: int)
      requires Valid() && pos == len
      modifies this`pos, this`len, this`script, this`runs, this`unread, this`ending, buf
      ensures Valid() && Paid(old(Reading()), r, 0, 0)
      ensures r == 0 ==> pos < len && unread == old(unread) && ending == old(ending)
      ensures r != 0 ==> Stopped(old(ending), r, old(unread) == [])
    {
      pos, len := 0, 0;
      while true
        invariant Valid() && pos == len == 0 && runs <= old(runs) && |script| <= |old(script)|
        invariant script != [] ==> old(runs) - runs == |old(script)| - |script|
        invariant script == [] ==> old(runs) - runs >= |old(script)|
        invariant unread == old(unread) && ending == old(ending)
        decreases runs
      {
        var run := Running();
        if !run { return -1; }
        var transferred;
        r, transferred := BulkTransfer();
        if r == TIMEOUT_CODE { continue; }
        if r != 0 {
          unread, ending := Flatten(script).bytes, Flatten(script).end;
          return;
        }
        if transferred == 0 { continue; }
        len := transferred;
        return 0;
      }
    }

    /** Copies exactly `n` bytes of the stream to `dst[at..]`. */
    method ReadExact(dst: array<byte>, at: nat, n: nat) returns (r: int)
      requires Valid() && dst != buf && at + n <= dst.Length
      modifies this`pos, this`len, this`script, this`runs, this`unread, this`ending, buf, dst
      ensures Valid() && Paid(old(Reading()), r, 1, 1)
      ensures r == 0 ==>
        && n <= |old(unread)|
        && dst[..at + n] == old(dst[..at]) + old(unread)[..n]
        && unread == old(unread)[n..] && ending == old(ending)
      ensures r != 0 ==> Stopped(old(ending), r, |old(unread)| < n)
    {
      hide Flatten, Later;
      var offset: nat := 0;
      while true
        invariant Valid() && |script| <= |old(script)|
        invariant 0 <= old(runs) - runs <= offset + (|old(script)| - |script|)
        invariant offset <= n && offset <= |old(unread)|
        invariant dst[..at + offset] == old(dst[..at]) + old(unread)[..offset]
        invariant unread == old(unread)[offset..] && ending == old(ending)
        decreases runs
      {
        var run := Running();
        if !run || offset >= n { break; }
        var copied;
        r, copied := CopySome(dst, at + offset, n - offset);
        if r != 0 { return; }
        CopiedMore(old(dst[..at]), old(unread), offset, copied);
        offset := offset + copied;
      }
      r := if offset == n then 0 else -1;
    }

    /** The body of the copy loop: refill an empty buffer, then take what is there and still needed. */
    method CopySome(dst: array<byte>, to: nat, need: nat) returns (r: int, copied: nat)
      requires Valid() && dst != buf && to + need <= dst.Length
      modifies this`pos, this`len, this`script, this`runs, this`unread, this`ending, buf, dst
      ensures Valid() && Paid(old(Reading()), r, 0, 0) && copied <= need && (r == 0 && need > 0 ==> copied > 0)
      ensures r == 0 ==>
        && copied <= |old(unread)|
        && dst[..to + copied] == old(dst[..to]) + old(unread)[..copied]
        && unread == old(unread)[copied..] && ending == old(ending)
      ensures r != 0 ==> Stopped(old(ending), r, old(unread) == [])
    {
      hide Later;
      r, copied := 0, 0;
      if pos >= len {
        r := StreamFill();
        if r != 0 { return; }
      }
      var available := len - pos;
      copied := if available < need then available else need;
      if copied > 0 { CopyOut(dst, to, copied); }
    }

    /** memcpy of unread bytes to `dst[to..]`, advancing `pos`. */
    method CopyOut(dst: array<byte>, to: nat, n: nat)
      requires Valid() && dst != buf && to + n <= dst.Length && n <= len - pos
      modifies this`pos, this`unread, dst
      ensures Valid() && n <= |old(unread)|
      ensures dst[..to + n] == old(dst[..to]) + old(unread)[..n]
      ensures unread == old(unread)[n..]
    {
      hide Flatten;
      for i := 0 to n
        invariant Valid() && pos == old(pos) && unread == old(unread)
        invariant dst[..to + i] == old(dst[..to]) + buf[pos..pos + i]
      {
        dst[to + i] := buf[pos + i];
      }
      assert buf[pos..pos + n] == buf[pos..len][..n] == unread[..n];
      assert buf[pos + n..len] == buf[pos..len][n..];
      pos, unread := pos + n, unread[n..];
    }

    method StreamReadByte() returns (r: int, b: byte)
      requires Valid()
      modifies this`pos, this`len, this`script, this`runs, this`unread, this`ending, buf
      ensures Valid() && Paid(old(Reading()), r, 0, 1)
      ensures r == 0 ==> old(unread) == [b] + unread && ending == old(ending)
      ensures r != 0 ==> Stopped(old(ending), r, old(unread) == [])
    {
      hide Flatten, Later;
      b := 0;
      var done := false;
      while !done
        invariant Valid() && |script| <= |old(script)| && ending == old(ending)
        invariant 0 <= old(runs) - runs <= (if done then 1 else 0) + (|old(script)| - |script|)
        invariant old(unread) == if done then [b] + unread else unread
        decreases runs
      {
        var run := Running();
        if !run { return -1, b; }
        if pos >= len {
          r := StreamFill();
          if r != 0 { return; }
        }
        if pos < len {
          b := TakeByte();
          done := true;
        }
      }
      r := 0;
    }

    /** `*out = buf[pos++]`. */
    method TakeByte() returns (b: byte)
      requires Valid() && pos < len
      modifies this`pos, this`unread
      ensures Valid() && old(unread) == [b] + unread
    {
      hide Flatten;
      assert buf[pos..len] == [buf[pos]] + buf[pos + 1..len];
      Regroup([buf[pos]], buf[pos + 1..len], Flatten(script).bytes);
      b, pos, unread := buf[pos], pos + 1, unread[1..];
    }
  }
}
