/**
 * The bridge's forwarding loop: packets off the USB stream go to Windows over TCP. A failed send
 * drops the socket and the packet being sent; a failed connect drops the packet.
 */
module Relay {
  import opened Bytes
  import opened Avc1
  import opened UsbReader
  import opened Deframer
  import opened WinReceiver

  type Packet = seq<byte>

  /** One `send` call: some bytes taken, EINTR, or an error (a count of zero is treated as one). */
  datatype SendOutcome = Wrote(n: nat) | Eintr | Refused

  /** One TCP connection: the packets it was given and the bytes the socket took. */
  datatype Link = Link(given: seq<Packet>, wire: seq<byte>)

  predicate Whole(l: Link) {
    l.wire == Concat(l.given)
  }

  /** Everything but the last packet went out, and only a strict prefix of that one. */
  predicate CutShort(l: Link) {
    && l.given != []
    && Concat(Front(l.given)) <= l.wire <= Concat(l.given)
    && |l.wire| < |Concat(l.given)|
  }

  function Completed(l: Link): (ps: seq<Packet>) {
    if Whole(l) || l.given == [] then l.given else Front(l.given)
  }

  function AllGiven(links: seq<Link>): (ps: seq<Packet>) {
    if links == [] then [] else links[0].given + AllGiven(links[1..])
  }

  function AllCompleted(links: seq<Link>): (ps: seq<Packet>) {
    if links == [] then [] else Completed(links[0]) + AllCompleted(links[1..])
  }

  lemma {:induction false} LastLink(links: seq<Link>, l: Link)
    ensures AllGiven(links + [l]) == AllGiven(links) + l.given
    ensures AllCompleted(links + [l]) == AllCompleted(links) + Completed(l)
  {
    hide Completed;
    if links == [] {
      assert links + [l] == [l];
    } else {
      var all, rest := links + [l], links[1..];
      LastLink(rest, l);
      assert all[0] == links[0] && all[1..] == rest + [l];
      Regroup(links[0].given, AllGiven(rest), l.given);
      Regroup(Completed(links[0]), AllCompleted(rest), Completed(l));
    }
  }

  /**
   * What every turn keeps: links carry whole packets except possibly the last of each, the
   * assignments are the parsed packets in order minus those dropped on a failed connect, and the
   * counters count the packets that went out whole.
   */
  ghost predicate Accounts(links: seq<Link>, connected: bool, parsed: seq<Packet>, refused: nat, packets: nat,
      bytes: nat) {
    && (forall l | l in links :: Whole(l) || CutShort(l))
    && (connected ==> links != [] && Whole(links[|links| - 1]))
    && Subsequence(AllGiven(links), parsed)
    && |parsed| == |AllGiven(links)| + refused
    && packets == |AllCompleted(links)|
    && bytes == |Concat(AllCompleted(links))|
  }

  /** How many bytes a series of `send` calls takes before an error. */
  function Budget(sends: seq<SendOutcome>): (n: nat) {
    if sends == [] then 0
    else
      match sends[0]
      case Eintr => Budget(sends[1..])
      case Refused => 0
      case Wrote(k) => if k == 0 then 0 else k + Budget(sends[1..])
  }

  predicate Accepts(connects: seq<bool>) { connects != [] && connects[0] }

  /** `k` bytes of `p` go out on the open link. */
  function Handed(links: seq<Link>, p: Packet, k: nat): (links': seq<Link>)
    requires links != [] && k <= |p|
  {
    Front(links) + [Carry(links[|links| - 1], p, k)]
  }

  // ---------- what connects and sends make of the packets ----------

  /** The outcomes left after a series of `send` calls for `n` bytes, or after the error that ends it. */
  function SendsLeft(n: nat, sends: seq<SendOutcome>): (left: seq<SendOutcome>)
    decreases |sends|
  {
    if n == 0 || sends == [] then sends
    else
      match sends[0]
      case Eintr => SendsLeft(n, sends[1..])
      case Refused => sends[1..]
      case Wrote(k) => if k == 0 then sends[1..] else SendsLeft(if k < n then n - k else 0, sends[1..])
  }

  function Tail<T>(s: seq<T>): (rest: seq<T>) { if s == [] then [] else s[1..] }

  /** Where the loop stands: connections, packets dropped on a failed connect, outcomes to come. */
  datatype Course = Course(links: seq<Link>, connected: bool, refused: nat, connects: seq<bool>,
                           sends: seq<SendOutcome>)

  predicate Sound(c: Course) { c.connected ==> c.links != [] }

  function Begun(connects: seq<bool>, sends: seq<SendOutcome>): (c: Course) {
    Course([], false, 0, connects, sends)
  }

  /** One connection attempt. */
  function Attempted(c: Course): (c': Course) {
    if Accepts(c.connects) then c.(links := c.links + [Link([], [])], connected := true, connects := Tail(c.connects))
    else c.(connects := Tail(c.connects))
  }

  /** One packet on the open connection. */
  function Dispatched(c: Course, p: Packet): (c': Course)
    requires c.links != []
    ensures Sound(c')
  {
    var taken := Min(|p|, Budget(c.sends));
    c.(links := Handed(c.links, p, taken), connected := taken == |p|, sends := SendsLeft(|p|, c.sends))
  }

  /** One packet: connect if need be, then send. */
  function OneMore(c: Course, p: Packet): (c': Course)
    requires Sound(c)
    ensures Sound(c')
  {
    var open := if c.connected then c else Attempted(c);
    if open.connected then Dispatched(open, p) else open.(refused := c.refused + 1)
  }

  function CourseOf(c: Course, ps: seq<Packet>): (c': Course)
    requires Sound(c)
    ensures Sound(c')
  {
    if ps == [] then c else OneMore(CourseOf(c, Front(ps)), Last(ps))
  }

  /** The links whose last packet did not go out whole. */
  function Cuts(links: seq<Link>): (n: nat) {
    if links == [] then 0 else (if Completed(links[0]) == links[0].given then 0 else 1) + Cuts(links[1..])
  }

  lemma {:induction false} OneLossPerCut(links: seq<Link>)
    ensures |AllGiven(links)| == |AllCompleted(links)| + Cuts(links)
  {
    if links != [] { OneLossPerCut(links[1..]); }
  }

  lemma AccountRefusal(links: seq<Link>, parsed: seq<Packet>, refused: nat, packets: nat, bytes: nat, p: Packet)
    requires Accounts(links, false, parsed, refused, packets, bytes)
    ensures Accounts(links, false, parsed + [p], refused + 1, packets, bytes)
  {
    SubsequenceSkip(AllGiven(links), parsed, p);
  }

  lemma AccountOpening(links: seq<Link>, parsed: seq<Packet>, refused: nat, packets: nat, bytes: nat)
    requires Accounts(links, false, parsed, refused, packets, bytes)
    ensures Accounts(links + [Link([], [])], true, parsed, refused, packets, bytes)
  {
    LastLink(links, Link([], []));
    assert AllGiven(links) + [] == AllGiven(links) && AllCompleted(links) + [] == AllCompleted(links);
  }

  lemma CloseLink(links: seq<Link>, parsed: seq<Packet>, refused: nat, packets: nat, bytes: nat)
    requires Accounts(links, true, parsed, refused, packets, bytes)
    ensures Accounts(links, false, parsed, refused, packets, bytes)
  {
  }

  lemma OpenIsSound(links: seq<Link>, connected: bool, parsed: seq<Packet>, refused: nat, packets: nat, bytes: nat)
    requires Accounts(links, connected, parsed, refused, packets, bytes)
    ensures connected ==> links != []
  {
  }

  /** The link after `k` bytes of `p` went out on it. */
  function Carry(l: Link, p: Packet, k: nat): (l': Link)
    requires k <= |p|
  {
    Link(l.given + [p], l.wire + p[..k])
  }

  lemma CarryWhole(l: Link, p: Packet)
    requires Whole(l)
    ensures Whole(Carry(l, p, |p|))
  {
    ConcatSnoc(l.given, p);
    assert p[..|p|] == p;
  }

  lemma CarryPart(l: Link, p: Packet, k: nat)
    requires Whole(l) && k < |p|
    ensures CutShort(Carry(l, p, k)) && Completed(Carry(l, p, k)) == l.given
  {
    ConcatSnoc(l.given, p);
    assert Front(l.given + [p]) == l.given;
    hide Concat;
    PrefixOfSum(l.wire, p, k);
    var l' := Carry(l, p, k);
    assert |l'.wire| == |l.wire| + k < |Concat(l'.given)|;
  }

  lemma PrefixOfSum<T>(a: seq<T>, b: seq<T>, k: nat)
    requires k <= |b|
    ensures a <= a + b[..k] <= a + b
  {
    assert (a + b)[..|a| + k] == a + b[..k];
  }

  /** Handing `p` to the open link: it is there whole, or the link is closed with part of it. */
  lemma AccountSend(before: seq<Link>, l: Link, parsed: seq<Packet>, refused: nat, packets: nat, bytes: nat,
      p: Packet, k: nat)
    requires Accounts(before + [l], true, parsed, refused, packets, bytes) && k <= |p|
    ensures k < |p| ==> Accounts(before + [Carry(l, p, k)], false, parsed + [p], refused, packets, bytes)
    ensures k == |p| ==> Accounts(before + [Carry(l, p, k)], true, parsed + [p], refused, packets + 1, bytes + |p|)
  {
    var l' := Carry(l, p, k);
    assert (before + [l])[|before|] == l;
    LastLink(before, l);
    LastLink(before, l');
    assert AllGiven(before + [l']) == AllGiven(before + [l]) + [p];
    SubsequenceTake(AllGiven(before + [l]), parsed, p);
    assert forall x | x in before :: x in before + [l];
    if k < |p| {
      CarryPart(l, p, k);
    } else {
      CarryWhole(l, p);
      assert AllCompleted(before + [l']) == AllCompleted(before + [l]) + [p];
      ConcatSnoc(AllCompleted(before + [l]), p);
    }
    hide Whole, CutShort, Subsequence, Concat, AllGiven, AllCompleted, Completed;
  }

  lemma CourseGrows(c: Course, ps: seq<Packet>, p: Packet)
    requires Sound(c)
    ensures CourseOf(c, []) == c && CourseOf(c, ps + [p]) == OneMore(CourseOf(c, ps), p)
  {
    assert Front(ps + [p]) == ps;
    hide OneMore;
  }

  class Bridge {
    const reader: UsbStreamReader
    var connected: bool              // video_fd >= 0
    var packets: nat
    var bytes: nat
    var connects: seq<bool>          // outcomes of the connection attempts to come
    var sends: seq<SendOutcome>      // outcomes of the send calls to come
    var links: seq<Link>             // every connection so far; the open one is the last
    ghost var parsed: seq<Packet>    // every packet read off the stream so far
    ghost var refused: nat           // connection attempts that failed

    constructor (reader: UsbStreamReader, connects: seq<bool>, sends: seq<SendOutcome>)
      ensures this.reader == reader && parsed == [] && Valid() && Now() == Begun(connects, sends)
    {
      this.reader, this.connects, this.sends := reader, connects, sends;
      connected, packets, bytes, links := false, 0, 0, [];
      parsed, refused := [], 0;
    }

    ghost predicate Valid()
      reads this
    {
      Accounts(links, connected, parsed, refused, packets, bytes)
    }

    ghost function Now(): (c: Course)
      reads this
    {
      Course(links, connected, refused, connects, sends)
    }

    /** send_all: the socket takes the data, or as much of it as it can before an error. */
    method SendAll(data: seq<byte>) returns (r: int, taken: nat)
      modifies this`sends
      ensures taken == Min(|data|, Budget(old(sends)))
      ensures r == 0 <==> taken == |data|
      ensures sends == SendsLeft(|data|, old(sends))
    {
      taken := 0;
      while taken < |data|
        invariant taken <= |data| && Min(|data|, Budget(old(sends))) == Min(|data|, taken + Budget(sends))
        invariant SendsLeft(|data|, old(sends)) == SendsLeft(|data| - taken, sends)
        decreases |sends|
      {
        if sends == [] { return -1, taken; }
        var outcome := sends[0];
        sends := sends[1..];
        match outcome {
          case Eintr => continue;
          case Refused => return -1, taken;
          case Wrote(n) =>
            if n == 0 { return -1, taken; }
            taken := if n < |data| - taken then taken + n else |data|;
        }
      }
      r := 0;
    }

    method Connect() returns (ok: bool)
      modifies this`connects
      ensures ok == Accepts(old(connects)) && connects == Tail(old(connects))
    {
      ok := connects != [] && connects[0];
      if connects != [] { connects := connects[1..]; }
    }

    /** connect_windows_video */
    method Reconnect()
      requires Valid() && !connected
      modifies this`connected, this`connects, this`links
      ensures Valid() && Sound(Now()) && Now() == Attempted(old(Now()))
    {
      hide Accounts, Accepts, Tail;
      var ok := Connect();
      if ok {
        AccountOpening(links, parsed, refused, packets, bytes);
        links, connected := links + [Link([], [])], true;
      }
    }

    /** A packet goes to the open connection, which is closed if that fails. */
    method Send(packet: Packet)
      requires Valid() && connected && links != []
      modifies this`connected, this`packets, this`bytes, this`sends, this`links, this`parsed
      ensures Valid() && parsed == old(parsed) + [packet] && Now() == Dispatched(old(Now()), packet)
    {
      hide Accounts, Budget, SendsLeft, Carry;
      var before, l := Front(links), links[|links| - 1];
      assert links == before + [l];
      var r, taken := SendAll(packet);
      AccountSend(before, l, parsed, refused, packets, bytes, packet, taken);
      links, parsed := before + [Carry(l, packet, taken)], parsed + [packet];
      if r != 0 {
        connected := false;
        return;
      }
      packets, bytes := packets + 1, bytes + |packet|;
    }

    /** What the loop does with a packet it has read. */
    method Forward(packet: Packet)
      requires Valid() && Sound(Now())
      modifies this`connected, this`packets, this`bytes, this`connects, this`sends, this`links, this`parsed,
          this`refused
      ensures Valid() && parsed == old(parsed) + [packet] && Now() == OneMore(old(Now()), packet)
    {
      hide Accounts, Attempted, Dispatched;
      if !connected { Reconnect(); }
      if !connected {
        AccountRefusal(links, parsed, refused, packets, bytes, packet);
        parsed, refused := parsed + [packet], refused + 1;
        return;
      }
      Send(packet);
    }

    /** The loop in `main`, until `running` is cleared. */
    method ForwardLoop()
      requires Valid() && parsed == [] && reader.Valid()
      modifies this, reader, reader.buf
      ensures Valid() && !connected && reader.runs == 0
      ensures Now() == CourseOf(old(Now()), parsed).(connected := false)
      ensures parsed <= ParseStream(Stream(old(reader.unread), old(reader.ending)))
      ensures Stream(reader.unread, reader.ending) == NOTHING_LEFT ==>
        parsed == ParseStream(Stream(old(reader.unread), old(reader.ending)))
      ensures old(LongEnough(reader)) ==> Stream(reader.unread, reader.ending) == NOTHING_LEFT
    {
      hide Accounts, ParseStream, Flatten, Turn, Interrupted, Next, OneMore, CourseOf, Later;
      hide UsbStreamReader.Need, UsbStreamReader.Onward;
      ghost var all := ParseStream(Stream(reader.unread, reader.ending));
      ghost var left := all;
      OpenIsSound(links, connected, parsed, refused, packets, bytes);
      CourseGrows(Now(), [], []);
      AheadAtStart(reader.runs, Stream(reader.unread, reader.ending));
      while true
        invariant Valid() && reader.Valid() && parsed + left == all
        invariant Sound(Now()) && Now() == CourseOf(old(Now()), parsed)
        invariant Ahead(reader.runs, Stream(reader.unread, reader.ending), left)
        invariant old(LongEnough(reader)) ==> LongEnough(reader)
        decreases reader.runs
      {
        ghost var before, need := Stream(reader.unread, reader.ending), reader.Need();
        DrainedIff(reader);
        var run := reader.Running();
        if !run { break; }
        ghost var runs := reader.runs;
        var packet := BridgeTurn(reader);
        left := AheadStep(before, packet, reader.runs, Stream(reader.unread, reader.ending), left);
        if old(LongEnough(reader)) { StillLongEnough(reader, runs, need); }
        if packet.None? { continue; }
        CourseGrows(old(Now()), parsed, packet.value);
        Forward(packet.value);
      }
      Close();
    }

    method Close()
      requires Valid()
      modifies this`connected
      ensures Valid() && Now() == old(Now()).(connected := false)
    {
      if connected { CloseLink(links, parsed, refused, packets, bytes); }
      hide Accounts;
      connected := false;
    }
  }

  // ---------- when nothing is lost ----------

  function SendsAfter(ps: seq<Packet>, sends: seq<SendOutcome>): (left: seq<SendOutcome>) {
    if ps == [] then sends else SendsLeft(|Last(ps)|, SendsAfter(Front(ps), sends))
  }

  /** The sends take every one of the packets. */
  predicate Taken(ps: seq<Packet>, sends: seq<SendOutcome>) {
    ps == [] || (Taken(Front(ps), sends) && Budget(SendsAfter(Front(ps), sends)) >= |Last(ps)|)
  }

  /** The first connect and all sends on that connection succeed, or there is nothing to do. */
  predicate AllGoesOut(ps: seq<Packet>, connects: seq<bool>, sends: seq<SendOutcome>) {
    ps == [] || (Accepts(connects) && Taken(ps, sends))
  }

  /** Then there is one connection, which carries everything. */
  lemma {:induction false} OneConnection(ps: seq<Packet>, connects: seq<bool>, sends: seq<SendOutcome>)
    requires ps != [] && AllGoesOut(ps, connects, sends)
    ensures CourseOf(Begun(connects, sends), ps)
      == Course([Link(ps, Concat(ps))], true, 0, Tail(connects), SendsAfter(ps, sends))
  {
    var before, p := Front(ps), Last(ps);
    assert ps == before + [p] && p[..|p|] == p;
    ConcatSnoc(before, p);
    hide Concat, Budget, SendsLeft;
    if before == [] {
      assert Concat(before) == [] by { ConcatNone(); }
      FirstOut(p, connects, sends);
    } else {
      OneConnection(before, connects, sends);
      NextOut(CourseOf(Begun(connects, sends), before), Link(before, Concat(before)), p);
    }
  }

  lemma ConcatNone()
    ensures Concat<byte>([]) == []
  {
  }

  /** A packet sent on a connection made for it. */
  lemma OnNewLink(c: Course, p: Packet)
    requires !c.connected && Accepts(c.connects)
    ensures var k := Min(|p|, Budget(c.sends));
      OneMore(c, p) == Course(c.links + [Link([p], p[..k])], k == |p|, c.refused, Tail(c.connects),
                              SendsLeft(|p|, c.sends))
  {
    hide Budget, SendsLeft, Tail;
    var k := Min(|p|, Budget(c.sends));
    var links := c.links + [Link([], [])];
    assert Front(links) == c.links && Carry(Link([], []), p, k) == Link([p], p[..k]);
  }

  lemma FirstOut(p: Packet, connects: seq<bool>, sends: seq<SendOutcome>)
    requires Accepts(connects) && Budget(sends) >= |p|
    ensures OneMore(Begun(connects, sends), p)
      == Course([Link([p], p)], true, 0, Tail(connects), SendsLeft(|p|, sends))
  {
    hide Budget, SendsLeft, OneMore, Tail, Accepts;
    OnNewLink(Begun(connects, sends), p);
    assert p[..|p|] == p && [] + [Link([p], p)] == [Link([p], p)];
  }

  lemma NextOut(c: Course, l: Link, p: Packet)
    requires c.connected && c.links == [l] && Budget(c.sends) >= |p|
    ensures OneMore(c, p) == c.(links := [Link(l.given + [p], l.wire + p)], sends := SendsLeft(|p|, c.sends))
  {
    hide Budget, SendsLeft;
    assert Front(c.links) == [] && p[..|p|] == p;
  }

  /** Packets lost so far. */
  function Lost(c: Course): (n: nat) { Cuts(c.links) + c.refused }

  lemma {:induction false} CutsSnoc(links: seq<Link>, l: Link)
    ensures Cuts(links + [l]) == Cuts(links) + if Completed(l) == l.given then 0 else 1
  {
    hide Completed;
    if links == [] {
      assert links + [l] == [l];
    } else {
      CutsSnoc(links[1..], l);
      assert (links + [l])[0] == links[0] && (links + [l])[1..] == links[1..] + [l];
    }
  }

  /** The open connection has taken everything it was given. */
  predicate OpenIsWhole(c: Course) { c.connected ==> c.links != [] && Whole(Last(c.links)) }

  lemma CarryCounts(l: Link, p: Packet, k: nat)
    requires Whole(l) && k <= |p|
    ensures if k == |p| then Whole(Carry(l, p, k)) else Completed(Carry(l, p, k)) != Carry(l, p, k).given
    ensures Completed(l) == l.given && (k == |p| ==> Completed(Carry(l, p, k)) == Carry(l, p, k).given)
  {
    if k == |p| { CarryWhole(l, p); } else { CarryPart(l, p, k); }
    hide Concat, CutShort;
  }

  /** A packet is lost exactly when its connect fails or the sends do not take it. */
  lemma OneLossIff(c: Course, p: Packet)
    requires OpenIsWhole(c)
    ensures OpenIsWhole(OneMore(c, p))
    ensures Lost(OneMore(c, p))
      == Lost(c) + if (c.connected || Accepts(c.connects)) && Budget(c.sends) >= |p| then 0 else 1
  {
    hide Budget, SendsLeft, Whole, Completed, Carry;
    if c.connected || Accepts(c.connects) {
      var taken := Min(|p|, Budget(c.sends));
      var before := if c.connected then Front(c.links) else c.links;
      var l := if c.connected then Last(c.links) else Link([], []);
      var open := if c.connected then c.links else c.links + [l];
      assert Whole(l) by { EmptyWhole(); }
      assert open == before + [l] && Front(open) == before;
      CarryCounts(l, p, taken);
      CutsSnoc(before, l);
      CutsSnoc(before, Carry(l, p, taken));
      assert OneMore(c, p).links == before + [Carry(l, p, taken)];
      hide Cuts;
      if !c.connected { assert Cuts(open) == Cuts(c.links); }
    }
  }

  lemma EmptyWhole()
    ensures Whole(Link([], []))
  {
  }

  /** Nothing is lost exactly when the first connect succeeds and the sends take every packet. */
  lemma {:induction false} AllDeliveredIff(ps: seq<Packet>, connects: seq<bool>, sends: seq<SendOutcome>)
    ensures var c := CourseOf(Begun(connects, sends), ps);
      OpenIsWhole(c) && (Lost(c) == 0 <==> AllGoesOut(ps, connects, sends))
  {
    if ps != [] {
      var before, p := Front(ps), Last(ps);
      var c := CourseOf(Begun(connects, sends), before);
      AllDeliveredIff(before, connects, sends);
      OneLossIff(c, p);
      if Lost(c) == 0 && before != [] { OneConnection(before, connects, sends); }
      hide OneMore, Budget, SendsLeft, OpenIsWhole, Lost;
      assert Taken(ps, sends) == (Taken(before, sends) && Budget(SendsAfter(before, sends)) >= |p|);
      assert AllGoesOut(ps, connects, sends)
        <==> AllGoesOut(before, connects, sends) && Accepts(connects) && Budget(SendsAfter(before, sends)) >= |p|;
    }
  }

  /** The packet of a failed send is not sent again: the next one goes out on a new connection. */
  lemma FailedSendLoses(p: Packet, q: Packet)
    requires p != [] && q != []
    ensures var c := CourseOf(Begun([true, true], [Refused, Wrote(|q|)]), [p, q]);
      c.links == [Link([p], []), Link([q], q)] && Lost(c) == 1
  {
    hide OneMore, CourseOf, Budget, SendsLeft, Tail, Cuts, Accepts;
    var start, sends := Begun([true, true], [Refused, Wrote(|q|)]), [Wrote(|q|)];
    var half := Course([Link([p], [])], false, 0, [true], sends);
    OneRefusal(p, q);
    assert [p, q] == [] + [p] + [q];
    CourseGrows(start, [], p);
    CourseGrows(start, [] + [p], q);
    OnNewLink(start, p);
    assert [] + [Link([p], [])] == [Link([p], [])] && p[..0] == [];
    assert OneMore(start, p) == half;
    OnNewLink(half, q);
    assert q[..|q|] == q;
    OneLossIff(start, p);
    OneLossIff(half, q);
  }

  lemma OneRefusal(p: Packet, q: Packet)
    requires p != [] && q != []
    ensures var sends := [Refused, Wrote(|q|)];
      Budget(sends) == 0 && SendsLeft(|p|, sends) == [Wrote(|q|)] && Budget([Wrote(|q|)]) == |q|
    ensures Accepts([true, true]) && Accepts([true]) && Tail([true, true]) == [true] && Cuts([]) == 0
  {
    var sends := [Wrote(|q|)];
    assert [Refused, Wrote(|q|)][1..] == sends && Budget(sends[1..]) == 0;
  }

  /** How many `send` calls take something before the first error. */
  function Successes(sends: seq<SendOutcome>): (n: nat) {
    if sends == [] then 0
    else
      match sends[0]
      case Eintr => Successes(sends[1..])
      case Refused => 0
      case Wrote(k) => if k == 0 then 0 else 1 + Successes(sends[1..])
  }

  lemma {:induction false} SuccessesLeft(n: nat, sends: seq<SendOutcome>)
    requires n <= Successes(sends)
    ensures n <= Budget(sends) && Successes(sends) - n <= Successes(SendsLeft(n, sends))
    decreases |sends|
  {
    if n > 0 {
      match sends[0] {
        case Eintr => SuccessesLeft(n, sends[1..]);
        case Refused =>
        case Wrote(k) => SuccessesLeft(if k < n then n - k else 0, sends[1..]);
      }
    }
  }

  /** As many successful sends as there are bytes take every packet, however few bytes each of them takes. */
  lemma {:induction false} EnoughSends(ps: seq<Packet>, sends: seq<SendOutcome>)
    requires |Concat(ps)| <= Successes(sends)
    ensures Taken(ps, sends) && Successes(sends) - |Concat(ps)| <= Successes(SendsAfter(ps, sends))
  {
    if ps != [] {
      var before, p := Front(ps), Last(ps);
      assert ps == before + [p];
      ConcatSnoc(before, p);
      EnoughSends(before, sends);
      SuccessesLeft(|p|, SendsAfter(before, sends));
      hide Concat, Successes, Budget, SendsLeft;
    }
  }

  /** What Windows gets out of the bytes that arrive on each connection, in connection order. */
  function Received(arrived: seq<seq<byte>>): (ps: seq<Packet>) {
    if arrived == [] then [] else ParseAll(arrived[0]) + Received(arrived[1..])
  }

  /** `n` packets of `ps` are complete in `q`. */
  predicate CompleteIn(ps: seq<Packet>, q: seq<byte>, n: nat) {
    && n <= |ps|
    && |Concat(ps[..n])| <= |q|
    && (n < |ps| ==> |q| < |Concat(ps[..n + 1])|)
  }

  lemma ConcatLonger(ps: seq<Packet>, j: nat, k: nat)
    requires j <= k <= |ps|
    ensures |Concat(ps[..j])| <= |Concat(ps[..k])|
  {
    assert ps[..k] == ps[..j] + ps[j..k];
    ConcatAppend(ps[..j], ps[j..k]);
  }

  lemma OneCount(ps: seq<Packet>, q: seq<byte>, j: nat, k: nat)
    requires CompleteIn(ps, q, j) && CompleteIn(ps, q, k)
    ensures j == k
  {
    if j < k { ConcatLonger(ps, j + 1, k); }
    if k < j { ConcatLonger(ps, k + 1, j); }
  }

  lemma CompletedCount(l: Link)
    requires Whole(l) || CutShort(l)
    ensures CompleteIn(l.given, l.wire, |Completed(l)|) && Completed(l) == l.given[..|Completed(l)|]
  {
    assert l.given[..|l.given|] == l.given;
  }

  /** Per connection: Windows parses a prefix of what the connection was given, and all that went out whole. */
  lemma LinkSafety(l: Link, arrived: seq<byte>)
    requires Whole(l) || CutShort(l)
    requires forall p | p in l.given :: WellFormed(p)
    requires arrived <= l.wire
    ensures ParseAll(arrived) <= l.given
    ensures arrived == l.wire ==> ParseAll(arrived) == Completed(l)
  {
    assert arrived <= Concat(l.given);
    var k := ParsePrefix(l.given, arrived);
    hide ParseAll, WellFormed, Concat;
    if arrived == l.wire {
      CompletedCount(l);
      OneCount(l.given, arrived, k, |Completed(l)|);
    }
  }

  lemma SubsequenceMembers(a: seq<Packet>, b: seq<Packet>)
    requires Subsequence(a, b)
    ensures forall x | x in a :: x in b
  {
    if a != [] {
      assert a == [a[0]] + a[1..] && b == [b[0]] + b[1..];
      if a[0] == b[0] && Subsequence(a[1..], b[1..]) {
        SubsequenceMembers(a[1..], b[1..]);
      } else {
        SubsequenceMembers(a, b[1..]);
      }
    }
  }

  lemma PrefixSubsequence(a: seq<Packet>, b: seq<Packet>)
    requires a <= b
    ensures Subsequence(a, b)
  {
    if a != [] {
      assert a[1..] <= b[1..];
      PrefixSubsequence(a[1..], b[1..]);
    }
  }

  /** The arriving bytes of each connection are some prefix of what its socket took. */
  ghost predicate Arrives(links: seq<Link>, arrived: seq<seq<byte>>) {
    |arrived| == |links| && forall i | 0 <= i < |arrived| :: arrived[i] <= links[i].wire
  }

  lemma ArrivesTail(links: seq<Link>, arrived: seq<seq<byte>>)
    requires links != [] && Arrives(links, arrived)
    ensures arrived[0] <= links[0].wire && Arrives(links[1..], arrived[1..])
  {
  }

  lemma {:induction false} ReceivedSubsequence(links: seq<Link>, arrived: seq<seq<byte>>)
    requires Arrives(links, arrived)
    requires forall l | l in links :: Whole(l) || CutShort(l)
    requires forall p | p in AllGiven(links) :: WellFormed(p)
    ensures Subsequence(Received(arrived), AllGiven(links))
  {
    if links != [] {
      assert links[0] in links;
      ArrivesTail(links, arrived);
      hide Arrives, Concat, ParseAll, WellFormed, Whole, CutShort, Subsequence;
      ReceivedSubsequence(links[1..], arrived[1..]);
      LinkSafety(links[0], arrived[0]);
      PrefixSubsequence(ParseAll(arrived[0]), links[0].given);
      SubsequenceAppend(ParseAll(arrived[0]), links[0].given, Received(arrived[1..]), AllGiven(links[1..]));
    } else {
      assert Received(arrived) == [];
    }
  }

  lemma RelaySafety(links: seq<Link>, parsed: seq<Packet>, phone: seq<Packet>, arrived: seq<seq<byte>>)
    requires forall l | l in links :: Whole(l) || CutShort(l)
    requires Subsequence(AllGiven(links), parsed) && parsed <= phone
    requires forall p | p in phone :: WellFormed(p)
    requires Arrives(links, arrived)
    ensures forall i | 0 <= i < |links| :: ParseAll(arrived[i]) <= links[i].given
    ensures Subsequence(Received(arrived), phone)
  {
    PrefixSubsequence(parsed, phone);
    SubsequenceTransitive(AllGiven(links), parsed, phone);
    SubsequenceMembers(AllGiven(links), phone);
    ReceivedSubsequence(links, arrived);
    SubsequenceTransitive(Received(arrived), AllGiven(links), phone);
    forall i | 0 <= i < |links|
      ensures ParseAll(arrived[i]) <= links[i].given
    {
      assert links[i] in links && arrived[i] <= links[i].wire;
      GivenMembers(links, i);
      LinkSafety(links[i], arrived[i]);
    }
  }

  lemma GivenMembers(links: seq<Link>, i: nat)
    requires i < |links|
    ensures forall p | p in links[i].given :: p in AllGiven(links)
  {
    if i > 0 { GivenMembers(links[1..], i - 1); }
  }

  /** What arrives of link `i`: the first `cuts[i]` bytes, or all of them when there is no cut. */
  function Arriving(links: seq<Link>, cuts: seq<nat>, i: nat): (b: seq<byte>)
    requires i < |links|
  {
    if i < |cuts| && cuts[i] < |links[i].wire| then links[i].wire[..cuts[i]] else links[i].wire
  }

  function AllArriving(links: seq<Link>, cuts: seq<nat>): (arrived: seq<seq<byte>>)
    ensures |arrived| == |links| && forall i | 0 <= i < |arrived| :: arrived[i] == Arriving(links, cuts, i)
  {
    seq(|links|, i requires 0 <= i < |links| => Arriving(links, cuts, i))
  }

  /** Windows handles the connections one after the other. */
  method Receive(links: seq<Link>, cuts: seq<nat>, sizes: seq<seq<nat>>) returns (published: seq<Packet>)
    ensures published == Received(AllArriving(links, cuts))
  {
    hide ParseAll, Received;
    published := [];
    ghost var all := AllArriving(links, cuts);
    assert Received(all[..0]) == [] by { NothingYet(all); }
    for i := 0 to |links|
      invariant published == Received(all[..i])
    {
      var bytes := Arriving(links, cuts, i);
      var conn := new TcpConnection(bytes, if i < |sizes| then sizes[i] else []);
      ReceivedSnoc(all[..i], bytes);
      assert all[..i + 1] == all[..i] + [bytes];
      var ps := conn.Handle();
      published := published + ps;
    }
    assert all[..|links|] == all;
  }

  lemma NothingYet(arrived: seq<seq<byte>>)
    ensures Received(arrived[..0]) == []
  {
  }

  lemma {:induction false} AllReceived(links: seq<Link>, arrived: seq<seq<byte>>)
    requires |arrived| == |links| && forall i | 0 <= i < |links| :: arrived[i] == links[i].wire
    requires forall l | l in links :: Whole(l) || CutShort(l)
    requires forall p | p in AllGiven(links) :: WellFormed(p)
    ensures Received(arrived) == AllCompleted(links)
  {
    if links == [] {
      assert arrived == [];
    } else {
      assert links[0] in links;
      hide ParseAll, WellFormed, Whole, CutShort, Completed;
      AllReceived(links[1..], arrived[1..]);
      LinkSafety(links[0], arrived[0]);
    }
  }

  /** Every packet is delivered, was in a send that failed, or met a refused connection. */
  lemma Conservation(bridge: Bridge, phone: seq<Packet>, arrived: seq<seq<byte>>)
    requires bridge.Valid() && bridge.parsed == phone
    requires forall p | p in phone :: WellFormed(p)
    requires |arrived| == |bridge.links| && forall i | 0 <= i < |arrived| :: arrived[i] == bridge.links[i].wire
    ensures |Received(arrived)| + Cuts(bridge.links) + bridge.refused == |phone|
  {
    SubsequenceMembers(AllGiven(bridge.links), phone);
    OneLossPerCut(bridge.links);
    AllReceived(bridge.links, arrived);
    hide Subsequence, Received, AllGiven, AllCompleted, Cuts, WellFormed, Whole, CutShort;
  }

  /**
   * End to end: whatever the transfers, connect failures, partial sends and cuts, Windows parses on
   * each connection a prefix of what that connection was given, and over all connections a
   * subsequence of the packets in the USB stream: none made up, none repeated, none reordered, each
   * byte-identical. What connections there are and what they were given is the course of the packets
   * read, under the outcomes of the connects and sends. If the bridge runs for long enough, it
   * handles all packets, and if besides no connection is cut, those that are missing are as many as
   * the sends that failed plus the connects that did.
   */
  method EndToEnd(bridge: Bridge, cuts: seq<nat>, sizes: seq<seq<nat>>) returns (published: seq<Packet>)
    requires bridge.Valid() && bridge.parsed == [] && bridge.reader.Valid()
    modifies bridge, bridge.reader, bridge.reader.buf
    ensures bridge.Valid() && published == Received(AllArriving(bridge.links, cuts))
    ensures bridge.parsed <= ParseStream(Stream(old(bridge.reader.unread), old(bridge.reader.ending)))
    ensures bridge.Now() == CourseOf(old(bridge.Now()), bridge.parsed).(connected := false)
    ensures forall i | 0 <= i < |bridge.links| :: ParseAll(Arriving(bridge.links, cuts, i)) <= bridge.links[i].given
    ensures Subsequence(published, ParseStream(Stream(old(bridge.reader.unread), old(bridge.reader.ending))))
    ensures old(LongEnough(bridge.reader)) ==>
      bridge.parsed == ParseStream(Stream(old(bridge.reader.unread), old(bridge.reader.ending)))
    ensures old(LongEnough(bridge.reader)) && cuts == [] ==>
      |published| + Cuts(bridge.links) + bridge.refused
      == |ParseStream(Stream(old(bridge.reader.unread), old(bridge.reader.ending)))|
  {
    hide Flatten, ParseStream, WellFormed, Whole, CutShort, Subsequence, Cuts, Received, ParseAll, LongEnough, Later;
    hide CourseOf;
    ghost var phone := ParseStream(Stream(bridge.reader.unread, bridge.reader.ending));
    StreamIsWellFormed(Stream(bridge.reader.unread, bridge.reader.ending));
    bridge.ForwardLoop();
    published := Receive(bridge.links, cuts, sizes);
    ghost var arrived := AllArriving(bridge.links, cuts);
    RelaySafety(bridge.links, bridge.parsed, phone, arrived);
    if old(LongEnough(bridge.reader)) && cuts == [] {
      Conservation(bridge, phone, arrived);
    }
  }

  lemma ReceivedSnoc(got: seq<seq<byte>>, b: seq<byte>)
    ensures Received(got + [b]) == Received(got) + ParseAll(b)
  {
    hide ParseAll;
    if got == [] {
      assert got + [b] == [b];
    } else {
      assert (got + [b])[1..] == got[1..] + [b];
    }
  }
}
