/**
 * The hub of win_video_server.py: browsers and raw viewers that join, the packets published to
 * them, and the config cache. Joins fall between publishes.
 */
module WinHub {
  import opened Bytes
  import Avc1
  import opened VideoPayload
  import opened WinReceiver

  /** What publish_avc1 lets through: more may follow the announced data. */
  predicate Accepted(p: seq<byte>) {
    && |p| >= 28 && p[..4] == Avc1.MAGIC
    && Avc1.ValidLength(Avc1.DataLength(p))
    && 28 + Avc1.DataLength(p) <= |p|
  }

  function Flags(p: seq<byte>): (f: nat) requires |p| >= 28 { ReadBe32(p[12..16]) }

  function Data(p: seq<byte>): (d: seq<byte>)
    requires Accepted(p)
  {
    p[28..28 + Avc1.DataLength(p)]
  }

  type Accepting = p: seq<byte> | Accepted(p) witness Avc1.MAGIC + seq(23, _ => 0) + [1, 7]

  // ---------- what a viewer should get ----------

  /** The newest config packet's data; the cache is replaced, not extended. */
  function ConfigAfter(h: seq<Accepting>): (c: seq<byte>)
    ensures |c| <= Avc1.MAX_DATA
  {
    if h == [] then []
    else if Flags(Last<Accepting>(h)) / 2 % 2 == 1 then Data(Last<Accepting>(h))
    else ConfigAfter(Front<Accepting>(h))
  }

  /** The size a joining browser is told: the latest, or the default for a zero. */
  function SizeAfter(h: seq<Accepting>): (s: (word, word)) {
    var w := if h == [] then 0 else ReadBe32(Last<Accepting>(h)[4..8]);
    var t := if h == [] then 0 else ReadBe32(Last<Accepting>(h)[8..12]);
    (if w == 0 then 720 else w, if t == 0 then 1568 else t)
  }

  function ConfigPayload(w: word, h: word, config: seq<byte>): (p: seq<byte>)
    requires |config| <= Avc1.MAX_DATA
  {
    Payload(Fields(w, h, 2, 0, config))
  }

  datatype Kind = Browser | Raw

  function Hello(kind: Kind, h: seq<Accepting>): (ms: seq<seq<byte>>) {
    var c := ConfigAfter(h);
    if c == [] then []
    else if kind == Raw then [c]
    else [ConfigPayload(SizeAfter(h).0, SizeAfter(h).1, c)]
  }

  /** One packet: a keyframe is led by the config the cache holds once the packet is in it. */
  function Story1(kind: Kind, config: seq<byte>, p: Accepting): (ms: seq<seq<byte>>)
    requires |config| <= Avc1.MAX_DATA
  {
    (if Flags(p) % 2 == 1 && config != []
     then [if kind == Raw then config else ConfigPayload(ReadBe32(p[4..8]), ReadBe32(p[8..12]), config)]
     else [])
    + [if kind == Raw then Data(p) else p]
  }

  function Story(kind: Kind, at: nat, h: seq<Accepting>): (ms: seq<seq<byte>>)
    requires at <= |h|
  {
    if |h| == at then [] else Story(kind, at, Front<Accepting>(h)) + Story1(kind, ConfigAfter(h), Last<Accepting>(h))
  }

  /** Every packet the receiver hands on is let through. */
  lemma ReceivedIsAccepted(p: seq<byte>)
    requires Avc1.WellFormed(p)
    ensures Accepted(p) && 28 + |Data(p)| == |p|
  {
  }

  /** A browser reads from a greeting the size and the config, as a config packet. */
  lemma GreetingReadsBack(h: seq<Accepting>)
    requires ConfigAfter(h) != []
    ensures h != [] && |Hello(Browser, h)| == 1
    ensures var w, t := ReadBe32(Last<Accepting>(h)[4..8]), ReadBe32(Last<Accepting>(h)[8..12]);
      ReadPayload(Hello(Browser, h)[0])
      == Some(Fields(if w == 0 then 720 else w, if t == 0 then 1568 else t, 2, 0, ConfigAfter(h)))
  {
    PayloadReadsBack(Fields(SizeAfter(h).0, SizeAfter(h).1, 2, 0, ConfigAfter(h)));
    hide ConfigAfter, SizeAfter, ReadPayload, Payload;
  }

  // ---------- connections ----------

  /** What each connection has taken whole; nothing more once a send on it has failed. */
  class Sockets {
    var wire: map<nat, seq<seq<byte>>>
    var failed: set<nat>
    var closed: set<nat>
    var outcomes: seq<bool>

    constructor (outcomes: seq<bool>)
      ensures wire == map[] && failed == {} && closed == {}
    {
      wire, failed, closed, this.outcomes := map[], {}, {}, outcomes;
    }

    /** sendall: False once the connection has failed or fails now. */
    method Send(c: nat, m: seq<byte>) returns (ok: bool)
      modifies this`wire, this`failed, this`outcomes
      ensures failed == if ok then old(failed) else old(failed) + {c}
      ensures c in old(failed) ==> !ok
      ensures forall d :: GotIn(wire, d) == old(GotIn(wire, d)) + if ok && d == c then [m] else []
    {
      ok := c !in failed && outcomes != [] && outcomes[0];
      if outcomes != [] { outcomes := outcomes[1..]; }
      if ok { wire := wire[c := GotIn(wire, c) + [m]]; } else { failed := failed + {c}; }
    }

    /** The loop of _broadcast_ws and _broadcast_raw, over the clients in any order. */
    method SendAll(clients: set<nat>, m: seq<byte>) returns (dead: set<nat>)
      modifies this`wire, this`failed, this`outcomes
      ensures dead == clients * failed && failed == old(failed) + dead
      ensures forall d :: GotIn(wire, d) == old(GotIn(wire, d)) + if d in clients && d !in failed then [m] else []
    {
      dead := {};
      var todo := clients;
      while todo != {}
        invariant todo <= clients && dead == (clients - todo) * failed && failed == old(failed) + dead
        invariant forall d ::
          GotIn(wire, d) == old(GotIn(wire, d)) + if d in clients - todo && d !in failed then [m] else []
        decreases todo
      {
        var c :| c in todo;
        todo := todo - {c};
        var ok := Send(c, m);
        if !ok { dead := dead + {c}; }
      }
    }

    method Close(dead: set<nat>)
      modifies this`closed
      ensures closed == old(closed) + dead
    {
      closed := closed + dead;
    }
  }

  function GotIn(wire: map<nat, seq<seq<byte>>>, c: nat): (ms: seq<seq<byte>>) {
    if c in wire then wire[c] else []
  }

  /** What the listed connections have taken, as far as no send on them failed. */
  ghost predicate UpToDate(kind: Kind, clients: set<nat>, wire: map<nat, seq<seq<byte>>>, failed: set<nat>,
                           joined: map<nat, nat>, h: seq<Accepting>)
  {
    forall c | c in clients ::
      && c in joined && joined[c] <= |h|
      && (c !in failed ==> GotIn(wire, c) == Hello(kind, h[..joined[c]]) + Story(kind, joined[c], h))
  }

  lemma StoryGrows(kind: Kind, at: nat, h: seq<Accepting>, p: Accepting)
    requires at <= |h|
    ensures (h + [p])[..at] == h[..at]
    ensures Story(kind, at, h + [p]) == Story(kind, at, h) + Story1(kind, ConfigAfter(h + [p]), p)
  {
    assert Front<Accepting>(h + [p]) == h;
    hide Story1, ConfigAfter;
  }

  lemma PublishedTo(kind: Kind, clients: set<nat>, wire: map<nat, seq<seq<byte>>>, failed: set<nat>,
                    wire': map<nat, seq<seq<byte>>>, failed': set<nat>, joined: map<nat, nat>, h: seq<Accepting>,
                        p: Accepting)
    requires UpToDate(kind, clients, wire, failed, joined, h) && failed <= failed'
    requires forall c | c in clients && c !in failed' ::
      GotIn(wire', c) == GotIn(wire, c) + Story1(kind, ConfigAfter(h + [p]), p)
    ensures UpToDate(kind, clients - failed', wire', failed', joined, h + [p])
  {
    hide Story1, ConfigAfter, Hello, GotIn;
    forall c | c in clients - failed'
      ensures GotIn(wire', c) == Hello(kind, (h + [p])[..joined[c]]) + Story(kind, joined[c], h + [p])
    {
      StoryGrows(kind, joined[c], h, p);
      Regroup(Hello(kind, h[..joined[c]]), Story(kind, joined[c], h), Story1(kind, ConfigAfter(h + [p]), p));
    }
    hide Story;
  }

  // ---------- from the packets' bytes ----------

  /** The flags are in the low bits of the packet's sixteenth byte. */
  lemma FlagBits(p: Accepting)
    ensures Flags(p) % 2 == 1 <==> p[15] % 2 == 1
    ensures Flags(p) / 2 % 2 == 1 <==> p[15] % 4 >= 2
  {
    var high := p[12] as int * 0x10000 + p[13] as int * 0x100 + p[14] as int;
    assert Flags(p) == 256 * high + p[15];
    LowByte(high, p[15]);
  }

  lemma LowByte(high: nat, low: byte)
    ensures (256 * high + low) % 2 == low % 2
    ensures (256 * high + low) / 2 % 2 == 1 <==> low % 4 >= 2
  {
    var half, bit := low / 2, low % 2;
    OneBit(128 * high + half, bit);
    OneBit(64 * high + half / 2, half % 2);
    assert 256 * high + low == 2 * (128 * high + half) + bit;
    assert 128 * high + half == 2 * (64 * high + half / 2) + half % 2;
  }

  lemma OneBit(k: nat, bit: nat)
    requires bit < 2
    ensures (2 * k + bit) / 2 == k && (2 * k + bit) % 2 == bit
  {
  }

  /** The data bytes of a packet, by its length field. */
  function Body(p: Accepting): (d: seq<byte>) { p[28..28 + ReadBe32(p[24..28])] }

  /** Packet `k` is the newest with the config flag. */
  predicate NewestConfig(h: seq<Accepting>, k: nat) {
    k < |h| && h[k][15] % 4 >= 2 && forall i | k < i < |h| :: h[i][15] % 4 < 2
  }

  /** The cache holds the data of the newest config packet, and nothing before the first. */
  lemma {:induction false} ConfigIsNewest(h: seq<Accepting>)
    ensures forall k: nat | NewestConfig(h, k) :: ConfigAfter(h) == Body(h[k])
    ensures (forall i | 0 <= i < |h| :: h[i][15] % 4 < 2) ==> ConfigAfter(h) == []
  {
    if h != [] {
      var front, last := Front<Accepting>(h), Last<Accepting>(h);
      FlagBits(last);
      ConfigIsNewest(front);
      hide Flags, Data;
      assert Data(last) == Body(last) by { SameData(last); }
      assert h[|h| - 1] == last && forall i | 0 <= i < |front| :: front[i] == h[i];
      forall k: nat | NewestConfig(h, k)
        ensures ConfigAfter(h) == Body(h[k])
      {
        if k < |h| - 1 {
          assert NewestConfig(front, k);
        }
      }
    }
  }

  lemma SameData(p: Accepting)
    ensures Data(p) == Body(p)
  {
  }

  /**
   * What a live viewer that was there before the last packet has received last: the packet (a raw
   * viewer its data), and right before a keyframe the newest config, for a browser as a config
   * packet with the keyframe's frame size.
   */
  lemma WireEnds(kind: Kind, clients: set<nat>, wire: map<nat, seq<seq<byte>>>, failed: set<nat>,
                 joined: map<nat, nat>, h: seq<Accepting>, c: nat, k: nat)
    requires UpToDate(kind, clients, wire, failed, joined, h) && c in clients && c !in failed
    requires h != [] && c in joined && joined[c] < |h| && NewestConfig(h, k)
    ensures var got, p := GotIn(wire, c), Last<Accepting>(h);
      && got != [] && Last(got) == (if kind == Raw then Body(p) else p)
      && (p[15] % 2 == 1 ==> |got| >= 2 && Leads(kind, got[|got| - 2], p, Body(h[k])))
  {
    var p, config := Last<Accepting>(h), ConfigAfter(h);
    ConfigIsNewest(h);
    FlagBits(p);
    SameData(p);
    BodyNotEmpty(h[k]);
    PayloadReadsBack(Fields(ReadBe32(p[4..8]), ReadBe32(p[8..12]), 2, 0, config));
    var before := Hello(kind, h[..joined[c]]) + Story(kind, joined[c], Front<Accepting>(h));
    Regroup(Hello(kind, h[..joined[c]]), Story(kind, joined[c], Front<Accepting>(h)), Story1(kind, config, p));
    hide Story, Hello, Flags, Data, ReadPayload, Payload, ConfigAfter, ReadBe32, NewestConfig, Body, Accepted;
    assert GotIn(wire, c) == before + Story1(kind, config, p);
  }

  /** The message in front of the keyframe `p`. */
  ghost predicate Leads(kind: Kind, m: seq<byte>, p: Accepting, config: seq<byte>)
    requires |config| < TWO_32
  {
    if kind == Raw then m == config
    else ReadPayload(m) == Some(Fields(ReadBe32(p[4..8]), ReadBe32(p[8..12]), 2, 0, config))
  }

  lemma BodyNotEmpty(p: Accepting)
    ensures Body(p) != []
  {
  }

  lemma StillUpToDate(kind: Kind, clients: set<nat>, wire: map<nat, seq<seq<byte>>>, failed: set<nat>,
                      wire': map<nat, seq<seq<byte>>>, failed': set<nat>, joined: map<nat, nat>, h: seq<Accepting>,
                          conn: nat)
    requires UpToDate(kind, clients, wire, failed, joined, h) && failed <= failed' && conn !in clients
    requires forall c | c in clients :: GotIn(wire', c) == GotIn(wire, c)
    ensures UpToDate(kind, clients, wire', failed', joined[conn := |h|], h)
  {
    hide Hello, GotIn, Story;
  }

  lemma Greeted(kind: Kind, clients: set<nat>, wire: map<nat, seq<seq<byte>>>, failed: set<nat>,
                joined: map<nat, nat>, h: seq<Accepting>, conn: nat)
    requires UpToDate(kind, clients, wire, failed, joined, h) && conn in joined && joined[conn] == |h|
    requires conn !in failed ==> GotIn(wire, conn) == Hello(kind, h)
    ensures UpToDate(kind, clients + {conn}, wire, failed, joined, h)
  {
    assert h[..|h|] == h && Story(kind, |h|, h) == [];
    hide Hello, GotIn, Story;
  }

  /** The viewers listed, and what has become of connections. */
  datatype Roster = Roster(ws: set<nat>, raw: set<nat>, closed: set<nat>, failed: set<nat>)

  /** Exactly the viewers whose connection has failed are dropped and closed, and no other has failed. */
  predicate Shed(before: Roster, now: Roster) {
    var gone := (before.ws + before.raw) * now.failed;
    && now.ws == before.ws - now.failed && now.raw == before.raw - now.failed
    && now.closed == before.closed + gone && now.failed == before.failed + gone
  }

  lemma ShedThen(a: Roster, b: Roster, c: Roster)
    requires Shed(a, b) && Shed(b, c)
    ensures Shed(a, c)
  {
  }

  class Hub {
    const net: Sockets
    var wsClients: set<nat>
    var rawClients: set<nat>
    var latestWidth: nat
    var latestHeight: nat
    var packetCount: nat
    var byteCount: nat
    var configCache: seq<byte>
    ghost var history: seq<Accepting>   // the packets published
    ghost var joined: map<nat, nat>     // how many there were when a connection joined

    ghost predicate Valid()
      reads this, net
    {
      && wsClients !! rawClients
      && UpToDate(Browser, wsClients, net.wire, net.failed, joined, history)
      && UpToDate(Raw, rawClients, net.wire, net.failed, joined, history)
      && Counts(configCache, latestWidth, latestHeight, packetCount, byteCount, history)
    }

    ghost function Now(): (r: Roster)
      reads this, net
    {
      Roster(wsClients, rawClients, net.closed, net.failed)
    }

    constructor (net: Sockets)
      ensures Valid() && this.net == net && history == [] && wsClients == {} && rawClients == {}
    {
      this.net, wsClients, rawClients, configCache, history, joined := net, {}, {}, [], [], map[];
      latestWidth, latestHeight, packetCount, byteCount := 0, 0, 0, 0;
    }

    /** add_ws, add_raw: listed first, greeted afterwards; a failed greeting is not noticed. */
    method Add(kind: Kind, conn: nat)
      requires Valid() && conn !in wsClients + rawClients && GotIn(net.wire, conn) == []
      modifies this`wsClients, this`rawClients, this`joined, net
      ensures Valid() && joined == old(joined)[conn := |history|]
      ensures wsClients == old(wsClients) + (if kind == Browser then {conn} else {})
      ensures rawClients == old(rawClients) + (if kind == Raw then {conn} else {})
    {
      ghost var wire, failed := net.wire, net.failed;
      hide Hello, UpToDate, Counts, Story, GotIn;
      Greet(kind, conn);
      StillUpToDate(Browser, wsClients, wire, failed, net.wire, net.failed, joined, history, conn);
      StillUpToDate(Raw, rawClients, wire, failed, net.wire, net.failed, joined, history, conn);
      joined := joined[conn := |history|];
      if kind == Browser {
        Greeted(Browser, wsClients, net.wire, net.failed, joined, history, conn);
        wsClients := wsClients + {conn};
      } else {
        Greeted(Raw, rawClients, net.wire, net.failed, joined, history, conn);
        rawClients := rawClients + {conn};
      }
    }

    /** remove_ws, remove_raw. */
    method Remove(conn: nat)
      requires Valid()
      modifies this`wsClients, this`rawClients
      ensures Valid() && wsClients == old(wsClients) - {conn} && rawClients == old(rawClients) - {conn}
    {
      hide Hello, Story, Counts;
      wsClients, rawClients := wsClients - {conn}, rawClients - {conn};
    }

    method Greet(kind: Kind, conn: nat)
      requires Counts(configCache, latestWidth, latestHeight, packetCount, byteCount, history)
          && GotIn(net.wire, conn) == []
      modifies net
      ensures conn !in net.failed ==> GotIn(net.wire, conn) == Hello(kind, history)
      ensures forall d | d != conn :: GotIn(net.wire, d) == old(GotIn(net.wire, d))
      ensures old(net.failed) <= net.failed <= old(net.failed) + {conn} && net.closed == old(net.closed)
    {
      var hello := Greeting(kind);
      hide Hello, GotIn;
      if hello.Some? {
        var ok := net.Send(conn, hello.value);
        assert [] + [hello.value] == [hello.value];
      }
    }

    method Greeting(kind: Kind) returns (m: Option<seq<byte>>)
      requires Counts(configCache, latestWidth, latestHeight, packetCount, byteCount, history)
      ensures Hello(kind, history) == if m.Some? then [m.value] else []
    {
      if configCache == [] { return None; }
      var w: word := if latestWidth == 0 then 720 else latestWidth;
      var t: word := if latestHeight == 0 then 1568 else latestHeight;
      m := Some(if kind == Raw then configCache else ConfigPayload(w, t, configCache));
    }

    /** _broadcast_ws, _broadcast_raw: the snapshot is sent to; those that fail are dropped and closed. */
    method Broadcast(kind: Kind, m: seq<byte>, clients: set<nat>)
      modifies this`wsClients, this`rawClients, net
      ensures forall d :: GotIn(net.wire, d) == old(GotIn(net.wire, d)) + if d in clients && d !in net.failed
          then [m] else []
      ensures net.failed == old(net.failed) + clients * net.failed
      ensures net.closed == old(net.closed) + clients * net.failed
      ensures wsClients == old(wsClients) - if kind == Browser then clients * net.failed else {}
      ensures rawClients == old(rawClients) - if kind == Raw then clients * net.failed else {}
    {
      var dead := net.SendAll(clients, m);
      if dead != {} {
        if kind == Browser { wsClients := wsClients - dead; } else { rawClients := rawClients - dead; }
        net.Close(dead);
      }
    }

    /** One broadcast to the browsers, then one to the raw viewers. */
    method BroadcastBoth(ws: set<nat>, raw: set<nat>, toWs: seq<byte>, toRaw: seq<byte>)
      requires ws !! raw
      modifies this`wsClients, this`rawClients, net
      ensures forall d | d in ws && d !in net.failed :: GotIn(net.wire, d) == old(GotIn(net.wire, d)) + [toWs]
      ensures forall d | d in raw && d !in net.failed :: GotIn(net.wire, d) == old(GotIn(net.wire, d)) + [toRaw]
      ensures forall d | d !in ws + raw || d in net.failed :: old(GotIn(net.wire, d)) <= GotIn(net.wire, d)
      ensures net.failed == old(net.failed) + (ws + raw) * net.failed
      ensures net.closed == old(net.closed) + (ws + raw) * net.failed
      ensures wsClients == old(wsClients) - ws * net.failed && rawClients == old(rawClients) - raw * net.failed
    {
      hide GotIn;
      Broadcast(Browser, toWs, ws);
      Broadcast(Raw, toRaw, raw);
    }

    /**
     * publish_avc1: afterwards every listed viewer has taken its greeting and then all packets since
     * it joined, each keyframe right after the current config; exactly the listed viewers whose
     * connection has failed are dropped and closed.
     */
    method Publish(payload: seq<byte>)
      requires Valid()
      modifies this`wsClients, this`rawClients, this`latestWidth, this`latestHeight, this`packetCount, this`byteCount,
               this`configCache, this`history, net
      ensures Valid() && history == old(history) + if Accepted(payload) then [payload] else []
      ensures if Accepted(payload) then Shed(old(Now()), Now()) else Now() == old(Now())
    {
      hide ReadBe32, UpToDate, Story, Story1, ConfigAfter;
      if |payload| < 28 || payload[..4] != Avc1.MAGIC { return; }
      var n := ReadBe32(payload[24..28]);
      if n == 0 || n > Avc1.MAX_DATA || 28 + n > |payload| { return; }
      assert Accepted(payload);
      hide Accepted;
      var h264 := payload[28..28 + n];
      ghost var h, wire, failed, ws, raw := history, net.wire, net.failed, wsClients, rawClients;
      CountsGrow(configCache, latestWidth, latestHeight, packetCount, byteCount, h, payload);
      hide Counts;
      latestWidth, latestHeight := ReadBe32(payload[4..8]), ReadBe32(payload[8..12]);
      packetCount, byteCount := packetCount + 1, byteCount + n;
      if ReadBe32(payload[12..16]) / 2 % 2 == 1 { configCache := h264; }
      history := history + [payload];
      TellAll(payload, h264, configCache);
      PublishedTo(Browser, ws, wire, failed, net.wire, net.failed, joined, h, payload);
      PublishedTo(Raw, raw, wire, failed, net.wire, net.failed, joined, h, payload);
    }

    /** The sending half of publish_avc1. */
    method TellAll(payload: Accepting, h264: seq<byte>, config: seq<byte>)
      requires wsClients !! rawClients && h264 == Data(payload) && |config| <= Avc1.MAX_DATA
      modifies this`wsClients, this`rawClients, net
      ensures forall c | c in old(wsClients) && c !in net.failed ::
        GotIn(net.wire, c) == old(GotIn(net.wire, c)) + Story1(Browser, config, payload)
      ensures forall c | c in old(rawClients) && c !in net.failed ::
        GotIn(net.wire, c) == old(GotIn(net.wire, c)) + Story1(Raw, config, payload)
      ensures net.failed == old(net.failed) + (old(wsClients) + old(rawClients)) * net.failed
      ensures net.closed == old(net.closed) + (old(wsClients) + old(rawClients)) * net.failed
      ensures wsClients == old(wsClients) - net.failed && rawClients == old(rawClients) - net.failed
    {
      hide ConfigPayload, GotIn, Data;
      var ws, raw := wsClients, rawClients;
      if Flags(payload) % 2 == 1 && config != [] {
        BroadcastBoth(ws, raw, ConfigPayload(ReadBe32(payload[4..8]), ReadBe32(payload[8..12]), config), config);
      }
      BroadcastBoth(ws, raw, payload, h264);
    }
  }

  /** One turn of VideoInHandler: a packet that was read is published, and is never turned away. */
  method HandleOne(conn: TcpConnection, hub: Hub) returns (more: bool)
    requires hub.Valid()
    modifies conn, hub, hub.net
    ensures hub.Valid()
    ensures match Avc1.Next(old(conn.data))
            case Found(p, rest) => more && conn.data == rest && hub.history == old(hub.history) + [p]
            case _ => !more && hub.history == old(hub.history)
    ensures if more then Shed(old(hub.Now()), hub.Now()) else hub.Now() == old(hub.Now())
  {
    hide Shed, Accepted, UpToDate, Counts, Avc1.Try;
    var packet := conn.ReadAvc1Packet();
    if packet.None? { return false; }
    ReceivedIsAccepted(packet.value);
    hub.Publish(packet.value);
    more := true;
  }

  /**
   * VideoInHandler: every packet of the connection is published, so what the viewers get is the
   * greeting and the fold over exactly the packets the bytes parse to. Only viewers whose connection
   * has failed are dropped, and if there was a packet, all of them.
   */
  method HandleVideo(conn: TcpConnection, hub: Hub)
    requires hub.Valid()
    modifies conn, hub, hub.net
    ensures hub.Valid() && hub.history == old(hub.history) + Avc1.ParseAll(old(conn.data))
    ensures if Avc1.ParseAll(old(conn.data)) == [] then hub.Now() == old(hub.Now()) else Shed(old(hub.Now()), hub.Now())
  {
    hide Shed, Avc1.ParseAll, UpToDate, Counts, Avc1.Next;
    ghost var h, data := hub.history, conn.data;
    var more := true;
    ghost var left := Avc1.ParseAll(data);
    ghost var before := hub.Now();
    while more
      invariant hub.Valid() && |hub.history| >= |h| && hub.history + left == h + Avc1.ParseAll(data)
      invariant left == if more then Avc1.ParseAll(conn.data) else []
      invariant if |hub.history| == |h| then hub.Now() == before else Shed(before, hub.Now())
      decreases more, |conn.data|
    {
      ParseFirst(conn.data);
      ghost var was, done := hub.Now(), hub.history;
      more := HandleOne(conn, hub);
      left := if more then Avc1.ParseAll(conn.data) else [];
      if more {
        Regroup(done, [hub.history[|done|]], left);
        if |done| > |h| { ShedThen(before, was, hub.Now()); }
      }
    }
  }

  lemma ParseFirst(s: seq<byte>)
    ensures Avc1.ParseAll(s) ==
      match Avc1.Next(s) case Found(p, rest) => [p] + Avc1.ParseAll(rest) case _ => []
  {
  }

  predicate Counts(config: seq<byte>, width: nat, height: nat, packets: nat, bytes: nat, h: seq<Accepting>) {
    && config == ConfigAfter(h)
    && width == (if h == [] then 0 else ReadBe32(Last<Accepting>(h)[4..8]))
    && height == (if h == [] then 0 else ReadBe32(Last<Accepting>(h)[8..12]))
    && packets == |h| && bytes == DataBytes(h)
  }

  function DataBytes(h: seq<Accepting>): (n: nat) {
    if h == [] then 0 else DataBytes(Front<Accepting>(h)) + |Data(Last<Accepting>(h))|
  }

  lemma CountsGrow(config: seq<byte>, width: nat, height: nat, packets: nat, bytes: nat, h: seq<Accepting>,
      p: Accepting)
    requires Counts(config, width, height, packets, bytes, h)
    ensures Counts(if Flags(p) / 2 % 2 == 1 then Data(p) else config, ReadBe32(p[4..8]), ReadBe32(p[8..12]),
                   packets + 1, bytes + |Data(p)|, h + [p])
  {
    assert Front<Accepting>(h + [p]) == h;
  }
}
