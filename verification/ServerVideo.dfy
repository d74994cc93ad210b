/**
 * The server's video path as a whole: what the reader thread reads becomes the hub's history, the
 * hub's broadcasts are those of the linked lists, and a browser decodes what the hub told it.
 */
module ServerVideo {
  import opened Bytes
  import opened Avc1
  import opened UsbReader
  import opened ConfigCache
  import opened Hub
  import opened VideoPayload
  import Deframer
  import WebSocket
  import Lists = Broadcast

  // ---------- from packets to the hub's history ----------

  /** What publish_h264_packet makes of a packet the reader has read. */
  function PacketOf(p: seq<byte>): (packet: Packet)
    requires WellFormed(p)
    ensures 0 < |packet.data| <= MAX_DATA + 4 && HasStartCode(packet.data)
    ensures packet.width < TWO_32 && packet.height < TWO_32 && packet.flags < TWO_32 && packet.pts < WebSocket.MAX_SIZE
  {
    Packet(ReadBe32(p[4..8]), ReadBe32(p[8..12]), ReadBe32(p[12..16]), ReadBe64(p[16..24]), Normalise(p[HEADER..]))
  }

  function Publishing(packets: seq<seq<byte>>): (h: seq<Published>)
    requires forall p | p in packets :: WellFormed(p)
    ensures |h| == |packets| && forall i | 0 <= i < |h| :: h[i] == Published(PacketOf(packets[i]), true)
  {
    seq(|packets|, i requires 0 <= i < |packets| => Published(PacketOf(packets[i]), true))
  }

  /** The reader thread, up to the calls of publish_h264_packet. */
  method ReaderPublishes(script: seq<Transfer>, runs: nat) returns (history: seq<Published>)
    ensures forall p | p in ParseStream(Flatten(script)) :: WellFormed(p)
    ensures history <= Publishing(ParseStream(Flatten(script)))
    ensures runs >= Looks(script) ==> history == Publishing(ParseStream(Flatten(script)))
  {
    StreamIsWellFormed(Flatten(script));
    hide Flatten, ParseStream, Looks, WellFormed;
    ghost var all := ParseStream(Flatten(script));
    var reader := new UsbStreamReader(script, runs);
    var packets := Deframer.ReaderThread(reader);
    forall p | p in packets
      ensures WellFormed(p)
    {
      var i :| 0 <= i < |packets| && packets[i] == p;
      assert all[i] == p && p in all;
    }
    history := Publishing(packets);
  }

  // ---------- the lists behind the hub's broadcasts ----------

  type Names = map<Lists.Client, nat>

  predicate Named(list: seq<Lists.Client>, names: Names) {
    forall i | 0 <= i < |list| :: list[i] in names
  }

  function Ids(list: seq<Lists.Client>, names: Names): (ids: seq<nat>)
    requires Named(list, names)
    ensures |ids| == |list| && forall i | 0 <= i < |ids| :: ids[i] == names[list[i]]
  {
    seq(|list|, i requires 0 <= i < |list| => names[list[i]])
  }

  /** Under these names for its nodes, the list holds exactly the clients the hub has listed for it. */
  ghost predicate Represents(list: seq<Lists.Client>, names: Names, clients: map<nat, Client>, kind: Kind) {
    && Named(list, names)
    && forall id: nat ::
         id in clients && clients[id].kind == kind && clients[id].stage == Listed <==> id in Ids(list, names)
  }

  lemma {:induction false} SurvivorsNamed(list: seq<Lists.Client>, outcomes: seq<bool>, names: Names)
    requires Named(list, names)
    ensures Named(Lists.Survivors(list, outcomes), names)
    ensures forall id | id in Ids(Lists.Survivors(list, outcomes), names) :: id in Ids(list, names)
  {
    if list != [] {
      var rest, later := list[1..], Lists.Later(outcomes);
      SurvivorsNamed(rest, later, names);
      var ids, all, kept := Ids(rest, names), Ids(list, names), Lists.Survivors(list, outcomes);
      assert all[0] == names[list[0]] && all[1..] == ids;
      if Lists.Outcome(outcomes) {
        assert kept == [list[0]] + Lists.Survivors(rest, later);
        assert Ids(kept, names) == [names[list[0]]] + Ids(Lists.Survivors(rest, later), names);
      } else {
        assert kept == Lists.Survivors(rest, later);
      }
    }
  }

  /** The clients whose send fails in a broadcast over the list. */
  function LostIds(list: seq<Lists.Client>, outcomes: seq<bool>, names: Names): (lost: set<nat>)
    requires Named(list, names) && Named(Lists.Survivors(list, outcomes), names)
  {
    set id | id in Ids(list, names) && id !in Ids(Lists.Survivors(list, outcomes), names)
  }

  /** A broadcast over the linked list is a delivery of the hub: the same clients stay and get the message. */
  lemma BroadcastIsDelivery(list: seq<Lists.Client>, outcomes: seq<bool>, names: Names, clients: map<nat, Client>,
                            kind: Kind, m: Message)
    requires Represents(list, names, clients, kind)
    ensures Named(Lists.Survivors(list, outcomes), names)
    ensures var rest := Lists.Survivors(list, outcomes);
      var after := Deliver(clients, kind, m, LostIds(list, outcomes, names));
      && Represents(rest, names, after, kind)
      && (forall id | id in Ids(rest, names) :: id in clients && after[id].stream == clients[id].stream + [m])
      && (forall id | id in clients && id !in Ids(list, names) :: after[id] == clients[id])
  {
    SurvivorsNamed(list, outcomes, names);
    hide Lists.Survivors, Ids;
  }

  /** The bytes that go out for a message. */
  function Wire(kind: Kind, m: Message): (b: seq<byte>)
    requires Sendable(m)
  {
    if kind == Raw then match m case Config(bytes, _) => bytes case Media(p) => p.data
    else WebSocket.ServerFrame(WebSocket.BINARY, Payload(FieldsOf(m)))
  }

  predicate AllSendable(ms: seq<Message>) {
    forall k | 0 <= k < |ms| :: Sendable(ms[k])
  }

  /** The bytes of one message after another. */
  function WireAll(kind: Kind, ms: seq<Message>): (b: seq<byte>)
    requires AllSendable(ms)
  {
    if ms == [] then [] else WireAll(kind, Front(ms)) + Wire(kind, Last(ms))
  }

  lemma WireMore(kind: Kind, ms: seq<Message>, m: Message)
    requires AllSendable(ms) && Sendable(m)
    ensures AllSendable(ms + [m]) && WireAll(kind, ms + [m]) == WireAll(kind, ms) + Wire(kind, m)
  {
    assert Front(ms + [m]) == ms;
    hide Wire, Sendable;
  }

  /** A browser gets the frames of its messages' payloads. */
  lemma {:induction false} BrowserWire(ms: seq<Message>)
    requires AllSendable(ms)
    ensures WireAll(Browser, ms) == WebSocket.ServerFrames(Payloads(ms))
  {
    hide Payload, FieldsOf, Sendable, Payloads, WebSocket.ServerFrame, WebSocket.ServerFrames;
    if ms == [] {
      NoFrames();
    } else {
      var before, m := Front(ms), Last(ms);
      BrowserWire(before);
      PayloadsGrow(before, m);
      assert before + [m] == ms;
      WebSocket.FramesGrow(Payloads(before), Payload(FieldsOf(m)));
    }
  }

  lemma NoFrames()
    ensures Payloads([]) == [] && WebSocket.ServerFrames([]) == []
  {
  }

  /** A raw client gets the data of its messages: config bytes and packets' data, nothing around them. */
  lemma {:induction false} RawWire(ms: seq<Message>)
    requires AllSendable(ms)
    ensures WireAll(Raw, ms) == Concat(DataOf(ms))
  {
    hide Sendable, Concat;
    if ms == [] {
      assert DataOf(ms) == [];
      NoData();
    } else {
      var before, m := Front(ms), Last(ms);
      RawWire(before);
      ConcatSnoc(DataOf(before), if m.Config? then m.bytes else m.packet.data);
      assert DataOf(ms) == DataOf(before) + [if m.Config? then m.bytes else m.packet.data];
    }
  }

  function DataOf(ms: seq<Message>): (parts: seq<seq<byte>>) {
    seq(|ms|, k requires 0 <= k < |ms| => if ms[k].Config? then ms[k].bytes else ms[k].packet.data)
  }

  lemma NoData()
    ensures Concat<byte>([]) == []
  {
  }

  // ---------- what has gone out on a socket ----------

  /** The bytes of the sends on `fd` that succeeded. */
  function On(log: seq<Lists.Effect>, fd: int): (b: seq<byte>) {
    if log == [] then []
    else
      var e := Last(log);
      On(Front(log), fd) + if e.Sent? && e.fd == fd && e.ok then e.data else []
  }

  lemma {:induction false} OnAppend(a: seq<Lists.Effect>, b: seq<Lists.Effect>, fd: int)
    ensures On(a + b, fd) == On(a, fd) + On(b, fd)
  {
    if b == [] {
      assert a + b == a && On(a, fd) + [] == On(a, fd);
    } else {
      OnAppend(a, Front(b), fd);
      assert Front(a + b) == a + Front(b) && Last(a + b) == Last(b);
      var e := Last(b);
      Regroup(On(a, fd), On(Front(b), fd), if e.Sent? && e.fd == fd && e.ok then e.data else []);
    }
  }

  ghost predicate DistinctFds(list: seq<Lists.Client>) {
    forall i: nat, j: nat | i < j < |list| :: list[i].fd != list[j].fd
  }

  lemma OnHead(list: seq<Lists.Client>, outcomes: seq<bool>, data: seq<byte>, fd: int)
    requires list != []
    ensures On(Lists.Trace(list, outcomes, data), fd)
      == (if Lists.Outcome(outcomes) && list[0].fd == fd then data else [])
         + On(Lists.Trace(list[1..], Lists.Later(outcomes), data), fd)
  {
    var c, rest := list[0], Lists.Trace(list[1..], Lists.Later(outcomes), data);
    var sent, failed, closed := Lists.Sent(c.fd, data, true), Lists.Sent(c.fd, data, false), Lists.Closed(c.fd);
    OnOne(sent, fd);
    OnOne(failed, fd);
    OnOne(closed, fd);
    OnAppend([sent], rest, fd);
    OnAppend([closed], rest, fd);
    OnAppend([failed], [closed] + rest, fd);
    assert Lists.Trace(list, outcomes, data)
      == if Lists.Outcome(outcomes) then [sent] + rest else [failed] + ([closed] + rest);
    hide On, Lists.Trace;
    assert [] + On(rest, fd) == On(rest, fd);
  }

  lemma OnOne(e: Lists.Effect, fd: int)
    ensures On([e], fd) == if e.Sent? && e.fd == fd && e.ok then e.data else []
  {
    assert Front([e]) == [] && On([], fd) == [];
  }

  /** A broadcast sends nothing to a socket that is not in its list. */
  lemma {:induction false} OnOthers(list: seq<Lists.Client>, outcomes: seq<bool>, data: seq<byte>, fd: int)
    requires forall i | 0 <= i < |list| :: list[i].fd != fd
    ensures On(Lists.Trace(list, outcomes, data), fd) == []
  {
    if list != [] {
      OnHead(list, outcomes, data, fd);
      hide On, Lists.Trace;
      OnOthers(list[1..], Lists.Later(outcomes), data, fd);
    }
  }

  /** A client that stays has been sent the data, once. */
  lemma {:induction false} OnSurvivor(list: seq<Lists.Client>, outcomes: seq<bool>, data: seq<byte>, c: Lists.Client)
    requires DistinctFds(list) && c in Lists.Survivors(list, outcomes)
    ensures c in list && On(Lists.Trace(list, outcomes, data), c.fd) == data
  {
    if list != [] {
      var rest, later := list[1..], Lists.Later(outcomes);
      OnHead(list, outcomes, data, c.fd);
      assert DistinctFds(rest);
      assert Lists.Survivors(list, outcomes)
        == (if Lists.Outcome(outcomes) then [list[0]] else []) + Lists.Survivors(rest, later);
      hide On, Lists.Trace, Lists.Survivors;
      if c in Lists.Survivors(rest, later) {
        OnSurvivor(rest, later, data, c);
        assert exists j: nat :: j < |rest| && rest[j] == c;
        var j: nat :| j < |rest| && rest[j] == c;
        assert list[j + 1] == c;
      } else {
        OnOthers(rest, later, data, c.fd);
      }
    }
  }

  /** Each listed client's socket has taken the bytes of its stream, and the sockets are different. */
  ghost predicate Served(list: seq<Lists.Client>, names: Names, clients: map<nat, Client>, kind: Kind,
                         log: seq<Lists.Effect>)
  {
    && DistinctFds(list)
    && forall c | c in list :: c in names && names[c] in clients && SocketRight(c.fd, clients[names[c]], kind, log)
  }

  ghost predicate SocketRight(fd: int, c: Client, kind: Kind, log: seq<Lists.Effect>) {
    AllSendable(c.stream) && On(log, fd) == WireAll(kind, c.stream)
  }

  lemma {:induction false} SurvivorsDistinct(list: seq<Lists.Client>, outcomes: seq<bool>)
    requires DistinctFds(list)
    ensures DistinctFds(Lists.Survivors(list, outcomes))
    ensures forall c | c in Lists.Survivors(list, outcomes) :: c in list
  {
    if list != [] {
      var rest, later := list[1..], Lists.Later(outcomes);
      assert DistinctFds(rest);
      SurvivorsDistinct(rest, later);
      var kept := Lists.Survivors(rest, later);
      assert Lists.Survivors(list, outcomes) == (if Lists.Outcome(outcomes) then [list[0]] else []) + kept;
      hide Lists.Survivors;
      if Lists.Outcome(outcomes) {
        forall j | 0 <= j < |kept|
          ensures kept[j].fd != list[0].fd
        {
          assert kept[j] in rest;
        }
      }
    }
  }

  lemma BroadcastServes(list: seq<Lists.Client>, outcomes: seq<bool>, names: Names, clients: map<nat, Client>,
                        clients': map<nat, Client>, kind: Kind, m: Message, log: seq<Lists.Effect>)
    requires Served(list, names, clients, kind, log) && Sendable(m)
    requires forall c | c in Lists.Survivors(list, outcomes) ::
      c in names && names[c] in clients && names[c] in clients'
      && clients'[names[c]].stream == clients[names[c]].stream + [m]
    ensures Served(Lists.Survivors(list, outcomes), names, clients', kind,
                   log + Lists.Trace(list, outcomes, Wire(kind, m)))
  {
    hide On, Lists.Trace, Lists.Survivors, Wire, WireAll, Sendable;
    var rest, trace := Lists.Survivors(list, outcomes), Lists.Trace(list, outcomes, Wire(kind, m));
    SurvivorsDistinct(list, outcomes);
    forall c | c in rest
      ensures SocketRight(c.fd, clients'[names[c]], kind, log + trace)
    {
      OnSurvivor(list, outcomes, Wire(kind, m), c);
      OnAppend(log, trace, c.fd);
      WireMore(kind, clients[names[c]].stream, m);
    }
  }

  /** One broadcast of the server: the list's loop takes the hub one delivery further, on the sockets too. */
  method BroadcastStep(list: Lists.ClientList, net: Lists.Network, kind: Kind, m: Message, ghost names: Names,
      ghost s: State)
    returns (ghost s': State)
    requires list.Valid() && Sendable(m) && Represents(list.spine, names, s.clients, kind)
    requires Served(list.spine, names, s.clients, kind, net.log)
    modifies list, list.spine, net
    ensures list.Valid() && Represents(list.spine, names, s'.clients, kind)
    ensures Served(list.spine, names, s'.clients, kind, net.log)
    ensures exists lost :: s' == Tell(s, kind, m, lost)
    ensures list.spine == Lists.Survivors(old(list.spine), old(net.outcomes))
    ensures net.log == old(net.log) + Lists.Trace(old(list.spine), old(net.outcomes), Wire(kind, m))
  {
    BroadcastIsDelivery(list.spine, net.outcomes, names, s.clients, kind, m);
    ghost var lost := LostIds(list.spine, net.outcomes, names);
    s' := Tell(s, kind, m, lost);
    Delivered(list.spine, net.outcomes, names, s.clients, s'.clients, kind, m);
    BroadcastServes(list.spine, net.outcomes, names, s.clients, s'.clients, kind, m, net.log);
    hide Represents, Served, Deliver, Wire, Lists.Survivors, Lists.Trace;
    list.Broadcast(net, Wire(kind, m));
  }

  /** By name instead of by number. */
  lemma Delivered(list: seq<Lists.Client>, outcomes: seq<bool>, names: Names, clients: map<nat, Client>,
                  clients': map<nat, Client>, kind: Kind, m: Message)
    requires Named(list, names) && Named(Lists.Survivors(list, outcomes), names)
    requires forall id | id in Ids(Lists.Survivors(list, outcomes), names) ::
      id in clients && id in clients' && clients'[id].stream == clients[id].stream + [m]
    ensures forall c | c in Lists.Survivors(list, outcomes) ::
      c in names && names[c] in clients && names[c] in clients'
      && clients'[names[c]].stream == clients[names[c]].stream + [m]
  {
    hide Lists.Survivors;
    var rest := Lists.Survivors(list, outcomes);
    forall c | c in rest
      ensures names[c] in Ids(rest, names)
    {
      var k :| 0 <= k < |rest| && rest[k] == c;
      assert Ids(rest, names)[k] == names[c];
    }
  }

  // ---------- how a socket gets there ----------

  /** The greeting of serve_h264 and serve_video_ws: the cached config, if there is one. */
  method GreetStep(net: Lists.Network, fd: int, config: seq<byte>, size: Size, kind: Kind, ghost id: nat,
                   ghost s: State)
    returns (ok: bool, ghost s': State)
    requires id in s.clients && s.clients[id].stage == Arrived && s.clients[id].stream == []
    requires s.clients[id].kind == kind && s.clients[id].size == size && Contents(s.cache) == config
    requires Sendable(Config(config, size)) && On(net.log, fd) == []
    modifies net
    ensures s' == Apply(s, Greet(id, ok))
    ensures ok ==> SocketRight(fd, s'.clients[id], kind, net.log)
    ensures forall other: int | other != fd :: On(net.log, other) == old(On(net.log, other))
  {
    hide On, Wire, Contents, Sendable, Told;
    var greeting := Config(config, size);
    ghost var log := net.log;
    ok := true;
    if config != [] { ok := net.Send(fd, Wire(kind, greeting)); }
    s' := Apply(s, Greet(id, ok));
    GreetingSent(fd, kind, greeting, log, net.log, ok);
  }

  lemma GreetingSent(fd: int, kind: Kind, greeting: Message, log: seq<Lists.Effect>, log': seq<Lists.Effect>, ok: bool)
    requires greeting.Config? && Sendable(greeting) && On(log, fd) == []
    requires log' == log + if greeting.bytes == [] then [] else [Lists.Sent(fd, Wire(kind, greeting), ok)]
    ensures AllSendable([greeting])
    ensures ok ==> On(log', fd) == WireAll(kind, if greeting.bytes == [] then [] else [greeting])
    ensures forall other: int | other != fd :: On(log', other) == On(log, other)
  {
    hide On, Wire, Sendable;
    var sent := Lists.Sent(fd, Wire(kind, greeting), ok);
    if greeting.bytes == [] {
      assert log' == log;
    } else {
      forall other: int ensures On(log', other) == On(log, other) + if other == fd && ok then sent.data else [] {
        OnAppend(log, [sent], other);
        OnOne(sent, other);
      }
      WireMore(kind, [], greeting);
      assert [] + [greeting] == [greeting] && [] + Wire(kind, greeting) == Wire(kind, greeting);
    }
  }

  predicate NewFd(list: seq<Lists.Client>, fd: int) { forall c | c in list :: c.fd != fd }

  /** Its end: the new node goes to the front of the list. */
  method EnlistStep(list: Lists.ClientList, fd: int, kind: Kind, ghost id: nat, ghost names: Names, ghost s: State,
                    ghost log: seq<Lists.Effect>)
    returns (ghost names': Names, ghost s': State)
    requires list.Valid() && Represents(list.spine, names, s.clients, kind)
    requires Served(list.spine, names, s.clients, kind, log)
    requires id in s.clients && s.clients[id].stage == Greeted && s.clients[id].kind == kind
    requires SocketRight(fd, s.clients[id], kind, log) && NewFd(list.spine, fd)
    modifies list
    ensures list.Valid() && s' == Apply(s, Enlist(id))
    ensures Represents(list.spine, names', s'.clients, kind) && Served(list.spine, names', s'.clients, kind, log)
  {
    hide On, WireAll, Sendable, Contents, Told;
    ghost var before := list.spine;
    s' := Apply(s, Enlist(id));
    list.Join(fd);
    ghost var node := list.spine[0];
    names' := names[node := id];
    assert list.spine == [node] + before;
    FrontNamed(node, before, id, names, s.clients, s'.clients, kind);
    FrontServed(node, before, id, names, s.clients, s'.clients, kind, log);
  }

  lemma FrontNamed(node: Lists.Client, before: seq<Lists.Client>, id: nat, names: Names, clients: map<nat, Client>,
                   clients': map<nat, Client>, kind: Kind)
    requires node !in before && Represents(before, names, clients, kind)
    requires id in clients && clients[id].stage != Listed && id in clients'
    requires clients'[id].stage == Listed && clients'[id].kind == kind && clients' == clients[id := clients'[id]]
    ensures Represents([node] + before, names[node := id], clients', kind)
  {
    var list, names' := [node] + before, names[node := id];
    assert Named(list, names');
    assert forall i | 0 <= i < |before| :: before[i] in names;
    assert Ids(list, names') == [id] + Ids(before, names);
  }

  lemma FrontServed(node: Lists.Client, before: seq<Lists.Client>, id: nat, names: Names, clients: map<nat, Client>,
                    clients': map<nat, Client>, kind: Kind, log: seq<Lists.Effect>)
    requires node !in before && Served(before, names, clients, kind, log)
    requires id in clients' && clients' == clients[id := clients'[id]] && (forall c | c in before :: c.fd != node.fd)
    requires SocketRight(node.fd, clients'[id], kind, log)
    requires forall c | c in before :: c in names && names[c] != id
    ensures Served([node] + before, names[node := id], clients', kind, log)
  {
    hide SocketRight;
    var list := [node] + before;
    forall i: nat, j: nat | i < j < |list|
      ensures list[i].fd != list[j].fd
    {
      assert list[j] == before[j - 1];
      if i == 0 { assert before[j - 1] in before; } else { assert list[i] == before[i - 1]; }
    }
  }

  // ---------- what a browser decodes ----------

  ghost predicate Plain(h: seq<Published>) {
    forall i | 0 <= i < |h| ::
      var p := h[i].packet;
      && 0 < |p.data| <= MAX_DATA + 4
      && p.width < TWO_32 && p.height < TWO_32 && p.flags < TWO_32 && p.pts < WebSocket.MAX_SIZE
  }

  /** The cache never holds more than a message can carry. */
  lemma {:induction false} CacheSmall(h: seq<Published>)
    requires Plain(h)
    ensures Bounded(CacheAfter(h)) && forall i | 0 <= i < |CacheAfter(h).run| :: |CacheAfter(h).run[i]| <= MAX_DATA + 4
    ensures |Contents(CacheAfter(h))| < TWO_32
  {
    if h != [] {
      CacheSmall(Front(h));
      var c, e := CacheAfter(Front(h)), Last(h);
      if IsConfig(e.packet) { StepBounded(c, e.packet.data, e.allocates); }
      hide Contents, Grow, Concat;
    }
  }

  lemma {:induction false} StorySendable(n: nat, h: seq<Published>)
    requires n <= |h| && Plain(h)
    ensures forall i | 0 <= i < |StoryFrom(n, h)| :: Sendable(StoryFrom(n, h)[i])
  {
    if n < |h| {
      StorySendable(n, Front(h));
      CacheSmall(h);
      assert Plain([Last(h)]);
      assert forall m | m in Chapter(CacheAfter(h), Last(h).packet) :: Sendable(m) by { hide CacheAfter, Contents; }
      hide Chapter, CacheAfter, Sendable, Plain;
    }
  }

  /** What a browser that joined in a quiet moment, after `at` packets, should decode. */
  function Expected(at: nat, h: seq<Published>): (ms: seq<Message>)
    requires at <= |h|
  {
    Greeting(h[..at], GreetingSize(h[..at])) + AnnouncedFrom(at, h)
  }

  lemma ExpectedSendable(at: nat, h: seq<Published>)
    requires at <= |h| && Plain(h)
    ensures AllSendable(Expected(at, h))
  {
    StorySendable(at, h);
    StoryIsAnnounced(at, h);
    assert Plain(h[..at]);
    CacheSmall(h[..at]);
    CacheIsConfigs(h[..at]);
    assert at > 0 ==> Last(h[..at]) == h[at - 1];
    hide StoryFrom, AnnouncedFrom, CacheAfter, ConfigData, After, Contents;
  }

  /** What a socket that has taken the bytes of a stream gives a browser. */
  lemma SocketDecodes(fd: int, c: Client, log: seq<Lists.Effect>)
    requires SocketRight(fd, c, Browser, log)
    ensures var frames := WebSocket.DecodeAll(On(log, fd));
      |frames| == |c.stream|
      && forall k | 0 <= k < |frames| :: ReadPayload(frames[k].payload) == Some(FieldsOf(c.stream[k]))
  {
    BrowserWire(c.stream);
    hide On, WireAll, Sendable, Payloads, WebSocket.DecodeAll, ReadPayload, FieldsOf;
    BrowserSeesStream(c.stream);
  }

  /** The same of bytes that break off: the complete messages. */
  lemma SocketCut(ms: seq<Message>, q: seq<byte>) returns (k: nat)
    requires AllSendable(ms) && q <= WireAll(Browser, ms)
    ensures k <= |ms| && |WebSocket.DecodeAll(q)| == k
    ensures forall i | 0 <= i < k :: ReadPayload(WebSocket.DecodeAll(q)[i].payload) == Some(FieldsOf(ms[i]))
    ensures WireAll(Browser, ms[..k]) <= q && (k < |ms| ==> |q| < |WireAll(Browser, ms[..k + 1])|)
  {
    hide WireAll, Sendable, Payloads, WebSocket.DecodeAll, ReadPayload, FieldsOf;
    BrowserWire(ms);
    k := BrowserSeesCut(ms, q);
    WireTake(ms, k);
    if k < |ms| { WireTake(ms, k + 1); }
  }

  lemma WireTake(ms: seq<Message>, k: nat)
    requires AllSendable(ms) && k <= |ms|
    ensures AllSendable(ms[..k]) && WireAll(Browser, ms[..k]) == WebSocket.ServerFrames(Payloads(ms)[..k])
  {
    hide WireAll, Sendable, Payloads, WebSocket.ServerFrames;
    SendableTake(ms, k);
    var some := ms[..k];
    PayloadsTake(ms, k);
    hide AllSendable;
    BrowserWire(some);
  }

  lemma SendableTake(ms: seq<Message>, k: nat)
    requires AllSendable(ms) && k <= |ms|
    ensures AllSendable(ms[..k])
  {
    hide Sendable;
  }

  /**
   * From the phone to the browser: in every run of the hub whose published packets are those the
   * reader thread read off the transfers, a browser whose arrival, greeting and listing fall
   * between two publishes decodes, from the bytes that went out on its socket, the config and size
   * of that moment, and then exactly the phone's packets from there on, with start codes, each
   * keyframe led by the config of its time.
   */
  lemma BrowserSeesPhone(packets: seq<seq<byte>>, states: seq<State>, events: seq<Event>, id: nat, a: nat, g: nat,
      e: nat, i: nat, list: seq<Lists.Client>, names: Names, log: seq<Lists.Effect>, node: Lists.Client)
    requires forall p | p in packets :: WellFormed(p)
    requires Run(states, events) && QuietJoin(states, events, id, Browser, a, g, e)
    requires e < i < |states| && states[i].phase.Idle? && states[i].history == Publishing(packets)
    requires Served(list, names, states[i].clients, Browser, log)
    requires node in list && node in names && names[node] == id
    requires id in states[i].clients && states[i].clients[id].stage == Listed
    ensures |states[g].history| <= |packets| && AllSendable(Expected(|states[g].history|, Publishing(packets)))
    ensures var stream := Expected(|states[g].history|, Publishing(packets));
      var frames := WebSocket.DecodeAll(On(log, node.fd));
      |frames| == |stream|
      && forall k | 0 <= k < |frames| :: ReadPayload(frames[k].payload) == Some(FieldsOf(stream[k]))
  {
    hide Run, AnnouncedFrom, FieldsOf, WebSocket.DecodeAll, ReadPayload;
    QuietJoinIsFold(states, events, id, Browser, a, g, e, i);
    PublishingPlain(packets);
    ExpectedSendable(|states[g].history|, Publishing(packets));
    SocketDecodes(node.fd, states[i].clients[id], log);
  }

  lemma PublishingPlain(packets: seq<seq<byte>>)
    requires forall p | p in packets :: WellFormed(p)
    ensures Plain(Publishing(packets))
  {
  }

  // ---------- the packet itself ----------

  /**
   * A packet of the phone reaches the browser as the same bytes if its data begins with a start
   * code, and otherwise with one put in front and the length field raised by four.
   */
  lemma PacketReachesBrowser(p: seq<byte>)
    requires WellFormed(p)
    ensures Sendable(Media(PacketOf(p)))
    ensures Payload(FieldsOf(Media(PacketOf(p)))) ==
      if Started(p[28..]) then p else p[..24] + WriteBe32(ReadBe32(p[24..28]) + 4) + [0, 0, 0, 1] + p[28..]
  {
    var f, data := FieldsOf(Media(PacketOf(p))), p[28..];
    var front := MAGIC + p[4..8] + p[8..12] + p[12..16] + p[16..24];
    assert p[..24] == front && p == p[..24] + p[24..28] + data;
    Rewritten32(p[4..8]);
    Rewritten32(p[8..12]);
    Rewritten32(p[12..16]);
    Rewritten64(p[16..24]);
    Rewritten32(p[24..28]);
    StartedIff(data);
    FieldsArePacket(p);
    hide ReadBe32, WriteBe32, ReadBe64, WriteBe64, PacketOf, FieldsOf, HasStartCode, Started, Normalise;
    assert Payload(f) == front + WriteBe32(|f.data|) + f.data;
    if !Started(data) {
      assert f.data == [0, 0, 0, 1] + data;
      Regroup(p[..24] + WriteBe32(|data| + 4), [0, 0, 0, 1], data);
    }
  }

  predicate Started(data: seq<byte>) {
    (|data| >= 4 && data[..4] == [0, 0, 0, 1]) || (|data| >= 3 && data[..3] == [0, 0, 1])
  }

  lemma StartedIff(data: seq<byte>)
    ensures Normalise(data) == if Started(data) then data else [0, 0, 0, 1] + data
  {
  }

  lemma FieldsArePacket(p: seq<byte>)
    requires WellFormed(p)
    ensures Sendable(Media(PacketOf(p))) && |p| == 28 + ReadBe32(p[24..28])
    ensures FieldsOf(Media(PacketOf(p))) ==
      Fields(ReadBe32(p[4..8]), ReadBe32(p[8..12]), ReadBe32(p[12..16]), ReadBe64(p[16..24]), Normalise(p[28..]))
  {
    hide ReadBe32, ReadBe64, Normalise;
  }
}
