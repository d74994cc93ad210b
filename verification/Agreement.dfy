/** The server, the bridge and Windows deframing the same bytes. */
module Agreement {
  import opened Bytes
  import opened Avc1
  import opened UsbReader
  import opened Deframer
  import opened WinReceiver
  import opened Relay

  /** The server on its own reader: enough looks at the flag, and it reads everything. */
  method ServerReads(script: seq<Transfer>, runs: nat) returns (packets: seq<Packet>)
    ensures packets <= ParseStream(Flatten(script))
    ensures runs >= Looks(script) ==> packets == ParseStream(Flatten(script))
  {
    hide Flatten, ParseStream, Looks;
    var reader := new UsbStreamReader(script, runs);
    packets := ReaderThread(reader);
  }

  /** The bridge, with any outcome of its connects and sends. */
  method BridgeReads(script: seq<Transfer>, runs: nat, connects: seq<bool>, sends: seq<SendOutcome>)
    returns (bridge: Bridge)
    ensures bridge.Valid() && bridge.parsed <= ParseStream(Flatten(script))
    ensures runs >= Looks(script) ==> bridge.parsed == ParseStream(Flatten(script))
  {
    hide Flatten, ParseStream, Accounts, Looks;
    var reader := new UsbStreamReader(script, runs);
    bridge := new Bridge(reader, connects, sends);
    bridge.ForwardLoop();
  }

  /**
   * Over the same bytes, however they are cut into transfers and segments, the three loops read the
   * same packets: Windows all of them, each C program a prefix of them if it is stopped early and
   * all of them if the flag stays set for long enough.
   */
  method ThreeDeframers(toServer: seq<Transfer>, serverRuns: nat, toBridge: seq<Transfer>, bridgeRuns: nat,
                        connects: seq<bool>, sends: seq<SendOutcome>, sizes: seq<nat>)
    returns (server: seq<Packet>, bridge: Bridge, windows: seq<Packet>)
    requires forall t | t in toServer :: !t.Broken?
    requires forall t | t in toBridge :: !t.Broken?
    requires DoneBytes(toServer) == DoneBytes(toBridge)
    ensures windows == ParseAll(DoneBytes(toServer))
    ensures bridge.Valid() && server <= windows && bridge.parsed <= windows
    ensures serverRuns >= Looks(toServer) ==> server == windows
    ensures bridgeRuns >= Looks(toBridge) ==> bridge.parsed == windows
  {
    SameStream(toServer, toBridge);
    hide Flatten, ParseStream, ParseAll, DoneBytes, Looks, Accounts;
    server := ServerReads(toServer, serverRuns);
    bridge := BridgeReads(toBridge, bridgeRuns, connects, sends);
    var conn := new TcpConnection(DoneBytes(toServer), sizes);
    windows := conn.Handle();
  }

  /**
   * The whole relay from a script of transfers, faults included. The connections and what each was
   * given are the course of the packets read, and Windows parses what arrives of them. With enough
   * looks at the flag and no connection cut, published + failed sends + refused connects = packets
   * of the phone, and all of them are published exactly when the first connect succeeds and the
   * sends take every packet.
   */
  method RelayAll(script: seq<Transfer>, runs: nat, connects: seq<bool>, sends: seq<SendOutcome>, cuts: seq<nat>,
                  sizes: seq<seq<nat>>)
    returns (published: seq<Packet>, bridge: Bridge)
    ensures bridge.Valid() && bridge.parsed <= ParseStream(Flatten(script))
    ensures runs >= Looks(script) ==> bridge.parsed == ParseStream(Flatten(script))
    ensures bridge.Now() == CourseOf(Begun(connects, sends), bridge.parsed).(connected := false)
    ensures published == Received(AllArriving(bridge.links, cuts))
    ensures Subsequence(published, ParseStream(Flatten(script)))
    ensures runs >= Looks(script) && cuts == [] ==>
      |published| + Cuts(bridge.links) + bridge.refused == |ParseStream(Flatten(script))|
    ensures runs >= Looks(script) && cuts == [] ==>
      (published == ParseStream(Flatten(script)) <==> AllGoesOut(ParseStream(Flatten(script)), connects, sends))
  {
    hide Flatten, ParseStream, Accounts, Looks, Subsequence, Cuts, Received, CourseOf, AllGoesOut, AllArriving;
    var reader := new UsbStreamReader(script, runs);
    bridge := new Bridge(reader, connects, sends);
    published := EndToEnd(bridge, cuts, sizes);
    AllDeliveredIff(bridge.parsed, connects, sends);
    SubsequenceWhole(published, ParseStream(Flatten(script)));
  }

  lemma SameStream(a: seq<Transfer>, b: seq<Transfer>)
    requires forall t | t in a :: !t.Broken?
    requires forall t | t in b :: !t.Broken?
    requires DoneBytes(a) == DoneBytes(b)
    ensures ParseStream(Flatten(a)) == ParseStream(Flatten(b)) == ParseAll(DoneBytes(a))
  {
    ChunkingIrrelevant(a, b, []);
    assert a + [] == a && b + [] == b;
  }
}
