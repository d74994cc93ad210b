# Phone bridge: video relay and touch control

A Dafny model of the programs that carry a phone's H.264 stream to a browser and touch commands back to the phone:

- `rk_aoa_bridge.c` reads AVC1 packets from USB and forwards them over TCP; it also reads command lines and sends HID reports.
- `win_video_server.py` parses the TCP stream again, publishes to viewers, and passes browser commands on.
- `aoa_h264server.c` does both jobs in one process: reader thread, broadcast lists, config cache, WebSocket handshake and frames, gestures.

`dafny verify dfyconfig.toml` checks everything.

## How it is laid out

Each file is one module.

| part | modules |
|---|---|
| deframing and relay | `Bytes`, `Avc1`, `UsbReader`, `Deframer`, `WinReceiver`, `Relay`, `Agreement` |
| publishing | `ConfigCache`, `Broadcast`, `Hub`, `WinHub`, `VideoPayload`, `ServerVideo` |
| touch | `Coordinates`, `Touch`, `HidProtocol`, `JsonText`, `Command`, `BridgeControl`, `ControlPath`, `Pointer`, `ServerControl` |
| WebSocket | `Sha1`, `Sha1Vectors`, `Base64`, `Handshake`, `WebSocket`, `WebSocketIo` |
| locks | `LockOrder` |

Code that updates state in place is a class or a method with loops (the USB reader, the deframing loops, the relay, the
client list, the cache buffer, SHA-1, Base64, unmasking, gestures, the page's listeners, the Windows hub); each method is
proved against functions on values, and what the programs promise is proved about those functions. What several threads do
is a state machine whose steps are single lock sections or transfers (`Hub`, `HidProtocol`, `LockOrder`); theorems are about
every run.

What the environment does is arbitrary and comes in as data: `script` is the outcome of each USB transfer, `runs` how often
the volatile `running` flag will still read as set, `sizes` how the network cuts a TCP stream into `recv` results, `sends`,
`connects`, `outcomes`, `results` and `attempts` what socket and control-transfer calls return, `lost` which clients fail in
a broadcast.

## Main results
1. **Deframing.** The meaning of a stream is `Avc1.ParseAll`, which says outright that a header with a bad length is
   consumed whole and not scanned again. The bridge's loop (window reset), the server's (fresh scan) and the Windows loop
   (window kept) all compute it, over every chunking; the last because `AVC1` has no border. Each read looks at the flag
   at most once per transfer and a few times per byte, so with `UsbReader.Looks(script)` looks, a number that depends on
   bytes and transfers alone, all three return exactly the same packets; stopped earlier, the C programs return a prefix.
   Packets behind garbage without the magic come back exactly. Only completed transfers are looked at, so a timeout that
   had already moved bytes loses them, and nothing else does.
2. **Relay.** For all transfers, connect failures, partial sends and cuts: per connection Windows parses a prefix of what
   it was given; over all connections a subsequence of what the phone sent. The connections, what each was given, and the
   packets dropped on a failed connect are `Relay.CourseOf` of the packets read, a fold over the outcomes of connects and
   sends. When the bridge runs for long enough and no connection is cut, published + failed sends + refused connects =
   packets sent by the phone, and every packet is published exactly when the first connect succeeds and the sends on that
   connection take every packet; as many successful `send` calls as there are bytes are enough for that.
3. **Publishing.** Over every interleaving a keyframe that reaches a client listed when the publish began comes right
   after the whole current config, under the keyframe's size. Config is what the packets with flag bit 1 make of the
   cache, and nothing else. For any listed client this holds exactly when it had its place before the publish or was
   greeted with the same config in between; `Hub.KeyframeWithoutConfig` is a run in which a client that slips in gets the
   keyframe alone. A client whose greeting and listing, and as a browser also its arrival, fall between two publishes
   receives its greeting and the fold over all packets since, spelled out by flags, sizes and data. The linked-list
   broadcast is a filter, it is the hub's delivery, and greeting, listing and broadcast keep on every socket exactly the
   bytes of the client's stream. From the phone to the browser: what such a browser decodes from its socket is the config
   and size of that moment, then exactly the phone's packets, each byte for byte but for a start code put in front where
   it was missing. Of a stream that breaks off anywhere it decodes exactly the messages that are complete. The Windows hub
   drops exactly the viewers whose connection has failed, and hands the others config and packet in that order.
4. **Config cache.** The C cache holds a contiguous run of the newest config packets, bounded; the Windows cache replaces.
   After a further config packet the two hold the same bytes exactly when it came with a start code and the C cache was
   empty or had no room for it (two short packets already tell them apart). Doubling is meant to stop below twice the
   need: it does exactly when it starts below that, so a buffer that has to grow breaks the rule exactly when it is the
   first one and holds at most 2048 bytes (the single byte 7 gets 4096).
5. **Touch.** Coordinates, swipes, gestures, command text, both control paths end to end, HID set-up and tear-down, and
   the page's pointer handling. For both programs a command's members determine the bytes of the reports, from which
   contact and pixel are read back. What the page sends at each event, and where it points, is determined by the events.
   What a gesture sends is a block of the HID protocol, and every block is what some gesture sends. Whatever reports fail,
   a connection makes exactly the reports of its orders, each scaled to the frame size it was sent with, and so leaves the
   finger where their results put it; after each order that is where the page believes it exactly as
   `ServerControl.MovedAsBelievedIff` says. Presses that are closed before the next one, with the socket open, keep page
   and phone in step, and once the server has carried out what the page sent, all reports with success, the phone has had
   exactly the contacts of the page's orders and the last report touches exactly when the page is dragging. Three promises
   fail for some inputs and are stated with their exact condition and an input: the finger is up after a gesture exactly
   when every report went out or the very first failed with the finger up; page and phone agree on the contact through a
   run exactly when no drag is interrupted by another press and, while the socket is closed, nothing begins or ends a
   drag; the two C versions agree on a coordinate exactly when the frame size is given or the pixel is at the edge.
6. **WebSocket.** In-place SHA-1 is FIPS 180-4, whose function is worked out on "abc" and on the sample key of RFC 6455;
   Base64 is inverted by an independent decoder, the accept value is that of section 4.2.2 of RFC 6455 for keys of at most
   219 bytes (the GUID is cut off beyond that), and the sample key is answered with the sample value. Frames are minimal
   and decode back, masking is exclusive or and is undone in place.
7. **Locks.** Every call takes its mutexes in rank order; in every reachable state a blocked thread waits, through at most
   one other, for one that can go on; once no call begins, all calls end.

One thing a reader might not expect: the swipe of the bridge takes its lock for each report while the server's holds it
throughout.

## Model

| member | source | states |
|---|---|---|
| Bytes.ReadBe32 | rk_aoa_bridge.c:141-146 | inverts the big-endian writer; four bytes fit 32 bits |
| Bytes.WriteBe32 | aoa_h264server.c:852-857 | reads back as the value it wrote |
| Bytes.ReadBe64 | aoa_h264server.c:270-279 | inverts the 64-bit writer |
| Bytes.WriteBe64 | aoa_h264server.c:859-868 | reads back as the value it wrote |
| Bytes.Rewritten32 | aoa_h264server.c:852-857 | any four bytes read and written again are the same |
| Bytes.Rewritten64 | aoa_h264server.c:859-868 | so are any eight |
| Avc1.FindMagic | rk_aoa_bridge.c:971 | the first occurrence of the magic, or none exists |
| Avc1.AttemptAtMagic | rk_aoa_bridge.c:971-997 | a packet is returned only well-formed and with nothing lost around it; a rejected header costs exactly its 28 bytes |
| Avc1.Next | rk_aoa_bridge.c:953-1002 | one call skips rejected headers, returns well-formed packets only and always makes progress |
| Avc1.ParsedAreWellFormed | rk_aoa_bridge.c:977-997 | every packet ever returned has the magic, an acceptable length field and exactly that length |
| Avc1.WellFormedIff | rk_aoa_bridge.c:971-997 | that means "AVC1", a length field of 1 to 8388608, and exactly that many bytes behind the header |
| Avc1.MagicHasNoBorder | rk_aoa_bridge.c:971 | two occurrences of AVC1 never overlap |
| Avc1.FirstMagic | rk_aoa_bridge.c:957-971 | the window matches at the first magic, not a later one |
| Avc1.TryAfterScan | rk_aoa_bridge.c:957-974 | after the scan only the magic and what follows decide |
| Avc1.MagicAfterGarbage | rk_aoa_bridge.c:957-971 | bytes without the magic in front of a packet cannot shift it |
| Avc1.NextAfterGarbage | rk_aoa_bridge.c:953-1002 | garbage, then a valid packet: exactly that packet is read and exactly what follows is left, whatever the payload holds |
| Avc1.Resynchronises | rk_aoa_bridge.c:953-1002 | round trip: packets each behind magic-free garbage come back exactly and in order |
| Avc1.CutPacketIsIncomplete | win_video_server.py:175-195 | a packet cut anywhere yields nothing |
| Avc1.ParsePrefix | win_video_server.py:175-195 | any prefix of a run of packets parses to exactly the packets complete in it |
| UsbReader.FlattenUpToFault | rk_aoa_bridge.c:879-912 | up to a fault the stream is the concatenation of completed transfers; after it the stream starts anew |
| UsbReader.ChunkingIrrelevant | rk_aoa_bridge.c:879-951 | two scripts give the same stream exactly when their completed bytes are the same; chunking, empty transfers and timeouts do not matter |
| UsbReader.NothingLostIff | rk_aoa_bridge.c:886-910 | the reader sees all the phone sent exactly when no timed-out or failed transfer had moved bytes |
| UsbReader.TimeoutLosesPacket | rk_aoa_bridge.c:886-897 | a concrete loss: a packet that arrives in a transfer that then times out is never seen |
| UsbReader.FlattenSize | rk_aoa_bridge.c:879-912 | the bytes over all faults are those of the completed transfers, and there are at most as many faults as transfers |
| UsbReader.PaidThen | rk_aoa_bridge.c:957-960 | turns of a reading loop add up: looks at the flag stay within bytes and transfers consumed |
| UsbReader.StreamIsWellFormed | rk_aoa_bridge.c:953-1002 | well-formedness across faults |
| UsbReader.UsbStreamReader.constructor | rk_aoa_bridge.c:1204-1207 | an empty reader stands at the start of the flat stream, and the stated number of looks at the flag suffices for it |
| UsbReader.UsbStreamReader.StreamFill | rk_aoa_bridge.c:879-912 | refilling leaves the flat stream as it is and looks at the flag once per transfer; it fails on a fault with nothing left before it, or when those looks are used up, or when the phone is silent for good |
| UsbReader.UsbStreamReader.ReadExact | rk_aoa_bridge.c:914-935 | exactly the next n bytes of the flat stream at one look per byte and transfer; it fails only if fewer are left or the looks are used up |
| UsbReader.UsbStreamReader.StreamReadByte | rk_aoa_bridge.c:937-951 | exactly the next byte of the flat stream, with the same progress |
| Deframer.ShiftIn | rk_aoa_bridge.c:962-969 | the window shows the last four bytes seen |
| Deframer.WindowMatch | rk_aoa_bridge.c:971 | it equals the magic exactly when those bytes are one |
| Deframer.ReadAvc1Packet | rk_aoa_bridge.c:953-1002 | returns what Avc1.Next returns and leaves exactly its rest, at three looks per byte; a failure means no packet was left, or the looks were used up |
| Deframer.ScanTurn | rk_aoa_bridge.c:957-997 | one turn: a byte, and header and body if it completes a magic; a bad length resets the window |
| Deframer.ReadRest | rk_aoa_bridge.c:972-997 | header, length test and body behind a magic are exactly the attempt of the specification |
| Deframer.BridgeTurn | rk_aoa_bridge.c:1220-1224 | a turn of the forwarding loop yields the next packet or changes nothing about what is next, and pays for itself |
| Deframer.ReadAvc1Header | aoa_h264server.c:765-793 | stands right behind the header that Avc1.Next is going to use, with the same progress |
| Deframer.HeaderTurn | aoa_h264server.c:769-791 | one turn: a byte, and the header if it completes a magic |
| Deframer.ReaderTurn | aoa_h264server.c:1334-1363 | one turn yields the next packet or changes nothing about what is next, and pays for itself |
| Deframer.TurnParses | aoa_h264server.c:1334-1363 | turns add up to the parse of the whole stream |
| Deframer.StillLongEnough | aoa_h264server.c:1334-1363 | no turn uses up the flag before everything is read |
| Deframer.ReaderThread | aoa_h264server.c:1334-1363 | publishes a prefix of the parse, and all of it if the flag stays set for long enough |
| WinReceiver.TcpConnection.ReadExact | win_video_server.py:163-172 | the next n bytes however recv cuts them, or None exactly when fewer are left |
| WinReceiver.WindowTurn | win_video_server.py:175-184 | when the window that is never cleared shows the magic, what follows is what Avc1.Next goes on with; until then no magic has been read since the last restart |
| WinReceiver.StaleWindow | win_video_server.py:189-191 | bytes of the old magic can take no part in a match, as AVC1 has no border |
| WinReceiver.TcpConnection.Turn | win_video_server.py:177-195 | one turn: a byte, and header and body if the window then shows the magic |
| WinReceiver.TcpConnection.ReadAvc1Packet | win_video_server.py:175-195 | returns what Avc1.Next returns, leaves exactly its rest |
| WinReceiver.TcpConnection.Handle | win_video_server.py:198-207 | reads exactly the packets the bytes parse to |
| Agreement.ThreeDeframers | win_video_server.py:175-195 | over the same bytes the three loops return the same packets outright, given enough looks at the flag; prefixes if stopped early |
| Agreement.ServerReads | aoa_h264server.c:1334-1363 | from any script of transfers: everything there is to read |
| Agreement.BridgeReads | rk_aoa_bridge.c:1216-1262 | the same for the bridge, whatever its connects and sends do |
| Agreement.RelayAll | rk_aoa_bridge.c:1216-1262 | from any script of transfers, connects and sends: the connections are the course of the packets read, Windows parses what arrives of them; with enough looks and no cut, conservation, and everything is published exactly when the first connect and all sends on it succeed |
| Relay.Bridge.SendAll | rk_aoa_bridge.c:148-163 | takes the data up to the first error, reports exactly whether that was all, and consumes exactly those outcomes |
| Relay.Bridge.Reconnect | rk_aoa_bridge.c:1226-1233 | one attempt, a new connection if it succeeds, and the accounts kept |
| Relay.Bridge.Send | rk_aoa_bridge.c:1235-1244 | the open connection gets the packet, whole or in part, and is closed if in part; the accounts are kept |
| Relay.Bridge.Forward | rk_aoa_bridge.c:1226-1244 | a packet takes connections, losses and outcomes one step along the course |
| Relay.Bridge.ForwardLoop | rk_aoa_bridge.c:1216-1262 | keeps the accounts; connections and losses are the course of the packets handled, which are a prefix of the parse, and all of it if the flag stays set for long enough |
| Relay.OneLossIff | rk_aoa_bridge.c:1226-1241 | a packet is lost exactly when its connect fails or the sends do not take all of it |
| Relay.AllDeliveredIff | rk_aoa_bridge.c:1216-1260 | nothing is lost exactly when the first connect succeeds and the sends take every packet |
| Relay.FailedSendLoses | rk_aoa_bridge.c:1235-1241 | an input for which something is: the packet of a failed send is not sent again, though the next one goes out on a new connection |
| Relay.OneConnection | rk_aoa_bridge.c:1216-1260 | then one connection carries all packets back to back |
| Relay.EnoughSends | rk_aoa_bridge.c:148-163 | the sends take everything if as many of them succeed as there are bytes, interrupted ones in between not counted |
| Relay.CarryPart | rk_aoa_bridge.c:1235-1241 | a failed send leaves the connection with all earlier packets whole and a strict prefix of the last |
| Relay.AccountSend | rk_aoa_bridge.c:1235-1244 | a send keeps the accounts whether or not it fails |
| Relay.AccountRefusal | rk_aoa_bridge.c:1226-1233 | a failed connect drops one packet and nothing else |
| Relay.LinkSafety | rk_aoa_bridge.c:1216-1260 | Windows parses a prefix of what a connection was given, and all packets that went out whole if nothing was cut |
| Relay.ReceivedSubsequence | rk_aoa_bridge.c:1216-1260 | over all connections a subsequence of the assignments |
| Relay.RelaySafety | rk_aoa_bridge.c:1216-1260 | hence of the packets parsed from USB: none fabricated, duplicated or reordered |
| Relay.OneLossPerCut | rk_aoa_bridge.c:1235-1241 | every cut connection costs exactly one packet |
| Relay.Conservation | rk_aoa_bridge.c:1216-1260 | delivered + cut + refused = sent by the phone |
| Relay.EndToEnd | rk_aoa_bridge.c:1216-1260 | bridge loop and Windows receiver together: safety for every cut, connections as the course of the packets read, completeness and conservation for a bridge that runs for long enough |
| Relay.Receive | win_video_server.py:198-207 | Windows parses exactly what arrives of each connection |
| ConfigCache.GrowStopsEarly | aoa_h264server.c:982-985 | doubling ends below twice the need exactly when it starts below that |
| ConfigCache.StepStopsEarly | aoa_h264server.c:981-997 | a buffer that has to grow gets twice the need or more exactly when it is the first one and the need is at most 2048 bytes |
| ConfigCache.FirstBufferIsLarge | aoa_h264server.c:981-997 | an input for which it does: one byte gets 4096 |
| ConfigCache.AppendsIff | aoa_h264server.c:977-1000 | new bytes follow the old exactly when all fit 256 KiB, otherwise they alone are left |
| ConfigCache.CacheIsBounded | aoa_h264server.c:967-1003 | over every history: at most 256 KiB unless one packet alone is longer, never more than the capacity |
| ConfigCache.CacheHoldsRecentRun | aoa_h264server.c:967-1003 | over every history: a contiguous run of the newest packets, ending with the newest unless its allocation failed |
| ConfigCache.ConfigStore.CacheConfigBytes | aoa_h264server.c:967-1003 | the buffer code carries out one step of the cache |
| ConfigCache.ConfigStore.Double | aoa_h264server.c:982-985 | the doubling loop ends and gives the specified capacity |
| ConfigCache.ConfigStore.Append | aoa_h264server.c:999-1000 | the new bytes follow the old ones |
| Broadcast.EachAttemptedOnce | aoa_h264server.c:1123-1145 | every client is attempted once, in list order; those with success stay |
| Broadcast.ClosedOrKept | aoa_h264server.c:1116-1121 | every client is either closed once or kept |
| Broadcast.SurvivorsInOrder | aoa_h264server.c:1123-1145 | survivors keep their order |
| Broadcast.BroadcastFilters | aoa_h264server.c:904-965 | all three together, for every pattern of failures |
| Broadcast.ClientList.Join | aoa_h264server.c:1461-1464 | the new node is first, the rest as before |
| Broadcast.ClientList.Unlink | aoa_h264server.c:1116-1118 | removing through the pointer to the link drops one node from an acyclic list |
| Broadcast.ClientList.RemoveAt | aoa_h264server.c:904-909 | the removed client's socket is closed, and only that |
| Broadcast.ClientList.Attempt | aoa_h264server.c:949-960 | one turn of the loop, either branch |
| Broadcast.ClientList.Broadcast | aoa_h264server.c:1123-1145 | the list edited during iteration ends as the filtered list, with the specified sends and closes |
| Broadcast.ClientList.Leave | aoa_h264server.c:1476-1486 | the client's node is gone, all others stay |
| Hub.ClientDelivered | aoa_h264server.c:1129-1142 | a broadcast extends a listed client's stream or ends it |
| Hub.DeliverKeeps | aoa_h264server.c:1123-1145 | so it does for all clients of both lists |
| Hub.TellingKeepsTold | aoa_h264server.c:1189-1203 | each step tells a list exactly the next message |
| Hub.LastKeepsTold | aoa_h264server.c:1207-1225 | the latest size changes at the end of a publish |
| Hub.StepKeeps | aoa_h264server.c:1147-1203 | every lock section of publish, join, leave and drop keeps the invariant |
| Hub.InvariantHolds | aoa_h264server.c:1147-1203 | in every run each stream is its greeting and all its list was told since |
| Hub.ConfigPrecedesKeyframe | aoa_h264server.c:1189-1203 | exactly which listed clients get config and keyframe next to each other |
| Hub.ListedBefore | aoa_h264server.c:1189-1203 | a client listed at the start keeps its place through the publish |
| Hub.FlagsAreBits | aoa_h264server.c:1181-1189 | config is bit 1 and keyframe bit 0 of the flags |
| Hub.CacheIsConfigs | aoa_h264server.c:1181-1183 | the cache is what the data of the packets with the config bit, and no others, make of an empty one |
| Hub.CacheHoldsConfigs | aoa_h264server.c:1181-1183 | its bytes are a run of the newest config data and of nothing else; without a config packet there are none |
| Hub.KeyframeTheorem | aoa_h264server.c:1181-1203 | in every run, a keyframe that reaches a client listed when its publish began comes right after those config bytes, under the keyframe's width and height |
| Hub.OwnConfigIncluded | aoa_h264server.c:1181-1195 | that config ends with the packet's own bytes if it carries config |
| Hub.StreamsGrow | aoa_h264server.c:1123-1145 | no step takes a message back |
| Hub.KeyframeWithoutConfig | aoa_h264server.c:1446-1464 | a run in which a client listed during a publish gets the keyframe without its config |
| Hub.StorySplits | aoa_h264server.c:1147-1203 | what is told after a join is independent of what came before, but for the cache |
| Hub.StoryIsAnnounced | aoa_h264server.c:1147-1203 | what is told about a packet, by its own flags, size and data: config bytes under its size if it is a keyframe, then the packet |
| Hub.QuietStreamIsFold | aoa_h264server.c:1500-1524 | a client marked as having joined between publishes: config of that moment, for a browser under the last packet's size or 720 by 1568, then every packet since as announced |
| Hub.QuietJoinIsQuiet | aoa_h264server.c:1431-1524 | greeting and listing, and as a browser also arrival, with no publish under way nor begun in between make such a client |
| Hub.QuietJoinIsFold | aoa_h264server.c:1431-1524 | the same fold for every such join, by events alone |
| VideoPayload.Normalise | aoa_h264server.c:1160-1175 | the result has a start code, and is the input exactly when that had one |
| VideoPayload.CachesAgreeIff | win_video_server.py:75-77 | when the appending C cache and the replacing Windows cache hold the same, by the packet and the cache before it |
| VideoPayload.TwoConfigsDiffer | aoa_h264server.c:999-1000 | an input for which they do not: two short config packets |
| VideoPayload.PayloadReadsBack | aoa_h264server.c:2110-2121 | the page decodes a payload to exactly its fields; it is a valid AVC1 packet |
| VideoPayload.BuildPayload | aoa_h264server.c:921-945 | the block written is that payload |
| VideoPayload.ConfigReachesBrowser | aoa_h264server.c:1044-1057 | the page reads config as a packet with flags 2 and time stamp 0 under the size it was sent with |
| VideoPayload.BrowserSeesStream | aoa_h264server.c:911-965 | framed and decoded, a client stream comes out message for message |
| VideoPayload.BrowserSeesCut | aoa_h264server.c:897-965 | a client stream that breaks off anywhere comes out as exactly its complete messages |
| ServerVideo.PacketOf | aoa_h264server.c:1340-1363 | what is published of a packet that was read: in range, with a start code |
| ServerVideo.ReaderPublishes | aoa_h264server.c:1334-1363 | the hub's history is exactly the packets in the transfers |
| ServerVideo.BroadcastIsDelivery | aoa_h264server.c:1123-1145 | the list's broadcast and the hub's delivery keep and serve the same clients |
| ServerVideo.BrowserWire | aoa_h264server.c:911-965 | what browsers are sent for a stream are the binary frames of its payloads |
| ServerVideo.RawWire | aoa_h264server.c:1123-1145 | what raw clients are sent is the config bytes and the packets' data, back to back |
| ServerVideo.OnSurvivor | aoa_h264server.c:1123-1145 | a client that stays has been sent the data of a broadcast, once |
| ServerVideo.OnOthers | aoa_h264server.c:1123-1145 | sockets that are not in the list are sent nothing |
| ServerVideo.BroadcastStep | aoa_h264server.c:904-965 | the list's loop takes the hub one delivery further, and every listed client's socket has still taken exactly the bytes of its stream |
| ServerVideo.GreetStep | aoa_h264server.c:1078-1090 | so it has after the greeting with the cached config |
| ServerVideo.EnlistStep | aoa_h264server.c:1454-1464 | and after it is put at the front of the list |
| ServerVideo.CacheSmall | aoa_h264server.c:967-1003 | the cache never outgrows a message |
| ServerVideo.SocketDecodes | aoa_h264server.c:2110-2121 | the bytes on a browser's socket decode to the messages of its stream |
| ServerVideo.SocketCut | aoa_h264server.c:897-965 | and, broken off anywhere, to exactly the complete ones |
| ServerVideo.BrowserSeesPhone | aoa_h264server.c:1147-1203 | from the transfers to what a browser that joined between publishes decodes from its socket, in every run |
| ServerVideo.PacketReachesBrowser | aoa_h264server.c:1160-1175 | a packet of the phone arrives as the same bytes, or with a start code put in front and its length field raised by four if it had none |
| WinHub.ReceivedIsAccepted | win_video_server.py:54-62 | publish_avc1 turns away no packet the receiver returns |
| WinHub.GreetingReadsBack | win_video_server.py:87-95 | a browser reads from the greeting the last packet's size, or the default for a zero, and the config |
| WinHub.FlagBits | win_video_server.py:75-79 | flags are in the low bits of the sixteenth byte |
| WinHub.ConfigIsNewest | win_video_server.py:75-77 | the cache is the data of the newest packet with the config bit, and empty before the first |
| WinHub.WireEnds | win_video_server.py:79-85 | a live viewer's last message is the packet or its data, and right before a keyframe the newest config, for browsers under the keyframe's size |
| WinHub.Sockets.SendAll | win_video_server.py:112-116 | every client of the snapshot is tried; exactly the failed ones are reported |
| WinHub.Hub.Add | win_video_server.py:87-106 | the new viewer is listed and, if the send works, greeted with the current config |
| WinHub.Hub.Remove | win_video_server.py:97-110 | one viewer less in either set, nothing else |
| WinHub.Hub.Broadcast | win_video_server.py:112-132 | exactly the failed clients are dropped and closed |
| WinHub.Hub.BroadcastBoth | win_video_server.py:84-85 | browsers and raw viewers do not disturb each other |
| WinHub.Hub.TellAll | win_video_server.py:79-85 | a live viewer receives config lead and packet, in that order |
| WinHub.Hub.Publish | win_video_server.py:54-85 | every live viewer's stream stays greeting plus fold; exactly failed ones are dropped and closed |
| WinHub.PublishedTo | win_video_server.py:64-85 | one packet extends the fold of every live viewer |
| WinHub.HandleOne | win_video_server.py:204-207 | one packet read is published, with what that does to the viewers |
| WinHub.HandleVideo | win_video_server.py:198-207 | viewers get the fold over exactly the packets the connection's bytes parse to; if there are any, exactly the failed viewers are dropped and closed, else nothing changes |
| Coordinates.ScaleRange | rk_aoa_bridge.c:639-644 | within 0..32767, and the endpoints hit both ends |
| Coordinates.ScaleMonotone | rk_aoa_bridge.c:639-644 | monotone |
| Coordinates.ScaleFitsIff | rk_aoa_bridge.c:639-643 | scaling one coordinate stays in an int exactly when the size is at most 65539 or the coordinate at most 65538 |
| Coordinates.ProductFitsIff | rk_aoa_bridge.c:643 | no signed overflow for any pixel exactly up to size 65539 |
| Coordinates.PixelRecovered | rk_aoa_bridge.c:639-644 | a pixel is recovered by ceil(h * (max - 1) / 32767) up to size 32768 |
| Coordinates.DistinctIff | rk_aoa_bridge.c:639-644 | different pixels differ exactly up to size 32768 |
| Coordinates.VersionsAgreeIff | aoa_h264server.c:512-526 | exactly when bridge and server compute the same coordinate |
| Coordinates.SizeOneDiffers | aoa_h264server.c:512-526 | an input on which they differ: size and pixel 1 |
| Coordinates.ReportCarriesPixel | rk_aoa_bridge.c:654-663 | the pixel comes back from the two report bytes |
| Coordinates.SwipePath | aoa_h264server.c:661-663 | points run monotonically from start to target, in steps of at most ceil(distance / steps), and end exactly there |
| Coordinates.CutsTowardsZero | aoa_h264server.c:662-663 | an example: the division cuts towards zero |
| Coordinates.ScaledSwipeMonotone | aoa_h264server.c:661-665 | so do the HID coordinates |
| Coordinates.SwipeStaysInInt | aoa_h264server.c:662-663 | if the last product of a swipe is an int, every difference, product and point on the way is |
| Coordinates.SwipeFitsIff | aoa_h264server.c:662-663 | that condition is exact: the last product is an int exactly when those of all steps are |
| Coordinates.LowestProductFits | aoa_h264server.c:662-663 | it admits the least int: from 0 to -134217728 in 16 steps |
| Touch.SwipeShape | aoa_h264server.c:656-671 | steps + 1 touching reports from start to target, then one release there |
| Touch.SwipePoints | aoa_h264server.c:661-666 | report i of a swipe is at step i of the way |
| Touch.RunIsPrefix | aoa_h264server.c:656-671 | reports go out in order up to the first failure |
| Touch.ReleasedIff | aoa_h264server.c:656-671 | exactly when the finger is up after a gesture |
| Touch.FailedReleaseStays | aoa_h264server.c:621-628 | an input after which it is not: a tap whose release fails |
| Touch.GesturesRelease | aoa_h264server.c:610-679 | taps and swipes are such gestures |
| Touch.SmallFrameFits | aoa_h264server.c:504-526 | no plan overflows an int in frames of at most 65539 pixels a side |
| Touch.WholeSwipeFits | aoa_h264server.c:661-663 | no swipe does whose last products are ints |
| Touch.ServerHid.SendTouchReport | aoa_h264server.c:504-545 | the five bytes of the contact, and 0 exactly on success |
| Touch.ServerHid.Touch | aoa_h264server.c:547-608 | one report, only when HID is ready |
| Touch.ServerHid.Tap | aoa_h264server.c:610-632 | success means both reports went out; a failed press sends no release |
| Touch.ServerHid.SwipeSteps | aoa_h264server.c:658-667 | the loop stops at the first failure |
| Touch.ServerHid.SwipeRest | aoa_h264server.c:658-671 | the release goes out exactly when no report before it failed |
| Touch.ServerHid.SwipeLocked | aoa_h264server.c:653-671 | what is done inside the lock: all steps + 2 reports up to the first failure |
| Touch.ServerHid.Swipe | aoa_h264server.c:634-679 | success exactly when HID is ready and all steps + 2 reports went out |
| Touch.Interpolate | aoa_h264server.c:662-663 | the point on the way, wherever difference and product of this step are ints |
| HidProtocol.OwnerKeeps | aoa_h264server.c:1320-1383 | set-up, tear-down and every failure in them keep the invariant |
| HidProtocol.WorkerKeeps | aoa_h264server.c:547-679 | so does every step of a gesture call |
| HidProtocol.InvariantHolds | aoa_h264server.c:547-679 | in every run the log is set-up, blocks, tear-down |
| HidProtocol.EventsInsideRegistration | aoa_h264server.c:460-502 | every report lies after a successful descriptor and before the unregistration |
| HidProtocol.ReportsWhileReady | aoa_h264server.c:643-656 | reports are sent only while the device is open and ready, by one thread |
| HidProtocol.ReportsAreBlocks | aoa_h264server.c:547-679 | the reports are the finished calls' blocks one after another, never mixed |
| HidProtocol.GestureIsBlock | aoa_h264server.c:610-679 | what a gesture sends, whatever its results, is a finished block of its reports |
| HidProtocol.BlockIsGesture | aoa_h264server.c:610-679 | and every finished block is what a gesture sends for the results it met |
| HidProtocol.BlocksInLockOrder | aoa_h264server.c:547-679 | the blocks are the calls let in, in lock order |
| JsonText.StrstrIsFind | rk_aoa_bridge.c:729-746 | substring search for a quoted pattern is search among the pieces between quotes |
| JsonText.AtoiDecimal | rk_aoa_bridge.c:737 | atoi reads a rendered integer back |
| Command.RenderIsJoin | aoa_h264server.c:2153-2155 | compact JSON, cut at its quotes |
| Command.KeyFound | rk_aoa_bridge.c:729-738 | the key scan stops at the first member of that name and nowhere else |
| Command.FieldRecovered | rk_aoa_bridge.c:729-738 | every integer field is recovered, a missing one gives the default |
| Command.TypeFound | rk_aoa_bridge.c:740-746 | the type pattern occurs exactly where a member says so |
| Command.TypeSelected | rk_aoa_bridge.c:740-746 | the type scan accepts exactly the types present |
| Command.TapRendered | aoa_h264server.c:2153-2159 | an example, character by character |
| BridgeControl.ReadLine | rk_aoa_bridge.c:854-865 | the bytes before the newline, at most 4095, however recv delivers them |
| BridgeControl.LineReadsBack | rk_aoa_bridge.c:854-865 | a terminated line comes back whole if it fits |
| BridgeControl.TypeRecovered | rk_aoa_bridge.c:748-812 | the chain of type tests selects exactly the command's type |
| BridgeControl.CommandRecovered | rk_aoa_bridge.c:729-812 | a rendered command is acted on as what it means |
| BridgeControl.BridgeHid.WithHidHandle | rk_aoa_bridge.c:670-683 | one report of seven bytes, or none when HID is not ready |
| BridgeControl.BridgeHid.Tap | rk_aoa_bridge.c:774-779 | stops at the first report that does not succeed |
| BridgeControl.BridgeHid.TapTwice | rk_aoa_bridge.c:781-789 | sends on whatever happens and returns the last result |
| BridgeControl.BridgeHid.SwipeSteps | rk_aoa_bridge.c:801-806 | the loop stops at the first report that does not succeed |
| BridgeControl.BridgeHid.Swipe | rk_aoa_bridge.c:791-809 | success exactly when all steps + 2 reports went out |
| BridgeControl.BridgeHid.ExecuteTouchAction | rk_aoa_bridge.c:748-812 | reports, result and attempts consumed are those of the command's meaning |
| BridgeControl.BridgeReadsBack | rk_aoa_bridge.c:646-667 | tip bits, contact, pixel and count can be read from a report's seven bytes |
| BridgeControl.CommandSends | rk_aoa_bridge.c:729-812 | from the members of a command to the reports, all going through: down and move touch, up releases, tap and doubletap do both, a swipe touches from start to target in max(1, duration / 10) steps and releases there |
| ControlPath.Deliver | win_video_server.py:134-142 | browser frame to bridge line, whatever the segmentation |
| ControlPath.DeliveredText | win_video_server.py:134-142 | a message of at most 4095 bytes without newline arrives unchanged |
| ControlPath.CommandArrives | rk_aoa_bridge.c:729-812 | the whole path: type and every field as the browser sent them |
| ControlPath.CommandReachesPhone | rk_aoa_bridge.c:729-812 | the same from the browser's frame |
| Pointer.AlwaysCoherent | aoa_h264server.c:2162-2187 | in every run the page's variables are those of the press under way; dragging equals downSent |
| Pointer.HarmlessRun | aoa_h264server.c:2162-2187 | downs and ups alternate, moves between, taps outside, and page and phone agree |
| Pointer.InStepIffHarmless | aoa_h264server.c:2153-2187 | exactly which runs keep page and phone in step, by the events and the socket alone |
| Pointer.BracketedRun | aoa_h264server.c:2162-2187 | presses closed before the next, socket open: alternation, and dragging, downSent and the phone's contact agree |
| Pointer.SaidByEvent | aoa_h264server.c:2160-2187 | exactly what each event makes the page send, and where it points, by the events before it |
| Pointer.SecondPressParts | aoa_h264server.c:2173-2177 | a run that does not: a second press during a drag |
| Pointer.DroppedUpParts | aoa_h264server.c:2153-2158 | another: the release dropped by a closed socket |
| Pointer.PointerPage.BeginDrag | aoa_h264server.c:2162 | at most one down per press |
| Pointer.PointerPage.OnPointerMove | aoa_h264server.c:2165-2172 | the move listener, all branches |
| Pointer.PointerPage.OnTimer | aoa_h264server.c:2176 | the long press |
| Pointer.PointerPage.OnPointerDown | aoa_h264server.c:2173-2177 | a press forgets the previous one |
| Pointer.PointerPage.OnPointerUp | aoa_h264server.c:2178-2182 | up after a drag, tap otherwise |
| Pointer.PointerPage.OnPointerCancel | aoa_h264server.c:2183-2187 | a cancelled drag is released at the last point |
| ServerControl.ExecuteTouchAction | aoa_h264server.c:1558-1631 | result, reports and remaining transfers of every command type |
| ServerControl.CommandReachesServer | aoa_h264server.c:1859-1898 | the server's own socket takes a command whole: type, every field, and the gestures they mean |
| ServerControl.CommandSends | aoa_h264server.c:1558-1631 | from the members of a command to the reports, all going through: every type, with start, steps, target and release of a swipe |
| ServerControl.OrderForm | aoa_h264server.c:2153-2159 | what the page sends is a command in compact form |
| ServerControl.OrderShort | aoa_h264server.c:1934 | and always fits the message buffer |
| ServerControl.FingerRun | aoa_h264server.c:547-679 | the reports of a gesture move the finger as far as they go through |
| ServerControl.OrderMoves | aoa_h264server.c:1558-1631 | each command moves the finger by the results of its reports and uses up as many, whatever they are |
| ServerControl.MovedAsBelievedIff | aoa_h264server.c:1558-1631 | exactly when that is where the page believes the finger |
| ServerControl.OrdersBelieved | aoa_h264server.c:1558-1631 | over a run of orders it is when every report goes through |
| ServerControl.CarryOut | aoa_h264server.c:1558-1631 | the dispatcher on an order's text: reports and results used are those of the order |
| ServerControl.SentMoves | aoa_h264server.c:1558-1631 | the reports of a run of orders move the finger order by order, by their results |
| ServerControl.SentReported | aoa_h264server.c:1558-1631 | when all go through, they are those of the orders' contacts, in order |
| ServerControl.ReportReadsBack | aoa_h264server.c:504-545 | touch bit and pixel can be read from a report's bytes, in a frame of 1080 by 2340 if the size is missing |
| ServerControl.ServeNext | aoa_h264server.c:1936-1947 | one message: read, decoded, dispatched |
| ServerControl.ServeWs | aoa_h264server.c:1923-1950 | a whole connection, whatever reports fail and however the frame size changes: exactly the reports of the orders, the results they use, and the finger where these put it; nothing happens when HID is not ready |
| ServerControl.PageDrivesFinger | aoa_h264server.c:2162-2187 | from pointer events to HID reports, when these go through: exactly the contacts of the page's orders, and touching exactly when the page is dragging |
| Sha1.ChByOr | aoa_h264server.c:1738 | the OR form is Ch of section 4.1.1 of FIPS 180-4 |
| Sha1.MajByOr | aoa_h264server.c:1744 | the OR form is Maj |
| Sha1.WordRoundTrip | aoa_h264server.c:1716-1720 | words and bytes convert both ways |
| Sha1.PadInjective | aoa_h264server.c:1691-1709 | different messages have different paddings |
| Sha1.PaddedLength | aoa_h264server.c:1692-1696 | the least multiple of 64 with room for nine more bytes |
| Sha1.PadMessage | aoa_h264server.c:1698-1709 | the block is padded as section 5.1.1 of FIPS 180-4 says |
| Sha1.Schedule | aoa_h264server.c:1712-1725 | the 80 words are the standard's schedule |
| Sha1.RunRounds | aoa_h264server.c:1727-1757 | the loop is the recursive round function |
| Sha1.Compute | aoa_h264server.c:1685-1775 | the digest of FIPS 180-4 for every message below 2^61 bytes |
| Sha1Vectors.AbcDigest | aoa_h264server.c:1685-1775 | the standard's function gives "abc" its published digest |
| Sha1Vectors.SampleDigest | aoa_h264server.c:1685-1775 | and the right digest to a message of two blocks |
| Base64.TableIsAlphabet | aoa_h264server.c:1678-1679 | the table is the alphabet of section 4 of RFC 4648 |
| Base64.ShiftsAreSextets | aoa_h264server.c:1782-1790 | shifts and masks pick the four sextets |
| Base64.DecodeEncode | aoa_h264server.c:1777-1812 | a decoder of section 4 of RFC 4648 inverts the encoder |
| Base64.EncodedShape | aoa_h264server.c:1777-1812 | length and number of pads |
| Base64.EncodeInto | aoa_h264server.c:1777-1812 | loop and tail write that encoding |
| Handshake.KeyFits | aoa_h264server.c:1827-1836 | key and GUID are hashed whole exactly for keys of at most 219 bytes |
| Handshake.AcceptKey | aoa_h264server.c:1827-1839 | the accept value of section 4.2.2 of RFC 6455 |
| Handshake.SampleAccepted | aoa_h264server.c:1827-1839 | the sample key of section 1.3 of RFC 6455 is answered as that section says |
| Handshake.AcceptShape | aoa_h264server.c:1838-1839 | 28 characters, one pad, and the digest can be read back |
| WebSocket.XorTwice | aoa_h264server.c:1891-1893 | xor with a mask byte undoes itself |
| WebSocket.XorIsXor | aoa_h264server.c:1891-1893 | it is exclusive or of bit-vectors |
| WebSocket.MaskedIsXor | aoa_h264server.c:1891-1893 | octet i with octet i mod 4 of the mask |
| WebSocket.HelloMasked | aoa_h264server.c:1891-1893 | the masked "Hello" of section 5.7 of RFC 6455 |
| WebSocket.HelloFrame | win_video_server.py:324-343 | and its frame |
| WebSocket.LengthExamples | aoa_h264server.c:870-895 | the lengths of the examples of that section |
| WebSocket.MaskTwice | aoa_h264server.c:1891-1893 | unmasking recovers the payload for every mask |
| WebSocket.DecodeServerFrame | aoa_h264server.c:870-902 | a frame decodes to its payload, its length in the minimal form of section 5.2 of RFC 6455 |
| WebSocket.DecodeClientFrame | win_video_server.py:324-343 | a masked frame decodes to its text |
| WebSocket.RunDecodes | aoa_h264server.c:870-902 | a run of frames decodes to the same messages in order |
| WebSocket.CutFrame | aoa_h264server.c:870-902 | a frame cut anywhere is not decoded |
| WebSocket.CutRunDecodes | aoa_h264server.c:870-902 | a run of frames cut anywhere decodes to exactly the messages whose frames are complete |
| WebSocketIo.PutBe32 | aoa_h264server.c:852-857 | the four shifts write the big-endian word |
| WebSocketIo.FrameHeader | aoa_h264server.c:870-895 | the header bytes built are the frame's |
| WebSocketIo.ReadExtendedLength | aoa_h264server.c:1873-1882 | the 7, 16 and 64-bit forms, or the connection ended in them |
| WebSocketIo.WebsocketReadText | aoa_h264server.c:1859-1898 | text or failure exactly as the frame says; an empty text and a close frame both give 0, on which serve_ws ends the connection |
| WebSocketIo.UnmaskInPlace | aoa_h264server.c:1891-1893 | the buffer ends up holding the unmasked payload |
| WebSocketIo.WindowsReadText | win_video_server.py:324-343 | the same for the Windows reader, which ignores FIN and takes unmasked frames |
| WebSocketIo.ClientFrameIsRead | aoa_h264server.c:1859-1898 | both readers recover what a browser sent; the server exactly when it fits its buffer |
| LockOrder.ProgramsAreRanked | aoa_h264server.c:1092-1114 | every call takes its mutexes upwards and gives them back, on every branch |
| LockOrder.PublishIsRanked | aoa_h264server.c:1185-1252 | in particular publishing |
| LockOrder.DeviceCallsAreRanked | aoa_h264server.c:1315-1383 | and opening and closing the device |
| LockOrder.ClientCallsAreRanked | aoa_h264server.c:1431-1524 | and joining, leaving, status and shutdown |
| LockOrder.RankedParts | rk_aoa_bridge.c:670-716 | and the bridge's reports and its app messages, each a call of its own |
| LockOrder.InvariantHolds | aoa_h264server.c:422-445 | mutual exclusion and the discipline in every run |
| LockOrder.Unblocks | aoa_h264server.c:1092-1114 | following the holders ends at a thread that can step |
| LockOrder.NoDeadlock | aoa_h264server.c:1092-1114 | no reachable state has a thread waiting in vain |
| LockOrder.CallsComplete | aoa_h264server.c:1185-1252 | calls under way end after as many steps as they have operations, in any order |

## Left out

- USB discovery, descriptors, endpoints, the accessory start handshake (`aoa_start.c`): foreign calls.
- Socket set-up, accept loops, HTTP routing, HTML, WebCodecs, status formatting, log rate limits, the image script and the launchers.
- H.264 itself: payloads are bytes, apart from the leading start code.
- Real time: sleeps do nothing, a timer may fire whenever it is armed; socket and control-transfer timeouts are failures.
- File descriptors after a connection thread has ended, and the app bulk-out write inside `send_app_control_json`; that a cursor command is handed to it is modelled.
- The copy of the stream that `publish_h264_packet` writes to a file, and the fields that only the status page shows.
- Failing allocations, except in the config cache; in `read_avc1_packet` a failed `malloc` would drop the header read so far.
- The counters of packets and bytes are unbounded integers, not 64-bit ones.
- The pointer handling of the Windows page, which has other thresholds and no cancel listener.
- Several phones sending to one Windows server, and joins to the Windows hub during a publish: `sendall` is not synchronised there.
- Hub: a broadcast send either reaches a client whole or ends its stream; what a partly sent message decodes to is `ServerVideo.SocketCut`. A client that joins during a publish may have been greeted with an older config.
- ServerVideo.BroadcastStep: one broadcast at a time; a publish of several is a run of the hub. The HTTP header before a raw stream is not modelled.
- The replies of `serve_ws` to the browser, its hello message and the flag it looks at.
- UsbReader.UsbStreamReader.Running: the flag reads as set a finite, arbitrary number of times; once these are more than `Looks`, further ones only find a silent phone.
- Relay.EndToEnd: Windows handles the connections in the order in which they were made.
- LockOrder: unsynchronised reads, such as that of `aoa_handle` in `send_app_control_json`, are not modelled.
- Base64.EncodeInto: stated for every input length, of which the server uses 20.
- Handshake.AcceptKey: header parsing is not part of this model; the key is any byte string.
- JsonText.AtoiDecimal: atoi is modelled without overflow, which C leaves undefined.
- Touch.ServerHid.Swipe: required not to overflow an int, which C leaves undefined, in what it computes up to the first report that fails; so are the other gestures of both programs.
- BridgeControl.BridgeHid.ExecuteTouchAction: the same of the numbers in the text.
- ServerControl.ExecuteTouchAction: the same of the numbers in the text.
- ServerControl.ServeWs: the same of points and frame sizes, and only when HID is ready; frame sizes are at most 2^31 - 1.
- WebSocketIo.WindowsReadText: a frame cut in its length or mask raises an exception there, which is modelled as the end of the connection; decoding as UTF-8 with replacement is not modelled, so the control path is stated for ASCII.
- LockOrder: `pthread_join` and sends that never return are not modelled.
