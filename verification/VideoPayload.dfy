/** What goes on the wire for a message of the hub: start codes, AVC1 payloads and WebSocket frames. */
module VideoPayload {
  import opened Bytes
  import Avc1
  import opened WebSocket
  import opened WebSocketIo
  import opened Hub
  import opened ConfigCache

  const START_CODE: seq<byte> := [0, 0, 0, 1]

  predicate HasStartCode(data: seq<byte>) {
    || (|data| >= 4 && data[0] == 0 && data[1] == 0 && data[2] == 0 && data[3] == 1)
    || (|data| >= 3 && data[0] == 0 && data[1] == 0 && data[2] == 1)
  }

  /** publish_h264_packet puts a start code in front of data without one. */
  function Normalise(data: seq<byte>): (d: seq<byte>)
    ensures HasStartCode(d)
    ensures HasStartCode(data) <==> d == data
  {
    if HasStartCode(data) then data else START_CODE + data
  }

  // ---------- the two caches ----------

  /** What reaches the cache: publish_h264_packet returns at once for an empty packet. */
  function Arrivals(raw: seq<seq<byte>>): (h: seq<Arrival>)
    ensures forall i | 0 <= i < |h| :: h[i].allocates && h[i].data != []
  {
    if raw == [] then []
    else Arrivals(raw[..|raw| - 1])
         + (if raw[|raw| - 1] == [] then [] else [Arrival(Normalise(raw[|raw| - 1]), true)])
  }

  /**
   * The C server appends config packets and inserts start codes; the Windows hub replaces its cache
   * with the raw payload. After a further config packet the two hold the same bytes exactly when it
   * came with a start code, and the C cache was empty or had no room left for it.
   */
  lemma CachesAgreeIff(raw: seq<seq<byte>>, last: seq<byte>)
    requires last != []
    ensures var before := After(EMPTY, Arrivals(raw));
      Contents(After(EMPTY, Arrivals(raw + [last]))) == last
      <==> HasStartCode(last) && (before.run == [] || |Contents(before)| + |Normalise(last)| > LIMIT)
  {
    var h, before, data := Arrivals(raw), After(EMPTY, Arrivals(raw)), Normalise(last);
    assert (raw + [last])[..|raw|] == raw;
    CacheIsBounded(h);
    LastArrival(h, Arrival(data, true));
    AppendsIff(before, data);
    RunNotEmpty(before);
    NormaliseLength(last);
    hide After, Step, Normalise, HasStartCode, Contents, Bounded;
  }

  lemma LastArrival(h: seq<Arrival>, a: Arrival)
    ensures After(EMPTY, h + [a]) == Step(After(EMPTY, h), a.data, a.allocates)
  {
    assert Front(h + [a]) == h;
    hide Step;
  }

  lemma RunNotEmpty(c: Cache)
    requires Bounded(c)
    ensures Contents(c) == [] <==> c.run == []
  {
    if c.run != [] { assert c.run[0] in c.run; }
  }

  /** Two short config packets: the C cache holds both, the Windows cache the second. */
  lemma TwoConfigsDiffer()
    ensures var first, second := START_CODE + [7], START_CODE + [8];
      Contents(After(EMPTY, Arrivals([first] + [second]))) == first + second
  {
    var first, second := START_CODE + [7], START_CODE + [8];
    var none: seq<seq<byte>> := [];
    hide Step, After, Arrivals, Normalise, Contents;
    Cached(none, EMPTY, first);
    assert none + [first] == [first] && [] + first == first;
    Cached([first], Step(EMPTY, first, true), second);
  }

  /** A short config packet that comes with a start code is appended. */
  lemma Cached(raw: seq<seq<byte>>, c: Cache, last: seq<byte>)
    requires HasStartCode(last) && c == After(EMPTY, Arrivals(raw)) && |Contents(c)| + |last| <= LIMIT
    ensures var c' := Step(c, last, true);
      c' == After(EMPTY, Arrivals(raw + [last])) && Contents(c') == Contents(c) + last
  {
    ArrivalsGrow(raw, last);
    hide Step, After, Arrivals, Contents;
    LastArrival(Arrivals(raw), Arrival(last, true));
    AppendsIff(c, last);
  }

  lemma ArrivalsGrow(raw: seq<seq<byte>>, last: seq<byte>)
    requires last != []
    ensures Arrivals(raw + [last]) == Arrivals(raw) + [Arrival(Normalise(last), true)]
  {
    assert (raw + [last])[..|raw|] == raw;
    hide Normalise;
  }

  lemma NormaliseLength(data: seq<byte>)
    ensures |Normalise(data)| >= |data|
  {
  }

  // ---------- AVC1 payloads ----------

  type word = n: nat | n < TWO_32

  datatype Fields = Fields(width: word, height: word, flags: word, pts: nat, data: seq<byte>)

  predicate Fits(f: Fields) {
    f.pts < MAX_SIZE && |f.data| < TWO_32
  }

  function Payload(f: Fields): (p: seq<byte>)
    requires Fits(f)
    ensures |p| == 28 + |f.data|
  {
    Header(f) + f.data
  }

  /** decodePacket in the page. */
  function ReadPayload(p: seq<byte>): (f: Option<Fields>)
    ensures f.Some? ==> Fits(f.value)
  {
    if |p| < 28 || p[..4] != Avc1.MAGIC then None
    else
      var size := ReadBe32(p[24..28]);
      if 28 + size > |p| then None
      else Some(Fields(ReadBe32(p[4..8]), ReadBe32(p[8..12]), ReadBe32(p[12..16]), ReadBe64(p[16..24]),
          p[28..28 + size]))
  }

  lemma PayloadReadsBack(f: Fields)
    requires Fits(f)
    ensures ReadPayload(Payload(f)) == Some(f)
    ensures 0 < |f.data| <= Avc1.MAX_DATA ==> Avc1.WellFormed(Payload(f))
  {
    HeaderFields(f);
    HeaderKept(Header(f), f.data);
    hide Header, ReadBe32, WriteBe32, ReadBe64, WriteBe64;
  }

  lemma HeaderFields(f: Fields)
    requires Fits(f)
    ensures var h := Header(f);
      && h[..4] == Avc1.MAGIC && h[4..8] == WriteBe32(f.width) && h[8..12] == WriteBe32(f.height)
      && h[12..16] == WriteBe32(f.flags) && h[16..24] == WriteBe64(f.pts) && h[24..28] == WriteBe32(|f.data|)
  {
    var width, height, flags := WriteBe32(f.width), WriteBe32(f.height), WriteBe32(f.flags);
    var pts, size := WriteBe64(f.pts), WriteBe32(|f.data|);
    hide WriteBe32, WriteBe64;
    assert Header(f) == Avc1.MAGIC + width + height + flags + pts + size;
  }

  lemma HeaderKept(h: seq<byte>, data: seq<byte>)
    requires |h| == 28
    ensures var p := h + data;
      && p[..4] == h[..4] && p[4..8] == h[4..8] && p[8..12] == h[8..12] && p[12..16] == h[12..16]
      && p[16..24] == h[16..24] && p[24..28] == h[24..28] && p[28..28 + |data|] == data
  {
  }

  function Header(f: Fields): (h: seq<byte>)
    requires Fits(f)
    ensures |h| == 28
  {
    Avc1.MAGIC + WriteBe32(f.width) + WriteBe32(f.height) + WriteBe32(f.flags) + WriteBe64(f.pts) + WriteBe32(|f.data|)
  }

  method PutHeader(p: array<byte>, f: Fields)
    requires Fits(f) && p.Length >= 28
    modifies p
    ensures p[..28] == Header(f)
  {
    hide WriteBe32;
    p[0], p[1], p[2], p[3] := 0x41, 0x56, 0x43, 0x31;
    assert p[..4] == Avc1.MAGIC;
    PutBe32(p, 4, f.width);
    PutBe32(p, 8, f.height);
    PutBe32(p, 12, f.flags);
    PutBe32(p, 16, f.pts / TWO_32);
    PutBe32(p, 20, f.pts % TWO_32);
    PutBe32(p, 24, |f.data|);
  }

  /** The payload of broadcast_ws_h264_packet, written into the allocated block. */
  method BuildPayload(f: Fields) returns (p: array<byte>)
    requires Fits(f)
    ensures fresh(p) && p[..] == Payload(f)
  {
    hide WriteBe32, WriteBe64;
    p := new byte[28 + |f.data|](_ => 0);
    PutHeader(p, f);
    for i := 0 to |f.data|
      invariant p[..28 + i] == Header(f) + f.data[..i]
    {
      p[28 + i] := f.data[i];
    }
    assert p[..28 + |f.data|] == p[..] && f.data[..|f.data|] == f.data;
  }

  // ---------- from the hub's messages to what a browser decodes ----------

  predicate Sendable(m: Message) {
    match m
    case Config(bytes, size) => size.width < TWO_32 && size.height < TWO_32 && |bytes| < TWO_32
    case Media(p) => p.width < TWO_32 && p.height < TWO_32 && p.flags < TWO_32 && p.pts < MAX_SIZE && |p.data| < TWO_32
  }

  /** Config goes out with flags 2 and time stamp 0, under the size it was sent with. */
  function FieldsOf(m: Message): (f: Fields)
    requires Sendable(m)
    ensures Fits(f)
  {
    match m
    case Config(bytes, size) => Fields(size.width, size.height, 2, 0, bytes)
    case Media(p) => Fields(p.width, p.height, p.flags, p.pts, p.data)
  }

  function Payloads(ms: seq<Message>): (ps: seq<seq<byte>>)
    requires forall i | 0 <= i < |ms| :: Sendable(ms[i])
    ensures |ps| == |ms| && forall p | p in ps :: |p| < MAX_SIZE
    ensures forall i | 0 <= i < |ps| :: ps[i] == Payload(FieldsOf(ms[i]))
  {
    if ms == [] then [] else [Payload(FieldsOf(ms[0]))] + Payloads(ms[1..])
  }

  lemma {:induction false} PayloadsGrow(ms: seq<Message>, m: Message)
    requires (forall i | 0 <= i < |ms| :: Sendable(ms[i])) && Sendable(m)
    ensures forall i | 0 <= i < |ms + [m]| :: Sendable((ms + [m])[i])
    ensures Payloads(ms + [m]) == Payloads(ms) + [Payload(FieldsOf(m))]
  {
    hide Payload, FieldsOf, Sendable;
    if ms == [] {
      assert ms + [m] == [m] && [m][1..] == [];
    } else {
      var head, tail := Payload(FieldsOf(ms[0])), ms[1..];
      PayloadsGrow(tail, m);
      assert (ms + [m])[0] == ms[0] && (ms + [m])[1..] == tail + [m];
      Regroup([head], Payloads(tail), [Payload(FieldsOf(m))]);
    }
  }

  lemma PayloadsTake(ms: seq<Message>, k: nat)
    requires (forall i | 0 <= i < |ms| :: Sendable(ms[i])) && k <= |ms|
    ensures Payloads(ms[..k]) == Payloads(ms)[..k]
  {
    hide Payload, FieldsOf, Sendable;
  }

  /** Config reaches the page as a packet with flags 2 and time stamp 0, under the size it was sent with. */
  lemma ConfigReachesBrowser(bytes: seq<byte>, size: Size)
    requires Sendable(Config(bytes, size))
    ensures ReadPayload(Payload(FieldsOf(Config(bytes, size)))) == Some(Fields(size.width, size.height, 2, 0, bytes))
  {
    PayloadReadsBack(Fields(size.width, size.height, 2, 0, bytes));
    hide ReadPayload, Payload;
  }

  /** A browser that gets the bytes of a client stream decodes exactly its messages, in order. */
  lemma BrowserSeesStream(ms: seq<Message>)
    requires forall i | 0 <= i < |ms| :: Sendable(ms[i])
    ensures var frames := DecodeAll(ServerFrames(Payloads(ms)));
      |frames| == |ms| && forall i | 0 <= i < |ms| :: ReadPayload(frames[i].payload) == Some(FieldsOf(ms[i]))
  {
    RunDecodes(Payloads(ms));
    hide Payload, DecodeAll, ServerFrames, ReadPayload, FieldsOf, Payloads, Sendable;
    forall i | 0 <= i < |ms| {
      PayloadReadsBack(FieldsOf(ms[i]));
    }
  }

  /** When the bytes break off, as after a send that failed, it decodes exactly the messages that are complete. */
  lemma BrowserSeesCut(ms: seq<Message>, q: seq<byte>) returns (k: nat)
    requires (forall i | 0 <= i < |ms| :: Sendable(ms[i])) && q <= ServerFrames(Payloads(ms))
    ensures k <= |ms| && |DecodeAll(q)| == k
    ensures forall i | 0 <= i < k :: ReadPayload(DecodeAll(q)[i].payload) == Some(FieldsOf(ms[i]))
    ensures ServerFrames(Payloads(ms)[..k]) <= q
    ensures k < |ms| ==> |q| < |ServerFrames(Payloads(ms)[..k + 1])|
  {
    hide Payload, DecodeAll, ServerFrames, ReadPayload, FieldsOf, Payloads, Sendable;
    var ps := Payloads(ms);
    k := CutRunDecodes(ps, q);
    forall i | 0 <= i < k
      ensures ReadPayload(DecodeAll(q)[i].payload) == Some(FieldsOf(ms[i]))
    {
      PayloadReadsBack(FieldsOf(ms[i]));
      assert DecodeAll(q)[i].payload == ps[..k][i] == ps[i];
    }
  }
}
