/**
 * Publishing and joining at lock granularity: one thread publishes packets in steps, each of which
 * holds a client-list or cache lock, while any number of client threads fetch the cached config,
 * enter a list, leave it, or are dropped when a send fails. Every interleaving is a run.
 */
module Hub {
  import opened Bytes
  import opened ConfigCache

  /** A packet whose data already starts with a start code. */
  datatype Packet = Packet(width: nat, height: nat, flags: nat, pts: nat, data: seq<byte>)

  predicate IsKeyframe(p: Packet) { p.flags % 2 == 1 }
  predicate IsConfig(p: Packet) { p.flags / 2 % 2 == 1 }

  /** Config bytes with the frame size they are announced under (the raw list sends the bytes alone). */
  datatype Message = Config(bytes: seq<byte>, size: Size) | Media(packet: Packet)

  datatype Size = Size(width: nat, height: nat)

  function SizeOf(p: Packet): (s: Size) { Size(p.width, p.height) }

  /** What a joining browser is told: the latest size, or the default while one of its parts is zero. */
  function Shown(latest: Size): (s: Size) {
    if latest.width > 0 && latest.height > 0 then latest else Size(720, 1568)
  }

  /** The two lists: /h264 and /video. */
  datatype Kind = Raw | Browser

  datatype Stage = Arrived | Greeted | Listed | Gone

  /**
   * `size` is the frame size read on arrival, `greeting` the cache contents sent before listing,
   * `since` the number of messages its list had been told at listing. `quiet` says that no publish
   * was under way when these were read nor came between them, `at` how many packets had been
   * published then; a raw client does not use the size.
   */
  datatype Client = Client(kind: Kind, stage: Stage, size: Size, greeting: seq<byte>, since: nat, at: nat,
                           quiet: bool, stream: seq<Message>)

  /** Where the publishing thread is in publish_h264_packet. */
  datatype Phase =
    | Idle
    | Cached(packet: Packet)
    | RawConfigured(packet: Packet)
    | Copied(packet: Packet, payload: seq<byte>)
    | AllConfigured(packet: Packet)
    | RawServed(packet: Packet)
    | Served(packet: Packet)

  datatype Published = Published(packet: Packet, allocates: bool)

  datatype State = State(
    cache: Cache,
    phase: Phase,
    clients: map<nat, Client>,
    toldRaw: seq<Message>,      // what each list has been sent since start-up
    toldBrowser: seq<Message>,
    history: seq<Published>,    // the packets whose publish has begun
    latest: Size)               // latest_width, latest_height

  function Told(s: State, kind: Kind): (ms: seq<Message>) {
    if kind == Raw then s.toldRaw else s.toldBrowser
  }

  function Hello(config: seq<byte>, size: Size): (ms: seq<Message>) {
    if config == [] then [] else [Config(config, size)]
  }

  // ---------- the steps ----------

  predicate Init(s: State) {
    s == State(EMPTY, Idle, map[], [], [], [], Size(0, 0))
  }

  function CacheStep(c: Cache, e: Published): (c': Cache) {
    if IsConfig(e.packet) then Step(c, e.packet.data, e.allocates) else c
  }

  /** What a broadcast does to one client, whose send fails if it is `lost`. */
  function Handed(c: Client, kind: Kind, m: Message, lost: bool): (c': Client)
    ensures c'.kind == c.kind && c'.quiet == c.quiet
  {
    if c.kind != kind || c.stage != Listed then c
    else if lost then c.(stage := Gone)
    else c.(stream := c.stream + [m])
  }

  /** A broadcast under the list's lock; the clients in `lost` are those whose send fails. */
  function Deliver(clients: map<nat, Client>, kind: Kind, m: Message, lost: set<nat>): (cs: map<nat, Client>) {
    map id | id in clients :: Handed(clients[id], kind, m, id in lost)
  }

  function Tell(s: State, kind: Kind, m: Message, lost: set<nat>): (s': State) {
    var t := s.(clients := Deliver(s.clients, kind, m, lost));
    if kind == Raw then t.(toldRaw := s.toldRaw + [m]) else t.(toldBrowser := s.toldBrowser + [m])
  }

  function TellConfig(s: State, kind: Kind, config: seq<byte>, size: Size, lost: set<nat>): (s': State) {
    if config == [] then s else Tell(s, kind, Config(config, size), lost)
  }

  datatype Event =
    | Begin(packet: Packet, allocates: bool)
    | ConfigToRaw(lost: set<nat>)
    | CopyConfig
    | ConfigToBrowsers(lost: set<nat>)
    | MediaToRaw(lost: set<nat>)
    | MediaToBrowsers(lost: set<nat>)
    | NoteLatest
    | Arrive(id: nat, kind: Kind)
    | Greet(id: nat, sent: bool)
    | Enlist(id: nat)
    | Leave(id: nat)

  predicate Enabled(s: State, e: Event) {
    match e
    case Begin(_, _) => s.phase.Idle?
    case ConfigToRaw(_) => s.phase.Cached? && IsKeyframe(s.phase.packet)
    case CopyConfig => s.phase.RawConfigured?
    case ConfigToBrowsers(_) => s.phase.Copied?
    case MediaToRaw(_) => s.phase.AllConfigured? || (s.phase.Cached? && !IsKeyframe(s.phase.packet))
    case MediaToBrowsers(_) => s.phase.RawServed?
    case NoteLatest => s.phase.Served?
    case Arrive(id, _) => id !in s.clients
    case Greet(id, _) => id in s.clients && s.clients[id].stage == Arrived
    case Enlist(id) => id in s.clients && s.clients[id].stage == Greeted
    case Leave(id) => id in s.clients && s.clients[id].stage == Listed
  }

  function Apply(s: State, e: Event): (s': State)
    requires Enabled(s, e)
  {
    match e
    case Begin(p, allocates) =>
      var e := Published(p, allocates);
      s.(cache := CacheStep(s.cache, e), phase := Cached(p), history := s.history + [e])
    case ConfigToRaw(lost) =>
      var p := s.phase.packet;
      TellConfig(s, Raw, Contents(s.cache), SizeOf(p), lost).(phase := RawConfigured(p))
    case CopyConfig => s.(phase := Copied(s.phase.packet, Contents(s.cache)))
    case ConfigToBrowsers(lost) =>
      var p := s.phase.packet;
      TellConfig(s, Browser, s.phase.payload, SizeOf(p), lost).(phase := AllConfigured(p))
    case MediaToRaw(lost) => Tell(s, Raw, Media(s.phase.packet), lost).(phase := RawServed(s.phase.packet))
    case MediaToBrowsers(lost) => Tell(s, Browser, Media(s.phase.packet), lost).(phase := Served(s.phase.packet))
    case NoteLatest => s.(latest := SizeOf(s.phase.packet), phase := Idle)
    case Arrive(id, kind) =>
      s.(clients := s.clients[id :=
        Client(kind, Arrived, Shown(s.latest), [], 0, |s.history|, s.phase.Idle?, [])])
    case Greet(id, sent) =>
      var c, config := s.clients[id], Contents(s.cache);
      var settled := s.phase.Idle? && (c.kind == Raw || (c.quiet && c.at == |s.history|));
      s.(clients := s.clients[id :=
        c.(stage := if sent then Greeted else Gone, greeting := config, at := |s.history|, quiet := settled,
           stream := c.stream + if sent then Hello(config, c.size) else [])])
    case Enlist(id) =>
      var c := s.clients[id];
      s.(clients := s.clients[id := c.(stage := Listed, since := |Told(s, c.kind)|,
                                       quiet := c.quiet && s.phase.Idle? && c.at == |s.history|)])
    case Leave(id) => s.(clients := s.clients[id := s.clients[id].(stage := Gone)])
  }

  ghost predicate Steps(states: seq<State>, events: seq<Event>) {
    && |states| == |events| + 1
    && forall i | 0 <= i < |events| :: Enabled(states[i], events[i]) && states[i + 1] == Apply(states[i], events[i])
  }

  ghost predicate Run(states: seq<State>, events: seq<Event>) {
    Steps(states, events) && Init(states[0])
  }

  // ---------- what the lists are told ----------

  function CacheAfter(h: seq<Published>): (c: Cache) {
    if h == [] then EMPTY else CacheStep(CacheAfter(Front(h)), h[|h| - 1])
  }

  /** A keyframe goes out right after the config the cache then holds. */
  function Lead(c: Cache, p: Packet): (ms: seq<Message>) {
    if IsKeyframe(p) then Hello(Contents(c), SizeOf(p)) else []
  }

  function Story(h: seq<Published>): (ms: seq<Message>) {
    if h == [] then []
    else Story(Front(h)) + Chapter(CacheAfter(h), Last(h).packet)
  }

  /** All that a list is told about a packet. */
  function Chapter(c: Cache, p: Packet): (ms: seq<Message>) { Lead(c, p) + [Media(p)] }

  /** How much of the packet under way a list has been told. */
  function UnderWay(kind: Kind, phase: Phase, c: Cache): (ms: seq<Message>) {
    match phase
    case Idle => []
    case Cached(_) => []
    case RawConfigured(p) => if kind == Raw then Lead(c, p) else []
    case Copied(p, _) => if kind == Raw then Lead(c, p) else []
    case AllConfigured(p) => Lead(c, p)
    case RawServed(p) => Lead(c, p) + (if kind == Raw then [Media(p)] else [])
    case Served(p) => Chapter(c, p)
  }

  /** The messages of the publishes that are over. */
  function Past(s: State): (ms: seq<Message>) {
    if s.phase.Idle? || s.history == [] then Story(s.history) else Story(Front(s.history))
  }

  function LatestAfter(h: seq<Published>): (size: Size) {
    if h == [] then Size(0, 0) else SizeOf(h[|h| - 1].packet)
  }

  predicate ToldRight(s: State) {
    && s.latest == LatestAfter(if s.phase.Idle? || s.history == [] then s.history else Front(s.history))
    && s.cache == CacheAfter(s.history)
    && (!s.phase.Idle? ==> s.history != [] && s.history[|s.history| - 1].packet == s.phase.packet)
    && (s.phase.RawConfigured? || s.phase.Copied? || s.phase.AllConfigured? ==> IsKeyframe(s.phase.packet))
    && (s.phase.Copied? ==> s.phase.payload == Contents(s.cache))
    && s.toldRaw == Past(s) + UnderWay(Raw, s.phase, s.cache)
    && s.toldBrowser == Past(s) + UnderWay(Browser, s.phase, s.cache)
  }

  /**
   * A listed client has received its greeting and then all its list was told since; one that is gone, a
   * prefix of that.
   */
  predicate ClientRight(c: Client, told: seq<Message>) {
    match c.stage
    case Arrived => c.since == 0 && c.stream == []
    case Greeted => c.since == 0 && c.stream == Hello(c.greeting, c.size)
    case Listed => c.since <= |told| && c.stream == Hello(c.greeting, c.size) + told[c.since..]
    case Gone => c.since <= |told| && c.stream <= Hello(c.greeting, c.size) + told[c.since..]
  }

  predicate QuietRight(c: Client, h: seq<Published>) {
    c.quiet ==>
      && c.at <= |h|
      && (c.kind == Browser ==> c.size == Shown(LatestAfter(h[..c.at])))
      && (c.stage != Arrived ==> c.greeting == Contents(CacheAfter(h[..c.at])))
      && (c.stage == Listed ==> c.since == |Story(h[..c.at])|)
  }

  ghost predicate ClientsRight(clients: map<nat, Client>, toldRaw: seq<Message>, toldBrowser: seq<Message>,
      h: seq<Published>) {
    forall id | id in clients ::
      && ClientRight(clients[id], if clients[id].kind == Raw then toldRaw else toldBrowser)
      && QuietRight(clients[id], h)
  }

  ghost predicate Invariant(s: State) {
    ToldRight(s) && ClientsRight(s.clients, s.toldRaw, s.toldBrowser, s.history)
  }

  // ---------- the invariant holds in every run ----------

  lemma ClientDelivered(c: Client, told: seq<Message>, kind: Kind, m: Message, lost: bool, h: seq<Published>)
    requires ClientRight(c, told) && QuietRight(c, h)
    ensures QuietRight(Handed(c, kind, m, lost), h)
    ensures ClientRight(Handed(c, kind, m, lost), if c.kind == kind then told + [m] else told)
  {
    if c.kind == kind && (c.stage == Listed || c.stage == Gone) {
      var hello := Hello(c.greeting, c.size);
      assert (told + [m])[c.since..] == told[c.since..] + [m];
      assert hello + (told + [m])[c.since..] == hello + told[c.since..] + [m];
    }
    hide Hello, Story, CacheAfter, Contents, Shown, LatestAfter;
  }

  lemma DeliverKeeps(clients: map<nat, Client>, raw: seq<Message>, browser: seq<Message>, h: seq<Published>,
                     kind: Kind, m: Message, lost: set<nat>)
    requires ClientsRight(clients, raw, browser, h)
    ensures kind == Raw ==> ClientsRight(Deliver(clients, kind, m, lost), raw + [m], browser, h)
    ensures kind == Browser ==> ClientsRight(Deliver(clients, kind, m, lost), raw, browser + [m], h)
  {
    hide ClientRight, QuietRight, Handed;
    forall id | id in clients
      ensures var c := Handed(clients[id], kind, m, id in lost);
        var told := if c.kind == Raw then raw else browser;
        QuietRight(c, h) && ClientRight(c, if c.kind == kind then told + [m] else told)
    {
      ClientDelivered(clients[id], if clients[id].kind == Raw then raw else browser, kind, m, id in lost, h);
    }
  }

  lemma TellKeeps(s: State, kind: Kind, m: Message, lost: set<nat>)
    requires ClientsRight(s.clients, s.toldRaw, s.toldBrowser, s.history)
    ensures var t := Tell(s, kind, m, lost); ClientsRight(t.clients, t.toldRaw, t.toldBrowser, t.history)
  {
    hide Deliver, ClientsRight;
    DeliverKeeps(s.clients, s.toldRaw, s.toldBrowser, s.history, kind, m, lost);
  }

  lemma HistoryGrows(clients: map<nat, Client>, raw: seq<Message>, browser: seq<Message>, h: seq<Published>,
      e: Published)
    requires ClientsRight(clients, raw, browser, h)
    ensures ClientsRight(clients, raw, browser, h + [e])
  {
    hide ClientRight, Story, CacheAfter;
    forall id | id in clients
      ensures QuietRight(clients[id], h + [e])
    {
      if clients[id].quiet { assert (h + [e])[..clients[id].at] == h[..clients[id].at]; }
    }
  }

  predicate IsPublish(e: Event) { !e.Arrive? && !e.Greet? && !e.Enlist? && !e.Leave? }

  lemma PublishKeepsClients(s: State, e: Event)
    requires Invariant(s) && Enabled(s, e) && IsPublish(e)
    ensures var t := Apply(s, e); ClientsRight(t.clients, t.toldRaw, t.toldBrowser, t.history)
  {
    hide ClientsRight, Deliver, Contents, Tell;
    match e {
      case Begin(p, allocates) =>
        HistoryGrows(s.clients, s.toldRaw, s.toldBrowser, s.history, Published(p, allocates));
      case ConfigToRaw(lost) => TellKeeps(s, Raw, Config(Contents(s.cache), SizeOf(s.phase.packet)), lost);
      case CopyConfig =>
      case ConfigToBrowsers(lost) => TellKeeps(s, Browser, Config(s.phase.payload, SizeOf(s.phase.packet)), lost);
      case MediaToRaw(lost) => TellKeeps(s, Raw, Media(s.phase.packet), lost);
      case MediaToBrowsers(lost) => TellKeeps(s, Browser, Media(s.phase.packet), lost);
      case NoteLatest =>
    }
  }

  lemma BeginKeepsTold(s: State, e: Event)
    requires ToldRight(s) && Enabled(s, e) && e.Begin?
    ensures ToldRight(Apply(s, e))
  {
    var s' := Apply(s, e);
    assert Front(s'.history) == s.history;
    assert s'.cache == CacheAfter(s'.history) by { hide Story, CacheStep; }
    hide CacheStep, Story, CacheAfter;
    assert Past(s') == Story(s.history) && Past(s) == Story(s.history);
    assert Past(s') + [] == Past(s') && Past(s) + [] == Past(s);
  }

  lemma PastStays(s: State, e: Event)
    requires ToldRight(s) && Enabled(s, e) && !s.phase.Idle? && !e.NoteLatest?
    ensures Past(Apply(s, e)) == Past(s) && !Apply(s, e).phase.Idle?
  {
    hide ToldRight, Story, Contents, CacheStep, Hello, Deliver;
  }

  lemma TellingKeepsTold(s: State, e: Event)
    requires ToldRight(s) && Enabled(s, e) && IsPublish(e) && !e.Begin? && !e.NoteLatest?
    ensures ToldRight(Apply(s, e))
  {
    hide Deliver, Contents, CacheStep, CacheAfter, Story, LatestAfter, UnderWay;
    PastStays(s, e);
    TellingTold(s, e);
    hide Past, Told;
  }

  /** A telling step adds the list's next message about the packet under way. */
  lemma TellingTold(s: State, e: Event)
    requires ToldRight(s) && Enabled(s, e) && IsPublish(e) && !e.Begin? && !e.NoteLatest?
    ensures var s' := Apply(s, e);
      && s'.toldRaw == Past(s) + UnderWay(Raw, s'.phase, s'.cache)
      && s'.toldBrowser == Past(s) + UnderWay(Browser, s'.phase, s'.cache)
  {
    hide Deliver, Contents, CacheStep, CacheAfter, Story, Past, LatestAfter;
  }

  lemma LastKeepsTold(s: State, e: Event)
    requires ToldRight(s) && Enabled(s, e) && e.NoteLatest?
    ensures ToldRight(Apply(s, e))
  {
    hide Deliver, Contents, CacheStep, CacheAfter;
    var s' := Apply(s, e);
    var p := s.phase.packet;
    assert Story(s.history) == Past(s) + Chapter(s.cache, p);
    hide Story, Lead, Chapter;
    assert Past(s') + [] == Past(s');
  }

  /** Replacing one client by one that fits keeps the clients right. */
  lemma OneClient(clients: map<nat, Client>, raw: seq<Message>, browser: seq<Message>, h: seq<Published>, id: nat,
      c: Client)
    requires ClientsRight(clients, raw, browser, h)
    requires ClientRight(c, if c.kind == Raw then raw else browser) && QuietRight(c, h)
    ensures ClientsRight(clients[id := c], raw, browser, h)
  {
    hide ClientRight, QuietRight;
  }

  /** The client's part of the invariant, for the client a step is about. */
  ghost predicate OneRight(s: State, id: nat) {
    id in s.clients && ClientRight(s.clients[id], Told(s, s.clients[id].kind)) && QuietRight(s.clients[id], s.history)
  }

  lemma ArriveRight(s: State, e: Event)
    requires ToldRight(s) && Enabled(s, e) && e.Arrive?
    ensures OneRight(Apply(s, e), e.id)
  {
    assert s.history[..|s.history|] == s.history;
    hide Story, CacheAfter, UnderWay, Past, Contents, Shown, Told;
  }

  lemma GreetRight(s: State, e: Event)
    requires ToldRight(s) && Enabled(s, e) && e.Greet? && OneRight(s, e.id)
    ensures OneRight(Apply(s, e), e.id)
  {
    hide Story, CacheAfter, UnderWay, Past, Contents, Shown, Hello, LatestAfter, Told;
    assert s.history[..|s.history|] == s.history;
    var c := Apply(s, e).clients[e.id];
    var hello, told := Hello(Contents(s.cache), c.size), Told(s, c.kind);
    assert [] + hello == hello && [] <= hello + told[0..];
  }

  lemma EnlistRight(s: State, e: Event)
    requires ToldRight(s) && Enabled(s, e) && e.Enlist? && OneRight(s, e.id)
    ensures OneRight(Apply(s, e), e.id)
  {
    var c := s.clients[e.id];
    if s.phase.Idle? { IdleTold(s, c.kind); }
    Enlisted(c, Told(s, c.kind), s.history, s.phase.Idle?);
    hide Story, ToldRight, ClientRight, QuietRight;
  }

  lemma IdleTold(s: State, kind: Kind)
    requires ToldRight(s) && s.phase.Idle?
    ensures Told(s, kind) == Story(s.history)
  {
    hide Story, CacheAfter, LatestAfter;
    assert Story(s.history) + [] == Story(s.history);
  }

  lemma Enlisted(c: Client, told: seq<Message>, h: seq<Published>, idle: bool)
    requires c.stage == Greeted && ClientRight(c, told) && QuietRight(c, h)
    requires idle ==> told == Story(h)
    ensures var c' := c.(stage := Listed, since := |told|, quiet := c.quiet && idle && c.at == |h|);
      ClientRight(c', told) && QuietRight(c', h)
  {
    assert h[..|h|] == h;
    hide Story, CacheAfter, Contents, Shown, Hello, LatestAfter;
    var hello := Hello(c.greeting, c.size);
    assert told[|told|..] == [] && hello + [] == hello;
  }

  lemma LeaveRight(s: State, e: Event)
    requires Enabled(s, e) && e.Leave? && OneRight(s, e.id)
    ensures OneRight(Apply(s, e), e.id)
  {
    hide Story, CacheAfter, Contents, Shown, Hello, LatestAfter;
  }

  /** A step about one client leaves the rest alone. */
  lemma Untouched(s: State, e: Event)
    requires Enabled(s, e) && !IsPublish(e)
    ensures var s' := Apply(s, e);
      e.id in s'.clients && s' == s.(clients := s.clients[e.id := s'.clients[e.id]])
  {
    hide Contents, Told, Hello, Shown;
  }

  lemma OneClientKeeps(s: State, e: Event)
    requires Invariant(s) && Enabled(s, e) && !IsPublish(e) && OneRight(Apply(s, e), e.id)
    ensures Invariant(Apply(s, e))
  {
    Untouched(s, e);
    var s' := Apply(s, e);
    hide Apply, ClientRight, QuietRight, ClientsRight;
    OneClient(s.clients, s.toldRaw, s.toldBrowser, s.history, e.id, s'.clients[e.id]);
    hide Story, CacheAfter, UnderWay, Contents, LatestAfter;
  }

  lemma JoinKeeps(s: State, e: Event)
    requires Invariant(s) && Enabled(s, e) && !IsPublish(e)
    ensures Invariant(Apply(s, e))
  {
    if !e.Arrive? { IsRight(s, e.id); }
    hide Invariant, Apply, OneRight;
    if e.Arrive? {
      ArriveRight(s, e);
    } else if e.Greet? {
      GreetRight(s, e);
    } else if e.Enlist? {
      EnlistRight(s, e);
    } else {
      LeaveRight(s, e);
    }
    OneClientKeeps(s, e);
  }

  lemma IsRight(s: State, id: nat)
    requires Invariant(s) && id in s.clients
    ensures OneRight(s, id) && ToldRight(s)
  {
    hide ToldRight, ClientRight, QuietRight;
  }

  lemma StepKeeps(s: State, e: Event)
    requires Invariant(s) && Enabled(s, e)
    ensures Invariant(Apply(s, e))
  {
    hide ClientsRight, ToldRight, Apply;
    if IsPublish(e) {
      PublishKeepsClients(s, e);
      if e.Begin? {
        BeginKeepsTold(s, e);
      } else if e.NoteLatest? {
        LastKeepsTold(s, e);
      } else {
        TellingKeepsTold(s, e);
      }
    } else {
      JoinKeeps(s, e);
    }
  }

  lemma {:induction false} InvariantHolds(states: seq<State>, events: seq<Event>, i: nat)
    requires Run(states, events) && i < |states|
    ensures Invariant(states[i])
  {
    if i > 0 {
      InvariantHolds(states, events, i - 1);
      StepKeeps(states[i - 1], events[i - 1]);
    }
  }

  // ---------- what clients receive ----------

  /** The step that hands the packet under way to the list `kind`. */
  predicate ServesMedia(e: Event, kind: Kind) {
    if kind == Raw then e.MediaToRaw? else e.MediaToBrowsers?
  }

  ghost predicate EndsWith<T>(s: seq<T>, end: seq<T>) {
    |end| <= |s| && s[|s| - |end|..] == end
  }

  /** The last two messages are the config `bytes`, under any size, and `media`. */
  predicate EndsLed(s: seq<Message>, bytes: seq<byte>, media: Message) {
    && |s| >= 2 && s[|s| - 1] == media
    && s[|s| - 2].Config? && s[|s| - 2].bytes == bytes
  }

  lemma ToldBeforeKeyframe(s: State, e: Event, kind: Kind)
    requires ToldRight(s) && Enabled(s, e) && ServesMedia(e, kind)
    requires IsKeyframe(s.phase.packet) && Contents(s.cache) != []
    ensures Told(s, kind) == Past(s) + [Config(Contents(s.cache), SizeOf(s.phase.packet))]
  {
    hide Past, Contents;
  }

  /** The last two messages of a client that has just been handed a keyframe. */
  lemma ServedStream(s: State, e: Event, id: nat)
    requires Invariant(s) && Enabled(s, e) && id in s.clients && ServesMedia(e, s.clients[id].kind)
    requires IsKeyframe(s.phase.packet) && Contents(s.cache) != []
    requires Apply(s, e).clients[id].stage == Listed
    ensures var c, p := s.clients[id], s.phase.packet;
      var told := Past(s) + [Config(Contents(s.cache), SizeOf(p))];
      && c.since <= |told|
      && Apply(s, e).clients[id].stream == Hello(c.greeting, c.size) + told[c.since..] + [Media(p)]
  {
    var c := s.clients[id];
    assert ClientRight(c, Told(s, c.kind));
    ToldBeforeKeyframe(s, e, c.kind);
    StreamHanded(s, e, id);
    hide Apply, Told, Past, ToldRight, ClientsRight, Hello, Contents, Enabled;
  }

  lemma StreamHanded(s: State, e: Event, id: nat)
    requires Enabled(s, e) && id in s.clients && ServesMedia(e, s.clients[id].kind)
    requires Apply(s, e).clients[id].stage == Listed
    ensures s.clients[id].stage == Listed
    ensures Apply(s, e).clients[id].stream == s.clients[id].stream + [Media(s.phase.packet)]
  {
  }

  lemma EndsInPair(hello: seq<Message>, past: seq<Message>, config: Message, media: Message, since: nat)
    requires |hello| <= 1 && (hello != [] ==> hello[0].Config?) && since <= |past| + 1
    requires config.Config? && media.Media?
    ensures var s := hello + (past + [config])[since..] + [media];
      && (EndsLed(s, config.bytes, media) <==> since <= |past| || (hello != [] && hello[0].bytes == config.bytes))
      && (since <= |past| ==> EndsWith(s, [config, media]))
  {
    var s := hello + (past + [config])[since..] + [media];
    if since <= |past| {
      assert (past + [config])[since..] == past[since..] + [config];
      assert s[|s| - 2..] == [config, media];
    } else {
      assert s == hello + [media];
    }
  }

  /**
   * When a keyframe has been handed to a list, a client still listed has received the whole current
   * config right before it exactly when it was listed before the publish began, or slipped in
   * between the config and the keyframe after being greeted with that same config.
   */
  lemma ConfigPrecedesKeyframe(s: State, e: Event, id: nat)
    requires Invariant(s) && Enabled(s, e) && id in s.clients && ServesMedia(e, s.clients[id].kind)
    requires IsKeyframe(s.phase.packet) && Contents(s.cache) != []
    requires Apply(s, e).clients[id].stage == Listed
    ensures var c, stream := s.clients[id], Apply(s, e).clients[id].stream;
      && (EndsLed(stream, Contents(s.cache), Media(s.phase.packet))
          <==> (c.since <= |Past(s)| || c.greeting == Contents(s.cache)))
      && (c.since <= |Past(s)| ==>
          EndsWith(stream, [Config(Contents(s.cache), SizeOf(s.phase.packet)), Media(s.phase.packet)]))
  {
    ServedStream(s, e, id);
    var c := s.clients[id];
    EndsInPair(Hello(c.greeting, c.size), Past(s), Config(Contents(s.cache), SizeOf(s.phase.packet)),
               Media(s.phase.packet), c.since);
    hide EndsWith, EndsLed, Invariant, Past, Enabled, Apply;
  }

  /** The client is or was in its list, or was turned away. */
  predicate Placed(c: Client) { c.stage == Listed || c.stage == Gone }

  /** Once listed, a client keeps its place until its stream ends, and streams only grow. */
  lemma StreamsGrow(s: State, e: Event, id: nat)
    requires Enabled(s, e) && id in s.clients
    ensures var s' := Apply(s, e);
      && id in s'.clients && s.clients[id].stream <= s'.clients[id].stream
      && s'.clients[id].kind == s.clients[id].kind
      && (Placed(s.clients[id]) ==> s'.clients[id].since == s.clients[id].since && Placed(s'.clients[id]))
  {
  }

  lemma PastAtBegin(s: State, e: Event)
    requires ToldRight(s) && Enabled(s, e) && e.Begin?
    ensures Past(Apply(s, e)) == s.toldRaw == s.toldBrowser
  {
    assert Front(Apply(s, e).history) == s.history;
    hide Story, CacheAfter, LatestAfter, CacheStep;
  }

  /** The client has its place in its list before the messages of the publish under way. */
  predicate PlacedBefore(s: State, id: nat, kind: Kind) {
    && !s.phase.Idle? && id in s.clients
    && s.clients[id].kind == kind && Placed(s.clients[id])
    && s.clients[id].since <= |Past(s)|
  }

  lemma PlacedAtBegin(s: State, e: Event, id: nat)
    requires Invariant(s) && Enabled(s, e) && e.Begin? && id in s.clients && s.clients[id].stage == Listed
    ensures PlacedBefore(Apply(s, e), id, s.clients[id].kind)
  {
    PastAtBegin(s, e);
    assert ClientRight(s.clients[id], Told(s, s.clients[id].kind));
    hide Past, ClientRight;
  }

  lemma PlaceKept(s: State, e: Event, id: nat, kind: Kind)
    requires Invariant(s) && Enabled(s, e) && PlacedBefore(s, id, kind) && !e.NoteLatest?
    ensures PlacedBefore(Apply(s, e), id, kind)
  {
    PastStays(s, e);
    StreamsGrow(s, e, id);
    hide Past, Invariant, Apply;
  }

  /** Every client listed when a publish begins has its place before that publish's messages until it ends. */
  lemma {:induction false} ListedBefore(states: seq<State>, events: seq<Event>, b: nat, m: nat, id: nat)
    requires Run(states, events) && b < m <= |events| && events[b].Begin?
    requires forall i | b < i < m :: !events[i].NoteLatest?
    requires id in states[b].clients && states[b].clients[id].stage == Listed
    ensures PlacedBefore(states[m], id, states[b].clients[id].kind)
  {
    hide Invariant, Apply, PlacedBefore, Init;
    InvariantHolds(states, events, m - 1);
    assert Enabled(states[m - 1], events[m - 1]) && states[m] == Apply(states[m - 1], events[m - 1]);
    if b + 1 == m {
      PlacedAtBegin(states[b], events[b], id);
    } else {
      ListedBefore(states, events, b, m - 1, id);
      assert !events[m - 1].NoteLatest?;
      PlaceKept(states[m - 1], events[m - 1], id, states[b].clients[id].kind);
    }
  }

  /** A keyframe that reaches a client listed when its publish began comes right after the cached config. */
  lemma KeyframeLed(states: seq<State>, events: seq<Event>, b: nat, m: nat, id: nat)
    requires Run(states, events) && b < m < |events| && events[b].Begin?
    requires forall i | b < i < m :: !events[i].NoteLatest?
    requires id in states[b].clients && states[b].clients[id].stage == Listed
    requires ServesMedia(events[m], states[b].clients[id].kind) && IsKeyframe(states[m].phase.packet)
    requires Contents(states[m].cache) != []
    ensures id in states[m + 1].clients
    ensures states[m + 1].clients[id].stage == Listed ==>
      var p := states[m].phase.packet;
      EndsWith(states[m + 1].clients[id].stream, [Config(Contents(states[m].cache), SizeOf(p)), Media(p)])
  {
    InvariantHolds(states, events, m);
    ListedBefore(states, events, b, m, id);
    StreamsGrow(states[m], events[m], id);
    if states[m + 1].clients[id].stage == Listed {
      ConfigPrecedesKeyframe(states[m], events[m], id);
    }
  }

  // ---------- from the packets themselves ----------

  /** In the low octet of the flags, bit 1 marks config and bit 0 a keyframe. */
  lemma FlagsAreBits(p: Packet, x: bv8)
    requires p.flags % 256 == x as int
    ensures IsConfig(p) <==> x & 2 != 0
    ensures IsKeyframe(p) <==> x & 1 != 0
  {
    TwoBits(x);
    LowOctet(p, x as int);
  }

  lemma LowOctet(p: Packet, v: nat)
    requires p.flags % 256 == v
    ensures IsConfig(p) <==> v % 4 >= 2
    ensures IsKeyframe(p) <==> v % 4 % 2 == 1
  {
    ConfigFlag(p);
    var k, t := 64 * (p.flags / 256) + v / 4, v % 4;
    assert p.flags == 4 * k + t;
    hide IsConfig;
    ByFour(k, t);
    if t < 2 { ByTwo(2 * k, t); } else { ByTwo(2 * k + 1, t - 2); }
  }

  lemma ByFour(k: nat, t: nat)
    requires t < 4
    ensures (4 * k + t) % 4 == t
  {
  }

  lemma ByTwo(k: nat, t: nat)
    requires t < 2
    ensures (2 * k + t) % 2 == t
  {
  }

  lemma TwoBits(x: bv8)
    ensures (x as int) % 4 >= 2 <==> x & 2 != 0
    ensures (x as int) % 4 % 2 == 1 <==> x & 1 != 0
  {
    assert (x as int) % 4 == (x & 3) as int;
    LastTwo(x & 3);
  }

  lemma LastTwo(y: bv8)
    requires y < 4
    ensures y as int >= 2 <==> y & 2 != 0
    ensures (y as int) % 2 == 1 <==> y & 1 != 0
  {
  }

  lemma ConfigFlag(p: Packet)
    ensures IsConfig(p) <==> p.flags % 4 >= 2
  {
  }

  /** The data of the packets with the config flag, in order. */
  function ConfigData(h: seq<Published>): (d: seq<Arrival>) {
    if h == [] then []
    else
      var e := Last(h);
      ConfigData(Front(h)) + if e.packet.flags % 4 >= 2 then [Arrival(e.packet.data, e.allocates)] else []
  }

  /** The cache is what these make of an empty one. */
  lemma {:induction false} CacheIsConfigs(h: seq<Published>)
    ensures CacheAfter(h) == After(EMPTY, ConfigData(h))
  {
    if h != [] {
      var e := Last(h);
      CacheIsConfigs(Front(h));
      ConfigFlag(e.packet);
      assert CacheAfter(h) == CacheStep(CacheAfter(Front(h)), e);
      ConfigDataGrows(h);
      hide Step, CacheAfter, ConfigData, IsConfig;
      OneMoreArrival(ConfigData(Front(h)), Arrival(e.packet.data, e.allocates));
    }
  }

  lemma ConfigDataGrows(h: seq<Published>)
    requires h != []
    ensures var e := Last(h);
      ConfigData(h)
      == ConfigData(Front(h)) + if e.packet.flags % 4 >= 2 then [Arrival(e.packet.data, e.allocates)] else []
    ensures Last(h).packet.flags % 4 < 2 ==> ConfigData(h) == ConfigData(Front(h))
  {
  }

  lemma OneMoreArrival(d: seq<Arrival>, a: Arrival)
    ensures After(EMPTY, d + [a]) == Step(After(EMPTY, d), a.data, a.allocates)
    ensures Packets(d + [a]) == Packets(d) + if a.data == [] then [] else [a.data]
  {
    assert Front(d + [a]) == d;
    hide Step;
  }

  /** It holds a contiguous run of the newest config data, and nothing else. */
  lemma CacheHoldsConfigs(h: seq<Published>) returns (k: nat)
    ensures EndOf(CacheAfter(h).run, Packets(ConfigData(h)), k)
    ensures forall d | d in CacheAfter(h).run :: FromConfig(h, d)
    ensures (forall i | 0 <= i < |h| :: h[i].packet.flags % 4 < 2) ==> Contents(CacheAfter(h)) == []
  {
    CacheIsConfigs(h);
    k := CacheHoldsRecentRun(ConfigData(h));
    DataOfConfigs(h);
    hide CacheAfter, After, ConfigData, Packets;
    var run, ps := CacheAfter(h).run, Packets(ConfigData(h));
    assert forall d | d in run :: d in ps;
    if run != [] { assert run[0] in run; }
  }

  lemma {:induction false} DataOfConfigs(h: seq<Published>)
    ensures forall d | d in Packets(ConfigData(h)) :: FromConfig(h, d)
  {
    hide FromConfig;
    if h == [] {
      NoArrivals();
    } else {
      var before, e := Front(h), Last(h);
      DataOfConfigs(before);
      ConfigDataGrows(h);
      OneMoreArrival(ConfigData(before), Arrival(e.packet.data, e.allocates));
      hide ConfigData, Packets;
      forall d | d in Packets(ConfigData(h))
        ensures FromConfig(h, d)
      {
        if d in Packets(ConfigData(before)) { FromEarlier(h, d); } else { FromLast(h); }
      }
    }
  }

  lemma NoArrivals()
    ensures Packets(ConfigData([])) == []
  {
  }

  /** The data of a packet with the config flag. */
  ghost predicate FromConfig(h: seq<Published>, d: seq<byte>) {
    exists i | 0 <= i < |h| :: h[i].packet.flags % 4 >= 2 && h[i].packet.data == d
  }

  lemma FromEarlier(h: seq<Published>, d: seq<byte>)
    requires h != [] && FromConfig(Front(h), d)
    ensures FromConfig(h, d)
  {
    var i :| 0 <= i < |Front(h)| && Front(h)[i].packet.flags % 4 >= 2 && Front(h)[i].packet.data == d;
    assert h[i] == Front(h)[i];
  }

  lemma FromLast(h: seq<Published>)
    requires h != [] && Last(h).packet.flags % 4 >= 2
    ensures FromConfig(h, Last(h).packet.data)
  {
    assert h[|h| - 1] == Last(h);
  }

  /** The config bytes in force after the packets `h`. */
  function ConfigBytes(h: seq<Published>): (b: seq<byte>) { Contents(After(EMPTY, ConfigData(h))) }

  /**
   * Over every run: a keyframe that reaches a client listed when its publish began comes right
   * after the whole current config, if there is one, announced with the keyframe's frame size.
   */
  lemma KeyframeTheorem(states: seq<State>, events: seq<Event>, b: nat, m: nat, id: nat)
    requires Run(states, events) && b < m < |events| && events[b].Begin?
    requires forall i | b < i < m :: !events[i].NoteLatest?
    requires id in states[b].clients && states[b].clients[id].stage == Listed
    requires ServesMedia(events[m], states[b].clients[id].kind) && states[m].phase.packet.flags % 2 == 1
    requires ConfigBytes(states[m].history) != []
    ensures id in states[m + 1].clients
    ensures states[m + 1].clients[id].stage == Listed ==>
      var p := states[m].phase.packet;
      EndsWith(states[m + 1].clients[id].stream,
               [Config(ConfigBytes(states[m].history), Size(p.width, p.height)), Media(p)])
  {
    InvariantHolds(states, events, m);
    CacheIsConfigs(states[m].history);
    hide CacheAfter, ConfigData, After, Contents, Invariant, EndsWith;
    CacheAt(states[m]);
    KeyframeLed(states, events, b, m, id);
  }

  lemma CacheAt(s: State)
    requires Invariant(s)
    ensures s.cache == CacheAfter(s.history)
  {
  }

  /** The config that goes out with a keyframe includes the packet's own config bytes. */
  lemma OwnConfigIncluded(s: State)
    requires ToldRight(s) && !s.phase.Idle? && s.phase.packet.flags % 4 >= 2 && s.phase.packet.data != []
    requires s.history[|s.history| - 1].allocates
    ensures EndsWith(Contents(s.cache), s.phase.packet.data)
  {
    ConfigFlag(s.phase.packet);
    var c, data := CacheAfter(Front(s.history)), s.phase.packet.data;
    var run := Kept(c, data);
    assert s.cache == Step(c, data, true) by { hide Step, Story; }
    hide CacheAfter, Kept, Grow, IsConfig, ToldRight;
    assert s.cache.run == run + [data];
    ConcatSnoc(run, data);
  }

  /** The messages of the publishes from number `n` on. */
  function StoryFrom(n: nat, h: seq<Published>): (ms: seq<Message>)
    requires n <= |h|
  {
    if |h| == n then []
    else StoryFrom(n, Front(h)) + Chapter(CacheAfter(h), Last(h).packet)
  }

  /** All that is said about the last packet of `h`, by its own flags, size and data. */
  function Announced(h: seq<Published>): (ms: seq<Message>)
    requires h != []
  {
    var p, config := Last(h).packet, ConfigBytes(h);
    (if p.flags % 2 == 1 && config != [] then [Config(config, Size(p.width, p.height))] else []) + [Media(p)]
  }

  function AnnouncedFrom(n: nat, h: seq<Published>): (ms: seq<Message>)
    requires n <= |h|
  {
    if |h| == n then [] else AnnouncedFrom(n, Front(h)) + Announced(h)
  }

  /** The frame size a browser is greeted with after the packets `h`. */
  function GreetingSize(h: seq<Published>): (s: Size) {
    if h != [] && Last(h).packet.width > 0 && Last(h).packet.height > 0
    then Size(Last(h).packet.width, Last(h).packet.height) else Size(720, 1568)
  }

  lemma {:induction false} StoryIsAnnounced(n: nat, h: seq<Published>)
    requires n <= |h|
    ensures StoryFrom(n, h) == AnnouncedFrom(n, h)
  {
    if n < |h| {
      StoryIsAnnounced(n, Front(h));
      CacheIsConfigs(h);
      hide CacheAfter, ConfigData, After, Contents;
      assert Chapter(CacheAfter(h), Last(h).packet) == Announced(h);
    }
  }

  lemma {:induction false} StorySplits(n: nat, h: seq<Published>)
    requires n <= |h|
    ensures Story(h) == Story(h[..n]) + StoryFrom(n, h)
  {
    if |h| == n {
      assert h[..n] == h;
    } else {
      StorySplits(n, Front(h));
      assert Front(h)[..n] == h[..n];
      Regroup(Story(h[..n]), StoryFrom(n, Front(h)), Chapter(CacheAfter(h), Last(h).packet));
      hide Lead, CacheAfter, Chapter;
    }
  }

  /** A client that joined between two publishes has received its greeting and the story since. */
  lemma QuietStream(states: seq<State>, events: seq<Event>, i: nat, id: nat)
    requires Run(states, events) && i < |states| && states[i].phase.Idle?
    requires id in states[i].clients && states[i].clients[id].stage == Listed && states[i].clients[id].quiet
    ensures var s := states[i]; var c := s.clients[id];
      && c.at <= |s.history|
      && c.stream == Hello(Contents(CacheAfter(s.history[..c.at])), c.size) + StoryFrom(c.at, s.history)
      && (c.kind == Browser ==> c.size == Shown(LatestAfter(s.history[..c.at])))
  {
    InvariantHolds(states, events, i);
    var s := states[i];
    var c := s.clients[id];
    assert ClientRight(c, Told(s, c.kind)) && QuietRight(c, s.history);
    StorySplits(c.at, s.history);
    hide Story, CacheAfter, StoryFrom, ClientsRight, QuietRight, Contents, Hello;
    assert Told(s, c.kind) == Story(s.history) by { assert Story(s.history) + [] == Story(s.history); }
    hide Told, ToldRight, Past, UnderWay;
    assert Story(s.history)[c.since..] == StoryFrom(c.at, s.history);
  }

  /** A greeting with the config bytes there are after `h`. */
  function Greeting(h: seq<Published>, size: Size): (ms: seq<Message>) {
    if ConfigBytes(h) == [] then [] else [Config(ConfigBytes(h), size)]
  }

  /**
   * A client that joined between two publishes has received, whenever no publish is under way, the
   * config of that moment and then every packet since, keyframes led by the config of their time.
   */
  lemma QuietStreamIsFold(states: seq<State>, events: seq<Event>, i: nat, id: nat)
    requires Run(states, events) && i < |states| && states[i].phase.Idle?
    requires id in states[i].clients && states[i].clients[id].stage == Listed && states[i].clients[id].quiet
    ensures var h, c := states[i].history, states[i].clients[id];
      && c.at <= |h| && c.stream == Greeting(h[..c.at], c.size) + AnnouncedFrom(c.at, h)
      && (c.kind == Browser ==> c.size == GreetingSize(h[..c.at]))
  {
    QuietStream(states, events, i, id);
    var h, at := states[i].history, states[i].clients[id].at;
    CacheIsConfigs(h[..at]);
    StoryIsAnnounced(at, h);
    hide CacheAfter, ConfigData, After, Contents, StoryFrom, AnnouncedFrom, Run;
  }

  // ---------- which joins are quiet ----------

  /** From its arrival on, with no publish in between, nothing changes for a client that waits. */
  lemma {:induction false} WaitsUnchanged(states: seq<State>, events: seq<Event>, a: nat, j: nat, id: nat)
    requires Run(states, events) && a < j < |states| && states[a].phase.Idle? && id in states[a + 1].clients
    requires events[a].Arrive? || events[a].Greet?
    requires forall k | a < k < j :: !IsPublish(events[k])
    ensures states[j].phase.Idle? && states[j].history == states[a].history && states[j].cache == states[a].cache
    ensures states[j].latest == states[a].latest && id in states[j].clients
    ensures states[j].clients[id] == states[a + 1].clients[id]
            || states[j].clients[id].stage != states[a + 1].clients[id].stage
    ensures StageOf(states[a + 1].clients[id]) <= StageOf(states[j].clients[id])
  {
    if a + 1 < j {
      WaitsUnchanged(states, events, a, j - 1, id);
      assert !IsPublish(events[j - 1]);
      StagesAdvance(states[j - 1], events[j - 1], id);
    }
    hide Contents, Told, Hello;
  }

  /** Stages in their order. */
  function StageOf(c: Client): (n: nat) {
    match c.stage case Arrived => 0 case Greeted => 1 case Listed => 2 case Gone => 3
  }

  lemma StagesAdvance(s: State, e: Event, id: nat)
    requires Enabled(s, e) && id in s.clients && !IsPublish(e)
    ensures id in Apply(s, e).clients && StageOf(s.clients[id]) <= StageOf(Apply(s, e).clients[id])
    ensures Apply(s, e).clients[id] == s.clients[id]
            || StageOf(s.clients[id]) < StageOf(Apply(s, e).clients[id])
  {
    hide Contents, Told, Hello;
  }

  /**
   * A join at times `a` < `g` < `e`: arrival, greeting, listing. It is quiet if no publish is under
   * way at the first of its steps that reads what publishing changes (a browser reads the size on
   * arrival, a raw client nothing before the greeting) and none begins before the listing.
   */
  ghost predicate QuietJoin(states: seq<State>, events: seq<Event>, id: nat, kind: Kind, a: nat, g: nat, e: nat) {
    var first := if kind == Raw then g else a;
    && a < g < e < |events| && |states| == |events| + 1 && states[first].phase.Idle?
    && events[a] == Arrive(id, kind) && events[g] == Greet(id, true) && events[e] == Enlist(id)
    && forall k | first < k < e :: !IsPublish(events[k])
  }

  lemma {:induction false} KindKept(states: seq<State>, events: seq<Event>, a: nat, j: nat, id: nat, kind: Kind)
    requires Run(states, events) && a < j < |states| && events[a] == Arrive(id, kind)
    ensures id in states[j].clients && states[j].clients[id].kind == kind
  {
    if a + 1 < j {
      hide Init, Apply, Enabled;
      KindKept(states, events, a, j - 1, id, kind);
      assert Enabled(states[j - 1], events[j - 1]) && states[j] == Apply(states[j - 1], events[j - 1]);
      StreamsGrow(states[j - 1], events[j - 1], id);
    } else {
      JustArrived(states[a], events[a], id, kind);
    }
  }

  lemma JustArrived(s: State, e: Event, id: nat, kind: Kind)
    requires Enabled(s, e) && e == Arrive(id, kind)
    ensures id in Apply(s, e).clients && Apply(s, e).clients[id].kind == kind
  {
    hide Shown;
  }

  /** A greeting between publishes: to a raw client, or to a browser that has waited since its arrival. */
  lemma QuietGreeting(states: seq<State>, events: seq<Event>, id: nat, kind: Kind, a: nat, g: nat, e: nat)
    requires Run(states, events) && QuietJoin(states, events, id, kind, a, g, e)
    ensures states[g].phase.Idle? && id in states[g + 1].clients
    ensures var c := states[g + 1].clients[id];
      c.quiet && c.stage == Greeted && c.kind == kind && c.at == |states[g].history|
  {
    hide Contents, Told, Hello;
    KindKept(states, events, a, g, id, kind);
    if kind == Browser { WaitsUnchanged(states, events, a, g, id); }
    assert Enabled(states[g], events[g]) && states[g + 1] == Apply(states[g], events[g]);
  }

  /** Such a join makes a quiet client, listed after the packets published by then. */
  lemma QuietJoinIsQuiet(states: seq<State>, events: seq<Event>, id: nat, kind: Kind, a: nat, g: nat, e: nat)
    requires Run(states, events) && QuietJoin(states, events, id, kind, a, g, e)
    ensures id in states[e + 1].clients
    ensures var c := states[e + 1].clients[id];
      c.quiet && c.stage == Listed && c.kind == kind && c.at == |states[g].history|
  {
    hide Contents, Told, Hello;
    QuietGreeting(states, events, id, kind, a, g, e);
    WaitsUnchanged(states, events, g, e, id);
    assert Enabled(states[e], events[e]) && states[e + 1] == Apply(states[e], events[e]);
  }

  lemma SameAsItself(c: Client)
    ensures SameJoin(c, c)
  {
  }

  lemma SameThen(a: Client, b: Client, c: Client)
    requires SameJoin(a, b) && SameJoin(b, c)
    ensures SameJoin(a, c)
  {
  }

  lemma StepAt(states: seq<State>, events: seq<Event>, k: nat)
    requires Run(states, events) && k < |events|
    ensures Enabled(states[k], events[k]) && states[k + 1] == Apply(states[k], events[k])
  {
    hide Apply, Enabled, Init;
  }

  predicate SameJoin(c: Client, d: Client) {
    d.quiet == c.quiet && d.at == c.at && d.size == c.size && d.kind == c.kind && d.greeting == c.greeting
  }

  /** Once listed, a client keeps what it was greeted with. */
  lemma {:induction false} PlacedKeeps(states: seq<State>, events: seq<Event>, i: nat, j: nat, id: nat)
    requires Run(states, events) && i <= j < |states| && id in states[i].clients && Placed(states[i].clients[id])
    ensures id in states[j].clients && Placed(states[j].clients[id])
    ensures SameJoin(states[i].clients[id], states[j].clients[id])
    decreases j
  {
    hide Init, Apply, Enabled, Placed, SameJoin;
    if i == j {
      SameAsItself(states[i].clients[id]);
    } else {
      StepAt(states, events, j - 1);
      PlacedKeeps(states, events, i, j - 1, id);
      PlacedStep(states[j - 1], events[j - 1], id);
      SameThen(states[i].clients[id], states[j - 1].clients[id], states[j].clients[id]);
    }
  }

  lemma PlacedStep(s: State, e: Event, id: nat)
    requires Enabled(s, e) && id in s.clients && Placed(s.clients[id])
    ensures id in Apply(s, e).clients && Placed(Apply(s, e).clients[id])
    ensures SameJoin(s.clients[id], Apply(s, e).clients[id])
  {
    hide Contents;
  }

  /**
   * A client whose greeting and listing, and as a browser also its arrival, fall between two
   * publishes has received, whenever no publish is under way and it is still listed, the config (and
   * a browser the size) of that moment and then every packet since.
   */
  lemma QuietJoinIsFold(states: seq<State>, events: seq<Event>, id: nat, kind: Kind, a: nat, g: nat, e: nat, i: nat)
    requires Run(states, events) && QuietJoin(states, events, id, kind, a, g, e)
    requires e < i < |states| && states[i].phase.Idle?
    requires id in states[i].clients && states[i].clients[id].stage == Listed
    ensures var h, c, at := states[i].history, states[i].clients[id], |states[g].history|;
      && at <= |h| && c.kind == kind
      && (kind == Browser ==> c.size == GreetingSize(h[..at]))
      && c.stream == Greeting(h[..at], c.size) + AnnouncedFrom(at, h)
  {
    QuietJoinIsQuiet(states, events, id, kind, a, g, e);
    PlacedKeeps(states, events, e + 1, i, id);
    QuietStreamIsFold(states, events, i, id);
  }

  // ---------- a client that slips in during a publish ----------

  /** A keyframe that carries its own config. */
  const FRAME := Packet(2, 2, 3, 0, [0, 0, 0, 1, 7])

  /** A raw client is greeted before the publish and listed after the raw list was told the config. */
  const MIDWAY: seq<Event> :=
    [Arrive(0, Raw), Greet(0, true), Begin(FRAME, true), ConfigToRaw({}), Enlist(0), CopyConfig, ConfigToBrowsers({}),
     MediaToRaw({})]

  lemma FrameCached()
    ensures Contents(CacheStep(EMPTY, Published(FRAME, true))) == FRAME.data
  {
    assert Contents(EMPTY) == [];
    ConcatSnoc([], FRAME.data);
    assert [] + FRAME.data == FRAME.data && [] + [FRAME.data] == [FRAME.data];
    hide Concat, Contents;
  }

  /** The client when the publish begins, and when it is listed. */
  const GREETED := Client(Raw, Greeted, Size(720, 1568), [], 0, 0, true, [])
  const LISTED := Client(Raw, Listed, Size(720, 1568), [], 1, 0, false, [])

  lemma StepsJoin(first: seq<State>, later: seq<State>, events: seq<Event>, k: nat)
    requires k <= |events| && Steps(first, events[..k]) && Steps(later, events[k..])
    requires first[k] == later[0]
    ensures Steps(first + later[1..], events)
  {
    hide Enabled, Apply;
    var all := first + later[1..];
    forall i | 0 <= i < |events| ensures Enabled(all[i], events[i]) && all[i + 1] == Apply(all[i], events[i]) {
      if i < k {
        assert events[..k][i] == events[i];
      } else {
        assert events[k..][i - k] == events[i] && all[i] == later[i - k];
      }
    }
  }

  lemma DeliverToOne(c: Client, kind: Kind, m: Message)
    ensures Deliver(map[0 := c], kind, m, {}) == map[0 := Handed(c, kind, m, false)]
  {
  }

  lemma UntilListed() returns (states: seq<State>)
    ensures Steps(states, MIDWAY[..5]) && Init(states[0])
    ensures var s := states[5];
      s.clients == map[0 := LISTED] && s.phase == RawConfigured(FRAME) && Contents(s.cache) == FRAME.data
  {
    var s0 := State(EMPTY, Idle, map[], [], [], [], Size(0, 0));
    var s1 := Apply(s0, Arrive(0, Raw));
    assert Contents(EMPTY) == [];
    var s2 := Apply(s1, Greet(0, true));
    assert s2.clients[0] == GREETED;
    FrameCached();
    hide Contents, Concat, CacheStep, Deliver;
    var s3 := Apply(s2, Begin(FRAME, true));
    DeliverToOne(GREETED, Raw, Config(FRAME.data, SizeOf(FRAME)));
    var s4 := Apply(s3, ConfigToRaw({}));
    assert s4.clients == map[0 := GREETED];
    states := [s0, s1, s2, s3, s4, Apply(s4, Enlist(0))];
  }

  lemma UntilServed(s: State) returns (states: seq<State>)
    requires s.clients == map[0 := LISTED] && s.phase == RawConfigured(FRAME) && Contents(s.cache) == FRAME.data
    ensures Steps(states, MIDWAY[5..]) && states[0] == s
    ensures states[3].cache == s.cache
    ensures states[3].clients == map[0 := LISTED.(stream := [Media(FRAME)])]
  {
    hide Contents, CacheStep, Deliver, Shown;
    var s1 := Apply(s, CopyConfig);
    DeliverToOne(LISTED, Browser, Config(FRAME.data, SizeOf(FRAME)));
    var s2 := Apply(s1, ConfigToBrowsers({}));
    DeliverToOne(LISTED, Raw, Media(FRAME));
    assert s2.clients == map[0 := LISTED] && LISTED.stream + [Media(FRAME)] == [Media(FRAME)];
    assert MIDWAY[5..] == [CopyConfig, ConfigToBrowsers({}), MediaToRaw({})];
    states := [s, s1, s2, Apply(s2, MediaToRaw({}))];
  }

  /** That client gets the keyframe as its first message, with no config before it. */
  lemma KeyframeWithoutConfig() returns (states: seq<State>)
    ensures Run(states, MIDWAY)
    ensures var s := states[8];
      && Contents(s.cache) == FRAME.data && 0 in s.clients && s.clients[0].stage == Listed
      && s.clients[0].stream == [Media(FRAME)]
      && !EndsLed(s.clients[0].stream, Contents(s.cache), Media(FRAME))
  {
    hide Contents, Apply, Enabled, Init;
    var first := UntilListed();
    var later := UntilServed(first[5]);
    StepsJoin(first, later, MIDWAY, 5);
    states := first + later[1..];
    assert states[0] == first[0] && states[8] == later[1..][2] == later[3];
  }
}
