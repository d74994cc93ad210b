/**
 * The mutexes of aoa_h264server.c and of rk_aoa_bridge.c. Every call is the sequence of lock
 * operations it performs; threads make calls one after another and interleave at single operations.
 * A gesture of the bridge is one call for each of its reports, one of the server a single call.
 */
module LockOrder {
  datatype Mutex = AoaHandle | RawClients | Config | BrowserClients | VideoState | Hid | AoaSend | BulkOut

  datatype Op = Lock(m: Mutex) | Unlock(m: Mutex) | Work

  /** The fixed order; mutexes that never nest may share a rank with others. */
  function Rank(m: Mutex): (r: nat)
    ensures r < 2
  {
    match m
    case RawClients => 0
    case Hid => 0
    case _ => 1
  }

  // ---------- what the calls do ----------

  function Under(m: Mutex, body: seq<Op>): (p: seq<Op>) { [Lock(m)] + body + [Unlock(m)] }

  /** aoa_ctrl_out: one control transfer at a time. */
  function Transfers(n: nat): (p: seq<Op>) {
    if n == 0 then [] else Under(AoaSend, [Work]) + Transfers(n - 1)
  }

  datatype Call =
    | OpenDevice(transfers: nat, registered: bool)
    | CloseDevice
    | Gesture(reports: nat)
    | SendAppJson
    | Publish(isConfig: bool, isKeyframe: bool, payloadBuilt: bool, printed: bool)
    | JoinRaw(listed: bool)
    | LeaveRaw
    | JoinBrowser(listed: bool)
    | Status
    | Shutdown

  /** The lock operations of a call, one program for every branch it can take. */
  function Program(c: Call): (p: seq<Op>) {
    match c
    case OpenDevice(n, registered) =>
      Under(AoaHandle, [Work]) + Transfers(n) + (if registered then Under(Hid, [Work]) else [])
    case CloseDevice => Under(Hid, [Work]) + Transfers(1) + Under(AoaHandle, [Work])
    case Gesture(n) => Under(Hid, Transfers(n))
    case SendAppJson => Under(BulkOut, [Work])
    case Publish(isConfig, isKeyframe, payloadBuilt, printed) =>
      (if isConfig then Under(Config, [Work]) else [])
      + (if isKeyframe then Under(RawClients, Under(Config, [Work])) + Under(Config, [Work]) else [])
      + (if isKeyframe && payloadBuilt then Under(BrowserClients, [Work]) else [])
      + Under(RawClients, [Work]) + Under(BrowserClients, [Work]) + Under(VideoState, [Work])
      + (if printed then Under(VideoState, [Work]) + Under(RawClients, [Work]) else [])
    case JoinRaw(listed) => Under(Config, [Work]) + (if listed then Under(RawClients, [Work]) else [])
    case LeaveRaw => Under(RawClients, [Work])
    case JoinBrowser(listed) =>
      Under(VideoState, [Work]) + Under(Config, [Work]) + (if listed then Under(BrowserClients, [Work]) else [])
    case Status => Under(VideoState, [Work]) + Under(RawClients, [Work]) + Under(BrowserClients, [Work])
    case Shutdown => Under(BrowserClients, [Work]) + Under(RawClients, [Work])
  }

  // ---------- the discipline ----------

  predicate Above(m: Mutex, held: set<Mutex>) {
    forall h | h in held :: Rank(h) < Rank(m)
  }

  /** Locks are taken upwards, only held ones are released, and `after` is held at the end. */
  predicate Ranked(p: seq<Op>, held: set<Mutex>, after: set<Mutex>)
    decreases |p|
  {
    if p == [] then held == after
    else
      match p[0]
      case Lock(m) => Above(m, held) && Ranked(p[1..], held + {m}, after)
      case Unlock(m) => m in held && Ranked(p[1..], held - {m}, after)
      case Work => Ranked(p[1..], held, after)
  }

  lemma {:induction false} RankedThen(p: seq<Op>, q: seq<Op>, held: set<Mutex>, middle: set<Mutex>, after: set<Mutex>)
    requires Ranked(p, held, middle) && Ranked(q, middle, after)
    ensures Ranked(p + q, held, after)
    decreases |p|
  {
    if p == [] {
      assert p + q == q;
    } else {
      assert (p + q)[0] == p[0] && (p + q)[1..] == p[1..] + q;
      var next := match p[0] case Lock(m) => held + {m} case Unlock(m) => held - {m} case Work => held;
      RankedThen(p[1..], q, next, middle, after);
    }
  }

  lemma RankedUnder(m: Mutex, body: seq<Op>, held: set<Mutex>)
    requires Above(m, held) && Ranked(body, held + {m}, held + {m})
    ensures Ranked(Under(m, body), held, held)
  {
    var inner := held + {m};
    assert m !in held;
    assert inner - {m} == held;
    assert [Unlock(m)][1..] == [] && Ranked([], inner - {m}, held);
    assert Ranked([Unlock(m)], inner, held);
    RankedThen(body, [Unlock(m)], inner, inner, held);
    assert Under(m, body)[1..] == body + [Unlock(m)];
  }

  lemma RankedWork(m: Mutex, held: set<Mutex>)
    requires Above(m, held)
    ensures Ranked(Under(m, [Work]), held, held)
  {
    assert [Work][1..] == [] && Ranked([], held + {m}, held + {m});
    RankedUnder(m, [Work], held);
  }

  lemma {:induction false} RankedTransfers(n: nat, held: set<Mutex>)
    requires Above(AoaSend, held)
    ensures Ranked(Transfers(n), held, held)
  {
    if n > 0 {
      RankedWork(AoaSend, held);
      RankedTransfers(n - 1, held);
      RankedThen(Under(AoaSend, [Work]), Transfers(n - 1), held, held, held);
    }
  }

  lemma RankedBoth(p: seq<Op>, q: seq<Op>)
    requires Ranked(p, {}, {}) && Ranked(q, {}, {})
    ensures Ranked(p + q, {}, {})
  {
    RankedThen(p, q, {}, {}, {});
  }

  /** The parts that calls are put together from. */
  lemma RankedParts()
    ensures Ranked([], {}, {})
    ensures forall m: Mutex :: Ranked(Under(m, [Work]), {}, {})
    ensures forall n: nat :: Ranked(Transfers(n), {}, {}) && Ranked(Under(Hid, Transfers(n)), {}, {})
    ensures Ranked(Under(RawClients, Under(Config, [Work])), {}, {})
  {
    forall m: Mutex ensures Ranked(Under(m, [Work]), {}, {}) { RankedWork(m, {}); }
    forall n: nat ensures Ranked(Transfers(n), {}, {}) && Ranked(Under(Hid, Transfers(n)), {}, {}) {
      RankedTransfers(n, {});
      RankedTransfers(n, {Hid});
      assert {} + {Hid} == {Hid};
      RankedUnder(Hid, Transfers(n), {});
    }
    RankedWork(Config, {RawClients});
    assert {} + {RawClients} == {RawClients};
    RankedUnder(RawClients, Under(Config, [Work]), {});
  }

  lemma PublishIsRanked(isConfig: bool, isKeyframe: bool, payloadBuilt: bool, printed: bool)
    ensures Ranked(Program(Publish(isConfig, isKeyframe, payloadBuilt, printed)), {}, {})
  {
    RankedParts();
    hide Ranked, Under;
    var p1 := if isConfig then Under(Config, [Work]) else [];
    var p2 := if isKeyframe then Under(RawClients, Under(Config, [Work])) + Under(Config, [Work]) else [];
    var p3 := if isKeyframe && payloadBuilt then Under(BrowserClients, [Work]) else [];
    var p4 := if printed then Under(VideoState, [Work]) + Under(RawClients, [Work]) else [];
    RankedBoth(Under(RawClients, Under(Config, [Work])), Under(Config, [Work]));
    RankedBoth(Under(VideoState, [Work]), Under(RawClients, [Work]));
    RankedBoth(p1, p2);
    RankedBoth(p1 + p2, p3);
    RankedBoth(p1 + p2 + p3, Under(RawClients, [Work]));
    RankedBoth(p1 + p2 + p3 + Under(RawClients, [Work]), Under(BrowserClients, [Work]));
    var p5 := p1 + p2 + p3 + Under(RawClients, [Work]) + Under(BrowserClients, [Work]);
    RankedBoth(p5, Under(VideoState, [Work]));
    RankedBoth(p5 + Under(VideoState, [Work]), p4);
  }

  lemma DeviceCallsAreRanked(n: nat, registered: bool)
    ensures Ranked(Program(OpenDevice(n, registered)), {}, {}) && Ranked(Program(CloseDevice), {}, {})
  {
    RankedParts();
    hide Ranked, Under, Transfers;
    RankedBoth(Under(AoaHandle, [Work]), Transfers(n));
    RankedBoth(Under(AoaHandle, [Work]) + Transfers(n), if registered then Under(Hid, [Work]) else []);
    RankedBoth(Under(Hid, [Work]), Transfers(1));
    RankedBoth(Under(Hid, [Work]) + Transfers(1), Under(AoaHandle, [Work]));
  }

  lemma ClientCallsAreRanked(listed: bool)
    ensures Ranked(Program(JoinRaw(listed)), {}, {}) && Ranked(Program(JoinBrowser(listed)), {}, {})
    ensures Ranked(Program(LeaveRaw), {}, {}) && Ranked(Program(Status), {}, {}) && Ranked(Program(Shutdown), {}, {})
  {
    RankedParts();
    hide Ranked, Under;
    var raw, browsers, state, config :=
      Under(RawClients, [Work]), Under(BrowserClients, [Work]), Under(VideoState, [Work]), Under(Config, [Work]);
    RankedBoth(config, if listed then raw else []);
    RankedBoth(state, config);
    RankedBoth(state + config, if listed then browsers else []);
    RankedBoth(state, raw);
    RankedBoth(state + raw, browsers);
    RankedBoth(browsers, raw);
  }

  /** Every call of the source takes its locks in the order of their ranks and gives all of them back. */
  lemma ProgramsAreRanked(c: Call)
    ensures Ranked(Program(c), {}, {})
  {
    match c
    case OpenDevice(n, registered) => DeviceCallsAreRanked(n, registered);
    case CloseDevice => DeviceCallsAreRanked(0, false);
    case Gesture(_) => RankedParts();
    case SendAppJson => RankedParts();
    case Publish(isConfig, isKeyframe, payloadBuilt, printed) =>
      PublishIsRanked(isConfig, isKeyframe, payloadBuilt, printed);
    case JoinRaw(listed) => ClientCallsAreRanked(listed);
    case JoinBrowser(listed) => ClientCallsAreRanked(listed);
    case _ => ClientCallsAreRanked(false);
  }

  // ---------- threads ----------

  /** What is left of the call a thread is in, and the mutexes it holds. */
  datatype Thread = Thread(rest: seq<Op>, held: set<Mutex>)

  type State = seq<Thread>

  predicate Init(s: State) {
    forall t | 0 <= t < |s| :: s[t] == Thread([], {})
  }

  datatype Event = Begin(thread: nat, call: Call) | Do(thread: nat)

  predicate Free(s: State, m: Mutex) {
    forall t | 0 <= t < |s| :: m !in s[t].held
  }

  /** The thread is in a call and its next operation does not have to wait. */
  predicate CanStep(s: State, t: nat) {
    t < |s| && s[t].rest != [] && (s[t].rest[0].Lock? ==> Free(s, s[t].rest[0].m))
  }

  predicate Enabled(s: State, e: Event) {
    match e
    case Begin(t, _) => t < |s| && s[t].rest == []
    case Do(t) => CanStep(s, t)
  }

  function Step(th: Thread): (th': Thread)
    requires th.rest != []
  {
    match th.rest[0]
    case Lock(m) => Thread(th.rest[1..], th.held + {m})
    case Unlock(m) => Thread(th.rest[1..], th.held - {m})
    case Work => Thread(th.rest[1..], th.held)
  }

  function Apply(s: State, e: Event): (s': State)
    requires Enabled(s, e)
  {
    match e
    case Begin(t, call) => s[t := Thread(Program(call), s[t].held)]
    case Do(t) => s[t := Step(s[t])]
  }

  ghost predicate Run(states: seq<State>, events: seq<Event>) {
    && |states| == |events| + 1
    && Init(states[0])
    && forall i | 0 <= i < |events| :: Enabled(states[i], events[i]) && states[i + 1] == Apply(states[i], events[i])
  }

  predicate Disciplined(s: State) {
    forall t | 0 <= t < |s| :: Ranked(s[t].rest, s[t].held, {})
  }

  predicate Exclusive(s: State) {
    forall t, u | 0 <= t < u < |s| :: s[t].held !! s[u].held
  }

  lemma {:induction false} InvariantHolds(states: seq<State>, events: seq<Event>, i: nat)
    requires Run(states, events) && i < |states|
    ensures Disciplined(states[i]) && Exclusive(states[i])
  {
    if i > 0 {
      InvariantHolds(states, events, i - 1);
      EventKeeps(states[i - 1], events[i - 1]);
    }
  }

  lemma EventKeeps(s: State, e: Event)
    requires Disciplined(s) && Exclusive(s) && Enabled(s, e)
    ensures Disciplined(Apply(s, e)) && Exclusive(Apply(s, e))
  {
    if e.Begin? {
      ProgramsAreRanked(e.call);
      assert s[e.thread].held == {};
    }
    hide Program;
  }

  // ---------- no deadlock ----------

  predicate WaitsFor(s: State, t: nat, u: nat) {
    && t < |s| && u < |s|
    && s[t].rest != [] && s[t].rest[0].Lock? && s[t].rest[0].m in s[u].held
  }

  /** Each thread of the chain waits for a mutex that the next one holds; the last one can go on. */
  ghost predicate Chain(s: State, chain: seq<nat>) {
    && chain != []
    && (forall k | 0 <= k < |chain| - 1 :: WaitsFor(s, chain[k], chain[k + 1]))
    && CanStep(s, chain[|chain| - 1])
  }

  /** Following the holders from a thread in a call leads to one that can step. */
  lemma {:induction false} Unblocks(s: State, t: nat) returns (chain: seq<nat>)
    requires Disciplined(s) && Exclusive(s) && t < |s| && s[t].rest != []
    ensures Chain(s, chain) && chain[0] == t
    ensures |chain| <= if s[t].rest[0].Lock? then 3 - Rank(s[t].rest[0].m) else 1
    decreases if s[t].rest[0].Lock? then 2 - Rank(s[t].rest[0].m) else 0
  {
    if CanStep(s, t) { return [t]; }
    var m := s[t].rest[0].m;
    var u: nat :| u < |s| && m in s[u].held;
    assert s[u].rest != [];
    assert s[u].rest[0].Lock? ==> Rank(m) < Rank(s[u].rest[0].m);
    var tail := Unblocks(s, u);
    chain := [t] + tail;
  }

  /**
   * In every reachable state of any number of threads, whoever is in a call can go on, or waits,
   * directly or through one other thread, for a thread that can.
   */
  lemma NoDeadlock(states: seq<State>, events: seq<Event>, i: nat, t: nat) returns (chain: seq<nat>)
    requires Run(states, events) && i < |states| && t < |states[i]| && states[i][t].rest != []
    ensures Chain(states[i], chain) && chain[0] == t && |chain| <= 3
  {
    InvariantHolds(states, events, i);
    chain := Unblocks(states[i], t);
  }

  /** The operations still to be done by all calls under way. */
  function Left(s: State): (n: nat) {
    if s == [] then 0 else |s[0].rest| + Left(s[1..])
  }

  lemma {:induction false} LeftAfter(s: State, t: nat, th: Thread)
    requires t < |s|
    ensures Left(s[t := th]) == Left(s) - |s[t].rest| + |th.rest|
    ensures |s[t].rest| <= Left(s)
  {
    var s' := s[t := th];
    if t == 0 {
      assert s'[1..] == s[1..];
    } else {
      LeftAfter(s[1..], t - 1, th);
      assert s'[1..] == s[1..][t - 1 := th];
    }
  }

  lemma {:induction false} NoneLeft(s: State)
    ensures Left(s) == 0 <==> forall t | 0 <= t < |s| :: s[t].rest == []
  {
    if s != [] {
      NoneLeft(s[1..]);
      assert forall t | 0 < t < |s| :: s[t] == s[1..][t - 1];
    }
  }

  lemma {:induction false} CountsDown(states: seq<State>, events: seq<Event>, i: nat, j: nat)
    requires Run(states, events) && i <= j < |states|
    requires forall k | i <= k < j :: events[k].Do?
    ensures j - i + Left(states[j]) == Left(states[i])
    decreases j
  {
    if i < j {
      CountsDown(states, events, i, j - 1);
      OneDone(states[j - 1], events[j - 1]);
    }
  }

  lemma OneDone(s: State, e: Event)
    requires Enabled(s, e) && e.Do?
    ensures Left(Apply(s, e)) == Left(s) - 1
  {
    LeftAfter(s, e.thread, Step(s[e.thread]));
    hide Left;
  }

  lemma SomeoneCanGo(states: seq<State>, events: seq<Event>, j: nat)
    requires Run(states, events) && j < |states| && Left(states[j]) > 0
    ensures exists t: nat :: CanStep(states[j], t)
  {
    NoneLeft(states[j]);
    hide Left, Run, CanStep;
    var t: nat :| t < |states[j]| && states[j][t].rest != [];
    var chain := NoDeadlock(states, events, j, t);
    assert CanStep(states[j], chain[|chain| - 1]);
  }

  /**
   * While no new call begins, any order of steps ends after as many steps as there were operations
   * left, and until then some thread can step: every call completes.
   */
  lemma CallsComplete(states: seq<State>, events: seq<Event>, i: nat, j: nat)
    requires Run(states, events) && i <= j < |states|
    requires forall k | i <= k < j :: events[k].Do?
    ensures j - i + Left(states[j]) == Left(states[i])
    ensures j - i == Left(states[i]) <==> forall t | 0 <= t < |states[j]| :: states[j][t].rest == []
    ensures j - i < Left(states[i]) ==> exists t: nat :: CanStep(states[j], t)
  {
    CountsDown(states, events, i, j);
    NoneLeft(states[j]);
    hide Left, Run, CanStep;
    if Left(states[j]) > 0 { SomeoneCanGo(states, events, j); }
  }
}
