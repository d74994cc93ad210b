/**
 * hid_mutex between the thread that sets HID up and tears it down and any number of threads that
 * carry out gestures. A state machine over lock acquisitions and single control transfers.
 */
module HidProtocol {
  import opened Bytes
  import Touch

  /** A control transfer on the device, in the order the device sees them. */
  datatype Request =
    | RegisterHid(ok: bool)
    | SetReportDescriptor(ok: bool)
    | HidEvent(caller: nat, report: seq<byte>, ok: bool)
    | UnregisterHid

  /** The thread that owns the device: aoa_reader_thread, or main of the bridge. */
  datatype Owner = Starting | Open | Registered | Described | Serving | Crippled | Closing | Removed | Closed

  /** One call of a gesture function: the reports it would send, and the results of those it has sent. */
  datatype Block = Block(caller: nat, reports: seq<seq<byte>>, results: seq<bool>)

  datatype Worker = Idle | Waiting(reports: seq<seq<byte>>) | Inside(block: Block)

  datatype State = State(
    owner: Owner,
    handle: bool,             // aoa_handle is set
    ready: bool,              // hid_ready
    holder: Option<nat>,      // the worker that holds hid_mutex
    workers: map<nat, Worker>,
    log: seq<Request>,
    blocks: seq<Block>)       // the calls that are over, in the order they took the lock

  predicate Init(s: State) {
    s.owner == Starting && !s.handle && !s.ready && s.holder == None && s.log == [] && s.blocks == []
    && forall t | t in s.workers :: s.workers[t] == Idle
  }

  datatype Event =
    | SetHandle
    | SendRegister(ok: bool)
    | SendDescriptor(ok: bool)
    | SetReady
    | ClearReady
    | SendUnregister
    | ClearHandle
    | Call(worker: nat, reports: seq<seq<byte>>)
    | Enter(worker: nat)
    | SendReport(worker: nat, ok: bool)
    | Exit(worker: nat)

  /** A report fails or all are out: the function goes on to release the lock. */
  predicate Over(b: Block) {
    b.results != [] && (!b.results[|b.results| - 1] || |b.results| == |b.reports|)
  }

  predicate Enabled(s: State, e: Event) {
    match e
    case SetHandle => s.owner == Starting
    case SendRegister(_) => s.owner == Open
    case SendDescriptor(_) => s.owner == Registered
    case SetReady => s.owner == Described && s.holder == None
    case ClearReady => (s.owner == Serving || s.owner == Crippled) && s.holder == None
    case SendUnregister => s.owner == Closing
    case ClearHandle => s.owner == Removed
    case Call(t, reports) => t in s.workers && s.workers[t] == Idle && reports != []
    case Enter(t) => t in s.workers && s.workers[t].Waiting? && s.holder == None
    case SendReport(t, _) => t in s.workers && s.workers[t].Inside? && !Over(s.workers[t].block)
                             && |s.workers[t].block.results| < |s.workers[t].block.reports|
    case Exit(t) => t in s.workers && s.workers[t].Inside? && Over(s.workers[t].block)
  }

  function Apply(s: State, e: Event): (s': State)
    requires Enabled(s, e)
  {
    match e
    case SetHandle => s.(handle := true, owner := Open)
    case SendRegister(ok) => s.(log := s.log + [RegisterHid(ok)], owner := if ok then Registered else Crippled)
    case SendDescriptor(ok) => s.(log := s.log + [SetReportDescriptor(ok)], owner := if ok then Described else Crippled)
    case SetReady => s.(ready := true, owner := Serving)
    case ClearReady => s.(ready := false, owner := Closing)
    case SendUnregister => s.(log := s.log + [UnregisterHid], owner := Removed)
    case ClearHandle => s.(handle := false, owner := Closed)
    case Call(t, reports) => s.(workers := s.workers[t := Waiting(reports)])
    case Enter(t) =>
      if s.handle && s.ready then
        s.(holder := Some(t), workers := s.workers[t := Inside(Block(t, s.workers[t].reports, []))])
      else s.(workers := s.workers[t := Idle])
    case SendReport(t, ok) =>
      var b := s.workers[t].block;
      s.(log := s.log + [HidEvent(t, b.reports[|b.results|], ok)],
         workers := s.workers[t := Inside(b.(results := b.results + [ok]))])
    case Exit(t) =>
      s.(holder := None, workers := s.workers[t := Idle], blocks := s.blocks + [s.workers[t].block])
  }

  ghost predicate Run(states: seq<State>, events: seq<Event>) {
    && |states| == |events| + 1
    && Init(states[0])
    && forall i | 0 <= i < |events| :: Enabled(states[i], events[i]) && states[i + 1] == Apply(states[i], events[i])
  }

  // ---------- the invariant ----------

  /** What a call has put on the wire. */
  function Lines(b: Block): (ls: seq<Request>)
    requires |b.results| <= |b.reports|
    ensures |ls| == |b.results|
  {
    seq(|b.results|, i requires 0 <= i < |b.results| => HidEvent(b.caller, b.reports[i], b.results[i]))
  }

  /** Reports go out in order and only the last may have failed. */
  predicate Proper(b: Block) {
    && |b.results| <= |b.reports|
    && forall i | 0 <= i < |b.results| - 1 :: b.results[i]
  }

  predicate AllProper(blocks: seq<Block>) {
    forall i | 0 <= i < |blocks| :: Proper(blocks[i]) && Over(blocks[i])
  }

  function AllLines(blocks: seq<Block>): (ls: seq<Request>)
    requires AllProper(blocks)
  {
    if blocks == [] then [] else AllLines(blocks[..|blocks| - 1]) + Lines(blocks[|blocks| - 1])
  }

  /** The call that holds the lock, if any. */
  function Current(s: State): (ls: seq<Request>) {
    if s.holder.Some? && s.holder.value in s.workers && s.workers[s.holder.value].Inside?
       && Proper(s.workers[s.holder.value].block)
    then Lines(s.workers[s.holder.value].block) else []
  }

  predicate HolderRight(s: State) {
    && (s.holder.Some? ==>
      && s.holder.value in s.workers && s.workers[s.holder.value].Inside?
      && s.workers[s.holder.value].block.caller == s.holder.value
      && Proper(s.workers[s.holder.value].block)
      && s.ready)
    && (s.ready <==> s.owner == Serving)
    && (s.handle <==> s.owner != Starting && s.owner != Closed)
  }

  ghost predicate WorkersRight(s: State) {
    forall t | t in s.workers ::
      && (s.workers[t].Inside? ==> s.holder == Some(t))
      && (s.workers[t].Waiting? ==> s.workers[t].reports != [])
  }

  /** The log: set-up, the blocks in lock order, the block under way, and the end. */
  predicate LogRight(s: State) {
    && AllProper(s.blocks)
    && match s.owner
       case Starting => s.log == [] && s.blocks == []
       case Open => s.log == [] && s.blocks == []
       case Registered => s.log == [RegisterHid(true)] && s.blocks == []
       case Described => s.log == SETUP && s.blocks == []
       case Serving => s.log == SETUP + AllLines(s.blocks) + Current(s)
       case Crippled => Failed(s.log) && s.blocks == []
       case Closing => s.log == SETUP + AllLines(s.blocks) || (Failed(s.log) && s.blocks == [])
       case Removed => Finished(s)
       case Closed => Finished(s)
  }

  const SETUP: seq<Request> := [RegisterHid(true), SetReportDescriptor(true)]

  predicate Failed(log: seq<Request>) {
    log == [RegisterHid(false)] || log == [RegisterHid(true), SetReportDescriptor(false)]
  }

  predicate Finished(s: State)
    requires AllProper(s.blocks)
  {
    || s.log == SETUP + AllLines(s.blocks) + [UnregisterHid]
    || (s.blocks == []
        && (s.log == [RegisterHid(false), UnregisterHid]
            || s.log == [RegisterHid(true), SetReportDescriptor(false), UnregisterHid]))
  }

  ghost predicate Invariant(s: State) {
    HolderRight(s) && WorkersRight(s) && LogRight(s)
  }

  lemma BlockGrows(b: Block, ok: bool)
    requires Proper(b) && !Over(b) && |b.results| < |b.reports|
    ensures var b' := b.(results := b.results + [ok]);
      Proper(b') && Lines(b') == Lines(b) + [HidEvent(b.caller, b.reports[|b.results|], ok)]
  {
  }

  lemma BlocksGrow(blocks: seq<Block>, b: Block)
    requires AllProper(blocks) && Proper(b) && Over(b)
    ensures AllProper(blocks + [b]) && AllLines(blocks + [b]) == AllLines(blocks) + Lines(b)
  {
    assert (blocks + [b])[..|blocks + [b]| - 1] == blocks;
  }

  lemma OwnerKeeps(s: State, e: Event)
    requires Invariant(s) && Enabled(s, e)
    requires !(e.Call? || e.Enter? || e.SendReport? || e.Exit?)
    ensures Invariant(Apply(s, e))
  {
    var s' := Apply(s, e);
    assert Current(s) == Current(s');
    if e.ClearReady? || e.SetReady? { assert Current(s) == []; }
    if e.SetReady? { assert AllLines([]) == []; }
    hide AllLines, AllProper;
    assert SETUP + [] + [] == SETUP && SETUP + AllLines(s.blocks) + [] == SETUP + AllLines(s.blocks);
  }

  lemma WorkerKeeps(s: State, e: Event)
    requires Invariant(s) && Enabled(s, e)
    requires e.Call? || e.Enter? || e.SendReport? || e.Exit?
    ensures Invariant(Apply(s, e))
  {
    var s' := Apply(s, e);
    match e {
      case Call(t, _) =>
        assert s.holder != Some(t);
        assert Current(s') == Current(s);
      case Enter(t) =>
        assert Current(s) == [] && Current(s') == [];
      case SendReport(t, ok) =>
        BlockGrows(s.workers[t].block, ok);
        assert Current(s') == Current(s) + [HidEvent(t, s.workers[t].block.reports[|s.workers[t].block.results|], ok)];
      case Exit(t) =>
        BlocksGrow(s.blocks, s.workers[t].block);
        assert Current(s) == Lines(s.workers[t].block) && Current(s') == [];
    }
    hide AllLines, AllProper, Lines, Proper, Over;
  }

  lemma {:induction false} InvariantHolds(states: seq<State>, events: seq<Event>, i: nat)
    requires Run(states, events) && i < |states|
    ensures Invariant(states[i])
  {
    if i > 0 {
      InvariantHolds(states, events, i - 1);
      var e := events[i - 1];
      if e.Call? || e.Enter? || e.SendReport? || e.Exit? {
        WorkerKeeps(states[i - 1], e);
      } else {
        OwnerKeeps(states[i - 1], e);
      }
    }
  }

  // ---------- what it means for the log ----------

  function EventsOf(log: seq<Request>): (events: seq<Request>) {
    if log == [] then []
    else EventsOf(log[..|log| - 1]) + (if log[|log| - 1].HidEvent? then [log[|log| - 1]] else [])
  }

  ghost predicate OnlyEvents(events: seq<Request>) {
    forall k | 0 <= k < |events| :: events[k].HidEvent?
  }

  lemma {:induction false} LinesAreEvents(blocks: seq<Block>)
    requires AllProper(blocks)
    ensures OnlyEvents(AllLines(blocks))
  {
    if blocks != [] { LinesAreEvents(blocks[..|blocks| - 1]); }
  }

  lemma {:induction false} EventsOfEvents(prefix: seq<Request>, events: seq<Request>)
    requires OnlyEvents(events)
    ensures EventsOf(prefix + events) == EventsOf(prefix) + events
  {
    if events == [] {
      assert prefix + events == prefix;
    } else {
      var head, last := events[..|events| - 1], events[|events| - 1];
      assert OnlyEvents(head) && last.HidEvent?;
      SplitLast(events);
      hide OnlyEvents, EventsOf;
      EventsOfEvents(prefix, head);
      EventsKeep(prefix + head, last);
      Regroup(prefix, head, [last]);
      Regroup(EventsOf(prefix), head, [last]);
    }
  }

  lemma EventsKeep(log: seq<Request>, r: Request)
    requires r.HidEvent?
    ensures EventsOf(log + [r]) == EventsOf(log) + [r]
  {
    assert (log + [r])[..|log|] == log;
  }

  lemma EventsSkip(log: seq<Request>, r: Request)
    requires !r.HidEvent?
    ensures EventsOf(log + [r]) == EventsOf(log)
  {
    assert (log + [r])[..|log|] == log;
  }

  lemma EventsOfSetup()
    ensures EventsOf([]) == []
    ensures forall ok :: EventsOf([RegisterHid(ok)]) == []
    ensures forall ok :: EventsOf([RegisterHid(true), SetReportDescriptor(ok)]) == []
    ensures EventsOf([RegisterHid(false), UnregisterHid]) == []
    ensures EventsOf([RegisterHid(true), SetReportDescriptor(false), UnregisterHid]) == []
  {
    forall ok ensures EventsOf([RegisterHid(ok)]) == [] {
      EventsSkip([], RegisterHid(ok));
      assert [] + [RegisterHid(ok)] == [RegisterHid(ok)];
    }
    forall ok ensures EventsOf([RegisterHid(true), SetReportDescriptor(ok)]) == [] {
      EventsSkip([RegisterHid(true)], SetReportDescriptor(ok));
      assert [RegisterHid(true)] + [SetReportDescriptor(ok)] == [RegisterHid(true), SetReportDescriptor(ok)];
    }
    EventsSkip([RegisterHid(false)], UnregisterHid);
    assert [RegisterHid(false)] + [UnregisterHid] == [RegisterHid(false), UnregisterHid];
    var down := [RegisterHid(true), SetReportDescriptor(false)];
    EventsSkip(down, UnregisterHid);
    assert down + [UnregisterHid] == [RegisterHid(true), SetReportDescriptor(false), UnregisterHid];
  }

  /**
   * Every report the device receives comes after a registration and a descriptor that both
   * succeeded and before the unregistration, whatever the threads do.
   */
  lemma EventsInsideRegistration(states: seq<State>, events: seq<Event>, i: nat, k: nat)
    requires Run(states, events) && i < |states| && k < |states[i].log| && states[i].log[k].HidEvent?
    ensures 2 <= k && states[i].log[0] == RegisterHid(true) && states[i].log[1] == SetReportDescriptor(true)
    ensures forall j | 0 <= j < |states[i].log| && states[i].log[j].UnregisterHid? :: k < j
    ensures forall j | 2 <= j < |states[i].log| - 1 :: states[i].log[j].HidEvent?
  {
    InvariantHolds(states, events, i);
    LinesAreEvents(states[i].blocks);
    hide AllLines, AllProper, Proper, Over, Run;
  }

  /** A report is sent only while the device is open, HID is ready and no other thread is inside. */
  lemma ReportsWhileReady(states: seq<State>, events: seq<Event>, i: nat)
    requires Run(states, events) && i < |events| && events[i].SendReport?
    ensures var s := states[i];
      s.handle && s.ready && s.holder == Some(events[i].worker)
      && forall t | t in s.workers && s.workers[t].Inside? :: t == events[i].worker
  {
    InvariantHolds(states, events, i);
  }

  lemma EventsOfWhole(blocks: seq<Block>, current: seq<Request>)
    requires AllProper(blocks)
    requires OnlyEvents(current)
    ensures EventsOf(SETUP + AllLines(blocks) + current) == AllLines(blocks) + current
    ensures EventsOf(SETUP + AllLines(blocks) + [UnregisterHid]) == AllLines(blocks)
    ensures EventsOf(SETUP + AllLines(blocks)) == AllLines(blocks)
  {
    var lines := AllLines(blocks);
    EventsOfSetup();
    LinesAreEvents(blocks);
    hide EventsOf, AllLines, AllProper;
    EventsOfEvents(SETUP, lines);
    EventsOfEvents(SETUP + lines, current);
    EventsSkip(SETUP + lines, UnregisterHid);
    assert [] + lines == lines;
  }

  /** The reports on the wire: those of the finished calls one after another, then those of the call under way. */
  lemma ReportsAreBlocks(states: seq<State>, events: seq<Event>, i: nat)
    requires Run(states, events) && i < |states|
    ensures AllProper(states[i].blocks)
    ensures EventsOf(states[i].log) == AllLines(states[i].blocks) + Current(states[i])
  {
    InvariantHolds(states, events, i);
    ReportsOfState(states[i]);
  }

  lemma ReportsOfState(s: State)
    requires Invariant(s)
    ensures AllProper(s.blocks)
    ensures EventsOf(s.log) == AllLines(s.blocks) + Current(s)
  {
    hide EventsOf, AllLines, AllProper, Current, WorkersRight, HolderRight;
    EventsOfSetup();
    CurrentIs(s);
    EventsOfWhole(s.blocks, Current(s));
    assert AllLines(s.blocks) + [] == AllLines(s.blocks);
    assert s.blocks == [] ==> AllLines(s.blocks) == [] by { NoLines(); }
  }

  lemma NoLines()
    ensures AllLines([]) == []
  {
  }

  lemma CurrentIs(s: State)
    requires Invariant(s)
    ensures OnlyEvents(Current(s)) && (s.owner != Serving ==> Current(s) == [])
  {
    hide AllLines, AllProper, LogRight;
  }

  /** The calls let in, in the order in which they took the lock. */
  ghost function Granted(states: seq<State>, events: seq<Event>, i: nat): (calls: seq<(nat, seq<seq<byte>>)>)
    requires Run(states, events) && i < |states|
  {
    if i == 0 then []
    else
      var s, e := states[i - 1], events[i - 1];
      Granted(states, events, i - 1)
      + (if e.Enter? && s.handle && s.ready then [(e.worker, s.workers[e.worker].reports)] else [])
  }

  /** The finished calls and the one under way. */
  function Calls(s: State): (blocks: seq<Block>) {
    s.blocks + (if s.holder.Some? && s.holder.value in s.workers && s.workers[s.holder.value].Inside?
                then [s.workers[s.holder.value].block] else [])
  }

  lemma CallsStep(s: State, e: Event)
    requires HolderRight(s) && WorkersRight(s) && Enabled(s, e)
    ensures var s' := Apply(s, e);
      match e
      case Enter(t) =>
        Calls(s') == if s.handle && s.ready then Calls(s) + [Block(t, s.workers[t].reports, [])] else Calls(s)
      case SendReport(t, ok) =>
        var n := |s.blocks|;
        |Calls(s)| == |Calls(s')| == n + 1 && Calls(s')[..n] == Calls(s)[..n]
        && Calls(s')[n] == Calls(s)[n].(results := Calls(s')[n].results)
      case _ => Calls(s') == Calls(s)
  {
    hide Proper, Over;
  }

  ghost predicate InOrder(blocks: seq<Block>, calls: seq<(nat, seq<seq<byte>>)>) {
    |blocks| == |calls|
    && forall k | 0 <= k < |calls| :: blocks[k].caller == calls[k].0 && blocks[k].reports == calls[k].1
  }

  lemma BlocksStep(states: seq<State>, events: seq<Event>, i: nat)
    requires Run(states, events) && 0 < i < |states| && InOrder(Calls(states[i - 1]), Granted(states, events, i - 1))
    requires Invariant(states[i - 1])
    ensures InOrder(Calls(states[i]), Granted(states, events, i))
  {
    CallsStep(states[i - 1], events[i - 1]);
    hide Calls, HolderRight, WorkersRight, LogRight, AllProper, Apply;
  }

  /** The blocks are those calls, in lock order and with the reports they were called for. */
  lemma {:induction false} BlocksInLockOrder(states: seq<State>, events: seq<Event>, i: nat)
    requires Run(states, events) && i < |states|
    ensures InOrder(Calls(states[i]), Granted(states, events, i))
  {
    if i > 0 {
      BlocksInLockOrder(states, events, i - 1);
      InvariantHolds(states, events, i - 1);
      BlocksStep(states, events, i);
    }
  }

  // ---------- the blocks are gestures ----------

  function Oks(log: seq<Touch.Report>): (oks: seq<bool>)
    ensures |oks| == |log| && forall i | 0 <= i < |oks| :: oks[i] == log[i].ok
  {
    seq(|log|, i requires 0 <= i < |log| => log[i].ok)
  }

  function Codes(oks: seq<bool>): (results: seq<int>)
    ensures |results| == |oks|
  {
    seq(|oks|, i requires 0 <= i < |oks| => if oks[i] then 0 else -1)
  }

  /** A run stops at the first failure or at the end. */
  ghost predicate Complete(log: seq<Touch.Report>, reports: seq<seq<byte>>) {
    && 1 <= |log| <= |reports| && (!Last(log).ok || |log| == |reports|)
    && (forall i | 0 <= i < |log| - 1 :: log[i].ok)
    && (forall i | 0 <= i < |log| :: log[i].bytes == reports[i])
  }

  lemma CompleteCons(first: Touch.Report, log: seq<Touch.Report>, reports: seq<seq<byte>>)
    requires reports != [] && first.bytes == reports[0] && first.ok && Complete(log, reports[1..])
    ensures Complete([first] + log, reports)
  {
    var all := [first] + log;
    assert Last(all) == Last(log);
    assert forall i | 0 <= i < |log| :: all[i + 1] == log[i] && reports[i + 1] == reports[1..][i];
    assert forall i | 1 <= i < |all| :: all[i] == log[i - 1] && reports[i] == reports[1..][i - 1];
  }

  lemma {:induction false} RunEnds(reports: seq<seq<byte>>, results: seq<int>)
    requires reports != []
    ensures Complete(Touch.Run(reports, results), reports)
    decreases |reports|
  {
    var first := Touch.Report(reports[0], Touch.ResultOk(results));
    Touch.RunUnfold(reports, results);
    hide Touch.Run;
    if |reports| > 1 && first.ok {
      RunEnds(reports[1..], Touch.Rest(results));
      CompleteCons(first, Touch.Run(reports[1..], Touch.Rest(results)), reports);
    } else {
      assert [first] + [] == [first];
      if |reports| == 1 {
        assert reports[1..] == [];
        Touch.RunUnfold([reports[0]], Touch.Rest(results));
      }
    }
  }

  /** What a gesture of the server sends is a finished block of its reports, in the protocol's sense. */
  lemma GestureIsBlock(caller: nat, reports: seq<seq<byte>>, results: seq<int>)
    requires reports != []
    ensures var log := Touch.Run(reports, results);
      var b := Block(caller, reports, Oks(log));
      && Proper(b) && Over(b)
      && forall i | 0 <= i < |log| :: Lines(b)[i] == HidEvent(caller, log[i].bytes, log[i].ok)
  {
    RunEnds(reports, results);
    hide Touch.Run;
  }

  /** Conversely every finished block is what the gesture sends, for the results it has met. */
  lemma {:induction false} BlockIsGesture(b: Block)
    requires b.reports != [] && Proper(b) && Over(b)
    ensures Oks(Touch.Run(b.reports, Codes(b.results))) == b.results
    decreases |b.reports|
  {
    RunFirst(b.reports, b.results);
    if |b.results| == 1 {
      assert b.results == [b.results[0]];
    } else {
      var rest := BlockTail(b);
      hide Codes, Touch.Run, Proper, Over, Oks;
      BlockIsGesture(rest);
      OksFirst(Touch.Report(b.reports[0], true), Touch.Run(rest.reports, Codes(rest.results)));
      assert b.results == [true] + rest.results;
    }
  }

  lemma OksFirst(first: Touch.Report, log: seq<Touch.Report>)
    ensures Oks([first] + log) == [first.ok] + Oks(log)
  {
  }

  lemma RunFirst(reports: seq<seq<byte>>, oks: seq<bool>)
    requires reports != [] && oks != [] && (|oks| == 1 ==> !oks[0] || |reports| == 1)
    ensures Touch.Run(reports, Codes(oks)) == [Touch.Report(reports[0], oks[0])]
      + if |oks| > 1 && oks[0] then Touch.Run(reports[1..], Codes(oks[1..])) else []
  {
    Touch.RunUnfold(reports, Codes(oks));
    CodesTail(oks);
    if |reports| == 1 {
      assert reports[1..] == [];
      Touch.RunUnfold(reports, Codes(oks[1..]));
    }
    hide Touch.Run;
  }

  lemma CodesTail(oks: seq<bool>)
    requires oks != []
    ensures Touch.Rest(Codes(oks)) == Codes(oks[1..])
  {
  }

  lemma BlockTail(b: Block) returns (rest: Block)
    requires Proper(b) && Over(b) && |b.results| > 1
    ensures rest == Block(b.caller, b.reports[1..], b.results[1..]) && b.results[0]
    ensures rest.reports != [] && Proper(rest) && Over(rest)
  {
    rest := Block(b.caller, b.reports[1..], b.results[1..]);
    assert forall i | 0 <= i < |rest.results| :: rest.results[i] == b.results[i + 1];
  }
}
