/** The gesture functions of the two programs: which HID reports each sends and what it returns. */
module Touch {
  import opened Bytes
  import opened Coordinates

  /** A contact of the finger, in frame pixels. */
  datatype Contact = Contact(touching: bool, x: int, y: int)

  datatype Report = Report(bytes: seq<byte>, ok: bool)

  // ---------- gestures as plans ----------

  function TapPlan(x: int, y: int): (plan: seq<Contact>) { [Contact(true, x, y), Contact(false, x, y)] }

  /** Points `from` to `steps` of the way. */
  function Points(x1: int, y1: int, x2: int, y2: int, from: nat, steps: nat): (plan: seq<Contact>)
    requires 0 < steps && from <= steps + 1
    ensures |plan| == steps + 1 - from
    ensures forall k | 0 <= k < |plan| ::
      plan[k] == Contact(true, Along(x1, x2, from + k, steps), Along(y1, y2, from + k, steps))
    decreases steps + 1 - from
  {
    if from > steps then []
    else
      [Contact(true, Along(x1, x2, from, steps), Along(y1, y2, from, steps))] + Points(x1, y1, x2, y2, from + 1, steps)
  }

  function SwipePlan(x1: int, y1: int, x2: int, y2: int, steps: nat): (plan: seq<Contact>)
    requires 0 < steps
  {
    [Contact(true, x1, y1)] + Points(x1, y1, x2, y2, 1, steps) + [Contact(false, x2, y2)]
  }

  /** steps + 1 touching contacts from the start to the target, then one release there. */
  lemma SwipeShape(x1: int, y1: int, x2: int, y2: int, steps: nat)
    requires 0 < steps
    ensures var p := SwipePlan(x1, y1, x2, y2, steps);
      && |p| == steps + 2
      && (forall k | 0 <= k <= steps :: p[k].touching)
      && p[0] == Contact(true, x1, y1)
      && p[steps] == Contact(true, x2, y2) && p[steps + 1] == Contact(false, x2, y2)
  {
    SwipePath(x1, x2, 0, steps);
    SwipePath(y1, y2, 0, steps);
  }

  lemma SwipePoints(x1: int, y1: int, x2: int, y2: int, steps: nat)
    requires 0 < steps
    ensures var p := SwipePlan(x1, y1, x2, y2, steps);
      |p| == steps + 2
      && forall i | 1 <= i <= steps :: p[i] == Contact(true, Along(x1, x2, i, steps), Along(y1, y2, i, steps))
  {
    hide Along, Points;
    var points := Points(x1, y1, x2, y2, 1, steps);
    forall i | 1 <= i <= steps
      ensures SwipePlan(x1, y1, x2, y2, steps)[i] == Contact(true, Along(x1, x2, i, steps), Along(y1, y2, i, steps))
    {
      assert points[i - 1] == Contact(true, Along(x1, x2, 1 + (i - 1), steps), Along(y1, y2, 1 + (i - 1), steps));
    }
  }

  // ---------- sending a plan ----------

  /** The result of the next control transfer: negative is a failure. */
  function ResultOk(results: seq<int>): (ok: bool) { results != [] && results[0] >= 0 }
  function Rest(results: seq<int>): (rest: seq<int>) { if results == [] then [] else results[1..] }

  /** Reports go out one by one until one fails; nothing follows a failure. */
  function Run(reports: seq<seq<byte>>, results: seq<int>): (log: seq<Report>) {
    if reports == [] then []
    else if ResultOk(results) then [Report(reports[0], true)] + Run(reports[1..], Rest(results))
    else [Report(reports[0], false)]
  }

  function AllOk(n: nat, results: seq<int>): (ok: bool) {
    n == 0 || (ResultOk(results) && AllOk(n - 1, Rest(results)))
  }

  /** The results left over once `n` reports, or those up to the first failure, are out. */
  function After(n: nat, results: seq<int>): (rest: seq<int>) {
    if n == 0 then results
    else if ResultOk(results) then After(n - 1, Rest(results))
    else Rest(results)
  }

  /** A run is the reports in order up to the first failure; without one, all of them. */
  lemma RunIsPrefix(reports: seq<seq<byte>>, results: seq<int>)
    ensures var log := Run(reports, results);
      && |log| <= |reports|
      && (forall k | 0 <= k < |log| ::
            log[k].bytes == reports[k] && (log[k].ok <==> k + 1 < |log| || AllOk(|reports|, results)))
      && (AllOk(|reports|, results) ==> |log| == |reports|)
  {
  }

  /** Whether the phone sees a contact after a run, given whether it did before: failed reports change nothing. */
  function ContactAfter(plan: seq<Contact>, results: seq<int>, before: bool): (touching: bool) {
    if plan == [] || !ResultOk(results) then before
    else ContactAfter(plan[1..], Rest(results), plan[0].touching)
  }

  /** Every contact but the last touches. */
  predicate PressThenRelease(plan: seq<Contact>) {
    |plan| >= 2 && !plan[|plan| - 1].touching && forall k | 0 <= k < |plan| - 1 :: plan[k].touching
  }

  /**
   * When the finger is up again after a tap or a swipe: exactly when every report went through, or
   * the very first did not and the finger was up before. A failure in between leaves it down.
   */
  lemma {:induction false} ReleasedIff(plan: seq<Contact>, results: seq<int>, before: bool)
    requires PressThenRelease(plan)
    ensures !ContactAfter(plan, results, before) <==> AllOk(|plan|, results) || (!before && !ResultOk(results))
  {
    if ResultOk(results) {
      if |plan| > 2 {
        ReleasedIff(plan[1..], Rest(results), true);
      } else {
        var last := plan[1..];
        assert ContactAfter(last, Rest(results), true) == !ResultOk(Rest(results));
        assert AllOk(2, results) == (ResultOk(results) && AllOk(1, Rest(results)));
        assert AllOk(1, Rest(results)) == (ResultOk(Rest(results)) && AllOk(0, Rest(Rest(results))));
      }
    }
  }

  /** A tap whose release fails: the finger stays down. */
  lemma FailedReleaseStays(x: int, y: int)
    ensures ContactAfter(TapPlan(x, y), [0, -1], false)
  {
    ReleasedIff(TapPlan(x, y), [0, -1], false);
    assert Rest([0, -1]) == [-1] && !ResultOk([-1]);
    assert !AllOk(1, [-1]);
  }

  /** Taps and swipes are such gestures. */
  lemma GesturesRelease(x1: int, y1: int, x2: int, y2: int, steps: nat)
    requires 0 < steps
    ensures PressThenRelease(TapPlan(x1, y1)) && PressThenRelease(SwipePlan(x1, y1, x2, y2, steps))
  {
    SwipeShape(x1, y1, x2, y2, steps);
  }

  /** No int of the server's arithmetic overflows for a contact, for a plan. */
  predicate ContactFits(c: Contact, width: int, height: int) {
    ServerScaleFits(c.x, width, 1080) && ServerScaleFits(c.y, height, 2340)
  }

  /** The same for a plan: only reports that are reached are computed. */
  predicate PlanFits(plan: seq<Contact>, width: int, height: int, results: seq<int>) {
    forall i | 0 <= i < |plan| && AllOk(i, results) :: ContactFits(plan[i], width, height)
  }

  lemma SmallFrameFits(plan: seq<Contact>, width: int, height: int, results: seq<int>)
    requires width <= 65539 && height <= 65539
    ensures PlanFits(plan, width, height, results)
  {
  }

  /** The same for a swipe, whose loop also computes the point of every step it reaches. */
  predicate SwipeComputes(x1: int, y1: int, x2: int, y2: int, steps: nat, width: int, height: int, results: seq<int>)
    requires 0 < steps
  {
    && PlanFits(SwipePlan(x1, y1, x2, y2, steps), width, height, results)
    && StepsFit(x1, y1, x2, y2, steps, results)
  }

  predicate StepsFit(x1: int, y1: int, x2: int, y2: int, steps: nat, results: seq<int>) {
    forall i | 1 <= i <= steps && AllOk(i, results) :: StepFits(x1, x2, i) && StepFits(y1, y2, i)
  }

  /** A swipe whose last products are ints may be sent whatever the results. */
  lemma WholeSwipeFits(x1: int, y1: int, x2: int, y2: int, steps: nat, results: seq<int>)
    requires SwipeFits(x1, x2, steps) && SwipeFits(y1, y2, steps)
    ensures StepsFit(x1, y1, x2, y2, steps, results)
  {
    forall i | 1 <= i <= steps
      ensures StepFits(x1, x2, i) && StepFits(y1, y2, i)
    {
      SwipeStaysInInt(x1, x2, i, steps);
      SwipeStaysInInt(y1, y2, i, steps);
    }
    hide SwipeFits, StepFits;
  }

  /** The server's five-byte report. */
  function ServerBytes(c: Contact, width: int, height: int): (b: seq<byte>) {
    var x, y := ServerScale(c.x, width, 1080), ServerScale(c.y, height, 2340);
    ServerScaleRange(c.x, width, 1080);
    ServerScaleRange(c.y, height, 2340);
    [if c.touching then 1 else 0] + Packed(x) + Packed(y)
  }

  /** The bridge's seven-byte report. */
  function BridgeBytes(c: Contact, width: int, height: int): (b: seq<byte>) {
    ScaleRange(c.x, width);
    ScaleRange(c.y, height);
    [if c.touching then 3 else 0, 1] + Packed(Scale(c.x, width)) + Packed(Scale(c.y, height))
        + [if c.touching then 1 else 0]
  }

  lemma ServerBytesAre(touching: bool, x: int, y: int, width: int, height: int)
    ensures var hx, hy := ServerScale(x, width, 1080), ServerScale(y, height, 2340);
      0 <= hx <= HID_MAX && 0 <= hy <= HID_MAX
      && ServerBytes(Contact(touching, x, y), width, height)
         == [if touching then 1 else 0, hx % 256, hx / 256 % 256, hy % 256, hy / 256 % 256]
  {
    ServerScaleRange(x, width, 1080);
    ServerScaleRange(y, height, 2340);
    hide ServerScale;
  }

  lemma ServerScaleRange(v: int, size: int, default: int)
    requires default > 1
    ensures 0 <= ServerScale(v, size, default) <= HID_MAX
  {
    ScaleRange(v, if size <= 1 then default else size);
  }

  function ServerReports(plan: seq<Contact>, width: int, height: int): (rs: seq<seq<byte>>)
    ensures |rs| == |plan| && forall k | 0 <= k < |rs| :: rs[k] == ServerBytes(plan[k], width, height)
  {
    seq(|plan|, i requires 0 <= i < |plan| => ServerBytes(plan[i], width, height))
  }

  function SwipeReports(x1: int, y1: int, x2: int, y2: int, steps: nat, width: int, height: int): (rs: seq<seq<byte>>)
    requires 0 < steps
  {
    ServerReports(SwipePlan(x1, y1, x2, y2, steps), width, height)
  }

  lemma SwipeReportsAre(x1: int, y1: int, x2: int, y2: int, steps: nat, width: int, height: int)
    requires 0 < steps
    ensures var rs := SwipeReports(x1, y1, x2, y2, steps, width, height);
      && |rs| == steps + 2
      && rs[0] == ServerBytes(Contact(true, x1, y1), width, height)
      && (forall i | 1 <= i <= steps ::
            rs[i] == ServerBytes(Contact(true, Along(x1, x2, i, steps), Along(y1, y2, i, steps)), width, height))
      && rs[steps + 1] == ServerBytes(Contact(false, x2, y2), width, height)
  {
    hide Along, ServerBytes;
  }

  /** Report `i` of a swipe, if it is reached, can be computed. */
  lemma ReachedContact(x1: int, y1: int, x2: int, y2: int, steps: nat, width: int, height: int, results: seq<int>,
                       i: nat)
    requires 0 < steps && SwipeComputes(x1, y1, x2, y2, steps, width, height, results)
    requires i <= steps + 1 && AllOk(i, results)
    ensures i == 0 ==> ContactFits(Contact(true, x1, y1), width, height)
    ensures 1 <= i <= steps ==>
      && StepFits(x1, x2, i) && StepFits(y1, y2, i)
      && ContactFits(Contact(true, Along(x1, x2, i, steps), Along(y1, y2, i, steps)), width, height)
    ensures i == steps + 1 ==> ContactFits(Contact(false, x2, y2), width, height)
  {
    hide Along, ContactFits, StepFits, AllOk;
    var plan := SwipePlan(x1, y1, x2, y2, steps);
    assert plan[0] == Contact(true, x1, y1) && plan[steps + 1] == Contact(false, x2, y2);
    assert ContactFits(plan[i], width, height);
    if 1 <= i <= steps {
      assert plan[i] == Contact(true, Along(x1, x2, i, steps), Along(y1, y2, i, steps));
    }
  }

  lemma SwipeEnds(x1: int, y1: int, x2: int, y2: int, steps: nat, width: int, height: int)
    requires 0 < steps
    ensures var rs := SwipeReports(x1, y1, x2, y2, steps, width, height);
      && |rs| == steps + 2
      && rs[0] == ServerBytes(Contact(true, x1, y1), width, height)
      && rs[steps + 1] == ServerBytes(Contact(false, x2, y2), width, height)
  {
    SwipeReportsAre(x1, y1, x2, y2, steps, width, height);
    hide ServerBytes, SwipeReports;
  }

  /** The device as the server's gesture functions use it, hid_mutex held. */
  class ServerHid {
    var handle: bool         // aoa_handle is set
    var ready: bool          // hid_ready
    var results: seq<int>    // results of the control transfers to come
    var log: seq<Report>     // SEND_HID_EVENT requests so far

    constructor (handle: bool, ready: bool, results: seq<int>)
      ensures this.handle == handle && this.ready == ready && this.results == results && log == []
    {
      this.handle, this.ready, this.results, log := handle, ready, results, [];
    }

    /** aoa_hid_send_touch_report: 0, or the negative result. */
    method SendTouchReport(touching: bool, x: int, y: int, width: int, height: int) returns (r: int)
      requires ContactFits(Contact(touching, x, y), width, height)
      modifies this`results, this`log
      ensures r <= 0 && (r == 0 <==> ResultOk(old(results))) && results == Rest(old(results))
      ensures log == old(log) + [Report(ServerBytes(Contact(touching, x, y), width, height), r == 0)]
    {
      var w: int, h: int, px, py := width, height, x, y;
      if w <= 1 { w := 1080; }
      if h <= 1 { h := 2340; }
      if px < 0 { px := 0; }
      if py < 0 { py := 0; }
      if px > w - 1 { px := w - 1; }
      if py > h - 1 { py := h - 1; }
      assert px == Clamp(x, w) && py == Clamp(y, h);
      assert IsInt32(px * 32767) && IsInt32(py * 32767);
      var hx, hy := px * 32767 / (w - 1), py * 32767 / (h - 1);
      ServerBytesAre(touching, x, y, width, height);
      hide ServerBytes, Packed;
      var report := [if touching then 1 else 0, hx % 256, hx / 256 % 256, hy % 256, hy / 256 % 256];
      r := if results == [] then -1 else if results[0] < 0 then results[0] else 0;
      results := Rest(results);
      log := log + [Report(report, r == 0)];
    }

    method Touch(touching: bool, x: int, y: int, width: int, height: int) returns (r: int)
      requires handle && ready ==> PlanFits([Contact(touching, x, y)], width, height, results)
      modifies this`results, this`log
      ensures (r == 0) == (handle && ready && AllOk(1, old(results)))
      ensures results == if handle && ready then After(1, old(results)) else old(results)
      ensures log == old(log) +
        if handle && ready then Run(ServerReports([Contact(touching, x, y)], width, height), old(results)) else []
    {
      if !handle || !ready { return -1; }
      assert [Contact(touching, x, y)][0] == Contact(touching, x, y) && AllOk(0, results);
      r := SendTouchReport(touching, x, y, width, height);
    }

    method Tap(x: int, y: int, width: int, height: int) returns (r: int)
      requires handle && ready ==> PlanFits(TapPlan(x, y), width, height, results)
      modifies this`results, this`log
      ensures (r == 0) == (handle && ready && AllOk(2, old(results)))
      ensures results == if handle && ready then After(2, old(results)) else old(results)
      ensures log == old(log) +
        if handle && ready then Run(ServerReports(TapPlan(x, y), width, height), old(results)) else []
    {
      if !handle || !ready { return -1; }
      hide ServerBytes;
      assert TapPlan(x, y)[0] == Contact(true, x, y) && TapPlan(x, y)[1] == Contact(false, x, y);
      ghost var reports := ServerReports(TapPlan(x, y), width, height);
      RunUnfold(reports, results);
      RunUnfold(reports[1..], Rest(results));
      assert AllOk(0, results) && AllOk(1, results) == ResultOk(results) by { AllOkFirst(results); }
      r := SendTouchReport(true, x, y, width, height);
      if r == 0 {
        r := SendTouchReport(false, x, y, width, height);
      }
    }

    method Swipe(x1: int, y1: int, x2: int, y2: int, width: int, height: int, duration: int) returns (r: int)
      requires handle && ready ==>
        SwipeComputes(x1, y1, x2, y2, StepsFor(duration), width, height, results)
      modifies this`results, this`log
      ensures (r == 0) == (handle && ready && AllOk(StepsFor(duration) + 2, old(results)))
      ensures results == if handle && ready then After(StepsFor(duration) + 2, old(results)) else old(results)
      ensures log == old(log) +
        if handle && ready then Run(SwipeReports(x1, y1, x2, y2, StepsFor(duration), width, height), old(results))
            else []
    {
      if !handle || !ready { return -1; }
      r := SwipeLocked(x1, y1, x2, y2, width, height, duration);
    }

    /** aoa_hid_swipe once HID is known to be ready. */
    method SwipeLocked(x1: int, y1: int, x2: int, y2: int, width: int, height: int, duration: int) returns (r: int)
      requires SwipeComputes(x1, y1, x2, y2, StepsFor(duration), width, height, results)
      modifies this`results, this`log
      ensures (r == 0) == AllOk(StepsFor(duration) + 2, old(results))
      ensures results == After(StepsFor(duration) + 2, old(results))
      ensures log == old(log) + Run(SwipeReports(x1, y1, x2, y2, StepsFor(duration), width, height), old(results))
    {
      hide ServerBytes, Along, Run, AllOk, After, SentSoFar, SwipeReports, ResultOk, Rest, ContactFits;
      hide PlanFits, SwipePlan, StepsFit;
      ghost var n := StepsFor(duration);
      ghost var reports := SwipeReports(x1, y1, x2, y2, n, width, height);
      NothingReached(results);
      ReachedContact(x1, y1, x2, y2, n, width, height, results, 0);
      SwipeEnds(x1, y1, x2, y2, n, width, height);
      NothingSent(reports, results, log);
      SentOne(reports, old(results), old(log), 0, results, log);
      var steps := ClampedSteps(duration);
      r := SendTouchReport(true, x1, y1, width, height);
      var i: nat;
      r, i := SwipeRest(x1, y1, x2, y2, width, height, steps, r, reports, old(results), old(log));
      AllSent(reports, old(results), old(log), i, r == 0, results, log);
    }

    /** The duration is clamped and divided; the report between the two steps does not depend on it. */
    method ClampedSteps(duration: int) returns (steps: nat)
      ensures steps == StepsFor(duration)
    {
      var durationMs := duration;
      if durationMs < 100 { durationMs := 100; }
      if durationMs > 2000 { durationMs := 2000; }
      var n: int := durationMs / 10;
      if n < 8 { n := 8; }
      steps := n;
    }

    /** What follows the first report: the loop, and the release unless a report failed. */
    method SwipeRest(x1: int, y1: int, x2: int, y2: int, width: int, height: int, steps: nat, r0: int,
                     ghost reports: seq<seq<byte>>, ghost results0: seq<int>, ghost log0: seq<Report>)
      returns (r: int, i: nat)
      requires 0 < steps && SwipeComputes(x1, y1, x2, y2, steps, width, height, results0)
      requires reports == SwipeReports(x1, y1, x2, y2, steps, width, height)
      requires r0 <= 0 && SentSoFar(reports, results0, log0, 1, r0 == 0, results, log)
      modifies this`results, this`log
      ensures r <= 0 && (r == 0 ==> i == |reports|)
      ensures SentSoFar(reports, results0, log0, i, r == 0, results, log)
    {
      hide ServerBytes, SentSoFar, SwipeReports, ResultOk, Rest, ContactFits, PlanFits, SwipePlan, StepsFit, AllOk;
      r, i := SwipeSteps(x1, y1, x2, y2, width, height, steps, r0, reports, results0, log0);
      if r == 0 {
        SwipeEnds(x1, y1, x2, y2, steps, width, height);
        SentOne(reports, results0, log0, i, results, log);
        ReachedContact(x1, y1, x2, y2, steps, width, height, results0, i);
        r := SendTouchReport(false, x2, y2, width, height);
        i := i + 1;
      }
    }

    /** The loop of a swipe: one touching report per step while all is well. */
    method SwipeSteps(x1: int, y1: int, x2: int, y2: int, width: int, height: int, steps: nat, r0: int,
                      ghost reports: seq<seq<byte>>, ghost results0: seq<int>, ghost log0: seq<Report>)
      returns (r: int, i: nat)
      requires 0 < steps && SwipeComputes(x1, y1, x2, y2, steps, width, height, results0)
      requires reports == SwipeReports(x1, y1, x2, y2, steps, width, height)
      requires r0 <= 0 && SentSoFar(reports, results0, log0, 1, r0 == 0, results, log)
      modifies this`results, this`log
      ensures r <= 0 && (r == 0 ==> i == steps + 1)
      ensures SentSoFar(reports, results0, log0, i, r == 0, results, log)
    {
      SwipeReportsAre(x1, y1, x2, y2, steps, width, height);
      hide ServerBytes, Along, Run, AllOk, After, SentSoFar, SwipeReports, ContactFits, PlanFits, SwipePlan, StepsFit;
      hide StepFits;
      r, i := r0, 1;
      while r == 0 && i <= steps
        invariant r <= 0 && 1 <= i <= steps + 1
        invariant SentSoFar(reports, results0, log0, i, r == 0, results, log)
      {
        SentOne(reports, results0, log0, i, results, log);
        ReachedContact(x1, y1, x2, y2, steps, width, height, results0, i);
        r := SendTouchReport(true, Interpolate(x1, x2, i, steps), Interpolate(y1, y2, i, steps), width, height);
        i := i + 1;
      }
    }
  }

  /** `a + (b - a) * i / steps` in int arithmetic. */
  function Interpolate(a: int, b: int, i: nat, steps: nat): (p: int)
    requires StepFits(a, b, i) && i <= steps && 0 < steps
    ensures p == Along(a, b, i, steps) && IsInt32(p)
  {
    PointInInt(a, b, i, steps);
    a + TruncDiv((b - a) * i, steps)
  }

  /** The step count the server derives from a duration. */
  function StepsFor(duration: int): (steps: nat)
    ensures 10 <= steps <= 200
  {
    (if duration < 100 then 100 else if duration > 2000 then 2000 else duration) / 10
  }

  /** `i` reports are out, the last of them with success `ok`. */
  ghost predicate SentSoFar(reports: seq<seq<byte>>, results0: seq<int>, log0: seq<Report>, i: nat, ok: bool,
                            results: seq<int>, log: seq<Report>)
  {
    && i <= |reports|
    && log0 + Run(reports, results0) == log + (if ok then Run(reports[i..], results) else [])
    && AllOk(|reports|, results0) == (ok && AllOk(|reports| - i, results))
    && After(|reports|, results0) == (if ok then After(|reports| - i, results) else results)
    && (ok ==> AllOk(i, results0) && results == After(i, results0))
  }

  lemma NothingSent(reports: seq<seq<byte>>, results: seq<int>, log: seq<Report>)
    ensures SentSoFar(reports, results, log, 0, true, results, log)
  {
    assert reports[0..] == reports;
  }

  lemma SentOne(reports: seq<seq<byte>>, results0: seq<int>, log0: seq<Report>, i: nat, results: seq<int>,
      log: seq<Report>)
    requires SentSoFar(reports, results0, log0, i, true, results, log) && i < |reports|
    ensures AllOk(i, results0)
    ensures SentSoFar(reports, results0, log0, i + 1, ResultOk(results), Rest(results), log
        + [Report(reports[i], ResultOk(results))])
  {
    RunFrom(reports, i, results);
    AllOkNext(i, results0);
    hide Run, AllOk, After, ResultOk, Rest;
    var sent, tail := [Report(reports[i], ResultOk(results))], if ResultOk(results)
        then Run(reports[i + 1..], Rest(results)) else [];
    assert log + (sent + tail) == log + sent + tail;
  }

  lemma {:induction false} AllOkNext(i: nat, results: seq<int>)
    ensures AllOk(i + 1, results) == (AllOk(i, results) && ResultOk(After(i, results)))
    ensures AllOk(i + 1, results) ==> After(i + 1, results) == Rest(After(i, results))
  {
    if i > 0 {
      AllOkNext(i - 1, Rest(results));
    } else {
      AllOkFirst(results);
    }
    hide ResultOk, Rest;
  }

  lemma AllOkFirst(results: seq<int>)
    ensures AllOk(0, results) && AllOk(1, results) == ResultOk(results)
  {
    assert AllOk(0, Rest(results));
  }

  lemma NothingReached(results: seq<int>)
    ensures AllOk(0, results)
  {
  }

  lemma RunFrom(reports: seq<seq<byte>>, i: nat, results: seq<int>)
    requires i < |reports|
    ensures Run(reports[i..], results) == [Report(reports[i], ResultOk(results))]
      + (if ResultOk(results) then Run(reports[i + 1..], Rest(results)) else [])
    ensures AllOk(|reports| - i, results) == (ResultOk(results) && AllOk(|reports| - (i + 1), Rest(results)))
    ensures After(|reports| - i, results)
      == if ResultOk(results) then After(|reports| - (i + 1), Rest(results)) else Rest(results)
  {
    assert reports[i..][0] == reports[i] && reports[i..][1..] == reports[i + 1..];
    RunUnfold(reports[i..], results);
    hide Run, AllOk, After;
  }

  lemma AllSent(reports: seq<seq<byte>>, results0: seq<int>, log0: seq<Report>, i: nat, ok: bool, results: seq<int>,
      log: seq<Report>)
    requires SentSoFar(reports, results0, log0, i, ok, results, log) && (ok ==> i == |reports|)
    ensures log == log0 + Run(reports, results0) && ok == AllOk(|reports|, results0)
    ensures results == After(|reports|, results0)
  {
  }

  lemma RunUnfold(reports: seq<seq<byte>>, results: seq<int>)
    requires reports != []
    ensures Run(reports, results) == [Report(reports[0], ResultOk(results))]
      + (if ResultOk(results) then Run(reports[1..], Rest(results)) else [])
    ensures AllOk(|reports|, results) == (ResultOk(results) && AllOk(|reports| - 1, Rest(results)))
    ensures After(|reports|, results) == if ResultOk(results) then After(|reports| - 1, Rest(results))
        else Rest(results)
    ensures Run([], results) == [] && AllOk(0, results)
  {
  }
}
