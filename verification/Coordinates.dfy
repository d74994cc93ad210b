/** Pixel to HID coordinates and swipe interpolation: exact integer arithmetic of both C programs. */
module Coordinates {
  import opened Bytes

  const HID_MAX: int := 32767
  const INT_MAX: int := 0x7fff_ffff
  const INT_MIN: int := -0x8000_0000

  predicate IsInt32(v: int) { INT_MIN <= v <= INT_MAX }

  function Clamp(v: int, max: int): (c: int)
    requires max > 1
    ensures 0 <= c < max
    ensures 0 <= v < max ==> c == v
  {
    if v < 0 then 0 else if v >= max then max - 1 else v
  }

  /** scale_coord of the bridge. */
  function Scale(v: int, max: int): (h: int) {
    if max <= 1 then 0 else Clamp(v, max) * 32767 / (max - 1)
  }

  /** The same step in the server, where a missing size means the default. */
  function ServerScale(v: int, size: int, default: int): (h: int)
    requires default > 1
  {
    var max := if size <= 1 then default else size;
    Clamp(v, max) * 32767 / (max - 1)
  }

  // ---------- division ----------

  lemma DivMonotone(a: nat, b: nat, m: nat)
    requires m > 0 && a <= b
    ensures a / m <= b / m
  {
    if a / m > b / m { MulMonotone(b / m + 1, a / m, m); }
  }

  lemma MulMonotone(a: int, b: int, m: nat)
    requires a <= b
    ensures a * m <= b * m
  {
    if a < b {
      assert (b - a) * m >= 0;
      assert b * m == a * m + (b - a) * m;
    }
  }

  lemma DivIs(a: nat, m: nat, q: nat)
    requires m > 0 && q * m <= a < (q + 1) * m
    ensures a / m == q
  {
    if a / m < q { MulMonotone(a / m + 1, q, m); }
    if a / m > q { MulMonotone(q + 1, a / m, m); }
  }

  // ---------- scaling ----------

  lemma ScaleRange(v: int, max: int)
    ensures 0 <= Scale(v, max) <= HID_MAX
    ensures max > 1 && v <= 0 ==> Scale(v, max) == 0
    ensures max > 1 && v >= max - 1 ==> Scale(v, max) == HID_MAX
  {
    if max > 1 {
      var m := max - 1;
      assert 32767 * m / m == 32767 by { DivIs(32767 * m, m, 32767); }
      DivMonotone(Clamp(v, max) * 32767, m * 32767, m);
      assert 0 / m == 0 by { DivIs(0, m, 0); }
    }
  }

  lemma ScaleMonotone(u: int, v: int, max: int)
    requires u <= v
    ensures Scale(u, max) <= Scale(v, max)
  {
    if max > 1 { DivMonotone(Clamp(u, max) * 32767, Clamp(v, max) * 32767, max - 1); }
  }

  /** The product stays in an int for every pixel exactly when the size is at most 65539. */
  lemma ProductFitsIff(max: int)
    requires max > 1
    ensures (forall v: int :: IsInt32(Clamp(v, max) * 32767)) <==> max <= 65539
  {
    if max > 65539 {
      assert !IsInt32(Clamp(max - 1, max) * 32767);
    }
  }

  /** The product the bridge computes for a coordinate stays in an int. */
  predicate ScaleFits(v: int, max: int) { max <= 1 || IsInt32(Clamp(v, max) * 32767) }

  predicate ServerScaleFits(v: int, size: int, default: int) { ScaleFits(v, if size <= 1 then default else size) }

  /** It does exactly for sizes up to 65539 and, beyond, for pixels up to 65538. */
  lemma ScaleFitsIff(v: int, max: int)
    ensures ScaleFits(v, max) <==> max <= 65539 || v <= 65538
  {
  }

  /** ceil(h * (max - 1) / 32767) */
  function PixelOf(h: int, max: int): (v: int)
    requires max > 1
  {
    (h * (max - 1) + 32766) / 32767
  }

  lemma PixelRecovered(v: int, max: int)
    requires 2 <= max <= 32768 && 0 <= v < max
    ensures PixelOf(Scale(v, max), max) == v
  {
    var m := max - 1;
    var h := v * 32767 / m;
    assert h * m <= v * 32767 < h * m + m;
  }

  /** Different pixels have different HID coordinates exactly up to a size of 32768. */
  lemma DistinctIff(max: int)
    requires max >= 2
    ensures (forall u, v | 0 <= u < v < max :: Scale(u, max) != Scale(v, max)) <==> max <= 32768
  {
    if max <= 32768 {
      forall u, v | 0 <= u < v < max
        ensures Scale(u, max) != Scale(v, max)
      {
        PixelRecovered(u, max);
        PixelRecovered(v, max);
      }
    } else {
      DivIs(0, max - 1, 0);
      DivIs(32767, max - 1, 0);
      assert Scale(0, max) == 0 && Scale(1, max) == 0;
    }
  }

  /** The two programs agree on a coordinate exactly when the size is given or the pixel is at the edge. */
  lemma VersionsAgreeIff(v: int, size: int, default: int)
    requires 2 <= default <= 32768
    ensures Scale(v, size) == ServerScale(v, size, default) <==> size > 1 || v <= 0
  {
    if size <= 1 {
      var m := default - 1;
      DivIs(0, m, 0);
      DivMonotone(m, 32767, m);
      DivIs(m, m, 1);
      if v >= 1 { ScaleMonotone(1, v, default); }
    }
  }

  /** Pixel 1 of a frame whose size is missing: the bridge says 0, the server scales by its default. */
  lemma SizeOneDiffers()
    ensures Scale(1, 1) == 0 && ServerScale(1, 1, 1080) == 30
  {
  }

  /** The two data bytes of a coordinate in a report, low byte first. */
  function Packed(h: int): (p: seq<byte>)
    requires 0 <= h <= HID_MAX
  {
    [h % 256, h / 256 % 256]
  }

  function Unpacked(lo: byte, hi: byte): (h: int) { lo as int + 256 * hi as int }

  /** Every pixel inside the frame can be read back from the report bytes. */
  lemma ReportCarriesPixel(v: int, max: int)
    requires 2 <= max <= 32768 && 0 <= v < max
    ensures 0 <= Scale(v, max) <= HID_MAX
    ensures var p := Packed(Scale(v, max)); PixelOf(Unpacked(p[0], p[1]), max) == v
  {
    ScaleRange(v, max);
    PixelRecovered(v, max);
    hide Scale, PixelOf;
    UnpackedBack(Scale(v, max));
  }

  lemma UnpackedBack(h: int)
    requires 0 <= h <= HID_MAX
    ensures Unpacked(Packed(h)[0], Packed(h)[1]) == h
  {
  }

  // ---------- swipes ----------

  /** C division: truncation toward zero. */
  function TruncDiv(a: int, b: int): (q: int)
    requires b > 0
  {
    if a >= 0 then a / b else -((-a) / b)
  }

  /** Half of the way from 0 to -3 is -1: the division of C cuts towards zero. */
  lemma CutsTowardsZero()
    ensures Along(0, -3, 1, 2) == -1 && Along(0, 3, 1, 2) == 1
  {
  }

  function Abs(a: int): (b: nat) { if a < 0 then -a else a }

  /** Point `i` of `steps` on the way from `a` to `b`. */
  function Along(a: int, b: int, i: int, steps: int): (p: int)
    requires steps > 0
  {
    a + TruncDiv((b - a) * i, steps)
  }

  function CeilDiv(a: nat, b: nat): (q: nat)
    requires b > 0
  {
    (a + b - 1) / b
  }

  /** How far point `i` is from the start. */
  function Gone(d: nat, i: nat, steps: nat): (g: nat)
    requires steps > 0
  {
    d * i / steps
  }

  lemma AlongIsGone(a: int, b: int, i: nat, steps: nat)
    requires steps > 0
    ensures Along(a, b, i, steps) == if b >= a then a + Gone(b - a, i, steps) else a - Gone(a - b, i, steps)
  {
    if b >= a {
      MulMonotone(0, b - a, i);
    } else {
      MulMonotone(0, a - b, i);
      assert (b - a) * i == -((a - b) * i);
      if (a - b) * i == 0 { DivIs(0, steps, 0); }
    }
  }

  lemma GoneFacts(d: nat, i: nat, steps: nat)
    requires steps > 0 && i < steps
    ensures Gone(d, 0, steps) == 0 && Gone(d, steps, steps) == d
    ensures Gone(d, i, steps) <= Gone(d, i + 1, steps) <= d
    ensures Gone(d, i + 1, steps) - Gone(d, i, steps) <= CeilDiv(d, steps)
  {
    DivIs(0, steps, 0);
    DivIs(d * steps, steps, d);
    assert d * (i + 1) == d * i + d;
    DivMonotone(d * i, d * (i + 1), steps);
    MulMonotone(i + 1, steps, d);
    DivMonotone(d * (i + 1), d * steps, steps);
    StepBound(d * i, d, steps);
  }

  lemma StepBound(a: nat, d: nat, s: nat)
    requires s > 0
    ensures (a + d) / s <= a / s + CeilDiv(d, s)
  {
    var q, c := a / s, CeilDiv(d, s);
    CeilCovers(d, s);
    FloorBelow(a, s);
    hide CeilDiv;
    Distribute(q, c, s);
    AtMost(a + d, s, q + c);
  }

  lemma CeilCovers(d: nat, s: nat)
    requires s > 0
    ensures d <= CeilDiv(d, s) * s
  {
    FloorBelow(d + s - 1, s);
    assert (CeilDiv(d, s) + 1) * s == CeilDiv(d, s) * s + s;
  }

  lemma FloorBelow(a: nat, s: nat)
    requires s > 0
    ensures a / s * s <= a < (a / s + 1) * s == a / s * s + s
  {
    assert a == a / s * s + a % s;
    assert (a / s + 1) * s == a / s * s + s;
  }

  lemma Distribute(q: nat, c: nat, s: nat)
    ensures (q + c + 1) * s == q * s + c * s + s
  {
  }

  lemma AtMost(x: nat, s: nat, q: nat)
    requires s > 0 && x < (q + 1) * s
    ensures x / s <= q
  {
    FloorBelow(x, s);
    if x / s > q { MulMonotone(q + 1, x / s, s); }
  }

  /**
   * A swipe starts at the start and ends exactly at the target; on the way its points stay between
   * the two, only move toward the target and never by more than ceil(|b - a| / steps) at once.
   */
  lemma SwipePath(a: int, b: int, i: nat, steps: nat)
    requires steps > 0 && i < steps
    ensures Along(a, b, 0, steps) == a && Along(a, b, steps, steps) == b
    ensures a <= b ==> a <= Along(a, b, i, steps) <= Along(a, b, i + 1, steps) <= b
    ensures a >= b ==> a >= Along(a, b, i, steps) >= Along(a, b, i + 1, steps) >= b
    ensures Abs(Along(a, b, i + 1, steps) - Along(a, b, i, steps)) <= CeilDiv(Abs(b - a), steps)
  {
    var d := Abs(b - a);
    AlongIsGone(a, b, 0, steps);
    AlongIsGone(a, b, steps, steps);
    AlongIsGone(a, b, i, steps);
    AlongIsGone(a, b, i + 1, steps);
    GoneFacts(d, i, steps);
    hide Gone, CeilDiv, Along;
  }

  /** The HID coordinates of a swipe are monotone too. */
  lemma ScaledSwipeMonotone(a: int, b: int, i: nat, steps: nat, max: int)
    requires steps > 0 && i < steps
    ensures a <= b ==> Scale(Along(a, b, i, steps), max) <= Scale(Along(a, b, i + 1, steps), max)
    ensures a >= b ==> Scale(Along(a, b, i, steps), max) >= Scale(Along(a, b, i + 1, steps), max)
  {
    SwipePath(a, b, i, steps);
    if a <= b {
      ScaleMonotone(Along(a, b, i, steps), Along(a, b, i + 1, steps), max);
    } else {
      ScaleMonotone(Along(a, b, i + 1, steps), Along(a, b, i, steps), max);
    }
  }

  /** The product the interpolation computes for step `i`. */
  function Reach(a: int, b: int, i: int): (p: int) { (b - a) * i }

  /** What step `i` computes is an int, and so are the ends. */
  predicate StepFits(a: int, b: int, i: int) {
    IsInt32(a) && IsInt32(b) && IsInt32(b - a) && IsInt32(Reach(a, b, i))
  }

  /** The last product of the interpolation is an int. */
  predicate SwipeFits(a: int, b: int, steps: int) {
    IsInt32(a) && IsInt32(b) && 0 < steps && IsInt32(Reach(a, b, steps))
  }

  lemma ProductInInt(a: int, b: int, i: nat, steps: nat)
    requires SwipeFits(a, b, steps) && i <= steps
    ensures IsInt32(b - a) && IsInt32(Reach(a, b, i))
  {
    var d := Abs(b - a);
    MulMonotone(1, steps, d);
    MulMonotone(i, steps, d);
    if b < a {
      assert Reach(a, b, i) == -(d * i) && Reach(a, b, steps) == -(d * steps);
    }
  }

  /** The last step decides: its product stays in an int exactly when those of all steps do. */
  lemma SwipeFitsIff(a: int, b: int, steps: nat)
    requires IsInt32(a) && IsInt32(b) && 0 < steps
    ensures SwipeFits(a, b, steps) <==> forall i: nat | i <= steps :: IsInt32(Reach(a, b, i))
  {
    if SwipeFits(a, b, steps) {
      forall i: nat | i <= steps
        ensures IsInt32(Reach(a, b, i))
      {
        ProductInInt(a, b, i, steps);
      }
    }
  }

  /** A product of exactly -2^31 is still an int. */
  lemma LowestProductFits()
    ensures SwipeFits(0, -134217728, 16) && Reach(0, -134217728, 16) == INT_MIN
  {
  }

  /** Then no step of the swipe overflows. */
  lemma SwipeStaysInInt(a: int, b: int, i: nat, steps: nat)
    requires SwipeFits(a, b, steps) && i <= steps
    ensures StepFits(a, b, i) && IsInt32(Along(a, b, i, steps))
  {
    ProductInInt(a, b, i, steps);
    PointInInt(a, b, i, steps);
    hide Along;
  }

  /** The point on the way is an int, as it lies between the ends. */
  lemma PointInInt(a: int, b: int, i: nat, steps: nat)
    requires IsInt32(a) && IsInt32(b) && i <= steps && 0 < steps
    ensures IsInt32(Along(a, b, i, steps))
  {
    SwipePath(a, b, if i < steps then i else 0, steps);
    hide Along;
  }
}
