/** The slider's numeric helpers: snapping a value to the step grid,
    converting between intervals, and the handle's percentage. */
module RangeMath {
  import opened Values

  function Abs(x: int): int {
    if x < 0 then -x else x
  }

  /** JavaScript's `%` on integers: truncated toward zero, so the remainder
      takes the sign of the dividend. */
  function JsRem(a: int, b: int): (r: int)
    requires b > 0
    ensures exists q :: a == b * q + r
    ensures a >= 0 ==> 0 <= r < b
    ensures a < 0 ==> -b < r <= 0
  {
    if a >= 0 then
      assert a == b * (a / b) + a % b;
      a % b
    else
      assert -a == b * ((-a) / b) + (-a) % b;
      assert a == b * (-((-a) / b)) + -((-a) % b);
      -((-a) % b)
  }

  /** A product of two non-negative integers is non-negative. */
  lemma MulNonNegative(a: int, b: int)
    requires a >= 0 && b >= 0
    ensures a * b >= 0
  {
  }

  /** Bounds an integer quotient by the products around it. */
  lemma DivBetween(x: int, y: int, k: int)
    requires y > 0 && y * k <= x < y * k + y
    ensures x / y == k
  {
    var q, m := x / y, x % y;
    assert x == y * q + m && 0 <= m < y;
    if q < k {
      MulNonNegative(y, k - q - 1);
    } else if q > k {
      MulNonNegative(y, q - k - 1);
    }
  }

  /** The two tests `v > max` then `v < min`, in that order: within
      `[min,max]` when that interval is not empty, and `min` otherwise. */
  function Clamp(x: int, min: int, max: int): (r: int)
    ensures min <= max ==> min <= r <= max
    ensures min <= x <= max ==> r == x
    ensures x <= min ==> r == min
    ensures min <= max && max <= x ==> r == max
    ensures max < min ==> r == min
  {
    var y := if x > max then max else x;
    if y < min then min else y
  }

  /** The point `min + k*step` nearest to `value`; of two equally near, the larger. */
  function NearestGridPoint(value: int, step: int, min: int): int
    requires step > 0
  {
    min + step * ((2 * (value - min) + step) / (2 * step))
  }

  /** The nearest grid point lies within half a step of the value; a tie lies above it. */
  lemma NearestGridPointIsClose(value: int, step: int, min: int)
    requires step > 0
    ensures -step < 2 * (NearestGridPoint(value, step, min) - value) <= step
  {
    var q := (2 * (value - min) + step) / (2 * step);
    assert 2 * step * q <= 2 * (value - min) + step < 2 * step * q + 2 * step;
  }

  /** No grid point is nearer to `value`, and an equally near one is not larger. */
  lemma NearestGridPointIsNearest(value: int, step: int, min: int, k: int)
    requires step > 0
    ensures var n := NearestGridPoint(value, step, min);
      var g := min + k * step;
      Abs(n - value) <= Abs(g - value) && (Abs(g - value) == Abs(n - value) ==> g <= n)
  {
    var q := (2 * (value - min) + step) / (2 * step);
    var n := NearestGridPoint(value, step, min);
    var e := n - value;
    assert 2 * step * q <= 2 * (value - min) + step < 2 * step * q + 2 * step;
    assert -step < 2 * e <= step;
    var j := k - q;
    assert min + k * step - value == e + j * step;
    if j >= 1 {
      assert j * step >= step;
    } else if j <= -1 {
      assert j * step <= -step;
    }
  }

  /** A grid point is its own nearest grid point. */
  lemma NearestOfGridPoint(step: int, min: int, k: int)
    requires step > 0
    ensures NearestGridPoint(min + k * step, step, min) == min + k * step
  {
    DivBetween(2 * (k * step) + step, 2 * step, k);
  }

  /** What `_snapTo` returns, stated without its remainder arithmetic: the
      nearest grid point counted from `min`, ties upward, then clamped. */
  function Snapped(value: int, step: int, min: int, max: int): int
    requires step > 0
  {
    Clamp(NearestGridPoint(value, step, min), min, max)
  }

  /** The remainder steps of `_snapTo` for a value at or above `min` land on
      the nearest grid point. */
  lemma {:induction false} SnapStepsAtOrAboveMin(value: int, step: int, min: int)
    requires step > 0 && value >= min
    ensures var offset := JsRem(value - min, step);
      value - offset + (if 2 * offset >= step then step else 0) == NearestGridPoint(value, step, min)
  {
    var d := value - min;
    var q, m := d / step, d % step;
    assert d == step * q + m && 0 <= m < step;
    if 2 * m >= step {
      DivBetween(2 * d + step, 2 * step, q + 1);
    } else {
      DivBetween(2 * d + step, 2 * step, q);
    }
  }

  /** Below `min` the remainder steps and the nearest grid point both end at
      or below `min`, where the clamp gives `min`. */
  lemma {:induction false} SnapStepsBelowMin(value: int, step: int, min: int)
    requires step > 0 && value < min
    ensures var offset := JsRem(value - min, step);
      2 * offset < step && value - offset <= min
    ensures NearestGridPoint(value, step, min) <= min
  {
    var p := min - value;
    var q, m := p / step, p % step;
    assert p == step * q + m && 0 <= m < step;
    if q < 0 {
      MulNonNegative(step, -q - 1);
    }
    MulNonNegative(step, q);
    assert JsRem(value - min, step) == -m;
    var x := 2 * (value - min) + step;
    var t := x / (2 * step);
    assert x == 2 * step * t + x % (2 * step) && x % (2 * step) >= 0;
    if t >= 1 {
      MulNonNegative(2 * step, t - 1);
    }
    MulNonNegative(step, -t);
  }

  /** `_snapTo` with its parsed arguments, step by step on `v`; the decimal
      formatting of the result is not modelled. */
  method SnapTo(value: int, step: int, min: int, max: int) returns (r: int)
    requires step > 0
    ensures r == Snapped(value, step, min, max)
    ensures min <= max ==> min <= r <= max
    ensures value <= min ==> r == min
    ensures max < min ==> r == min
  {
    var v := value;
    var offset := JsRem(v - min, step);
    v := v - offset;
    offset := offset * 2;
    if offset >= step {
      v := v + step;
    }
    if v > max {
      v := max;
    }
    if v < min {
      v := min;
    }
    r := v;
    if value >= min {
      SnapStepsAtOrAboveMin(value, step, min);
    } else {
      SnapStepsBelowMin(value, step, min);
    }
  }

  /** Inside `[min,max]`, when the nearest grid point does not pass `max`, no
      clamping happens: the result is that grid point. */
  lemma SnappedInsideIsNearest(value: int, step: int, min: int, max: int)
    requires step > 0 && min <= value <= max && NearestGridPoint(value, step, min) <= max
    ensures Snapped(value, step, min, max) == NearestGridPoint(value, step, min)
  {
    var q := (2 * (value - min) + step) / (2 * step);
    assert 2 * step * q > 2 * (value - min) + step - 2 * step;
    assert q >= 0;
  }

  /** `max` rounds to itself or to a grid point above it: `max` is on the grid,
      or at least half a step past the grid point below it. */
  predicate MaxRoundsUp(step: int, min: int, max: int)
    requires step > 0
  {
    NearestGridPoint(max, step, min) >= max
  }

  /** A `max` on the grid rounds up (to itself). */
  lemma {:induction false} OnGridMaxRoundsUp(step: int, min: int, max: int)
    requires step > 0 && (max - min) % step == 0
    ensures MaxRoundsUp(step, min, max)
  {
    var k := (max - min) / step;
    assert max == min + k * step;
    NearestOfGridPoint(step, min, k);
  }

  /** `max` snaps to itself exactly when it rounds up. */
  lemma {:induction false} SnapsToMaxIff(step: int, min: int, max: int)
    requires step > 0 && min <= max
    ensures Snapped(max, step, min, max) == max <==> MaxRoundsUp(step, min, max)
  {
    NearestOfGridPoint(step, min, 0);
    assert min + 0 * step == min;
  }

  /** When `max` rounds up, every value at or above `max` snaps to `max`. */
  lemma {:induction false} AboveMaxGivesMax(value: int, step: int, min: int, max: int)
    requires step > 0 && min <= max && MaxRoundsUp(step, min, max) && value >= max
    ensures Snapped(value, step, min, max) == max
  {
    var qv := (2 * (value - min) + step) / (2 * step);
    var qm := (2 * (max - min) + step) / (2 * step);
    var n, g := NearestGridPoint(value, step, min), NearestGridPoint(max, step, min);
    assert n == min + qv * step && g == min + qm * step;
    NearestGridPointIsNearest(value, step, min, qm);
    assert Abs(n - value) <= Abs(g - value) && (Abs(g - value) == Abs(n - value) ==> g <= n);
    NearestGridPointIsNearest(max, step, min, qv);
    assert Abs(g - max) <= Abs(n - max) && (Abs(n - max) == Abs(g - max) ==> n <= g);
    assert n >= max;
  }

  /** When `max` rounds up, snapping a snapped value changes nothing. */
  lemma {:induction false} SnappedIdempotent(value: int, step: int, min: int, max: int)
    requires step > 0 && min <= max && MaxRoundsUp(step, min, max)
    ensures Snapped(Snapped(value, step, min, max), step, min, max) == Snapped(value, step, min, max)
  {
    var n := NearestGridPoint(value, step, min);
    var r := Snapped(value, step, min, max);
    var j := (2 * (value - min) + step) / (2 * step);
    if n <= min {
      NearestOfGridPoint(step, min, 0);
    } else if n >= max {
      SnapsToMaxIff(step, min, max);
    } else {
      assert r == min + j * step;
      NearestOfGridPoint(step, min, j);
    }
  }

  /** Snapping is idempotent on every value exactly when `max` rounds up. */
  lemma {:induction false} SnapIdempotentIff(step: int, min: int, max: int)
    requires step > 0 && min <= max
    ensures (forall v :: Snapped(Snapped(v, step, min, max), step, min, max) == Snapped(v, step, min, max))
      <==> MaxRoundsUp(step, min, max)
  {
    if MaxRoundsUp(step, min, max) {
      forall v
        ensures Snapped(Snapped(v, step, min, max), step, min, max) == Snapped(v, step, min, max)
      {
        SnappedIdempotent(v, step, min, max);
      }
    } else {
      var v := max + step;
      NearestGridPointIsClose(v, step, min);
      assert Snapped(v, step, min, max) == max;
      SnapsToMaxIff(step, min, max);
      assert Snapped(Snapped(v, step, min, max), step, min, max) != Snapped(v, step, min, max);
    }
  }

  /** Step 10 on [0,91]: 91 rounds down to 90, so 92 snaps to 90, and 200
      snaps to 91, which then snaps to 90. */
  lemma OffGridMaxCounterexamples()
    ensures !MaxRoundsUp(10, 0, 91)
    ensures Snapped(92, 10, 0, 91) == 90
    ensures Snapped(200, 10, 0, 91) == 91 && Snapped(91, 10, 0, 91) == 90
  {
  }

  /** Step 10 on [0,96]: 96 is off the grid but rounds up, so 97 and 200 snap
      to 96, and 96 snaps to itself. */
  lemma OffGridMaxRoundingUpExample()
    ensures MaxRoundsUp(10, 0, 96)
    ensures Snapped(97, 10, 0, 96) == 96 && Snapped(200, 10, 0, 96) == 96
    ensures Snapped(96, 10, 0, 96) == 96
  {
  }

  /** Step 10 on [0,100]: 54 gives 50, 55 gives 60, 56 gives 60, 105 gives 100. */
  lemma SnapExamples()
    ensures Snapped(54, 10, 0, 100) == 50
    ensures Snapped(55, 10, 0, 100) == 60
    ensures Snapped(56, 10, 0, 100) == 60
    ensures Snapped(105, 10, 0, 100) == 100
  {
  }

  /** `_convertRange`: the point of `[to0,to1]` that sits where `value` sits in
      `[from0,from1]`. */
  function ConvertRange(value: real, from0: real, from1: real, to0: real, to1: real): (r: real)
    requires from0 != from1
    ensures value == from0 ==> r == to0
    ensures value == from1 ==> r == to1
    ensures (r - to0) * (from1 - from0) == (value - from0) * (to1 - to0)
  {
    ((value - from0) * (to1 - to0)) / (from1 - from0) + to0
  }

  /** Converting an interval to itself is the identity. */
  lemma ConvertRangeIdentity(value: real, a: real, b: real)
    requires a != b
    ensures ConvertRange(value, a, b, a, b) == value
  {
  }

  /** Converting there and back again returns the original value. */
  lemma ConvertRangeRoundTrip(value: real, from0: real, from1: real, to0: real, to1: real)
    requires from0 != from1 && to0 != to1
    ensures ConvertRange(ConvertRange(value, from0, from1, to0, to1), to0, to1, from0, from1) == value
  {
    var r := ConvertRange(value, from0, from1, to0, to1);
    var s := ConvertRange(r, to0, to1, from0, from1);
    var c := (to1 - to0) / (from1 - from0);
    var c' := (from1 - from0) / (to1 - to0);
    assert c * c' == 1.0;
    assert r - to0 == (value - from0) * c;
    assert s - from0 == (r - to0) * c';
    assert s - from0 == (value - from0) * (c * c');
  }

  /** A value inside an increasing source interval lands inside an
      increasing target interval. */
  lemma ConvertRangeBetween(value: real, from0: real, from1: real, to0: real, to1: real)
    requires from0 < from1 && to0 <= to1 && from0 <= value <= from1
    ensures to0 <= ConvertRange(value, from0, from1, to0, to1) <= to1
  {
    var r := ConvertRange(value, from0, from1, to0, to1);
    assert (r - to0) * (from1 - from0) == (value - from0) * (to1 - to0);
    assert (value - from0) * (to1 - to0) <= (from1 - from0) * (to1 - to0);
  }

  /** 25 in [0,100] is 0.25 in [0,1]. */
  lemma ConvertRangeExample()
    ensures ConvertRange(25.0, 0.0, 100.0, 0.0, 1.0) == 0.25
  {
  }

  /** Where the unclamped percentage lies for an increasing interval. */
  lemma PercentBounds(value: real, min: real, max: real)
    requires min != max
    ensures var pct := ((value - min) * 100.0) / (max - min);
      (min < max && value <= min ==> pct <= 0.0) &&
      (min < max && value >= max ==> pct >= 100.0) &&
      (min < max && min <= value <= max ==> 0.0 <= pct <= 100.0)
  {
    if min < max {
      var w := max - min;
      var pct := ((value - min) * 100.0) / w;
      assert pct * w == (value - min) * 100.0;
    }
  }

  /** The slider percentage of `_inputHTML`: `(value-min)*100/(max-min)`
      clamped to [0,100]. With `max == min` the division gives an infinity,
      which the clamp turns into 100 or 0, or NaN when `value == min` too:
      that case is `None`. */
  function SliderPercent(value: real, min: real, max: real): (r: Option<real>)
    ensures r.None? <==> value == min && max == min
    ensures r.Some? ==> 0.0 <= r.value <= 100.0
    ensures min < max && min <= value <= max ==> r == Some(ConvertRange(value, min, max, 0.0, 100.0))
    ensures min < max && value <= min ==> r == Some(0.0)
    ensures min < max && value >= max ==> r == Some(100.0)
  {
    if max == min then
      if value > min then Some(100.0) else if value < min then Some(0.0) else None
    else
      var pct := ((value - min) * 100.0) / (max - min);
      PercentBounds(value, min, max);
      if pct > 100.0 then Some(100.0) else if pct < 0.0 then Some(0.0) else Some(pct)
  }
}
