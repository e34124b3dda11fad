/** The rate arithmetic of import_trc: the file's intrinsic frame rate, the decimation
    stride, the retained sample indices and the output frame numbers. */
module Resample {
  import opened Common

  /** Python's `int(x)` on a float: truncation toward zero (IEEE rounding is not modelled). */
  function Trunc(x: real): (r: int)
    ensures x >= 0.0 ==> r >= 0 && r as real <= x < r as real + 1.0
    ensures x < 0.0 ==> r <= 0 && r as real - 1.0 < x <= r as real
  {
    if x >= 0.0 then x.Floor else -((-x).Floor)
  }

  /** `int(a / b)` for Python integers: true division, then truncation. */
  function TruncDiv(a: int, b: int): int
    requires b != 0
  {
    Trunc(a as real / b as real)
  }

  /** On non-negative operands `int(a / b)` is floor division. */
  lemma TruncDivIsFloorDiv(a: int, b: int)
    requires a >= 0 && b > 0
    ensures TruncDiv(a, b) == a / b
  {
    var q := a / b;
    var x := a as real / b as real;
    assert x * b as real == a as real;
    assert q * b <= a < (q + 1) * b;
    assert (q as real) * (b as real) <= x * (b as real);
    assert x * (b as real) < ((q + 1) as real) * (b as real);
    RealScaleMonotone(q as real, x, b as real);
    RealScaleMonotone(x, (q + 1) as real, b as real);
  }

  lemma RealScaleMonotone(u: real, v: real, b: real)
    requires b > 0.0
    ensures u * b <= v * b ==> u <= v
    ensures u * b < v * b ==> u < v
  {
  }

  /** `fps = int((len(times)-1) / (times[-1] - times[0]))`, the number of samples per
      unit of time, on exact reals.  A zero duration makes the float quotient infinite
      (or nan) and `int()` raises. */
  function IntrinsicRate(times: seq<real>): (r: Result<int>)
    requires |times| >= 1
    ensures r.Err? <==> times[|times| - 1] == times[0]
    ensures r.Err? ==> r.error == NonFiniteRate
    ensures r.Ok? && times[|times| - 1] > times[0] ==>
      var d := times[|times| - 1] - times[0];
      r.value >= 0 &&
      r.value as real * d <= (|times| - 1) as real < (r.value + 1) as real * d
    ensures r.Ok? && times[|times| - 1] < times[0] ==>
      var d := times[|times| - 1] - times[0];
      r.value <= 0 &&
      r.value as real * d <= (|times| - 1) as real < (r.value - 1) as real * d
  {
    var d := times[|times| - 1] - times[0];
    if d == 0.0 then Err(NonFiniteRate)
    else
      var n := (|times| - 1) as real;
      var fps := Trunc(n / d);
      if d > 0.0 then RateBounds(n, d); Ok(fps)
      else NegativeRateBounds(n, d); Ok(fps)
  }

  /** Truncating `n / d` for `n >= 0` and `d > 0` gives the largest `f` with `f * d <= n`. */
  lemma RateBounds(n: real, d: real)
    requires n >= 0.0 && d > 0.0
    ensures var f := Trunc(n / d);
      f >= 0 && f as real * d <= n < (f + 1) as real * d
  {
    var x := n / d;
    assert x * d == n;
    if x < 0.0 {
      RealScaleMonotoneUp(x, 0.0, d);
    }
    var f := Trunc(x);
    assert f as real <= x < f as real + 1.0;
    RealScaleMonotoneUp(f as real, x, d);
    assert (f + 1) as real == f as real + 1.0;
    RealScaleMonotoneUp(x, (f + 1) as real, d);
    assert x * d < (f + 1) as real * d;
    assert n < (f + 1) as real * d;
  }

  /** Truncating `n / d` for `n >= 0` and `d < 0` gives `-f`, where `f` is the
      truncation of `n / -d`. */
  lemma NegativeRateBounds(n: real, d: real)
    requires n >= 0.0 && d < 0.0
    ensures var f := Trunc(n / d);
      f <= 0 && f as real * d <= n < (f - 1) as real * d
  {
    RateBounds(n, -d);
    assert n / d == -(n / -d);
    TruncNeg(n / -d);
    var g := Trunc(n / -d);
    assert Trunc(n / d) == -g;
    assert (-g) as real * d == g as real * -d;
    assert (-g - 1) as real * d == (g + 1) as real * -d;
  }

  /** `int()` commutes with negation. */
  lemma TruncNeg(x: real)
    ensures Trunc(-x) == -Trunc(x)
  {
  }

  /** `int(a / b)` changes sign with either operand. */
  lemma TruncDivNeg(a: int, b: int)
    requires b != 0
    ensures TruncDiv(-a, b) == -TruncDiv(a, b)
    ensures TruncDiv(a, -b) == -TruncDiv(a, b)
  {
    RealDivNeg(a as real, b as real);
    assert (-a) as real == -(a as real) && (-b) as real == -(b as real);
    TruncNeg(a as real / b as real);
  }

  lemma RealDivNeg(x: real, y: real)
    requires y != 0.0
    ensures (-x) / y == -(x / y)
    ensures x / -y == -(x / y)
  {
    var q := x / y;
    assert q * y == x;
    assert (-x) / y * y == -x;
    assert (x / -y) * -y == x;
  }

  lemma RealScaleMonotoneUp(u: real, v: real, b: real)
    requires b > 0.0
    ensures u <= v ==> u * b <= v * b
    ensures u < v ==> u * b < v * b
  {
  }

  /** `conv_fac_frame_rate = int(fps / target_framerate)`: the decimation stride. */
  function Stride(fps: int, target: int): (r: Result<int>)
    ensures r.Err? <==> target == 0
    ensures r.Err? ==> r.error == ZeroTargetRate
    ensures fps >= 0 && target > 0 ==> r == Ok(fps / target)
    ensures fps == target != 0 ==> r == Ok(1)
    ensures 0 <= fps < target ==> r == Ok(0)
    ensures fps < 0 < target ==> r == Ok(-((-fps) / target))
    ensures target < 0 <= fps ==> r == Ok(-(fps / (-target)))
    ensures fps < 0 && target < 0 ==> r == Ok((-fps) / (-target))
  {
    if target == 0 then Err(ZeroTargetRate)
    else
      StrideCases(fps, target);
      Ok(TruncDiv(fps, target))
  }

  /** The values `int(fps / target)` takes, case by case over the signs. */
  lemma StrideCases(fps: int, target: int)
    requires target != 0
    ensures fps >= 0 && target > 0 ==> TruncDiv(fps, target) == fps / target
    ensures fps == target ==> TruncDiv(fps, target) == 1
    ensures 0 <= fps < target ==> TruncDiv(fps, target) == 0
    ensures fps < 0 < target ==> TruncDiv(fps, target) == -((-fps) / target)
    ensures target < 0 <= fps ==> TruncDiv(fps, target) == -(fps / (-target))
    ensures fps < 0 && target < 0 ==> TruncDiv(fps, target) == (-fps) / (-target)
  {
    TruncDivSigns(fps, target);
    if fps >= 0 && target > 0 {
      assert Abs(fps) == fps && Abs(target) == target;
      if fps == target {
        DivSelf(fps);
      } else if fps < target {
        DivSmall(fps, target);
      }
    } else if target > 0 {
      assert Abs(fps) == -fps && Abs(target) == target;
    } else if fps >= 0 {
      assert Abs(fps) == fps && Abs(target) == -target;
    } else {
      assert Abs(fps) == -fps && Abs(target) == -target;
      if fps == target {
        DivSelf(-fps);
      }
    }
  }

  lemma DivSelf(x: nat)
    requires x > 0
    ensures x / x == 1
  {
  }

  function Abs(x: int): nat
  {
    if x < 0 then -x else x
  }

  /** `int(a / b)` is the floor quotient of the magnitudes, negated when the signs differ. */
  lemma TruncDivSigns(a: int, b: int)
    requires b != 0
    ensures TruncDiv(a, b) == if (a < 0) == (b < 0) then Abs(a) / Abs(b) else -(Abs(a) / Abs(b))
  {
    if a >= 0 && b > 0 {
      TruncDivIsFloorDiv(a, b);
    } else if b > 0 {
      TruncDivNeg(-a, b);
      TruncDivIsFloorDiv(-a, b);
    } else if a >= 0 {
      TruncDivNeg(a, -b);
      TruncDivIsFloorDiv(a, -b);
    } else {
      TruncDivNeg(-a, -b);
      TruncDivNeg(-a, b);
      TruncDivIsFloorDiv(-a, -b);
    }
  }

  /** Python's `range(start, stop, step)` for a non-zero step, as the sequence it yields. */
  function PyRange(start: int, stop: int, step: int): seq<int>
    requires step != 0
    decreases if step > 0 then stop - start else start - stop
  {
    if (step > 0 && start < stop) || (step < 0 && start > stop) then
      [start] + PyRange(start + step, stop, step)
    else []
  }

  /** A positive-step range holds `start, start + step, ...` below `stop`, and
      there are `ceil((stop - start) / step)` of them. */
  lemma {:induction false} PyRangeShape(start: int, stop: int, step: int)
    requires step > 0
    ensures var r := PyRange(start, stop, step);
      |r| == (if start < stop then (stop - start - 1) / step + 1 else 0) &&
      forall j :: 0 <= j < |r| ==> r[j] == start + j * step
    decreases stop - start
  {
    if start < stop {
      var tail := PyRange(start + step, stop, step);
      PyRangeShape(start + step, stop, step);
      RangeCount(start, stop, step);
      var r := PyRange(start, stop, step);
      assert r == [start] + tail;
      forall j | 0 <= j < |r|
        ensures r[j] == start + j * step
      {
        if j > 0 {
          assert r[j] == tail[j - 1];
          MulPred(j, step);
        }
      }
    }
  }

  /** One more element than the range that starts a step later. */
  lemma RangeCount(start: int, stop: int, step: int)
    requires step > 0 && start < stop
    ensures (stop - start - 1) / step + 1 ==
      (if start + step < stop then (stop - (start + step) - 1) / step + 1 else 0) + 1
  {
    var x := stop - start - 1;
    if start + step < stop {
      DivShift(x, step);
    } else {
      DivSmall(x, step);
    }
  }

  lemma DivSmall(x: int, d: int)
    requires 0 <= x < d
    ensures x / d == 0
  {
  }

  lemma MulPred(j: int, step: int)
    ensures step + (j - 1) * step == j * step
  {
  }

  lemma DivShift(x: int, d: int)
    requires d > 0 && x >= d
    ensures (x - d) / d == x / d - 1
  {
    var q, m := (x - d) / d, (x - d) % d;
    assert x - d == q * d + m && 0 <= m < d;
    assert x == (q + 1) * d + m;
    DivEuclid(x, d, q + 1, m);
  }

  /** Uniqueness of Euclidean division. */
  lemma DivEuclid(x: int, d: int, q: int, m: int)
    requires d > 0 && 0 <= m < d && x == q * d + m
    ensures x / d == q && x % d == m
  {
    var q', m' := x / d, x % d;
    assert q' * d + m' == q * d + m;
    var t := q' - q;
    assert t * d == m - m';
    if t > 0 {
      MulMonotone(1, t, d);
    } else if t < 0 {
      MulMonotone(1, -t, d);
    }
  }

  /** `range(0, len(times), k)`: the indices of the samples that are kept. */
  function Retained(len: nat, k: int): (r: seq<int>)
    requires k != 0
    ensures k > 0 ==> |r| == (if len == 0 then 0 else (len - 1) / k + 1)
    ensures k > 0 ==> forall j :: 0 <= j < |r| ==> r[j] == j * k
    ensures k < 0 ==> r == []
  {
    if k > 0 then PyRangeShape(0, len, k); PyRange(0, len, k)
    else PyRange(0, len, k)
  }

  /** The retained indices are strictly increasing, lie in `0 .. len-1`, and are
      exactly the multiples of the stride below `len`. */
  lemma RetainedIndices(len: nat, k: int)
    requires k >= 1
    ensures var r := Retained(len, k);
      (forall j :: 0 <= j < |r| ==> 0 <= r[j] < len) &&
      (forall i, j :: 0 <= i < j < |r| ==> r[i] < r[j]) &&
      (forall n :: n in r <==> 0 <= n < len && n % k == 0)
  {
    var r := Retained(len, k);
    forall j | 0 <= j < |r|
      ensures 0 <= r[j] < len
    {
      assert j <= (len - 1) / k;
      MulMonotone(j, (len - 1) / k, k);
      assert ((len - 1) / k) * k <= len - 1;
    }
    forall i, j | 0 <= i < j < |r|
      ensures r[i] < r[j]
    {
      MulStrict(i, j, k);
    }
    forall n
      ensures n in r <==> 0 <= n < len && n % k == 0
    {
      if n in r {
        var j :| 0 <= j < |r| && r[j] == n;
        DivEuclid(n, k, j, 0);
      }
      if 0 <= n < len && n % k == 0 {
        var j := n / k;
        assert n == j * k;
        DivMonotone(n, len - 1, k);
        assert r[j] == n;
      }
    }
  }

  lemma MulMonotone(a: int, b: int, k: int)
    requires 0 <= a <= b && k >= 0
    ensures a * k <= b * k
  {
  }

  lemma MulStrict(a: int, b: int, k: int)
    requires a < b && k > 0
    ensures a * k < b * k
  {
  }

  lemma DivMonotone(a: int, b: int, k: int)
    requires 0 <= a <= b && k > 0
    ensures a / k <= b / k
  {
    var qa, qb := a / k, b / k;
    assert qa * k <= a && b < (qb + 1) * k;
    if qa > qb {
      MulMonotone(qb + 1, qa, k);
    }
  }

  /** The keyframe number of retained sample `n`: `int(n / k) + 1`. */
  function FrameOf(n: int, k: int): (r: int)
    requires k > 0
    ensures n >= 0 ==> r == n / k + 1 && r >= 1
  {
    if n >= 0 then TruncDivIsFloorDiv(n, k); TruncDiv(n, k) + 1
    else TruncDiv(n, k) + 1
  }

  /** The j-th retained sample goes to frame j + 1: frames start at 1 and run on without
      gaps or repeats. */
  lemma RetainedFrames(len: nat, k: int)
    requires k >= 1
    ensures var r := Retained(len, k);
      forall j :: 0 <= j < |r| ==> FrameOf(r[j], k) == j + 1
  {
    var r := Retained(len, k);
    forall j | 0 <= j < |r|
      ensures FrameOf(r[j], k) == j + 1
    {
      TruncDivIsFloorDiv(j * k, k);
      DivEuclid(j * k, k, j, 0);
    }
  }

  /** A stride of 1 keeps every sample. */
  lemma EqualRatesKeepAll(fps: int, len: nat)
    requires fps != 0
    ensures Stride(fps, fps) == Ok(1)
    ensures Retained(len, 1) == seq(len, j => j)
  {
  }

  /** 120 samples per unit of time resampled to 30 gives stride 4, and 121 samples then
      give 31 keyframes on frames 1 to 31. */
  lemma From120To30()
    ensures Stride(120, 30) == Ok(4)
    ensures |Retained(121, 4)| == 31
    ensures forall j :: 0 <= j < 31 ==> FrameOf(Retained(121, 4)[j], 4) == j + 1
  {
    RetainedFrames(121, 4);
  }
}
