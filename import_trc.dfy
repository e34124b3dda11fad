/** import_trc: marker-name resolution, the per-marker keyframe loop and the
    dispatch on the file extension. */
module ImportTrc {
  import opened Common
  import opened PyStr
  import opened TrcLoad
  import opened Resample
  import opened Axes

  /** One `keyframe_insert('location', frame=...)` call: the object it was made on,
      the frame, and the location the object had been given just before. */
  datatype Keyframe = Keyframe(obj: string, frame: int, location: Vec3)

  /** The keyframes recorded so far and, if the loop stopped with an exception, that exception. */
  datatype Run = Run(keys: seq<Keyframe>, failure: Option<TrcError>)

  /** `[coll_m for coll_m in coll_marker_names if m in coll_m][0]`, as an index into the
      collection's object names: the first name containing the marker name, or None when
      the list is empty and `[0]` raises. */
  function Resolve(name: string, objects: seq<string>): (r: Option<nat>)
    ensures r.Some? ==>
      r.value < |objects| && Contains(objects[r.value], name) &&
      forall j :: 0 <= j < r.value ==> !Contains(objects[j], name)
    ensures r.None? ==> forall j :: 0 <= j < |objects| ==> !Contains(objects[j], name)
    decreases |objects|
  {
    if |objects| == 0 then None
    else if Contains(objects[0], name) then Some(0)
    else
      match Resolve(name, objects[1..])
      case None => None
      case Some(j) => Some(j + 1)
  }

  /** A marker whose own name is among the objects always resolves. */
  lemma OwnNameResolves(name: string, objects: seq<string>)
    requires name in objects
    ensures Resolve(name, objects).Some?
  {
    var j :| 0 <= j < |objects| && objects[j] == name;
    assert StartsWith(objects[j][0..], name);
    assert Contains(objects[j], name);
  }

  /** Substring resolution can pick another marker's object: with markers "LHip" and
      "Hip" created in that order, "Hip" resolves to the "LHip" object. */
  lemma NameCollision()
    ensures Resolve("Hip", ["LHip", "Hip"]) == Some(0)
  {
    assert StartsWith("LHip"[1..], "Hip");
  }

  /** The raw coordinates of marker `i` in a data row: columns 3i+1, 3i+2, 3i+3. */
  function Raw(row: seq<real>, i: nat): Vec3
    requires 3 * i + 3 < |row|
  {
    Vec3(row[3 * i + 1], row[3 * i + 2], row[3 * i + 3])
  }

  /** The location given to marker `i`'s object for a data row. */
  function Position(row: seq<real>, i: nat, direction: string): Vec3
    requires 3 * i + 3 < |row|
  {
    Remap(direction, Raw(row, i))
  }

  /** The keyframes of marker `i` on object `obj`: one per retained sample index n,
      at frame int(n/k) + 1.  They are numbered 1, 2, ... in order and the j-th
      carries the position of sample j*k. */
  function MarkerKeys(data: seq<seq<real>>, i: nat, obj: string, k: int, direction: string): (r: seq<Keyframe>)
    requires Rectangular(data) && k >= 1
    requires |data| == 0 || 3 * i + 3 < |data[0]|
    ensures |r| == |Retained(|data|, k)|
    ensures forall j :: 0 <= j < |r| ==>
      r[j].obj == obj && r[j].frame == j + 1 &&
      j * k < |data| && 3 * i + 3 < |data[j * k]| && r[j].location == Position(data[j * k], i, direction)
  {
    var idx := Retained(|data|, k);
    RetainedIndices(|data|, k);
    RetainedFrames(|data|, k);
    seq(|idx|, j requires 0 <= j < |idx| =>
      Keyframe(obj, FrameOf(idx[j], k), Position(data[idx[j]], i, direction)))
  }

  /** The work of one iteration of the outer loop, for marker `i`. */
  function MarkerStep(data: seq<seq<real>>, names: seq<string>, objects: seq<string>,
                      i: nat, k: int, direction: string): (r: Result<seq<Keyframe>>)
    requires Rectangular(data) && i < |names|
    ensures r.Err? <==>
      Resolve(names[i], objects).None? || k == 0 || (k > 0 && |data| > 0 && |data[0]| <= 3 * i + 3)
    ensures Resolve(names[i], objects).None? ==> r == Err(NoMatchingObject(names[i]))
    ensures r.Ok? && k > 0 ==> |r.value| == |Retained(|data|, k)|
    ensures r.Ok? && k < 0 ==> r.value == []
    ensures r.Ok? ==> forall j :: 0 <= j < |r.value| ==>
      r.value[j].obj == objects[Resolve(names[i], objects).value] && r.value[j].frame == j + 1
    ensures Resolve(names[i], objects).Some? && k == 0 ==> r == Err(ZeroStride)
    ensures Resolve(names[i], objects).Some? && k > 0 && |data| > 0 && |data[0]| <= 3 * i + 3 ==>
      r == Err(ColumnOutOfRange(i))
    ensures Resolve(names[i], objects).Some? && k > 0 && (|data| == 0 || 3 * i + 3 < |data[0]|) ==>
      r == Ok(MarkerKeys(data, i, objects[Resolve(names[i], objects).value], k, direction))
  {
    match Resolve(names[i], objects)
    case None => Err(NoMatchingObject(names[i]))
    case Some(o) =>
      if k == 0 then Err(ZeroStride)
      else if k < 0 || |data| == 0 then Ok([])
      else if |data[0]| <= 3 * i + 3 then Err(ColumnOutOfRange(i))
      else Ok(MarkerKeys(data, i, objects[o], k, direction))
  }

  /** The state after the outer loop has run for markers 0 .. count-1: each marker's
      keyframes are appended in name order until the first exception, after which
      nothing more happens (keyframes already made stay). */
  function Animated(data: seq<seq<real>>, names: seq<string>, objects: seq<string>,
                    k: int, direction: string, count: nat): (r: Run)
    requires Rectangular(data) && count <= |names|
    ensures r.failure.None? ==>
      forall i :: 0 <= i < count ==> MarkerStep(data, names, objects, i, k, direction).Ok?
  {
    if count == 0 then Run([], None)
    else
      var prev := Animated(data, names, objects, k, direction, count - 1);
      if prev.failure.Some? then prev
      else
        match MarkerStep(data, names, objects, count - 1, k, direction)
        case Ok(m) => Run(prev.keys + m, None)
        case Err(e) => Run(prev.keys, Some(e))
  }

  /** Once the loop has failed, later markers change nothing. */
  lemma {:induction false} FailureSticks(data: seq<seq<real>>, names: seq<string>, objects: seq<string>,
                                         k: int, direction: string, count: nat, later: nat)
    requires Rectangular(data) && count <= later <= |names|
    requires Animated(data, names, objects, k, direction, count).failure.Some?
    ensures Animated(data, names, objects, k, direction, later) == Animated(data, names, objects, k, direction, count)
    decreases later
  {
    if later > count {
      FailureSticks(data, names, objects, k, direction, count, later - 1);
    }
  }

  /** The inner `for n in range(0, len(times), k)` loop for marker `i` on object `obj`:
      it either records all of the marker's keyframes or, when the rows are too narrow
      for the marker's columns, fails at the first row before recording any. */
  method AnimateMarker(data: seq<seq<real>>, i: nat, obj: string, k: int, direction: string)
    returns (keys: seq<Keyframe>, failure: Option<TrcError>)
    requires Rectangular(data) && k != 0
    ensures k > 0 && |data| > 0 && |data[0]| <= 3 * i + 3 ==>
      keys == [] && failure == Some(ColumnOutOfRange(i))
    ensures (k < 0 || |data| == 0) ==> keys == [] && failure == None
    ensures k > 0 && |data| > 0 && 3 * i + 3 < |data[0]| ==>
      keys == MarkerKeys(data, i, obj, k, direction) && failure == None
  {
    keys, failure := [], None;
    var idx := Retained(|data|, k);
    ghost var all := if k > 0 && (|data| == 0 || 3 * i + 3 < |data[0]|) then MarkerKeys(data, i, obj, k, direction) else [];
    for t := 0 to |idx|
      invariant t > 0 ==> (k > 0 && 3 * i + 3 < |data[0]| && keys == all[..t])
      invariant t == 0 ==> keys == []
      invariant failure.None?
    {
      RetainedAt(|data|, k, t);
      var key;
      key, failure := KeyframeAt(data, i, obj, k, direction, idx[t]);
      if failure.Some? {
        break;
      }
      KeyStep(data, i, obj, k, direction, t, keys);
      keys := keys + [key];
    }
    if failure.None? && |idx| > 0 {
      assert |all| == |idx|;
      assert all[..|idx|] == all;
    }
  }

  /** One pass of the inner loop body for sample `n`: indexing column 3i+3 raises when the
      rows are too narrow; otherwise the object gets the converted location and a keyframe
      at frame int(n/k) + 1. */
  method KeyframeAt(data: seq<seq<real>>, i: nat, obj: string, k: int, direction: string, n: nat)
    returns (key: Keyframe, failure: Option<TrcError>)
    requires Rectangular(data) && k > 0 && n < |data|
    ensures |data[0]| <= 3 * i + 3 ==> failure == Some(ColumnOutOfRange(i))
    ensures 3 * i + 3 < |data[0]| ==>
      failure == None && key == Keyframe(obj, TruncDiv(n, k) + 1, Position(data[n], i, direction))
  {
    assert |data[n]| == |data[0]|;
    if |data[n]| <= 3 * i + 3 {
      // the IndexError: no keyframe is made, and `key` is not used
      return Keyframe(obj, 0, Vec3(0.0, 0.0, 0.0)), Some(ColumnOutOfRange(i));
    }
    var loc := Locate(data[n], i, direction);
    key, failure := Keyframe(obj, TruncDiv(n, k) + 1, loc), None;
  }

  /** The `loc_x`, `loc_y`, `loc_z` assignments for marker `i` and one data row. */
  method Locate(row: seq<real>, i: nat, direction: string) returns (loc: Vec3)
    requires 3 * i + 3 < |row|
    ensures loc == Position(row, i, direction)
    ensures Unmap(direction, loc) == Raw(row, i)
  {
    if direction == ZUp {
      loc := Vec3(row[3 * i + 1], -row[3 * i + 3], row[3 * i + 2]);
    } else {
      loc := Vec3(row[3 * i + 1], row[3 * i + 3], row[3 * i + 2]);
    }
  }

  /** The t-th keyframe of a marker, as the inner loop computes it. */
  lemma KeyAt(data: seq<seq<real>>, i: nat, obj: string, k: int, direction: string, t: nat)
    requires Rectangular(data) && k >= 1
    requires |data| == 0 || 3 * i + 3 < |data[0]|
    requires t < |Retained(|data|, k)|
    ensures Retained(|data|, k)[t] < |data|
    ensures MarkerKeys(data, i, obj, k, direction)[t] ==
      Keyframe(obj, FrameOf(Retained(|data|, k)[t], k), Position(data[Retained(|data|, k)[t]], i, direction))
  {
    RetainedIndices(|data|, k);
  }

  /** Every retained index is a row index. */
  lemma RetainedAt(len: nat, k: int, t: nat)
    requires k != 0 && t < |Retained(len, k)|
    ensures k > 0 && 0 <= Retained(len, k)[t] < len
  {
    RetainedIndices(len, k);
  }

  /** One step of the inner loop extends the recorded prefix of the marker's keyframes. */
  lemma KeyStep(data: seq<seq<real>>, i: nat, obj: string, k: int, direction: string, t: nat,
                keys: seq<Keyframe>)
    requires Rectangular(data) && k >= 1 && t < |Retained(|data|, k)|
    requires 3 * i + 3 < |data[0]|
    requires t > 0 ==> keys == MarkerKeys(data, i, obj, k, direction)[..t]
    requires t == 0 ==> keys == []
    ensures Retained(|data|, k)[t] < |data|
    ensures keys + [Keyframe(obj, TruncDiv(Retained(|data|, k)[t], k) + 1,
                             Position(data[Retained(|data|, k)[t]], i, direction))]
            == MarkerKeys(data, i, obj, k, direction)[..t + 1]
  {
    var all := MarkerKeys(data, i, obj, k, direction);
    KeyAt(data, i, obj, k, direction, t);
    assert all[..t + 1] == all[..t] + [all[t]];
  }

  /** The outer `for i, m in enumerate(markerNames)` loop: resolve the marker's object,
      then run its inner loop. */
  method AnimateMarkers(data: seq<seq<real>>, names: seq<string>, objects: seq<string>,
                        k: int, direction: string)
    returns (keys: seq<Keyframe>, failure: Option<TrcError>)
    requires Rectangular(data)
    ensures Run(keys, failure) == Animated(data, names, objects, k, direction, |names|)
  {
    keys, failure := [], None;
    var i := 0;
    while i < |names| && failure.None?
      invariant 0 <= i <= |names|
      invariant Run(keys, failure) == Animated(data, names, objects, k, direction, i)
      decreases |names| - i
    {
      var o := Resolve(names[i], objects);
      if o.None? {
        failure := Some(NoMatchingObject(names[i]));
      } else if k == 0 {
        failure := Some(ZeroStride);
      } else {
        var m;
        m, failure := AnimateMarker(data, i, objects[o.value], k, direction);
        keys := keys + m;
      }
      i := i + 1;
    }
    if failure.Some? {
      FailureSticks(data, names, objects, k, direction, i, |names|);
    }
  }

  /** `keys[start ..]` begins with `block`. */
  predicate BlockAt(keys: seq<Keyframe>, start: int, block: seq<Keyframe>)
  {
    0 <= start && start + |block| <= |keys| && keys[start..start + |block|] == block
  }

  /** While no marker fails, the loop emits every marker's keyframes as one contiguous
      block, in name order, C = (number of retained samples) keyframes per marker. */
  lemma {:induction false} AnimatedBlocks(data: seq<seq<real>>, names: seq<string>, objects: seq<string>,
                                          k: int, direction: string, count: nat)
    requires Rectangular(data) && count <= |names| && k >= 1
    requires forall i :: 0 <= i < count ==> MarkerStep(data, names, objects, i, k, direction).Ok?
    ensures var run := Animated(data, names, objects, k, direction, count);
      var c := |Retained(|data|, k)|;
      run.failure == None && |run.keys| == count * c &&
      forall i :: 0 <= i < count ==> BlockAt(run.keys, i * c, MarkerStep(data, names, objects, i, k, direction).value)
  {
    if count > 0 {
      var c := |Retained(|data|, k)|;
      AnimatedBlocks(data, names, objects, k, direction, count - 1);
      var prev := Animated(data, names, objects, k, direction, count - 1);
      var m := MarkerStep(data, names, objects, count - 1, k, direction).value;
      var run := Animated(data, names, objects, k, direction, count);
      assert run.keys == prev.keys + m;
      assert |m| == c;
      MulSucc(count - 1, c);
      forall i | 0 <= i < count
        ensures BlockAt(run.keys, i * c, MarkerStep(data, names, objects, i, k, direction).value)
      {
        var b := MarkerStep(data, names, objects, i, k, direction).value;
        if i < count - 1 {
          BlockExtend(prev.keys, m, i * c, b);
        } else {
          BlockAtEnd(prev.keys, m);
        }
      }
    }
  }

  lemma MulSucc(n: nat, c: nat)
    ensures n * c + c == (n + 1) * c
  {
  }

  lemma BlockExtend(keys: seq<Keyframe>, more: seq<Keyframe>, start: int, block: seq<Keyframe>)
    requires BlockAt(keys, start, block)
    ensures BlockAt(keys + more, start, block)
  {
    assert (keys + more)[start..start + |block|] == keys[start..start + |block|];
  }

  lemma BlockAtEnd(keys: seq<Keyframe>, more: seq<Keyframe>)
    ensures BlockAt(keys + more, |keys|, more)
  {
    assert (keys + more)[|keys|..|keys| + |more|] == more;
  }

  /** Markers before the first failing one all complete. */
  lemma {:induction false} AnimatedNoFailure(data: seq<seq<real>>, names: seq<string>, objects: seq<string>,
                                             k: int, direction: string, count: nat)
    requires Rectangular(data) && count <= |names|
    requires forall i :: 0 <= i < count ==> MarkerStep(data, names, objects, i, k, direction).Ok?
    ensures Animated(data, names, objects, k, direction, count).failure == None
  {
    if count > 0 {
      AnimatedNoFailure(data, names, objects, k, direction, count - 1);
    }
  }

  /** The loop ends with the exception of the first marker whose step fails, keeping the
      keyframes of the markers before it and recording none for it or after it. */
  lemma FirstFailureEndsRun(data: seq<seq<real>>, names: seq<string>, objects: seq<string>,
                            k: int, direction: string, f: nat)
    requires Rectangular(data) && f < |names|
    requires MarkerStep(data, names, objects, f, k, direction).Err?
    requires forall i :: 0 <= i < f ==> MarkerStep(data, names, objects, i, k, direction).Ok?
    ensures Animated(data, names, objects, k, direction, |names|) ==
      Run(Animated(data, names, objects, k, direction, f).keys,
          Some(MarkerStep(data, names, objects, f, k, direction).error))
  {
    AnimatedNoFailure(data, names, objects, k, direction, f);
    FailureSticks(data, names, objects, k, direction, f + 1, |names|);
  }

  /** Whether every marker name has an object in the collection containing it. */
  predicate AllResolve(names: seq<string>, objects: seq<string>)
  {
    forall i :: 0 <= i < |names| ==> Resolve(names[i], objects).Some?
  }

  /** Markers that were all created under their own names always resolve. */
  lemma CreatedMarkersResolve(names: seq<string>, objects: seq<string>)
    requires forall i :: 0 <= i < |names| ==> names[i] in objects
    ensures AllResolve(names, objects)
  {
    forall i | 0 <= i < |names|
      ensures Resolve(names[i], objects).Some?
    {
      OwnNameResolves(names[i], objects);
    }
  }

  /** A well-formed file (rows of 1 + 3 * |names| columns) with a positive stride:
      the loop completes, and marker i's keyframes are block i of the output, on
      its resolved object, at frames 1 .. C with the positions of samples 0, k, 2k, .... */
  lemma WellFormedAnimation(data: seq<seq<real>>, names: seq<string>, objects: seq<string>,
                            k: int, direction: string)
    requires Rectangular(data) && k >= 1 && AllResolve(names, objects)
    requires |data| == 0 || |data[0]| >= 1 + 3 * |names|
    ensures var run := Animated(data, names, objects, k, direction, |names|);
      var c := |Retained(|data|, k)|;
      run.failure == None && |run.keys| == |names| * c &&
      forall i :: 0 <= i < |names| ==>
        BlockAt(run.keys, i * c,
          MarkerKeys(data, i, objects[Resolve(names[i], objects).value], k, direction))
  {
    forall i | 0 <= i < |names|
      ensures MarkerStep(data, names, objects, i, k, direction) ==
        Ok(MarkerKeys(data, i, objects[Resolve(names[i], objects).value], k, direction))
    {
    }
    AnimatedBlocks(data, names, objects, k, direction, |names|);
  }

  /** Rows narrower than the marker names need (width w < 1 + 3 * |names|): the loop
      completes the (w - 1) / 3 markers whose columns exist and then fails on the next. */
  lemma NarrowRowsFail(data: seq<seq<real>>, names: seq<string>, objects: seq<string>,
                       k: int, direction: string)
    requires Rectangular(data) && k >= 1 && AllResolve(names, objects)
    requires |data| > 0 && 1 <= |data[0]| < 1 + 3 * |names|
    ensures var run := Animated(data, names, objects, k, direction, |names|);
      var f := (|data[0]| - 1) / 3;
      f < |names| && run.failure == Some(ColumnOutOfRange(f)) &&
      |run.keys| == f * |Retained(|data|, k)|
  {
    var w := |data[0]|;
    var f := (w - 1) / 3;
    assert 3 * f <= w - 1 < 3 * f + 3;
    assert MarkerStep(data, names, objects, f, k, direction).Err?;
    forall i | 0 <= i < f
      ensures MarkerStep(data, names, objects, i, k, direction).Ok?
    {
    }
    FirstFailureEndsRun(data, names, objects, k, direction, f);
    AnimatedBlocks(data, names, objects, k, direction, f);
  }

  /** A target rate above the intrinsic rate gives stride 0: the import fails on the
      first marker with no keyframe recorded. */
  lemma TargetAboveIntrinsic(data: seq<seq<real>>, names: seq<string>, objects: seq<string>,
                             fps: int, target: int, direction: string)
    requires Rectangular(data) && |names| >= 1 && Resolve(names[0], objects).Some?
    requires 0 <= fps < target
    ensures Stride(fps, target) == Ok(0)
    ensures Animated(data, names, objects, 0, direction, |names|) == Run([], Some(ZeroStride))
  {
    FirstFailureEndsRun(data, names, objects, 0, direction, 0);
  }

  /** A negative stride (a file whose times decrease) makes every range empty: the
      loop records nothing and raises nothing. */
  lemma {:induction false} NegativeStrideRecordsNothing(data: seq<seq<real>>, names: seq<string>, objects: seq<string>,
                                     k: int, direction: string, count: nat)
    requires Rectangular(data) && k < 0 && AllResolve(names, objects) && count <= |names|
    ensures Animated(data, names, objects, k, direction, count) == Run([], None)
  {
    if count > 0 {
      NegativeStrideRecordsNothing(data, names, objects, k, direction, count - 1);
    }
  }

  /** What import_trc prepares before creating the markers. */
  datatype Prepared = Prepared(data: seq<seq<real>>, names: seq<string>, k: int)

  /** `times = data[:,0]`, the time column. */
  function TimeColumn(data: seq<seq<real>>): (times: seq<real>)
    requires Rectangular(data) && |data| >= 1 && |data[0]| >= 1
    ensures |times| == |data|
    ensures forall n :: 0 <= n < |data| ==> times[n] == data[n][0]
  {
    seq(|data|, n requires 0 <= n < |data| => data[n][0])
  }

  /** load_trc, then the intrinsic rate from the time column, then the stride.  Each
      step's exception stops the preparation; on success the data and names are those
      load_trc returns and the stride is `int(fps / target_framerate)`. */
  function Prepare(lines: seq<string>, rows: seq<seq<real>>, target: int): (r: Result<Prepared>)
    ensures r.Ok? ==> Rectangular(r.value.data) && |r.value.data| == |rows| >= 2 && |r.value.names| >= 1
    ensures var l := Loaded(lines, rows);
      l.Err? ==> r == Err(l.error)
    ensures var l := Loaded(lines, rows);
      l.Ok? ==>
        var times := TimeColumn(l.value.data);
        (times[|times| - 1] == times[0] ==> r == Err(NonFiniteRate)) &&
        (times[|times| - 1] != times[0] && target == 0 ==> r == Err(ZeroTargetRate)) &&
        (r.Ok? <==> times[|times| - 1] != times[0] && target != 0)
    ensures var l := Loaded(lines, rows);
      r.Ok? ==>
        l.Ok? && Trc(r.value.data, r.value.names) == l.value &&
        Ok(r.value.k) == Stride(IntrinsicRate(TimeColumn(l.value.data)).value, target)
  {
    match Loaded(lines, rows)
    case Err(e) => Err(e)
    case Ok(trc) =>
      var times := TimeColumn(trc.data);
      match IntrinsicRate(times)
      case Err(e) => Err(e)
      case Ok(fps) =>
        match Stride(fps, target)
        case Err(e) => Err(e)
        case Ok(k) => Ok(Prepared(trc.data, trc.names, k))
  }

  /** The `.trc` branch: nothing is recorded when loading, the rate or the stride fails,
      and a run that raises nothing had a successful preparation with a non-zero stride
      (a zero stride always raises at the first marker). */
  function TrcRun(lines: seq<string>, rows: seq<seq<real>>, target: int,
                  objects: seq<string>, direction: string): (r: Run)
    ensures Prepare(lines, rows, target).Err? ==> r.keys == [] && r.failure == Some(Prepare(lines, rows, target).error)
    ensures r.failure.None? ==> Prepare(lines, rows, target).Ok? && Prepare(lines, rows, target).value.k != 0
  {
    match Prepare(lines, rows, target)
    case Err(e) => Run([], Some(e))
    case Ok(p) =>
      var run := Animated(p.data, p.names, objects, p.k, direction, |p.names|);
      assert run.failure.None? ==> MarkerStep(p.data, p.names, objects, 0, p.k, direction).Ok?;
      run
  }

  /** A well-formed `.trc` file (rows of 1 + 3 * |names| columns after the frame column),
      a positive stride and resolvable names: the run completes with no exception, and
      marker i's keyframes are block i of the output. */
  lemma TrcRunCompletes(lines: seq<string>, rows: seq<seq<real>>, target: int,
                        objects: seq<string>, direction: string)
    requires Prepare(lines, rows, target).Ok?
    requires var p := Prepare(lines, rows, target).value;
      p.k >= 1 && AllResolve(p.names, objects) && |rows[0]| >= 2 + 3 * |p.names|
    ensures var p := Prepare(lines, rows, target).value;
      var run := TrcRun(lines, rows, target, objects, direction);
      var c := |Retained(|p.data|, p.k)|;
      run.failure == None && |run.keys| == |p.names| * c &&
      forall i :: 0 <= i < |p.names| ==>
        BlockAt(run.keys, i * c,
          MarkerKeys(p.data, i, objects[Resolve(p.names[i], objects).value], p.k, direction))
  {
    var p := Prepare(lines, rows, target).value;
    assert |p.data[0]| == |rows[0]| - 1;
    WellFormedAnimation(p.data, p.names, objects, p.k, direction);
  }

  /** What an import did. */
  datatype Outcome =
    | Ignored           // neither ".trc" nor ".c3d": nothing happens
    | DelegatedToC3d    // handed to the io_anim_c3d add-on
    | Imported(run: Run)

  /** import_trc.  `lines` are the lines of the file and `rows` the numeric rows after
      its 5-line preamble; `objects` are the names of the collection's objects once
      the markers have been created. */
  method Import(path: string, direction: string, target: int,
                lines: seq<string>, rows: seq<seq<real>>, objects: seq<string>)
    returns (out: Outcome)
    ensures EndsWith(path, ".trc") ==> out == Imported(TrcRun(lines, rows, target, objects, direction))
    ensures !EndsWith(path, ".trc") && EndsWith(path, ".c3d") ==> out == DelegatedToC3d
    ensures !EndsWith(path, ".trc") && !EndsWith(path, ".c3d") ==> out == Ignored
  {
    if EndsWith(path, ".trc") {
      var trc := LoadTrc(lines, rows);
      if trc.Err? {
        return Imported(Run([], Some(trc.error)));
      }
      var data, names := trc.value.data, trc.value.names;
      var fps := IntrinsicRate(TimeColumn(data));
      if fps.Err? {
        return Imported(Run([], Some(fps.error)));
      }
      var k := Stride(fps.value, target);
      if k.Err? {
        return Imported(Run([], Some(k.error)));
      }
      var keys, failure := AnimateMarkers(data, names, objects, k.value, direction);
      out := Imported(Run(keys, failure));
    } else if EndsWith(path, ".c3d") {
      out := DelegatedToC3d;
    } else {
      out := Ignored;
    }
  }
}
