/**
 * How `CColouredPointsMap::loadFromRangeScan` turns a range scan into map
 * points. Both overloads (2D laser scans and 3D range cameras) run the same
 * decimation loop over the scan's readings: the first valid reading is always
 * inserted, a later valid reading only if the reading before it was valid and
 * it lies farther than `minDistBetweenLaserPoints` from the last inserted
 * point, and a final valid reading that was not inserted is appended after
 * the loop. The polar-to-Cartesian step of the 2D scan (`cos`/`sin` of the
 * beam angle) and the sensor pose's homogeneous matrix are inputs here.
 */
module RangeScan {
  import opened ColouredPoints

  /** The top three rows of the sensor pose's 4x4 homogeneous matrix. */
  datatype Transform = Transform(
    m00: real, m01: real, m02: real, m03: real,
    m10: real, m11: real, m12: real, m13: real,
    m20: real, m21: real, m22: real, m23: real)

  /** Height of a sensor-frame point above the sensor, in the map frame (`rel_z`). */
  function RelZ(t: Transform, sx: real, sy: real, sz: real): real
  {
    t.m20 * sx + t.m21 * sy + t.m22 * sz
  }

  /** A sensor-frame point moved into the map frame. */
  function Apply(t: Transform, sx: real, sy: real, sz: real): Point3
  {
    Point3(t.m00 * sx + t.m01 * sy + t.m02 * sz + t.m03,
           t.m10 * sx + t.m11 * sy + t.m12 * sz + t.m13,
           RelZ(t, sx, sy, sz) + t.m23)
  }

  // ---------------------------------------------------------------------
  // Colouring (TColourOptions)
  // ---------------------------------------------------------------------

  /** `TColouringMethod`: `cmFromHeightRelativeToSensor` is another name for the jet scheme. */
  const Jet := 0
  const Gray := 1
  const FromIntensityImage := 2

  predicate KnownScheme(scheme: int)
  {
    scheme == Jet || scheme == Gray || scheme == FromIntensityImage
  }

  datatype ColourOptions = ColourOptions(scheme: int, zMin: real, zMax: real, dMax: real)

  /** `TColourOptions()`: jet colouring of heights between -10 and 10. */
  const DefaultColourOptions := ColourOptions(Jet, -10.0, 10.0, 5.0)

  function Clamp01(q: real): (r: real)
    ensures 0.0 <= r <= 1.0
    ensures 0.0 <= q <= 1.0 ==> r == q
    ensures q < 0.0 ==> r == 0.0
    ensures q > 1.0 ==> r == 1.0
  {
    if q < 0.0 then 0.0 else if q > 1.0 then 1.0 else q
  }

  /** The fraction of the way from `zMin` to `zMax` a height lies at, clamped to [0, 1]. */
  function HeightFraction(o: ColourOptions, relZ: real): real
    requires o.zMax != o.zMin
  {
    Clamp01((relZ - o.zMin) * (1.0 / (o.zMax - o.zMin)))
  }

  /**
   * The colour a valid reading gets. `jet` stands for `jet2rgb`;
   * `intensity` is the grey level the intensity-image scheme uses (1 when the
   * scan has no usable image). An unknown scheme throws before any point is
   * inserted, so the colour given for it here is never stored.
   */
  function Colouring(o: ColourOptions, jet: real -> Colour, relZ: real, intensity: real): Colour
    requires o.zMax != o.zMin
  {
    if o.scheme == Gray then
      var q := HeightFraction(o, relZ);
      Colour(q, q, q)
    else if o.scheme == Jet then jet(HeightFraction(o, relZ))
    else if o.scheme == FromIntensityImage then Colour(intensity, intensity, intensity)
    else White
  }

  lemma ScaleUp(a: real, b: real, inv: real)
    requires b > 0.0 && inv * b == 1.0 && a >= b
    ensures a * inv >= 1.0
  {
    assert a * inv - 1.0 == (a - b) * inv;
    assert inv > 0.0;
  }

  lemma ScaleDown(a: real, inv: real)
    requires inv > 0.0 && a <= 0.0
    ensures a * inv <= 0.0
  {
  }

  lemma ScaleMono(a: real, b: real, inv: real)
    requires inv > 0.0 && a <= b
    ensures a * inv <= b * inv
  {
    assert b * inv - a * inv == (b - a) * inv;
  }

  lemma ClampMono(p: real, q: real)
    requires p <= q
    ensures Clamp01(p) <= Clamp01(q)
  {
  }

  /**
   * The grey scheme maps heights at or below `z_min` to black, heights at or
   * above `z_max` to white, and is monotone in between.
   */
  lemma GrayShading(o: ColourOptions, jet: real -> Colour, a: real, b: real)
    requires o.scheme == Gray && o.zMax > o.zMin
    ensures a <= o.zMin ==> Colouring(o, jet, a, 1.0) == Colour(0.0, 0.0, 0.0)
    ensures a >= o.zMax ==> Colouring(o, jet, a, 1.0) == White
    ensures a <= b ==> Colouring(o, jet, a, 1.0).r <= Colouring(o, jet, b, 1.0).r
  {
    if a <= o.zMin {
      FractionBelow(o, a);
    }
    if a >= o.zMax {
      FractionAbove(o, a);
    }
    if a <= b {
      FractionMono(o, a, b);
    }
  }

  lemma FractionBelow(o: ColourOptions, a: real)
    requires o.zMax > o.zMin && a <= o.zMin
    ensures HeightFraction(o, a) == 0.0
  {
    var inv := 1.0 / (o.zMax - o.zMin);
    assert inv > 0.0;
    ScaleDown(a - o.zMin, inv);
  }

  lemma FractionAbove(o: ColourOptions, a: real)
    requires o.zMax > o.zMin && a >= o.zMax
    ensures HeightFraction(o, a) == 1.0
  {
    var w := o.zMax - o.zMin;
    var inv := 1.0 / w;
    assert inv * w == 1.0;
    ScaleUp(a - o.zMin, w, inv);
  }

  lemma FractionMono(o: ColourOptions, a: real, b: real)
    requires o.zMax > o.zMin && a <= b
    ensures HeightFraction(o, a) <= HeightFraction(o, b)
  {
    var inv := 1.0 / (o.zMax - o.zMin);
    assert inv > 0.0;
    ScaleMono(a - o.zMin, b - o.zMin, inv);
    ClampMono((a - o.zMin) * inv, (b - o.zMin) * inv);
  }

  // ---------------------------------------------------------------------
  // The decimation loop shared by both overloads
  // ---------------------------------------------------------------------

  /** A point ready to be pushed, with its colour. */
  datatype Pt = Pt(p: Point3, colour: Colour)

  /** One reading of a scan: out of range, or a map-frame point with its colour. */
  datatype Sample = Invalid | Valid(pt: Pt)

  /**
   * The loop's variables: `thisIsTheFirst`, `lastPointWasValid`,
   * `lastPointWasInserted`, the last inserted point (`lx_1, ly_1, lz_1`), the
   * current point with its colour (`lx, ly, lz` and `pR, pG, pB`) and what
   * has been pushed so far.
   */
  datatype Cursor = Cursor(first: bool, lastValid: bool, lastInserted: bool, prev: Point3, cur: Pt, out: seq<Pt>)

  /** `lx_1 = ly_1 = lz_1 = -100` before the loop. */
  const Unset := Point3(-100.0, -100.0, -100.0)

  /**
   * The loop's variables before the first reading. `uninit` stands for the
   * uninitialised `lx, ly, lz`, which the final push reads when the scan has
   * no reading at all.
   */
  function Begin(uninit: Point3): Cursor
  {
    Cursor(true, true, false, Unset, Pt(uninit, White), [])
  }

  function SqDist(a: Point3, b: Point3): real
  {
    (a.x - b.x) * (a.x - b.x) + (a.y - b.y) * (a.y - b.y) + (a.z - b.z) * (a.z - b.z)
  }

  /** `square(minDistBetweenLaserPoints)`, or -1 when the option is negative. */
  function Spacing(minDist: real): real
  {
    if minDist < 0.0 then -1.0 else minDist * minDist
  }

  /** One iteration of the loop. */
  function Step(k: Cursor, s: Sample, spacing: real): Cursor
  {
    match s
    case Invalid => k.(lastValid := false)
    case Valid(pt) =>
      if k.first || (k.lastValid && SqDist(pt.p, k.prev) > spacing) then
        Cursor(false, true, true, pt.p, pt, k.out + [pt])
      else
        k.(lastValid := true, lastInserted := false, cur := pt)
  }

  /** The loop's variables after the given readings. */
  function Run(samples: seq<Sample>, spacing: real, uninit: Point3): Cursor
  {
    if |samples| == 0 then Begin(uninit)
    else Step(Run(samples[..|samples| - 1], spacing, uninit), samples[|samples| - 1], spacing)
  }

  /** After the loop: the last valid reading, if it was not inserted, is pushed as well. */
  function Finish(k: Cursor): seq<Pt>
  {
    k.out + (if k.lastValid && !k.lastInserted then [k.cur] else [])
  }

  /** The points a scan contributes to the map, in the order they are pushed. */
  function Decimated(samples: seq<Sample>, spacing: real, uninit: Point3): seq<Pt>
  {
    Finish(Run(samples, spacing, uninit))
  }

  function CountValid(samples: seq<Sample>): (r: nat)
    ensures r <= |samples|
  {
    if |samples| == 0 then 0
    else CountValid(samples[..|samples| - 1]) + (if samples[|samples| - 1].Valid? then 1 else 0)
  }

  /** What the loop's variables always say about the readings seen so far. */
  ghost predicate Consistent(samples: seq<Sample>, spacing: real, k: Cursor)
  {
    (k.first <==> forall i :: 0 <= i < |samples| ==> samples[i].Invalid?) &&
    (k.first ==> k.out == []) &&
    (!k.first ==> |k.out| > 0 && k.prev == k.out[|k.out| - 1].p) &&
    (forall m :: 0 < m < |k.out| ==> SqDist(k.out[m].p, k.out[m - 1].p) > spacing) &&
    (forall m :: 0 <= m < |k.out| ==> Valid(k.out[m]) in samples) &&
    (|samples| > 0 ==>
      (k.lastValid <==> samples[|samples| - 1].Valid?) &&
      (samples[|samples| - 1].Valid? ==> k.cur == samples[|samples| - 1].pt) &&
      (samples[|samples| - 1].Valid? && k.lastInserted ==> k.out[|k.out| - 1] == k.cur) &&
      |k.out| + (if k.lastValid && !k.lastInserted then 1 else 0) <= CountValid(samples))
  }

  lemma {:induction false} RunConsistent(samples: seq<Sample>, spacing: real, uninit: Point3)
    ensures Consistent(samples, spacing, Run(samples, spacing, uninit))
  {
    if |samples| > 0 {
      var n := |samples| - 1;
      RunConsistent(samples[..n], spacing, uninit);
      assert samples == samples[..n] + [samples[n]];
      StepConsistent(samples[..n], samples[n], spacing, Run(samples[..n], spacing, uninit));
    }
  }

  /** One iteration keeps the loop's variables consistent with the readings seen. */
  lemma StepConsistent(before: seq<Sample>, s: Sample, spacing: real, k: Cursor)
    requires Consistent(before, spacing, k)
    ensures Consistent(before + [s], spacing, Step(k, s, spacing))
  {
    match s
    case Invalid => SkipInvalidConsistent(before, spacing, k);
    case Valid(pt) =>
      if k.first || (k.lastValid && SqDist(pt.p, k.prev) > spacing) {
        PushConsistent(before, pt, spacing, k);
      } else {
        PassOverConsistent(before, pt, spacing, k);
      }
  }

  lemma SkipInvalidConsistent(before: seq<Sample>, spacing: real, k: Cursor)
    requires Consistent(before, spacing, k)
    ensures Consistent(before + [Invalid], spacing, k.(lastValid := false))
  {
    var samples := before + [Invalid];
    assert forall i :: 0 <= i < |before| ==> before[i] == samples[i];
    assert forall x :: x in before ==> x in samples;
    assert samples[..|before|] == before;
  }

  lemma PushConsistent(before: seq<Sample>, pt: Pt, spacing: real, k: Cursor)
    requires Consistent(before, spacing, k)
    requires k.first || (k.lastValid && SqDist(pt.p, k.prev) > spacing)
    ensures Consistent(before + [Valid(pt)], spacing, Cursor(false, true, true, pt.p, pt, k.out + [pt]))
  {
    var samples := before + [Valid(pt)];
    var out := k.out + [pt];
    assert forall i :: 0 <= i < |before| ==> before[i] == samples[i];
    assert forall x :: x in before ==> x in samples;
    assert samples[..|before|] == before;
    assert samples[|before|] == Valid(pt);
    assert forall m :: 0 <= m < |k.out| ==> out[m] == k.out[m];
    assert CountValid(samples) == CountValid(before) + 1;
  }

  lemma PassOverConsistent(before: seq<Sample>, pt: Pt, spacing: real, k: Cursor)
    requires Consistent(before, spacing, k)
    requires !(k.first || (k.lastValid && SqDist(pt.p, k.prev) > spacing))
    ensures Consistent(before + [Valid(pt)], spacing, k.(lastValid := true, lastInserted := false, cur := pt))
  {
    var samples := before + [Valid(pt)];
    assert forall i :: 0 <= i < |before| ==> before[i] == samples[i];
    assert forall x :: x in before ==> x in samples;
    assert samples[..|before|] == before;
  }

  /**
   * Consecutive points pushed by the loop are farther apart than the
   * minimum spacing; only the point appended after the loop may be closer
   * to the one before it.
   */
  lemma DecimatedSpacing(samples: seq<Sample>, spacing: real, uninit: Point3)
    ensures var d := Decimated(samples, spacing, uninit);
      forall m :: 0 < m < |d| - 1 ==> SqDist(d[m].p, d[m - 1].p) > spacing
  {
    RunConsistent(samples, spacing, uninit);
  }

  /**
   * A non-empty scan contributes only its own valid readings, at most one
   * point per valid reading.
   */
  lemma DecimatedFromReadings(samples: seq<Sample>, spacing: real, uninit: Point3)
    requires |samples| > 0
    ensures var d := Decimated(samples, spacing, uninit);
      |d| <= CountValid(samples) && forall m :: 0 <= m < |d| ==> Valid(d[m]) in samples
  {
    RunConsistent(samples, spacing, uninit);
  }

  /** When the last reading is valid, it is the last point pushed. */
  lemma DecimatedEndsWithLastValid(samples: seq<Sample>, spacing: real, uninit: Point3)
    requires |samples| > 0 && samples[|samples| - 1].Valid?
    ensures var d := Decimated(samples, spacing, uninit);
      |d| > 0 && d[|d| - 1] == samples[|samples| - 1].pt
  {
    RunConsistent(samples, spacing, uninit);
  }

  /** Later readings only add points after those already pushed. */
  lemma {:induction false} RunExtends(samples: seq<Sample>, j: nat, spacing: real, uninit: Point3)
    requires j <= |samples|
    ensures Run(samples[..j], spacing, uninit).out <= Run(samples, spacing, uninit).out
  {
    if j < |samples| {
      var n := |samples| - 1;
      assert samples[..n][..j] == samples[..j];
      RunExtends(samples[..n], j, spacing, uninit);
    } else {
      assert samples[..j] == samples;
    }
  }

  /** The first valid reading is always the first point pushed. */
  lemma DecimatedStartsWithFirstValid(samples: seq<Sample>, f: nat, spacing: real, uninit: Point3)
    requires f < |samples| && samples[f].Valid?
    requires forall i :: 0 <= i < f ==> samples[i].Invalid?
    ensures var d := Decimated(samples, spacing, uninit);
      |d| > 0 && d[0] == samples[f].pt
  {
    var head := samples[..f + 1];
    assert head[..f] == samples[..f];
    RunConsistent(samples[..f], spacing, uninit);
    assert Run(head, spacing, uninit).out == [samples[f].pt];
    RunExtends(samples, f + 1, spacing, uninit);
  }

  lemma SqDistNonNegative(a: Point3, b: Point3)
    ensures SqDist(a, b) >= 0.0
  {
    var dx, dy, dz := a.x - b.x, a.y - b.y, a.z - b.z;
    assert dx * dx >= 0.0 && dy * dy >= 0.0 && dz * dz >= 0.0;
  }

  /** The points of a run of valid readings, in order. */
  function Points(samples: seq<Sample>): (r: seq<Pt>)
    requires forall i :: 0 <= i < |samples| ==> samples[i].Valid?
    ensures |r| == |samples|
  {
    seq(|samples|, i requires 0 <= i < |samples| => samples[i].pt)
  }

  lemma {:induction false} NoSpacingRun(samples: seq<Sample>, uninit: Point3)
    requires |samples| > 0 && forall i :: 0 <= i < |samples| ==> samples[i].Valid?
    ensures var k := Run(samples, Spacing(-1.0), uninit);
      k.lastValid && k.lastInserted && !k.first && k.out == Points(samples)
  {
    var n := |samples| - 1;
    if n > 0 {
      var before := samples[..n];
      NoSpacingRun(before, uninit);
      var kb := Run(before, -1.0, uninit);
      SqDistNonNegative(samples[n].pt.p, kb.prev);
      assert Points(samples) == Points(before) + [samples[n].pt];
    }
  }

  /**
   * With no minimum spacing (a negative option) and every reading valid,
   * every reading becomes a point, in scan order.
   */
  lemma NoSpacingKeepsAll(samples: seq<Sample>, uninit: Point3)
    requires |samples| > 0 && forall i :: 0 <= i < |samples| ==> samples[i].Valid?
    ensures Decimated(samples, Spacing(-1.0), uninit) == Points(samples)
  {
    NoSpacingRun(samples, uninit);
  }

  /**
   * A valid reading straight after an invalid one is not pushed by the loop
   * once an earlier reading was valid, however small the spacing: the
   * insertion test needs `lastPointWasValid`. Only the push after the loop
   * can still add it, when it is the last valid reading.
   */
  lemma ValidAfterGapSkipped(samples: seq<Sample>, i: nat, j: nat, spacing: real, uninit: Point3)
    requires i < j < |samples| && samples[i].Valid? && samples[j - 1].Invalid? && samples[j].Valid?
    ensures Run(samples[..j + 1], spacing, uninit).out == Run(samples[..j], spacing, uninit).out
  {
    var before := samples[..j];
    RunConsistent(before, spacing, uninit);
    assert before[i] == samples[i];
    assert before[|before| - 1] == samples[j - 1];
    assert samples[..j + 1][..j] == before;
  }

  /**
   * So with no minimum spacing, readings valid, invalid, valid, invalid,
   * valid give only the first and the last: the middle one follows a gap.
   */
  lemma NoSpacingDropsAfterGap(a: Pt, b: Pt, c: Pt, uninit: Point3)
    ensures Decimated([Valid(a), Invalid, Valid(b), Invalid, Valid(c)], Spacing(-1.0), uninit) == [a, c]
  {
    var samples := [Valid(a), Invalid, Valid(b), Invalid, Valid(c)];
    assert samples[..1] == [Valid(a)];
    assert samples[..2][..1] == samples[..1];
    assert samples[..3][..2] == samples[..2];
    assert samples[..4][..3] == samples[..3];
    assert samples[..5] == samples;
    assert samples[..5][..4] == samples[..4];
    assert samples[..1][..0] == [] && samples[..1][0] == Valid(a);
    assert Run([], -1.0, uninit) == Begin(uninit);
    var k1 := Run(samples[..1], -1.0, uninit);
    assert k1 == Step(Run(samples[..1][..0], -1.0, uninit), samples[..1][0], -1.0);
    assert k1 == Step(Begin(uninit), Valid(a), -1.0);
    assert k1.out == [a] && k1.lastValid;
    var k2 := Run(samples[..2], -1.0, uninit);
    assert k2 == k1.(lastValid := false);
    var k3 := Run(samples[..3], -1.0, uninit);
    assert k3 == Step(k2, Valid(b), -1.0);
    assert k3.out == [a];
    var k4 := Run(samples[..4], -1.0, uninit);
    assert k4 == k3.(lastValid := false);
    var k5 := Run(samples, -1.0, uninit);
    assert k5 == Step(k4, Valid(c), -1.0);
    assert k5.out == [a] && k5.lastValid && !k5.lastInserted && k5.cur == c;
  }

  /**
   * A scan with no reading at all still pushes one point: the uninitialised
   * current point, in white, because `lastPointWasValid` starts out true.
   */
  lemma EmptyScanPushesOnePoint(spacing: real, uninit: Point3)
    ensures Decimated([], spacing, uninit) == [Pt(uninit, White)]
  {
  }

  // ---------------------------------------------------------------------
  // The two kinds of scan
  // ---------------------------------------------------------------------

  /**
   * A 2D laser scan with each range already turned into sensor-plane
   * coordinates (`scan[i]*cos(Ang)`, `scan[i]*sin(Ang)`) and its `validRange` flags.
   */
  datatype Scan2D = Scan2D(xs: seq<real>, ys: seq<real>, valid: seq<bool>)

  predicate WellFormed2D(s: Scan2D)
  {
    |s.ys| == |s.xs| && |s.valid| == |s.xs|
  }

  /** Reading `i` of a 2D scan; it lies in the sensor plane (z = 0). */
  function Sample2D(s: Scan2D, i: nat, t: Transform, o: ColourOptions, jet: real -> Colour): Sample
    requires WellFormed2D(s) && i < |s.xs| && o.zMax != o.zMin
  {
    if !s.valid[i] then Invalid
    else Valid(Pt(Apply(t, s.xs[i], s.ys[i], 0.0), Colouring(o, jet, RelZ(t, s.xs[i], s.ys[i], 0.0), 1.0)))
  }

  function Samples2D(s: Scan2D, t: Transform, o: ColourOptions, jet: real -> Colour): (r: seq<Sample>)
    requires WellFormed2D(s) && o.zMax != o.zMin
    ensures |r| == |s.xs|
  {
    seq(|s.xs|, i requires 0 <= i < |s.xs| => Sample2D(s, i, t, o, jet))
  }

  /**
   * A 3D range-camera scan: sensor-frame points and, when present, an
   * intensity image whose pixels are listed row by row (the loop walks the
   * image one pixel per reading, so reading `i` meets pixel `i`).
   */
  datatype Scan3D = Scan3D(
    hasPoints3D: bool, xs: seq<real>, ys: seq<real>, zs: seq<real>,
    hasIntensityImage: bool, width: nat, height: nat, pixels: seq<nat>)

  predicate WellFormed3D(s: Scan3D)
  {
    |s.ys| == |s.xs| && |s.zs| == |s.xs| && |s.pixels| == s.width * s.height
  }

  /** The image is used only when it has one pixel per reading. */
  predicate UsableImage(s: Scan3D)
  {
    s.hasIntensityImage && |s.xs| == s.width * s.height
  }

  /** The grey level of reading `i`: its 8-bit pixel times 1/255, or 1 without a usable image. */
  function Intensity(s: Scan3D, i: nat): real
    requires WellFormed3D(s) && i < |s.xs|
  {
    if UsableImage(s) then (s.pixels[i] as real) * (1.0 / 255.0) else 1.0
  }

  /** Reading `i` of a 3D scan: valid when both its x and its y are non-zero. */
  function Sample3D(s: Scan3D, i: nat, t: Transform, o: ColourOptions, jet: real -> Colour): Sample
    requires WellFormed3D(s) && i < |s.xs| && o.zMax != o.zMin
  {
    if s.xs[i] != 0.0 && s.ys[i] != 0.0 then
      Valid(Pt(Apply(t, s.xs[i], s.ys[i], s.zs[i]),
               Colouring(o, jet, RelZ(t, s.xs[i], s.ys[i], s.zs[i]), Intensity(s, i))))
    else Invalid
  }

  function Samples3D(s: Scan3D, t: Transform, o: ColourOptions, jet: real -> Colour): (r: seq<Sample>)
    requires WellFormed3D(s) && o.zMax != o.zMin
    ensures |r| == |s.xs|
  {
    seq(|s.xs|, i requires 0 <= i < |s.xs| => Sample3D(s, i, t, o, jet))
  }

  // ---------------------------------------------------------------------
  // Pushing the points
  // ---------------------------------------------------------------------

  /** `m_min_dist` of a point inserted from a scan. */
  const ScanMinDist: real := 10000.0

  /** One push on all eight vectors: weight 1 and `m_min_dist` 1e4. */
  function PushScanned(c: Columns, pt: Pt): Columns
  {
    Columns(c.x + [pt.p.x], c.y + [pt.p.y], c.z + [pt.p.z], c.weight + [1],
            c.r + [pt.colour.r], c.g + [pt.colour.g], c.b + [pt.colour.b], c.minDist + [ScanMinDist])
  }

  /** The vectors after pushing the given points in order. */
  function AppendScan(c: Columns, pts: seq<Pt>): Columns
  {
    if |pts| == 0 then c
    else PushScanned(AppendScan(c, pts[..|pts| - 1]), pts[|pts| - 1])
  }

  /**
   * `d` is `c` followed by the points `pts`: the existing points are kept,
   * and each new one has weight 1 and `m_min_dist` 1e4.
   */
  predicate Appended(c: Columns, d: Columns, pts: seq<Pt>)
    requires Aligned(c) && |c.minDist| == Count(c)
  {
    Aligned(d) && Count(d) == Count(c) + |pts| && |d.minDist| == Count(d) &&
    (forall i :: 0 <= i < Count(c) ==>
      PointAt(d, i) == PointAt(c, i) && ColourAt(d, i) == ColourAt(c, i) &&
      d.weight[i] == c.weight[i] && d.minDist[i] == c.minDist[i]) &&
    (forall k :: 0 <= k < |pts| ==>
      PointAt(d, Count(c) + k) == pts[k].p && ColourAt(d, Count(c) + k) == pts[k].colour &&
      d.weight[Count(c) + k] == 1 && d.minDist[Count(c) + k] == ScanMinDist)
  }

  /** On aligned vectors, the scan's points follow the existing ones. */
  lemma {:induction false} AppendScanAppends(c: Columns, pts: seq<Pt>)
    requires Aligned(c) && |c.minDist| == Count(c)
    ensures Appended(c, AppendScan(c, pts), pts)
  {
    if |pts| > 0 {
      var n := |pts| - 1;
      AppendScanAppends(c, pts[..n]);
      assert pts[..n] + [pts[n]] == pts;
      AppendedPush(c, AppendScan(c, pts[..n]), pts[..n], pts[n]);
    }
  }

  lemma AppendedPush(c: Columns, d: Columns, pts: seq<Pt>, pt: Pt)
    requires Aligned(c) && |c.minDist| == Count(c) && Appended(c, d, pts)
    ensures Appended(c, PushScanned(d, pt), pts + [pt])
  {
    var e := PushScanned(d, pt);
    var q := pts + [pt];
    assert forall k :: 0 <= k < |pts| ==> q[k] == pts[k];
    assert forall i :: 0 <= i < Count(d) ==> PointAt(e, i) == PointAt(d, i) && ColourAt(e, i) == ColourAt(d, i);
    forall k | 0 <= k < |q|
      ensures PointAt(e, Count(c) + k) == q[k].p && ColourAt(e, Count(c) + k) == q[k].colour
      ensures e.weight[Count(c) + k] == 1 && e.minDist[Count(c) + k] == ScanMinDist
    {
      if k == |pts| {
        assert Count(c) + k == Count(d);
      }
    }
  }

  lemma AppendScanSnoc(c: Columns, pts: seq<Pt>, pt: Pt)
    ensures AppendScan(c, pts + [pt]) == PushScanned(AppendScan(c, pts), pt)
  {
    assert (pts + [pt])[..|pts|] == pts;
  }
}
