/**
 * `CColouredPointsMap`: a points map whose points carry an RGB colour. The
 * class keeps its points as parallel vectors (coordinates, weights, colours
 * and `m_min_dist`), fills them from 2D and 3D range scans, fuses another
 * map into them, deletes the points a new scan shows to be free space, and
 * stores them in an archive. Every method is proved against the functions
 * of the modules it imports, whose properties are proved there.
 */
module ColouredPointsMap {
  import opened Streams
  import opened ColouredPoints
  import opened RangeScan
  import opened PointFusion
  import opened ColouredPointsStream
  import Polygon

  // ---------------------------------------------------------------------
  // What the class calls but does not define
  // ---------------------------------------------------------------------

  /**
   * The code outside this class that inserting an observation calls:
   * `jet2rgb`, `computeMatchingWith2D` (this map, the other map and the
   * largest distance of a pair), `CPolygon::PointIntoPolygon`,
   * `CObservation2DRangeScan::isPlanarScan`, and the value the uninitialised
   * `lx, ly, lz` hold when a scan has no reading at all.
   */
  datatype Environment = Environment(
    jet: real -> Colour,
    matcher: (Columns, Columns, real) -> seq<Correspondence>,
    inside: (seq<Polygon.Vertex>, real, real) -> bool,
    isPlanarScan: (Scan2D, real) -> bool,
    uninit: Point3)

  /** The matcher pairs only points that this map has. */
  ghost predicate MatcherSound(matcher: (Columns, Columns, real) -> seq<Correspondence>)
  {
    forall c, other, d :: CorrsIn(matcher(c, other, d), Count(c))
  }

  /**
   * The observations `internal_insertObservation` tells apart. `sensor` is
   * the sensor pose composed with the robot pose, as a homogeneous matrix.
   */
  datatype Observation =
    | Laser2D(laser: Scan2D, sensor: Transform)
    | Range3D(range: Scan3D, sensor: Transform)
    | OtherObservation

  // ---------------------------------------------------------------------
  // loadFromRangeScan
  // ---------------------------------------------------------------------

  /** Unless the scan is to be added to the map, every vector is emptied first. */
  function Base(c: Columns, addToExisting: bool): Columns
  {
    if addToExisting then c else ClearedAll(c)
  }

  predicate AnyValid2D(s: Scan2D)
  {
    exists i :: 0 <= i < |s.valid| && s.valid[i]
  }

  predicate AnyValid3D(s: Scan3D)
  {
    exists i :: 0 <= i < |s.xs| && i < |s.ys| && s.xs[i] != 0.0 && s.ys[i] != 0.0
  }

  lemma {:induction false} AppendScanIndexable(c: Columns, pts: seq<Pt>)
    ensures Indexable(c) ==> Indexable(AppendScan(c, pts))
    ensures Count(AppendScan(c, pts)) == Count(c) + |pts|
  {
    if |pts| > 0 {
      AppendScanIndexable(c, pts[..|pts| - 1]);
    }
  }

  /**
   * The status and the vectors `loadFromRangeScan` leaves after a 2D scan:
   * `ASSERT_(z_max != z_min)` fails after the clear, an unknown colour
   * scheme throws at the first valid reading, before it is inserted;
   * otherwise the decimated readings are pushed.
   */
  function Loaded2D(c: Columns, options: InsertionOptions, o: ColourOptions, scan: Scan2D,
                    t: Transform, jet: real -> Colour, uninit: Point3): (r: (Status, Columns))
    requires WellFormed2D(scan)
    ensures Indexable(c) ==> Indexable(r.1)
    ensures r.0.Failure? ==> r.1 == Base(c, options.addToExistingPointsMap)
  {
    var base := Base(c, options.addToExistingPointsMap);
    if o.zMax == o.zMin then (Failure(EqualHeightLimits), base)
    else if !KnownScheme(o.scheme) && AnyValid2D(scan) then (Failure(UnknownColourScheme), base)
    else
      var pts := Decimated(Samples2D(scan, t, o, jet), Spacing(options.minDistBetweenLaserPoints), uninit);
      AppendScanIndexable(base, pts);
      (Success, AppendScan(base, pts))
  }

  /**
   * The same for a 3D scan; a scan without points returns right after the
   * clear, before the assertion on the colour heights.
   */
  function Loaded3D(c: Columns, options: InsertionOptions, o: ColourOptions, scan: Scan3D,
                    t: Transform, jet: real -> Colour, uninit: Point3): (r: (Status, Columns))
    requires WellFormed3D(scan)
    ensures Indexable(c) ==> Indexable(r.1)
    ensures r.0.Failure? ==> r.1 == Base(c, options.addToExistingPointsMap)
  {
    var base := Base(c, options.addToExistingPointsMap);
    if !scan.hasPoints3D then (Success, base)
    else if o.zMax == o.zMin then (Failure(EqualHeightLimits), base)
    else if !KnownScheme(o.scheme) && AnyValid3D(scan) then (Failure(UnknownColourScheme), base)
    else
      var pts := Decimated(Samples3D(scan, t, o, jet), Spacing(options.minDistBetweenLaserPoints), uninit);
      AppendScanIndexable(base, pts);
      (Success, AppendScan(base, pts))
  }

  // ---------------------------------------------------------------------
  // internal_insertObservation
  // ---------------------------------------------------------------------

  /** The polygon `setAllVertices` builds from the x and y of a map's points. */
  function ScanPolygon(aux: Columns): (pol: seq<Polygon.Vertex>)
    requires |aux.y| >= Count(aux)
    ensures |pol| == Count(aux)
  {
    Polygon.Zip(aux.x[..Count(aux)], aux.y[..Count(aux)])
  }

  /** `checkForDeletion` after the polygon test: still marked, and inside the polygon. */
  function Marked(check: seq<bool>, c: Columns, pol: seq<Polygon.Vertex>,
                  inside: (seq<Polygon.Vertex>, real, real) -> bool): (m: seq<bool>)
    requires |check| == Count(c) && |c.y| >= Count(c)
    ensures |m| == |check|
  {
    seq(|check|, i requires 0 <= i < |check| => check[i] && inside(pol, c.x[i], c.y[i]))
  }

  /** The compaction keeps a point exactly when it was not marked or lies outside the polygon. */
  lemma MarkedKeeps(check: seq<bool>, c: Columns, pol: seq<Polygon.Vertex>,
                    inside: (seq<Polygon.Vertex>, real, real) -> bool)
    requires Indexable(c) && |check| == Count(c)
    ensures var d, idx := Compacted(c, Marked(check, c, pol, inside)), KeptIndices(Marked(check, c, pol, inside));
      Aligned(d) && Count(d) == |idx| &&
      (forall k :: 0 <= k < |idx| ==> idx[k] < Count(c) && PointAt(d, k) == PointAt(c, idx[k]) && ColourAt(d, k) == ColourAt(c, idx[k])) &&
      (forall i :: 0 <= i < Count(c) ==> (i in idx <==> !check[i] || !inside(pol, c.x[i], c.y[i])))
  {
    CompactedKeepsUnmarked(c, Marked(check, c, pol, inside));
  }

  /** What inserting an observation returns and leaves. */
  datatype Outcome = Outcome(inserted: bool, status: Status, cols: Columns, options: InsertionOptions)

  /**
   * A 2D scan. A planar map takes only planar scans. With fusion, the scan
   * is loaded into a fresh auxiliary map (default colours, not added to
   * anything) and fused into this one, and the points that were not fused
   * are the candidates for deletion; without it, the option
   * `addToExistingPointsMap` is switched on for good, the scan is loaded into
   * this map, and every point is a candidate. Unless deletion is disabled,
   * the candidates inside the polygon of the auxiliary map's points are
   * removed.
   */
  function Insert2D(c: Columns, options: InsertionOptions, o: ColourOptions, scan: Scan2D,
                    t: Transform, env: Environment): Outcome
    requires Indexable(c) && WellFormed2D(scan) && MatcherSound(env.matcher)
  {
    if options.isPlanarMap && !env.isPlanarScan(scan, options.horizontalTolerance) then
      Outcome(false, Success, c, options)
    else if options.fuseWithExisting then
      var aux := Loaded2D(Empty, options.(addToExistingPointsMap := false), DefaultColourOptions, scan, t, env.jet, env.uninit).1;
      var f := Fuse(c, aux, env.matcher(c, aux, options.minDistBetweenLaserPoints), Count(aux), true);
      if f.failed then Outcome(false, Failure(ZeroFusedWeight), f.cols, options)
      else if options.disableDeletion then Outcome(true, Success, f.cols, options)
      else Outcome(true, Success, Compacted(f.cols, Marked(f.notFused, f.cols, ScanPolygon(aux), env.inside)), options)
    else
      var opts := options.(addToExistingPointsMap := true);
      var loaded := Loaded2D(c, opts, o, scan, t, env.jet, env.uninit);
      if loaded.0.Failure? then Outcome(false, loaded.0, loaded.1, opts)
      else if opts.disableDeletion then Outcome(true, Success, loaded.1, opts)
      else Outcome(true, Success, Compacted(loaded.1, Marked(Constant(Count(loaded.1), true), loaded.1, [], env.inside)), opts)
  }

  /** A 3D scan: never into a planar map, fused or added as a 2D scan is, and nothing is deleted. */
  function Insert3D(c: Columns, options: InsertionOptions, o: ColourOptions, scan: Scan3D,
                    t: Transform, env: Environment): Outcome
    requires Indexable(c) && WellFormed3D(scan) && MatcherSound(env.matcher)
  {
    if options.isPlanarMap then Outcome(false, Success, c, options)
    else if options.fuseWithExisting then
      var aux := Loaded3D(Empty, options.(addToExistingPointsMap := false), DefaultColourOptions, scan, t, env.jet, env.uninit).1;
      var f := Fuse(c, aux, env.matcher(c, aux, options.minDistBetweenLaserPoints), Count(aux), true);
      if f.failed then Outcome(false, Failure(ZeroFusedWeight), f.cols, options)
      else Outcome(true, Success, f.cols, options)
    else
      var opts := options.(addToExistingPointsMap := true);
      var loaded := Loaded3D(c, opts, o, scan, t, env.jet, env.uninit);
      if loaded.0.Failure? then Outcome(false, loaded.0, loaded.1, opts)
      else Outcome(true, Success, loaded.1, opts)
  }

  predicate Acceptable(obs: Observation)
  {
    (obs.Laser2D? ==> WellFormed2D(obs.laser)) && (obs.Range3D? ==> WellFormed3D(obs.range))
  }

  function Insert(c: Columns, options: InsertionOptions, o: ColourOptions, obs: Observation, env: Environment): Outcome
    requires Indexable(c) && Acceptable(obs) && MatcherSound(env.matcher)
  {
    match obs
    case Laser2D(scan, t) => Insert2D(c, options, o, scan, t, env)
    case Range3D(scan, t) => Insert3D(c, options, o, scan, t, env)
    case OtherObservation => Outcome(false, Success, c, options)
  }

  lemma {:induction false} FuseNeverFails(c: Columns, other: Columns, corrs: seq<Correspondence>, n: nat)
    requires Indexable(c) && Indexable(other) && n <= Count(other) && CorrsIn(corrs, Count(c))
    requires forall i :: 0 <= i < n ==> other.weight[i] > 0
    ensures !Fuse(c, other, corrs, n, true).failed
  {
    if n > 0 {
      FuseNeverFails(c, other, corrs, n - 1);
    }
  }

  /** Every point of a map freshly loaded from a scan has weight 1. */
  lemma {:induction false} FreshWeights(pts: seq<Pt>)
    ensures var aux := AppendScan(Empty, pts);
      Aligned(aux) && Indexable(aux) && Count(aux) == |pts| && forall i :: 0 <= i < Count(aux) ==> aux.weight[i] == 1
  {
    if |pts| > 0 {
      var n := |pts| - 1;
      FreshWeights(pts[..n]);
      var prev, aux := AppendScan(Empty, pts[..n]), AppendScan(Empty, pts);
      assert aux == PushScanned(prev, pts[n]);
      forall i | 0 <= i < Count(aux)
        ensures aux.weight[i] == 1
      {
        if i < n {
          assert aux.weight[i] == prev.weight[i];
        }
      }
    }
  }

  /**
   * The weight check inside the fusion never fires when a scan is inserted:
   * the auxiliary map's points all have weight 1.
   */
  lemma InsertFusedSucceeds(c: Columns, options: InsertionOptions, o: ColourOptions, obs: Observation, env: Environment)
    requires Indexable(c) && Acceptable(obs) && MatcherSound(env.matcher)
    requires options.fuseWithExisting
    ensures Insert(c, options, o, obs, env).status == Success
  {
    var aux := options.(addToExistingPointsMap := false);
    match obs
    case Laser2D(scan, t) =>
      var pts := Decimated(Samples2D(scan, t, DefaultColourOptions, env.jet), Spacing(options.minDistBetweenLaserPoints), env.uninit);
      var a := Loaded2D(Empty, aux, DefaultColourOptions, scan, t, env.jet, env.uninit).1;
      assert ClearedAll(Empty) == Empty;
      assert a == AppendScan(Empty, pts);
      FreshWeights(pts);
      FuseNeverFails(c, a, env.matcher(c, a, options.minDistBetweenLaserPoints), Count(a));
    case Range3D(scan, t) =>
      var a := Loaded3D(Empty, aux, DefaultColourOptions, scan, t, env.jet, env.uninit).1;
      assert ClearedAll(Empty) == Empty;
      if scan.hasPoints3D {
        var pts := Decimated(Samples3D(scan, t, DefaultColourOptions, env.jet), Spacing(options.minDistBetweenLaserPoints), env.uninit);
        assert a == AppendScan(Empty, pts);
        FreshWeights(pts);
      }
      FuseNeverFails(c, a, env.matcher(c, a, options.minDistBetweenLaserPoints), Count(a));
    case OtherObservation =>
  }

  /**
   * As written, when the matcher pairs points closer than 1000 to each
   * other, inserting a 2D scan with fusion appends every point of the scan
   * and then deletes every old point inside the scan's polygon: the old
   * points that survive are exactly those outside it.
   */
  lemma InsertFusedAsWritten(c: Columns, options: InsertionOptions, o: ColourOptions, scan: Scan2D, t: Transform, env: Environment)
    requires Indexable(c) && WellFormed2D(scan) && MatcherSound(env.matcher)
    requires options.fuseWithExisting && !options.disableDeletion && !options.isPlanarMap
    requires forall a, b, d, k :: 0 <= k < |env.matcher(a, b, d)| ==> CorrDist(env.matcher(a, b, d)[k]) <= FarAway
    ensures var aux := Loaded2D(Empty, options.(addToExistingPointsMap := false), DefaultColourOptions, scan, t, env.jet, env.uninit).1;
      var f := Fuse(c, aux, env.matcher(c, aux, options.minDistBetweenLaserPoints), Count(aux), true);
      var mask := Marked(f.notFused, f.cols, ScanPolygon(aux), env.inside);
      var r := Insert2D(c, options, o, scan, t, env);
      r.inserted && r.status == Success && r.cols == Compacted(f.cols, mask) &&
      Count(f.cols) == Count(c) + Count(aux) &&
      forall i :: 0 <= i < Count(f.cols) ==>
        (i in KeptIndices(mask) <==> i >= Count(c) || !env.inside(ScanPolygon(aux), f.cols.x[i], f.cols.y[i]))
  {
    var aux := Loaded2D(Empty, options.(addToExistingPointsMap := false), DefaultColourOptions, scan, t, env.jet, env.uninit).1;
    var corrs := env.matcher(c, aux, options.minDistBetweenLaserPoints);
    assert Indexable(aux) by { assert Indexable(Empty); }
    AsWrittenAppendsAll(c, aux, corrs, Count(aux));
    var f := Fuse(c, aux, corrs, Count(aux), true);
    MarkedKeeps(f.notFused, f.cols, ScanPolygon(aux), env.inside);
  }

  /**
   * Without fusion, a scan that loads is appended to the map, the option
   * `addToExistingPointsMap` is left on, and no point is deleted when the
   * (empty) polygon contains nothing.
   */
  lemma InsertAddedKeepsAll(c: Columns, options: InsertionOptions, o: ColourOptions, scan: Scan2D, t: Transform, env: Environment)
    requires Aligned(c) && |c.minDist| == Count(c) && WellFormed2D(scan) && MatcherSound(env.matcher)
    requires !options.fuseWithExisting && !options.isPlanarMap
    requires o.zMax != o.zMin && KnownScheme(o.scheme)
    requires forall x, y :: !env.inside([], x, y)
    ensures var pts := Decimated(Samples2D(scan, t, o, env.jet), Spacing(options.minDistBetweenLaserPoints), env.uninit);
      var r := Insert2D(c, options, o, scan, t, env);
      r.inserted && r.status == Success && r.options.addToExistingPointsMap &&
      r.cols == AppendScan(c, pts) && Count(r.cols) == Count(c) + |pts|
  {
    var opts := options.(addToExistingPointsMap := true);
    var pts := Decimated(Samples2D(scan, t, o, env.jet), Spacing(options.minDistBetweenLaserPoints), env.uninit);
    var loaded := Loaded2D(c, opts, o, scan, t, env.jet, env.uninit);
    assert loaded == (Success, AppendScan(c, pts));
    AppendScanAppends(c, pts);
    if !options.disableDeletion {
      var mask := Marked(Constant(Count(loaded.1), true), loaded.1, [], env.inside);
      forall i | 0 <= i < |mask|
        ensures !mask[i]
      {
        var x, y := loaded.1.x[i], loaded.1.y[i];
        assert !env.inside([], x, y);
      }
      CompactedNothing(loaded.1, mask);
    }
  }

  // ---------------------------------------------------------------------
  // Pieces of the loops
  // ---------------------------------------------------------------------

  /**
   * The colour `switch` of `loadFromRangeScan`, given `Az_1_color`;
   * `known` is false for a scheme that throws.
   */
  method SchemeColour(o: ColourOptions, inv: real, jet: real -> Colour, relZ: real, intensity: real)
    returns (known: bool, colour: Colour)
    requires o.zMax != o.zMin && inv == 1.0 / (o.zMax - o.zMin)
    ensures known == KnownScheme(o.scheme)
    ensures known ==> colour == Colouring(o, jet, relZ, intensity)
  {
    known := true;
    if o.scheme == Jet || o.scheme == Gray {
      var q := Clamp01((relZ - o.zMin) * inv);
      assert q == HeightFraction(o, relZ);
      if o.scheme == Gray {
        colour := Colour(q, q, q);
      } else {
        colour := jet(q);
      }
    } else if o.scheme == FromIntensityImage {
      colour := Colour(intensity, intensity, intensity);
    } else {
      known, colour := false, White;
    }
  }

  /** The advance of the image column and row after a reading. */
  method NextPixel(x: nat, y: nat, width: nat) returns (x': nat, y': nat)
    requires x < width
    ensures y' * width + x' == y * width + x + 1 && x' < width
  {
    x', y' := x + 1, y;
    if x' >= width {
      assert (y + 1) * width == y * width + width;
      x', y' := 0, y + 1;
    }
  }

  /**
   * The loop of `loadFromRangeScan` over the readings of a 2D scan: each
   * valid reading is coloured, and pushed when it is the first or lies
   * farther than the spacing from the last pushed one; the last valid
   * reading is pushed at the end when it was skipped.
   */
  method DecimateScan2D(base: Columns, scan: Scan2D, t: Transform, o: ColourOptions, spacing: real,
                        jet: real -> Colour, uninit: Point3) returns (st: Status, c: Columns)
    requires WellFormed2D(scan) && o.zMax != o.zMin
    ensures st.Failure? <==> !KnownScheme(o.scheme) && AnyValid2D(scan)
    ensures st.Failure? ==> st.error == UnknownColourScheme
    ensures st.Success? ==> c == AppendScan(base, Decimated(Samples2D(scan, t, o, jet), spacing, uninit))
  {
    c := base;
    var inv := 1.0 / (o.zMax - o.zMin);
    ghost var samples := Samples2D(scan, t, o, jet);
    var first, lastValid, lastInserted := true, true, false;
    var prev := Unset;
    var cur := Pt(uninit, White);
    ghost var out: seq<Pt> := [];
    var i := 0;
    while i < |scan.xs|
      invariant 0 <= i <= |scan.xs|
      modifies {}
      invariant Run(samples[..i], spacing, uninit) == Cursor(first, lastValid, lastInserted, prev, cur, out)
      invariant c == AppendScan(base, out)
      invariant !KnownScheme(o.scheme) ==> first
    {
      RunStep(samples, i, spacing, uninit);
      ghost var k := Cursor(first, lastValid, lastInserted, prev, cur, out);
      var known;
      known, first, lastValid, lastInserted, prev, cur, c :=
        Visit2D(scan, t, o, inv, jet, i, spacing, first, lastValid, lastInserted, prev, cur, c, base, k);
      if !known {
        assert AnyValid2D(scan);
        return Failure(UnknownColourScheme), c;
      }
      out := Step(k, samples[i], spacing).out;
      i := i + 1;
    }
    assert samples[..i] == samples;
    if !KnownScheme(o.scheme) {
      NoneValid2D(scan, t, o, jet, spacing, uninit);
    }
    c := Flush(lastValid, lastInserted, cur, c, base, samples, spacing, uninit, Cursor(first, lastValid, lastInserted, prev, cur, out));
    st := Success;
  }

  /**
   * The same loop over a 3D scan; the intensity image, when usable, is
   * walked with a column and a row index, one pixel per reading.
   */
  method DecimateScan3D(base: Columns, scan: Scan3D, t: Transform, o: ColourOptions, spacing: real,
                        jet: real -> Colour, uninit: Point3) returns (st: Status, c: Columns)
    requires WellFormed3D(scan) && o.zMax != o.zMin
    ensures st.Failure? <==> !KnownScheme(o.scheme) && AnyValid3D(scan)
    ensures st.Failure? ==> st.error == UnknownColourScheme
    ensures st.Success? ==> c == AppendScan(base, Decimated(Samples3D(scan, t, o, jet), spacing, uninit))
  {
    c := base;
    var usable := scan.hasIntensityImage && |scan.xs| == scan.width * scan.height;
    var inv := 1.0 / (o.zMax - o.zMin);
    ghost var samples := Samples3D(scan, t, o, jet);
    var first, lastValid, lastInserted := true, true, false;
    var prev := Unset;
    var cur := Pt(uninit, White);
    ghost var out: seq<Pt> := [];
    var imgX: nat, imgY: nat := 0, 0;
    var i := 0;
    while i < |scan.xs|
      invariant 0 <= i <= |scan.xs|
      modifies {}
      invariant usable ==> imgY * scan.width + imgX == i && (i < |scan.xs| ==> imgX < scan.width)
      invariant Run(samples[..i], spacing, uninit) == Cursor(first, lastValid, lastInserted, prev, cur, out)
      invariant c == AppendScan(base, out)
      invariant !KnownScheme(o.scheme) ==> first
    {
      RunStep(samples, i, spacing, uninit);
      ghost var k := Cursor(first, lastValid, lastInserted, prev, cur, out);
      var known;
      known, first, lastValid, lastInserted, prev, cur, c :=
        Visit3D(scan, t, o, inv, jet, usable, imgX, imgY, i, spacing, first, lastValid, lastInserted, prev, cur, c, base, k);
      if !known {
        assert AnyValid3D(scan);
        return Failure(UnknownColourScheme), c;
      }
      out := Step(k, samples[i], spacing).out;
      if usable {
        imgX, imgY := NextPixel(imgX, imgY, scan.width);
      }
      i := i + 1;
    }
    assert samples[..i] == samples;
    if !KnownScheme(o.scheme) {
      NoneValid3D(scan, t, o, jet, spacing, uninit);
    }
    c := Flush(lastValid, lastInserted, cur, c, base, samples, spacing, uninit, Cursor(first, lastValid, lastInserted, prev, cur, out));
    st := Success;
  }

  /**
   * The body of the decimation loop for a valid reading: the point is
   * pushed when it is the first, or when the reading before was valid and
   * it lies farther than the spacing from the last pushed point.
   */
  method Consider(first: bool, lastValid: bool, prev: Point3, pt: Pt, spacing: real, c: Columns,
                  ghost base: Columns, ghost k: Cursor)
    returns (first': bool, lastInserted: bool, prev': Point3, c': Columns)
    requires k.first == first && k.lastValid == lastValid && k.prev == prev && c == AppendScan(base, k.out)
    ensures var n := Step(k, Valid(pt), spacing);
      n == Cursor(first', true, lastInserted, prev', pt, n.out) && c' == AppendScan(base, n.out)
  {
    first', lastInserted, prev', c' := first, false, prev, c;
    if first || (lastValid && SqDist(pt.p, prev) > spacing) {
      first' := false;
      AppendScanSnoc(base, k.out, pt);
      c' := PushScanned(c, pt);
      lastInserted := true;
      prev' := pt.p;
    }
  }

  /** A scan whose loop never leaves `thisIsTheFirst` has no valid reading. */
  lemma NoneValid2D(scan: Scan2D, t: Transform, o: ColourOptions, jet: real -> Colour, spacing: real, uninit: Point3)
    requires WellFormed2D(scan) && o.zMax != o.zMin
    requires Run(Samples2D(scan, t, o, jet), spacing, uninit).first
    ensures !AnyValid2D(scan)
  {
    var samples := Samples2D(scan, t, o, jet);
    RunConsistent(samples, spacing, uninit);
    forall i | 0 <= i < |scan.valid|
      ensures !(scan.valid[i])
    {
      assert samples[i].Invalid?;
    }
  }

  lemma NoneValid3D(scan: Scan3D, t: Transform, o: ColourOptions, jet: real -> Colour, spacing: real, uninit: Point3)
    requires WellFormed3D(scan) && o.zMax != o.zMin
    requires Run(Samples3D(scan, t, o, jet), spacing, uninit).first
    ensures !AnyValid3D(scan)
  {
    var samples := Samples3D(scan, t, o, jet);
    RunConsistent(samples, spacing, uninit);
    forall i | 0 <= i < |scan.xs|
      ensures !(i < |scan.ys| && scan.xs[i] != 0.0 && scan.ys[i] != 0.0)
    {
      assert samples[i].Invalid?;
    }
  }

  /**
   * The body of the 2D loop: a valid reading is coloured and considered
   * for a push; `known` is false when the colour scheme throws.
   */
  method Visit2D(scan: Scan2D, t: Transform, o: ColourOptions, inv: real, jet: real -> Colour, i: nat, spacing: real,
                 first: bool, lastValid: bool, lastInserted: bool, prev: Point3, cur: Pt, c: Columns,
                 ghost base: Columns, ghost k: Cursor)
    returns (known: bool, first': bool, lastValid': bool, lastInserted': bool, prev': Point3, cur': Pt, c': Columns)
    requires WellFormed2D(scan) && i < |scan.xs|
    requires o.zMax != o.zMin && inv == 1.0 / (o.zMax - o.zMin)
    requires k == Cursor(first, lastValid, lastInserted, prev, cur, k.out) && c == AppendScan(base, k.out)
    ensures known <==> KnownScheme(o.scheme) || !scan.valid[i]
    ensures known ==> var n := Step(k, Samples2D(scan, t, o, jet)[i], spacing);
      n == Cursor(first', lastValid', lastInserted', prev', cur', n.out) && c' == AppendScan(base, n.out)
  {
    known, first', lastValid', lastInserted', prev', cur', c' := true, first, false, lastInserted, prev, cur, c;
    if scan.valid[i] {
      var relZ := RelZ(t, scan.xs[i], scan.ys[i], 0.0);
      var p := Apply(t, scan.xs[i], scan.ys[i], 0.0);
      var colour;
      known, colour := SchemeColour(o, inv, jet, relZ, 1.0);
      if known {
        first', lastInserted', prev', c' := Consider(first, lastValid, prev, Pt(p, colour), spacing, c, base, k);
        lastValid', cur' := true, Pt(p, colour);
      }
    }
  }

  /**
   * The body of the 3D loop: a valid reading is coloured and considered
   * for a push; `known` is false when the colour scheme throws.
   */
  method Visit3D(scan: Scan3D, t: Transform, o: ColourOptions, inv: real, jet: real -> Colour,
                 usable: bool, imgX: nat, imgY: nat, i: nat, spacing: real,
                 first: bool, lastValid: bool, lastInserted: bool, prev: Point3, cur: Pt, c: Columns,
                 ghost base: Columns, ghost k: Cursor)
    returns (known: bool, first': bool, lastValid': bool, lastInserted': bool, prev': Point3, cur': Pt, c': Columns)
    requires WellFormed3D(scan) && i < |scan.xs| && usable == UsableImage(scan)
    requires usable ==> imgY * scan.width + imgX == i
    requires o.zMax != o.zMin && inv == 1.0 / (o.zMax - o.zMin)
    requires k == Cursor(first, lastValid, lastInserted, prev, cur, k.out) && c == AppendScan(base, k.out)
    ensures known <==> KnownScheme(o.scheme) || !(scan.xs[i] != 0.0 && scan.ys[i] != 0.0)
    ensures known ==> var n := Step(k, Samples3D(scan, t, o, jet)[i], spacing);
      n == Cursor(first', lastValid', lastInserted', prev', cur', n.out) && c' == AppendScan(base, n.out)
  {
    known, first', lastValid', lastInserted', prev', cur', c' := true, first, false, lastInserted, prev, cur, c;
    if scan.xs[i] != 0.0 && scan.ys[i] != 0.0 {
      var pt;
      known, pt := Reading3D(scan, t, o, inv, jet, usable, imgX, imgY, i);
      if known {
        first', lastInserted', prev', c' := Consider(first, lastValid, prev, pt, spacing, c, base, k);
        lastValid', cur' := true, pt;
      }
    }
  }

  /** After the loop: the last valid reading is pushed when it was skipped. */
  method Flush(lastValid: bool, lastInserted: bool, cur: Pt, c: Columns, ghost base: Columns,
               ghost samples: seq<Sample>, spacing: real, uninit: Point3, ghost k: Cursor) returns (c': Columns)
    requires Run(samples, spacing, uninit) == k
    requires k.lastValid == lastValid && k.lastInserted == lastInserted && k.cur == cur && c == AppendScan(base, k.out)
    ensures c' == AppendScan(base, Decimated(samples, spacing, uninit))
  {
    if lastValid && !lastInserted {
      AppendScanSnoc(base, k.out, cur);
      c' := PushScanned(c, cur);
    } else {
      assert k.out + [] == k.out;
      c' := c;
    }
  }

  /** A valid reading of a 3D scan, transformed and coloured. */
  method Reading3D(scan: Scan3D, t: Transform, o: ColourOptions, inv: real, jet: real -> Colour,
                   usable: bool, imgX: nat, imgY: nat, i: nat) returns (known: bool, pt: Pt)
    requires WellFormed3D(scan) && i < |scan.xs| && usable == UsableImage(scan)
    requires usable ==> imgY * scan.width + imgX == i
    requires o.zMax != o.zMin && inv == 1.0 / (o.zMax - o.zMin)
    requires scan.xs[i] != 0.0 && scan.ys[i] != 0.0
    ensures known == KnownScheme(o.scheme)
    ensures known ==> Samples3D(scan, t, o, jet)[i] == Valid(pt)
  {
    var relZ := RelZ(t, scan.xs[i], scan.ys[i], scan.zs[i]);
    var p := Apply(t, scan.xs[i], scan.ys[i], scan.zs[i]);
    var level := GreyLevel(scan, usable, imgX, imgY, i);
    var colour;
    known, colour := SchemeColour(o, inv, jet, relZ, level);
    pt := Pt(p, colour);
  }

  /** The grey level of reading `i` read through the image cursor: its pixel of a usable intensity image times 1/255, or 1. */
  method GreyLevel(scan: Scan3D, usable: bool, imgX: nat, imgY: nat, ghost i: nat) returns (level: real)
    requires WellFormed3D(scan) && i < |scan.xs| && usable == UsableImage(scan)
    requires usable ==> imgY * scan.width + imgX == i
    ensures level == Intensity(scan, i)
  {
    if usable {
      level := (scan.pixels[imgY * scan.width + imgX] as real) * (1.0 / 255.0);
    } else {
      level := 1.0;
    }
  }

  lemma RunStep(samples: seq<Sample>, i: nat, spacing: real, uninit: Point3)
    requires i < |samples|
    ensures Run(samples[..i + 1], spacing, uninit) == Step(Run(samples[..i], spacing, uninit), samples[i], spacing)
  {
    assert samples[..i + 1][..i] == samples[..i];
  }

  /** The loop of `fuseWith` that looks for the correspondence of point `i` of the other map. */
  method SelectClosest(corrs: seq<Correspondence>, i: nat) returns (closest: int)
    ensures closest == Closest(corrs, i, true).closest
  {
    closest := -1;
    var minDist := FarAway;
    var k := 0;
    while k < |corrs|
      invariant 0 <= k <= |corrs|
      invariant Closest(corrs[..k], i, true) == Choice(minDist, closest)
    {
      assert corrs[..k + 1][..k] == corrs[..k];
      if corrs[k].otherIdx == i {
        var dist := CorrDist(corrs[k]);
        if minDist < dist {
          minDist := dist;
          closest := corrs[k].thisIdx;
        }
      }
      k := k + 1;
    }
    assert corrs[..|corrs|] == corrs;
  }

  /**
   * The loop of `fuseWith`: each point of the other map is merged into the
   * point of this map that `SelectClosest` picks, weighting both by their
   * weights, or appended when there is none. A zero weight sum stops the
   * loop with the points merged so far.
   */
  method FuseColumns(start: Columns, other: Columns, corrs: seq<Correspondence>)
    returns (st: Status, c: Columns, notFused: seq<bool>)
    requires Indexable(start) && Indexable(other) && CorrsIn(corrs, Count(start))
    ensures Fuse(start, other, corrs, Count(other), true) == Fusion(c, notFused, st.Failure?)
    ensures st.Failure? ==> st.error == ZeroFusedWeight
  {
    var f := Fusion(start, Constant(|start.x|, true), false);
    assert Fuse(start, other, corrs, 0, true) == f;
    var i := 0;
    while i < |other.x|
      invariant 0 <= i <= Count(other)
      invariant Fuse(start, other, corrs, i, true) == f && !f.failed
    {
      var r := FusePoint(f, other, corrs, i, start);
      if r.failed {
        FailedStays(start, other, corrs, i + 1, Count(other));
        return Failure(ZeroFusedWeight), f.cols, f.notFused;
      }
      f := r;
      i := i + 1;
    }
    return Success, f.cols, f.notFused;
  }

  /**
   * One iteration of the loop of `fuseWith`: the point is merged into the
   * selected point, or appended when no point is selected; `failed` is set
   * when the two weights sum to zero.
   */
  method FusePoint(f: Fusion, other: Columns, corrs: seq<Correspondence>, i: nat, ghost start: Columns) returns (r: Fusion)
    requires Indexable(start) && Indexable(other) && i < Count(other) && CorrsIn(corrs, Count(start))
    requires f == Fuse(start, other, corrs, i, true) && !f.failed
    ensures r == Fuse(start, other, corrs, i + 1, true)
  {
    assert CorrsIn(corrs, Count(f.cols));
    var c, notFused := f.cols, f.notFused;
    var closest := SelectClosest(corrs, i);
    if closest != -1 {
      var wa, wb := other.weight[i], c.weight[closest];
      if wa + wb == 0 {
        return f.(failed := true);
      }
      c := c.(x := c.x[closest := Average(wa, other.x[i], wb, c.x[closest])],
              y := c.y[closest := Average(wa, other.y[i], wb, c.y[closest])],
              z := c.z[closest := Average(wa, other.z[i], wb, c.z[closest])],
              weight := c.weight[closest := wa + wb]);
      notFused := notFused[closest := false];
    } else {
      c := Push(c, PointAt(other, i));
      notFused := notFused + [false];
    }
    r := Fusion(c, notFused, false);
  }

  /**
   * The loop of `applyDeletionMask`: one pass over the points, moving each
   * unmarked point down to the next free position of all seven vectors,
   * which are then cut to the number of points kept.
   */
  method CompactColumns(orig: Columns, mask: seq<bool>) returns (d: Columns)
    requires Indexable(orig) && |mask| == Count(orig)
    ensures d == Compacted(orig, mask)
  {
    var n := |mask|;
    var c := orig;
    CompactingStart(orig, mask);
    var i, j := 0, 0;
    while i < n
      invariant Compacting(c, orig, mask, i, j)
    {
      if !mask[i] {
        CompactingMove(c, orig, mask, i, j);
        c := MoveDown(c, i, j);
        j := j + 1;
      } else {
        CompactingSkip(c, orig, mask, i, j);
      }
      i := i + 1;
    }
    CompactingEnd(c, orig, mask, j);
    d := Columns(c.x[..j], c.y[..j], c.z[..j], c.weight[..j], c.r[..j], c.g[..j], c.b[..j], c.minDist);
  }

  /** The loop of `internal_insertObservation` that unmarks the candidates outside the polygon. */
  method MarkInside(check: seq<bool>, c: Columns, pol: seq<Polygon.Vertex>,
                    inside: (seq<Polygon.Vertex>, real, real) -> bool) returns (mask: seq<bool>)
    requires |check| == Count(c) && |c.y| >= Count(c)
    ensures mask == Marked(check, c, pol, inside)
  {
    mask := check;
    var i := 0;
    while i < |check|
      invariant 0 <= i <= |check| && |mask| == |check|
      invariant forall k :: 0 <= k < i ==> mask[k] == (check[k] && inside(pol, c.x[k], c.y[k]))
      invariant forall k :: i <= k < |check| ==> mask[k] == check[k]
    {
      if mask[i] {
        if !inside(pol, c.x[i], c.y[i]) {
          mask := mask[i := false];
        }
      }
      i := i + 1;
    }
  }

  // ---------------------------------------------------------------------
  // The class
  // ---------------------------------------------------------------------

  class CColouredPointsMap {
    var cols: Columns
    var largestDistanceFromOriginIsUpdated: bool
    var kdTreeDataIsUpdated: bool
    var insertionOptions: InsertionOptions
    var colorScheme: ColourOptions
    var disableSaveAs3DObject: bool
    var likelihoodOptions: nat

    /** The options, which no operation on the points changes. */
    twostate predicate SettingsKept()
      reads this
    {
      insertionOptions == old(insertionOptions) && colorScheme == old(colorScheme) &&
      disableSaveAs3DObject == old(disableSaveAs3DObject) && likelihoodOptions == old(likelihoodOptions)
    }

    /** Both cached values are marked out of date. */
    predicate CachesStale()
      reads this
    {
      !largestDistanceFromOriginIsUpdated && !kdTreeDataIsUpdated
    }

    /** What the archive holds of the map. */
    function Archive(): Stored
      reads this
    {
      Stored(cols, insertionOptions, disableSaveAs3DObject, likelihoodOptions)
    }

    /**
     * An empty map with the default colour options. The source's default
     * constructor takes no argument; its insertion options get the defaults
     * of `CPointsMap::TInsertionOptions`, which is not part of this model, so
     * they are a parameter here.
     */
    constructor (options: InsertionOptions)
      ensures cols == Empty && insertionOptions == options && colorScheme == DefaultColourOptions
      ensures CachesStale() && !disableSaveAs3DObject && likelihoodOptions == 0
    {
      cols := Empty;
      largestDistanceFromOriginIsUpdated := false;
      kdTreeDataIsUpdated := false;
      insertionOptions := options;
      colorScheme := DefaultColourOptions;
      disableSaveAs3DObject := false;
      likelihoodOptions := 0;
    }

    /**
     * `copyFrom`: nothing happens when the other map is this one. The source
     * accepts any `CPointsMap`; only its coordinates, weights and distance
     * cache flag are read, so a coloured map stands for any points map here.
     */
    method CopyFrom(other: CColouredPointsMap)
      modifies this
      ensures other == this ==> unchanged(this)
      ensures other != this ==>
        cols == CopiedFrom(other.cols.x, other.cols.y, other.cols.z, other.cols.weight) &&
        largestDistanceFromOriginIsUpdated == other.largestDistanceFromOriginIsUpdated &&
        !kdTreeDataIsUpdated && SettingsKept()
    {
      if other == this {
        return;
      }
      var c := other.cols;
      cols := CopiedFrom(c.x, c.y, c.z, c.weight);
      largestDistanceFromOriginIsUpdated := other.largestDistanceFromOriginIsUpdated;
      kdTreeDataIsUpdated := false;
    }

    /** `internal_clear`. */
    method Clear()
      modifies this
      ensures cols == Cleared(old(cols)) && CachesStale() && SettingsKept()
    {
      cols := cols.(x := [], y := [], z := []);
      largestDistanceFromOriginIsUpdated := false;
      kdTreeDataIsUpdated := false;
    }

    /** `setPoint(index, x, y, z)`. */
    method SetPoint(index: nat, p: Point3) returns (st: Status)
      requires Indexable(cols)
      modifies this
      ensures index >= Count(old(cols)) ==> st == Failure(IndexOutOfBounds) && unchanged(this)
      ensures index < Count(old(cols)) ==>
        st == Success && cols == SetAt(old(cols), index, p) && CachesStale() && SettingsKept()
    {
      if index >= |cols.x| {
        return Failure(IndexOutOfBounds);
      }
      cols := cols.(x := cols.x[index := p.x], y := cols.y[index := p.y], z := cols.z[index := p.z]);
      largestDistanceFromOriginIsUpdated := false;
      kdTreeDataIsUpdated := false;
      st := Success;
    }

    /** `setPoint(index, x, y)`: z becomes 0. */
    method SetPoint2D(index: nat, x: real, y: real) returns (st: Status)
      requires Indexable(cols)
      modifies this
      ensures index >= Count(old(cols)) ==> st == Failure(IndexOutOfBounds) && unchanged(this)
      ensures index < Count(old(cols)) ==>
        st == Success && cols == SetAt(old(cols), index, Point3(x, y, 0.0)) && CachesStale() && SettingsKept()
    {
      st := SetPoint(index, Point3(x, y, 0.0));
    }

    /** `getPoint(index, x, y, z, R, G, B)`. */
    method GetPoint(index: nat) returns (st: Status, p: Point3, colour: Colour)
      requires Indexable(cols)
      ensures st.Success? <==> index < Count(cols)
      ensures st.Failure? ==> st.error == IndexOutOfBounds
      ensures index < Count(cols) ==> p == PointAt(cols, index) && colour == ColourAt(cols, index)
      ensures (st, p, colour) == ColouredPoints.GetPoint(cols, index)
    {
      if index >= |cols.x| {
        return Failure(IndexOutOfBounds), Point3(0.0, 0.0, 0.0), White;
      }
      p := Point3(cols.x[index], cols.y[index], cols.z[index]);
      colour := Colour(cols.r[index], cols.g[index], cols.b[index]);
      st := Success;
    }

    /** `insertPoint`, both overloads. */
    method InsertPoint(p: Point3)
      modifies this
      ensures cols == Push(old(cols), p) && CachesStale() && SettingsKept()
    {
      cols := Columns(cols.x + [p.x], cols.y + [p.y], cols.z + [p.z], cols.weight + [1],
                      cols.r + [1.0], cols.g + [1.0], cols.b + [1.0], cols.minDist);
      largestDistanceFromOriginIsUpdated := false;
      kdTreeDataIsUpdated := false;
    }

    /** `setAllPoints(X, Y, Z)`. */
    method SetAllPoints(xs: seq<real>, ys: seq<real>, zs: seq<real>)
      modifies this
      ensures cols == AllPoints(old(cols), xs, ys, zs) && CachesStale() && SettingsKept()
    {
      var n := |xs|;
      cols := Columns(xs, ys, zs, Constant(n, 1), Constant(n, 1.0), Constant(n, 1.0), Constant(n, 1.0), cols.minDist);
      largestDistanceFromOriginIsUpdated := false;
      kdTreeDataIsUpdated := false;
    }

    /** `setAllPoints(X, Y)`: every z becomes 0. */
    method SetAllPoints2D(xs: seq<real>, ys: seq<real>)
      modifies this
      ensures cols == AllPoints(old(cols), xs, ys, Constant(|xs|, 0.0)) && CachesStale() && SettingsKept()
    {
      SetAllPoints(xs, ys, Constant(|xs|, 0.0));
    }

    /** `resetPointsMinDist`. */
    method ResetPointsMinDist(value: real)
      modifies this
      ensures cols == old(cols).(minDist := Constant(Count(old(cols)), value))
      ensures largestDistanceFromOriginIsUpdated == old(largestDistanceFromOriginIsUpdated)
      ensures kdTreeDataIsUpdated == old(kdTreeDataIsUpdated) && SettingsKept()
    {
      cols := cols.(minDist := Constant(|cols.x|, value));
    }

    /**
     * `applyDeletionMask`: the seven point vectors are compacted in one pass
     * with a read index and a write index, then cut to the number of points
     * kept.
     */
    method ApplyDeletionMask(mask: seq<bool>) returns (st: Status)
      requires Indexable(cols)
      modifies this
      ensures |mask| != Count(old(cols)) ==> st == Failure(MaskSizeMismatch) && unchanged(this)
      ensures |mask| == Count(old(cols)) ==>
        st == Success && cols == Compacted(old(cols), mask) && CachesStale() && SettingsKept()
    {
      if |cols.x| != |mask| {
        return Failure(MaskSizeMismatch);
      }
      cols := CompactColumns(cols, mask);
      largestDistanceFromOriginIsUpdated := false;
      kdTreeDataIsUpdated := false;
      st := Success;
    }

    /** `loadFromRangeScan` for a 2D laser scan seen from the sensor pose `t`. */
    method LoadFromRangeScan2D(scan: Scan2D, t: Transform, jet: real -> Colour, uninit: Point3) returns (st: Status)
      requires WellFormed2D(scan)
      modifies this
      ensures (st, cols) == Loaded2D(old(cols), insertionOptions, colorScheme, scan, t, jet, uninit)
      ensures CachesStale() && SettingsKept()
    {
      largestDistanceFromOriginIsUpdated := false;
      kdTreeDataIsUpdated := false;
      if !insertionOptions.addToExistingPointsMap {
        cols := ClearedAll(cols);
      }
      if colorScheme.zMax == colorScheme.zMin {
        return Failure(EqualHeightLimits);
      }
      var c;
      st, c := DecimateScan2D(cols, scan, t, colorScheme, Spacing(insertionOptions.minDistBetweenLaserPoints), jet, uninit);
      if st.Success? {
        cols := c;
      }
    }

    /**
     * `loadFromRangeScan` for a 3D range scan. The intensity image is
     * walked with a column and a row index, one pixel per reading.
     */
    method LoadFromRangeScan3D(scan: Scan3D, t: Transform, jet: real -> Colour, uninit: Point3) returns (st: Status)
      requires WellFormed3D(scan)
      modifies this
      ensures (st, cols) == Loaded3D(old(cols), insertionOptions, colorScheme, scan, t, jet, uninit)
      ensures CachesStale() && SettingsKept()
    {
      largestDistanceFromOriginIsUpdated := false;
      kdTreeDataIsUpdated := false;
      if !insertionOptions.addToExistingPointsMap {
        cols := ClearedAll(cols);
      }
      if !scan.hasPoints3D {
        return Success;
      }
      if colorScheme.zMax == colorScheme.zMin {
        return Failure(EqualHeightLimits);
      }
      var c;
      st, c := DecimateScan3D(cols, scan, t, colorScheme, Spacing(insertionOptions.minDistBetweenLaserPoints), jet, uninit);
      if st.Success? {
        cols := c;
      }
    }

    /**
     * `fuseWith(otherMap, minDistForFuse, notFusedPoints)`. The other map is
     * given by its vectors; a failed weight check stops the loop with the
     * points merged so far.
     */
    method FuseWith(other: Columns, minDistForFuse: real, matcher: (Columns, Columns, real) -> seq<Correspondence>)
      returns (st: Status, notFused: seq<bool>)
      requires Indexable(cols) && Indexable(other) && CorrsIn(matcher(cols, other, minDistForFuse), Count(cols))
      modifies this
      ensures var f := Fuse(old(cols), other, matcher(old(cols), other, minDistForFuse), Count(other), true);
        cols == f.cols && notFused == f.notFused && (st.Success? <==> !f.failed) &&
        (st.Failure? ==> st.error == ZeroFusedWeight)
      ensures CachesStale() && SettingsKept()
    {
      largestDistanceFromOriginIsUpdated := false;
      kdTreeDataIsUpdated := false;
      var corrs := matcher(cols, other, minDistForFuse);
      var c;
      st, c, notFused := FuseColumns(cols, other, corrs);
      cols := c;
    }

    /** `internal_insertObservation`. */
    method InsertObservation(obs: Observation, env: Environment) returns (inserted: bool, st: Status)
      requires Indexable(cols) && Acceptable(obs) && MatcherSound(env.matcher)
      modifies this
      ensures obs.OtherObservation? ==> !inserted && st == Success && unchanged(this)
      ensures var r := Insert(old(cols), old(insertionOptions), old(colorScheme), obs, env);
        inserted == r.inserted && st == r.status && cols == r.cols && insertionOptions == r.options
      ensures !obs.OtherObservation? ==> CachesStale()
      ensures colorScheme == old(colorScheme) && disableSaveAs3DObject == old(disableSaveAs3DObject)
      ensures likelihoodOptions == old(likelihoodOptions)
    {
      match obs
      case OtherObservation =>
        return false, Success;
      case Laser2D(scan, t) =>
        inserted, st := Insert2DScan(scan, t, env);
      case Range3D(scan, t) =>
        inserted, st := Insert3DScan(scan, t, env);
    }

    /** The 2D branch of `internal_insertObservation`. */
    method Insert2DScan(scan: Scan2D, t: Transform, env: Environment) returns (inserted: bool, st: Status)
      requires Indexable(cols) && WellFormed2D(scan) && MatcherSound(env.matcher)
      modifies this
      ensures var r := Insert2D(old(cols), old(insertionOptions), old(colorScheme), scan, t, env);
        inserted == r.inserted && st == r.status && cols == r.cols && insertionOptions == r.options
      ensures CachesStale() && colorScheme == old(colorScheme)
      ensures disableSaveAs3DObject == old(disableSaveAs3DObject) && likelihoodOptions == old(likelihoodOptions)
    {
      largestDistanceFromOriginIsUpdated := false;
      kdTreeDataIsUpdated := false;
      if insertionOptions.isPlanarMap && !env.isPlanarScan(scan, insertionOptions.horizontalTolerance) {
        return false, Success;
      }
      var aux := new CColouredPointsMap(insertionOptions);
      var check: seq<bool>;
      if insertionOptions.fuseWithExisting {
        aux.insertionOptions := insertionOptions.(addToExistingPointsMap := false);
        var loaded := aux.LoadFromRangeScan2D(scan, t, env.jet, env.uninit);
        assert ClearedAll(Empty) == Empty;
        st, check := FuseWith(aux.cols, insertionOptions.minDistBetweenLaserPoints, env.matcher);
        if st.Failure? {
          return false, st;
        }
      } else {
        insertionOptions := insertionOptions.(addToExistingPointsMap := true);
        st := LoadFromRangeScan2D(scan, t, env.jet, env.uninit);
        if st.Failure? {
          return false, st;
        }
        check := Constant(|cols.x|, true);
      }
      if !insertionOptions.disableDeletion {
        DeleteInside(check, aux.cols, env.inside);
      }
      return true, Success;
    }

    /**
     * The deletion step of `internal_insertObservation`: the polygon of the
     * scan's points is built, and the points still marked that lie inside
     * it are removed.
     */
    method DeleteInside(check: seq<bool>, scanned: Columns, inside: (seq<Polygon.Vertex>, real, real) -> bool)
      requires Indexable(cols) && |check| == Count(cols) && Count(scanned) <= |scanned.y|
      modifies this
      ensures cols == Compacted(old(cols), Marked(check, old(cols), ScanPolygon(scanned), inside))
      ensures CachesStale() && SettingsKept()
    {
      var pol := new Polygon.CPolygon();
      pol.SetAllVertices(|scanned.x|, scanned.x, scanned.y);
      var mask := MarkInside(check, cols, pol.vertices, inside);
      var st := ApplyDeletionMask(mask);
    }

    /** The 3D branch of `internal_insertObservation`. */
    method Insert3DScan(scan: Scan3D, t: Transform, env: Environment) returns (inserted: bool, st: Status)
      requires Indexable(cols) && WellFormed3D(scan) && MatcherSound(env.matcher)
      modifies this
      ensures var r := Insert3D(old(cols), old(insertionOptions), old(colorScheme), scan, t, env);
        inserted == r.inserted && st == r.status && cols == r.cols && insertionOptions == r.options
      ensures CachesStale() && colorScheme == old(colorScheme)
      ensures disableSaveAs3DObject == old(disableSaveAs3DObject) && likelihoodOptions == old(likelihoodOptions)
    {
      largestDistanceFromOriginIsUpdated := false;
      kdTreeDataIsUpdated := false;
      if insertionOptions.isPlanarMap {
        return false, Success;
      }
      if insertionOptions.fuseWithExisting {
        var aux := new CColouredPointsMap(insertionOptions.(addToExistingPointsMap := false));
        var loaded := aux.LoadFromRangeScan3D(scan, t, env.jet, env.uninit);
        assert ClearedAll(Empty) == Empty;
        var notFused;
        st, notFused := FuseWith(aux.cols, insertionOptions.minDistBetweenLaserPoints, env.matcher);
        if st.Failure? {
          return false, st;
        }
      } else {
        insertionOptions := insertionOptions.(addToExistingPointsMap := true);
        st := LoadFromRangeScan3D(scan, t, env.jet, env.uninit);
        if st.Failure? {
          return false, st;
        }
      }
      return true, Success;
    }

    /** `writeToStream`. */
    method WriteToStream() returns (out: seq<Item>)
      requires Writable(cols)
      ensures out == Body(Archive())
    {
      out := Body(Stored(cols, insertionOptions, disableSaveAs3DObject, likelihoodOptions));
    }

    /**
     * `readFromStream`. An archive that cannot be read leaves the map as it
     * was; an unknown version is refused before anything is read.
     */
    method ReadFromStream(s: seq<Item>, version: nat) returns (r: Result<seq<Item>>)
      modifies this
      ensures var p := Parse(s, version, old(Archive()));
        (p.Ok? ==> r == Ok(p.value.rest) && Archive() == p.value.value && CachesStale() && colorScheme == old(colorScheme)) &&
        (p.Err? ==> r == Err(p.error) && unchanged(this))
    {
      var p := Parse(s, version, Archive());
      if p.Err? {
        return Err(p.error);
      }
      Restore(p.value.value);
      r := Ok(p.value.rest);
    }

    /** Stores what the archive held; the caches are marked stale. */
    method Restore(st: Stored)
      modifies this
      ensures Archive() == st && CachesStale() && colorScheme == old(colorScheme)
    {
      cols, insertionOptions, disableSaveAs3DObject, likelihoodOptions :=
        st.cols, st.options, st.disableSaveAs3DObject, st.likelihoodOptions;
      largestDistanceFromOriginIsUpdated, kdTreeDataIsUpdated := false, false;
    }
  }

  /** Once the weight check has fired, the rest of the loop changes nothing. */
  lemma {:induction false} FailedStays(c: Columns, other: Columns, corrs: seq<Correspondence>, k: nat, n: nat)
    requires Indexable(c) && Indexable(other) && k <= n <= Count(other) && CorrsIn(corrs, Count(c))
    requires Fuse(c, other, corrs, k, true).failed
    ensures Fuse(c, other, corrs, n, true) == Fuse(c, other, corrs, k, true)
  {
    if n > k {
      FailedStays(c, other, corrs, k, n - 1);
    }
  }
}
