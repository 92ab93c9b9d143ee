/**
 * The archive layout of `CColouredPointsMap` (`writeToStream` version 6 and
 * `readFromStream` versions 0 to 6): the point count, the x, y and z
 * buffers and the weights, the insertion options, the colour vectors and
 * `m_min_dist`, and the likelihood options, each group added by a later
 * version of the format.
 */
module ColouredPointsStream {
  import opened Streams
  import opened ColouredPoints

  /** `CPointsMap::TInsertionOptions`, the fields this class stores and uses. */
  datatype InsertionOptions = InsertionOptions(
    minDistBetweenLaserPoints: real,
    addToExistingPointsMap: bool,
    alsoInterpolate: bool,
    disableDeletion: bool,
    fuseWithExisting: bool,
    isPlanarMap: bool,
    maxDistForInterpolatePoints: real,
    horizontalTolerance: real)

  /**
   * Everything the archive holds: the vectors, the insertion options,
   * `m_disableSaveAs3DObject`, and the likelihood options (a nested object
   * whose own layout is not part of this model).
   */
  datatype Stored = Stored(cols: Columns, options: InsertionOptions, disableSaveAs3DObject: bool, likelihoodOptions: nat)

  /** The version `writeToStream` reports. */
  const Version := 6

  /** One weight: an `unsigned long` before version 4, a `uint32_t` from version 4 on. */
  function Weight(w: nat, wide: bool): Item
  {
    if wide then ULong(w) else U32(w)
  }

  function Weights(ws: seq<nat>, wide: bool): (r: seq<Item>)
    ensures |r| == |ws|
  {
    if |ws| == 0 then [] else [Weight(ws[0], wide)] + Weights(ws[1..], wide)
  }

  function ReadWeight(s: seq<Item>, wide: bool): (r: Result<Read<nat>>)
    ensures r.Ok? ==> s == [Weight(r.value.value, wide)] + r.value.rest
  {
    if |s| == 0 then Err(EndOfStream)
    else if wide && s[0].ULong? then Ok(Read(s[0].ul, s[1..]))
    else if !wide && s[0].U32? then Ok(Read(s[0].u, s[1..]))
    else Err(TypeMismatch)
  }

  /** `ReadBuffer` of `n` weights. */
  function ReadWeights(s: seq<Item>, n: nat, wide: bool): (r: Result<Read<seq<nat>>>)
    ensures r.Ok? ==> |r.value.value| == n
  {
    if n == 0 then Ok(Read([], s))
    else
      match ReadWeight(s, wide)
      case Err(e) => Err(e)
      case Ok(Read(w, s1)) =>
        match ReadWeights(s1, n - 1, wide)
        case Err(e) => Err(e)
        case Ok(Read(ws, rest)) => Ok(Read([w] + ws, rest))
  }

  lemma ConsAppend<T>(x: T, a: seq<T>, b: seq<T>)
    ensures ([x] + a) + b == [x] + (a + b)
  {
  }

  lemma ReadWeightsCons(w: nat, wide: bool, s: seq<Item>, k: nat)
    requires ReadWeights(s, k, wide).Ok?
    ensures var r := ReadWeights(s, k, wide).value;
      ReadWeights([Weight(w, wide)] + s, k + 1, wide) == Ok(Read([w] + r.value, r.rest))
  {
    assert ([Weight(w, wide)] + s)[1..] == s;
  }

  lemma {:induction false} WeightsRoundTrip(ws: seq<nat>, wide: bool, rest: seq<Item>)
    ensures ReadWeights(Weights(ws, wide) + rest, |ws|, wide) == Ok(Read(ws, rest))
  {
    if |ws| > 0 {
      var tail := Weights(ws[1..], wide) + rest;
      WeightsRoundTrip(ws[1..], wide, rest);
      ConsAppend(Weight(ws[0], wide), Weights(ws[1..], wide), rest);
      ReadWeightsCons(ws[0], wide, tail, |ws| - 1);
      assert [ws[0]] + ws[1..] == ws;
    } else {
      assert Weights(ws, wide) + rest == rest;
    }
  }

  /** `k` consecutive `bool`s. */
  function ReadBools(s: seq<Item>, k: nat): (r: Result<Read<seq<bool>>>)
    ensures r.Ok? ==> |r.value.value| == k
  {
    if k == 0 then Ok(Read([], s))
    else
      match ReadBool(s)
      case Err(e) => Err(e)
      case Ok(Read(b, s1)) =>
        match ReadBools(s1, k - 1)
        case Err(e) => Err(e)
        case Ok(Read(bs, rest)) => Ok(Read([b] + bs, rest))
  }

  function Bools(bs: seq<bool>): (r: seq<Item>)
    ensures |r| == |bs|
  {
    if |bs| == 0 then [] else [Bool(bs[0])] + Bools(bs[1..])
  }

  lemma ReadBoolsCons(b: bool, s: seq<Item>, k: nat)
    requires ReadBools(s, k).Ok?
    ensures var r := ReadBools(s, k).value;
      ReadBools([Bool(b)] + s, k + 1) == Ok(Read([b] + r.value, r.rest))
  {
    assert ([Bool(b)] + s)[1..] == s;
  }

  lemma {:induction false} BoolsRoundTrip(bs: seq<bool>, rest: seq<Item>)
    ensures ReadBools(Bools(bs) + rest, |bs|) == Ok(Read(bs, rest))
  {
    if |bs| > 0 {
      var tail := Bools(bs[1..]) + rest;
      BoolsRoundTrip(bs[1..], rest);
      ConsAppend(Bool(bs[0]), Bools(bs[1..]), rest);
      ReadBoolsCons(bs[0], tail, |bs| - 1);
      assert [bs[0]] + bs[1..] == bs;
    } else {
      assert Bools(bs) + rest == rest;
    }
  }

  // ---------------------------------------------------------------------
  // Writing (version 6)
  // ---------------------------------------------------------------------

  /** The buffers `writeToStream` reads at the point indices are long enough. */
  predicate Writable(c: Columns)
  {
    |c.y| >= |c.x| && |c.z| >= |c.x| && |c.weight| >= |c.x|
  }

  /** The count, as a `uint32_t`, then, for a non-empty map, the x, y, z and weight buffers. */
  function PointsBody(c: Columns): seq<Item>
    requires Writable(c)
  {
    var n := Count(c) % U32Limit;
    [U32(n)] +
    (if n > 0 then Reals(Single, c.x[..n]) + (Reals(Single, c.y[..n]) + (Reals(Single, c.z[..n]) + Weights(c.weight[..n], false)))
     else [])
  }

  /** The five flags of the insertion options, in the order they are written. */
  function Flags(o: InsertionOptions): seq<bool>
  {
    [o.addToExistingPointsMap, o.alsoInterpolate, o.disableDeletion, o.fuseWithExisting, o.isPlanarMap]
  }

  /** The insertion options, `m_disableSaveAs3DObject`, then `horizontalTolerance`. */
  function OptionsBody(o: InsertionOptions, disableSave: bool): seq<Item>
  {
    [F32(o.minDistBetweenLaserPoints)] + (Bools(Flags(o)) +
    [F32(o.maxDistForInterpolatePoints), Bool(disableSave), F32(o.horizontalTolerance)])
  }

  /** The three colour vectors and `m_min_dist`, each with its own length. */
  function ColoursBody(c: Columns): seq<Item>
  {
    F32Vector(c.r) + (F32Vector(c.g) + (F32Vector(c.b) + F32Vector(c.minDist)))
  }

  /** `writeToStream`. */
  function Body(st: Stored): seq<Item>
    requires Writable(st.cols)
  {
    PointsBody(st.cols) + (OptionsBody(st.options, st.disableSaveAs3DObject) +
    (ColoursBody(st.cols) + [Opaque(st.likelihoodOptions)]))
  }

  // ---------------------------------------------------------------------
  // Reading (versions 0 to 6)
  // ---------------------------------------------------------------------

  /** The vectors one point has, exactly as many as there are points. */
  predicate PointsAligned(c: Columns)
  {
    |c.y| == |c.x| && |c.z| == |c.x| && |c.weight| == |c.x|
  }

  /** The coordinate and weight vectors read back. */
  datatype Coordinates = Coordinates(x: seq<real>, y: seq<real>, z: seq<real>, weight: seq<nat>)

  /**
   * The buffers after the count. `pointWeight.resize(n, 1)` comes first, so
   * version 0, which stores no weights, keeps the map's prior weights for the
   * first points and gives 1 to the others.
   */
  function ParsePoints(s: seq<Item>, n: nat, version: nat, priorWeight: seq<nat>): (r: Result<Read<Coordinates>>)
    ensures r.Ok? ==> |r.value.value.x| == |r.value.value.y| == |r.value.value.z| == |r.value.value.weight| == n
    ensures r.Ok? && (version == 0 || n == 0) ==> r.value.value.weight == Resize(priorWeight, n, 1)
  {
    if n == 0 then Ok(Read(Coordinates([], [], [], Resize(priorWeight, 0, 1)), s))
    else
      match ReadReals(s, n, Single)
      case Err(e) => Err(e)
      case Ok(Read(x, s1)) =>
        match ReadReals(s1, n, Single)
        case Err(e) => Err(e)
        case Ok(Read(y, s2)) =>
          match ReadReals(s2, n, Single)
          case Err(e) => Err(e)
          case Ok(Read(z, s3)) =>
            if version == 0 then Ok(Read(Coordinates(x, y, z, Resize(priorWeight, n, 1)), s3))
            else
              match ReadWeights(s3, n, version < 4)
              case Err(e) => Err(e)
              case Ok(Read(w, rest)) => Ok(Read(Coordinates(x, y, z, w), rest))
  }

  /**
   * Version 2 added the insertion options and `m_disableSaveAs3DObject`;
   * versions 2 to 5 also hold the removed `matchStaticPointsOnly` flag,
   * which is read and dropped. Version 3 added `horizontalTolerance`.
   */
  function ParseOptions(s: seq<Item>, version: nat, prior: InsertionOptions, priorSave: bool): (r: Result<Read<(InsertionOptions, bool)>>)
    ensures r.Ok? && version < 2 ==> r.value.value == (prior, priorSave)
    ensures r.Ok? && version < 3 ==> r.value.value.0.horizontalTolerance == prior.horizontalTolerance
  {
    if version < 2 then Ok(Read((prior, priorSave), s))
    else
      match ReadReal(s, Single)
      case Err(e) => Err(e)
      case Ok(Read(minDist, s1)) =>
        match ReadBools(s1, if version < 6 then 6 else 5)
        case Err(e) => Err(e)
        case Ok(Read(f, s2)) =>
          match ReadReal(s2, Single)
          case Err(e) => Err(e)
          case Ok(Read(maxDist, s3)) =>
            match ReadBool(s3)
            case Err(e) => Err(e)
            case Ok(Read(save, s4)) =>
              var o := prior.(minDistBetweenLaserPoints := minDist,
                            addToExistingPointsMap := f[0], alsoInterpolate := f[1], disableDeletion := f[2],
                            fuseWithExisting := f[3], isPlanarMap := f[4], maxDistForInterpolatePoints := maxDist);
              if version < 3 then Ok(Read((o, save), s4))
              else
                match ReadReal(s4, Single)
                case Err(e) => Err(e)
                case Ok(Read(tol, rest)) => Ok(Read((o.(horizontalTolerance := tol), save), rest))
  }

  /** The colour vectors and `m_min_dist` of a version from 4 on; earlier ones get white and 2000. */
  function ParseColours(s: seq<Item>, version: nat, n: nat): (r: Result<Read<(seq<real>, seq<real>, seq<real>, seq<real>)>>)
    ensures r.Ok? && version < 4 ==> r.value.value == (Constant(n, 1.0), Constant(n, 1.0), Constant(n, 1.0), Constant(n, 2000.0))
  {
    if version < 4 then Ok(Read((Constant(n, 1.0), Constant(n, 1.0), Constant(n, 1.0), Constant(n, 2000.0)), s))
    else
      match ReadF32Vector(s)
      case Err(e) => Err(e)
      case Ok(Read(r, s1)) =>
        match ReadF32Vector(s1)
        case Err(e) => Err(e)
        case Ok(Read(g, s2)) =>
          match ReadF32Vector(s2)
          case Err(e) => Err(e)
          case Ok(Read(b, s3)) =>
            match ReadF32Vector(s3)
            case Err(e) => Err(e)
            case Ok(Read(d, rest)) => Ok(Read((r, g, b, d), rest))
  }

  /** Version 5 added the likelihood options. */
  function ParseLikelihood(s: seq<Item>, version: nat, prior: nat): (r: Result<Read<nat>>)
    ensures r.Ok? && version < 5 ==> r.value == Read(prior, s)
  {
    if version < 5 then Ok(Read(prior, s)) else ReadOpaque(s)
  }

  /**
   * `readFromStream` on an archive of the given version; `prior` is the map
   * before the call, whose weights, options and likelihood options survive
   * where the version does not store them.
   */
  function Parse(s: seq<Item>, version: nat, prior: Stored): (r: Result<Read<Stored>>)
    ensures version > Version ==> r == Err(UnknownVersion(version))
    ensures r.Ok? ==> version <= Version && PointsAligned(r.value.value.cols)
    ensures r.Ok? && version < 4 ==> var c := r.value.value.cols;
      Aligned(c) && c.minDist == Constant(Count(c), 2000.0) &&
      forall i :: 0 <= i < Count(c) ==> ColourAt(c, i) == White
    ensures r.Ok? && version == 0 ==> r.value.value.cols.weight == Resize(prior.cols.weight, Count(r.value.value.cols), 1)
    ensures r.Ok? && version < 2 ==>
      r.value.value.options == prior.options && r.value.value.disableSaveAs3DObject == prior.disableSaveAs3DObject
    ensures r.Ok? && version < 5 ==> r.value.value.likelihoodOptions == prior.likelihoodOptions
  {
    if version > Version then Err(UnknownVersion(version))
    else
      match ReadU32(s)
      case Err(e) => Err(e)
      case Ok(Read(n, s1)) =>
        match ParsePoints(s1, n, version, prior.cols.weight)
        case Err(e) => Err(e)
        case Ok(Read(p, s2)) =>
          match ParseOptions(s2, version, prior.options, prior.disableSaveAs3DObject)
          case Err(e) => Err(e)
          case Ok(Read(o, s3)) =>
            match ParseColours(s3, version, n)
            case Err(e) => Err(e)
            case Ok(Read(col, s4)) =>
              match ParseLikelihood(s4, version, prior.likelihoodOptions)
              case Err(e) => Err(e)
              case Ok(Read(l, rest)) =>
                var cols := Columns(p.x, p.y, p.z, p.weight, col.0, col.1, col.2, col.3);
                assert Count(cols) == n;
                Ok(Read(Stored(cols, o.0, o.1, l), rest))
  }

  // ---------------------------------------------------------------------
  // Round trips
  // ---------------------------------------------------------------------

  /** A map whose count fits the `uint32_t` the archive stores it in. */
  predicate Storable(c: Columns)
  {
    PointsAligned(c) && |c.x| < U32Limit
  }

  lemma PointsRoundTrip(c: Columns, rest: seq<Item>, priorWeight: seq<nat>)
    requires Storable(c)
    ensures ParsePoints(PointsBody(c)[1..] + rest, Count(c), Version, priorWeight) == Ok(Read(Coordinates(c.x, c.y, c.z, c.weight), rest))
    ensures PointsBody(c)[..1] == [U32(Count(c))]
  {
    var n := Count(c);
    assert c.x[..n] == c.x && c.y[..n] == c.y && c.z[..n] == c.z && c.weight[..n] == c.weight;
    if n > 0 {
      var xb, yb, zb, wb := Reals(Single, c.x), Reals(Single, c.y), Reals(Single, c.z), Weights(c.weight, false);
      assert PointsBody(c)[1..] + rest == xb + (yb + (zb + (wb + rest)));
      RealsRoundTrip(Single, c.x, yb + (zb + (wb + rest)));
      RealsRoundTrip(Single, c.y, zb + (wb + rest));
      RealsRoundTrip(Single, c.z, wb + rest);
      WeightsRoundTrip(c.weight, false, rest);
    } else {
      assert PointsBody(c)[1..] + rest == rest;
    }
  }

  lemma OptionsLayout(o: InsertionOptions, save: bool, rest: seq<Item>)
    ensures OptionsBody(o, save) + rest ==
      [F32(o.minDistBetweenLaserPoints)] + (Bools(Flags(o)) +
      ([F32(o.maxDistForInterpolatePoints)] + ([Bool(save)] + ([F32(o.horizontalTolerance)] + rest))))
  {
  }

  lemma OptionsRoundTrip(o: InsertionOptions, save: bool, rest: seq<Item>, prior: InsertionOptions, priorSave: bool)
    ensures ParseOptions(OptionsBody(o, save) + rest, Version, prior, priorSave) == Ok(Read((o, save), rest))
  {
    var s4 := [F32(o.horizontalTolerance)] + rest;
    var s3 := [Bool(save)] + s4;
    var tail := [F32(o.maxDistForInterpolatePoints)] + s3;
    var s1 := Bools(Flags(o)) + tail;
    OptionsLayout(o, save, rest);
    assert ReadReal(OptionsBody(o, save) + rest, Single) == Ok(Read(o.minDistBetweenLaserPoints, s1));
    BoolsRoundTrip(Flags(o), tail);
    assert ReadReal(tail, Single) == Ok(Read(o.maxDistForInterpolatePoints, s3));
    assert ReadBool(s3) == Ok(Read(save, s4));
    assert ReadReal(s4, Single) == Ok(Read(o.horizontalTolerance, rest));
  }

  /**
   * The layout of versions 3 to 5: as version 6 with the removed
   * `matchStaticPointsOnly` flag after the five option flags.
   */
  function LegacyOptionsBody(o: InsertionOptions, save: bool, dropped: bool): seq<Item>
  {
    [F32(o.minDistBetweenLaserPoints)] + (Bools(Flags(o) + [dropped]) +
    [F32(o.maxDistForInterpolatePoints), Bool(save), F32(o.horizontalTolerance)])
  }

  lemma LegacyOptionsLayout(o: InsertionOptions, save: bool, dropped: bool, rest: seq<Item>)
    ensures LegacyOptionsBody(o, save, dropped) + rest ==
      [F32(o.minDistBetweenLaserPoints)] + (Bools(Flags(o) + [dropped]) +
      ([F32(o.maxDistForInterpolatePoints)] + ([Bool(save)] + ([F32(o.horizontalTolerance)] + rest))))
  {
  }

  /** Versions 3 to 5 read the same options as version 6, whatever the dropped flag holds. */
  lemma LegacyOptionsRead(version: nat, o: InsertionOptions, save: bool, dropped: bool, rest: seq<Item>, prior: InsertionOptions, priorSave: bool)
    requires 3 <= version < 6
    ensures ParseOptions(LegacyOptionsBody(o, save, dropped) + rest, version, prior, priorSave) == Ok(Read((o, save), rest))
  {
    var s4 := [F32(o.horizontalTolerance)] + rest;
    var s3 := [Bool(save)] + s4;
    var tail := [F32(o.maxDistForInterpolatePoints)] + s3;
    var s1 := Bools(Flags(o) + [dropped]) + tail;
    LegacyOptionsLayout(o, save, dropped, rest);
    assert ReadReal(LegacyOptionsBody(o, save, dropped) + rest, Single) == Ok(Read(o.minDistBetweenLaserPoints, s1));
    BoolsRoundTrip(Flags(o) + [dropped], tail);
    assert ReadReal(tail, Single) == Ok(Read(o.maxDistForInterpolatePoints, s3));
    assert ReadBool(s3) == Ok(Read(save, s4));
    assert ReadReal(s4, Single) == Ok(Read(o.horizontalTolerance, rest));
  }

  /** The layout of version 2: as versions 3 to 5 without `horizontalTolerance`. */
  function Version2OptionsBody(o: InsertionOptions, save: bool, dropped: bool): seq<Item>
  {
    [F32(o.minDistBetweenLaserPoints)] + (Bools(Flags(o) + [dropped]) +
    [F32(o.maxDistForInterpolatePoints), Bool(save)])
  }

  /**
   * Version 2 reads the same options and drops the same flag, but keeps the
   * tolerance the map had before the read.
   */
  lemma Version2OptionsRead(o: InsertionOptions, save: bool, dropped: bool, rest: seq<Item>, prior: InsertionOptions, priorSave: bool)
    ensures ParseOptions(Version2OptionsBody(o, save, dropped) + rest, 2, prior, priorSave) ==
      Ok(Read((o.(horizontalTolerance := prior.horizontalTolerance), save), rest))
  {
    var s3 := [Bool(save)] + rest;
    var tail := [F32(o.maxDistForInterpolatePoints)] + s3;
    var s1 := Bools(Flags(o) + [dropped]) + tail;
    assert Version2OptionsBody(o, save, dropped) + rest == [F32(o.minDistBetweenLaserPoints)] + s1;
    assert ReadReal(Version2OptionsBody(o, save, dropped) + rest, Single) == Ok(Read(o.minDistBetweenLaserPoints, s1));
    BoolsRoundTrip(Flags(o) + [dropped], tail);
    assert ReadReal(tail, Single) == Ok(Read(o.maxDistForInterpolatePoints, s3));
    assert ReadBool(s3) == Ok(Read(save, rest));
  }

  lemma ColoursRoundTrip(c: Columns, rest: seq<Item>)
    ensures ParseColours(ColoursBody(c) + rest, Version, Count(c)) == Ok(Read((c.r, c.g, c.b, c.minDist), rest))
  {
    var s3 := F32Vector(c.minDist) + rest;
    var s2 := F32Vector(c.b) + s3;
    var s1 := F32Vector(c.g) + s2;
    Regroup(F32Vector(c.r), F32Vector(c.g), F32Vector(c.b), F32Vector(c.minDist), rest);
    F32VectorRoundTrip(c.r, s1);
    F32VectorRoundTrip(c.g, s2);
    F32VectorRoundTrip(c.b, s3);
    F32VectorRoundTrip(c.minDist, rest);
  }

  lemma Regroup<T>(a: seq<T>, b: seq<T>, c: seq<T>, d: seq<T>, rest: seq<T>)
    ensures (a + (b + (c + d))) + rest == a + (b + (c + (d + rest)))
  {
  }

  /**
   * Writing a map and reading the archive back gives the same vectors,
   * options and flags, whatever the map held before the read, and leaves the
   * rest of the archive.
   */
  lemma RoundTrip(st: Stored, rest: seq<Item>, prior: Stored)
    requires Storable(st.cols)
    ensures Parse(Body(st) + rest, Version, prior) == Ok(Read(st, rest))
  {
    var c := st.cols;
    var n := Count(c);
    var lb := [Opaque(st.likelihoodOptions)] + rest;
    var s3 := ColoursBody(c) + lb;
    var s2 := OptionsBody(st.options, st.disableSaveAs3DObject) + s3;
    var s1 := PointsBody(c)[1..] + s2;
    BodyLayout(st, rest);
    assert ReadU32(Body(st) + rest) == Ok(Read(n, s1));
    PointsRoundTrip(c, s2, prior.cols.weight);
    OptionsRoundTrip(st.options, st.disableSaveAs3DObject, s3, prior.options, prior.disableSaveAs3DObject);
    ColoursRoundTrip(c, lb);
    assert ParseLikelihood(lb, Version, prior.likelihoodOptions) == Ok(Read(st.likelihoodOptions, rest));
    assert Columns(c.x, c.y, c.z, c.weight, c.r, c.g, c.b, c.minDist) == c;
  }

  /** The archive of a map starts with its count, as a `uint32_t`. */
  lemma BodyLayout(st: Stored, rest: seq<Item>)
    requires Storable(st.cols)
    ensures Body(st) + rest == [U32(Count(st.cols))] + (PointsBody(st.cols)[1..] +
      (OptionsBody(st.options, st.disableSaveAs3DObject) + (ColoursBody(st.cols) + ([Opaque(st.likelihoodOptions)] + rest))))
  {
    var pb := PointsBody(st.cols);
    assert pb == [U32(Count(st.cols))] + pb[1..];
  }
}
