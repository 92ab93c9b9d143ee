/**
 * `CColouredPointsMap::fuseWith`: every point of another map is either
 * merged into the point of this map it corresponds to (weighted average of
 * the two, weights added) or appended as a new white point of weight 1.
 * Which point of this map a point of the other map corresponds to is decided
 * from the correspondences `computeMatchingWith2D` returns; the matcher
 * itself is not part of this model, its result is an input.
 *
 * As written, the selection loop keeps a correspondence when its squared
 * distance is GREATER than the running `minDist`, which starts at 1e6, so a
 * correspondence is used only when its points are more than 1000 apart. The
 * selection is modelled with a flag: `asWritten` true is the code, false is
 * the closest-correspondence test the comments describe.
 */
module PointFusion {
  import opened ColouredPoints

  /** `TMatchingPair`: a point of this map, a point of the other map, their indices. */
  datatype Correspondence = Correspondence(thisIdx: nat, otherIdx: nat, thisP: Point3, otherP: Point3)

  /** The squared distance between the two points of a correspondence. */
  function CorrDist(c: Correspondence): real
  {
    (c.otherP.x - c.thisP.x) * (c.otherP.x - c.thisP.x) +
    (c.otherP.y - c.thisP.y) * (c.otherP.y - c.thisP.y) +
    (c.otherP.z - c.thisP.z) * (c.otherP.z - c.thisP.z)
  }

  /** The initial `minDist` of the selection loop. */
  const FarAway: real := 1000000.0

  /** `minDist` and `closestCorr` of the selection loop. */
  datatype Choice = Choice(minDist: real, closest: int)

  /** The selection test: `minDist < dist` as written, `dist < minDist` as intended. */
  predicate Better(dist: real, minDist: real, asWritten: bool)
  {
    if asWritten then minDist < dist else dist < minDist
  }

  /** The selection loop over all correspondences, for point `i` of the other map. */
  function Closest(corrs: seq<Correspondence>, i: nat, asWritten: bool): (r: Choice)
    ensures r.closest == -1 || (exists k :: 0 <= k < |corrs| && corrs[k].otherIdx == i && corrs[k].thisIdx == r.closest)
  {
    if |corrs| == 0 then Choice(FarAway, -1)
    else
      var n := |corrs| - 1;
      var c := Closest(corrs[..n], i, asWritten);
      if corrs[n].otherIdx == i && Better(CorrDist(corrs[n]), c.minDist, asWritten) then
        Choice(CorrDist(corrs[n]), corrs[n].thisIdx)
      else c
  }

  /**
   * The selection picks a correspondence of point `i` exactly when one of
   * them passes the test against 1e6, and then one no other correspondence
   * of `i` beats: as written the farthest, as intended the closest.
   */
  lemma {:induction false} ClosestSelects(corrs: seq<Correspondence>, i: nat, asWritten: bool)
    ensures var c := Closest(corrs, i, asWritten);
      (c.closest == -1 <==> forall k :: 0 <= k < |corrs| && corrs[k].otherIdx == i ==> !Better(CorrDist(corrs[k]), FarAway, asWritten)) &&
      (c.closest == -1 ==> c.minDist == FarAway) &&
      (c.closest != -1 ==> Better(c.minDist, FarAway, asWritten)) &&
      (forall k :: 0 <= k < |corrs| && corrs[k].otherIdx == i ==> !Better(CorrDist(corrs[k]), c.minDist, asWritten))
  {
    if |corrs| > 0 {
      var n := |corrs| - 1;
      ClosestSelects(corrs[..n], i, asWritten);
      assert forall k :: 0 <= k < n ==> corrs[..n][k] == corrs[k];
    }
  }

  /**
   * As written, a point whose correspondences all lie within 1000 (squared
   * distance at most 1e6) is never merged.
   */
  lemma AsWrittenIgnoresNear(corrs: seq<Correspondence>, i: nat)
    requires forall k :: 0 <= k < |corrs| ==> CorrDist(corrs[k]) <= FarAway
    ensures Closest(corrs, i, true).closest == -1
  {
    ClosestSelects(corrs, i, true);
  }

  /**
   * As intended, a point with a correspondence closer than 1000 is merged,
   * into a point of this map at the smallest distance among its correspondences.
   */
  lemma IntendedPicksNearest(corrs: seq<Correspondence>, i: nat, k: nat)
    requires k < |corrs| && corrs[k].otherIdx == i && CorrDist(corrs[k]) < FarAway
    ensures var c := Closest(corrs, i, false);
      c.closest != -1 && c.minDist <= CorrDist(corrs[k]) &&
      forall l :: 0 <= l < |corrs| && corrs[l].otherIdx == i ==> c.minDist <= CorrDist(corrs[l])
  {
    ClosestSelects(corrs, i, false);
  }

  /** A single correspondence at distance 0: the code merges nothing, the intended test merges it. */
  lemma NearCorrespondenceIgnored()
    ensures var p := Point3(1.0, 2.0, 0.0);
      var corrs := [Correspondence(0, 0, p, p)];
      Closest(corrs, 0, true).closest == -1 && Closest(corrs, 0, false).closest == 0
  {
    var p := Point3(1.0, 2.0, 0.0);
    var corrs := [Correspondence(0, 0, p, p)];
    assert corrs[..0] == [];
    assert CorrDist(corrs[0]) == 0.0;
  }

  // ---------------------------------------------------------------------
  // The fusion loop
  // ---------------------------------------------------------------------

  /** Every correspondence names an existing point of this map, as the matcher guarantees. */
  predicate CorrsIn(corrs: seq<Correspondence>, nThis: nat)
  {
    forall k :: 0 <= k < |corrs| ==> corrs[k].thisIdx < nThis
  }

  /** This map's vectors, `notFusedPoints`, and whether the `ASSERT_` on the weights has fired. */
  datatype Fusion = Fusion(cols: Columns, notFused: seq<bool>, failed: bool)

  predicate Fits(f: Fusion, nThis: nat)
  {
    Indexable(f.cols) && Count(f.cols) >= nThis && |f.notFused| == Count(f.cols)
  }

  /** `notFusedPoints` starts as one `true` per point of this map. */
  function FuseStart(c: Columns): Fusion
  {
    Fusion(c, Constant(Count(c), true), false)
  }

  /** `F*(w_a*a + w_b*b)` with `F = 1/(w_a+w_b)`. */
  function Average(wa: nat, a: real, wb: nat, b: real): real
    requires wa + wb > 0
  {
    (1.0 / ((wa + wb) as real)) * ((wa as real) * a + (wb as real) * b)
  }

  /** One iteration of the loop, for point `i` of the other map. */
  function FuseStep(f: Fusion, other: Columns, corrs: seq<Correspondence>, i: nat, asWritten: bool): (r: Fusion)
    requires Fits(f, 0) && Indexable(other) && i < Count(other) && CorrsIn(corrs, Count(f.cols))
    ensures Fits(r, Count(f.cols)) && r.cols.minDist == f.cols.minDist
    ensures Aligned(f.cols) ==> Aligned(r.cols)
  {
    if f.failed then f
    else
      var sel := Closest(corrs, i, asWritten).closest;
      if sel != -1 then
        var wa, wb := other.weight[i], f.cols.weight[sel];
        if wa + wb == 0 then f.(failed := true)
        else
          var a, b := PointAt(other, i), PointAt(f.cols, sel);
          var c := f.cols.(x := f.cols.x[sel := Average(wa, a.x, wb, b.x)],
                           y := f.cols.y[sel := Average(wa, a.y, wb, b.y)],
                           z := f.cols.z[sel := Average(wa, a.z, wb, b.z)],
                           weight := f.cols.weight[sel := wa + wb]);
          Fusion(c, f.notFused[sel := false], false)
      else
        Fusion(Push(f.cols, PointAt(other, i)), f.notFused + [false], false)
  }

  /** The loop after the first `n` points of the other map. */
  function Fuse(c: Columns, other: Columns, corrs: seq<Correspondence>, n: nat, asWritten: bool): (r: Fusion)
    requires Indexable(c) && Indexable(other) && n <= Count(other) && CorrsIn(corrs, Count(c))
    ensures Fits(r, Count(c)) && r.cols.minDist == c.minDist
    ensures Aligned(c) ==> Aligned(r.cols)
  {
    if n == 0 then FuseStart(c)
    else FuseStep(Fuse(c, other, corrs, n - 1, asWritten), other, corrs, n - 1, asWritten)
  }

  /** How many of the first `n` points of the other map find no correspondence. */
  function Unmatched(corrs: seq<Correspondence>, n: nat, asWritten: bool): (r: nat)
    ensures r <= n
  {
    if n == 0 then 0
    else Unmatched(corrs, n - 1, asWritten) + (if Closest(corrs, n - 1, asWritten).closest == -1 then 1 else 0)
  }

  /** The points of this map that the first `n` points of the other map are merged into. */
  function MergedInto(corrs: seq<Correspondence>, n: nat, asWritten: bool): set<int>
  {
    if n == 0 then {}
    else
      var sel := Closest(corrs, n - 1, asWritten).closest;
      MergedInto(corrs, n - 1, asWritten) + (if sel != -1 then {sel} else {})
  }

  /**
   * Without a failed weight check, the map grows by one point per unmatched
   * point of the other map; `notFusedPoints` is false exactly for the
   * merged points and for every appended one.
   */
  lemma {:induction false} FuseShape(c: Columns, other: Columns, corrs: seq<Correspondence>, n: nat, asWritten: bool)
    requires Indexable(c) && Indexable(other) && n <= Count(other) && CorrsIn(corrs, Count(c))
    ensures var f := Fuse(c, other, corrs, n, asWritten);
      !f.failed ==> Shaped(f, Count(c), Unmatched(corrs, n, asWritten), MergedInto(corrs, n, asWritten))
  {
    if n > 0 {
      FuseShape(c, other, corrs, n - 1, asWritten);
      FuseShapeStep(c, other, corrs, n, asWritten);
    }
  }

  /**
   * The map holds its `nThis` old points and one appended point per
   * unmatched point; exactly the old points outside `merged`, and none of
   * the appended ones, are still marked as not fused.
   */
  predicate Shaped(f: Fusion, nThis: nat, unmatched: nat, merged: set<int>)
    requires Fits(f, nThis)
  {
    Count(f.cols) == nThis + unmatched &&
    (forall k :: 0 <= k < nThis ==> (f.notFused[k] <==> k !in merged)) &&
    (forall k :: nThis <= k < Count(f.cols) ==> !f.notFused[k])
  }

  /** One iteration either merges into the selected point or appends one point marked as fused. */
  lemma FuseShapeStep(c: Columns, other: Columns, corrs: seq<Correspondence>, n: nat, asWritten: bool)
    requires Indexable(c) && Indexable(other) && 0 < n <= Count(other) && CorrsIn(corrs, Count(c))
    requires var f := Fuse(c, other, corrs, n - 1, asWritten);
      !f.failed ==> Shaped(f, Count(c), Unmatched(corrs, n - 1, asWritten), MergedInto(corrs, n - 1, asWritten))
    ensures var g := Fuse(c, other, corrs, n, asWritten);
      !g.failed ==> Shaped(g, Count(c), Unmatched(corrs, n, asWritten), MergedInto(corrs, n, asWritten))
  {
  }

  /**
   * As written, when every correspondence lies within 1000 the fusion merges
   * nothing: every point of the other map is appended and every old point
   * stays marked as not fused.
   */
  lemma AsWrittenAppendsAll(c: Columns, other: Columns, corrs: seq<Correspondence>, n: nat)
    requires Indexable(c) && Indexable(other) && n <= Count(other) && CorrsIn(corrs, Count(c))
    requires forall k :: 0 <= k < |corrs| ==> CorrDist(corrs[k]) <= FarAway
    ensures var f := Fuse(c, other, corrs, n, true);
      !f.failed && Count(f.cols) == Count(c) + n &&
      forall k :: 0 <= k < Count(f.cols) ==> (f.notFused[k] <==> k < Count(c))
  {
    AsWrittenNoneMerged(c, other, corrs, n);
    FuseShape(c, other, corrs, n, true);
  }

  lemma {:induction false} AsWrittenNoneMerged(c: Columns, other: Columns, corrs: seq<Correspondence>, n: nat)
    requires Indexable(c) && Indexable(other) && n <= Count(other) && CorrsIn(corrs, Count(c))
    requires forall k :: 0 <= k < |corrs| ==> CorrDist(corrs[k]) <= FarAway
    ensures !Fuse(c, other, corrs, n, true).failed
    ensures Unmatched(corrs, n, true) == n && MergedInto(corrs, n, true) == {}
  {
    if n > 0 {
      AsWrittenNoneMerged(c, other, corrs, n - 1);
      AsWrittenIgnoresNear(corrs, n - 1);
    }
  }

  // ---------------------------------------------------------------------
  // Conservation of weight and of the weighted sum of the points
  // ---------------------------------------------------------------------

  /** The sum of the first `n` weights. */
  function Mass(w: seq<nat>, n: nat): real
    requires n <= |w|
  {
    if n == 0 then 0.0 else Mass(w, n - 1) + (w[n - 1] as real)
  }

  /** The sum of the first `n` weights times coordinates. */
  function Moment(w: seq<nat>, v: seq<real>, n: nat): real
    requires n <= |w| && n <= |v|
  {
    if n == 0 then 0.0 else Moment(w, v, n - 1) + (w[n - 1] as real) * v[n - 1]
  }

  /** The sum of the first `n` coordinates. */
  function Total(v: seq<real>, n: nat): real
    requires n <= |v|
  {
    if n == 0 then 0.0 else Total(v, n - 1) + v[n - 1]
  }

  lemma {:induction false} MassUpdate(w: seq<nat>, j: nat, a: nat, n: nat)
    requires j < n <= |w|
    ensures Mass(w[j := a], n) == Mass(w, n) - (w[j] as real) + (a as real)
  {
    if j < n - 1 {
      MassUpdate(w, j, a, n - 1);
    } else {
      MassPrefix(w, w[j := a], n - 1);
    }
  }

  lemma {:induction false} MassPrefix(w: seq<nat>, u: seq<nat>, n: nat)
    requires n <= |w| && n <= |u| && w[..n] == u[..n]
    ensures Mass(w, n) == Mass(u, n)
  {
    if n > 0 {
      assert w[..n - 1] == w[..n][..n - 1] && u[..n - 1] == u[..n][..n - 1];
      assert w[n - 1] == w[..n][n - 1] && u[n - 1] == u[..n][n - 1];
      MassPrefix(w, u, n - 1);
    }
  }

  lemma {:induction false} MomentPrefix(w: seq<nat>, v: seq<real>, u: seq<nat>, t: seq<real>, n: nat)
    requires n <= |w| && n <= |v| && n <= |u| && n <= |t| && w[..n] == u[..n] && v[..n] == t[..n]
    ensures Moment(w, v, n) == Moment(u, t, n)
  {
    if n > 0 {
      assert w[..n - 1] == w[..n][..n - 1] && u[..n - 1] == u[..n][..n - 1];
      assert v[..n - 1] == v[..n][..n - 1] && t[..n - 1] == t[..n][..n - 1];
      assert w[n - 1] == w[..n][n - 1] && u[n - 1] == u[..n][n - 1];
      assert v[n - 1] == v[..n][n - 1] && t[n - 1] == t[..n][n - 1];
      MomentPrefix(w, v, u, t, n - 1);
    }
  }

  lemma {:induction false} MomentUpdate(w: seq<nat>, v: seq<real>, j: nat, a: nat, b: real, n: nat)
    requires j < n <= |w| && n <= |v|
    ensures Moment(w[j := a], v[j := b], n) == Moment(w, v, n) - (w[j] as real) * v[j] + (a as real) * b
  {
    if j < n - 1 {
      MomentUpdate(w, v, j, a, b, n - 1);
    } else {
      MomentPrefix(w, v, w[j := a], v[j := b], n - 1);
    }
  }

  /** Weighting the average by the summed weight gives back the two weighted terms. */
  lemma AverageWeighs(wa: nat, a: real, wb: nat, b: real)
    requires wa + wb > 0
    ensures ((wa + wb) as real) * Average(wa, a, wb, b) == (wa as real) * a + (wb as real) * b
  {
    var s := (wa + wb) as real;
    var m := (wa as real) * a + (wb as real) * b;
    assert s * (1.0 / s) == 1.0;
    assert s * ((1.0 / s) * m) == (s * (1.0 / s)) * m;
  }

  /** Merging a point of weight 1 into point `j` adds 1 to the mass and the point to the moment. */
  lemma MergeConserves(w: seq<nat>, v: seq<real>, j: nat, n: nat, a: real)
    requires j < n <= |w| && n <= |v|
    ensures Mass(w[j := 1 + w[j]], n) == Mass(w, n) + 1.0
    ensures Moment(w[j := 1 + w[j]], v[j := Average(1, a, w[j], v[j])], n) == Moment(w, v, n) + a
  {
    MassUpdate(w, j, 1 + w[j], n);
    MomentUpdate(w, v, j, 1 + w[j], Average(1, a, w[j], v[j]), n);
    AverageWeighs(1, a, w[j], v[j]);
  }

  /** Appending a point of weight 1 after the first `n` entries adds 1 to the mass and the point to the moment. */
  lemma AppendConserves(w: seq<nat>, v: seq<real>, n: nat, a: real)
    requires n == |w| && n == |v|
    ensures Mass(w + [1], n + 1) == Mass(w, n) + 1.0
    ensures Moment(w + [1], v + [a], n + 1) == Moment(w, v, n) + a
  {
    MassPrefix(w, w + [1], n);
    MomentPrefix(w, v, w + [1], v + [a], n);
  }

  /** Mass and the three moments of the points of a map. */
  ghost predicate Balance(before: Columns, after: Columns, other: Columns, n: nat)
    requires Aligned(before) && Aligned(after) && Aligned(other) && n <= Count(other)
  {
    Mass(after.weight, Count(after)) == Mass(before.weight, Count(before)) + (n as real) &&
    Moment(after.weight, after.x, Count(after)) == Moment(before.weight, before.x, Count(before)) + Total(other.x, n) &&
    Moment(after.weight, after.y, Count(after)) == Moment(before.weight, before.y, Count(before)) + Total(other.y, n) &&
    Moment(after.weight, after.z, Count(after)) == Moment(before.weight, before.z, Count(before)) + Total(other.z, n)
  }

  /**
   * Fusing a map whose points all have weight 1 (as a freshly loaded scan's
   * do) never fails the weight check, adds one to the total weight per point,
   * and adds each point to the weighted sum of the map's points, whichever
   * points are merged: merging keeps the weighted centroid of the two points.
   */
  lemma {:induction false} FuseConserves(c: Columns, other: Columns, corrs: seq<Correspondence>, n: nat, asWritten: bool)
    requires Aligned(c) && Aligned(other) && n <= Count(other) && CorrsIn(corrs, Count(c))
    requires forall i :: 0 <= i < n ==> other.weight[i] == 1
    ensures var f := Fuse(c, other, corrs, n, asWritten);
      !f.failed && Balance(c, f.cols, other, n)
  {
    if n > 0 {
      FuseConserves(c, other, corrs, n - 1, asWritten);
      var f := Fuse(c, other, corrs, n - 1, asWritten);
      FuseStepConserves(c, f, other, corrs, n - 1, asWritten);
    }
  }

  lemma FuseStepConserves(c: Columns, f: Fusion, other: Columns, corrs: seq<Correspondence>, i: nat, asWritten: bool)
    requires Aligned(c) && Aligned(other) && i < Count(other) && other.weight[i] == 1
    requires Fits(f, 0) && Aligned(f.cols) && CorrsIn(corrs, Count(f.cols)) && !f.failed
    requires Balance(c, f.cols, other, i)
    ensures var g := FuseStep(f, other, corrs, i, asWritten);
      !g.failed && Balance(c, g.cols, other, i + 1)
  {
    var sel := Closest(corrs, i, asWritten).closest;
    var w := f.cols.weight;
    var n := Count(f.cols);
    if sel != -1 {
      MergeConserves(w, f.cols.x, sel, n, other.x[i]);
      MergeConserves(w, f.cols.y, sel, n, other.y[i]);
      MergeConserves(w, f.cols.z, sel, n, other.z[i]);
    } else {
      AppendConserves(w, f.cols.x, n, other.x[i]);
      AppendConserves(w, f.cols.y, n, other.y[i]);
      AppendConserves(w, f.cols.z, n, other.z[i]);
    }
  }
}
