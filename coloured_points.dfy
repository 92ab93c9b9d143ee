/**
 * The storage of MRPT's `CColouredPointsMap`: eight parallel vectors,
 * `x`, `y`, `z`, `pointWeight`, `m_color_R/G/B` and `m_min_dist`, of which
 * `x` gives the number of points. Nothing in the class keeps the other seven
 * vectors as long as `x`: `internal_clear` empties only `x`, `y` and `z`,
 * `setAllPoints` copies `X`, `Y` and `Z` whatever their lengths, and
 * `insertPoint`, `fuseWith`, `applyDeletionMask` and `setAllPoints` leave
 * `m_min_dist` alone. The model therefore keeps them as separate sequences
 * and states, operation by operation, when they stay in step.
 */
module ColouredPoints {

  datatype Point3 = Point3(x: real, y: real, z: real)

  /** Red, green and blue channels, each meant to lie in [0, 1]. */
  datatype Colour = Colour(r: real, g: real, b: real)

  /** The colour every point gets when nothing else is known about it. */
  const White := Colour(1.0, 1.0, 1.0)

  /** What happens to a failed `ASSERT_` or `THROW_EXCEPTION` in this class. */
  datatype MapError =
    | IndexOutOfBounds      // setPoint / getPoint with index >= size()
    | EqualHeightLimits     // loadFromRangeScan: colorScheme.z_max == z_min
    | UnknownColourScheme   // loadFromRangeScan: scheme outside the enumeration
    | ZeroFusedWeight       // fuseWith: w_a + w_b == 0
    | MaskSizeMismatch      // applyDeletionMask: mask.size() != size()

  datatype Status = Success | Failure(error: MapError)

  /** The eight vectors of the map, as `std::vector`s of floats (weights: unsigned integers). */
  datatype Columns = Columns(
    x: seq<real>, y: seq<real>, z: seq<real>,
    weight: seq<nat>,
    r: seq<real>, g: seq<real>, b: seq<real>,
    minDist: seq<real>)

  const Empty := Columns([], [], [], [], [], [], [], [])

  /** `getPointsCount()`: the length of `x`. */
  function Count(c: Columns): nat
  {
    |c.x|
  }

  /**
   * Every vector the class reads at a point index is at least as long as `x`;
   * reading past the end of one is undefined behaviour in the source.
   */
  predicate Indexable(c: Columns)
  {
    |c.y| >= |c.x| && |c.z| >= |c.x| && |c.weight| >= |c.x| &&
    |c.r| >= |c.x| && |c.g| >= |c.x| && |c.b| >= |c.x|
  }

  /** The seven vectors that describe a point have exactly one entry per point. */
  predicate Aligned(c: Columns)
  {
    |c.y| == |c.x| && |c.z| == |c.x| && |c.weight| == |c.x| &&
    |c.r| == |c.x| && |c.g| == |c.x| && |c.b| == |c.x|
  }

  function PointAt(c: Columns, i: nat): Point3
    requires Indexable(c) && i < Count(c)
  {
    Point3(c.x[i], c.y[i], c.z[i])
  }

  function ColourAt(c: Columns, i: nat): Colour
    requires Indexable(c) && i < Count(c)
  {
    Colour(c.r[i], c.g[i], c.b[i])
  }

  /** `n` copies of `v`, as `vector::assign(n, v)` leaves a vector. */
  function Constant<T>(n: nat, v: T): (r: seq<T>)
    ensures |r| == n
    ensures forall i :: 0 <= i < n ==> r[i] == v
  {
    seq(n, _ => v)
  }

  /** `vector::resize(n, v)`: the first `n` entries, padded with `v`. */
  function Resize<T>(s: seq<T>, n: nat, v: T): (r: seq<T>)
    ensures |r| == n
    ensures forall i :: 0 <= i < n ==> r[i] == if i < |s| then s[i] else v
  {
    if n <= |s| then s[..n] else s + Constant(n - |s|, v)
  }

  // ---------------------------------------------------------------------
  // Single points: insertPoint, setPoint, getPoint, internal_clear
  // ---------------------------------------------------------------------

  /**
   * `insertPoint`: one `push_back` on each of `x`, `y`, `z`, `pointWeight`
   * (weight 1) and the three colour vectors (colour 1, 1, 1); `m_min_dist`
   * is not touched.
   */
  function Push(c: Columns, p: Point3): Columns
  {
    Columns(c.x + [p.x], c.y + [p.y], c.z + [p.z], c.weight + [1],
            c.r + [1.0], c.g + [1.0], c.b + [1.0], c.minDist)
  }

  /**
   * On aligned vectors, `insertPoint` adds one white point of weight 1 after
   * the existing ones, which keep their coordinates, weights and colours;
   * `m_min_dist` is left one entry shorter than before relative to `x`.
   */
  lemma PushAppends(c: Columns, p: Point3)
    requires Aligned(c)
    ensures Aligned(Push(c, p)) && Count(Push(c, p)) == Count(c) + 1
    ensures forall i :: 0 <= i < Count(c) ==>
      PointAt(Push(c, p), i) == PointAt(c, i) && ColourAt(Push(c, p), i) == ColourAt(c, i) &&
      Push(c, p).weight[i] == c.weight[i]
    ensures PointAt(Push(c, p), Count(c)) == p && ColourAt(Push(c, p), Count(c)) == White
    ensures Push(c, p).weight[Count(c)] == 1
    ensures Push(c, p).minDist == c.minDist
  {
  }

  /** `setPoint(index, x, y, z)` on a valid index; the 2D overloads pass z = 0. */
  function SetAt(c: Columns, i: nat, p: Point3): Columns
    requires Indexable(c) && i < Count(c)
  {
    c.(x := c.x[i := p.x], y := c.y[i := p.y], z := c.z[i := p.z])
  }

  /** Reading back a point just set gives it, with its old weight and colour; no other point moves. */
  lemma SetThenGet(c: Columns, i: nat, p: Point3)
    requires Indexable(c) && i < Count(c)
    ensures Indexable(SetAt(c, i, p)) && Count(SetAt(c, i, p)) == Count(c)
    ensures PointAt(SetAt(c, i, p), i) == p
    ensures ColourAt(SetAt(c, i, p), i) == ColourAt(c, i) && SetAt(c, i, p).weight == c.weight
    ensures forall k :: 0 <= k < Count(c) && k != i ==> PointAt(SetAt(c, i, p), k) == PointAt(c, k)
  {
  }

  /** `getPoint(index, x, y, z, R, G, B)`, which throws for an index past the end. */
  function GetPoint(c: Columns, i: nat): (r: (Status, Point3, Colour))
    requires Indexable(c)
    ensures r.0.Success? <==> i < Count(c)
    ensures r.0.Failure? ==> r.0.error == IndexOutOfBounds
    ensures i < Count(c) ==> r.1 == PointAt(c, i) && r.2 == ColourAt(c, i)
  {
    if i >= Count(c) then (Failure(IndexOutOfBounds), Point3(0.0, 0.0, 0.0), White)
    else (Success, PointAt(c, i), ColourAt(c, i))
  }

  /** `internal_clear` as written: only `x`, `y` and `z` are emptied. */
  function Cleared(c: Columns): Columns
  {
    c.(x := [], y := [], z := [])
  }

  /** What `internal_clear` is evidently meant to do: empty every vector of the map. */
  function ClearedAll(c: Columns): Columns
  {
    c.(x := [], y := [], z := [], weight := [], r := [], g := [], b := [], minDist := [])
  }

  /**
   * As written, a point inserted after `internal_clear` is read back with the
   * colour of the first point the map held before, not with colour (1, 1, 1).
   */
  lemma ClearLeavesStaleColours()
    ensures var before := Push(Empty, Point3(0.0, 0.0, 0.0)).(r := [0.5]);
      var after := Push(Cleared(before), Point3(2.0, 3.0, 4.0));
      Indexable(after) && Count(after) == 1 && ColourAt(after, 0) == Colour(0.5, 1.0, 1.0) != White
  {
  }

  /** With every vector emptied, a clear followed by an insertion leaves exactly that white point. */
  lemma ClearAllThenPush(c: Columns, p: Point3)
    ensures Aligned(Push(ClearedAll(c), p)) && Count(Push(ClearedAll(c), p)) == 1
    ensures PointAt(Push(ClearedAll(c), p), 0) == p && ColourAt(Push(ClearedAll(c), p), 0) == White
    ensures Push(ClearedAll(c), p).minDist == []
  {
  }

  // ---------------------------------------------------------------------
  // Bulk set and copy
  // ---------------------------------------------------------------------

  /**
   * `setAllPoints(X, Y, Z)`: the three vectors are copied as they are and
   * weights and colours become `|X|` entries of 1; `m_min_dist` is left alone.
   */
  function AllPoints(c: Columns, xs: seq<real>, ys: seq<real>, zs: seq<real>): Columns
  {
    var n := |xs|;
    Columns(xs, ys, zs, Constant(n, 1), Constant(n, 1.0), Constant(n, 1.0), Constant(n, 1.0), c.minDist)
  }

  /** Given three vectors of one length, `setAllPoints` holds exactly those points, white and of weight 1. */
  lemma AllPointsAligned(c: Columns, xs: seq<real>, ys: seq<real>, zs: seq<real>)
    requires |ys| == |xs| && |zs| == |xs|
    ensures Aligned(AllPoints(c, xs, ys, zs)) && Count(AllPoints(c, xs, ys, zs)) == |xs|
    ensures forall i :: 0 <= i < |xs| ==>
      PointAt(AllPoints(c, xs, ys, zs), i) == Point3(xs[i], ys[i], zs[i]) &&
      ColourAt(AllPoints(c, xs, ys, zs), i) == White && AllPoints(c, xs, ys, zs).weight[i] == 1
  {
  }

  /**
   * `copyFrom` a plain points map: coordinates and weights are copied, colours
   * become white and `m_min_dist` becomes 1e4 for every point.
   */
  function CopiedFrom(xs: seq<real>, ys: seq<real>, zs: seq<real>, ws: seq<nat>): (c: Columns)
    ensures Count(c) == |xs| && c.y == ys && c.z == zs && c.weight == ws
    ensures |c.minDist| == |xs| && forall i :: 0 <= i < |xs| ==> c.minDist[i] == 10000.0
    ensures |c.r| == |c.g| == |c.b| == |xs|
    ensures forall i :: 0 <= i < |xs| ==> Colour(c.r[i], c.g[i], c.b[i]) == White
  {
    var n := |xs|;
    Columns(xs, ys, zs, ws, Constant(n, 1.0), Constant(n, 1.0), Constant(n, 1.0), Constant(n, 10000.0))
  }

  // ---------------------------------------------------------------------
  // applyDeletionMask
  // ---------------------------------------------------------------------

  /** The entries of `s` whose mask entry is `false`, in their order. */
  function Keep<T>(s: seq<T>, mask: seq<bool>): (r: seq<T>)
    requires |s| == |mask|
    ensures |r| <= |s|
  {
    if |mask| == 0 then []
    else
      var n := |mask| - 1;
      Keep(s[..n], mask[..n]) + (if mask[n] then [] else [s[n]])
  }

  /** The positions whose mask entry is `false`, in increasing order. */
  function KeptIndices(mask: seq<bool>): (r: seq<nat>)
    ensures forall k :: 0 <= k < |r| ==> r[k] < |mask|
  {
    if |mask| == 0 then []
    else
      var n := |mask| - 1;
      KeptIndices(mask[..n]) + (if mask[n] then [] else [n])
  }

  function CountFalse(mask: seq<bool>): (r: nat)
    ensures r <= |mask|
  {
    if |mask| == 0 then 0
    else
      var n := |mask| - 1;
      CountFalse(mask[..n]) + (if mask[n] then 0 else 1)
  }

  /**
   * The compaction keeps exactly the positions with a `false` mask entry, in
   * increasing order, and holds the entry of `s` at each of them.
   */
  lemma {:induction false} KeepExactly<T>(s: seq<T>, mask: seq<bool>)
    requires |s| == |mask|
    ensures |Keep(s, mask)| == |KeptIndices(mask)| == CountFalse(mask)
    ensures forall k :: 0 <= k < |KeptIndices(mask)| ==> Keep(s, mask)[k] == s[KeptIndices(mask)[k]]
    ensures forall k, l :: 0 <= k < l < |KeptIndices(mask)| ==> KeptIndices(mask)[k] < KeptIndices(mask)[l]
    ensures forall i :: 0 <= i < |mask| ==> (i in KeptIndices(mask) <==> !mask[i])
  {
    if |mask| > 0 {
      var n := |mask| - 1;
      KeepExactly(s[..n], mask[..n]);
      assert forall i :: 0 <= i < n ==> mask[..n][i] == mask[i];
      assert forall k :: 0 <= k < |KeptIndices(mask[..n])| ==> s[..n][KeptIndices(mask[..n])[k]] == s[KeptIndices(mask[..n])[k]];
    }
  }

  /** A mask with no `true` entry removes nothing. */
  lemma {:induction false} KeepAllFalse<T>(s: seq<T>, mask: seq<bool>)
    requires |s| == |mask| && forall i :: 0 <= i < |mask| ==> !mask[i]
    ensures Keep(s, mask) == s
  {
    if |mask| > 0 {
      var n := |mask| - 1;
      KeepAllFalse(s[..n], mask[..n]);
      assert s[..n] + [s[n]] == s;
    }
  }

  /** One more position of the mask extends the compaction by at most that entry. */
  lemma KeepSnoc<T>(s: seq<T>, mask: seq<bool>, i: nat)
    requires |mask| <= |s| && i < |mask|
    ensures Keep(s[..i + 1], mask[..i + 1]) == Keep(s[..i], mask[..i]) + (if mask[i] then [] else [s[i]])
  {
    assert s[..i + 1][..i] == s[..i];
    assert mask[..i + 1][..i] == mask[..i];
  }

  lemma CountFalseSnoc(mask: seq<bool>, i: nat)
    requires i < |mask|
    ensures CountFalse(mask[..i + 1]) == CountFalse(mask[..i]) + (if mask[i] then 0 else 1)
  {
    assert mask[..i + 1][..i] == mask[..i];
  }

  /**
   * `cur` is one vector part-way through the two-index compaction loop:
   * positions `i..` are still the original ones and the first `j` hold what
   * the loop has kept of positions `..i`.
   */
  ghost predicate CompactedTo<T>(cur: seq<T>, orig: seq<T>, mask: seq<bool>, i: nat, j: nat)
  {
    i <= |mask| <= |orig| && |cur| == |orig| && j <= i &&
    cur[..j] == Keep(orig[..i], mask[..i]) && cur[i..] == orig[i..]
  }

  /** One iteration of the compaction loop on one vector. */
  lemma CompactStep<T>(cur: seq<T>, orig: seq<T>, mask: seq<bool>, i: nat, j: nat)
    requires CompactedTo(cur, orig, mask, i, j) && i < |mask|
    ensures !mask[i] ==> cur[i] == orig[i] && CompactedTo(cur[j := cur[i]], orig, mask, i + 1, j + 1)
    ensures mask[i] ==> CompactedTo(cur, orig, mask, i + 1, j)
  {
    KeepSnoc(orig, mask, i);
    assert cur[i] == cur[i..][0] == orig[i..][0] == orig[i];
    if !mask[i] {
      var next := cur[j := cur[i]];
      assert next[..j + 1] == cur[..j] + [orig[i]];
      assert next[i + 1..] == cur[i + 1..];
      assert cur[i + 1..] == cur[i..][1..];
      assert orig[i + 1..] == orig[i..][1..];
    } else {
      assert cur[i + 1..] == cur[i..][1..];
      assert orig[i + 1..] == orig[i..][1..];
    }
  }

  /** The compaction loop at its start, before any position is looked at. */
  lemma CompactStart<T>(orig: seq<T>, mask: seq<bool>)
    requires |mask| <= |orig|
    ensures CompactedTo(orig, orig, mask, 0, 0)
  {
  }

  /** At the end of the loop the first `j` entries are the compaction of the first `|mask|`. */
  lemma CompactEnd<T>(cur: seq<T>, orig: seq<T>, mask: seq<bool>, j: nat)
    requires CompactedTo(cur, orig, mask, |mask|, j)
    ensures cur[..j] == Keep(orig[..|mask|], mask[..|mask|]) && mask[..|mask|] == mask
  {
  }

  /** The compaction loop part way, on all seven point vectors at once. */
  ghost predicate Compacting(cur: Columns, orig: Columns, mask: seq<bool>, i: nat, j: nat)
  {
    CompactedTo(cur.x, orig.x, mask, i, j) && CompactedTo(cur.y, orig.y, mask, i, j) &&
    CompactedTo(cur.z, orig.z, mask, i, j) && CompactedTo(cur.weight, orig.weight, mask, i, j) &&
    CompactedTo(cur.r, orig.r, mask, i, j) && CompactedTo(cur.g, orig.g, mask, i, j) &&
    CompactedTo(cur.b, orig.b, mask, i, j) && cur.minDist == orig.minDist
  }

  lemma CompactingStart(orig: Columns, mask: seq<bool>)
    requires Indexable(orig) && |mask| == Count(orig)
    ensures Compacting(orig, orig, mask, 0, 0)
  {
    CompactStart(orig.x, mask); CompactStart(orig.y, mask); CompactStart(orig.z, mask);
    CompactStart(orig.weight, mask); CompactStart(orig.r, mask); CompactStart(orig.g, mask);
    CompactStart(orig.b, mask);
  }

  /** A marked point is skipped: nothing moves. */
  lemma CompactingSkip(cur: Columns, orig: Columns, mask: seq<bool>, i: nat, j: nat)
    requires Compacting(cur, orig, mask, i, j) && i < |mask| && mask[i]
    ensures Compacting(cur, orig, mask, i + 1, j)
  {
    CompactStep(cur.x, orig.x, mask, i, j); CompactStep(cur.y, orig.y, mask, i, j);
    CompactStep(cur.z, orig.z, mask, i, j); CompactStep(cur.weight, orig.weight, mask, i, j);
    CompactStep(cur.r, orig.r, mask, i, j); CompactStep(cur.g, orig.g, mask, i, j);
    CompactStep(cur.b, orig.b, mask, i, j);
  }

  /** Position `i` of all seven point vectors copied to position `j`. */
  function MoveDown(c: Columns, i: nat, j: nat): (d: Columns)
    requires j <= i && Indexable(c) && i < |c.x|
    ensures Indexable(d) && Count(d) == Count(c)
  {
    c.(x := c.x[j := c.x[i]], y := c.y[j := c.y[i]], z := c.z[j := c.z[i]],
       weight := c.weight[j := c.weight[i]], r := c.r[j := c.r[i]],
       g := c.g[j := c.g[i]], b := c.b[j := c.b[i]])
  }

  /** An unmarked point is moved down from position `i` to position `j`. */
  lemma CompactingMove(cur: Columns, orig: Columns, mask: seq<bool>, i: nat, j: nat)
    requires Compacting(cur, orig, mask, i, j) && Indexable(orig) && i < |mask| == Count(orig) && !mask[i]
    ensures j <= i && Indexable(cur) && i < |cur.x|
    ensures Compacting(MoveDown(cur, i, j), orig, mask, i + 1, j + 1)
  {
    CompactStep(cur.x, orig.x, mask, i, j); CompactStep(cur.y, orig.y, mask, i, j);
    CompactStep(cur.z, orig.z, mask, i, j); CompactStep(cur.weight, orig.weight, mask, i, j);
    CompactStep(cur.r, orig.r, mask, i, j); CompactStep(cur.g, orig.g, mask, i, j);
    CompactStep(cur.b, orig.b, mask, i, j);
  }

  /** At the end of the loop the first `j` entries of every vector are the compaction. */
  lemma CompactingEnd(cur: Columns, orig: Columns, mask: seq<bool>, j: nat)
    requires Compacting(cur, orig, mask, |mask|, j) && Indexable(orig) && |mask| == Count(orig)
    ensures j <= |cur.x| && j <= |cur.y| && j <= |cur.z| && j <= |cur.weight| &&
      j <= |cur.r| && j <= |cur.g| && j <= |cur.b|
    ensures Columns(cur.x[..j], cur.y[..j], cur.z[..j], cur.weight[..j], cur.r[..j], cur.g[..j], cur.b[..j],
                    cur.minDist) == Compacted(orig, mask)
  {
    CompactEnd(cur.x, orig.x, mask, j); CompactEnd(cur.y, orig.y, mask, j);
    CompactEnd(cur.z, orig.z, mask, j); CompactEnd(cur.weight, orig.weight, mask, j);
    CompactEnd(cur.r, orig.r, mask, j); CompactEnd(cur.g, orig.g, mask, j);
    CompactEnd(cur.b, orig.b, mask, j);
    assert orig.x[..|mask|] == orig.x;
  }

  /**
   * `applyDeletionMask(mask)` on `mask.size() == size()`: each of the seven
   * point vectors keeps, in order, the entries of the points not marked for
   * deletion; `m_min_dist` is not compacted.
   */
  function Compacted(c: Columns, mask: seq<bool>): Columns
    requires Indexable(c) && |mask| == Count(c)
  {
    var n := |mask|;
    Columns(Keep(c.x, mask), Keep(c.y[..n], mask), Keep(c.z[..n], mask), Keep(c.weight[..n], mask),
            Keep(c.r[..n], mask), Keep(c.g[..n], mask), Keep(c.b[..n], mask), c.minDist)
  }

  /**
   * After compaction exactly the unmarked points remain, in their original
   * relative order, each with its own weight and colour, and there are as
   * many of them as `false` entries in the mask.
   */
  lemma CompactedKeepsUnmarked(c: Columns, mask: seq<bool>)
    requires Indexable(c) && |mask| == Count(c)
    ensures Aligned(Compacted(c, mask)) && Count(Compacted(c, mask)) == CountFalse(mask)
    ensures var d, idx := Compacted(c, mask), KeptIndices(mask);
      |idx| == Count(d) &&
      (forall k :: 0 <= k < |idx| ==>
        idx[k] < Count(c) && PointAt(d, k) == PointAt(c, idx[k]) &&
        ColourAt(d, k) == ColourAt(c, idx[k]) && d.weight[k] == c.weight[idx[k]]) &&
      (forall k, l :: 0 <= k < l < |idx| ==> idx[k] < idx[l]) &&
      (forall i :: 0 <= i < |mask| ==> (i in idx <==> !mask[i]))
  {
    var n := |mask|;
    KeepExactly(c.x, mask);
    KeepExactly(c.y[..n], mask);
    KeepExactly(c.z[..n], mask);
    KeepExactly(c.weight[..n], mask);
    KeepExactly(c.r[..n], mask);
    KeepExactly(c.g[..n], mask);
    KeepExactly(c.b[..n], mask);
  }

  /** A mask of all `false` leaves every point vector as it was, cut to the point count. */
  lemma CompactedNothing(c: Columns, mask: seq<bool>)
    requires Aligned(c) && |mask| == Count(c) && forall i :: 0 <= i < |mask| ==> !mask[i]
    ensures Compacted(c, mask) == c
  {
    var n := |mask|;
    assert c.y[..n] == c.y && c.z[..n] == c.z && c.weight[..n] == c.weight;
    assert c.r[..n] == c.r && c.g[..n] == c.g && c.b[..n] == c.b;
    KeepAllFalse(c.x, mask);
    KeepAllFalse(c.y, mask);
    KeepAllFalse(c.z, mask);
    KeepAllFalse(c.weight, mask);
    KeepAllFalse(c.r, mask);
    KeepAllFalse(c.g, mask);
    KeepAllFalse(c.b, mask);
  }
}
