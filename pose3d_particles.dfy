/**
 * mrpt::poses::CPose3DPDFParticles: a probability distribution over 3D
 * poses given by weighted samples, each a pose and the logarithm of its
 * weight.
 *
 * The exponential, the wrapping of an angle to [-pi, pi] and the inversion
 * of a pose (`CPose3D(0,0,0) - p`) are parameters of the operations that
 * use them; the model does not fix their values.
 */
module Pose3DParticles {

  const Pi: real := 3.141592653589793

  const TwoPi: real := 2.0 * Pi

  /** Ten to the power `n`, as a real; the ICP damping schedule uses it too. */
  function Pow10(n: nat): (r: real)
    ensures r >= 1.0
  {
    if n == 0 then 1.0 else 10.0 * Pow10(n - 1)
  }

  /** The start value of the running maximum in `getMostLikelyParticle`, -1e300. */
  const LowestLogWeight: real := -Pow10(300)

  datatype Pose3D = Pose3D(x: real, y: real, z: real, yaw: real, pitch: real, roll: real)

  const Origin: Pose3D := Pose3D(0.0, 0.0, 0.0, 0.0, 0.0, 0.0)

  datatype Particle = Particle(pose: Pose3D, logW: real)

  function Abs(x: real): real
  {
    if x < 0.0 then -x else x
  }

  // ---------------------------------------------------------------------
  // getMean
  // ---------------------------------------------------------------------

  /**
   * The running sums of one circular angle: angles beyond a quarter turn
   * from zero go to the left half, moved to [0, 2pi); the others to the
   * right half. Each half keeps its weighted sum and its weight.
   */
  datatype Side = Side(left: real, wLeft: real, right: real, wRight: real)

  const NoSide: Side := Side(0.0, 0.0, 0.0, 0.0)

  function AddAngle(s: Side, ang: real, w: real): (r: Side)
    ensures r.wLeft + r.wRight == s.wLeft + s.wRight + w
  {
    if Abs(ang) > 0.5 * Pi then
      var a := if ang < 0.0 then TwoPi + ang else ang;
      s.(left := s.left + a * w, wLeft := s.wLeft + w)
    else
      s.(right := s.right + ang * w, wRight := s.wRight + w)
  }

  /** The sums `getMean` keeps while it walks the particles. */
  datatype Sums = Sums(w: real, x: real, y: real, z: real, pitch: real, yaw: Side, roll: Side)

  const NoSums: Sums := Sums(0.0, 0.0, 0.0, 0.0, 0.0, NoSide, NoSide)

  /** Each angle's two halves together hold the total weight. */
  predicate Balanced(s: Sums)
  {
    s.yaw.wLeft + s.yaw.wRight == s.w && s.roll.wLeft + s.roll.wRight == s.w
  }

  /** One particle added to the sums, its weight being the exponential of its log weight. */
  function Step(s: Sums, p: Particle, exp: real -> real): (r: Sums)
    ensures Balanced(s) ==> Balanced(r)
  {
    var w := exp(p.logW);
    Sums(s.w + w, s.x + w * p.pose.x, s.y + w * p.pose.y, s.z + w * p.pose.z, s.pitch + w * p.pose.pitch,
         AddAngle(s.yaw, p.pose.yaw, w), AddAngle(s.roll, p.pose.roll, w))
  }

  /** The sums over all particles, first to last; their halves always account for the whole weight. */
  function Accumulate(ps: seq<Particle>, exp: real -> real): (s: Sums)
    ensures Balanced(s)
  {
    if ps == [] then NoSums else Step(Accumulate(ps[..|ps| - 1], exp), ps[|ps| - 1], exp)
  }

  /** The mean of one circular angle from its two halves, the left half's mean moved back to (-pi, pi]. */
  function SideMean(s: Side): real
    requires s.wLeft + s.wRight != 0.0
  {
    var l := if s.wLeft > 0.0 then s.left / s.wLeft else s.left;
    var r := if s.wRight > 0.0 then s.right / s.wRight else s.right;
    var l' := if l > Pi then l - TwoPi else l;
    (l' * s.wLeft + r * s.wRight) / (s.wLeft + s.wRight)
  }

  /** The mean pose from the sums: the origin when the total weight is zero. */
  function MeanOf(s: Sums): Pose3D
    requires Balanced(s)
  {
    if s.w == 0.0 then Origin
    else Pose3D(s.x / s.w, s.y / s.w, s.z / s.w, SideMean(s.yaw), s.pitch / s.w, SideMean(s.roll))
  }

  /** `getMean`, as a function of the particles. */
  function Mean(ps: seq<Particle>, exp: real -> real): Pose3D
  {
    MeanOf(Accumulate(ps, exp))
  }

  /** An angle in (-pi, pi], as a pose's angles are kept. */
  predicate Normalized(a: real)
  {
    -Pi < a <= Pi
  }

  /** The sums of an angle that every particle shares, with positive total weight `w`. */
  predicate SideOf(s: Side, a: real, w: real)
  {
    if Abs(a) > 0.5 * Pi then
      s.wRight == 0.0 && s.right == 0.0 && s.wLeft == w && s.left == (if a < 0.0 then TwoPi + a else a) * w
    else
      s.wLeft == 0.0 && s.left == 0.0 && s.wRight == w && s.right == a * w
  }

  /** The sums of particles that all sit at `q`: every sum is `q`'s value times the total weight. */
  predicate SumsOf(s: Sums, q: Pose3D)
  {
    CoordsOf(s, q) && SideOf(s.yaw, q.yaw, s.w) && SideOf(s.roll, q.roll, s.w)
  }

  /** The linear sums of particles that all sit at `q`. */
  predicate CoordsOf(s: Sums, q: Pose3D)
  {
    s.x == q.x * s.w && s.y == q.y * s.w && s.z == q.z * s.w && s.pitch == q.pitch * s.w
  }

  lemma {:induction false} AccumulateAt(ps: seq<Particle>, q: Pose3D, exp: real -> real)
    requires forall i :: 0 <= i < |ps| ==> ps[i].pose == q && exp(ps[i].logW) > 0.0
    ensures SumsOf(Accumulate(ps, exp), q)
    ensures ps != [] ==> Accumulate(ps, exp).w > 0.0
  {
    var r := Accumulate(ps, exp);
    if ps == [] {
      assert SumsOf(r, q) by { NothingAt(q); }
    } else {
      assert SumsOf(r, q) && r.w > 0.0 by {
        var init, p := ps[..|ps| - 1], ps[|ps| - 1];
        AccumulateAt(init, q, exp);
        StepAt(Accumulate(init, exp), p, exp);
      }
    }
  }

  /** No particles: all sums are zero, as they are for any pose. */
  lemma NothingAt(q: Pose3D)
    ensures SumsOf(NoSums, q)
  {
    ZeroTimes(q.x);
    ZeroTimes(q.y);
    ZeroTimes(q.z);
    ZeroTimes(q.pitch);
    ZeroTimes(q.yaw);
    ZeroTimes(q.roll);
    ZeroTimes(TwoPi + q.yaw);
    ZeroTimes(TwoPi + q.roll);
  }

  lemma ZeroTimes(a: real)
    ensures a * 0.0 == 0.0
  {
  }

  /** Adding a particle at `q` keeps the sums those of particles at `q`. */
  lemma StepAt(s: Sums, p: Particle, exp: real -> real)
    requires SumsOf(s, p.pose)
    ensures SumsOf(Step(s, p, exp), p.pose)
  {
    var w := exp(p.logW);
    StepCoords(s, p, exp);
    SideStep(s.yaw, p.pose.yaw, s.w, w);
    SideStep(s.roll, p.pose.roll, s.w, w);
  }

  lemma StepCoords(s: Sums, p: Particle, exp: real -> real)
    requires CoordsOf(s, p.pose)
    ensures CoordsOf(Step(s, p, exp), p.pose)
  {
    var w := exp(p.logW);
    CoordStep(s.x, s.w, p.pose.x, w);
    CoordStep(s.y, s.w, p.pose.y, w);
    CoordStep(s.z, s.w, p.pose.z, w);
    CoordStep(s.pitch, s.w, p.pose.pitch, w);
  }

  /** A sum that is `a` times its weight stays so when `a` is added with weight `w`. */
  lemma CoordStep(sum: real, v: real, a: real, w: real)
    requires sum == a * v
    ensures sum + w * a == a * (v + w)
  {
  }

  lemma SideStep(s: Side, a: real, v: real, w: real)
    requires SideOf(s, a, v)
    ensures SideOf(AddAngle(s, a, w), a, v + w)
  {
    var b := if a < 0.0 then TwoPi + a else a;
    AddScaled(b, v, w);
    AddScaled(a, v, w);
  }

  lemma AddScaled(a: real, v: real, w: real)
    ensures a * v + w * a == a * (v + w) && a * v + a * w == a * (v + w)
  {
  }

  /** One half holding the whole weight: the mean is that half's mean. */
  lemma OneHalf(l: real, w: real)
    requires w != 0.0
    ensures (l * w + 0.0 * 0.0) / (w + 0.0) == l && (0.0 * 0.0 + l * w) / (0.0 + w) == l
  {
  }

  /** The angle mean of particles that all share a normalized angle is that angle. */
  lemma SideMeanOf(s: Side, a: real, w: real)
    requires SideOf(s, a, w) && w > 0.0 && Normalized(a)
    ensures SideMean(s) == a
  {
    if Abs(a) > 0.5 * Pi {
      var b := if a < 0.0 then TwoPi + a else a;
      Divide(s.left, b, s.wLeft);
      assert (if b > Pi then b - TwoPi else b) == a;
      OneHalf(a, w);
    } else {
      Divide(s.right, a, s.wRight);
      OneHalf(a, w);
    }
  }

  /** Particles that all sit at one pose with normalized angles, with positive weights, have that pose as their mean. */
  lemma MeanOfIdentical(ps: seq<Particle>, q: Pose3D, exp: real -> real)
    requires ps != [] && Normalized(q.yaw) && Normalized(q.roll)
    requires forall i :: 0 <= i < |ps| ==> ps[i].pose == q && exp(ps[i].logW) > 0.0
    ensures Mean(ps, exp) == q
  {
    AccumulateAt(ps, q, exp);
    MeanAt(Accumulate(ps, exp), q);
  }

  /** Sums of particles at `q` with positive weight give `q` back as their mean. */
  lemma MeanAt(s: Sums, q: Pose3D)
    requires SumsOf(s, q) && s.w > 0.0 && Normalized(q.yaw) && Normalized(q.roll)
    ensures Balanced(s) && MeanOf(s) == q
  {
    Divide(s.x, q.x, s.w);
    Divide(s.y, q.y, s.w);
    Divide(s.z, q.z, s.w);
    Divide(s.pitch, q.pitch, s.w);
    SideMeanOf(s.yaw, q.yaw, s.w);
    SideMeanOf(s.roll, q.roll, s.w);
  }

  lemma Divide(sum: real, a: real, w: real)
    requires w != 0.0 && sum == a * w
    ensures sum / w == a
  {
  }

  /** A distribution whose weights all vanish has the origin as its mean. */
  lemma MeanOfNoWeight(ps: seq<Particle>, exp: real -> real)
    requires forall i :: 0 <= i < |ps| ==> exp(ps[i].logW) == 0.0
    ensures Mean(ps, exp) == Origin
  {
    NoWeight(ps, exp);
  }

  lemma {:induction false} NoWeight(ps: seq<Particle>, exp: real -> real)
    requires forall i :: 0 <= i < |ps| ==> exp(ps[i].logW) == 0.0
    ensures Accumulate(ps, exp).w == 0.0
  {
    if ps != [] {
      NoWeight(ps[..|ps| - 1], exp);
    }
  }

  // ---------------------------------------------------------------------
  // getCovarianceAndMean
  // ---------------------------------------------------------------------

  /** The number of pose components: x, y, z, yaw, pitch, roll. */
  const Dim: nat := 6

  /** A 6x6 matrix. */
  predicate Square6(m: seq<seq<real>>)
  {
    |m| == Dim && forall i :: 0 <= i < Dim ==> |m[i]| == Dim
  }

  const Zero6: seq<seq<real>> := [ZeroRow, ZeroRow, ZeroRow, ZeroRow, ZeroRow, ZeroRow]

  const ZeroRow: seq<real> := [0.0, 0.0, 0.0, 0.0, 0.0, 0.0]

  /** The sum of the exponentials of the log weights. */
  function WeightSum(ps: seq<Particle>, exp: real -> real): real
  {
    if ps == [] then 0.0 else WeightSum(ps[..|ps| - 1], exp) + exp(ps[|ps| - 1].logW)
  }

  /** A mean angle moved to [0, 2pi). */
  function Positive(a: real): real
  {
    if a < 0.0 then a + TwoPi else a
  }

  /**
   * The deviations of a pose from the mean, in the order x, y, z, yaw,
   * pitch, roll; an angle's deviation is the wrapped absolute difference
   * from the mean angle moved to [0, 2pi).
   */
  function Errors(p: Pose3D, mean: Pose3D, wrap: real -> real): (e: seq<real>)
    ensures |e| == Dim
  {
    [p.x - mean.x, p.y - mean.y, p.z - mean.z,
     wrap(Abs(p.yaw - Positive(mean.yaw))), wrap(Abs(p.pitch - Positive(mean.pitch))), wrap(Abs(p.roll - Positive(mean.roll)))]
  }

  /** One particle's share of covariance entry (i, j): the product of two deviations times its normalised weight. */
  function Term(p: Particle, i: nat, j: nat, mean: Pose3D, total: real, exp: real -> real, wrap: real -> real): real
    requires i < Dim && j < Dim && total != 0.0
  {
    var e := Errors(p.pose, mean, wrap);
    e[i] * e[j] * (exp(p.logW) / total)
  }

  /** Covariance entry (i, j) as a weighted sum over all particles. */
  function MomentSum(ps: seq<Particle>, i: nat, j: nat, mean: Pose3D, total: real, exp: real -> real, wrap: real -> real): real
    requires i < Dim && j < Dim && total != 0.0
  {
    if ps == [] then 0.0
    else MomentSum(ps[..|ps| - 1], i, j, mean, total, exp, wrap) + Term(ps[|ps| - 1], i, j, mean, total, exp, wrap)
  }

  /** The accumulators after one more particle: only the diagonal and the entries above it are summed. */
  function AddOuter(acc: seq<seq<real>>, p: Particle, mean: Pose3D, total: real, exp: real -> real, wrap: real -> real): (r: seq<seq<real>>)
    requires Square6(acc) && total != 0.0
    ensures Square6(r)
  {
    seq(Dim, i requires 0 <= i < Dim =>
      seq(Dim, j requires 0 <= j < Dim =>
        if i <= j then acc[i][j] + Term(p, i, j, mean, total, exp, wrap) else acc[i][j]))
  }

  /** The accumulators after all particles. */
  function Moments(ps: seq<Particle>, mean: Pose3D, total: real, exp: real -> real, wrap: real -> real): (m: seq<seq<real>>)
    requires total != 0.0
    ensures Square6(m)
  {
    if ps == [] then Zero6
    else AddOuter(Moments(ps[..|ps| - 1], mean, total, exp, wrap), ps[|ps| - 1], mean, total, exp, wrap)
  }

  /** The covariance from the accumulators: each entry above the diagonal is mirrored below it. */
  function Mirror(acc: seq<seq<real>>): (c: seq<seq<real>>)
    requires Square6(acc)
    ensures Square6(c)
    ensures forall i, j :: 0 <= i < Dim && 0 <= j < Dim ==> c[i][j] == c[j][i]
  {
    seq(Dim, i requires 0 <= i < Dim => seq(Dim, j requires 0 <= j < Dim => if i <= j then acc[i][j] else acc[j][i]))
  }

  /** The accumulators hold the full weighted sum on and above the diagonal, and zero below it. */
  lemma {:induction false} MomentsAreSums(ps: seq<Particle>, mean: Pose3D, total: real, exp: real -> real, wrap: real -> real, i: nat, j: nat)
    requires total != 0.0 && i < Dim && j < Dim
    ensures Moments(ps, mean, total, exp, wrap)[i][j] == (if i <= j then MomentSum(ps, i, j, mean, total, exp, wrap) else 0.0)
  {
    if ps != [] {
      MomentsAreSums(ps[..|ps| - 1], mean, total, exp, wrap, i, j);
    }
  }

  /** Entry (i, j) and entry (j, i) of the weighted sums agree. */
  lemma {:induction false} MomentSumSymmetric(ps: seq<Particle>, mean: Pose3D, total: real, exp: real -> real, wrap: real -> real, i: nat, j: nat)
    requires total != 0.0 && i < Dim && j < Dim
    ensures MomentSum(ps, i, j, mean, total, exp, wrap) == MomentSum(ps, j, i, mean, total, exp, wrap)
  {
    if ps != [] {
      MomentSumSymmetric(ps[..|ps| - 1], mean, total, exp, wrap, i, j);
    }
  }

  datatype CovarianceAndMean = CovarianceAndMean(cov: seq<seq<real>>, mean: Pose3D)

  datatype Outcome<T> = Done(value: T) | AssertionFailed

  /**
   * `getCovarianceAndMean`: the mean of `getMean` and, for two particles or
   * more, the weighted second moments of the deviations from it; fewer
   * particles leave the covariance zero, and a total weight that is not
   * positive fails the assertion.
   */
  function CovarianceOf(ps: seq<Particle>, exp: real -> real, wrap: real -> real): (r: Outcome<CovarianceAndMean>)
    ensures r.Done? ==> Square6(r.value.cov) && r.value.mean == Mean(ps, exp)
    ensures |ps| < 2 ==> r == Done(CovarianceAndMean(Zero6, Mean(ps, exp)))
    ensures r.AssertionFailed? <==> |ps| >= 2 && WeightSum(ps, exp) <= 0.0
  {
    var mean := Mean(ps, exp);
    if |ps| < 2 then Done(CovarianceAndMean(Zero6, mean))
    else
      var total := WeightSum(ps, exp);
      if !(total > 0.0) then AssertionFailed
      else Done(CovarianceAndMean(Mirror(Moments(ps, mean, total, exp, wrap)), mean))
  }

  /** Every entry of the covariance, below the diagonal too, is the weighted second moment of its two deviations. */
  lemma CovarianceEntries(ps: seq<Particle>, exp: real -> real, wrap: real -> real, i: nat, j: nat)
    requires i < Dim && j < Dim && CovarianceOf(ps, exp, wrap).Done? && |ps| >= 2
    ensures CovarianceOf(ps, exp, wrap).value.cov[i][j]
      == MomentSum(ps, i, j, Mean(ps, exp), WeightSum(ps, exp), exp, wrap)
  {
    var mean, total := Mean(ps, exp), WeightSum(ps, exp);
    MomentsAreSums(ps, mean, total, exp, wrap, i, j);
    MomentsAreSums(ps, mean, total, exp, wrap, j, i);
    MomentSumSymmetric(ps, mean, total, exp, wrap, i, j);
  }

  /** With non-negative weights the variances on the diagonal are not negative. */
  lemma {:induction false} VarianceNonNegative(ps: seq<Particle>, mean: Pose3D, total: real, exp: real -> real, wrap: real -> real, i: nat)
    requires i < Dim && total > 0.0
    requires forall k :: 0 <= k < |ps| ==> exp(ps[k].logW) >= 0.0
    ensures MomentSum(ps, i, i, mean, total, exp, wrap) >= 0.0
  {
    if ps != [] {
      VarianceNonNegative(ps[..|ps| - 1], mean, total, exp, wrap, i);
      var p := ps[|ps| - 1];
      var e := Errors(p.pose, mean, wrap)[i];
      var w := exp(p.logW) / total;
      assert w >= 0.0;
      assert e * e >= 0.0;
      NonNegativeProduct(e * e, w);
    }
  }

  lemma NonNegativeProduct(a: real, b: real)
    requires a >= 0.0 && b >= 0.0
    ensures a * b >= 0.0
  {
  }

  // ---------------------------------------------------------------------
  // inverse
  // ---------------------------------------------------------------------

  /** Every particle's pose inverted, its weight kept. */
  function InvertAll(ps: seq<Particle>, invert: Pose3D -> Pose3D): (r: seq<Particle>)
    ensures |r| == |ps|
    ensures forall i :: 0 <= i < |ps| ==> r[i].pose == invert(ps[i].pose) && r[i].logW == ps[i].logW
  {
    seq(|ps|, i requires 0 <= i < |ps| => Particle(invert(ps[i].pose), ps[i].logW))
  }

  /** When inverting a pose twice gives it back, inverting a distribution twice gives it back. */
  lemma InvertTwice(ps: seq<Particle>, invert: Pose3D -> Pose3D)
    requires forall p :: invert(invert(p)) == p
    ensures InvertAll(InvertAll(ps, invert), invert) == ps
  {
  }

  /** A pose PDF other than a particle set, as `copyFrom` sees it. */
  datatype OtherPDF = GaussianPDF | AnyOtherPDF

  datatype CopyResult = Unchanged | NotImplemented

  /** `copyFrom` a PDF that is not a particle set: a Gaussian one is not written and fails; any other kind leaves the object as it was. */
  function CopyFromOther(o: OtherPDF): (r: CopyResult)
    ensures r == NotImplemented <==> o == GaussianPDF
  {
    if o == GaussianPDF then NotImplemented else Unchanged
  }

  /** A set of weighted pose samples. */
  class CPose3DPDFParticles {
    var particles: seq<Particle>

    /** `M` particles, all at the origin with log weight zero. */
    constructor (m: nat)
      ensures particles == seq(m, _ => Particle(Origin, 0.0))
    {
      particles := seq(m, _ => Particle(Origin, 0.0));
    }

    /**
     * `resetDeterministic`: a positive count first resizes the set to that
     * many particles; then every particle is put at `location` with log
     * weight zero.
     */
    method ResetDeterministic(location: Pose3D, count: nat)
      modifies this
      ensures |particles| == (if count > 0 then count else |old(particles)|)
      ensures forall i :: 0 <= i < |particles| ==> particles[i] == Particle(location, 0.0)
    {
      if count > 0 {
        particles := seq(count, _ => Particle(Origin, 0.0));
      }
      var n := |particles|;
      var i := 0;
      while i < n
        invariant 0 <= i <= n && |particles| == n
        invariant forall k :: 0 <= k < i ==> particles[k] == Particle(location, 0.0)
      {
        particles := particles[i := Particle(location, 0.0)];
        i := i + 1;
      }
    }

    /**
     * `copyFrom` another particle set: the same number of particles with the
     * same poses and log weights; copying from itself changes nothing.
     */
    method CopyFrom(o: CPose3DPDFParticles)
      modifies this
      ensures particles == old(o.particles)
    {
      if o == this {
        return;
      }
      var n := |o.particles|;
      if |particles| != n {
        particles := seq(n, _ => Particle(Origin, 0.0));
      }
      var i := 0;
      while i < n
        invariant 0 <= i <= n && |particles| == n
        invariant forall k :: 0 <= k < i ==> particles[k] == o.particles[k]
      {
        particles := particles[i := Particle(o.particles[i].pose, o.particles[i].logW)];
        i := i + 1;
      }
    }

    /**
     * `getMostLikelyParticle` on a non-empty set: the first particle whose log
     * weight is the largest, or the first particle when no log weight exceeds
     * -1e300.
     */
    method GetMostLikelyParticle() returns (k: nat, pose: Pose3D)
      requires |particles| > 0
      ensures k < |particles| && pose == particles[k].pose
      ensures (forall i :: 0 <= i < |particles| ==> particles[i].logW <= LowestLogWeight) ==> k == 0
      ensures (exists i :: 0 <= i < |particles| && particles[i].logW > LowestLogWeight) ==>
                (forall i :: 0 <= i < |particles| ==> particles[i].logW <= particles[k].logW)
                && (forall i :: 0 <= i < k ==> particles[i].logW < particles[k].logW)
    {
      var maxW := LowestLogWeight;
      k := 0;
      var i := 0;
      while i < |particles|
        invariant 0 <= i <= |particles| && k < |particles|
        invariant forall j :: 0 <= j < i ==> particles[j].logW <= maxW
        invariant maxW == LowestLogWeight ==> k == 0
        invariant maxW != LowestLogWeight ==> maxW == particles[k].logW && k < i
        invariant maxW >= LowestLogWeight
        invariant forall j :: 0 <= j < k ==> particles[j].logW < maxW
      {
        if particles[i].logW > maxW {
          k := i;
          maxW := particles[i].logW;
        }
        i := i + 1;
      }
      pose := particles[k].pose;
    }

    /** `getMean`: the weighted sums over the particles, then their means. */
    method GetMean(exp: real -> real) returns (p: Pose3D)
      ensures p == Mean(particles, exp)
    {
      var s := NoSums;
      var i := 0;
      while i < |particles|
        invariant 0 <= i <= |particles|
        invariant s == Accumulate(particles[..i], exp)
      {
        assert particles[..i + 1][..i] == particles[..i];
        s := Step(s, particles[i], exp);
        i := i + 1;
      }
      assert particles[..|particles|] == particles;
      if s.w == 0.0 {
        return Origin;
      }
      p := Pose3D(s.x / s.w, s.y / s.w, s.z / s.w, SideMean(s.yaw), s.pitch / s.w, SideMean(s.roll));
    }

    /** `getCovarianceAndMean`. */
    method GetCovarianceAndMean(exp: real -> real, wrap: real -> real) returns (r: Outcome<CovarianceAndMean>)
      ensures r == CovarianceOf(particles, exp, wrap)
    {
      var mean := GetMean(exp);
      if |particles| < 2 {
        return Done(CovarianceAndMean(Zero6, mean));
      }
      var total := 0.0;
      var i := 0;
      while i < |particles|
        invariant 0 <= i <= |particles|
        invariant total == WeightSum(particles[..i], exp)
      {
        assert particles[..i + 1][..i] == particles[..i];
        total := total + exp(particles[i].logW);
        i := i + 1;
      }
      assert particles[..|particles|] == particles;
      if !(total > 0.0) {
        return AssertionFailed;
      }
      var acc := Zero6;
      i := 0;
      while i < |particles|
        invariant 0 <= i <= |particles|
        invariant acc == Moments(particles[..i], mean, total, exp, wrap)
      {
        assert particles[..i + 1][..i] == particles[..i];
        acc := AddOuter(acc, particles[i], mean, total, exp, wrap);
        i := i + 1;
      }
      r := Done(CovarianceAndMean(Mirror(acc), mean));
    }

    /** `inverse` into a particle set `out`, which may be this one: a copy of this set with every pose inverted. */
    method Inverse(out: CPose3DPDFParticles, invert: Pose3D -> Pose3D)
      modifies out
      ensures out.particles == InvertAll(old(particles), invert)
    {
      out.CopyFrom(this);
      var n := |out.particles|;
      var i := 0;
      while i < n
        invariant 0 <= i <= n && |out.particles| == n && n == |old(particles)|
        invariant forall k :: 0 <= k < i ==> out.particles[k] == Particle(invert(old(particles)[k].pose), old(particles)[k].logW)
        invariant forall k :: i <= k < n ==> out.particles[k] == old(particles)[k]
      {
        out.particles := out.particles[i := out.particles[i].(pose := invert(out.particles[i].pose))];
        i := i + 1;
      }
    }
  }
}
