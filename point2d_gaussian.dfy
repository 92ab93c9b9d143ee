/**
 * mrpt::poses::CPoint2DPDFGaussian: a 2D point with Gaussian uncertainty,
 * a mean and a 2x2 covariance. Two such points are fused by adding their
 * information matrices (the inverse covariances), and compared by the
 * Mahalanobis distance of their means under the sum of their covariances.
 *
 * Matrices are exact over the reals with an explicit 2x2 inverse; a
 * singular matrix has no real inverse, so the operations that invert
 * require a non-zero determinant.
 */
module Point2DGaussian {

  datatype Vec2 = Vec2(x: real, y: real)

  /** The matrix [[a, b], [c, d]]. */
  datatype Mat2 = Mat2(a: real, b: real, c: real, d: real)

  const Identity: Mat2 := Mat2(1.0, 0.0, 0.0, 1.0)

  /** A default-constructed fixed-size matrix: all zeros. */
  const Zero: Mat2 := Mat2(0.0, 0.0, 0.0, 0.0)

  function Det(m: Mat2): real
  {
    m.a * m.d - m.b * m.c
  }

  function Add(m: Mat2, n: Mat2): Mat2
  {
    Mat2(m.a + n.a, m.b + n.b, m.c + n.c, m.d + n.d)
  }

  function Scale(k: real, m: Mat2): Mat2
  {
    Mat2(k * m.a, k * m.b, k * m.c, k * m.d)
  }

  function Mul(m: Mat2, n: Mat2): Mat2
  {
    Mat2(m.a * n.a + m.b * n.c, m.a * n.b + m.b * n.d, m.c * n.a + m.d * n.c, m.c * n.b + m.d * n.d)
  }

  function Apply(m: Mat2, v: Vec2): Vec2
  {
    Vec2(m.a * v.x + m.b * v.y, m.c * v.x + m.d * v.y)
  }

  function AddV(u: Vec2, v: Vec2): Vec2
  {
    Vec2(u.x + v.x, u.y + v.y)
  }

  function ScaleV(k: real, v: Vec2): Vec2
  {
    Vec2(k * v.x, k * v.y)
  }

  /** `v - u`. */
  function Delta(u: Vec2, v: Vec2): Vec2
  {
    Vec2(v.x - u.x, v.y - u.y)
  }

  /** The quadratic form `vᵀ m v`. */
  function Quad(m: Mat2, v: Vec2): real
  {
    v.x * (m.a * v.x + m.b * v.y) + v.y * (m.c * v.x + m.d * v.y)
  }

  /** The inverse of a matrix with a non-zero determinant: it undoes the matrix from both sides. */
  function Inverse(m: Mat2): (r: Mat2)
    requires Det(m) != 0.0
    ensures Mul(m, r) == Identity && Mul(r, m) == Identity
  {
    var k := 1.0 / Det(m);
    InverseWorks(m, k);
    Mat2(k * m.d, -k * m.b, -k * m.c, k * m.a)
  }

  lemma InverseWorks(m: Mat2, k: real)
    requires k * Det(m) == 1.0
    ensures Mul(m, Mat2(k * m.d, -k * m.b, -k * m.c, k * m.a)) == Identity
    ensures Mul(Mat2(k * m.d, -k * m.b, -k * m.c, k * m.a), m) == Identity
  {
    AdjugateEntries(m.a, m.b, m.c, m.d, k);
  }

  /** The entries of a matrix times its scaled adjugate, both ways round. */
  lemma AdjugateEntries(a: real, b: real, c: real, d: real, k: real)
    requires k * (a * d - b * c) == 1.0
    ensures a * (k * d) + b * (-k * c) == 1.0 && a * (-k * b) + b * (k * a) == 0.0
    ensures c * (k * d) + d * (-k * c) == 0.0 && c * (-k * b) + d * (k * a) == 1.0
    ensures (k * d) * a + (-k * b) * c == 1.0 && (k * d) * b + (-k * b) * d == 0.0
    ensures (-k * c) * a + (k * a) * c == 0.0 && (-k * c) * b + (k * a) * d == 1.0
  {
  }

  lemma DetMul(m: Mat2, n: Mat2)
    ensures Det(Mul(m, n)) == Det(m) * Det(n)
  {
  }

  lemma ApplyMul(m: Mat2, n: Mat2, v: Vec2)
    ensures Apply(Mul(m, n), v) == Apply(m, Apply(n, v))
  {
    Regroup(m.a, m.b, n.a, n.b, n.c, n.d, v.x, v.y);
    Regroup(m.c, m.d, n.a, n.b, n.c, n.d, v.x, v.y);
  }

  /** One entry of a triple product, grouped either way. */
  lemma Regroup(x1: real, x2: real, y1: real, y2: real, y3: real, y4: real, z1: real, z2: real)
    ensures (x1 * y1 + x2 * y3) * z1 + (x1 * y2 + x2 * y4) * z2 == x1 * (y1 * z1 + y2 * z2) + x2 * (y3 * z1 + y4 * z2)
  {
  }

  /** Cramer's rule for two equations in two unknowns. */
  lemma Cramer(p: real, q: real, r: real, s: real, x: real, y: real, e1: real, e2: real)
    requires p * x + q * y == e1 && r * x + s * y == e2
    ensures (p * s - q * r) * x == s * e1 - q * e2
    ensures (p * s - q * r) * y == p * e2 - r * e1
  {
    assert s * e1 == s * p * x + s * q * y;
    assert q * e2 == q * r * x + q * s * y;
    assert p * e2 == p * r * x + p * s * y;
    assert r * e1 == r * p * x + r * q * y;
  }

  lemma DivideOut(det: real, x: real, y: real)
    requires det != 0.0 && det * x == y
    ensures x == (1.0 / det) * y
  {
  }

  /** A right inverse is the inverse, and only an invertible matrix has one. */
  lemma InverseUnique(m: Mat2, n: Mat2)
    requires Mul(m, n) == Identity
    ensures Det(m) != 0.0 && n == Inverse(m)
  {
    var det := Det(m);
    Cramer(m.a, m.b, m.c, m.d, n.a, n.c, 1.0, 0.0);
    Cramer(m.a, m.b, m.c, m.d, n.b, n.d, 0.0, 1.0);
    DivideOut(det, n.a, m.d);
    DivideOut(det, n.b, -m.b);
    DivideOut(det, n.c, -m.c);
    DivideOut(det, n.d, m.a);
  }

  /** Doubling a matrix and halving its inverse keeps them inverse. */
  lemma DoubleHalf(i: Mat2, c: Mat2)
    requires Mul(i, c) == Identity
    ensures Mul(Add(i, i), Scale(0.5, c)) == Identity
  {
  }

  /** Applying half a matrix to a sum is half the sum of its images. */
  lemma HalfApply(c: Mat2, u: Vec2, v: Vec2)
    ensures Apply(Scale(0.5, c), AddV(u, v)) == ScaleV(0.5, AddV(Apply(c, u), Apply(c, v)))
  {
  }

  datatype Gaussian = Gaussian(mean: Vec2, cov: Mat2)

  /** Both covariances and the sum of their inverses can be inverted. */
  predicate Fusable(g1: Gaussian, g2: Gaussian)
  {
    Det(g1.cov) != 0.0 && Det(g2.cov) != 0.0 && Det(Add(Inverse(g1.cov), Inverse(g2.cov))) != 0.0
  }

  /**
   * The Bayesian fusion of two Gaussians: its information matrix (inverse
   * covariance) is the sum of theirs, and its information vector
   * (information matrix times mean) is the sum of theirs.
   */
  function Fuse(g1: Gaussian, g2: Gaussian): (r: Gaussian)
    requires Fusable(g1, g2)
    ensures Mul(r.cov, Add(Inverse(g1.cov), Inverse(g2.cov))) == Identity
    ensures Apply(Add(Inverse(g1.cov), Inverse(g2.cov)), r.mean)
      == AddV(Apply(Inverse(g1.cov), g1.mean), Apply(Inverse(g2.cov), g2.mean))
  {
    var i1, i2 := Inverse(g1.cov), Inverse(g2.cov);
    var l := Add(i1, i2);
    var cov := Inverse(l);
    var h := AddV(Apply(i1, g1.mean), Apply(i2, g2.mean));
    ApplyMul(l, cov, h);
    assert Apply(Identity, h) == h;
    Gaussian(Apply(cov, h), cov)
  }

  /** Fusion does not depend on the order of its arguments. */
  lemma FuseCommutes(g1: Gaussian, g2: Gaussian)
    requires Fusable(g1, g2)
    ensures Fusable(g2, g1) && Fuse(g1, g2) == Fuse(g2, g1)
  {
    assert Add(Inverse(g1.cov), Inverse(g2.cov)) == Add(Inverse(g2.cov), Inverse(g1.cov));
  }

  /** Fusing two Gaussians with the same covariance gives the midpoint of their means and half the covariance. */
  lemma FuseEqualCovariances(x1: Vec2, x2: Vec2, c: Mat2)
    requires Det(c) != 0.0
    ensures Fusable(Gaussian(x1, c), Gaussian(x2, c))
    ensures Fuse(Gaussian(x1, c), Gaussian(x2, c)) == Gaussian(ScaleV(0.5, AddV(x1, x2)), Scale(0.5, c))
  {
    var i := Inverse(c);
    DoubleHalf(i, c);
    InverseUnique(Add(i, i), Scale(0.5, c));
    HalfApply(c, Apply(i, x1), Apply(i, x2));
    ApplyMul(c, i, x1);
    ApplyMul(c, i, x2);
    assert Apply(Identity, x1) == x1 && Apply(Identity, x2) == x2;
  }

  /** The covariance of the sum of the two spreads, which the Mahalanobis distance inverts. */
  predicate Comparable(g1: Gaussian, g2: Gaussian)
  {
    Det(Add(g2.cov, g1.cov)) != 0.0
  }

  /**
   * The square of `mahalanobisDistanceTo`: the difference of the means
   * weighted by the inverse of the summed covariances. It is zero for equal
   * means.
   */
  function MahalanobisSquared(g1: Gaussian, g2: Gaussian): (r: real)
    requires Comparable(g1, g2)
    ensures g1.mean == g2.mean ==> r == 0.0
  {
    Quad(Inverse(Add(g2.cov, g1.cov)), Delta(g1.mean, g2.mean))
  }

  /** The distance from one Gaussian to another is the distance back. */
  lemma MahalanobisSymmetric(g1: Gaussian, g2: Gaussian)
    requires Comparable(g1, g2)
    ensures Comparable(g2, g1) && MahalanobisSquared(g1, g2) == MahalanobisSquared(g2, g1)
  {
    var m := Inverse(Add(g2.cov, g1.cov));
    assert Add(g2.cov, g1.cov) == Add(g1.cov, g2.cov);
    var v := Delta(g1.mean, g2.mean);
    assert Delta(g2.mean, g1.mean) == ScaleV(-1.0, v);
    QuadNegate(m, v);
  }

  lemma QuadNegate(m: Mat2, v: Vec2)
    ensures Quad(m, ScaleV(-1.0, v)) == Quad(m, v)
  {
  }

  /** A symmetric positive-definite matrix, as a covariance of full rank is. */
  predicate PositiveDefinite(m: Mat2)
  {
    m.b == m.c && m.a > 0.0 && Det(m) > 0.0
  }

  /** The inverse of a positive-definite matrix is positive definite. */
  lemma InversePositive(m: Mat2)
    requires PositiveDefinite(m)
    ensures PositiveDefinite(Inverse(m))
  {
    var i := Inverse(m);
    var k := 1.0 / Det(m);
    assert k > 0.0;
    assert m.b * m.c >= 0.0 by {
      assert m.b * m.c == m.b * m.b;
    }
    assert m.a * m.d > 0.0;
    PositiveFactor(m.a, m.d);
    ScaleOrder(k, m.d);
    DetMul(m, i);
    assert Det(Identity) == 1.0;
    assert Det(m) * Det(i) == 1.0;
    PositiveFactor(Det(m), Det(i));
  }

  lemma PositiveFactor(a: real, b: real)
    requires a > 0.0 && a * b > 0.0
    ensures b > 0.0
  {
    if b <= 0.0 {
      ScaleOrder(a, -b);
    }
  }

  lemma ScaleOrder(x: real, y: real)
    requires x > 0.0 && y >= 0.0
    ensures x * y >= 0.0 && (y > 0.0 ==> x * y > 0.0)
  {
  }

  /** A positive-definite quadratic form is never negative. */
  lemma QuadNonNegative(m: Mat2, v: Vec2)
    requires PositiveDefinite(m)
    ensures Quad(m, v) >= 0.0
  {
    SquareCompleted(m.a, m.b, m.c, m.d, v.x, v.y);
  }

  /** `a·q` is a square plus the determinant times another square. */
  lemma SquareCompleted(a: real, b: real, c: real, d: real, x: real, y: real)
    requires b == c && a > 0.0 && a * d - b * c > 0.0
    ensures x * (a * x + b * y) + y * (c * x + d * y) >= 0.0
  {
    var q := x * (a * x + b * y) + y * (c * x + d * y);
    var s := a * x + b * y;
    assert a * q == s * s + (a * d - b * c) * (y * y);
    assert s * s >= 0.0 && y * y >= 0.0;
    ScaleOrder(a * d - b * c, y * y);
    if q < 0.0 {
      ScaleOrder(a, -q);
    }
  }

  /** When the summed covariance is positive definite, as for two full-rank covariances, the squared distance is not negative. */
  lemma MahalanobisNonNegative(g1: Gaussian, g2: Gaussian)
    requires PositiveDefinite(Add(g2.cov, g1.cov))
    ensures Comparable(g1, g2) && MahalanobisSquared(g1, g2) >= 0.0
  {
    InversePositive(Add(g2.cov, g1.cov));
    QuadNonNegative(Inverse(Add(g2.cov, g1.cov)), Delta(g1.mean, g2.mean));
  }

  /** A point PDF as the generic `bayesianFusion` sees it: Gaussian or of another kind. */
  datatype Point2DPDF = GaussianPDF(g: Gaussian) | OtherPDF

  datatype FusionError = NotGaussian | NotImplemented

  /** The generic `bayesianFusion`: an input that is not Gaussian fails its assertion; two Gaussians reach a fusion that is not written and fail too. */
  function GenericFusion(p1: Point2DPDF, p2: Point2DPDF): (r: FusionError)
    ensures r == NotImplemented <==> p1.GaussianPDF? && p2.GaussianPDF?
  {
    if !p1.GaussianPDF? || !p2.GaussianPDF? then NotGaussian else NotImplemented
  }

  /** A 2D point with Gaussian uncertainty. */
  class CPoint2DPDFGaussian {
    var mean: Vec2
    var cov: Mat2

    function Value(): Gaussian
      reads this
    {
      Gaussian(mean, cov)
    }

    /** The default constructor: mean at the origin, zero covariance. */
    constructor ()
      ensures Value() == Gaussian(Vec2(0.0, 0.0), Zero)
    {
      mean := Vec2(0.0, 0.0);
      cov := Zero;
    }

    /** The constructor from a mean: zero covariance. */
    constructor FromMean(m: Vec2)
      ensures Value() == Gaussian(m, Zero)
    {
      mean := m;
      cov := Zero;
    }

    constructor FromMeanAndCov(m: Vec2, c: Mat2)
      ensures Value() == Gaussian(m, c)
    {
      mean := m;
      cov := c;
    }

    /** `copyFrom` another Gaussian: its mean and covariance; copying from itself changes nothing. */
    method CopyFrom(o: CPoint2DPDFGaussian)
      modifies this
      ensures Value() == old(o.Value())
    {
      if o == this {
        return;
      }
      cov := o.cov;
      mean := o.mean;
    }

    /**
     * `bayesianFusion` of two Gaussians into this object, which may be one
     * of them: the covariances are inverted before this object's
     * covariance is written and its mean is read only after that, so the
     * result is the fusion of the inputs as they were.
     */
    method BayesianFusion(p1: CPoint2DPDFGaussian, p2: CPoint2DPDFGaussian)
      requires Fusable(p1.Value(), p2.Value())
      modifies this
      ensures Value() == Fuse(old(p1.Value()), old(p2.Value()))
    {
      var c1Inv := Inverse(p1.cov);
      var c2Inv := Inverse(p2.cov);
      var l := Add(c1Inv, c2Inv);
      cov := Inverse(l);
      var x1 := p1.mean;
      var x2 := p2.mean;
      var x := Apply(cov, AddV(Apply(c1Inv, x1), Apply(c2Inv, x2)));
      mean := Vec2(x.x, x.y);
    }
  }
}
