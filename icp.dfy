/**
 * mrpt::slam::CICP: the control shell of the iterative-closest-point
 * alignment of two 2D point maps.
 *
 * `AlignPDF` picks the algorithm named by the options. Both the classic
 * method and the Levenberg-Marquardt method repeat passes that match the
 * maps at the current pose estimate, improve the estimate from the
 * correspondences, and shrink the matching thresholds by `ALFA` once the
 * estimate stops moving. The matching of the two maps, the least-squares
 * rigid transformation, the Levenberg-Marquardt step, the summed squared
 * error, the angle wrapping, the RANSAC step and the quality score are
 * parameters of the model (`Env`): they are computed by code this model
 * does not include.
 */
module ICP {

  import Pose3DParticles

  const Pi: real := 3.141592653589793

  // ---------------------------------------------------------------------
  // CICP.h: algorithm codes, options, return information
  // ---------------------------------------------------------------------

  /** `TICPAlgorithm`. */
  const IcpClassic: int := 0
  const IcpLevenbergMarquardt: int := 1
  const IcpIKF: int := 2

  /** One more than the largest `unsigned short`, the type of `nIterations`. */
  const UShortLimit: nat := 0x1_0000

  type UShort = n: nat | n < UShortLimit

  /** `TConfigParams`; `algorithm` holds the raw value of the `ICP_algorithm` enumeration. */
  datatype Config = Config(
    algorithm: int,
    onlyClosestCorrespondences: bool,
    onlyUniqueRobust: bool,
    maxIterations: nat,
    thresholdDist: real,
    thresholdAng: real,
    alfa: real,
    smallestThresholdDist: real,
    covarianceVarPoints: real,
    doRANSAC: bool,
    ransacMinSetSize: nat,
    ransacMaxSetSize: nat,
    ransacNSimulations: nat,
    ransacMahalanobisDistanceThreshold: real,
    normalizationStd: real,
    ransacFuseByCorrsMatch: bool,
    ransacFuseMaxDiffXY: real,
    ransacFuseMaxDiffPhi: real,
    kernelRho: real,
    useKernel: bool,
    axyAproxDerivatives: real,
    lmInitialLambda: real)

  function Deg2Rad(d: real): real
  {
    d * Pi / 180.0
  }

  /** The options a default-constructed `TConfigParams` holds. */
  function DefaultConfig(): (c: Config)
    ensures c.algorithm == IcpClassic && Terminating(c) && c.thresholdDist > c.smallestThresholdDist
    ensures c.useKernel && c.kernelRho > 0.0 && !c.doRANSAC
  {
    Config(IcpClassic, true, false, 40, 0.75, Deg2Rad(0.15), 0.50, 0.10, 0.02 * 0.02, false,
           3, 20, 100, 3.0, 0.02, true, 0.01, Deg2Rad(0.1), 0.07, true, 0.05, 0.0001)
  }

  /**
   * The options under which both ICP loops end: `ALFA` strictly between 0
   * and 1 (which the methods assert), a positive smallest threshold, and an
   * iteration limit the `unsigned short` counter can reach.
   */
  predicate Terminating(o: Config)
  {
    0.0 < o.alfa < 1.0 && o.smallestThresholdDist > 0.0 && o.maxIterations < UShortLimit
  }

  /** `sizeof(TReturnInfo)`: an `unsigned int`, an `unsigned short` padded to four bytes and two floats. */
  const InfoSize: nat := 16

  /** `TReturnInfo`. */
  datatype ReturnInfo = ReturnInfo(cbSize: nat, nIterations: UShort, goodness: real, quality: real)

  /** A default-constructed `TReturnInfo`: the right size, and zeros. */
  const DefaultInfo: ReturnInfo := ReturnInfo(InfoSize, 0, 0.0, 0.0)

  // ---------------------------------------------------------------------
  // kernel
  // ---------------------------------------------------------------------

  function Abs(x: real): real
  {
    if x < 0.0 then -x else x
  }

  /**
   * `kernel(x2, rho2)`: the Cauchy kernel `x2 / (x2 + rho2)` when the
   * options enable it, the squared distance unchanged otherwise.
   */
  function Kernel(useKernel: bool, x2: real, rho2: real): (k: real)
    requires useKernel ==> x2 + rho2 != 0.0
    ensures !useKernel ==> k == x2
    ensures useKernel && x2 >= 0.0 && rho2 > 0.0 ==> 0.0 <= k < 1.0
  {
    if useKernel then
      Fraction(x2, rho2);
      x2 / (x2 + rho2)
    else x2
  }

  lemma Fraction(x: real, r: real)
    requires x + r != 0.0
    ensures x >= 0.0 && r > 0.0 ==> 0.0 <= x / (x + r) < 1.0
  {
    if x >= 0.0 && r > 0.0 {
      assert x / (x + r) * (x + r) == x;
    }
  }

  /** The enabled kernel grows with the squared distance. */
  lemma KernelMonotone(x2: real, y2: real, rho2: real)
    requires 0.0 <= x2 <= y2 && rho2 > 0.0
    ensures Kernel(true, x2, rho2) <= Kernel(true, y2, rho2)
  {
    CrossMultiply(x2, y2, rho2);
  }

  lemma CrossMultiply(x: real, y: real, r: real)
    requires 0.0 <= x <= y && r > 0.0
    ensures x / (x + r) <= y / (y + r)
  {
    CrossProducts(x, y, r);
    DivMono(x, x + r, y, y + r);
  }

  lemma CrossProducts(x: real, y: real, r: real)
    requires 0.0 <= x <= y && r > 0.0
    ensures x * (y + r) <= y * (x + r)
  {
    assert x * (y + r) == x * y + x * r;
    assert y * (x + r) == x * y + y * r;
    assert x * r <= y * r;
  }

  /** Comparing two quotients with positive denominators by cross-multiplying. */
  lemma DivMono(x: real, p: real, y: real, q: real)
    requires p > 0.0 && q > 0.0 && x * q <= y * p
    ensures x / p <= y / q
  {
    var a, b := x / p, y / q;
    assert a * p == x;
    assert b * q == y;
    assert a * (p * q) <= b * (p * q) by {
      assert a * (p * q) == x * q;
      assert b * (p * q) == y * p;
    }
  }

  // ---------------------------------------------------------------------
  // The world outside the control shell
  // ---------------------------------------------------------------------

  datatype Pose2D = Pose2D(x: real, y: real, phi: real)

  const Origin: Pose2D := Pose2D(0.0, 0.0, 0.0)

  /** One correspondence: a point of the reference map and the point of the other map matched to it. */
  datatype MatchingPair = MatchingPair(thisX: real, thisY: real, otherX: real, otherY: real)

  /** The result of `computeMatchingWith2D`: the correspondences, their ratio and their mean squared error. */
  datatype Matching = Matching(pairs: seq<MatchingPair>, ratio: real, mse: real)

  const NoMatching: Matching := Matching([], 0.0, 0.0)

  /**
   * What the control shell calls:
   *   matchWith(pose, dist, ang, pivot, onlyClosest, onlyUnique) matches the
   *     two maps with the other map at `pose`;
   *   leastSquares is `leastSquareErrorRigidTransformation`;
   *   lmDelta(pairs, q0, lambda) is the Levenberg-Marquardt step, from the
   *     Jacobian and the errors taken at `q0`, for damping `lambda`;
   *   squareError(pairs, q) is the summed squared error of the pairs at `q`;
   *   wrapToPi wraps an angle to [-pi, pi];
   *   robust is the RANSAC step that turns correspondences into a sum of Gaussians;
   *   classicQuality and lmQuality are the quality scores at the final pose.
   */
  datatype Env = Env(
    matchWith: (Pose2D, real, real, Pose2D, bool, bool) -> Matching,
    leastSquares: seq<MatchingPair> -> Pose2D,
    lmDelta: (seq<MatchingPair>, Pose2D, real) -> Pose2D,
    squareError: (seq<MatchingPair>, Pose2D) -> real,
    wrapToPi: real -> real,
    classicQuality: (Pose2D, real, real) -> real,
    lmQuality: (Pose2D, real, real) -> real)

  // ---------------------------------------------------------------------
  // The Levenberg-Marquardt inner loop
  // ---------------------------------------------------------------------

  /** The inner loop runs while its pre-incremented counter stays below this. */
  const MaxLMIters: nat := 100

  const TolXY: real := 0.000000001

  const TolTheta: real := 0.001 * Pi / 180.0

  /** The inner loop's state; `accepted` and `rejected` count its two kinds of step. */
  datatype LMState = LMState(pose: Pose2D, lambda: real, error: real, iters: nat, keep: bool, accepted: nat, rejected: nat)

  /**
   * One step: try the pose moved by the step for the current damping; keep
   * it and divide the damping by ten when it lowers the summed squared
   * error, else keep the pose and multiply the damping by ten. The loop goes
   * on while some component of the step exceeds its tolerance.
   */
  function LMStep(env: Env, pairs: seq<MatchingPair>, q0: Pose2D, st: LMState): (r: LMState)
    ensures r.iters == st.iters + 1
    ensures r.accepted + r.rejected == st.accepted + st.rejected + 1
    ensures r.error <= st.error
    ensures r.pose == st.pose || r.error < st.error
  {
    var d := env.lmDelta(pairs, q0, st.lambda);
    var next := Pose2D(st.pose.x - d.x, st.pose.y - d.y, st.pose.phi - d.phi);
    var e := env.squareError(pairs, next);
    var keep := Abs(d.x) > TolXY || Abs(d.y) > TolXY || Abs(d.phi) > TolTheta;
    if e < st.error then
      LMState(next, st.lambda / 10.0, e, st.iters + 1, keep, st.accepted + 1, st.rejected)
    else
      LMState(st.pose, st.lambda * 10.0, st.error, st.iters + 1, keep, st.accepted, st.rejected + 1)
  }

  function LMLoop(env: Env, pairs: seq<MatchingPair>, q0: Pose2D, st: LMState): LMState
    decreases MaxLMIters - st.iters
  {
    if st.keep && st.iters + 1 < MaxLMIters then LMLoop(env, pairs, q0, LMStep(env, pairs, q0, st)) else st
  }

  function LMStart(o: Config, env: Env, pairs: seq<MatchingPair>, q0: Pose2D): LMState
  {
    LMState(q0, o.lmInitialLambda, env.squareError(pairs, q0), 0, true, 0, 0)
  }

  /** The inner Levenberg-Marquardt loop of one pass, from the pass's pose `q0`. */
  function LMRun(o: Config, env: Env, pairs: seq<MatchingPair>, q0: Pose2D): LMState
  {
    LMLoop(env, pairs, q0, LMStart(o, env, pairs, q0))
  }

  /** The invariant of the inner loop: its error is that of its pose, never above the start, and its damping is the start's times ten per rejection and over ten per acceptance. */
  predicate LMInvariant(env: Env, pairs: seq<MatchingPair>, q0: Pose2D, lambda0: real, st: LMState)
  {
    st.error == env.squareError(pairs, st.pose)
    && st.error <= env.squareError(pairs, q0)
    && (st.pose == q0 || st.error < env.squareError(pairs, q0))
    && st.accepted + st.rejected == st.iters
    && st.lambda * Pose3DParticles.Pow10(st.accepted) == lambda0 * Pose3DParticles.Pow10(st.rejected)
  }

  lemma StepKeepsInvariant(env: Env, pairs: seq<MatchingPair>, q0: Pose2D, lambda0: real, st: LMState)
    requires LMInvariant(env, pairs, q0, lambda0, st)
    ensures LMInvariant(env, pairs, q0, lambda0, LMStep(env, pairs, q0, st))
  {
    var r := LMStep(env, pairs, q0, st);
    if r.accepted == st.accepted + 1 {
      Decade(st.lambda, Pose3DParticles.Pow10(st.accepted));
    } else {
      Decade(lambda0, Pose3DParticles.Pow10(st.rejected));
      assert r.lambda * Pose3DParticles.Pow10(r.accepted) == st.lambda * 10.0 * Pose3DParticles.Pow10(st.accepted);
    }
  }

  lemma Decade(a: real, b: real)
    ensures a / 10.0 * (10.0 * b) == a * b && a * 10.0 * b == a * (10.0 * b)
  {
  }

  /**
   * The inner loop takes at most 99 steps, ends at a pose whose summed
   * squared error is not above the start's (and strictly below it unless
   * the pose is the start's), and leaves the damping multiplied by ten per
   * rejected step and divided by ten per accepted one.
   */
  lemma {:induction false} LMLoopProperties(env: Env, pairs: seq<MatchingPair>, q0: Pose2D, lambda0: real, st: LMState)
    requires LMInvariant(env, pairs, q0, lambda0, st) && st.iters < MaxLMIters
    ensures var r := LMLoop(env, pairs, q0, st);
      LMInvariant(env, pairs, q0, lambda0, r) && st.iters <= r.iters < MaxLMIters
      && (r.iters + 1 < MaxLMIters ==> !r.keep)
    decreases MaxLMIters - st.iters
  {
    if st.keep && st.iters + 1 < MaxLMIters {
      StepKeepsInvariant(env, pairs, q0, lambda0, st);
      LMLoopProperties(env, pairs, q0, lambda0, LMStep(env, pairs, q0, st));
    }
  }

  lemma LMRunProperties(o: Config, env: Env, pairs: seq<MatchingPair>, q0: Pose2D)
    ensures var r := LMRun(o, env, pairs, q0);
      LMInvariant(env, pairs, q0, o.lmInitialLambda, r) && r.iters <= MaxLMIters - 1
  {
    LMLoopProperties(env, pairs, q0, o.lmInitialLambda, LMStart(o, env, pairs, q0));
  }

  // ---------------------------------------------------------------------
  // The outer ICP loop
  // ---------------------------------------------------------------------

  /**
   * The variables of the ICP loop: the pose estimate, the pose of the
   * previous pass, the distance and angle thresholds, the iteration counter,
   * whether to keep approaching, and the last matching.
   */
  datatype Loop = Loop(pose: Pose2D, last: Pose2D, dist: real, ang: real, n: UShort, keep: bool, found: Matching)

  function Start(o: Config, init: Pose2D): Loop
  {
    Loop(init, Origin, o.thresholdDist, o.thresholdAng, 0, false, NoMatching)
  }

  /** Whether the estimate stopped moving: by at most 1e-6 for the classic method, by less than 1e-6 for Levenberg-Marquardt. */
  function Settled(last: Pose2D, pose: Pose2D, wrap: real -> real, strict: bool): bool
  {
    var e := 0.000001;
    var dx, dy, dphi := Abs(last.x - pose.x), Abs(last.y - pose.y), Abs(wrap(last.phi - pose.phi));
    if strict then dx < e && dy < e && dphi < e else dx <= e && dy <= e && dphi <= e
  }

  /** The matching at the current estimate with the current thresholds, the estimate being the pivot. */
  function MatchAt(o: Config, env: Env, s: Loop): Matching
  {
    env.matchWith(s.pose, s.dist, s.ang, s.pose, o.onlyClosestCorrespondences, o.onlyUniqueRobust)
  }

  /**
   * A pass up to the iteration count: without correspondences it stops
   * approaching and keeps the estimate; otherwise it takes the new
   * estimate, and when that did not move it shrinks both thresholds by
   * `ALFA` and stops approaching once the distance threshold falls below the
   * smallest one.
   */
  function Estimate(o: Config, env: Env, s: Loop, lm: bool): (r: Loop)
    ensures r.n == s.n && r.found == MatchAt(o, env, s)
    ensures |r.found.pairs| == 0 ==> r.pose == s.pose && !r.keep && r.dist == s.dist && r.ang == s.ang
    ensures |r.found.pairs| > 0 ==> r.last == r.pose
    ensures |r.found.pairs| > 0 && Settled(s.last, r.pose, env.wrapToPi, lm) ==>
      r.dist == s.dist * o.alfa && r.ang == s.ang * o.alfa && (r.keep <==> !(r.dist < o.smallestThresholdDist))
    ensures |r.found.pairs| > 0 && !Settled(s.last, r.pose, env.wrapToPi, lm) ==> r.dist == s.dist && r.ang == s.ang && r.keep
  {
    var m := MatchAt(o, env, s);
    if |m.pairs| == 0 then s.(keep := false, found := m)
    else
      var p := if lm then LMRun(o, env, m.pairs, s.pose).pose else env.leastSquares(m.pairs);
      if Settled(s.last, p, env.wrapToPi, lm) then
        var d := s.dist * o.alfa;
        Loop(p, p, d, s.ang * o.alfa, s.n, !(d < o.smallestThresholdDist), m)
      else
        Loop(p, p, s.dist, s.ang, s.n, true, m)
  }

  /** The end of a pass: count it, and once the count reaches the limit shrink a distance threshold still above the smallest. */
  function Tail(o: Config, s: Loop): (r: Loop)
    ensures r.n == (s.n + 1) % UShortLimit
    ensures r.dist == (if r.n >= o.maxIterations && s.dist > o.smallestThresholdDist then s.dist * o.alfa else s.dist)
    ensures r.(n := s.n, dist := s.dist) == s
  {
    var n := (s.n + 1) % UShortLimit;
    s.(n := n, dist := if n >= o.maxIterations && s.dist > o.smallestThresholdDist then s.dist * o.alfa else s.dist)
  }

  /** One pass of the loop body. */
  function Pass(o: Config, env: Env, s: Loop, lm: bool): Loop
  {
    Tail(o, Estimate(o, env, s, lm))
  }

  /** The loop condition: keep approaching below the iteration limit, or, past it, a distance threshold above the smallest. */
  predicate Continue(o: Config, s: Loop)
  {
    (s.keep && s.n < o.maxIterations) || (s.n >= o.maxIterations && s.dist > o.smallestThresholdDist)
  }

  /** How many more shrinkings by `ALFA` a threshold `u` above `floor` can take: each takes at least `floor * (1 - alfa)` off it. */
  function StepsOf(u: real, floor: real, alfa: real): nat
    requires floor > 0.0 && 0.0 < alfa < 1.0
  {
    if u <= floor then 0
    else
      PositiveQuotient(u - floor, floor * (1.0 - alfa));
      ((u - floor) / (floor * (1.0 - alfa))).Floor + 1
  }

  lemma PositiveQuotient(a: real, b: real)
    requires a > 0.0 && b > 0.0
    ensures a / b > 0.0
  {
  }

  /** Shrinking by `ALFA` never adds to the steps left, and takes one off while the threshold is above the floor. */
  lemma ShrinkSteps(u: real, floor: real, alfa: real)
    requires floor > 0.0 && 0.0 < alfa < 1.0
    ensures StepsOf(u * alfa, floor, alfa) <= StepsOf(u, floor, alfa)
    ensures u > floor ==> StepsOf(u * alfa, floor, alfa) < StepsOf(u, floor, alfa)
  {
    if u <= floor {
      ShrinkBelowFloor(u, floor, alfa);
    } else if u * alfa > floor {
      var d := floor * (1.0 - alfa);
      GainAboveFloor(u, floor, alfa);
      DivideGap(u - floor, u * alfa - floor, d);
      FloorGap((u - floor) / d, (u * alfa - floor) / d);
    }
  }

  /** A threshold at or below the floor stays there when shrunk. */
  lemma ShrinkBelowFloor(u: real, floor: real, alfa: real)
    requires u <= floor && floor > 0.0 && 0.0 < alfa < 1.0
    ensures u * alfa <= floor
  {
    if u >= 0.0 {
      ScaleBelow(u, alfa, floor);
    } else {
      NegativeScaled(u, alfa);
    }
  }

  lemma FloorGap(x: real, y: real)
    requires y < x - 1.0
    ensures y.Floor < x.Floor
  {
  }

  /** Shrinking a non-negative value keeps it below any bound it was below. */
  lemma ScaleBelow(u: real, alfa: real, top: real)
    requires 0.0 <= u <= top && 0.0 < alfa < 1.0
    ensures u * alfa <= top
  {
    NonNegativeProduct(u, 1.0 - alfa);
    assert u * (1.0 - alfa) == u - u * alfa;
  }

  lemma NonNegativeProduct(a: real, b: real)
    requires a >= 0.0 && b >= 0.0
    ensures a * b >= 0.0
  {
  }

  lemma PositiveProduct(a: real, b: real)
    requires a > 0.0 && b > 0.0
    ensures a * b > 0.0
  {
  }

  lemma NegativeScaled(u: real, alfa: real)
    requires u < 0.0 && 0.0 < alfa < 1.0
    ensures u * alfa < 0.0
  {
  }

  lemma CancelPositive(a: real, b: real, k: real)
    requires k > 0.0 && a * k <= b * k
    ensures a <= b
  {
    assert (b - a) * k == b * k - a * k;
  }

  /** A threshold above the floor loses more than `floor * (1 - alfa)` when shrunk. */
  lemma GainAboveFloor(u: real, floor: real, alfa: real)
    requires u > floor > 0.0 && 0.0 < alfa < 1.0
    ensures (u * alfa - floor) < (u - floor) - floor * (1.0 - alfa)
  {
    var c := 1.0 - alfa;
    PositiveProduct(u - floor, c);
    assert (u - floor) * c == u * c - floor * c;
    assert u * c == u - u * alfa;
    GainLinear(u * alfa, floor * c, u * c, u, floor);
  }

  lemma GainLinear(ua: real, fc: real, uc: real, u: real, f: real)
    requires uc - fc > 0.0 && uc == u - ua
    ensures ua - f < (u - f) - fc
  {
  }

  lemma DivideGap(a: real, b: real, d: real)
    requires d > 0.0 && b < a - d
    ensures b / d < a / d - 1.0
  {
    var x, y := a / d, b / d;
    assert x * d == a && y * d == b;
    assert (x - 1.0) * d == x * d - d;
    CancelPositive(y, x - 1.0, d);
    assert y != x - 1.0;
  }

  /** The first component of the loop's termination measure: the shrinkings the distance threshold can still take. */
  function Steps(o: Config, u: real): nat
    requires Terminating(o)
  {
    StepsOf(u, o.smallestThresholdDist, o.alfa)
  }

  /** The second component: the passes left before the count reaches the limit (through the wrap-around of the counter while the threshold can still shrink). */
  function Rest(o: Config, k: nat, n: UShort): nat
  {
    if n < o.maxIterations then o.maxIterations - n
    else if k == 0 then 0
    else UShortLimit - n + o.maxIterations
  }

  /** The measure falls from (`d0`, `n0`) to (`d2`, `n2`). */
  predicate Drops(o: Config, d0: real, n0: UShort, d2: real, n2: UShort)
    requires Terminating(o)
  {
    var k0, k2 := Steps(o, d0), Steps(o, d2);
    k2 < k0 || (k2 == k0 && Rest(o, k2, n2) < Rest(o, k0, n0))
  }

  /** Every pass the loop condition admits lowers the measure. */
  lemma PassDecreases(o: Config, env: Env, s: Loop, lm: bool)
    requires Terminating(o) && Continue(o, s)
    ensures var r := Pass(o, env, s, lm); Drops(o, s.dist, s.n, r.dist, r.n)
  {
    var e := Estimate(o, env, s, lm);
    assert e.dist == s.dist || e.dist == s.dist * o.alfa;
    var r := Tail(o, e);
    MeasureDrops(o, s.dist, s.n, s.keep, e.dist, r.dist, r.n);
  }

  /** The measure argument of `PassDecreases`, on the thresholds and counters alone. */
  lemma MeasureDrops(o: Config, d0: real, n0: UShort, keep: bool, d1: real, d2: real, n2: UShort)
    requires Terminating(o)
    requires (keep && n0 < o.maxIterations) || (n0 >= o.maxIterations && d0 > o.smallestThresholdDist)
    requires d1 == d0 || d1 == d0 * o.alfa
    requires n2 == (n0 + 1) % UShortLimit
    requires d2 == if n2 >= o.maxIterations && d1 > o.smallestThresholdDist then d1 * o.alfa else d1
    ensures Drops(o, d0, n0, d2, n2)
  {
    if n2 >= o.maxIterations && d1 > o.smallestThresholdDist {
      StepsNoMore(o, d0, d1);
      TailShrinks(o, d0, n0, d1, n2);
    } else if d1 != d0 {
      EstimateShrinks(o, d0, n0, d1, n2);
    } else if n0 < o.maxIterations {
      CountsUp(o, d0, n0, n2);
    } else {
      CountWraps(o, d0, n0, n2);
    }
  }

  lemma TailShrinks(o: Config, d0: real, n0: UShort, d1: real, n2: UShort)
    requires Terminating(o) && Steps(o, d1) <= Steps(o, d0) && d1 > o.smallestThresholdDist
    ensures Drops(o, d0, n0, d1 * o.alfa, n2)
  {
    ShrinkSteps(d1, o.smallestThresholdDist, o.alfa);
  }

  /** Shrinking by `ALFA` zero times or once never adds to the steps left. */
  lemma StepsNoMore(o: Config, d0: real, d1: real)
    requires Terminating(o) && (d1 == d0 || d1 == d0 * o.alfa)
    ensures Steps(o, d1) <= Steps(o, d0)
  {
    ShrinkSteps(d0, o.smallestThresholdDist, o.alfa);
  }

  lemma EstimateShrinks(o: Config, d0: real, n0: UShort, d1: real, n2: UShort)
    requires Terminating(o) && d1 == d0 * o.alfa
    requires n0 < o.maxIterations || d0 > o.smallestThresholdDist
    requires n2 == (n0 + 1) % UShortLimit && !(n2 >= o.maxIterations && d1 > o.smallestThresholdDist)
    ensures Drops(o, d0, n0, d1, n2)
  {
    ShrinkSteps(d0, o.smallestThresholdDist, o.alfa);
    if d0 <= o.smallestThresholdDist {
      assert Steps(o, d0) == 0 && Steps(o, d1) == 0;
      assert n2 == n0 + 1;
    }
  }

  lemma CountsUp(o: Config, d0: real, n0: UShort, n2: UShort)
    requires Terminating(o) && n0 < o.maxIterations && n2 == (n0 + 1) % UShortLimit
    requires !(n2 >= o.maxIterations && d0 > o.smallestThresholdDist)
    ensures Drops(o, d0, n0, d0, n2)
  {
    assert n2 == n0 + 1;
  }

  lemma CountWraps(o: Config, d0: real, n0: UShort, n2: UShort)
    requires Terminating(o) && n0 >= o.maxIterations && d0 > o.smallestThresholdDist
    requires n2 == (n0 + 1) % UShortLimit && n2 < o.maxIterations
    ensures Drops(o, d0, n0, d0, n2)
  {
    assert n0 == UShortLimit - 1 && n2 == 0;
  }

  /** The ICP do/while loop from a state after its first pass. */
  function LoopFrom(o: Config, env: Env, s: Loop, lm: bool): Loop
    requires Terminating(o)
    decreases Steps(o, s.dist), Rest(o, Steps(o, s.dist), s.n)
  {
    if Continue(o, s) then
      PassDecreases(o, env, s, lm);
      LoopFrom(o, env, Pass(o, env, s, lm), lm)
    else s
  }

  /** The whole ICP loop from the initial estimate: one pass, then passes while the condition holds. */
  function Run(o: Config, env: Env, init: Pose2D, lm: bool): Loop
    requires Terminating(o)
  {
    LoopFrom(o, env, Pass(o, env, Start(o, init), lm), lm)
  }

  /** `d` shrunk `k` times by `alfa`. */
  function Scaled(d: real, alfa: real, k: nat): real
  {
    if k == 0 then d else Scaled(d, alfa, k - 1) * alfa
  }

  /** Shrinking a non-negative threshold keeps it non-negative and never raises it. */
  lemma {:induction false} ScaledBounds(d: real, alfa: real, k: nat)
    requires d >= 0.0 && 0.0 < alfa < 1.0
    ensures 0.0 <= Scaled(d, alfa, k) <= d
  {
    if k > 0 {
      ScaledBounds(d, alfa, k - 1);
      var v := Scaled(d, alfa, k - 1);
      ScaleBelow(v, alfa, d);
      NonNegativeProduct(v, alfa);
    }
  }

  /** Shrinking `j` times and then `k` times is shrinking `j + k` times. */
  lemma {:induction false} ScaledAdd(d: real, alfa: real, j: nat, k: nat)
    ensures Scaled(Scaled(d, alfa, j), alfa, k) == Scaled(d, alfa, j + k)
  {
    if k > 0 {
      ScaledAdd(d, alfa, j, k - 1);
    }
  }

  /** A pass shrinks the distance threshold by `ALFA` at most twice: once when the estimate settles, once past the iteration limit. */
  lemma PassShrinks(o: Config, env: Env, s: Loop, lm: bool) returns (j: nat)
    ensures j <= 2 && Pass(o, env, s, lm).dist == Scaled(s.dist, o.alfa, j)
  {
    var e := Estimate(o, env, s, lm);
    var i: nat := if e.dist == s.dist then 0 else 1;
    assert e.dist == Scaled(s.dist, o.alfa, i);
    var r := Tail(o, e);
    if r.dist == e.dist {
      j := i;
    } else {
      j := i + 1;
      assert Scaled(s.dist, o.alfa, j) == Scaled(s.dist, o.alfa, i) * o.alfa;
    }
  }

  /**
   * The loop ends in a state that fails its condition: it no longer
   * approaches or has reached the iteration limit, and past the limit the
   * distance threshold is at most the smallest one.
   */
  lemma {:induction false} LoopStops(o: Config, env: Env, s: Loop, lm: bool)
    requires Terminating(o)
    ensures var r := LoopFrom(o, env, s, lm);
      !Continue(o, r) && (!r.keep || r.n >= o.maxIterations)
      && (r.n >= o.maxIterations ==> r.dist <= o.smallestThresholdDist)
    decreases Steps(o, s.dist), Rest(o, Steps(o, s.dist), s.n)
  {
    if Continue(o, s) {
      PassDecreases(o, env, s, lm);
      LoopStops(o, env, Pass(o, env, s, lm), lm);
    }
  }

  /** The loop's distance threshold is its start's shrunk some number of times by `ALFA`. */
  lemma {:induction false} LoopScales(o: Config, env: Env, s: Loop, lm: bool) returns (k: nat)
    requires Terminating(o)
    ensures LoopFrom(o, env, s, lm).dist == Scaled(s.dist, o.alfa, k)
    decreases Steps(o, s.dist), Rest(o, Steps(o, s.dist), s.n)
  {
    if Continue(o, s) {
      PassDecreases(o, env, s, lm);
      var j := PassShrinks(o, env, s, lm);
      var p := Pass(o, env, s, lm);
      var k' := LoopScales(o, env, p, lm);
      k := j + k';
      ScaledAdd(s.dist, o.alfa, j, k');
    } else {
      k := 0;
    }
  }

  /**
   * The whole loop ends failing its condition, with a distance threshold
   * that is the configured one shrunk some number of times by `ALFA`, so
   * never above it when it starts non-negative.
   */
  lemma RunProperties(o: Config, env: Env, init: Pose2D, lm: bool) returns (k: nat)
    requires Terminating(o)
    ensures var r := Run(o, env, init, lm);
      !Continue(o, r) && (!r.keep || r.n >= o.maxIterations)
      && (r.n >= o.maxIterations ==> r.dist <= o.smallestThresholdDist)
      && r.dist == Scaled(o.thresholdDist, o.alfa, k)
      && (o.thresholdDist >= 0.0 ==> 0.0 <= r.dist <= o.thresholdDist)
  {
    var s := Start(o, init);
    var j := PassShrinks(o, env, s, lm);
    var p := Pass(o, env, s, lm);
    LoopStops(o, env, p, lm);
    var k' := LoopScales(o, env, p, lm);
    k := j + k';
    ScaledAdd(o.thresholdDist, o.alfa, j, k');
    if o.thresholdDist >= 0.0 {
      ScaledBounds(o.thresholdDist, o.alfa, k);
    }
  }

  // ---------------------------------------------------------------------
  // The two methods and AlignPDF
  // ---------------------------------------------------------------------

  /** The two maps, as far as the control shell looks at them. */
  datatype Maps = Maps(fixedIsPointsMap: bool, movingIsEmpty: bool)

  /** The output PDF: a Gaussian at the estimate, or the sum of Gaussians RANSAC computes from a set of correspondences. */
  datatype PosePDF = Gaussian(mean: Pose2D) | SumOfGaussians(from: seq<MatchingPair>)

  datatype AlignError = InvalidAlgorithm(code: int) | NotImplemented | AssertionFailed | WrongInfoSize

  datatype Result<T> = Ok(value: T) | Err(error: AlignError)

  datatype Estimation = Estimation(pdf: PosePDF, info: ReturnInfo)

  /** The correspondences the RANSAC step receives: those of the last quality probe, at the estimate moved by 0.9 times the distance threshold in y. */
  function LastProbe(env: Env, s: Loop): seq<MatchingPair>
  {
    var py2 := s.pose.(y := s.pose.y + s.dist * 0.9);
    env.matchWith(py2, s.dist, s.ang, s.pose, true, false).pairs
  }

  /**
   * `ICP_Method_Classic`: the assertion on `ALFA`; with an empty moving map
   * no pass at all, the initial estimate, no iterations, goodness one and
   * quality zero; otherwise the loop, with the ratio of its last matching as
   * goodness. The result is a sum of Gaussians when RANSAC is enabled.
   */
  function Classic(o: Config, env: Env, init: Pose2D, maps: Maps): (r: Result<Estimation>)
    requires 0.0 < o.alfa < 1.0 ==> Terminating(o)
    ensures r.Err? <==> !(0.0 < o.alfa < 1.0)
    ensures r.Ok? ==> (r.value.pdf.SumOfGaussians? <==> o.doRANSAC) && r.value.info.cbSize == InfoSize
    ensures r.Ok? && maps.movingIsEmpty ==>
      r.value.info == ReturnInfo(InfoSize, 0, 1.0, 0.0) && (!o.doRANSAC ==> r.value.pdf == Gaussian(init))
  {
    if !(0.0 < o.alfa < 1.0) then Err(AssertionFailed)
    else if maps.movingIsEmpty then
      Ok(Estimation(if o.doRANSAC then SumOfGaussians([]) else Gaussian(init), ReturnInfo(InfoSize, 0, 1.0, 0.0)))
    else
      var s := Run(o, env, init, false);
      var info := ReturnInfo(InfoSize, s.n, s.found.ratio, env.classicQuality(s.pose, s.dist, s.ang));
      Ok(Estimation(if o.doRANSAC then SumOfGaussians(LastProbe(env, s)) else Gaussian(s.pose), info))
  }

  /**
   * `ICP_Method_LM`: the assertions that the reference map is a points map
   * and on `ALFA`; an empty moving map gives the initial estimate, no
   * iterations, goodness one and quality zero; otherwise the loop. The
   * result is always a Gaussian.
   */
  function LM(o: Config, env: Env, init: Pose2D, maps: Maps): (r: Result<Estimation>)
    requires 0.0 < o.alfa < 1.0 ==> Terminating(o)
    ensures r.Err? <==> !maps.fixedIsPointsMap || !(0.0 < o.alfa < 1.0)
    ensures r.Ok? ==> r.value.pdf.Gaussian? && r.value.info.cbSize == InfoSize
    ensures r.Ok? && maps.movingIsEmpty ==> r.value == Estimation(Gaussian(init), ReturnInfo(InfoSize, 0, 1.0, 0.0))
  {
    if !maps.fixedIsPointsMap || !(0.0 < o.alfa < 1.0) then Err(AssertionFailed)
    else if maps.movingIsEmpty then Ok(Estimation(Gaussian(init), ReturnInfo(InfoSize, 0, 1.0, 0.0)))
    else
      var s := Run(o, env, init, true);
      Ok(Estimation(Gaussian(s.pose), ReturnInfo(InfoSize, s.n, s.found.ratio, env.lmQuality(s.pose, s.dist, s.ang))))
  }

  /** The PDF and, when the caller passed a `TReturnInfo`, the one filled in. */
  datatype Alignment = Alignment(pdf: PosePDF, info: Option<ReturnInfo>)

  datatype Option<T> = None | Some(value: T)

  /** Whether the algorithm code names a method with an ICP loop. */
  predicate Loops(o: Config)
  {
    o.algorithm == IcpClassic || o.algorithm == IcpLevenbergMarquardt
  }

  /**
   * `AlignPDF`: run the method the options name (the IKF method is not
   * implemented and any other code is invalid), then copy the return
   * information into the caller's, refusing one whose size field is wrong.
   */
  function Align(o: Config, env: Env, init: Pose2D, maps: Maps, info: Option<ReturnInfo>): (r: Result<Alignment>)
    requires Loops(o) && 0.0 < o.alfa < 1.0 ==> Terminating(o)
    ensures o.algorithm == IcpIKF ==> r == Err(NotImplemented)
    ensures !Loops(o) && o.algorithm != IcpIKF ==> r == Err(InvalidAlgorithm(o.algorithm))
    ensures Loops(o) && info.Some? && info.value.cbSize != InfoSize ==> r.Err?
    ensures r.Ok? ==> Loops(o) && (info.Some? <==> r.value.info.Some?)
    ensures r.Ok? && r.value.info.Some? ==> r.value.info.value.cbSize == InfoSize
  {
    var e :=
      if o.algorithm == IcpClassic then Classic(o, env, init, maps)
      else if o.algorithm == IcpLevenbergMarquardt then LM(o, env, init, maps)
      else if o.algorithm == IcpIKF then Err(NotImplemented)
      else Err(InvalidAlgorithm(o.algorithm));
    if e.Err? then Err(e.error)
    else if info.Some? && info.value.cbSize != InfoSize then Err(WrongInfoSize)
    else Ok(Alignment(e.value.pdf, if info.Some? then Some(e.value.info) else None))
  }

  /** The output is a sum of Gaussians exactly when the classic method runs with RANSAC enabled. */
  lemma OutputKind(o: Config, env: Env, init: Pose2D, maps: Maps, info: Option<ReturnInfo>)
    requires Loops(o) && 0.0 < o.alfa < 1.0 ==> Terminating(o)
    requires Align(o, env, init, maps, info).Ok?
    ensures Align(o, env, init, maps, info).value.pdf.SumOfGaussians? <==> o.algorithm == IcpClassic && o.doRANSAC
  {
  }

  /** The ICP aligner with its options. */
  class CICP {
    var options: Config

    /** The default options. */
    constructor ()
      ensures options == DefaultConfig()
    {
      options := DefaultConfig();
    }

    /** The given options. */
    constructor WithOptions(params: Config)
      ensures options == params
    {
      options := params;
    }

    /**
     * The inner Levenberg-Marquardt loop: it damps and retries until the
     * step is below tolerance or the pre-incremented counter reaches 100.
     */
    method LMIterate(env: Env, pairs: seq<MatchingPair>, q0: Pose2D) returns (q: Pose2D, lambda: real)
      ensures q == LMRun(options, env, pairs, q0).pose && lambda == LMRun(options, env, pairs, q0).lambda
      ensures env.squareError(pairs, q) <= env.squareError(pairs, q0)
    {
      lambda := options.lmInitialLambda;
      q := q0;
      var error := env.squareError(pairs, q0);
      var nLMIters := 0;
      var keep := true;
      ghost var accepted, rejected := 0, 0;
      LMRunProperties(options, env, pairs, q0);
      while keep && nLMIters + 1 < MaxLMIters
        invariant nLMIters < MaxLMIters
        invariant LMRun(options, env, pairs, q0) == LMLoop(env, pairs, q0, LMState(q, lambda, error, nLMIters, keep, accepted, rejected))
        decreases MaxLMIters - nLMIters
      {
        ghost var st := LMState(q, lambda, error, nLMIters, keep, accepted, rejected);
        nLMIters := nLMIters + 1;
        var d := env.lmDelta(pairs, q0, lambda);
        var next := Pose2D(q.x - d.x, q.y - d.y, q.phi - d.phi);
        var nextError := env.squareError(pairs, next);
        keep := Abs(d.x) > TolXY || Abs(d.y) > TolXY || Abs(d.phi) > TolTheta;
        if nextError < error {
          lambda := lambda / 10.0;
          q := next;
          error := nextError;
          accepted := accepted + 1;
        } else {
          lambda := lambda * 10.0;
          rejected := rejected + 1;
        }
        assert LMState(q, lambda, error, nLMIters, keep, accepted, rejected) == LMStep(env, pairs, q0, st);
      }
    }

    /** A pass up to its count: match, re-estimate, and shrink the thresholds once the estimate settles. */
    method EstimateStep(env: Env, s: Loop, lm: bool) returns (r: Loop)
      ensures r == Estimate(options, env, s, lm)
    {
      var m := env.matchWith(s.pose, s.dist, s.ang, s.pose, options.onlyClosestCorrespondences, options.onlyUniqueRobust);
      if |m.pairs| == 0 {
        return s.(keep := false, found := m);
      }
      var pose: Pose2D;
      if lm {
        var lambda;
        pose, lambda := LMIterate(env, m.pairs, s.pose);
      } else {
        pose := env.leastSquares(m.pairs);
      }
      var dist, ang, keep := s.dist, s.ang, true;
      if Settled(s.last, pose, env.wrapToPi, lm) {
        dist := dist * options.alfa;
        ang := ang * options.alfa;
        if dist < options.smallestThresholdDist {
          keep := false;
        }
      }
      r := Loop(pose, pose, dist, ang, s.n, keep, m);
    }

    /** One pass of the ICP loop body. */
    method PassStep(env: Env, s: Loop, lm: bool) returns (r: Loop)
      ensures r == Pass(options, env, s, lm)
    {
      r := EstimateStep(env, s, lm);
      var n := (r.n + 1) % UShortLimit;
      if n >= options.maxIterations && r.dist > options.smallestThresholdDist {
        r := r.(n := n, dist := r.dist * options.alfa);
      } else {
        r := r.(n := n);
      }
    }

    /** The ICP do/while loop. */
    method Iterate(env: Env, init: Pose2D, lm: bool) returns (s: Loop)
      requires Terminating(options)
      ensures s == Run(options, env, init, lm)
      ensures !Continue(options, s)
    {
      s := PassStep(env, Start(options, init), lm);
      while Continue(options, s)
        invariant LoopFrom(options, env, s, lm) == Run(options, env, init, lm)
        decreases Steps(options, s.dist), Rest(options, Steps(options, s.dist), s.n)
      {
        PassDecreases(options, env, s, lm);
        s := PassStep(env, s, lm);
      }
    }

    /** `ICP_Method_Classic`. */
    method MethodClassic(env: Env, init: Pose2D, maps: Maps) returns (r: Result<Estimation>)
      requires 0.0 < options.alfa < 1.0 ==> Terminating(options)
      ensures r == Classic(options, env, init, maps)
    {
      if !(0.0 < options.alfa < 1.0) {
        return Err(AssertionFailed);
      }
      var info := ReturnInfo(InfoSize, 0, 1.0, 0.0);
      var pdf := Gaussian(init);
      var probe: seq<MatchingPair> := [];
      if !maps.movingIsEmpty {
        var s := Iterate(env, init, false);
        info := ReturnInfo(InfoSize, s.n, s.found.ratio, env.classicQuality(s.pose, s.dist, s.ang));
        pdf := Gaussian(s.pose);
        probe := LastProbe(env, s);
      }
      if options.doRANSAC {
        pdf := SumOfGaussians(probe);
      }
      r := Ok(Estimation(pdf, info));
    }

    /** `ICP_Method_LM`. */
    method MethodLM(env: Env, init: Pose2D, maps: Maps) returns (r: Result<Estimation>)
      requires 0.0 < options.alfa < 1.0 ==> Terminating(options)
      ensures r == LM(options, env, init, maps)
    {
      if !maps.fixedIsPointsMap || !(0.0 < options.alfa < 1.0) {
        return Err(AssertionFailed);
      }
      var info := ReturnInfo(InfoSize, 0, 1.0, 0.0);
      var q := init;
      if !maps.movingIsEmpty {
        var s := Iterate(env, init, true);
        q := s.pose;
        info := ReturnInfo(InfoSize, s.n, s.found.ratio, env.lmQuality(s.pose, s.dist, s.ang));
      }
      r := Ok(Estimation(Gaussian(q), info));
    }

    /** `AlignPDF`; the running time is not modelled. */
    method AlignPDF(env: Env, init: Pose2D, maps: Maps, info: Option<ReturnInfo>) returns (r: Result<Alignment>)
      requires Loops(options) && 0.0 < options.alfa < 1.0 ==> Terminating(options)
      ensures r == Align(options, env, init, maps, info)
    {
      var e: Result<Estimation>;
      if options.algorithm == IcpClassic {
        e := MethodClassic(env, init, maps);
      } else if options.algorithm == IcpLevenbergMarquardt {
        e := MethodLM(env, init, maps);
      } else if options.algorithm == IcpIKF {
        e := Err(NotImplemented);
      } else {
        e := Err(InvalidAlgorithm(options.algorithm));
      }
      if e.Err? {
        return Err(e.error);
      }
      if info.Some? && info.value.cbSize != InfoSize {
        return Err(WrongInfoSize);
      }
      r := Ok(Alignment(e.value.pdf, if info.Some? then Some(e.value.info) else None));
    }
  }
}
