/**
 * CAngularObservationMesh::TDoubleRange: a range of real values given in
 * one of three ways, fixed when it is created by one of three factories:
 *   0. an initial value, a final value and an increment;
 *   1. an initial value, a final value and a number of samples;
 *   2. an aperture, a number of samples and a direction, centred on zero.
 * Its accessors derive the aperture, the first and last value, the step, the
 * number of samples and the direction from whichever data it holds.
 *
 * The constructors are private, so only the three modes exist and the
 * accessors' "unknown range type" error cannot be reached; the datatype has
 * exactly those three cases. `sign` is a parameter, required only to agree
 * with the sign of a non-zero argument and never to contradict that of zero.
 * `size_t` arithmetic is written out where it wraps.
 */
module DoubleRange {

  /** One more than the largest `size_t`. */
  const SizeLimit: nat := 0x1_0000_0000_0000_0000

  /** A `size_t`. */
  type Size = n: nat | n < SizeLimit

  datatype Range =
    | FromIncrement(initial: real, final: real, increment: real)
    | FromAmount(initial: real, final: real, amount: Size)
    | FromAperture(aperture: real, amount: Size, negToPos: bool)

  datatype Result<T> = Ok(value: T) | Failure

  /** What is assumed of the sign function: it is -1 or 1 for a negative or a positive argument, and not the opposite sign's value at zero. */
  ghost predicate IsSign(sign: real -> int)
  {
    forall x :: (x > 0.0 ==> sign(x) == 1) && (x < 0.0 ==> sign(x) == -1) && -1 <= sign(x) <= 1
  }

  /** The least integer not below `q`. */
  function Ceil(q: real): (c: int)
    ensures q <= c as real < q + 1.0
  {
    var f := q.Floor;
    if f as real == q then f else f + 1
  }

  /** `CreateFromIncrement`: refuses a zero increment. */
  function CreateFromIncrement(initial: real, final: real, increment: real): (r: Result<Range>)
    ensures r.Ok? <==> increment != 0.0
    ensures r.Ok? ==> r.value == FromIncrement(initial, final, increment)
  {
    if increment == 0.0 then Failure else Ok(FromIncrement(initial, final, increment))
  }

  /** `CreateFromAmount`: a range whose first and last values and number of samples are those given. */
  function CreateFromAmount(initial: real, final: real, amount: Size): (r: Range)
    ensures r.FromAmount? && r.amount == amount && InitialValue(r) == initial && r.final == final
  {
    FromAmount(initial, final, amount)
  }

  /** `CreateFromAperture`: a zero-centred range with the given aperture, number of samples and direction. */
  function CreateFromAperture(aperture: real, amount: Size, negToPos: bool): (r: Range)
    ensures r.FromAperture? && r.amount == amount && r.aperture == aperture && r.negToPos == negToPos
    ensures InitialValue(r) + InitialValue(r) == (if negToPos then -aperture else aperture)
  {
    FromAperture(aperture, amount, negToPos)
  }

  /** Whether a mode-0 range's increment points from its initial towards its final value, as `sign` sees it. */
  function Towards(r: Range, sign: real -> int): bool
    requires r.FromIncrement?
  {
    sign(r.increment) == sign(r.final - r.initial)
  }

  /** `aperture()`: never negative in mode 0, where a range pointing away has none. */
  function Aperture(r: Range, sign: real -> int): (a: real)
    ensures r.FromIncrement? ==> a >= 0.0 && (!Towards(r, sign) ==> a == 0.0)
    ensures r.FromAmount? ==> r.initial + a == r.final
    ensures r.FromAperture? ==> a == r.aperture
  {
    match r
    case FromIncrement(i, f, _) =>
      if Towards(r, sign) then (if f - i < 0.0 then i - f else f - i) else 0.0
    case FromAmount(i, f, _) => f - i
    case FromAperture(a, _, _) => a
  }

  /** `initialValue()`: the stored initial value, or half the aperture on the side the scan starts from. */
  function InitialValue(r: Range): (v: real)
    ensures !r.FromAperture? ==> v == r.initial
    ensures r.FromAperture? ==> v + v == (if r.negToPos then -r.aperture else r.aperture)
  {
    match r
    case FromIncrement(i, _, _) => i
    case FromAmount(i, _, _) => i
    case FromAperture(a, _, neg) => if neg then -a / 2.0 else a / 2.0
  }

  /** `finalValue()`: the stored final value, except a mode-0 range pointing away, which ends where it starts. */
  function FinalValue(r: Range, sign: real -> int): (v: real)
    ensures r.FromIncrement? ==> v == (if Towards(r, sign) then r.final else r.initial)
    ensures r.FromAmount? ==> v == r.final
    ensures r.FromAperture? ==> v + v == (if r.negToPos then r.aperture else -r.aperture)
  {
    match r
    case FromIncrement(i, f, _) => if Towards(r, sign) then f else i
    case FromAmount(_, f, _) => f
    case FromAperture(a, _, neg) => if neg then a / 2.0 else -a / 2.0
  }

  /** The number of gaps between samples, `amount - 1` in `size_t`: zero samples wrap to the largest `size_t`. */
  function Gaps(amount: Size): (g: Size)
    ensures (g + 1) % SizeLimit == amount
  {
    if amount == 0 then SizeLimit - 1 else amount - 1
  }

  /** The step between samples; a range of one sample divides by zero in floating point and is excluded. */
  function Increment(r: Range): (inc: real)
    requires !r.FromIncrement? ==> r.amount != 1
    ensures r.FromIncrement? ==> inc == r.increment
    ensures r.FromAmount? && r.amount >= 2 ==> r.initial + ((r.amount - 1) as real) * inc == r.final
    ensures r.FromAperture? && r.amount >= 2 ==> ((r.amount - 1) as real) * inc == (if r.negToPos then r.aperture else -r.aperture)
  {
    match r
    case FromIncrement(_, _, inc) => inc
    case FromAmount(i, f, n) => (f - i) / (Gaps(n) as real)
    case FromAperture(a, n, neg) => if neg then a / (Gaps(n) as real) else -a / (Gaps(n) as real)
  }

  /** `amount()`: at least one sample in mode 0, the stored amount otherwise. */
  function Amount(r: Range, sign: real -> int): (n: nat)
    requires IsSign(sign)
    requires r.FromIncrement? ==> r.increment != 0.0
    ensures r.FromIncrement? ==> n >= 1 && (!Towards(r, sign) ==> n == 1)
    ensures !r.FromIncrement? ==> n == r.amount
  {
    match r
    case FromIncrement(i, f, inc) =>
      if Towards(r, sign) then
        QuotientNonNegative(r, sign);
        1 + Ceil((f - i) / inc)
      else 1
    case FromAmount(_, _, n) => n
    case FromAperture(_, n, _) => n
  }

  /** `negToPos()`: whether the values grow from the first to the last. */
  function NegToPos(r: Range, sign: real -> int): (b: bool)
    ensures r.FromIncrement? && r.increment != 0.0 && IsSign(sign) ==> (b <==> r.increment > 0.0)
    ensures r.FromAmount? && r.final != r.initial && IsSign(sign) ==> (b <==> r.final > r.initial)
    ensures r.FromAperture? ==> b == r.negToPos
  {
    match r
    case FromIncrement(_, _, inc) =>
      assert IsSign(sign) && inc != 0.0 ==> (sign(inc) > 0 <==> inc > 0.0);
      sign(inc) > 0
    case FromAmount(i, f, _) =>
      assert IsSign(sign) && f != i ==> (sign(f - i) > 0 <==> f - i > 0.0);
      sign(f - i) > 0
    case FromAperture(_, _, neg) => neg
  }

  /** When the increment points towards the final value, the number of steps to it is not negative. */
  lemma QuotientNonNegative(r: Range, sign: real -> int)
    requires IsSign(sign) && r.FromIncrement? && r.increment != 0.0 && Towards(r, sign)
    ensures (r.final - r.initial) / r.increment >= 0.0
  {
    var d, inc := r.final - r.initial, r.increment;
    if inc > 0.0 {
      assert sign(inc) == 1;
      assert d >= 0.0;
    } else {
      assert sign(inc) == -1;
      assert d <= 0.0;
      assert d / inc == (-d) / (-inc);
    }
  }

  /** A mode-0 range whose increment points away from its final value collapses to its initial value: no aperture, one sample. */
  lemma AwayCollapses(r: Range, sign: real -> int)
    requires IsSign(sign) && r.FromIncrement? && r.increment != 0.0 && !Towards(r, sign)
    ensures Aperture(r, sign) == 0.0 && Amount(r, sign) == 1 && FinalValue(r, sign) == InitialValue(r)
  {
  }

  /**
   * A mode-0 range whose increment points towards its final value has
   * `1 + ceil((final - initial) / increment)` samples, and the last of them
   * reaches or passes the final value while the one before falls short, in
   * either direction.
   */
  lemma TowardsCovers(r: Range, sign: real -> int)
    requires IsSign(sign) && r.FromIncrement? && r.increment != 0.0 && Towards(r, sign)
    ensures Amount(r, sign) == 1 + Ceil((r.final - r.initial) / r.increment)
    ensures var n := Amount(r, sign); r.increment > 0.0 ==>
      r.initial + ((n - 1) as real) * r.increment >= r.final &&
      (n >= 2 ==> r.initial + ((n - 2) as real) * r.increment < r.final)
    ensures var n := Amount(r, sign); r.increment < 0.0 ==>
      r.initial + ((n - 1) as real) * r.increment <= r.final &&
      (n >= 2 ==> r.initial + ((n - 2) as real) * r.increment > r.final)
  {
    var d, inc := r.final - r.initial, r.increment;
    if inc > 0.0 {
      CeilCovers(d, inc);
    } else {
      assert d / inc == (-d) / (-inc);
      CeilCovers(-d, -inc);
      var c := Ceil(d / inc);
      assert (c as real) * inc == -((c as real) * (-inc));
      assert ((c - 1) as real) * inc == -(((c - 1) as real) * (-inc));
    }
  }

  /** `ceil(d / inc)` steps of `inc` reach `d`, and one step fewer does not. */
  lemma CeilCovers(d: real, inc: real)
    requires inc > 0.0
    ensures (Ceil(d / inc) as real) * inc >= d
    ensures ((Ceil(d / inc) - 1) as real) * inc < d
  {
    var q := d / inc;
    var c := Ceil(q);
    assert q * inc == d;
    var below := (c - 1) as real;
    StepsBracket(q, c as real, inc);
    assert below == c as real - 1.0;
    assert below * inc == (c as real - 1.0) * inc;
    assert (c as real - 1.0) * inc < q * inc;
    assert below * inc < d;
  }

  lemma StepsBracket(q: real, c: real, inc: real)
    requires q <= c < q + 1.0 && inc > 0.0
    ensures c * inc >= q * inc && (c - 1.0) * inc < q * inc
  {
    ScaleOrder(c - q, inc);
    ScaleOrder(q - (c - 1.0), inc);
    Distribute(c, q, inc);
    Distribute(q, c - 1.0, inc);
  }

  lemma Distribute(x: real, y: real, z: real)
    ensures x * z - y * z == (x - y) * z
  {
  }

  lemma ScaleOrder(x: real, y: real)
    requires x >= 0.0 && y > 0.0
    ensures x * y >= 0.0 && (x > 0.0 ==> x * y > 0.0)
  {
  }

  function Abs(x: real): real
  {
    if x < 0.0 then -x else x
  }

  /** The aperture is the distance from the first to the last value (signed in mode 1, where it is not checked). */
  lemma ApertureIsSpan(r: Range, sign: real -> int)
    requires r.FromAperture? ==> r.aperture >= 0.0
    ensures r.FromAmount? ==> Aperture(r, sign) == FinalValue(r, sign) - InitialValue(r)
    ensures !r.FromAmount? ==> Aperture(r, sign) == Abs(FinalValue(r, sign) - InitialValue(r))
  {
  }

  /** A zero-centred range runs from one half of its aperture to the other, in the direction it was given. */
  lemma ApertureCentred(r: Range, sign: real -> int)
    requires r.FromAperture?
    ensures InitialValue(r) == -FinalValue(r, sign)
    ensures InitialValue(r) == (if r.negToPos then -r.aperture / 2.0 else r.aperture / 2.0)
    ensures FinalValue(r, sign) - InitialValue(r) == (if r.negToPos then r.aperture else -r.aperture)
  {
  }

  /** In modes 1 and 2, stepping `amount - 1` times from the first value lands on the last value. */
  lemma LastSampleIsFinal(r: Range, sign: real -> int)
    requires !r.FromIncrement? && r.amount >= 2
    ensures InitialValue(r) + ((r.amount - 1) as real) * Increment(r) == FinalValue(r, sign)
  {
    var g := (r.amount - 1) as real;
    assert Gaps(r.amount) as real == g;
    match r
    case FromAmount(i, f, n) =>
      assert g * ((f - i) / g) == f - i;
    case FromAperture(a, n, neg) =>
      assert g * (a / g) == a;
      assert g * (-a / g) == -a;
  }

  /** The direction of a range agrees with the sign of its step, whenever the step is not zero and an aperture is not negative. */
  lemma DirectionMatchesStep(r: Range, sign: real -> int)
    requires IsSign(sign) && (!r.FromIncrement? ==> r.amount >= 2)
    requires r.FromAperture? ==> r.aperture >= 0.0
    requires Increment(r) != 0.0
    ensures NegToPos(r, sign) <==> Increment(r) > 0.0
  {
    match r
    case FromIncrement(_, _, inc) =>
    case FromAmount(i, f, n) =>
      QuotientSign(f - i, Gaps(n) as real);
    case FromAperture(a, n, neg) =>
      QuotientSign(a, Gaps(n) as real);
      QuotientSign(-a, Gaps(n) as real);
  }

  lemma QuotientSign(x: real, g: real)
    requires g > 0.0
    ensures x / g > 0.0 <==> x > 0.0
    ensures x / g < 0.0 <==> x < 0.0
  {
    assert (x / g) * g == x;
    if x / g > 0.0 {
      ScaleOrder(x / g, g);
    } else if x / g < 0.0 {
      ScaleOrder(-(x / g), g);
    }
  }
}
