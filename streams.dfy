/**
 * A binary archive seen at the granularity of the typed values written into
 * it. MRPT's CStream writes each scalar (`uint32_t`, `float`, `double`,
 * `bool`, `std::string`, ...) in a fixed little-endian layout and reads it
 * back with the matching `operator>>`; a reader that meets the end of the
 * archive throws. Here an archive is a sequence of typed items and a read
 * that finds the wrong kind of item, or no item, is an error.
 */
module Streams {

  /** One value as CStream writes it. */
  datatype Item =
    | U32(u: nat)       // uint32_t (also used for object versions and counts)
    | ULong(ul: nat)    // unsigned long
    | F32(f: real)      // float
    | F64(d: real)      // double
    | Bool(b: bool)     // bool
    | Str(s: string)    // std::string
    | Opaque(tag: nat)  // a nested object whose own layout is not part of this model

  datatype Error =
    | EndOfStream
    | TypeMismatch
    | UnknownVersion(version: nat)
    | Failed(reason: string)

  datatype Result<T> = Ok(value: T) | Err(error: Error)
  {
    predicate IsOk() { Ok? }
  }

  /** The largest value a `uint32_t` can hold plus one. */
  const U32Limit: nat := 0x1_0000_0000

  /** A value read from the front of an archive, and what remains of it. */
  datatype Read<T> = Read(value: T, rest: seq<Item>)

  function ReadU32(s: seq<Item>): (r: Result<Read<nat>>)
    ensures r.Ok? <==> |s| > 0 && s[0].U32?
    ensures r.Ok? ==> s == [U32(r.value.value)] + r.value.rest
  {
    if |s| > 0 && s[0].U32? then Ok(Read(s[0].u, s[1..]))
    else if |s| == 0 then Err(EndOfStream) else Err(TypeMismatch)
  }

  /** The width a real number is stored with: `float` or `double`. */
  datatype Precision = Single | Double

  /** A real number as stored with the given width. */
  function Real(p: Precision, x: real): (it: Item)
    ensures p == Single ==> it == F32(x)
    ensures p == Double ==> it == F64(x)
  {
    if p == Single then F32(x) else F64(x)
  }

  /** Whether `it` is a real number stored with width `p`. */
  predicate IsReal(p: Precision, it: Item)
  {
    if p == Single then it.F32? else it.F64?
  }

  function RealValue(p: Precision, it: Item): real
    requires IsReal(p, it)
  {
    if p == Single then it.f else it.d
  }

  /** `in >> f` for a `float` (Single) or a `double` (Double). */
  function ReadReal(s: seq<Item>, p: Precision): (r: Result<Read<real>>)
    ensures r.Ok? <==> |s| > 0 && IsReal(p, s[0])
    ensures r.Ok? ==> s == [Real(p, r.value.value)] + r.value.rest
  {
    if |s| > 0 && IsReal(p, s[0]) then Ok(Read(RealValue(p, s[0]), s[1..]))
    else if |s| == 0 then Err(EndOfStream) else Err(TypeMismatch)
  }

  function ReadBool(s: seq<Item>): (r: Result<Read<bool>>)
    ensures r.Ok? <==> |s| > 0 && s[0].Bool?
    ensures r.Ok? ==> s == [Bool(r.value.value)] + r.value.rest
  {
    if |s| > 0 && s[0].Bool? then Ok(Read(s[0].b, s[1..]))
    else if |s| == 0 then Err(EndOfStream) else Err(TypeMismatch)
  }

  function ReadStr(s: seq<Item>): (r: Result<Read<string>>)
    ensures r.Ok? <==> |s| > 0 && s[0].Str?
    ensures r.Ok? ==> s == [Str(r.value.value)] + r.value.rest
  {
    if |s| > 0 && s[0].Str? then Ok(Read(s[0].s, s[1..]))
    else if |s| == 0 then Err(EndOfStream) else Err(TypeMismatch)
  }

  function ReadOpaque(s: seq<Item>): (r: Result<Read<nat>>)
    ensures r.Ok? <==> |s| > 0 && s[0].Opaque?
    ensures r.Ok? ==> s == [Opaque(r.value.value)] + r.value.rest
  {
    if |s| > 0 && s[0].Opaque? then Ok(Read(s[0].tag, s[1..]))
    else if |s| == 0 then Err(EndOfStream) else Err(TypeMismatch)
  }

  /** `n` reals of one width as `WriteBuffer` lays them out. */
  function Reals(p: Precision, v: seq<real>): (r: seq<Item>)
    ensures |r| == |v|
  {
    seq(|v|, i requires 0 <= i < |v| => Real(p, v[i]))
  }

  /** `ReadBuffer` of `n` reals of one width, or `n` reads of one real each. */
  function ReadReals(s: seq<Item>, n: nat, p: Precision): (r: Result<Read<seq<real>>>)
    ensures r.Ok? <==> |s| >= n && forall i :: 0 <= i < n ==> IsReal(p, s[i])
    ensures r.Ok? ==> |r.value.value| == n && s == Reals(p, r.value.value) + r.value.rest
  {
    if |s| >= n && forall i :: 0 <= i < n ==> IsReal(p, s[i]) then
      var v := seq(n, i requires 0 <= i < n => RealValue(p, s[i]));
      assert s == Reals(p, v) + s[n..];
      Ok(Read(v, s[n..]))
    else if |s| < n then Err(EndOfStream) else Err(TypeMismatch)
  }

  /** A `std::vector<float>`: its length as a `uint32_t`, then its elements. */
  function F32Vector(v: seq<real>): (r: seq<Item>)
    ensures |r| == 1 + |v|
  {
    [U32(|v|)] + Reals(Single, v)
  }

  function ReadF32Vector(s: seq<Item>): (r: Result<Read<seq<real>>>)
  {
    match ReadU32(s)
    case Err(e) => Err(e)
    case Ok(Read(n, rest)) => ReadReals(rest, n, Single)
  }

  /** Reading back reals written with the same width gives them back. */
  lemma RealsRoundTrip(p: Precision, v: seq<real>, rest: seq<Item>)
    ensures ReadReals(Reals(p, v) + rest, |v|, p) == Ok(Read(v, rest))
  {
    var s := Reals(p, v) + rest;
    assert forall i :: 0 <= i < |v| ==> s[i] == Real(p, v[i]);
    var r := ReadReals(s, |v|, p);
    assert r.Ok?;
    assert Reals(p, r.value.value) == Reals(p, v);
    assert r.value.value == v by {
      forall i | 0 <= i < |v| ensures r.value.value[i] == v[i] {
        assert Reals(p, r.value.value)[i] == Reals(p, v)[i];
      }
    }
  }

  /** Reading `|v| + 1` reals after `v`: the first `|v|` succeed, and the last read decides. */
  lemma ReadRealsSnoc(p: Precision, v: seq<real>, s: seq<Item>)
    ensures ReadReals(Reals(p, v) + s, |v| + 1, p).Ok? <==> ReadReal(s, p).Ok?
    ensures ReadReal(s, p).Ok? ==>
      ReadReals(Reals(p, v) + s, |v| + 1, p) == Ok(Read(v + [ReadReal(s, p).value.value], ReadReal(s, p).value.rest))
  {
    var t := Reals(p, v) + s;
    if ReadReal(s, p).Ok? {
      var x := ReadReal(s, p).value;
      assert t == Reals(p, v + [x.value]) + x.rest;
      RealsRoundTrip(p, v + [x.value], x.rest);
    } else {
      assert forall i :: 0 <= i < |v| ==> t[i] == Real(p, v[i]);
      if |s| > 0 {
        assert t[|v|] == s[0];
      }
    }
  }

  lemma F32VectorRoundTrip(v: seq<real>, rest: seq<Item>)
    ensures ReadF32Vector(F32Vector(v) + rest) == Ok(Read(v, rest))
  {
    assert F32Vector(v) + rest == [U32(|v|)] + (Reals(Single, v) + rest);
    RealsRoundTrip(Single, v, rest);
  }

  /** `n` reads of one real each, as a loop of `in >> f` does them. */
  method ReadRealsOneByOne(s: seq<Item>, n: nat, p: Precision) returns (r: Result<Read<seq<real>>>)
    ensures r.Ok? <==> ReadReals(s, n, p).Ok?
    ensures r.Ok? ==> r == ReadReals(s, n, p)
  {
    var v: seq<real> := [];
    var cur := s;
    var i := 0;
    while i < n
      invariant 0 <= i <= n && |v| == i
      invariant s == Reals(p, v) + cur
    {
      var x := ReadReal(cur, p);
      ReadRealsSnoc(p, v, cur);
      if x.Err? {
        return Err(x.error);
      }
      v := v + [x.value.value];
      cur := x.value.rest;
      i := i + 1;
    }
    RealsRoundTrip(p, v, cur);
    r := Ok(Read(v, cur));
  }
}
