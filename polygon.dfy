/**
 * mrpt::math::CPolygon: a 2D polygon kept as a vector of vertices, with bulk
 * setters and getters over separate x and y arrays and a serialisation whose
 * current version (2) writes the vertex count and then the vertices as one
 * buffer of (x, y) pairs of doubles. Versions 0 and 1 stored the count, six
 * bounding-box values that are read and dropped, then all x and then all y,
 * as floats (version 0) or doubles (version 1).
 */
module Polygon {
  import opened Streams

  /** The version `writeToStream` reports. */
  const Version: nat := 2

  datatype Vertex = Vertex(x: real, y: real)

  /** The vertices whose coordinates are `xs[i]` and `ys[i]`. */
  function Zip(xs: seq<real>, ys: seq<real>): (vs: seq<Vertex>)
    requires |xs| == |ys|
    ensures |vs| == |xs|
    ensures forall i :: 0 <= i < |vs| ==> vs[i].x == xs[i] && vs[i].y == ys[i]
  {
    seq(|xs|, i requires 0 <= i < |xs| => Vertex(xs[i], ys[i]))
  }

  function Xs(vs: seq<Vertex>): (xs: seq<real>)
    ensures |xs| == |vs|
    ensures forall i :: 0 <= i < |vs| ==> xs[i] == vs[i].x
  {
    seq(|vs|, i requires 0 <= i < |vs| => vs[i].x)
  }

  function Ys(vs: seq<Vertex>): (ys: seq<real>)
    ensures |ys| == |vs|
    ensures forall i :: 0 <= i < |vs| ==> ys[i] == vs[i].y
  {
    seq(|vs|, i requires 0 <= i < |vs| => vs[i].y)
  }

  /** Taking the coordinates apart and zipping them again gives the vertices back, and the other way round. */
  lemma ZipUnzip(vs: seq<Vertex>, xs: seq<real>, ys: seq<real>)
    requires |xs| == |ys|
    ensures Zip(Xs(vs), Ys(vs)) == vs
    ensures Xs(Zip(xs, ys)) == xs && Ys(Zip(xs, ys)) == ys
  {
  }

  /** The vertices as they lie in memory: x0, y0, x1, y1, ... */
  function Flatten(vs: seq<Vertex>): (r: seq<real>)
    ensures |r| == 2 * |vs|
  {
    seq(2 * |vs|, i requires 0 <= i < 2 * |vs| => if i % 2 == 0 then vs[i / 2].x else vs[i / 2].y)
  }

  /** Consecutive pairs of reals read as vertices. */
  function Pair(v: seq<real>): (vs: seq<Vertex>)
    requires |v| % 2 == 0
    ensures |vs| == |v| / 2
    ensures forall i :: 0 <= i < |vs| ==> vs[i] == Vertex(v[2 * i], v[2 * i + 1])
  {
    seq(|v| / 2, i requires 0 <= i < |v| / 2 => Vertex(v[2 * i], v[2 * i + 1]))
  }

  lemma PairFlatten(vs: seq<Vertex>)
    ensures Pair(Flatten(vs)) == vs
  {
    var f := Flatten(vs);
    forall i | 0 <= i < |vs| ensures Pair(f)[i] == vs[i] {
      assert (2 * i) / 2 == i && (2 * i) % 2 == 0;
      assert (2 * i + 1) / 2 == i && (2 * i + 1) % 2 == 1;
    }
  }

  /** What `writeToStream` writes: the count truncated to 32 bits, then that many vertices as one buffer. */
  function Body(vs: seq<Vertex>): seq<Item>
  {
    var n := |vs| % U32Limit;
    [U32(n)] + (if n > 0 then Reals(Double, Flatten(vs[..n])) else [])
  }

  /** The layout of versions 0 and 1: count, six dropped values, all x, all y. */
  function LegacyBody(p: Precision, skipped: seq<real>, xs: seq<real>, ys: seq<real>): seq<Item>
  {
    [U32(|xs|)] + Reals(p, skipped) + Reals(p, xs) + Reals(p, ys)
  }

  /** The coordinate width of a legacy version: floats in version 0, doubles in version 1. */
  function LegacyPrecision(version: nat): Precision
  {
    if version == 0 then Single else Double
  }

  /** Versions 0 and 1 after the count: six dropped values, `n` x values, `n` y values. */
  function ParseLegacy(s: seq<Item>, n: nat, p: Precision): (r: Result<Read<seq<Vertex>>>)
    ensures r.Ok? ==> |r.value.value| == n
  {
    match ReadReals(s, 6, p)
    case Err(e) => Err(e)
    case Ok(Read(_, s1)) =>
      match ReadReals(s1, n, p)
      case Err(e) => Err(e)
      case Ok(Read(xs, s2)) =>
        match ReadReals(s2, n, p)
        case Err(e) => Err(e)
        case Ok(Read(ys, rest)) => Ok(Read(Zip(xs, ys), rest))
  }

  /** What `readFromStream` makes of `s` for the given version. */
  function Parse(s: seq<Item>, version: nat): (r: Result<Read<seq<Vertex>>>)
    ensures version > 2 ==> r == Err(UnknownVersion(version))
  {
    if version > 2 then Err(UnknownVersion(version))
    else
      match ReadU32(s)
      case Err(e) => Err(e)
      case Ok(Read(n, s1)) =>
        if version < 2 then ParseLegacy(s1, n, LegacyPrecision(version))
        else if n == 0 then Ok(Read([], s1))
        else
          match ReadReals(s1, 2 * n, Double)
          case Err(e) => Err(e)
          case Ok(Read(v, rest)) => Ok(Read(Pair(v), rest))
  }

  lemma ItemsAssoc(a: seq<Item>, b: seq<Item>, c: seq<Item>)
    ensures (a + b) + c == a + (b + c)
  {
  }

  /** Writing a polygon and reading it back as version 2 gives the same vertices and leaves the rest of the archive. */
  lemma RoundTrip(vs: seq<Vertex>, rest: seq<Item>)
    requires |vs| < U32Limit
    ensures Parse(Body(vs) + rest, Version) == Ok(Read(vs, rest))
  {
    var n := |vs|;
    TakeAll(vs);
    if n > 0 {
      var buffer := Reals(Double, Flatten(vs));
      assert Body(vs) == [U32(n)] + buffer;
      ItemsAssoc([U32(n)], buffer, rest);
      BufferRead(vs, rest);
    } else {
      ItemsAssoc([U32(0)], [], rest);
    }
  }

  lemma TakeAll(vs: seq<Vertex>)
    ensures vs[..|vs|] == vs
  {
  }

  /** Version 2's vertex buffer read back. */
  lemma BufferRead(vs: seq<Vertex>, rest: seq<Item>)
    ensures ReadReals(Reals(Double, Flatten(vs)) + rest, 2 * |vs|, Double) == Ok(Read(Flatten(vs), rest))
    ensures Pair(Flatten(vs)) == vs
  {
    RealsRoundTrip(Double, Flatten(vs), rest);
    PairFlatten(vs);
  }

  /** An archive of version 0 or 1 is read as its x values zipped with its y values. */
  lemma LegacyRead(version: nat, skipped: seq<real>, xs: seq<real>, ys: seq<real>, rest: seq<Item>)
    requires version < 2 && |skipped| == 6 && |xs| == |ys|
    ensures var p := LegacyPrecision(version);
      Parse(LegacyBody(p, skipped, xs, ys) + rest, version) == Ok(Read(Zip(xs, ys), rest))
  {
    var p := LegacyPrecision(version);
    var a, b, c := Reals(p, skipped), Reals(p, xs), Reals(p, ys);
    assert LegacyBody(p, skipped, xs, ys) + rest == [U32(|xs|)] + (a + (b + (c + rest)));
    RealsRoundTrip(p, skipped, b + (c + rest));
    RealsRoundTrip(p, xs, c + rest);
    RealsRoundTrip(p, ys, rest);
  }

  /** A polygon: its vertices, in order. */
  class CPolygon {
    var vertices: seq<Vertex>

    constructor ()
      ensures vertices == []
    {
      vertices := [];
    }

    /** `setAllVertices(n, xs, ys)`: resize to `n` and set vertex `i` to `(xs[i], ys[i])`. */
    method SetAllVertices(n: nat, xs: seq<real>, ys: seq<real>)
      requires n <= |xs| && n <= |ys|
      modifies this
      ensures vertices == Zip(xs[..n], ys[..n])
    {
      var previous := vertices;
      vertices := seq(n, i requires 0 <= i < n => if i < |previous| then previous[i] else Vertex(0.0, 0.0));
      var i := 0;
      while i < n
        invariant 0 <= i <= n && |vertices| == n
        invariant forall k :: 0 <= k < i ==> vertices[k] == Vertex(xs[k], ys[k])
      {
        vertices := vertices[i := Vertex(xs[i], ys[i])];
        i := i + 1;
      }
    }

    /** `setAllVertices(x, y)` over vectors: both must have the same, non-zero length. */
    method SetAllVerticesFromVectors(xs: seq<real>, ys: seq<real>) returns (ok: bool)
      modifies this
      ensures ok <==> |xs| == |ys| && xs != []
      ensures ok ==> vertices == Zip(xs, ys)
      ensures !ok ==> vertices == old(vertices)
    {
      if !(|xs| == |ys| && xs != []) {
        return false;
      }
      SetAllVertices(|xs|, xs, ys);
      assert xs[..|xs|] == xs && ys[..|ys|] == ys;
      ok := true;
    }

    /** `getAllVertices`: the x and the y of every vertex, in order. */
    method GetAllVertices() returns (x: seq<real>, y: seq<real>)
      ensures x == Xs(vertices) && y == Ys(vertices)
    {
      var n := |vertices|;
      x := seq(n, _ => 0.0);
      y := seq(n, _ => 0.0);
      var i := 0;
      while i < n
        invariant 0 <= i <= n && |x| == n && |y| == n
        invariant forall k :: 0 <= k < i ==> x[k] == vertices[k].x && y[k] == vertices[k].y
      {
        x := x[i := vertices[i].x];
        y := y[i := vertices[i].y];
        i := i + 1;
      }
    }

    method WriteToStream() returns (out: seq<Item>)
      ensures out == Body(vertices)
    {
      var n := |vertices| % U32Limit;
      out := [U32(n)];
      if n > 0 {
        out := out + Reals(Double, Flatten(vertices[..n]));
      }
    }

    /**
     * `readFromStream`: versions 0 and 1 read the count, drop six values and
     * read all x and then all y one value at a time; version 2 reads the
     * count and then one buffer of vertices; any other version is refused.
     */
    method ReadFromStream(s: seq<Item>, version: nat) returns (r: Result<seq<Item>>)
      modifies this
      ensures r.Ok? <==> Parse(s, version).Ok?
      ensures r.Ok? ==> vertices == Parse(s, version).value.value && r.value == Parse(s, version).value.rest
    {
      if version > 2 {
        return Err(UnknownVersion(version));
      }
      var a := ReadU32(s);
      if a.Err? {
        return Err(a.error);
      }
      var n, cur := a.value.value, a.value.rest;
      if version < 2 {
        var p := LegacyPrecision(version);
        var skipped := ReadRealsOneByOne(cur, 6, p);
        if skipped.Err? {
          return Err(skipped.error);
        }
        var xs := ReadRealsOneByOne(skipped.value.rest, n, p);
        if xs.Err? {
          return Err(xs.error);
        }
        var ys := ReadRealsOneByOne(xs.value.rest, n, p);
        if ys.Err? {
          return Err(ys.error);
        }
        vertices := Zip(xs.value.value, ys.value.value);
        r := Ok(ys.value.rest);
      } else if n == 0 {
        vertices := [];
        r := Ok(cur);
      } else {
        var buffer := ReadReals(cur, 2 * n, Double);
        if buffer.Err? {
          return Err(buffer.error);
        }
        vertices := Pair(buffer.value.value);
        r := Ok(buffer.value.rest);
      }
    }
  }
}
