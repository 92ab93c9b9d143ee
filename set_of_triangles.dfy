/**
 * mrpt::opengl::CSetOfTriangles: a renderizable object made of triangles,
 * each with three vertices and a colour per vertex. It recolours all of
 * its triangles at once, keeps a cache of one 3D polygon per triangle for
 * ray tracing, and serialises the render part, the triangle count, the
 * triangles as one buffer and the transparency flag.
 *
 * The layout of a triangle (`TTriangle`, declared in a header that is not
 * part of this model) is taken to be seven arrays of three floats: x, y, z,
 * then red, green, blue and alpha, one entry per vertex.
 */
module SetOfTriangles {
  import opened Streams
  import opened Renderizable
  import Matrix

  /** The version `writeToStream` reports. */
  const Version: nat := 1

  /** The floats of one triangle in the archive. */
  const TriangleFloats: nat := 21

  /** One value per vertex. */
  type Triple = s: seq<real> | |s| == 3 witness [0.0, 0.0, 0.0]

  datatype Triangle = Triangle(x: Triple, y: Triple, z: Triple, r: Triple, g: Triple, b: Triple, a: Triple)

  datatype Point3D = Point3D(x: real, y: real, z: real)

  /** A `TPolygon3D`: its vertices in order. */
  type Polygon3D = seq<Point3D>

  /** The three vertices of a triangle, as a polygon. */
  function PolygonOf(t: Triangle): (p: Polygon3D)
    ensures |p| == 3
    ensures forall j :: 0 <= j < 3 ==> p[j] == Point3D(t.x[j], t.y[j], t.z[j])
  {
    [Point3D(t.x[0], t.y[0], t.z[0]), Point3D(t.x[1], t.y[1], t.z[1]), Point3D(t.x[2], t.y[2], t.z[2])]
  }

  /** One polygon per triangle, in order. */
  function Polygons(ts: seq<Triangle>): (ps: seq<Polygon3D>)
    ensures |ps| == |ts|
    ensures forall i :: 0 <= i < |ts| ==> ps[i] == PolygonOf(ts[i])
  {
    seq(|ts|, i requires 0 <= i < |ts| => PolygonOf(ts[i]))
  }

  function Same(v: real): (s: Triple)
  {
    [v, v, v]
  }

  /** A triangle with every vertex in colour `c`. */
  function Painted(t: Triangle, c: Color): (p: Triangle)
    ensures p.x == t.x && p.y == t.y && p.z == t.z
    ensures forall j :: 0 <= j < 3 ==> p.r[j] == c.r && p.g[j] == c.g && p.b[j] == c.b && p.a[j] == c.a
  {
    t.(r := Same(c.r), g := Same(c.g), b := Same(c.b), a := Same(c.a))
  }

  datatype Channel = Red | Green | Blue | Alpha

  function ChannelOf(t: Triangle, ch: Channel): Triple
  {
    match ch
    case Red => t.r
    case Green => t.g
    case Blue => t.b
    case Alpha => t.a
  }

  /** A triangle with one colour channel of every vertex set to `v`. */
  function WithChannel(t: Triangle, ch: Channel, v: real): (p: Triangle)
    ensures p.x == t.x && p.y == t.y && p.z == t.z
    ensures forall j :: 0 <= j < 3 ==> ChannelOf(p, ch)[j] == v
    ensures forall other :: other != ch ==> ChannelOf(p, other) == ChannelOf(t, other)
  {
    match ch
    case Red => t.(r := Same(v))
    case Green => t.(g := Same(v))
    case Blue => t.(b := Same(v))
    case Alpha => t.(a := Same(v))
  }

  /** A triangle with one colour channel of vertex `i` set to `v`. */
  function WithVertexChannel(t: Triangle, ch: Channel, i: nat, v: real): (p: Triangle)
    requires i < 3
    ensures p.x == t.x && p.y == t.y && p.z == t.z
    ensures ChannelOf(p, ch) == ChannelOf(t, ch)[i := v]
    ensures forall other :: other != ch ==> ChannelOf(p, other) == ChannelOf(t, other)
  {
    match ch
    case Red => t.(r := t.r[i := v])
    case Green => t.(g := t.g[i := v])
    case Blue => t.(b := t.b[i := v])
    case Alpha => t.(a := t.a[i := v])
  }

  /** The same channel of the object's own colour. */
  function ColorWithChannel(c: Color, ch: Channel, v: real): Color
  {
    match ch
    case Red => c.(r := v)
    case Green => c.(g := v)
    case Blue => c.(b := v)
    case Alpha => c.(a := v)
  }

  /** Recolouring keeps every vertex where it was, so the polygons do not change. */
  lemma PaintKeepsPolygons(ts: seq<Triangle>, c: Color, ch: Channel, v: real)
    ensures Polygons(seq(|ts|, i requires 0 <= i < |ts| => Painted(ts[i], c))) == Polygons(ts)
    ensures Polygons(seq(|ts|, i requires 0 <= i < |ts| => WithChannel(ts[i], ch, v))) == Polygons(ts)
  {
  }

  /** The floats of a triangle in the order they are stored. */
  function Floats(t: Triangle): (v: seq<real>)
    ensures |v| == TriangleFloats
  {
    t.x + t.y + t.z + t.r + t.g + t.b + t.a
  }

  function FromFloats(v: seq<real>): Triangle
    requires |v| == TriangleFloats
  {
    Triangle(v[0..3], v[3..6], v[6..9], v[9..12], v[12..15], v[15..18], v[18..21])
  }

  /** A triangle stored as floats and read back is the same triangle. */
  lemma FloatsRoundTrip(t: Triangle)
    ensures FromFloats(Floats(t)) == t
  {
    var v := Floats(t);
    assert v[0..3] == t.x && v[3..6] == t.y && v[6..9] == t.z;
    assert v[9..12] == t.r && v[12..15] == t.g;
    assert v[15..18] == t.b && v[18..21] == t.a;
  }

  /** The triangles as rows of floats, as the buffer holds them. */
  function Rows(ts: seq<Triangle>): (rows: seq<seq<real>>)
    ensures |rows| == |ts|
    ensures Matrix.Shaped(|ts|, TriangleFloats, rows)
  {
    seq(|ts|, i requires 0 <= i < |ts| => Floats(ts[i]))
  }

  function Unrows(rows: seq<seq<real>>): seq<Triangle>
    requires Matrix.Shaped(|rows|, TriangleFloats, rows)
  {
    seq(|rows|, i requires 0 <= i < |rows| => FromFloats(rows[i]))
  }

  lemma UnrowsRows(ts: seq<Triangle>)
    ensures Unrows(Rows(ts)) == ts
  {
    forall i | 0 <= i < |ts| ensures Unrows(Rows(ts))[i] == ts[i] {
      FloatsRoundTrip(ts[i]);
    }
  }

  /** A set of triangles as its serialisation sees it. */
  datatype Triangles = Triangles(render: RenderState, triangles: seq<Triangle>, enableTransparency: bool)

  /** What `writeToStream` writes: the render part, the count truncated to 32 bits, that many triangles as one buffer, the transparency flag. */
  function Body(t: Triangles): seq<Item>
  {
    var n := |t.triangles| % U32Limit;
    RenderBody(t.render) + [U32(n)]
      + (if n > 0 then Matrix.RowItems(Rows(t.triangles[..n])) else [])
      + [Bool(t.enableTransparency)]
  }

  /** What follows the render part: the triangles and the transparency flag. */
  datatype Content = Content(triangles: seq<Triangle>, enableTransparency: bool)

  /**
   * What `readFromStream` reads after the render part: the count, that many
   * triangles, and for version 1 the transparency flag. Version 0 has no
   * flag and turns transparency on.
   */
  function ParseContent(s: seq<Item>, version: nat): (r: Result<Read<Content>>)
    ensures r.Ok? && version == 0 ==> r.value.value.enableTransparency
  {
    match ReadU32(s)
    case Err(e) => Err(e)
    case Ok(Read(n, s1)) =>
      match Matrix.ParseRows(s1, n, TriangleFloats)
      case Err(e) => Err(e)
      case Ok(Read(rows, s2)) =>
        if version >= 1 then
          match ReadBool(s2)
          case Err(e) => Err(e)
          case Ok(Read(transparency, s3)) => Ok(Read(Content(Unrows(rows), transparency), s3))
        else Ok(Read(Content(Unrows(rows), true), s2))
  }

  /**
   * What `readFromStream` makes of `s` for the given version, the render
   * part read as `ParseRender` does with `visible` and `sentinelTest`.
   */
  function Parse(s: seq<Item>, version: nat, visible: bool, sentinelTest: bool): (r: Result<Read<Triangles>>)
    ensures version > Version ==> r == Err(UnknownVersion(version))
    ensures r.Ok? && version == 0 ==> r.value.value.enableTransparency
  {
    if version > Version then Err(UnknownVersion(version))
    else
      match ParseRender(s, visible, sentinelTest)
      case Err(e) => Err(e)
      case Ok(Read(st, s1)) =>
        match ParseContent(s1, version)
        case Err(e) => Err(e)
        case Ok(Read(c, s2)) => Ok(Read(Triangles(st, c.triangles, c.enableTransparency), s2))
  }

  lemma TakeAll(ts: seq<Triangle>)
    ensures ts[..|ts|] == ts
  {
  }

  /** The triangle buffer read back, followed by the transparency flag. */
  lemma BufferRead(ts: seq<Triangle>, rest: seq<Item>)
    ensures Matrix.ParseRows(Matrix.RowItems(Rows(ts)) + rest, |ts|, TriangleFloats) == Ok(Read(Rows(ts), rest))
  {
    Matrix.ParseRowItems(Rows(ts), TriangleFloats, 0, rest);
    assert Rows(ts) + [] == Rows(ts);
  }

  /** The body of a set of triangles, split after the render part and after the count. */
  lemma BodySplit(t: Triangles, rest: seq<Item>)
    requires |t.triangles| < U32Limit
    ensures Body(t) + rest == RenderBody(t.render) + ([U32(|t.triangles|)]
      + (Matrix.RowItems(Rows(t.triangles)) + ([Bool(t.enableTransparency)] + rest)))
  {
    TakeAll(t.triangles);
    if t.triangles == [] {
      assert Rows(t.triangles) == [];
    }
    var a, b, c, d := RenderBody(t.render), [U32(|t.triangles|)], Matrix.RowItems(Rows(t.triangles)), [Bool(t.enableTransparency)];
    assert Body(t) == a + b + c + d;
    Assoc4(a, b, c, d, rest);
  }

  lemma Assoc4(a: seq<Item>, b: seq<Item>, c: seq<Item>, d: seq<Item>, e: seq<Item>)
    ensures a + b + c + d + e == a + (b + (c + (d + e)))
  {
  }

  /**
   * Writing a set of triangles and reading it back as version 1, the render
   * part read as intended, gives the same object and leaves the rest of the
   * archive.
   */
  lemma RoundTrip(t: Triangles, rest: seq<Item>)
    requires |t.triangles| < U32Limit
    requires !(UnitScale(t.render) && (t.render.placement.roll == WithScales || t.render.placement.roll == WithVisibility))
    ensures Parse(Body(t) + rest, Version, t.render.visible, true) == Ok(Read(t, rest))
  {
    var tail := [U32(|t.triangles|)] + (Matrix.RowItems(Rows(t.triangles)) + ([Bool(t.enableTransparency)] + rest));
    BodySplit(t, rest);
    Renderizable.RoundTrip(t.render, tail);
    ContentRoundTrip(t.triangles, t.enableTransparency, rest);
  }

  /**
   * With the render reader as written, a set with a non-unit scale and a
   * roll other than 17 degrees is not read back: the visibility flag left
   * unread by the render part sits where the triangle count is expected.
   */
  lemma ScaledSetMisread(t: Triangles, rest: seq<Item>)
    requires |t.triangles| < U32Limit
    requires !UnitScale(t.render) && t.render.placement.roll != WithVisibility
    ensures Parse(Body(t) + rest, Version, t.render.visible, false) == Err(TypeMismatch)
  {
    var tail := [U32(|t.triangles|)] + (Matrix.RowItems(Rows(t.triangles)) + ([Bool(t.enableTransparency)] + rest));
    BodySplit(t, rest);
    Renderizable.VisibilityLeftUnread(t.render, tail);
    assert ReadU32([Bool(t.render.visible)] + tail) == Err(TypeMismatch);
  }

  /** The part after the render part read back. */
  lemma ContentRoundTrip(ts: seq<Triangle>, transparency: bool, rest: seq<Item>)
    requires |ts| < U32Limit
    ensures ParseContent([U32(|ts|)] + (Matrix.RowItems(Rows(ts)) + ([Bool(transparency)] + rest)), Version)
      == Ok(Read(Content(ts, transparency), rest))
  {
    BufferRead(ts, [Bool(transparency)] + rest);
    UnrowsRows(ts);
  }

  /** A set of triangles, its colour, and its cache of polygons. */
  class CSetOfTriangles {
    /** The part every renderizable object has. */
    var render: RenderState
    var triangles: seq<Triangle>
    var enableTransparency: bool
    var tmpPolygons: seq<Polygon3D>
    var polygonsUpToDate: bool

    /** An up-to-date cache holds one polygon per triangle. */
    ghost predicate Valid()
      reads this
    {
      polygonsUpToDate ==> tmpPolygons == Polygons(triangles)
    }

    /**
     * `setColor`, with four components or a `TColorf`: the object's colour
     * and the colour of every vertex of every triangle; the vertices stay
     * where they are and the cache stays as valid as it was.
     */
    method SetColor(c: Color)
      modifies this`render, this`triangles
      ensures render == old(render).(color := c)
      ensures triangles == seq(|old(triangles)|, i requires 0 <= i < |old(triangles)| => Painted(old(triangles)[i], c))
      ensures Polygons(triangles) == Polygons(old(triangles))
    {
      render := render.(color := c);
      ghost var before := triangles;
      var k := 0;
      while k < |triangles|
        invariant 0 <= k <= |triangles| && |triangles| == |before| && render == old(render).(color := c)
        invariant forall j :: 0 <= j < k ==> triangles[j] == Painted(before[j], c)
        invariant forall j :: k <= j < |triangles| ==> triangles[j] == before[j]
      {
        var t := triangles[k];
        var i := 0;
        while i < 3
          invariant 0 <= i <= 3
          invariant t.x == before[k].x && t.y == before[k].y && t.z == before[k].z
          invariant forall j :: 0 <= j < i ==> t.r[j] == c.r && t.g[j] == c.g && t.b[j] == c.b && t.a[j] == c.a
        {
          t := t.(r := t.r[i := c.r], g := t.g[i := c.g], b := t.b[i := c.b], a := t.a[i := c.a]);
          i := i + 1;
        }
        assert t == Painted(before[k], c);
        triangles := triangles[k := t];
        k := k + 1;
      }
      assert triangles == seq(|before|, i requires 0 <= i < |before| => Painted(before[i], c));
      PaintKeepsPolygons(before, c, Red, 0.0);
    }

    /** `setColorR`, `setColorG`, `setColorB`, `setColorA`: one channel, of the object and of every vertex. */
    method SetColorChannel(ch: Channel, v: real)
      modifies this`render, this`triangles
      ensures render == old(render).(color := ColorWithChannel(old(render).color, ch, v))
      ensures triangles == seq(|old(triangles)|, i requires 0 <= i < |old(triangles)| => WithChannel(old(triangles)[i], ch, v))
      ensures Polygons(triangles) == Polygons(old(triangles))
    {
      render := render.(color := ColorWithChannel(render.color, ch, v));
      ghost var before := triangles;
      var k := 0;
      while k < |triangles|
        invariant 0 <= k <= |triangles| && |triangles| == |before|
        invariant render == old(render).(color := ColorWithChannel(old(render).color, ch, v))
        invariant forall j :: 0 <= j < k ==> triangles[j] == WithChannel(before[j], ch, v)
        invariant forall j :: k <= j < |triangles| ==> triangles[j] == before[j]
      {
        var t := triangles[k];
        var i := 0;
        while i < 3
          invariant 0 <= i <= 3
          invariant forall other :: other != ch ==> ChannelOf(t, other) == ChannelOf(before[k], other)
          invariant t.x == before[k].x && t.y == before[k].y && t.z == before[k].z
          invariant forall j :: 0 <= j < i ==> ChannelOf(t, ch)[j] == v
        {
          t := WithVertexChannel(t, ch, i, v);
          i := i + 1;
        }
        SameChannel(t, before[k], ch, v);
        triangles := triangles[k := t];
        k := k + 1;
      }
      assert triangles == seq(|before|, i requires 0 <= i < |before| => WithChannel(before[i], ch, v));
      PaintKeepsPolygons(before, render.color, ch, v);
    }

    /** `updatePolygons`: one polygon per triangle, with the triangle's vertices; the cache is then up to date. */
    method UpdatePolygons()
      modifies this`tmpPolygons, this`polygonsUpToDate
      ensures tmpPolygons == Polygons(triangles) && polygonsUpToDate
      ensures Valid()
    {
      var n := |triangles|;
      var previous := tmpPolygons;
      tmpPolygons := seq(n, i requires 0 <= i < n => if i < |previous| then previous[i] else []);
      var tmp: Polygon3D := [Point3D(0.0, 0.0, 0.0), Point3D(0.0, 0.0, 0.0), Point3D(0.0, 0.0, 0.0)];
      var i := 0;
      while i < n
        invariant 0 <= i <= n && |tmpPolygons| == n && |tmp| == 3
        invariant forall k :: 0 <= k < i ==> tmpPolygons[k] == PolygonOf(triangles[k])
      {
        var j := 0;
        while j < 3
          invariant 0 <= j <= 3 && |tmpPolygons| == n && |tmp| == 3
          invariant forall k :: 0 <= k < i ==> tmpPolygons[k] == PolygonOf(triangles[k])
          invariant forall l :: 0 <= l < j ==> tmp[l] == PolygonOf(triangles[i])[l]
          invariant j > 0 ==> tmpPolygons[i] == tmp
        {
          var t := triangles[i];
          tmp := tmp[j := Point3D(t.x[j], t.y[j], t.z[j])];
          tmpPolygons := tmpPolygons[i := tmp];
          j := j + 1;
        }
        assert tmp == PolygonOf(triangles[i]);
        i := i + 1;
      }
      polygonsUpToDate := true;
    }

    /**
     * `getPolygons`: brings the cache up to date if it is stale and copies
     * it into the first entries of `polys`, which must already have room
     * for one polygon per triangle; the entries after them are left alone.
     */
    method GetPolygons(polys: array<Polygon3D>)
      requires Valid() && polys.Length >= |triangles|
      modifies this`tmpPolygons, this`polygonsUpToDate, polys
      ensures polys[..|triangles|] == Polygons(triangles)
      ensures polys[|triangles|..] == old(polys[|triangles|..])
      ensures Valid() && polygonsUpToDate
    {
      if !polygonsUpToDate {
        UpdatePolygons();
      }
      var n := |tmpPolygons|;
      var i := 0;
      while i < n
        invariant 0 <= i <= n && tmpPolygons == Polygons(triangles) && polygonsUpToDate
        invariant forall k :: 0 <= k < i ==> polys[k] == tmpPolygons[k]
        invariant polys[n..] == old(polys[n..])
      {
        polys[i] := tmpPolygons[i];
        i := i + 1;
      }
    }

    /** `writeToStream`. */
    method WriteToStream() returns (out: seq<Item>)
      ensures out == Body(Triangles(render, triangles, enableTransparency))
    {
      var n := |triangles| % U32Limit;
      out := RenderBody(render) + [U32(n)];
      if n > 0 {
        out := out + Matrix.RowItems(Rows(triangles[..n]));
      }
      out := out + [Bool(enableTransparency)];
    }

    /**
     * `readFromStream`: versions 0 and 1, the render part read as written;
     * any other version is refused. On success the object is what `Parse`
     * reads, `r` holds the rest of the archive, and the polygon cache is
     * marked stale.
     */
    method ReadFromStream(s: seq<Item>, version: nat) returns (r: Result<seq<Item>>)
      modifies this`render, this`triangles, this`enableTransparency, this`polygonsUpToDate
      ensures r.Ok? <==> Parse(s, version, old(render).visible, false).Ok?
      ensures r.Ok? ==>
                Triangles(render, triangles, enableTransparency) == Parse(s, version, old(render).visible, false).value.value
                && r.value == Parse(s, version, old(render).visible, false).value.rest
                && !polygonsUpToDate && Valid()
    {
      if version > Version {
        return Err(UnknownVersion(version));
      }
      var st := ReadRender(s, render.visible);
      if st.Err? {
        return Err(st.error);
      }
      render := st.value.value;
      var n := ReadU32(st.value.rest);
      if n.Err? {
        return Err(n.error);
      }
      var rows := Matrix.CMatrix.ReadRows(n.value.rest, n.value.value, TriangleFloats);
      if rows.Err? {
        return Err(rows.error);
      }
      triangles := Unrows(rows.value.value);
      var cur := rows.value.rest;
      if version >= 1 {
        var b := ReadBool(cur);
        if b.Err? {
          return Err(b.error);
        }
        enableTransparency := b.value.value;
        cur := b.value.rest;
      } else {
        enableTransparency := true;
      }
      polygonsUpToDate := false;
      r := Ok(cur);
    }
  }

  /** A triangle whose chosen channel is `v` at every vertex and whose other data are `u`'s is `u` with that channel set. */
  lemma SameChannel(t: Triangle, u: Triangle, ch: Channel, v: real)
    requires t.x == u.x && t.y == u.y && t.z == u.z
    requires forall other :: other != ch ==> ChannelOf(t, other) == ChannelOf(u, other)
    requires forall j :: 0 <= j < 3 ==> ChannelOf(t, ch)[j] == v
    ensures t == WithChannel(u, ch, v)
  {
    assert ChannelOf(t, ch) == Same(v);
    match ch
    case Red => assert ChannelOf(t, Green) == u.g && ChannelOf(t, Blue) == u.b && ChannelOf(t, Alpha) == u.a;
    case Green => assert ChannelOf(t, Red) == u.r && ChannelOf(t, Blue) == u.b && ChannelOf(t, Alpha) == u.a;
    case Blue => assert ChannelOf(t, Red) == u.r && ChannelOf(t, Green) == u.g && ChannelOf(t, Alpha) == u.a;
    case Alpha => assert ChannelOf(t, Red) == u.r && ChannelOf(t, Green) == u.g && ChannelOf(t, Blue) == u.b;
  }
}
