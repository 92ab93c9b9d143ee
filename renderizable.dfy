/**
 * mrpt::opengl::CRenderizable, the base of every object of an OpenGL scene:
 * a name, a colour, a pose (position, and yaw, pitch and roll kept in
 * degrees), a scale and a visibility flag, with the render part of its
 * serialisation; and the process-wide table of OpenGL texture names that
 * objects allocate from and release to.
 *
 * The render serialisation has no version number of its own. A unit scale
 * is written in the original layout; any other scale writes the sentinel
 * 17 where the roll used to be, then the roll, the scales and the
 * visibility flag. The reader takes a 16 or a 17 in the roll slot as that
 * sentinel.
 */
module Renderizable {
  import opened Streams
  import opened Options

  /** The size of the texture-name table. */
  const TextureNames: nat := 1000

  /** The number of `true` entries in `s`. */
  function Count(s: seq<bool>): (n: nat)
    ensures n <= |s|
  {
    if s == [] then 0 else Count(s[..|s| - 1]) + (if s[|s| - 1] then 1 else 0)
  }

  /** Setting one entry changes the count by what that entry was and becomes. */
  lemma {:induction false} CountUpdate(s: seq<bool>, i: nat, b: bool)
    requires i < |s|
    ensures Count(s[i := b]) == Count(s) - (if s[i] then 1 else 0) + (if b then 1 else 0)
  {
    var t := s[i := b];
    var last := |s| - 1;
    if i < last {
      assert t[..last] == s[..last][i := b];
      CountUpdate(s[..last], i, b);
    } else {
      assert t[..last] == s[..last];
    }
  }

  /** The lowest index from `from` up that is not in use. */
  function FirstFreeFrom(used: seq<bool>, from: nat): (r: Option<nat>)
    requires from <= |used|
    ensures r.Some? ==>
              from <= r.value < |used| && !used[r.value] && forall j :: from <= j < r.value ==> used[j]
    ensures r.None? <==> forall j :: from <= j < |used| ==> used[j]
    decreases |used| - from
  {
    if from == |used| then None
    else if !used[from] then Some(from)
    else FirstFreeFrom(used, from + 1)
  }

  /** The texture name `getNewTextureNumber` hands out: the lowest free one, never 0. */
  function LowestFree(used: seq<bool>): (r: Option<nat>)
  {
    if |used| == 0 then None else FirstFreeFrom(used, 1)
  }

  /** `LowestFree` finds a free name in `[1, |used|)` below which every name is taken, and finds none only when all of them are. */
  lemma LowestFreeIsLowest(used: seq<bool>)
    requires |used| > 0
    ensures LowestFree(used).Some? ==> var k := LowestFree(used).value;
      1 <= k < |used| && !used[k] && forall j :: 1 <= j < k ==> used[j]
    ensures LowestFree(used).None? <==> forall j :: 1 <= j < |used| ==> used[j]
  {
  }

  /** Handing a name out and releasing it again restores the table and the count. */
  lemma AllocateRelease(used: seq<bool>, k: nat)
    requires k < |used| && !used[k]
    ensures used[k := true][k := false] == used
    ensures Count(used[k := true]) == Count(used) + 1
    ensures Count(used[k := true][k := false]) == Count(used)
  {
    CountUpdate(used, k, true);
    CountUpdate(used[k := true], k, false);
  }

  /** The table of texture names: which are in use, and how many. */
  class TextureNamesInfo {
    var freeTextureNames: seq<bool>   // despite its name, `true` marks a name in use
    var texturesInUseCount: int

    /** The count agrees with the table. */
    ghost predicate Valid()
      reads this
    {
      |freeTextureNames| == TextureNames && texturesInUseCount == Count(freeTextureNames)
    }

    constructor ()
      ensures Valid()
      ensures freeTextureNames == seq(TextureNames, _ => false) && texturesInUseCount == 0
    {
      freeTextureNames := seq(TextureNames, _ => false);
      texturesInUseCount := 0;
      ZeroCount(TextureNames);
    }

    /** `getNewTextureNumber`: the lowest free name above 0, now marked used; none when the table is full. */
    method GetNewTextureNumber() returns (r: Option<nat>)
      modifies this
      ensures r == LowestFree(old(freeTextureNames))
      ensures r.Some? ==>
                freeTextureNames == old(freeTextureNames)[r.value := true] && texturesInUseCount == old(texturesInUseCount) + 1
      ensures r.None? ==> freeTextureNames == old(freeTextureNames) && texturesInUseCount == old(texturesInUseCount)
      ensures old(Valid()) ==> Valid()
    {
      var n := |freeTextureNames|;
      var i := 1;
      while i < n
        invariant 1 <= i && (n > 0 ==> i <= n)
        invariant forall j :: 1 <= j < i && j < n ==> freeTextureNames[j]
      {
        if !freeTextureNames[i] {
          CountUpdate(freeTextureNames, i, true);
          freeTextureNames := freeTextureNames[i := true];
          texturesInUseCount := texturesInUseCount + 1;
          return Some(i);
        }
        i := i + 1;
      }
      r := None;
    }

    /** `releaseTextureName(i)`: marks `i` free and lowers the count, whether or not `i` was in use. */
    method ReleaseTextureName(i: nat)
      requires i < |freeTextureNames|
      modifies this
      ensures freeTextureNames == old(freeTextureNames)[i := false]
      ensures texturesInUseCount == old(texturesInUseCount) - 1
      ensures old(Valid()) && old(freeTextureNames)[i] ==> Valid()
    {
      CountUpdate(freeTextureNames, i, false);
      freeTextureNames := freeTextureNames[i := false];
      texturesInUseCount := texturesInUseCount - 1;
    }
  }

  lemma ZeroCount(n: nat)
    ensures Count(seq(n, _ => false)) == 0
  {
    if n > 0 {
      assert seq(n, _ => false)[..n - 1] == seq(n - 1, _ => false);
      ZeroCount(n - 1);
    }
  }

  /** The value of `M_PI`. */
  const Pi: real := 3.141592653589793

  function RadToDeg(a: real): real
  {
    a * 180.0 / Pi
  }

  function DegToRad(a: real): real
  {
    a * Pi / 180.0
  }

  /** An angle stored in degrees and read back in radians is the angle given. */
  lemma DegreesRoundTrip(a: real)
    ensures DegToRad(RadToDeg(a)) == a
  {
    assert (a * 180.0 / Pi) * Pi == a * 180.0;
  }

  /** A 3D pose: position and yaw, pitch and roll in radians. */
  datatype Pose3D = Pose3D(x: real, y: real, z: real, yaw: real, pitch: real, roll: real)

  /** Red, green, blue and alpha, each in [0, 1]. */
  datatype Color = Color(r: real, g: real, b: real, a: real)

  /** The stored pose: position, and yaw, pitch and roll in degrees. */
  datatype Placement = Placement(x: real, y: real, z: real, yaw: real, pitch: real, roll: real)

  datatype Scale = Scale(x: real, y: real, z: real)

  /** Everything the render serialisation stores. */
  datatype RenderState = RenderState(
    name: string, showName: bool, color: Color, placement: Placement, scale: Scale, visible: bool)

  /** The sentinel of the layout with scales. */
  const WithScales: real := 16.0
  /** The sentinel of the layout with scales and visibility, the only one written. */
  const WithVisibility: real := 17.0

  predicate UnitScale(st: RenderState)
  {
    st.scale == Scale(1.0, 1.0, 1.0)
  }

  /** Colour, position, yaw and pitch: the nine floats every layout begins with. */
  function Head(st: RenderState): (h: seq<real>)
    ensures |h| == 9
  {
    var c, p := st.color, st.placement;
    [c.r, c.g, c.b, c.a, p.x, p.y, p.z, p.yaw, p.pitch]
  }

  /** What follows the nine leading floats: roll, name flag, scales and visibility. */
  datatype Tail = Tail(roll: real, showName: bool, scale: Scale, visible: bool)

  function TailOf(st: RenderState): Tail
  {
    Tail(st.placement.roll, st.showName, st.scale, st.visible)
  }

  /** The end of the render body: the original layout for a unit scale, the sentinel layout otherwise. */
  function TailBody(st: RenderState): seq<Item>
  {
    var roll := st.placement.roll;
    if UnitScale(st) then [F32(roll), Bool(st.showName)]
    else [F32(WithVisibility), F32(roll), Bool(st.showName),
          F32(st.scale.x), F32(st.scale.y), F32(st.scale.z), Bool(st.visible)]
  }

  /** What `writeToStreamRender` writes. */
  function RenderBody(st: RenderState): seq<Item>
  {
    [Str(st.name)] + Reals(Single, Head(st)) + TailBody(st)
  }

  function Build(name: string, h: seq<real>, t: Tail): RenderState
    requires |h| == 9
  {
    RenderState(name, t.showName, Color(h[0], h[1], h[2], h[3]),
                Placement(h[4], h[5], h[6], h[7], h[8], t.roll), t.scale, t.visible)
  }

  /**
   * The reading of the roll slot onwards. A value other than 16 or 17 there
   * is the roll of the original layout: the scales become 1 and the
   * visibility keeps its value `visible`. Otherwise the roll, the name flag
   * and the scales follow, and the visibility flag is read when the value
   * compared is 17: that value is the roll just read as the reader is written
   * (`sentinelTest` false), the sentinel as intended (`sentinelTest` true);
   * when it is not read the object becomes visible.
   */
  function ParseTail(s: seq<Item>, visible: bool, sentinelTest: bool): Result<Read<Tail>>
  {
    match ReadReal(s, Single)
    case Err(e) => Err(e)
    case Ok(Read(f, s1)) =>
      if f != WithScales && f != WithVisibility then
        match ReadBool(s1)
        case Err(e) => Err(e)
        case Ok(Read(show, s2)) => Ok(Read(Tail(f, show, Scale(1.0, 1.0, 1.0), visible), s2))
      else
        match ReadReal(s1, Single)
        case Err(e) => Err(e)
        case Ok(Read(roll, s2)) =>
          match ReadBool(s2)
          case Err(e) => Err(e)
          case Ok(Read(show, s3)) =>
            match ReadReals(s3, 3, Single)
            case Err(e) => Err(e)
            case Ok(Read(sc, s4)) =>
              var tested := if sentinelTest then f else roll;
              if tested == WithVisibility then
                match ReadBool(s4)
                case Err(e) => Err(e)
                case Ok(Read(vis, s5)) => Ok(Read(Tail(roll, show, Scale(sc[0], sc[1], sc[2]), vis), s5))
              else Ok(Read(Tail(roll, show, Scale(sc[0], sc[1], sc[2]), true), s4))
  }

  /** What `readFromStreamRender` makes of `s`: the name, nine floats, then the rest as `ParseTail` reads it. */
  function ParseRender(s: seq<Item>, visible: bool, sentinelTest: bool): Result<Read<RenderState>>
  {
    match ReadStr(s)
    case Err(e) => Err(e)
    case Ok(Read(name, s1)) =>
      match ReadReals(s1, 9, Single)
      case Err(e) => Err(e)
      case Ok(Read(h, s2)) =>
        match ParseTail(s2, visible, sentinelTest)
        case Err(e) => Err(e)
        case Ok(Read(t, s3)) => Ok(Read(Build(name, h, t), s3))
  }

  /** A successful read of the name, the nine floats and the tail is a successful `ParseRender`. */
  lemma ParseRenderOk(s: seq<Item>, visible: bool, sentinelTest: bool, name: Read<string>, h: Read<seq<real>>, t: Read<Tail>)
    requires ReadStr(s) == Ok(name)
    requires ReadReals(name.rest, 9, Single) == Ok(h)
    requires ParseTail(h.rest, visible, sentinelTest) == Ok(t)
    ensures |h.value| == 9
    ensures ParseRender(s, visible, sentinelTest) == Ok(Read(Build(name.value, h.value, t.value), t.rest))
  {
  }

  lemma BuildHead(st: RenderState)
    ensures Build(st.name, Head(st), TailOf(st)) == st
  {
  }

  /** The render body and what follows it, split after the name and after the nine leading floats. */
  lemma BodySplit(st: RenderState, rest: seq<Item>)
    ensures RenderBody(st) + rest == [Str(st.name)] + (Reals(Single, Head(st)) + (TailBody(st) + rest))
  {
  }

  /** Reading a whole body comes down to reading its tail. */
  lemma ParseBody(st: RenderState, rest: seq<Item>, visible: bool, sentinelTest: bool)
    ensures ParseRender(RenderBody(st) + rest, visible, sentinelTest) ==
      match ParseTail(TailBody(st) + rest, visible, sentinelTest)
      case Err(e) => Err(e)
      case Ok(Read(t, s)) => Ok(Read(Build(st.name, Head(st), t), s))
  {
    BodySplit(st, rest);
    RealsRoundTrip(Single, Head(st), TailBody(st) + rest);
  }

  /** The scales and the visibility flag of the sentinel layout. */
  lemma ScalesSplit(st: RenderState, rest: seq<Item>)
    requires !UnitScale(st)
    ensures TailBody(st) + rest == [F32(WithVisibility), F32(st.placement.roll), Bool(st.showName)]
      + (Reals(Single, [st.scale.x, st.scale.y, st.scale.z]) + ([Bool(st.visible)] + rest))
  {
  }

  /**
   * With the sentinel compared as intended, writing and reading back gives the
   * same state and leaves the rest of the archive, unless the scale is the
   * unit scale and the roll is 16 or 17 degrees.
   */
  lemma RoundTrip(st: RenderState, rest: seq<Item>)
    requires !(UnitScale(st) && (st.placement.roll == WithScales || st.placement.roll == WithVisibility))
    ensures ParseRender(RenderBody(st) + rest, st.visible, true) == Ok(Read(st, rest))
  {
    ParseBody(st, rest, st.visible, true);
    if UnitScale(st) {
      UnitTailRoundTrip(st, rest);
    } else {
      ScaledTailRoundTrip(st, rest);
    }
    BuildHead(st);
  }

  lemma UnitTailRoundTrip(st: RenderState, rest: seq<Item>)
    requires UnitScale(st) && st.placement.roll != WithScales && st.placement.roll != WithVisibility
    ensures ParseTail(TailBody(st) + rest, st.visible, true) == Ok(Read(TailOf(st), rest))
  {
    assert TailBody(st) + rest == [F32(st.placement.roll)] + ([Bool(st.showName)] + rest);
  }

  lemma ScaledTailRoundTrip(st: RenderState, rest: seq<Item>)
    requires !UnitScale(st)
    ensures ParseTail(TailBody(st) + rest, st.visible, true) == Ok(Read(TailOf(st), rest))
  {
    ScalesSplit(st, rest);
    RealsRoundTrip(Single, [st.scale.x, st.scale.y, st.scale.z], [Bool(st.visible)] + rest);
  }

  /** A unit-scale object whose roll is 16 or 17 degrees is not read back: its roll is taken for the sentinel and the next read meets a flag where it expects a float. */
  lemma SentinelClash(st: RenderState, rest: seq<Item>, sentinelTest: bool)
    requires UnitScale(st) && (st.placement.roll == WithScales || st.placement.roll == WithVisibility)
    ensures ParseRender(RenderBody(st) + rest, st.visible, sentinelTest) == Err(TypeMismatch)
  {
    ParseBody(st, rest, st.visible, sentinelTest);
    SentinelClashTail(st, rest, sentinelTest);
  }

  lemma SentinelClashTail(st: RenderState, rest: seq<Item>, sentinelTest: bool)
    requires UnitScale(st) && (st.placement.roll == WithScales || st.placement.roll == WithVisibility)
    ensures ParseTail(TailBody(st) + rest, st.visible, sentinelTest) == Err(TypeMismatch)
  {
    var s := TailBody(st) + rest;
    assert s == [F32(st.placement.roll)] + ([Bool(st.showName)] + rest);
    assert ReadReal(s, Single) == Ok(Read(st.placement.roll, [Bool(st.showName)] + rest));
    assert ReadReal([Bool(st.showName)] + rest, Single) == Err(TypeMismatch);
  }

  /**
   * As the reader is written, an object with a non-unit scale and a roll
   * other than 17 degrees is read back visible, whatever it was, and its
   * visibility flag is left unread at the front of the rest of the archive.
   */
  lemma VisibilityLeftUnread(st: RenderState, rest: seq<Item>)
    requires !UnitScale(st) && st.placement.roll != WithVisibility
    ensures ParseRender(RenderBody(st) + rest, st.visible, false) == Ok(Read(st.(visible := true), [Bool(st.visible)] + rest))
  {
    ParseBody(st, rest, st.visible, false);
    ScalesSplit(st, rest);
    RealsRoundTrip(Single, [st.scale.x, st.scale.y, st.scale.z], [Bool(st.visible)] + rest);
    assert ParseTail(TailBody(st) + rest, st.visible, false) == Ok(Read(TailOf(st.(visible := true)), [Bool(st.visible)] + rest));
    BuildHead(st.(visible := true));
  }

  /**
   * The roll slot onwards, as `readFromStreamRender` reads it: the
   * visibility flag is read when the roll just read, rather than the
   * sentinel, is 17.
   */
  method ReadTail(s: seq<Item>, visible: bool) returns (r: Result<Read<Tail>>)
    ensures r.Ok? <==> ParseTail(s, visible, false).Ok?
    ensures r.Ok? ==> r == ParseTail(s, visible, false)
  {
    var f := ReadReal(s, Single);
    if f.Err? {
      return Err(f.error);
    }
    var value := f.value.value;
    if value != WithScales && value != WithVisibility {
      var b := ReadBool(f.value.rest);
      if b.Err? {
        return Err(b.error);
      }
      return Ok(Read(Tail(value, b.value.value, Scale(1.0, 1.0, 1.0), visible), b.value.rest));
    }
    var rl := ReadReal(f.value.rest, Single);
    if rl.Err? {
      return Err(rl.error);
    }
    value := rl.value.value;
    var b := ReadBool(rl.value.rest);
    if b.Err? {
      return Err(b.error);
    }
    var sc := ReadRealsOneByOne(b.value.rest, 3, Single);
    if sc.Err? {
      return Err(sc.error);
    }
    var scales := sc.value.value;
    if value == WithVisibility {
      var vis := ReadBool(sc.value.rest);
      if vis.Err? {
        return Err(vis.error);
      }
      r := Ok(Read(Tail(value, b.value.value, Scale(scales[0], scales[1], scales[2]), vis.value.value), vis.value.rest));
    } else {
      r := Ok(Read(Tail(value, b.value.value, Scale(scales[0], scales[1], scales[2]), true), sc.value.rest));
    }
  }

  /** The render part of an archive as `readFromStreamRender` reads it, as written. */
  method ReadRender(s: seq<Item>, visible: bool) returns (r: Result<Read<RenderState>>)
    ensures r.Ok? <==> ParseRender(s, visible, false).Ok?
    ensures r.Ok? ==> r == ParseRender(s, visible, false)
  {
    var a := ReadStr(s);
    if a.Err? {
      return Err(a.error);
    }
    var h := ReadRealsOneByOne(a.value.rest, 9, Single);
    if h.Err? {
      return Err(h.error);
    }
    var tail := ReadTail(h.value.rest, visible);
    if tail.Err? {
      return Err(tail.error);
    }
    ParseRenderOk(s, visible, false, a.value, h.value, tail.value);
    r := Ok(Read(Build(a.value.value, h.value.value, tail.value.value), tail.value.rest));
  }

  /**
   * A renderizable object's name, colour, pose, scale and visibility. The
   * four colour channels, the six pose values and the three scale factors
   * are kept as one record each.
   */
  class CRenderizable {
    var name: string
    var showName: bool
    var color: Color
    var placement: Placement
    var scale: Scale
    var visible: bool

    function State(): RenderState
      reads this
    {
      RenderState(name, showName, color, placement, scale, visible)
    }

    /** White, opaque, at the origin, unrotated, unit scale, visible, unnamed. */
    constructor ()
      ensures State() == RenderState("", false, Color(1.0, 1.0, 1.0, 1.0),
        Placement(0.0, 0.0, 0.0, 0.0, 0.0, 0.0), Scale(1.0, 1.0, 1.0), true)
    {
      name, showName := "", false;
      color := Color(1.0, 1.0, 1.0, 1.0);
      placement := Placement(0.0, 0.0, 0.0, 0.0, 0.0, 0.0);
      scale := Scale(1.0, 1.0, 1.0);
      visible := true;
    }

    /** `getPose`: the position, and the angles converted back to radians. */
    function GetPose(): Pose3D
      reads this
    {
      var p := placement;
      Pose3D(p.x, p.y, p.z, DegToRad(p.yaw), DegToRad(p.pitch), DegToRad(p.roll))
    }

    /** `setPose` from a `CPose3D` or a `TPose3D`: the position, and the angles in degrees; `getPose` then returns the same pose. */
    method SetPose(p: Pose3D)
      modifies this`placement
      ensures placement == Placement(p.x, p.y, p.z, RadToDeg(p.yaw), RadToDeg(p.pitch), RadToDeg(p.roll))
      ensures GetPose() == p
    {
      placement := Placement(p.x, p.y, p.z, RadToDeg(p.yaw), RadToDeg(p.pitch), RadToDeg(p.roll));
      DegreesRoundTrip(p.yaw);
      DegreesRoundTrip(p.pitch);
      DegreesRoundTrip(p.roll);
    }

    /** `setPose` from a `CPoint3D`: the position, and no rotation. */
    method SetPosePoint3D(px: real, py: real, pz: real)
      modifies this`placement
      ensures placement == Placement(px, py, pz, 0.0, 0.0, 0.0)
      ensures GetPose() == Pose3D(px, py, pz, 0.0, 0.0, 0.0)
    {
      placement := Placement(px, py, pz, 0.0, 0.0, 0.0);
    }

    /** `setPose` from a `CPoint2D`: the position in the plane z = 0, and no rotation. */
    method SetPosePoint2D(px: real, py: real)
      modifies this`placement
      ensures placement == Placement(px, py, 0.0, 0.0, 0.0, 0.0)
      ensures GetPose() == Pose3D(px, py, 0.0, 0.0, 0.0, 0.0)
    {
      placement := Placement(px, py, 0.0, 0.0, 0.0, 0.0);
    }

    /** `setColor`: the four colour channels and nothing else. */
    method SetColor(r: real, g: real, b: real, a: real)
      modifies this`color
      ensures color == Color(r, g, b, a)
    {
      color := Color(r, g, b, a);
    }

    /** `writeToStreamRender`: the original layout for a unit scale, the sentinel layout otherwise. */
    method WriteToStreamRender() returns (out: seq<Item>)
      ensures out == RenderBody(State())
    {
      var c, p := color, placement;
      out := [Str(name)] + Reals(Single, [c.r, c.g, c.b, c.a, p.x, p.y, p.z, p.yaw, p.pitch]);
      if scale.x == 1.0 && scale.y == 1.0 && scale.z == 1.0 {
        out := out + [F32(p.roll), Bool(showName)];
      } else {
        out := out + [F32(WithVisibility), F32(p.roll), Bool(showName)];
        out := out + [F32(scale.x), F32(scale.y), F32(scale.z)];
        out := out + [Bool(visible)];
      }
    }

    /**
     * `readFromStreamRender`, as written. On success the object is what
     * `ParseRender` reads and `r` holds the rest of the archive.
     */
    method ReadFromStreamRender(s: seq<Item>) returns (r: Result<seq<Item>>)
      modifies this
      ensures r.Ok? <==> ParseRender(s, old(visible), false).Ok?
      ensures r.Ok? ==>
                State() == ParseRender(s, old(visible), false).value.value && r.value == ParseRender(s, old(visible), false).value.rest
    {
      var read := ReadRender(s, visible);
      if read.Err? {
        return Err(read.error);
      }
      var st := read.value.value;
      name, showName, color := st.name, st.showName, st.color;
      placement, scale, visible := st.placement, st.scale, st.visible;
      r := Ok(read.value.rest);
    }
  }
}
