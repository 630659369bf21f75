/**
 * Overlay state of the collimator window (videowindow.py): three calibration
 * circles, one rotatable cross, the focus centre, the optional offset and the
 * zoom factor, together with the setters the controller drives and the zoom
 * handling of the mouse wheel.
 */
module Video {
  import opened Wrappers

  /** A QColor, by its red, green and blue components. */
  datatype Rgb = Rgb(r: int, g: int, b: int)

  /**
   * A value stored in an overlay property. The source stores whatever the
   * caller passes: slider integers, check-box booleans, colours, or None.
   */
  datatype Value = IntVal(i: int) | BoolVal(b: bool) | ColorVal(c: Rgb) | NoneVal

  /** A property name that is none of the six keys the overlays have. */
  type UnknownName = s: string | s !in {"radius", "thickness", "visible", "color", "length", "angle"}

  /** A property name as the callers spell it; `Unknown` is any other name. */
  datatype Prop = Radius | Thickness | Visible | Color | Length | Angle | Unknown(name: UnknownName)

  /** A decoded camera frame; its pixels are only drawn, never inspected. */
  datatype Frame = Frame(height: nat, width: nat, channels: nat, data: seq<int>)

  /** One entry of `circles`: the dictionary with keys radius, thickness, visible, color. */
  datatype Circle = Circle(radius: Value, thickness: Value, visible: Value, color: Value) {

    predicate Has(p: Prop) {
      p == Radius || p == Thickness || p == Visible || p == Color
    }

    /** Dictionary lookup: None when the key is not one of the circle's. */
    function Get(p: Prop): (r: Option<Value>)
      ensures r.Some? <==> Has(p)
    {
      match p
      case Radius => Some(radius)
      case Thickness => Some(thickness)
      case Visible => Some(visible)
      case Color => Some(color)
      case _ => None
    }

    /** Store `v` under an existing key; any other key leaves the circle as it is. */
    function Set(p: Prop, v: Value): (c: Circle)
      ensures Has(p) ==> c.Get(p) == Some(v)
      ensures !Has(p) ==> c == this
      ensures forall q :: q != p ==> c.Get(q) == Get(q)
    {
      match p
      case Radius => this.(radius := v)
      case Thickness => this.(thickness := v)
      case Visible => this.(visible := v)
      case Color => this.(color := v)
      case _ => this
    }
  }

  /** The `cross` dictionary with keys visible, length, thickness, angle, color. */
  datatype Cross = Cross(visible: Value, length: Value, thickness: Value, angle: Value, color: Value) {

    predicate Has(p: Prop) {
      p == Visible || p == Length || p == Thickness || p == Angle || p == Color
    }

    function Get(p: Prop): (r: Option<Value>)
      ensures r.Some? <==> Has(p)
    {
      match p
      case Visible => Some(visible)
      case Length => Some(length)
      case Thickness => Some(thickness)
      case Angle => Some(angle)
      case Color => Some(color)
      case _ => None
    }

    function Set(p: Prop, v: Value): (c: Cross)
      ensures Has(p) ==> c.Get(p) == Some(v)
      ensures !Has(p) ==> c == this
      ensures forall q :: q != p ==> c.Get(q) == Get(q)
    {
      match p
      case Visible => this.(visible := v)
      case Length => this.(length := v)
      case Thickness => this.(thickness := v)
      case Angle => this.(angle := v)
      case Color => this.(color := v)
      case _ => this
    }
  }

  const DefaultCircles: seq<Circle> := [
    Circle(IntVal(500), IntVal(2), BoolVal(false), ColorVal(Rgb(255, 0, 0))),
    Circle(IntVal(250), IntVal(2), BoolVal(false), ColorVal(Rgb(0, 255, 0))),
    Circle(IntVal(100), IntVal(2), BoolVal(false), ColorVal(Rgb(0, 0, 255)))
  ]

  const DefaultCross: Cross := Cross(BoolVal(false), IntVal(100), IntVal(2), IntVal(0), ColorVal(Rgb(85, 0, 127)))

  const MinZoom: real := 0.39
  const MaxZoom: real := 10.0
  const InitialZoom: real := 0.39

  // ---------------------------------------------------------------------------
  // The circle table

  /** The circle list after set_circle_property(index, p, v). */
  function SetCircleIn(cs: seq<Circle>, index: int, p: Prop, v: Value): (r: seq<Circle>)
    ensures |r| == |cs|
    ensures !(0 <= index < |cs|) ==> r == cs
    ensures 0 <= index < |cs| && !cs[index].Has(p) ==> r == cs
    ensures 0 <= index < |cs| && cs[index].Has(p) ==> r[index].Get(p) == Some(v)
    ensures 0 <= index < |cs| ==> forall q :: q != p ==> r[index].Get(q) == cs[index].Get(q)
    ensures forall j :: 0 <= j < |cs| && j != index ==> r[j] == cs[j]
  {
    if 0 <= index < |cs| && cs[index].Has(p) then cs[index := cs[index].Set(p, v)] else cs
  }

  /** One argument of update_circle: None keeps the current value. */
  function Keep(arg: Value, current: Value): Value {
    if arg != NoneVal then arg else current
  }

  /** The circle list after update_circle(index, radius, color, thickness, visible). */
  function UpdateCircleIn(cs: seq<Circle>, index: int, radius: Value, color: Value, thickness: Value, visible: Value)
    : (r: seq<Circle>)
    ensures |r| == |cs|
    ensures !(0 <= index < |cs|) ==> r == cs
    ensures forall j :: 0 <= j < |cs| && j != index ==> r[j] == cs[j]
    ensures 0 <= index < |cs| ==>
      && r[index].radius == (if radius == NoneVal then cs[index].radius else radius)
      && r[index].color == (if color == NoneVal then cs[index].color else color)
      && r[index].thickness == (if thickness == NoneVal then cs[index].thickness else thickness)
      && r[index].visible == (if visible == NoneVal then cs[index].visible else visible)
  {
    if 0 <= index < |cs| then
      var c := cs[index];
      cs[index := Circle(Keep(radius, c.radius), Keep(thickness, c.thickness), Keep(visible, c.visible), Keep(color, c.color))]
    else cs
  }

  /** update_circle with a single non-None argument does what set_circle_property does. */
  lemma UpdateOneIsSet(cs: seq<Circle>, index: int, p: Prop, v: Value)
    requires v != NoneVal
    requires p == Radius || p == Color || p == Thickness || p == Visible
    ensures SetCircleIn(cs, index, p, v) ==
      UpdateCircleIn(cs, index,
                     if p == Radius then v else NoneVal,
                     if p == Color then v else NoneVal,
                     if p == Thickness then v else NoneVal,
                     if p == Visible then v else NoneVal)
  {
  }

  /** Setting the same property twice is the same as setting it once. */
  lemma SetCircleIdempotent(cs: seq<Circle>, index: int, p: Prop, v: Value)
    ensures SetCircleIn(SetCircleIn(cs, index, p, v), index, p, v) == SetCircleIn(cs, index, p, v)
  {
    if 0 <= index < |cs| && cs[index].Has(p) {
      assert SetCircleIn(cs, index, p, v)[index].Set(p, v) == SetCircleIn(cs, index, p, v)[index];
    }
  }

  // ---------------------------------------------------------------------------
  // Zoom

  /** `max(0.39, min(z, 10.0))`. */
  function Clamp(z: real): (r: real)
    ensures MinZoom <= r <= MaxZoom
    ensures MinZoom <= z <= MaxZoom ==> r == z
    ensures z < MinZoom ==> r == MinZoom
    ensures z > MaxZoom ==> r == MaxZoom
  {
    if z < MinZoom then MinZoom else if z > MaxZoom then MaxZoom else z
  }

  /**
   * `power` can stand for `1.02 ** abs(delta / 120)`: it is 1 for a zero delta
   * and above 1 for any other.
   */
  predicate StepPower(delta: int, power: real) {
    power >= 1.0 && (delta == 0 <==> power == 1.0)
  }

  /** The zoom factor after one wheel event of `delta` units, scaled by the step `power`. */
  function WheelZoom(zoom: real, delta: int, power: real): (r: real)
    requires StepPower(delta, power)
    ensures MinZoom <= r <= MaxZoom
  {
    if delta > 0 then Clamp(zoom * power) else Clamp(zoom / power)
  }

  lemma ScaleUp(z: real, p: real)
    requires z > 0.0 && p >= 1.0
    ensures z <= z * p && z / p <= z
    ensures p > 1.0 ==> z < z * p && z / p < z
  {
    assert z * p - z == z * (p - 1.0);
    assert z / p * p == z;
    var q := z / p;
    assert q > 0.0;
    assert z - q == q * (p - 1.0);
    if p > 1.0 {
      assert q * (p - 1.0) > 0.0;
      assert q < z;
      assert z * p - z > 0.0;
    }
  }

  /**
   * A positive delta never lowers the zoom, a negative one never raises it and
   * a zero delta keeps it; a non-zero delta moves the zoom strictly unless it
   * sits at the bound it moves toward.
   */
  lemma WheelZoomMonotonic(zoom: real, delta: int, power: real)
    requires MinZoom <= zoom <= MaxZoom && StepPower(delta, power)
    ensures delta > 0 ==> zoom <= WheelZoom(zoom, delta, power)
    ensures delta <= 0 ==> WheelZoom(zoom, delta, power) <= zoom
    ensures delta == 0 ==> WheelZoom(zoom, delta, power) == zoom
    ensures delta > 0 && zoom < MaxZoom ==> zoom < WheelZoom(zoom, delta, power)
    ensures delta < 0 && MinZoom < zoom ==> WheelZoom(zoom, delta, power) < zoom
  {
    ScaleUp(zoom, power);
  }

  /** One wheel event: its angle delta and the power of the zoom step it implies. */
  datatype Wheel = Wheel(delta: int, power: real)

  predicate StepsValid(ws: seq<Wheel>) {
    forall k :: 0 <= k < |ws| ==> StepPower(ws[k].delta, ws[k].power)
  }

  function ZoomAfter(zoom: real, ws: seq<Wheel>): real
    requires StepsValid(ws)
    decreases ws
  {
    if ws == [] then zoom else ZoomAfter(WheelZoom(zoom, ws[0].delta, ws[0].power), ws[1..])
  }

  /** Whatever the wheel does, the zoom factor stays in range. */
  lemma {:induction false} ZoomAfterInRange(zoom: real, ws: seq<Wheel>)
    requires MinZoom <= zoom <= MaxZoom
    requires StepsValid(ws)
    ensures MinZoom <= ZoomAfter(zoom, ws) <= MaxZoom
    decreases ws
  {
    if ws != [] {
      var next := WheelZoom(zoom, ws[0].delta, ws[0].power);
      assert StepsValid(ws[1..]);
      ZoomAfterInRange(next, ws[1..]);
    }
  }

  /** A run of zoom-in events never lowers the zoom; a run of zoom-out events never raises it. */
  lemma {:induction false} ZoomInRunMonotonic(zoom: real, ws: seq<Wheel>)
    requires MinZoom <= zoom <= MaxZoom
    requires StepsValid(ws)
    requires forall k :: 0 <= k < |ws| ==> ws[k].delta > 0
    ensures zoom <= ZoomAfter(zoom, ws)
    decreases ws
  {
    if ws != [] {
      var next := WheelZoom(zoom, ws[0].delta, ws[0].power);
      WheelZoomMonotonic(zoom, ws[0].delta, ws[0].power);
      assert StepsValid(ws[1..]);
      ZoomInRunMonotonic(next, ws[1..]);
    }
  }

  lemma {:induction false} ZoomOutRunMonotonic(zoom: real, ws: seq<Wheel>)
    requires MinZoom <= zoom <= MaxZoom
    requires StepsValid(ws)
    requires forall k :: 0 <= k < |ws| ==> ws[k].delta <= 0
    ensures ZoomAfter(zoom, ws) <= zoom
    decreases ws
  {
    if ws != [] {
      var next := WheelZoom(zoom, ws[0].delta, ws[0].power);
      WheelZoomMonotonic(zoom, ws[0].delta, ws[0].power);
      assert StepsValid(ws[1..]);
      ZoomOutRunMonotonic(next, ws[1..]);
    }
  }

  // ---------------------------------------------------------------------------
  // Overlay centre (paintEvent)

  /** Python's `int(x)` on a float: truncation toward zero. */
  function Trunc(x: real): (r: int)
    ensures x >= 0.0 ==> 0 <= r && r as real <= x < r as real + 1.0
    ensures x < 0.0 ==> r <= 0 && r as real - 1.0 < x <= r as real
  {
    if x >= 0.0 then x.Floor else -((-x).Floor)
  }

  /**
   * Where paintEvent puts the centre of every circle and of the cross, given
   * the top-left corner of the centred pixmap: on each axis the exact point
   * (corner plus focus, plus the offset when enabled, both scaled by the zoom)
   * up to less than one pixel lost to each truncation.
   */
  function OverlayCenter(pixmapX: int, pixmapY: int, focus: (real, real), offset: (real, real),
                         offsetEnabled: bool, zoom: real): (c: (int, int))
    ensures var slack := if offsetEnabled then 2.0 else 1.0;
      && -slack < c.0 as real - (pixmapX as real + focus.0 * zoom + (if offsetEnabled then offset.0 * zoom else 0.0)) < slack
      && -slack < c.1 as real - (pixmapY as real + focus.1 * zoom + (if offsetEnabled then offset.1 * zoom else 0.0)) < slack
  {
    var x := pixmapX + Trunc(focus.0 * zoom);
    var y := pixmapY + Trunc(focus.1 * zoom);
    if offsetEnabled then (x + Trunc(offset.0 * zoom), y + Trunc(offset.1 * zoom)) else (x, y)
  }

  /**
   * With the offset disabled the centre is the pixmap origin plus the scaled
   * focus centre, whatever offset is stored; enabled with a zero offset it is
   * the same point.
   */
  lemma CenterIgnoresDisabledOffset(pixmapX: int, pixmapY: int, focus: (real, real),
                                    offset: (real, real), zoom: real)
    ensures OverlayCenter(pixmapX, pixmapY, focus, offset, false, zoom)
         == OverlayCenter(pixmapX, pixmapY, focus, (0.0, 0.0), true, zoom)
    ensures forall other: (real, real) ::
      OverlayCenter(pixmapX, pixmapY, focus, other, false, zoom) == OverlayCenter(pixmapX, pixmapY, focus, offset, false, zoom)
  {
    assert Trunc(0.0 * zoom) == 0;
    forall other: (real, real)
      ensures OverlayCenter(pixmapX, pixmapY, focus, other, false, zoom)
           == OverlayCenter(pixmapX, pixmapY, focus, offset, false, zoom)
    {
    }
  }

  /** The enabled offset moves the centre by its truncated scaled components, in both axes with the same sign. */
  lemma CenterShiftByOffset(pixmapX: int, pixmapY: int, focus: (real, real), offset: (real, real), zoom: real)
    requires zoom > 0.0
    ensures var on := OverlayCenter(pixmapX, pixmapY, focus, offset, true, zoom);
            var off := OverlayCenter(pixmapX, pixmapY, focus, offset, false, zoom);
            && (offset.0 >= 0.0 ==> on.0 >= off.0) && (offset.0 <= 0.0 ==> on.0 <= off.0)
            && (offset.1 >= 0.0 ==> on.1 >= off.1) && (offset.1 <= 0.0 ==> on.1 <= off.1)
            && -1.0 < (on.0 - off.0) as real - offset.0 * zoom < 1.0
            && -1.0 < (on.1 - off.1) as real - offset.1 * zoom < 1.0
  {
  }

  // ---------------------------------------------------------------------------
  // The window

  /** Every field of the window that the model keeps, as one value. */
  datatype WindowState = WindowState(
    frame: Option<Frame>, zoom: real, circles: seq<Circle>, cross: Cross,
    focus: (real, real), offset: (real, real), offsetEnabled: bool)

  class VideoWindow {
    var frame: Option<Frame>
    var zoomFactor: real
    var circles: seq<Circle>
    var cross: Cross
    var centerFocus: (real, real)
    var centerOffset: (real, real)
    var offsetEnabled: bool

    ghost predicate Valid()
      reads this
    {
      |circles| == 3 && MinZoom <= zoomFactor <= MaxZoom
    }

    ghost function State(): WindowState
      reads this
    {
      WindowState(frame, zoomFactor, circles, cross, centerFocus, centerOffset, offsetEnabled)
    }

    constructor ()
      ensures Valid()
      ensures State() == WindowState(None, InitialZoom, DefaultCircles, DefaultCross, (0.0, 0.0), (0.0, 0.0), false)
    {
      frame := None;
      zoomFactor := InitialZoom;
      circles := DefaultCircles;
      cross := DefaultCross;
      centerFocus := (0.0, 0.0);
      centerOffset := (0.0, 0.0);
      offsetEnabled := false;
    }

    method SetFrame(f: Frame)
      requires Valid()
      modifies this
      ensures Valid()
      ensures State() == old(State()).(frame := Some(f))
    {
      frame := Some(f);
    }

    /** wheelEvent: scale by `power` (in) or by its inverse (out), then clamp. */
    method WheelEvent(delta: int, power: real)
      requires Valid()
      requires StepPower(delta, power)
      modifies this
      ensures Valid()
      ensures State() == old(State()).(zoom := WheelZoom(old(zoomFactor), delta, power))
      ensures delta > 0 ==> old(zoomFactor) <= zoomFactor
      ensures delta <= 0 ==> zoomFactor <= old(zoomFactor)
      ensures delta == 0 ==> zoomFactor == old(zoomFactor)
      ensures delta > 0 && old(zoomFactor) < MaxZoom ==> old(zoomFactor) < zoomFactor
      ensures delta < 0 && MinZoom < old(zoomFactor) ==> zoomFactor < old(zoomFactor)
    {
      WheelZoomMonotonic(zoomFactor, delta, power);
      if delta > 0 {
        zoomFactor := zoomFactor * power;
      } else {
        zoomFactor := zoomFactor / power;
      }
      zoomFactor := Clamp(zoomFactor);
    }

    method SetCrossProperty(p: Prop, v: Value)
      requires Valid()
      modifies this
      ensures Valid()
      ensures State() == old(State()).(cross := old(cross).Set(p, v))
      ensures !old(cross).Has(p) ==> State() == old(State())
    {
      if cross.Has(p) {
        cross := cross.Set(p, v);
      }
    }

    method SetCenterOffset(x: real, y: real)
      requires Valid()
      modifies this
      ensures Valid()
      ensures State() == old(State()).(offset := (x, y))
    {
      centerOffset := (x, y);
    }

    method SetOffsetEnabled(enabled: bool)
      requires Valid()
      modifies this
      ensures Valid()
      ensures State() == old(State()).(offsetEnabled := enabled)
    {
      offsetEnabled := enabled;
    }

    method SetCircleProperty(index: int, p: Prop, v: Value)
      requires Valid()
      modifies this
      ensures Valid()
      ensures State() == old(State()).(circles := SetCircleIn(old(circles), index, p, v))
    {
      if 0 <= index < |circles| {
        if circles[index].Has(p) {
          circles := circles[index := circles[index].Set(p, v)];
        }
      }
    }

    method UpdateCircle(index: int, radius: Value, color: Value, thickness: Value, visible: Value)
      requires Valid()
      modifies this
      ensures Valid()
      ensures State() == old(State()).(circles := UpdateCircleIn(old(circles), index, radius, color, thickness, visible))
    {
      if 0 <= index < |circles| {
        if radius != NoneVal {
          circles := circles[index := circles[index].(radius := radius)];
        }
        if color != NoneVal {
          circles := circles[index := circles[index].(color := color)];
        }
        if thickness != NoneVal {
          circles := circles[index := circles[index].(thickness := thickness)];
        }
        if visible != NoneVal {
          circles := circles[index := circles[index].(visible := visible)];
        }
      }
    }

    method SetCenterFocus(x: real, y: real)
      requires Valid()
      modifies this
      ensures Valid()
      ensures State() == old(State()).(focus := (x, y))
    {
      centerFocus := (x, y);
    }
  }
}
