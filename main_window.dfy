/**
 * The controller of the main window (mainwindow.py): reading the focus
 * offset file, routing a colour label to its overlay, the camera session
 * (a capture worker and a video window, both present or both absent) and the
 * handlers that forward control changes to the video window.
 */
module Controller {
  import opened Wrappers
  import opened Text
  import opened Video
  import Camera

  /** Qt's check state for a ticked check box. */
  const Checked: int := 2

  /** The range the controller gives both offset sliders. */
  const OffsetMin: int := -20
  const OffsetMax: int := 20

  datatype Error =
    | Locate(cause: Camera.Error)     // the RuntimeError of the camera locator
    | NotAnInteger(text: string)      // the ValueError of int() on a label suffix
    | MissingMethod(name: string)     // the AttributeError of a call to a method the window lacks

  /** The widgets of the form whose values the controller reads (and, for the offset sliders, writes). */
  datatype Controls = Controls(
    radius: seq<int>, thickness: seq<int>, circleChecked: seq<bool>,
    crossLength: int, crossThickness: int, crossAngle: int, crossChecked: bool,
    crossColor: Rgb,
    offsetX: int, offsetY: int, offsetChecked: bool)
  {
    /** One slider and one check box per circle. */
    predicate HasCircleWidgets() {
      |radius| == 3 && |thickness| == 3 && |circleChecked| == 3
    }

    /** The offset sliders hold values of their range. */
    predicate Valid() {
      HasCircleWidgets() && OffsetMin <= offsetX <= OffsetMax && OffsetMin <= offsetY <= OffsetMax
    }
  }

  predicate OffsetInRange(offset: (real, real)) {
    OffsetMin as real <= offset.0 <= OffsetMax as real && OffsetMin as real <= offset.1 <= OffsetMax as real
  }

  // ---------------------------------------------------------------------------
  // read_focus_offset

  /**
   * read_focus_offset with the file's text as `content` (None when the file
   * cannot be opened or read): the third and fourth whitespace-separated
   * tokens as numbers, or (0.0, 0.0) when there are fewer than four tokens or
   * either of them is not a number.
   */
  function ReadFocusOffset(content: Option<string>): (r: (real, real))
    ensures content.None? ==> r == (0.0, 0.0)
    ensures content.Some? && |Split(Strip(content.value))| < 4 ==> r == (0.0, 0.0)
    ensures r != (0.0, 0.0) ==>
      var ws := Split(Strip(content.value));
      |ws| >= 4 && ParseFloat(ws[2]) == Some(r.0) && ParseFloat(ws[3]) == Some(r.1)
    ensures content.Some? ==>
      var ws := Split(Strip(content.value));
      |ws| >= 4 && ParseFloat(ws[2]).Some? && ParseFloat(ws[3]).Some? ==>
        r == (ParseFloat(ws[2]).value, ParseFloat(ws[3]).value)
  {
    match content
    case None => (0.0, 0.0)
    case Some(text) =>
      var parts := Split(Strip(text));
      if |parts| >= 4 then
        match (ParseFloat(parts[2]), ParseFloat(parts[3]))
        case (Some(x), Some(y)) => (x, y)
        case _ => (0.0, 0.0)
      else (0.0, 0.0)
  }

  /** What ReadFocusOffset returns for words joined by spaces. */
  lemma ReadJoined(ws: seq<string>)
    requires forall k :: 0 <= k < |ws| ==> IsWord(ws[k])
    ensures |ws| < 4 ==> ReadFocusOffset(Some(Join(ws))) == (0.0, 0.0)
    ensures |ws| >= 4 ==>
      (ReadFocusOffset(Some(Join(ws))) ==
         if ParseFloat(ws[2]).Some? && ParseFloat(ws[3]).Some? then (ParseFloat(ws[2]).value, ParseFloat(ws[3]).value)
         else (0.0, 0.0))
  {
    StripJoin(ws);
    SplitJoin(ws);
  }

  /**
   * A file whose third and fourth words are integers yields them, whatever
   * the other words are.
   */
  lemma FocusOffsetRoundTrip(ws: seq<string>, x: int, y: int)
    requires forall k :: 0 <= k < |ws| ==> IsWord(ws[k])
    requires |ws| >= 4 && ws[2] == IntToText(x) && ws[3] == IntToText(y)
    ensures ReadFocusOffset(Some(Join(ws))) == (x as real, y as real)
  {
    ParseFloatOfInt(x);
    ParseFloatOfInt(y);
    ReadJoined(ws);
  }

  /** A file with fewer than four words falls back to (0.0, 0.0). */
  lemma FocusOffsetTooShort(ws: seq<string>)
    requires |ws| < 4
    requires forall k :: 0 <= k < |ws| ==> IsWord(ws[k])
    ensures ReadFocusOffset(Some(Join(ws))) == (0.0, 0.0)
  {
    ReadJoined(ws);
  }

  /** A third or fourth word that is not a number makes the whole result (0.0, 0.0). */
  lemma FocusOffsetNotANumber(ws: seq<string>)
    requires forall k :: 0 <= k < |ws| ==> IsWord(ws[k])
    requires |ws| >= 4 && (ParseFloat(ws[2]).None? || ParseFloat(ws[3]).None?)
    ensures ReadFocusOffset(Some(Join(ws))) == (0.0, 0.0)
  {
    ReadJoined(ws);
  }

  /** The example file `a b 12.5 -3.25` gives the offset (12.5, -3.25). */
  lemma FocusOffsetExample()
    ensures ReadFocusOffset(Some("a b 12.5 -3.25")) == (12.5, -3.25)
  {
    var ws := ["a", "b", "12.5", "-3.25"];
    assert Join(ws) == "a b 12.5 -3.25";
    assert forall k :: 0 <= k < |ws| ==> IsWord(ws[k]);
    ParseDecimalExample();
    ReadJoined(ws);
  }

  lemma ParseDecimalExample()
    ensures ParseFloat("12.5") == Some(12.5)
    ensures ParseFloat("-3.25") == Some(-3.25)
  {
    ParsePositiveExample();
    ParseNegativeExample();
  }

  lemma ParsePositiveExample()
    ensures ParseFloat("12.5") == Some(12.5)
  {
    ParseFloatLiteral("", "12", true, "5", "");
    assert "" + "12" + (if true then "." + "5" else "") + "" == "12.5";
    PositiveExampleValue();
  }

  lemma PositiveExampleValue()
    ensures Reading(false, Shift(DigitsReal("12") + FractionValue("5"), 0)) == Some(12.5)
  {
    assert "12"[..1] == "1" && "1"[..0] == "";
    assert DigitsReal("12") == 12.0;
    assert "5"[..0] == "" && DigitsReal("5") == 5.0;
    assert Shift(5.0, -1) == Shift(5.0, 0) / 10.0 == 0.5;
  }

  lemma ParseNegativeExample()
    ensures ParseFloat("-3.25") == Some(-3.25)
  {
    ParseFloatLiteral("-", "3", true, "25", "");
    assert "-" + "3" + (if true then "." + "25" else "") + "" == "-3.25";
    NegativeExampleValue();
  }

  lemma NegativeExampleValue()
    ensures Reading(true, Shift(DigitsReal("3") + FractionValue("25"), 0)) == Some(-3.25)
  {
    assert "3"[..0] == "" && DigitsReal("3") == 3.0;
    assert "25"[..1] == "2" && "2"[..0] == "";
    assert DigitsReal("25") == 25.0;
    assert Shift(25.0, -2) == Shift(25.0, -1) / 10.0 == Shift(25.0, 0) / 100.0 == 0.25;
  }

  // ---------------------------------------------------------------------------
  // pick_color_for_label

  /** The overlay a colour label paints. */
  datatype Target = CrossColor | CircleColor(index: int)

  /**
   * `label_color_4` is the cross; any other label name is read as
   * `label_color_<k>` and names circle k - 1.
   */
  function ColorTarget(name: string): (r: Result<Target, Error>)
    ensures r == Success(CrossColor) <==> name == "label_color_4"
    ensures r.Failure? <==> name != "label_color_4" && ParseInt(AfterLast(name, '_')).None?
    ensures r.Success? && r.value.CircleColor? ==> ParseInt(AfterLast(name, '_')) == Some(r.value.index + 1)
  {
    if name == "label_color_4" then Success(CrossColor)
    else
      var suffix := AfterLast(name, '_');
      match ParseInt(suffix)
      case None => Failure(NotAnInteger(suffix))
      case Some(k) => Success(CircleColor(k - 1))
  }

  /** `label_color_4` routes to the cross and `label_color_k`, k != 4, to circle k - 1. */
  lemma LabelRouting(k: nat)
    ensures ColorTarget("label_color_" + NatToText(k)) ==
      if k == 4 then Success(CrossColor) else Success(CircleColor(k - 1))
  {
    var d := NatToText(k);
    var name := "label_color_" + d;
    LabelNameIs4(k);
    if k != 4 {
      LabelSuffix(d);
      ParseIntRoundTrip(k);
      assert IntToText(k) == d;
      CircleLabel(name, d, k);
    }
  }

  lemma CircleLabel(name: string, suffix: string, n: int)
    requires name != "label_color_4" && AfterLast(name, '_') == suffix && ParseInt(suffix) == Some(n)
    ensures ColorTarget(name) == Success(CircleColor(n - 1))
  {
  }

  /** The part after the last underscore of `label_color_<digits>` is the digits. */
  lemma LabelSuffix(d: string)
    requires AllDigits(d)
    ensures AfterLast("label_color_" + d, '_') == d
  {
    assert forall i :: 0 <= i < |d| ==> d[i] != '_';
    AfterLastOfAppend("label_color_", '_', d);
  }

  /** Only k = 4 spells the cross label. */
  lemma LabelNameIs4(k: nat)
    ensures "label_color_" + NatToText(k) == "label_color_4" <==> k == 4
  {
    var d := NatToText(k);
    var name := "label_color_" + d;
    NatToTextRoundTrip(k);
    assert name[12..] == d;
    assert "label_color_4"[12..] == "4";
    assert DigitsValue("4") == 4;
    assert name == "label_color_4" ==> d == "4";
    assert k == 4 ==> d == "4";
  }

  // ---------------------------------------------------------------------------
  // The window state a new session starts from

  function ConfiguredCircle(ui: Controls, i: nat): Circle
    requires ui.HasCircleWidgets() && i < 3
  {
    Circle(IntVal(ui.radius[i]), IntVal(ui.thickness[i]), BoolVal(ui.circleChecked[i]), DefaultCircles[i].color)
  }

  /**
   * A fresh window after start_camera: the focus centre read from the file,
   * circle radius, thickness and visibility and every cross property taken from
   * the form; circle colours, offset and zoom keep the window's defaults.
   */
  ghost function ConfiguredWindow(ui: Controls, focus: (real, real)): WindowState
    requires ui.HasCircleWidgets()
  {
    WindowState(
      None, InitialZoom,
      [ConfiguredCircle(ui, 0), ConfiguredCircle(ui, 1), ConfiguredCircle(ui, 2)],
      Cross(BoolVal(ui.crossChecked), IntVal(ui.crossLength), IntVal(ui.crossThickness),
            IntVal(ui.crossAngle), ColorVal(ui.crossColor)),
      focus, (0.0, 0.0), false)
  }

  // ---------------------------------------------------------------------------
  // The main window

  class MainWindow {
    var ui: Controls
    /** The capture worker, by the camera index it was created with; None when no session runs. */
    var cameraThread: Option<int>
    var videoWindow: VideoWindow?

    /** A session is either idle (no worker, no window) or streaming (both). */
    ghost predicate Valid()
      reads this, videoWindow
    {
      && ui.Valid()
      && (cameraThread.Some? <==> videoWindow != null)
      && (videoWindow != null ==> videoWindow.Valid() && OffsetInRange(videoWindow.centerOffset))
    }

    constructor (form: Controls)
      requires form.HasCircleWidgets()
      ensures Valid()
      ensures ui == form.(offsetX := 0, offsetY := 0)
      ensures cameraThread.None? && videoWindow == null
    {
      ui := form.(offsetX := 0, offsetY := 0);
      cameraThread := None;
      videoWindow := null;
    }

    // -- session ---------------------------------------------------------------

    /**
     * start_camera: with `platformName`/`cameras` the input of the camera
     * locator and `focusFile` the content of the focus offset file.
     */
    method StartCamera(platformName: string, cameras: seq<Camera.CameraInfo>, focusFile: Option<string>)
      returns (r: Result<(), Error>)
      requires Valid()
      modifies this
      ensures Valid() && ui == old(ui)
      ensures old(cameraThread).Some? ==>
        r == Success(()) && cameraThread == old(cameraThread) && videoWindow == old(videoWindow)
      ensures old(cameraThread).None? && Camera.FindCameraIndex(platformName, cameras).Failure? ==>
        && r == Failure(Locate(Camera.FindCameraIndex(platformName, cameras).error))
        && cameraThread.None? && videoWindow == null
      ensures old(cameraThread).None? && Camera.FindCameraIndex(platformName, cameras) == Success(None) ==>
        r == Success(()) && cameraThread.None? && videoWindow == null
      ensures old(cameraThread).None? && Camera.FindCameraIndex(platformName, cameras).Success?
              && Camera.FindCameraIndex(platformName, cameras).value.Some? ==>
        && r == Success(())
        && cameraThread == Camera.FindCameraIndex(platformName, cameras).value
        && videoWindow != null && fresh(videoWindow)
        && videoWindow.State() == ConfiguredWindow(ui, ReadFocusOffset(focusFile))
    {
      if cameraThread.Some? {
        return Success(());
      }
      var found := Camera.FindCameraIndex(platformName, cameras);
      if found.Failure? {
        return Failure(Locate(found.error));
      }
      if found.value.None? {
        return Success(());
      }
      cameraThread := found.value;
      var w := new VideoWindow();
      videoWindow := w;
      var focus := ReadFocusOffset(focusFile);
      ApplyForm(w, focus);
      r := Success(());
    }

    /**
     * The part of start_camera that configures the new window: the focus
     * centre, then circle radius, thickness and visibility and every cross
     * property from the form.
     */
    method ApplyForm(w: VideoWindow, focus: (real, real))
      requires ui.HasCircleWidgets() && w.Valid()
      requires w.State() == WindowState(None, InitialZoom, DefaultCircles, DefaultCross, (0.0, 0.0), (0.0, 0.0), false)
      modifies w
      ensures w.Valid() && w.State() == ConfiguredWindow(ui, focus)
    {
      w.SetCenterFocus(focus.0, focus.1);
      ApplyCircleForm(w, 0);
      ApplyCircleForm(w, 1);
      ApplyCircleForm(w, 2);
      assert w.circles == [ConfiguredCircle(ui, 0), ConfiguredCircle(ui, 1), ConfiguredCircle(ui, 2)];
      ApplyCrossForm(w);
    }

    /** The three set_circle_property calls of start_camera for circle `i`. */
    method ApplyCircleForm(w: VideoWindow, i: nat)
      requires ui.HasCircleWidgets() && w.Valid() && i < 3
      modifies w
      ensures w.Valid()
      ensures w.State() == old(w.State()).(circles := old(w.circles)[i := Circle(
        IntVal(ui.radius[i]), IntVal(ui.thickness[i]), BoolVal(ui.circleChecked[i]), old(w.circles)[i].color)])
    {
      w.SetCircleProperty(i, Radius, IntVal(ui.radius[i]));
      w.SetCircleProperty(i, Thickness, IntVal(ui.thickness[i]));
      w.SetCircleProperty(i, Visible, BoolVal(ui.circleChecked[i]));
    }

    /** The five set_cross_property calls of start_camera. */
    method ApplyCrossForm(w: VideoWindow)
      requires w.Valid()
      modifies w
      ensures w.Valid()
      ensures w.State() == old(w.State()).(cross := Cross(BoolVal(ui.crossChecked), IntVal(ui.crossLength),
        IntVal(ui.crossThickness), IntVal(ui.crossAngle), ColorVal(ui.crossColor)))
    {
      w.SetCrossProperty(Length, IntVal(ui.crossLength));
      w.SetCrossProperty(Thickness, IntVal(ui.crossThickness));
      w.SetCrossProperty(Angle, IntVal(ui.crossAngle));
      w.SetCrossProperty(Visible, BoolVal(ui.crossChecked));
      w.SetCrossProperty(Color, ColorVal(ui.crossColor));
    }

    /** stop_camera: ends the session if there is one. */
    method StopCamera()
      requires Valid()
      modifies this
      ensures Valid() && ui == old(ui)
      ensures cameraThread.None? && videoWindow == null
    {
      if cameraThread.Some? {
        cameraThread := None;
      }
      if videoWindow != null {
        videoWindow := null;
      }
    }

    // -- handlers forwarded to the window ------------------------------------

    method UpdateFrame(f: Frame)
      requires Valid()
      modifies videoWindow
      ensures Valid()
      ensures videoWindow != null ==> videoWindow.State() == old(videoWindow.State()).(frame := Some(f))
    {
      if videoWindow != null {
        videoWindow.SetFrame(f);
      }
    }

    method CrossVisibilityChanged(state: int)
      requires Valid()
      modifies videoWindow
      ensures Valid()
      ensures videoWindow != null ==>
        videoWindow.State() == old(videoWindow.State()).(cross := old(videoWindow.cross).(visible := BoolVal(state == Checked)))
    {
      var visible := state == Checked;
      if videoWindow != null {
        videoWindow.SetCrossProperty(Visible, BoolVal(visible));
      }
    }

    method CrossLengthChanged(val: int)
      requires Valid()
      modifies videoWindow
      ensures Valid()
      ensures videoWindow != null ==>
        videoWindow.State() == old(videoWindow.State()).(cross := old(videoWindow.cross).(length := IntVal(val)))
    {
      if videoWindow != null {
        videoWindow.SetCrossProperty(Length, IntVal(val));
      }
    }

    method CrossThicknessChanged(val: int)
      requires Valid()
      modifies videoWindow
      ensures Valid()
      ensures videoWindow != null ==>
        videoWindow.State() == old(videoWindow.State()).(cross := old(videoWindow.cross).(thickness := IntVal(val)))
    {
      if videoWindow != null {
        videoWindow.SetCrossProperty(Thickness, IntVal(val));
      }
    }

    method CrossAngleChanged(val: int)
      requires Valid()
      modifies videoWindow
      ensures Valid()
      ensures videoWindow != null ==>
        videoWindow.State() == old(videoWindow.State()).(cross := old(videoWindow.cross).(angle := IntVal(val)))
    {
      if videoWindow != null {
        videoWindow.SetCrossProperty(Angle, IntVal(val));
      }
    }

    method CrossColorChanged(color: Rgb)
      requires Valid()
      modifies videoWindow
      ensures Valid()
      ensures videoWindow != null ==>
        videoWindow.State() == old(videoWindow.State()).(cross := old(videoWindow.cross).(color := ColorVal(color)))
    {
      if videoWindow != null {
        videoWindow.SetCrossProperty(Color, ColorVal(color));
      }
    }

    /** update_cross: writes all four properties, storing None for each argument left out. */
    method UpdateCross(length: Value, thickness: Value, angle: Value, visible: Value)
      requires Valid()
      modifies videoWindow
      ensures Valid()
      ensures videoWindow != null ==>
        videoWindow.State() == old(videoWindow.State()).(cross := old(videoWindow.cross).(
          length := length, thickness := thickness, angle := angle, visible := visible))
    {
      if videoWindow != null {
        videoWindow.SetCrossProperty(Length, length);
        videoWindow.SetCrossProperty(Thickness, thickness);
        videoWindow.SetCrossProperty(Angle, angle);
        videoWindow.SetCrossProperty(Visible, visible);
      }
    }

    method UpdateCircle(index: int, radius: Value, color: Value, thickness: Value, visible: Value)
      requires Valid()
      modifies videoWindow
      ensures Valid()
      ensures videoWindow != null ==>
        videoWindow.State() == old(videoWindow.State()).(
          circles := UpdateCircleIn(old(videoWindow.circles), index, radius, color, thickness, visible))
    {
      if videoWindow != null {
        videoWindow.UpdateCircle(index, radius, color, thickness, visible);
      }
    }

    method SetCircleProperty(index: int, p: Prop, v: Value)
      requires Valid()
      modifies videoWindow
      ensures Valid()
      ensures videoWindow != null ==>
        videoWindow.State() == old(videoWindow.State()).(circles := SetCircleIn(old(videoWindow.circles), index, p, v))
    {
      if videoWindow != null {
        videoWindow.SetCircleProperty(index, p, v);
      }
    }

    /** set_zoom: the window has no set_zoom method, so with a window present the call fails. */
    method SetZoom(zoom: real) returns (r: Result<(), Error>)
      requires Valid()
      ensures r.Failure? <==> videoWindow != null
      ensures r.Failure? ==> r.error == MissingMethod("set_zoom")
    {
      if videoWindow != null {
        return Failure(MissingMethod("set_zoom"));
      }
      return Success(());
    }

    /**
     * pick_color_for_label after the colour dialog: `picked` is the chosen
     * colour, None when the dialog was cancelled. The label takes the colour
     * as its background; for `label_color_4` that is the cross colour the
     * next start_camera reads from the form.
     */
    method PickColorForLabel(name: string, picked: Option<Rgb>) returns (r: Result<(), Error>)
      requires Valid()
      modifies this, videoWindow
      ensures Valid()
      ensures cameraThread == old(cameraThread) && videoWindow == old(videoWindow)
      ensures ui == if picked.Some? && name == "label_color_4" then old(ui).(crossColor := picked.value) else old(ui)
      ensures picked.None? ==> r == Success(())
      ensures picked.Some? ==> (r.Failure? <==> ColorTarget(name).Failure?)
      ensures videoWindow != null && (picked.None? || ColorTarget(name).Failure?) ==>
        videoWindow.State() == old(videoWindow.State())
      ensures videoWindow != null && picked.Some? && ColorTarget(name) == Success(CrossColor) ==>
        videoWindow.State() == old(videoWindow.State()).(cross := old(videoWindow.cross).(color := ColorVal(picked.value)))
      ensures videoWindow != null && picked.Some? && ColorTarget(name).Success? && ColorTarget(name).value.CircleColor? ==>
        videoWindow.State() == old(videoWindow.State()).(
          circles := SetCircleIn(old(videoWindow.circles), ColorTarget(name).value.index, Color, ColorVal(picked.value)))
    {
      if picked.None? {
        return Success(());
      }
      var color := picked.value;
      match ColorTarget(name)
      case Failure(e) =>
        r := Failure(e);
      case Success(CrossColor) =>
        ui := ui.(crossColor := color);
        CrossColorChanged(color);
        r := Success(());
      case Success(CircleColor(index)) =>
        if videoWindow != null {
          ghost var before := videoWindow.circles;
          SetCircleIdempotent(before, index, Color, ColorVal(color));
          UpdateOneIsSet(SetCircleIn(before, index, Color, ColorVal(color)), index, Color, ColorVal(color));
        }
        SetCircleProperty(index, Color, ColorVal(color));
        UpdateCircle(index, NoneVal, ColorVal(color), NoneVal, NoneVal);
        r := Success(());
    }

    // -- the form ---------------------------------------------------------------

    /**
     * The user changes the form's widgets. The offset sliders keep to the
     * range the constructor gives them; nothing else of the controller changes.
     */
    method SetForm(form: Controls)
      requires Valid() && form.Valid()
      modifies this
      ensures Valid() && ui == form
      ensures cameraThread == old(cameraThread) && videoWindow == old(videoWindow)
    {
      ui := form;
    }

    // -- the offset ------------------------------------------------------------

    /**
     * An offset slider moved: Qt stores the new values, then valueChanged
     * runs update_overlay_offset.
     */
    method OffsetSliderMoved(x: int, y: int)
      requires Valid() && OffsetMin <= x <= OffsetMax && OffsetMin <= y <= OffsetMax
      modifies this, videoWindow
      ensures Valid() && ui == old(ui).(offsetX := x, offsetY := y)
      ensures cameraThread == old(cameraThread) && videoWindow == old(videoWindow)
      ensures videoWindow != null ==>
        videoWindow.State() == old(videoWindow.State()).(
          offset := if ui.offsetChecked then (x as real, y as real) else old(videoWindow.centerOffset))
    {
      ui := ui.(offsetX := x, offsetY := y);
      UpdateOverlayOffset();
    }

    /**
     * The offset check box was (un)ticked: Qt stores the new state, then
     * stateChanged runs toggle_overlay_offset with 2 or 0. Ticking it applies
     * the sliders, unticking it zeroes the offset.
     */
    method OffsetBoxChanged(checked: bool)
      requires Valid()
      modifies this, videoWindow
      ensures Valid() && ui == old(ui).(offsetChecked := checked)
      ensures cameraThread == old(cameraThread) && videoWindow == old(videoWindow)
      ensures videoWindow != null ==>
        videoWindow.State() == old(videoWindow.State()).(
          offsetEnabled := checked,
          offset := if checked then (ui.offsetX as real, ui.offsetY as real) else (0.0, 0.0))
    {
      ui := ui.(offsetChecked := checked);
      ToggleOverlayOffset(if checked then Checked else 0);
    }

    /** update_overlay_offset: copies the sliders into the window while the offset box is ticked. */
    method UpdateOverlayOffset()
      requires Valid()
      modifies videoWindow
      ensures Valid()
      ensures videoWindow != null ==>
        videoWindow.State() == old(videoWindow.State()).(
          offset := if ui.offsetChecked then (ui.offsetX as real, ui.offsetY as real) else old(videoWindow.centerOffset))
    {
      if videoWindow != null && ui.offsetChecked {
        videoWindow.SetCenterOffset(ui.offsetX as real, ui.offsetY as real);
      }
    }

    /** update_center_offset: the same body as update_overlay_offset. */
    method UpdateCenterOffset()
      requires Valid()
      modifies videoWindow
      ensures Valid()
      ensures videoWindow != null ==>
        videoWindow.State() == old(videoWindow.State()).(
          offset := if ui.offsetChecked then (ui.offsetX as real, ui.offsetY as real) else old(videoWindow.centerOffset))
    {
      UpdateOverlayOffset();
    }

    /**
     * toggle_overlay_offset: enabling copies the sliders (when the box is
     * ticked), disabling resets the window's offset to (0, 0).
     */
    method ToggleOverlayOffset(state: int)
      requires Valid()
      modifies videoWindow
      ensures Valid()
      ensures videoWindow != null ==>
        videoWindow.State() == old(videoWindow.State()).(
          offsetEnabled := state == Checked,
          offset := if state != Checked then (0.0, 0.0)
                    else if ui.offsetChecked then (ui.offsetX as real, ui.offsetY as real)
                    else old(videoWindow.centerOffset))
    {
      var enabled := state == Checked;
      if videoWindow != null {
        videoWindow.SetOffsetEnabled(enabled);
        if enabled {
          UpdateOverlayOffset();
        } else {
          videoWindow.SetCenterOffset(0.0, 0.0);
        }
      }
    }

    /**
     * toggle_offset_enabled: like toggle_overlay_offset, but disabling also
     * puts both sliders back to 0 (with their signals blocked) and enabling
     * copies nothing.
     */
    method ToggleOffsetEnabled(state: int)
      requires Valid()
      modifies this, videoWindow
      ensures Valid()
      ensures cameraThread == old(cameraThread) && videoWindow == old(videoWindow)
      ensures videoWindow == null ==> ui == old(ui)
      ensures videoWindow != null && state == Checked ==>
        ui == old(ui) && videoWindow.State() == old(videoWindow.State()).(offsetEnabled := true)
      ensures videoWindow != null && state != Checked ==>
        && ui == old(ui).(offsetX := 0, offsetY := 0)
        && videoWindow.State() == old(videoWindow.State()).(offsetEnabled := false, offset := (0.0, 0.0))
    {
      var enabled := state == Checked;
      if videoWindow != null {
        videoWindow.SetOffsetEnabled(enabled);
        if !enabled {
          videoWindow.SetCenterOffset(0.0, 0.0);
          ui := ui.(offsetX := 0, offsetY := 0);
        }
      }
    }
  }
}
