# pyCOL collimator overlay — a Dafny model

pyCOL shows the live image of an OCAL2 collimation camera in a zoomable
window. It draws three calibration circles and a rotatable cross over the
image. Their centre comes from a focus file, optionally moved by a
user-chosen offset. The main window's form drives the overlay. This
project models the three files that decide what is drawn and where:

- `camera.dfy` (module `Camera`) models the camera locator of `camera.py`.
  It picks the device index from the enumerated `(index, name)` list, per
  platform. The enumeration and the platform name are parameters.
- `video_window.dfy` (module `Video`) models `videowindow.py`: the overlay
  state of the `VideoWindow` class and its setters. It also models the
  clamped zoom of the mouse wheel and the centre arithmetic of the paint
  routine. Each setter's new state is tied to `State()`, a snapshot of
  every field.
- `main_window.dfy` (module `Controller`) models `mainwindow.py`:
  - parsing of the focus-offset file;
  - routing of a colour label to the cross or to a circle;
  - the camera session, where the capture worker and the video window are
    both present or both absent;
  - the handlers that forward form changes to the window.
- `text.dfy` (module `Text`) models the Python built-ins these rely on:
  `str.split()`, `str.strip()`, `float()`, `int()`, `s.split('_')[-1]` and
  the substring test `t in s`.
- `wrappers.dfy` holds `Option` and `Result`.

Exceptions of the source become `Result.Failure` values:
- the `RuntimeError` for an unsupported platform;
- the `ValueError` of `int()` on a label suffix;
- the `AttributeError` of `set_zoom`.

Values that the dictionaries store untyped (slider integers, booleans,
colours, `None`) are the `Video.Value` datatype.

## Model

| member | source | states |
|---|---|---|
| Camera.FirstMatch | camera.py:17-21 | the position found is the first entry whose name contains the target; None exactly when no entry does |
| Camera.FindCameraIndex | camera.py:15-40 | fails exactly for a platform other than linux, windows or darwin, with that platform's name in the error |
| Camera.LinuxChoice | camera.py:15-21 | on Linux the result is the first entry containing "ocal2: ocal2", with its index lowered by one; None when no name contains it |
| Camera.WindowsChoice | camera.py:22-28 | on Windows the result is the index of the first entry containing "ocal2"; None when no name contains it |
| Camera.DarwinChoice | camera.py:29-36 | on macOS the result is the first enumerated index, whatever its name; None only for an empty enumeration |
| Camera.FirstMatchIsUnique | camera.py:17-21 | any position that is the first match is the one the scan returns |
| Camera.FirstMatchIgnoresLater | camera.py:19-21 | devices enumerated after the first match do not change it |
| Camera.EarlierCameraWins | camera.py:15-36 | once the devices seen so far decide the answer, more devices leave the located index unchanged |
| Text.Split | mainwindow.py:175 | every token is non-empty and free of whitespace |
| Text.SplitAtSpace | mainwindow.py:175 | any whitespace character cuts the text in two: the tokens are those of the left part followed by those of the right part |
| Text.SplitWord | mainwindow.py:175 | a non-empty run without whitespace is a single token, itself |
| Text.SplitLeadingSpace | mainwindow.py:175 | leading whitespace does not change the tokens |
| Text.SplitJoin | mainwindow.py:175 | splitting words joined by single spaces gives back exactly those words |
| Text.Strip | mainwindow.py:175 | the result is a contiguous slice of the input with only whitespace before and after it, and it neither starts nor ends with whitespace |
| Text.StripJoin | mainwindow.py:175 | stripping words joined by spaces changes nothing |
| Text.ParseFloat | mainwindow.py:177-178 | a token accepted as a number contains at least one decimal digit |
| Text.ParseFloatLiteral | mainwindow.py:177-178 | every decimal literal (optional sign, whole digits, optional point and fraction digits, optional exponent `e` or `E` followed by an integer with optional sign and leading zeros) reads as the whole number plus the fraction, times ten to the exponent, negated after a minus sign |
| Text.ParseFloatExactlyLiterals | mainwindow.py:177-182 | a token is accepted as a number exactly when it is such a literal, and then its value is the one ParseFloatLiteral gives; any other token (such as "12abc" or "1.2.3") is refused, so the focus file falls back to (0, 0) |
| Text.MagnitudeOfParts | mainwindow.py:177-178 | the digits before and after the point together denote the whole part plus the fraction, scaled by the exponent |
| Text.FractionBounds | mainwindow.py:177-178 | the fraction written after a decimal point lies in [0, 1) |
| Text.DigitsRealIsValue | mainwindow.py:177-178 | a run of digits denotes the same number over the reals as over the naturals |
| Text.ParseFloatOfInt | mainwindow.py:177-178 | any integer written in decimal reads back as that number |
| Text.ParseInt | mainwindow.py:149 | an accepted text is an optional sign followed by digits only; without a minus sign the value is non-negative |
| Text.ParseIntRoundTrip | mainwindow.py:149 | parsing the decimal text of any integer gives back that integer |
| Text.ParseIntOfDigits | mainwindow.py:149 | any optional sign followed by one or more digits, leading zeros included, is accepted, with the digits' value negated after a minus sign; this is also the integer an exponent may carry |
| Text.NatToTextRoundTrip | mainwindow.py:149 | the digits of a natural number denote that number |
| Text.AfterLast | mainwindow.py:149 | the result is the longest suffix without the separator: it is a suffix, it lacks the separator, and the separator precedes it |
| Text.AfterLastOfAppend | mainwindow.py:149 | after a prefix that ends in the separator, the last part is exactly the separator-free tail |
| Text.Contains | camera.py:19 | the substring test holds exactly when the target occurs at some position |
| Video.Circle.Get | videowindow.py:21-25 | a circle dictionary has a value exactly for the keys radius, thickness, visible and color |
| Video.Circle.Set | videowindow.py:180-181 | storing under a circle key makes it read back; other keys are unchanged; an unknown key leaves the circle as is |
| Video.Cross.Get | videowindow.py:28-34 | the cross dictionary has a value exactly for visible, length, thickness, angle and color |
| Video.Cross.Set | videowindow.py:158-159 | storing under a cross key makes it read back; other keys are unchanged; an unknown key leaves the cross as is |
| Video.SetCircleIn | videowindow.py:177-182 | an index out of range or an unknown key changes nothing; otherwise only that property of that circle takes the value; the list length is kept |
| Video.UpdateCircleIn | videowindow.py:184-195 | for an index in range, each non-None argument replaces its field and each None keeps it; other circles and out-of-range indices are unchanged |
| Video.UpdateOneIsSet | videowindow.py:177-195 | update_circle with one non-None argument equals set_circle_property of that key |
| Video.SetCircleIdempotent | videowindow.py:177-182 | setting the same property twice equals setting it once |
| Video.Clamp | videowindow.py:151 | the result lies in [0.39, 10.0], equals the input inside that range and the nearest bound outside it |
| Video.WheelZoom | videowindow.py:137-151 | the zoom after one wheel event lies in [0.39, 10.0]; the step power is 1 exactly for a zero delta (StepPower) |
| Video.WheelZoomMonotonic | videowindow.py:144-151 | a positive delta never lowers the zoom, a negative one never raises it and a zero delta leaves it unchanged; a non-zero delta moves it strictly unless it is at the bound it moves toward |
| Video.ZoomAfterInRange | videowindow.py:137-151 | any sequence of wheel events keeps the zoom in [0.39, 10.0] |
| Video.ZoomInRunMonotonic | videowindow.py:146-147 | a run of zoom-in events never lowers the zoom |
| Video.ZoomOutRunMonotonic | videowindow.py:148-149 | a run of zoom-out events never raises the zoom |
| Video.Trunc | videowindow.py:75-76 | int() of a float truncates toward zero: the result is within 1 of the input, on the same side of zero |
| Video.OverlayCenter | videowindow.py:75-98 | on each axis the centre is the pixmap corner plus the scaled focus, plus the scaled offset when enabled, to within one pixel per truncation (under 1 disabled, under 2 enabled) |
| Video.CenterIgnoresDisabledOffset | videowindow.py:75-98 | with the offset disabled, the centre is independent of the stored offset and equals the centre with a zero offset enabled |
| Video.CenterShiftByOffset | videowindow.py:96-98 | an enabled offset moves the centre in the direction of its sign on each axis, by less than 1 pixel from offset times zoom |
| Video.VideoWindow.constructor | videowindow.py:17-41 | a new window has no frame, zoom 0.39, the three default circles, the default cross, focus and offset (0, 0) and the offset disabled |
| Video.VideoWindow.SetFrame | videowindow.py:52-55 | only the frame changes |
| Video.VideoWindow.WheelEvent | videowindow.py:137-153 | only the zoom changes, to the clamped scaled value; it never shrinks for a positive delta and never grows for a negative one, strictly so unless it already sits at the bound it moves toward, and a zero delta keeps it |
| Video.VideoWindow.SetCrossProperty | videowindow.py:156-161 | only the named cross property changes; an unknown name changes nothing |
| Video.VideoWindow.SetCenterOffset | videowindow.py:166-170 | only the offset changes |
| Video.VideoWindow.SetOffsetEnabled | videowindow.py:172-175 | only the offset flag changes |
| Video.VideoWindow.SetCircleProperty | videowindow.py:177-182 | only the circle list changes, as SetCircleIn describes; the window stays valid |
| Video.VideoWindow.UpdateCircle | videowindow.py:184-195 | only the circle list changes, as UpdateCircleIn describes |
| Video.VideoWindow.SetCenterFocus | videowindow.py:197-200 | only the focus centre changes |
| Controller.ReadFocusOffset | mainwindow.py:172-182 | an unreadable file or fewer than four tokens gives (0.0, 0.0); when the third and fourth tokens both read as numbers the result is that pair; any other non-zero result is such a pair |
| Controller.ReadJoined | mainwindow.py:175-182 | for words joined by spaces, the result is the third and fourth words as numbers when both parse, else (0.0, 0.0) |
| Controller.FocusOffsetRoundTrip | mainwindow.py:175-179 | a file whose third and fourth words are integers yields those integers, whatever the other words are |
| Controller.FocusOffsetTooShort | mainwindow.py:176-182 | a file with fewer than four words yields (0.0, 0.0) |
| Controller.FocusOffsetNotANumber | mainwindow.py:177-182 | a third or fourth word that is not a number makes the result (0.0, 0.0) |
| Controller.FocusOffsetExample | mainwindow.py:172-179 | the file "a b 12.5 -3.25" yields (12.5, -3.25) |
| Controller.ColorTarget | mainwindow.py:146-149 | the result is the cross exactly for label_color_4; it fails exactly when the part after the last underscore is not an integer; otherwise it is circle k - 1, where k is that integer |
| Controller.LabelRouting | mainwindow.py:146-151 | label_color_4 paints the cross and label_color_k, for any other k, paints circle k - 1 |
| Controller.LabelNameIs4 | mainwindow.py:146 | the label name built from k is the cross label exactly when k is 4 |
| Controller.MainWindow.constructor | mainwindow.py:62-80 | a new main window has no session, and both offset sliders are set to 0 |
| Controller.MainWindow.StartCamera | mainwindow.py:185-220 | with a session running nothing changes; a locator error is returned; no camera found leaves no session; otherwise a new window shows the file's focus and the form's circle and cross settings, with default circle colours and no offset |
| Controller.MainWindow.ApplyForm | mainwindow.py:201-219 | configuring a default window gives exactly the configured window state |
| Controller.MainWindow.StopCamera | mainwindow.py:223-229 | afterwards there is neither a worker nor a window, and the form is unchanged |
| Controller.MainWindow.UpdateFrame | mainwindow.py:231-233 | with a window present only its frame changes |
| Controller.MainWindow.CrossVisibilityChanged | mainwindow.py:111-114 | the cross becomes visible exactly when the state is 2 (checked); nothing else changes |
| Controller.MainWindow.CrossLengthChanged | mainwindow.py:116-118 | only the cross length changes |
| Controller.MainWindow.CrossThicknessChanged | mainwindow.py:120-122 | only the cross thickness changes |
| Controller.MainWindow.CrossAngleChanged | mainwindow.py:124-126 | only the cross angle changes |
| Controller.MainWindow.CrossColorChanged | mainwindow.py:128-130 | only the cross colour changes |
| Controller.MainWindow.UpdateCross | mainwindow.py:235-240 | length, thickness, angle and visibility all take the arguments, None included; colour is kept |
| Controller.MainWindow.UpdateCircle | mainwindow.py:242-244 | with a window present its circles change as UpdateCircleIn describes |
| Controller.MainWindow.SetCircleProperty | mainwindow.py:250-252 | with a window present its circles change as SetCircleIn describes |
| Controller.MainWindow.SetZoom | mainwindow.py:246-248 | the call fails with a missing set_zoom method exactly when a window is present |
| Controller.MainWindow.PickColorForLabel | mainwindow.py:133-151 | a cancelled dialog changes nothing. An unparsable label fails and leaves the window as is. The cross label sets the cross colour in the window and in the form, where the next start_camera reads it. Any other label sets only that circle's colour |
| Controller.MainWindow.SetForm | mainwindow.py:62-63 | the user's edits replace the form, whose offset sliders stay in [-20, 20]; the session is unchanged |
| Controller.MainWindow.UpdateOverlayOffset | mainwindow.py:157-161 | while the offset box is ticked the window's offset becomes the slider values; otherwise nothing changes |
| Controller.MainWindow.OffsetSliderMoved | mainwindow.py:68-69 | a moved offset slider stores the values and, while the offset box is ticked, the window's offset becomes them |
| Controller.MainWindow.OffsetBoxChanged | mainwindow.py:70 | ticking the offset box enables the offset and applies the slider values; unticking disables it and zeroes it |
| Controller.MainWindow.UpdateCenterOffset | mainwindow.py:267-271 | the same effect as UpdateOverlayOffset |
| Controller.MainWindow.ToggleOverlayOffset | mainwindow.py:163-170 | the offset is enabled exactly for state 2; enabling copies the sliders while the box is ticked; disabling resets the offset to (0, 0) |
| Controller.MainWindow.ToggleOffsetEnabled | mainwindow.py:254-265 | the offset is enabled exactly for state 2; disabling also resets the window offset and both sliders to 0; the session is unchanged |

## Left out

- The capture worker (`CameraThread`, mainwindow.py:9-39) is not modelled. Its frame loop, its hard-coded device 2 and its capture settings are I/O on another thread. The session records only the camera index it was created with.
- Painting is not modelled: the pixmap scaling, the text box and the pen widths. The cross's trigonometry is floating point and is left out too. Only the overlay centre (`OverlayCenter`) is modelled.
- Qt repaint requests (`update()`), `show()`, `close()`, style sheets, icons, window titles, tool tips and the `print` logging have no effect on the modelled state.
- `QColorDialog.getColor` is a parameter of `PickColorForLabel` (`picked`; None for an invalid colour). The labels' resizing is not modelled. Of their background colours only that of `label_color_4` is kept, as the form's cross colour, because it is the one `start_camera` reads.
- `read_focus_offset` reads the file's text through a parameter. None stands for any error while opening or reading it.
- `platform.system().lower()` and `enumerate_cameras` are parameters of `Camera.FindCameraIndex`.
- Video.VideoWindow.WheelEvent, Video.WheelZoom: take the step power `1.02 ** abs(delta / 120)` as a parameter, because real exponentiation is not available. The parameter is constrained only to be 1 for a zero delta and above 1 otherwise (StepPower); the 1.02 constant and the exact power are not modelled.
- Floating point is modelled as exact reals. Rounding of zoom products and the sign of -0.0 are not captured.
- Text.ParseFloat: accepts decimal literals with an optional exponent. It rejects `inf`, `nan`, digit-group underscores and non-ASCII digits, which Python's `float()` accepts. A token from `split()` never has surrounding whitespace.
- Text.ParseInt: rejects underscores, surrounding whitespace and non-ASCII digits, which Python's `int()` accepts.
- `connect_overlay_controls`, `setup_color_labels` and the signal connections of `__init__` (mainwindow.py:56-108) are wiring. Their lambdas call `update_circle` with one argument, which `UpdateOneIsSet` relates to `set_circle_property`.
- `open_camera_control_dialog`, `find_camera_property_range`, `cameracontrol.py`, `enumCamera.py`, `main.py` and `test_camera.py` are not part of this model.
- Qt's signal delivery is modelled only for the offset widgets (`OffsetSliderMoved`, `OffsetBoxChanged`). For the other widgets, `SetForm` records the new values and the handler is a separate call. The blocking of the slider signals while `toggle_offset_enabled` resets them is not modelled either: the model simply does not forward those resets.
- Some behaviour of the code is kept as written:
  - `start_camera` does not apply the form's circle colours.
  - It does not enable the offset from its check box.
  - `update_cross` stores None for each omitted argument.
  - On macOS the first enumerated camera is returned whatever its name.
- `update_overlay_offset` passes the slider values as they are. Neither axis is inverted.
