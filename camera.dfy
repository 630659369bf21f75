/**
 * Camera locator (camera.py): picks the capture-device index of the OCAL2
 * camera from the enumerated (index, name) list, with a per-platform target
 * name and index adjustment. The enumeration itself is a parameter.
 */
module Camera {
  import opened Wrappers
  import opened Text

  /** One entry of the platform's device enumeration. */
  datatype CameraInfo = CameraInfo(index: int, name: string)

  datatype Error = UnsupportedPlatform(platformName: string)

  const LinuxTarget: string := "ocal2: ocal2"
  const WindowsTarget: string := "ocal2"

  /** `cams[j]` is the first entry whose name contains `target`. */
  ghost predicate IsFirstMatch(cams: seq<CameraInfo>, target: string, j: int) {
    && 0 <= j < |cams|
    && Contains(cams[j].name, target)
    && forall k :: 0 <= k < j ==> !Contains(cams[k].name, target)
  }

  ghost predicate NoMatch(cams: seq<CameraInfo>, target: string) {
    forall k :: 0 <= k < |cams| ==> !Contains(cams[k].name, target)
  }

  /** Position of the first entry whose name contains `target`, scanning in enumeration order. */
  function FirstMatch(cams: seq<CameraInfo>, target: string): (r: Option<nat>)
    ensures r.Some? ==> IsFirstMatch(cams, target, r.value)
    ensures r.None? <==> NoMatch(cams, target)
  {
    if cams == [] then None
    else if Contains(cams[0].name, target) then Some(0)
    else match FirstMatch(cams[1..], target)
      case None => None
      case Some(k) => Some(k + 1)
  }

  /**
   * find_camera_index_by_name_substring, with `platformName` the lower-cased
   * platform.system() and `cams` what enumerate_cameras yields for the backend
   * of that platform.
   */
  function FindCameraIndex(platformName: string, cams: seq<CameraInfo>): (r: Result<Option<int>, Error>)
    ensures r.Failure? <==> platformName != "linux" && platformName != "windows" && platformName != "darwin"
    ensures r.Failure? ==> r.error == UnsupportedPlatform(platformName)
  {
    if platformName == "linux" then
      match FirstMatch(cams, LinuxTarget)
      case None => Success(None)
      case Some(j) => Success(Some(cams[j].index - 1))
    else if platformName == "windows" then
      match FirstMatch(cams, WindowsTarget)
      case None => Success(None)
      case Some(j) => Success(Some(cams[j].index))
    else if platformName == "darwin" then
      // The return statement of this branch sits outside the name test, so
      // its target name "ocal2" only decides whether a log line is printed.
      if cams == [] then Success(None) else Success(Some(cams[0].index))
    else
      Failure(UnsupportedPlatform(platformName))
  }

  /**
   * On Linux: the index of the first device whose name contains
   * "ocal2: ocal2", lowered by one; None when no name contains it.
   */
  lemma LinuxChoice(cams: seq<CameraInfo>, j: int)
    requires IsFirstMatch(cams, LinuxTarget, j) || NoMatch(cams, LinuxTarget)
    ensures NoMatch(cams, LinuxTarget) ==> FindCameraIndex("linux", cams) == Success(None)
    ensures IsFirstMatch(cams, LinuxTarget, j) ==> FindCameraIndex("linux", cams) == Success(Some(cams[j].index - 1))
  {
    FirstMatchIsUnique(cams, LinuxTarget, j);
  }

  /** On Windows: the index of the first device whose name contains "ocal2"; None when none does. */
  lemma WindowsChoice(cams: seq<CameraInfo>, j: int)
    requires IsFirstMatch(cams, WindowsTarget, j) || NoMatch(cams, WindowsTarget)
    ensures NoMatch(cams, WindowsTarget) ==> FindCameraIndex("windows", cams) == Success(None)
    ensures IsFirstMatch(cams, WindowsTarget, j) ==> FindCameraIndex("windows", cams) == Success(Some(cams[j].index))
  {
    FirstMatchIsUnique(cams, WindowsTarget, j);
  }

  /** FirstMatch finds exactly the first matching position. */
  lemma {:induction false} FirstMatchIsUnique(cams: seq<CameraInfo>, target: string, j: int)
    ensures IsFirstMatch(cams, target, j) ==> FirstMatch(cams, target) == Some(j)
  {
    if cams != [] && !Contains(cams[0].name, target) {
      FirstMatchIsUnique(cams[1..], target, j - 1);
      if IsFirstMatch(cams, target, j) {
        assert IsFirstMatch(cams[1..], target, j - 1);
      }
    }
  }

  /**
   * On macOS: the index of the first enumerated device whether or not its
   * name matches, because the return statement sits outside the name test;
   * None only for an empty enumeration.
   */
  lemma DarwinChoice(cams: seq<CameraInfo>)
    ensures cams == [] ==> FindCameraIndex("darwin", cams) == Success(None)
    ensures cams != [] ==> FindCameraIndex("darwin", cams) == Success(Some(cams[0].index))
  {
  }

  /** Entries after the first match are never looked at. */
  lemma {:induction false} FirstMatchIgnoresLater(cams: seq<CameraInfo>, more: seq<CameraInfo>, target: string)
    requires FirstMatch(cams, target).Some?
    ensures FirstMatch(cams + more, target) == FirstMatch(cams, target)
  {
    assert (cams + more)[0] == cams[0];
    if !Contains(cams[0].name, target) {
      assert (cams + more)[1..] == cams[1..] + more;
      FirstMatchIgnoresLater(cams[1..], more, target);
    }
  }

  /**
   * Once the list enumerated so far decides the answer, appending further
   * devices does not change the chosen index.
   */
  lemma EarlierCameraWins(platformName: string, cams: seq<CameraInfo>, more: seq<CameraInfo>)
    requires platformName == "linux" ==> FirstMatch(cams, LinuxTarget).Some?
    requires platformName == "windows" ==> FirstMatch(cams, WindowsTarget).Some?
    requires platformName == "darwin" ==> cams != []
    ensures FindCameraIndex(platformName, cams + more) == FindCameraIndex(platformName, cams)
  {
    if platformName == "linux" || platformName == "windows" {
      var target := if platformName == "linux" then LinuxTarget else WindowsTarget;
      var j := FirstMatch(cams, target).value;
      FirstMatchIgnoresLater(cams, more, target);
      assert (cams + more)[j] == cams[j];
    } else if platformName == "darwin" {
      assert (cams + more)[0] == cams[0];
    }
  }
}
