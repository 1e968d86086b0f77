/** Selection rules of the camera configuration manager: which focus and flash
    mode to ask for, how the screen size is normalised to landscape, and which
    preview size is chosen among those the camera supports. Camera parameter
    objects are values here; their supported-value lists may be absent (Java
    `null`). */
module CameraConfig {
  import opened Wrappers
  import opened Geometry

  /** Preview sizes with fewer pixels than 470x320 are never chosen, except as the default. */
  const MinPreviewPixels := 470 * 320
  /** Preview sizes with more pixels than 1280x720 are never chosen, except as the default. */
  const MaxPreviewPixels := 1280 * 720

  const FocusAuto := "auto"
  const FocusContinuousVideo := "continuous-video"
  const FocusContinuousPicture := "continuous-picture"
  const FocusMacro := "macro"
  const FocusEdof := "edof"
  const FlashTorch := "torch"
  const FlashOn := "on"
  const FlashOff := "off"

  // ---------------------------------------------------------------------
  // First desired value that is supported

  /** The first of `desired`, in order, that occurs in `supported`. */
  function FirstSupported(supported: seq<string>, desired: seq<string>): (r: Option<string>)
    ensures r.Some? ==> r.value in desired && r.value in supported
    ensures r.None? <==> forall d :: d in desired ==> d !in supported
    decreases |desired|
  {
    if desired == [] then None
    else if desired[0] in supported then Some(desired[0])
    else FirstSupported(supported, desired[1..])
  }

  /** `findSettableValue`: nothing when the supported list is absent. */
  function SettableValue(supported: Option<seq<string>>, desired: seq<string>): (r: Option<string>)
    ensures r.Some? ==> supported.Some? && r.value in desired && r.value in supported.value
    ensures r.None? <==> supported.None? || forall d :: d in desired ==> d !in supported.value
  {
    match supported
    case None => None
    case Some(values) => FirstSupported(values, desired)
  }

  /** The value found is the FIRST desired one that is supported: every
      desired value before it is unsupported. */
  lemma {:induction false} FirstSupportedIsFirst(supported: seq<string>, desired: seq<string>, k: nat)
    requires k < |desired| && desired[k] in supported
    requires forall j :: 0 <= j < k ==> desired[j] !in supported
    ensures FirstSupported(supported, desired) == Some(desired[k])
  {
    if k > 0 {
      assert desired[0] !in supported;
      FirstSupportedIsFirst(supported, desired[1..], k - 1);
    }
  }

  /** Trying one list of preferences and then another is the same as trying
      their concatenation. */
  lemma {:induction false} FirstSupportedAppend(supported: seq<string>, a: seq<string>, b: seq<string>)
    ensures FirstSupported(supported, a + b)
         == (if FirstSupported(supported, a).Some? then FirstSupported(supported, a)
             else FirstSupported(supported, b))
  {
    if a != [] {
      assert (a + b)[0] == a[0];
      assert (a + b)[1..] == a[1..] + b;
      FirstSupportedAppend(supported, a[1..], b);
    } else {
      assert a + b == b;
    }
  }

  /** The loop of `findSettableValue`, which stops at the first match. */
  method FindSettableValue(supported: Option<seq<string>>, desired: seq<string>) returns (result: Option<string>)
    ensures result == SettableValue(supported, desired)
  {
    result := None;
    if supported.Some? {
      var values := supported.value;
      var i := 0;
      while i < |desired|
        invariant 0 <= i <= |desired|
        invariant result.None?
        invariant FirstSupported(values, desired) == FirstSupported(values, desired[i..])
      {
        assert desired[i..][0] == desired[i] && desired[i..][1..] == desired[i + 1..];
        if desired[i] in values {
          result := Some(desired[i]);
          return;
        }
        i := i + 1;
      }
    }
  }

  // ---------------------------------------------------------------------
  // Focus and flash modes

  /** The focus mode `setDesiredCameraParameters` asks for: with autofocus on,
      "auto" alone when continuous focus is disabled and otherwise
      continuous-video, continuous-picture, auto; if none of those (or
      autofocus is off), macro and then edof. */
  function FocusMode(autoFocus: bool, disableContinuous: bool, supported: Option<seq<string>>): Option<string>
  {
    var preferred :=
      if !autoFocus then None
      else if disableContinuous then SettableValue(supported, [FocusAuto])
      else SettableValue(supported, [FocusContinuousVideo, FocusContinuousPicture, FocusAuto]);
    if preferred.None? then SettableValue(supported, [FocusMacro, FocusEdof]) else preferred
  }

  /** The whole ordered list of focus modes tried for the given preferences. */
  function FocusPreferences(autoFocus: bool, disableContinuous: bool): seq<string>
  {
    (if !autoFocus then []
     else if disableContinuous then [FocusAuto]
     else [FocusContinuousVideo, FocusContinuousPicture, FocusAuto])
    + [FocusMacro, FocusEdof]
  }

  /** The two-stage fallback is one first-supported search over the
      preference list; in particular the chosen mode is supported and is one
      the preferences allow, and no mode is set when none is supported. */
  lemma FocusModeIsFirstPreferred(autoFocus: bool, disableContinuous: bool, supported: Option<seq<string>>)
    ensures FocusMode(autoFocus, disableContinuous, supported)
         == SettableValue(supported, FocusPreferences(autoFocus, disableContinuous))
  {
    if supported.Some? {
      var first :=
        if !autoFocus then []
        else if disableContinuous then [FocusAuto]
        else [FocusContinuousVideo, FocusContinuousPicture, FocusAuto];
      FirstSupportedAppend(supported.value, first, [FocusMacro, FocusEdof]);
    }
  }

  /** The flash mode `doSetTorch` asks for: torch then on when lighting, off otherwise. */
  function TorchFlashMode(newSetting: bool, supported: Option<seq<string>>): (r: Option<string>)
    ensures r.Some? ==> supported.Some? && r.value in supported.value
    ensures r.Some? ==> if newSetting then r.value == FlashTorch || r.value == FlashOn else r.value == FlashOff
    ensures newSetting && supported.Some? && FlashTorch in supported.value ==> r == Some(FlashTorch)
    ensures r.None? <==> (supported.None?
                       || (newSetting && FlashTorch !in supported.value && FlashOn !in supported.value)
                       || (!newSetting && FlashOff !in supported.value))
  {
    if newSetting then SettableValue(supported, [FlashTorch, FlashOn])
    else SettableValue(supported, [FlashOff])
  }

  /** The part of `Camera.Parameters` the configuration touches. */
  datatype CameraParams = CameraParams(
    supportedFocusModes: Option<seq<string>>,
    supportedFlashModes: Option<seq<string>>,
    focusMode: Option<string>,
    flashMode: Option<string>,
    previewSize: Option<Point>)

  /** `doSetTorch`: the flash mode is set only when a wanted one is supported. */
  function DoSetTorch(p: CameraParams, newSetting: bool): (q: CameraParams)
    ensures q.supportedFocusModes == p.supportedFocusModes && q.supportedFlashModes == p.supportedFlashModes
    ensures q.focusMode == p.focusMode && q.previewSize == p.previewSize
    ensures TorchFlashMode(newSetting, p.supportedFlashModes).None? ==> q.flashMode == p.flashMode
    ensures TorchFlashMode(newSetting, p.supportedFlashModes).Some? ==>
      q.flashMode == TorchFlashMode(newSetting, p.supportedFlashModes)
    ensures q.flashMode != p.flashMode ==>
      q.flashMode.Some? && p.supportedFlashModes.Some? && q.flashMode.value in p.supportedFlashModes.value
  {
    match TorchFlashMode(newSetting, p.supportedFlashModes)
    case None => p
    case Some(mode) => p.(flashMode := Some(mode))
  }

  // ---------------------------------------------------------------------
  // Screen orientation and preview-size selection

  function Pixels(p: Point): int { p.x * p.y }

  predicate InPixelRange(p: Point) { MinPreviewPixels <= Pixels(p) <= MaxPreviewPixels }

  /** A size turned to landscape: the two sides swapped when it is portrait. */
  function Landscape(p: Point): (r: Point)
    ensures r.x >= r.y
    ensures r == p || r == Point(p.y, p.x)
    ensures p.x >= p.y ==> r == p
  {
    if p.x < p.y then Point(p.y, p.x) else p
  }

  lemma InPixelRangeNonZero(p: Point)
    requires InPixelRange(p)
    ensures p.x != 0 && p.y != 0 && Landscape(p).y != 0
  {
  }

  function RealAbs(r: real): real { if r < 0.0 then -r else r }

  /** Difference between the aspect ratio of a candidate (turned to
      landscape) and that of the screen, as an exact rational. */
  function AspectDiff(p: Point, screen: Point): real
    requires InPixelRange(p) && screen.y > 0
  {
    InPixelRangeNonZero(p);
    var l := Landscape(p);
    RealAbs(l.x as real / l.y as real - screen.x as real / screen.y as real)
  }

  /** Each size has at least as many pixels as the next one. */
  predicate DescendingPixels(s: seq<Point>)
  {
    forall i :: 0 <= i < |s| - 1 ==> Pixels(s[i]) >= Pixels(s[i + 1])
  }

  /** Inserts `p` before the first size with no more pixels than it, so that
      among equal counts the earlier input stays first. */
  function InsertByPixels(p: Point, sorted: seq<Point>): (r: seq<Point>)
    ensures multiset(r) == multiset(sorted) + multiset{p}
    ensures r[0] == p || (sorted != [] && r[0] == sorted[0])
    ensures DescendingPixels(sorted) ==> DescendingPixels(r)
  {
    if sorted == [] || Pixels(sorted[0]) <= Pixels(p) then [p] + sorted
    else
      assert sorted == [sorted[0]] + sorted[1..];
      var rest := InsertByPixels(p, sorted[1..]);
      assert DescendingPixels(sorted) ==> DescendingPixels(sorted[1..]);
      [sorted[0]] + rest
  }

  /** The stable descending sort by pixel count (`Collections.sort` is stable). */
  function SortByPixels(sizes: seq<Point>): (r: seq<Point>)
    ensures multiset(r) == multiset(sizes)
    ensures DescendingPixels(r)
  {
    if sizes == [] then []
    else
      assert sizes == [sizes[0]] + sizes[1..];
      InsertByPixels(sizes[0], SortByPixels(sizes[1..]))
  }

  /** The selection loop of `findBestPreviewSizeValue` from candidate `c[0]`
      on, with the best approximate candidate so far and its difference
      (`None` stands for the initial infinite difference). */
  function ScanSizes(c: seq<Point>, screen: Point, best: Option<(Point, real)>): Option<Point>
    requires screen.y > 0
    decreases |c|
  {
    if c == [] then (if best.None? then None else Some(best.value.0))
    else if !InPixelRange(c[0]) then ScanSizes(c[1..], screen, best)
    else if Landscape(c[0]) == screen then Some(c[0])
    else if best.None? || AspectDiff(c[0], screen) < best.value.1 then
      ScanSizes(c[1..], screen, Some((c[0], AspectDiff(c[0], screen))))
    else ScanSizes(c[1..], screen, best)
  }

  /** `findBestPreviewSizeValue`: the scan over the sorted sizes, or the
      camera's default preview size when it finds nothing. */
  function BestPreviewSize(sizes: seq<Point>, screen: Point, defaultSize: Point): Point
    requires screen.y > 0
  {
    match ScanSizes(SortByPixels(sizes), screen, None)
    case None => defaultSize
    case Some(p) => p
  }

  /** The scan finds nothing exactly when it starts with nothing and no
      candidate is in the pixel window; what it finds is the best so far or
      an in-window candidate. */
  lemma {:induction false} ScanSizesFinds(c: seq<Point>, screen: Point, best: Option<(Point, real)>)
    requires screen.y > 0
    ensures ScanSizes(c, screen, best).None? <==> best.None? && forall p :: p in c ==> !InPixelRange(p)
    ensures ScanSizes(c, screen, best).Some? ==>
      (best.Some? && ScanSizes(c, screen, best).value == best.value.0)
      || (ScanSizes(c, screen, best).value in c && InPixelRange(ScanSizes(c, screen, best).value))
  {
    if c != [] {
      assert c == [c[0]] + c[1..];
      if !InPixelRange(c[0]) {
        ScanSizesFinds(c[1..], screen, best);
      } else if Landscape(c[0]) != screen {
        if best.None? || AspectDiff(c[0], screen) < best.value.1 {
          ScanSizesFinds(c[1..], screen, Some((c[0], AspectDiff(c[0], screen))));
        } else {
          ScanSizesFinds(c[1..], screen, best);
        }
      }
    }
  }

  /** The first in-window candidate matching the screen once turned to
      landscape is returned as it is (not turned). */
  lemma {:induction false} ScanSizesExact(c: seq<Point>, screen: Point, best: Option<(Point, real)>, k: nat)
    requires screen.y > 0
    requires k < |c| && InPixelRange(c[k]) && Landscape(c[k]) == screen
    requires forall j :: 0 <= j < k ==> !(InPixelRange(c[j]) && Landscape(c[j]) == screen)
    ensures ScanSizes(c, screen, best) == Some(c[k])
  {
    if k > 0 {
      var next :=
        if !InPixelRange(c[0]) then best
        else if best.None? || AspectDiff(c[0], screen) < best.value.1 then Some((c[0], AspectDiff(c[0], screen)))
        else best;
      ScanSizesExact(c[1..], screen, next, k - 1);
    }
  }

  /** No exact match: once the best so far is at least as close as every
      remaining in-window candidate, it stays the best. */
  lemma {:induction false} ScanSizesKeeps(c: seq<Point>, screen: Point, p: Point, d: real)
    requires screen.y > 0
    requires forall j :: 0 <= j < |c| && InPixelRange(c[j]) ==> Landscape(c[j]) != screen && AspectDiff(c[j], screen) >= d
    ensures ScanSizes(c, screen, Some((p, d))) == Some(p)
  {
    if c != [] {
      ScanSizesKeeps(c[1..], screen, p, d);
    }
  }

  /** No exact match: the in-window candidate with the smallest aspect
      difference wins, and on a tie the earlier one (strict `<`). */
  lemma {:induction false} ScanSizesClosest(c: seq<Point>, screen: Point, best: Option<(Point, real)>, k: nat)
    requires screen.y > 0
    requires forall j :: 0 <= j < |c| && InPixelRange(c[j]) ==> Landscape(c[j]) != screen
    requires k < |c| && InPixelRange(c[k])
    requires forall j :: 0 <= j < |c| && InPixelRange(c[j]) ==> AspectDiff(c[k], screen) <= AspectDiff(c[j], screen)
    requires forall j :: 0 <= j < k && InPixelRange(c[j]) ==> AspectDiff(c[k], screen) < AspectDiff(c[j], screen)
    requires best.Some? ==> AspectDiff(c[k], screen) < best.value.1
    ensures ScanSizes(c, screen, best) == Some(c[k])
  {
    if k > 0 {
      var next :=
        if !InPixelRange(c[0]) then best
        else if best.None? || AspectDiff(c[0], screen) < best.value.1 then Some((c[0], AspectDiff(c[0], screen)))
        else best;
      ScanSizesClosest(c[1..], screen, next, k - 1);
    } else {
      ScanSizesKeeps(c[1..], screen, c[0], AspectDiff(c[0], screen));
    }
  }

  /** What `findBestPreviewSizeValue` returns: the default when no size is in
      the pixel window, and otherwise an in-window supported size. */
  lemma BestPreviewSizeWindow(sizes: seq<Point>, screen: Point, defaultSize: Point)
    requires screen.y > 0
    ensures (forall p :: p in sizes ==> !InPixelRange(p)) ==> BestPreviewSize(sizes, screen, defaultSize) == defaultSize
    ensures (exists p :: p in sizes && InPixelRange(p)) ==>
      BestPreviewSize(sizes, screen, defaultSize) in sizes && InPixelRange(BestPreviewSize(sizes, screen, defaultSize))
  {
    var sorted := SortByPixels(sizes);
    assert forall p :: p in sorted <==> p in sizes by {
      forall p ensures p in sorted <==> p in sizes {
        assert p in sorted <==> p in multiset(sorted);
        assert p in sizes <==> p in multiset(sizes);
      }
    }
    ScanSizesFinds(sorted, screen, None);
  }

  /** The loop of `findBestPreviewSizeValue` over the sizes in descending
      pixel order, with its early return on an exact match. */
  method FindBestPreviewSizeValue(sizes: seq<Point>, screen: Point, defaultSize: Point) returns (bestSize: Point)
    requires screen.y > 0
    ensures bestSize == BestPreviewSize(sizes, screen, defaultSize)
  {
    var sorted := SortByPixels(sizes);
    var best: Option<Point> := None;
    var diff: real := 0.0;
    var i := 0;
    while i < |sorted|
      invariant 0 <= i <= |sorted|
      invariant ScanSizes(sorted, screen, None)
             == ScanSizes(sorted[i..], screen, if best.None? then None else Some((best.value, diff)))
    {
      var size := sorted[i];
      assert sorted[i..][0] == size && sorted[i..][1..] == sorted[i + 1..];
      if InPixelRange(size) {
        if Landscape(size) == screen {
          return size;
        }
        var newDiff := AspectDiff(size, screen);
        if best.None? || newDiff < diff {
          best := Some(size);
          diff := newDiff;
        }
      }
      i := i + 1;
    }
    bestSize := if best.None? then defaultSize else best.value;
  }

  // ---------------------------------------------------------------------
  // The configuration manager object

  /** The configuration manager: the screen and camera resolutions it works
      out once, and the stored torch preference with a count of its writes. */
  class ConfigurationManager {
    var screenResolution: Option<Point>
    var cameraResolution: Option<Point>
    /** The "toggle light" preference. */
    var torchPreference: bool
    /** How many times the torch preference has been written back. */
    var preferenceCommits: nat

    ghost predicate Valid()
      reads this
    {
      (screenResolution.Some? <==> cameraResolution.Some?)
      && (screenResolution.Some? ==> screenResolution.value.x >= screenResolution.value.y > 0)
    }

    constructor (torchPreference: bool)
      ensures Valid()
      ensures screenResolution.None? && cameraResolution.None?
      ensures this.torchPreference == torchPreference && preferenceCommits == 0
    {
      screenResolution := None;
      cameraResolution := None;
      this.torchPreference := torchPreference;
      preferenceCommits := 0;
    }

    /** `initFromCameraParameters`: the display size turned to landscape, then
        the preview size chosen for it. */
    method InitFromCameraParameters(display: Point, sizes: seq<Point>, defaultSize: Point)
      requires display.x > 0 && display.y > 0
      modifies this`screenResolution, this`cameraResolution
      ensures Valid()
      ensures screenResolution.Some? && screenResolution.value.x >= screenResolution.value.y
      ensures screenResolution.value == display || screenResolution.value == Point(display.y, display.x)
      ensures cameraResolution == Some(BestPreviewSize(sizes, screenResolution.value, defaultSize))
    {
      var width, height := display.x, display.y;
      if width < height {
        width, height := height, width;
      }
      var screen := Point(width, height);
      screenResolution := Some(screen);
      var camera := FindBestPreviewSizeValue(sizes, screen, defaultSize);
      cameraResolution := Some(camera);
    }

    /** `setDesiredCameraParameters`: with no parameters nothing is configured;
        otherwise the torch follows the stored preference, the focus mode is
        chosen by `FocusMode` when one is supported, and the preview size is
        the camera resolution. */
    function DesiredParameters(params: Option<CameraParams>, autoFocus: bool, disableContinuous: bool): (r: Option<CameraParams>)
      reads this
      requires cameraResolution.Some?
      ensures params.None? ==> r.None?
      ensures params.Some? ==> r.Some? && r.value.previewSize == cameraResolution
      ensures params.Some? ==> r.value.flashMode == DoSetTorch(params.value, torchPreference).flashMode
      ensures params.Some? ==>
        r.value.supportedFocusModes == params.value.supportedFocusModes
        && r.value.supportedFlashModes == params.value.supportedFlashModes
      ensures params.Some? && FocusMode(autoFocus, disableContinuous, params.value.supportedFocusModes).Some? ==>
        r.value.focusMode == FocusMode(autoFocus, disableContinuous, params.value.supportedFocusModes)
      ensures params.Some? && FocusMode(autoFocus, disableContinuous, params.value.supportedFocusModes).None? ==>
        r.value.focusMode == params.value.focusMode
      ensures params.Some? && r.value.focusMode != params.value.focusMode ==>
        r.value.focusMode.Some? && params.value.supportedFocusModes.Some?
        && r.value.focusMode.value in params.value.supportedFocusModes.value
        && r.value.focusMode.value in FocusPreferences(autoFocus, disableContinuous)
    {
      match params
      case None => None
      case Some(p) =>
        var lit := DoSetTorch(p, torchPreference);
        var focus := FocusMode(autoFocus, disableContinuous, p.supportedFocusModes);
        FocusModeIsFirstPreferred(autoFocus, disableContinuous, p.supportedFocusModes);
        Some(lit.(focusMode := if focus.Some? then focus else lit.focusMode,
                  previewSize := cameraResolution))
    }

    /** `setTorch`: sets the flash mode on the parameters and writes the
        preference back only when it changes. */
    method SetTorch(params: CameraParams, newSetting: bool) returns (updated: CameraParams)
      modifies this`torchPreference, this`preferenceCommits
      ensures updated == DoSetTorch(params, newSetting)
      ensures torchPreference == newSetting
      ensures preferenceCommits == old(preferenceCommits) + (if old(torchPreference) == newSetting then 0 else 1)
    {
      updated := DoSetTorch(params, newSetting);
      if torchPreference != newSetting {
        torchPreference := newSetting;
        preferenceCommits := preferenceCommits + 1;
      }
    }
  }
}
