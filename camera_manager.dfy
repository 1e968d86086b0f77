/** The camera driver object: whether a camera is open and previewing, the
    cached framing rectangle in screen and in preview coordinates, the
    resize request recorded before the first configuration, and the one-shot
    frame request that the next preview frame will answer, and whether an
    autofocus manager exists. Opening and releasing the device, the preview
    surface and the focusing itself are outside the model; `cameraOpen`
    stands for the `camera` reference being non-null. */
module CameraDriver {
  import opened Wrappers
  import opened Geometry
  import opened CameraConfig
  import opened Messages

  /** What every cached framing rectangle satisfies: centred on the screen,
      at least 50x20, at most as wide as the default and at most the screen
      height minus 4 (or 20) high. */
  predicate FramingRectFits(r: Rect, screen: Point)
  {
    && IsCentered(r, screen)
    && MinFrameWidth <= r.Width() <= Max(screen.x, MinFrameWidth)
    && MinFrameHeight <= r.Height() <= Max(screen.y - ScreenMargin, MinFrameHeight)
  }

  lemma DefaultFramingRectFits(screen: Point)
    requires screen.y > 0
    ensures FramingRectFits(DefaultFramingRect(screen), screen)
  {
    assert JavaDiv(screen.y, 4) == screen.y / 4;
  }

  lemma AdjustRectFits(r: Rect, dW: int, dH: int, screen: Point)
    requires FramingRectFits(r, screen)
    ensures FramingRectFits(AdjustRect(r, dW, dH, screen), screen)
  {
    AdjustRectAxes(r, dW, dH, screen);
  }

  /** On a screen of at least 50x20 a fitting rectangle lies inside the
      screen, and its projection lies inside a camera frame of any
      non-negative size. */
  lemma FittingRectInside(r: Rect, screen: Point, camera: Point)
    requires FramingRectFits(r, screen)
    requires screen.x >= MinFrameWidth && screen.y >= MinFrameHeight
    requires camera.x >= 0 && camera.y >= 0
    ensures 0 <= r.left <= r.right <= screen.x && 0 <= r.top <= r.bottom <= screen.y
    ensures var p := ProjectRect(r, camera, screen);
      0 <= p.left <= p.right <= camera.x && 0 <= p.top <= p.bottom <= camera.y
  {
    assert r == Centered(screen, r.Width(), r.Height());
    ProjectRectInside(r, camera, screen);
  }

  datatype OpenOutcome =
    | Opened
    /** `Camera.open()` gave nothing: IOException, nothing changes. */
    | DeviceUnavailable
    /** A resize recorded before the first configuration made
        `adjustFramingRect` dereference the still-null framing rectangle:
        NullPointerException after the configuration was initialised. */
    | PendingResizeFailed

  datatype AdjustOutcome =
    | Adjusted
    /** Not yet initialised: the deltas were recorded for later. */
    | Deferred
    /** Initialised but no cached rectangle: NullPointerException, nothing changes. */
    | NoFramingRect

  /** The crop handed to the luminance source: offset and size in preview
      coordinates, and whether the image is reversed. */
  datatype LuminanceCrop = LuminanceCrop(left: int, top: int, width: int, height: int, reverse: bool)

  class CameraManager {
    const config: ConfigurationManager
    var cameraOpen: bool
    var framingRect: Option<Rect>
    var framingRectInPreview: Option<Rect>
    var initialized: bool
    var previewing: bool
    var reverseImage: bool
    var requestedWidth: int
    var requestedHeight: int
    /** The kind of frame request the preview callback will answer once. */
    var armed: Option<RequestKind>
    /** The `autoFocusManager` reference is non-null: created when a preview
        starts, dropped whenever the preview is stopped. */
    var autoFocusRunning: bool

    ghost predicate Valid()
      reads this, config
    {
      && config.Valid()
      && (initialized <==> config.screenResolution.Some?)
      && (cameraOpen ==> initialized)
      && (armed.Some? ==> cameraOpen && previewing)
      && (framingRect.Some? ==> cameraOpen && FramingRectFits(framingRect.value, config.screenResolution.value))
      && (framingRectInPreview.Some? ==>
            framingRect.Some?
            && framingRectInPreview.value
               == ProjectRect(framingRect.value, config.cameraResolution.value, config.screenResolution.value))
    }

    /** The framing rectangle `getFramingRect` would return now: the cached
        one, or the default one while a camera is open. */
    function CurrentFramingRect(): (r: Option<Rect>)
      reads this, config
      requires Valid()
      ensures r.Some? <==> framingRect.Some? || cameraOpen
      ensures r.Some? ==> FramingRectFits(r.value, config.screenResolution.value)
    {
      if framingRect.Some? then framingRect
      else if cameraOpen then
        DefaultFramingRectFits(config.screenResolution.value);
        Some(DefaultFramingRect(config.screenResolution.value))
      else None
    }

    constructor (torchPreference: bool)
      ensures Valid() && fresh(config)
      ensures !cameraOpen && !initialized && !previewing && !reverseImage && !autoFocusRunning
      ensures framingRect.None? && framingRectInPreview.None? && armed.None?
      ensures requestedWidth == 0 && requestedHeight == 0
      ensures config.torchPreference == torchPreference
    {
      config := new ConfigurationManager(torchPreference);
      cameraOpen, initialized, previewing, reverseImage := false, false, false, false;
      autoFocusRunning := false;
      framingRect, framingRectInPreview, armed := None, None, None;
      requestedWidth, requestedHeight := 0, 0;
    }

    /** `openDriver`: opens the device if needed; the first time, initialises
        the configuration from the display and the supported preview sizes
        and replays a recorded resize; then applies the desired parameters and
        reads the reverse-image preference. */
    method OpenDriver(deviceAvailable: bool, display: Point, sizes: seq<Point>, defaultSize: Point,
                      params: Option<CameraParams>, autoFocus: bool, disableContinuous: bool,
                      reversePreference: bool)
      returns (outcome: OpenOutcome, applied: Option<CameraParams>)
      requires Valid()
      requires display.x > 0 && display.y > 0
      modifies this, config
      ensures Valid()
      ensures outcome == DeviceUnavailable <==> !old(cameraOpen) && !deviceAvailable
      ensures outcome == DeviceUnavailable ==> unchanged(this, config) && applied.None?
      ensures outcome == PendingResizeFailed <==>
        outcome != DeviceUnavailable && !old(initialized) && old(requestedWidth) > 0 && old(requestedHeight) > 0
      ensures outcome != DeviceUnavailable ==> cameraOpen && initialized
      ensures outcome != DeviceUnavailable && !old(initialized) ==>
        && config.screenResolution == Some(Landscape(display))
        && config.cameraResolution == Some(BestPreviewSize(sizes, Landscape(display), defaultSize))
      ensures old(initialized) ==>
        config.screenResolution == old(config.screenResolution) && config.cameraResolution == old(config.cameraResolution)
      ensures config.torchPreference == old(config.torchPreference)
      ensures config.preferenceCommits == old(config.preferenceCommits)
      ensures requestedWidth == old(requestedWidth) && requestedHeight == old(requestedHeight)
      ensures framingRect == old(framingRect) && framingRectInPreview == old(framingRectInPreview)
      ensures previewing == old(previewing) && armed == old(armed) && autoFocusRunning == old(autoFocusRunning)
      ensures outcome == Opened ==>
        reverseImage == reversePreference && applied == config.DesiredParameters(params, autoFocus, disableContinuous)
      ensures outcome != Opened ==> reverseImage == old(reverseImage) && applied.None?
    {
      applied := None;
      if !cameraOpen {
        if !deviceAvailable {
          outcome := DeviceUnavailable;
          return;
        }
        cameraOpen := true;
      }
      if !initialized {
        initialized := true;
        config.InitFromCameraParameters(display, sizes, defaultSize);
        if requestedWidth > 0 && requestedHeight > 0 {
          var adjusted := AdjustFramingRect(requestedWidth, requestedHeight);
          // The framing rectangle is only ever cached once initialised, so it
          // is still absent: the resize throws before the deltas are zeroed.
          assert adjusted == NoFramingRect;
          outcome := PendingResizeFailed;
          return;
        }
      }
      applied := config.DesiredParameters(params, autoFocus, disableContinuous);
      reverseImage := reversePreference;
      outcome := Opened;
    }

    /** `closeDriver`: releases the camera and forgets both cached
        rectangles and the frame request; `initialized` and `previewing`
        keep their values. */
    method CloseDriver()
      requires Valid()
      modifies this`cameraOpen, this`framingRect, this`framingRectInPreview, this`armed
      ensures Valid()
      ensures !cameraOpen && framingRect.None? && framingRectInPreview.None? && armed.None?
    {
      if cameraOpen {
        cameraOpen := false;
        framingRect, framingRectInPreview := None, None;
        armed := None;
      }
    }

    /** `startPreview`: starts previewing, with a new autofocus manager, when
        a camera is open and it is not already previewing. */
    method StartPreview()
      requires Valid()
      modifies this`previewing, this`autoFocusRunning
      ensures Valid()
      ensures previewing == (old(previewing) || cameraOpen)
      ensures autoFocusRunning == (old(autoFocusRunning) || (cameraOpen && !old(previewing)))
    {
      if cameraOpen && !previewing {
        previewing := true;
        autoFocusRunning := true;
      }
    }

    /** `stopPreview`: drops the autofocus manager in every case, and stops
        previewing an open camera and disarms the frame request. */
    method StopPreview()
      requires Valid()
      modifies this`previewing, this`armed, this`autoFocusRunning
      ensures Valid()
      ensures previewing == (old(previewing) && !cameraOpen)
      ensures armed.None? && !autoFocusRunning
    {
      autoFocusRunning := false;
      if cameraOpen && previewing {
        armed := None;
        previewing := false;
      }
    }

    /** `requestAutoFocus`: starts the autofocus manager, which throws a
        NullPointerException when there is none. */
    method RequestAutoFocus() returns (crashed: bool)
      ensures crashed <==> !autoFocusRunning
    {
      crashed := !autoFocusRunning;
    }

    /** `requestOcrDecode`: arms a one-shot frame request of the given kind,
        replacing any earlier one, while an open camera is previewing. */
    method RequestOcrDecode(kind: RequestKind)
      requires Valid()
      modifies this`armed
      ensures Valid()
      ensures armed == if cameraOpen && previewing then Some(kind) else old(armed)
    {
      if cameraOpen && previewing {
        armed := Some(kind);
      }
    }

    /** The preview callback firing: the armed request, if any, is answered
        with one frame and is used up. */
    method DeliverPreviewFrame() returns (kind: Option<RequestKind>)
      requires Valid()
      modifies this`armed
      ensures Valid()
      ensures kind == old(armed) && armed.None?
      ensures kind.Some? ==> cameraOpen && previewing
    {
      kind := armed;
      armed := None;
    }

    /** `getFramingRect`: the cached rectangle, computed as the default one on
        first use while a camera is open. */
    method GetFramingRect() returns (r: Option<Rect>)
      requires Valid()
      modifies this`framingRect
      ensures Valid()
      ensures r == framingRect == old(CurrentFramingRect())
      ensures old(framingRect).Some? ==> r == old(framingRect)
      ensures old(framingRect).None? ==>
        (r.Some? <==> cameraOpen) && (r.Some? ==> r.value == DefaultFramingRect(config.screenResolution.value))
    {
      if framingRect.None? {
        if !cameraOpen {
          return None;
        }
        var screen := config.screenResolution.value;
        DefaultFramingRectFits(screen);
        framingRect := Some(DefaultFramingRect(screen));
      }
      r := framingRect;
    }

    /** `getFramingRectInPreview`: the cached preview-space rectangle,
        computed on first use by projecting the framing rectangle into camera
        coordinates. Nothing when there is no framing rectangle, where the
        source dereferences null. */
    method GetFramingRectInPreview() returns (r: Option<Rect>)
      requires Valid()
      modifies this`framingRect, this`framingRectInPreview
      ensures Valid()
      ensures r == framingRectInPreview
      ensures framingRect == old(CurrentFramingRect())
      ensures old(framingRectInPreview).Some? ==> r == old(framingRectInPreview) && framingRect == old(framingRect)
      ensures old(framingRect).Some? ==> framingRect == old(framingRect)
      ensures r.Some? <==> old(framingRectInPreview).Some? || cameraOpen
      ensures r.Some? ==>
        framingRect.Some? && r.value == ProjectRect(framingRect.value, config.cameraResolution.value, config.screenResolution.value)
      ensures (r.Some? && config.screenResolution.value.x >= MinFrameWidth && config.screenResolution.value.y >= MinFrameHeight
               && config.cameraResolution.value.x >= 0 && config.cameraResolution.value.y >= 0) ==>
        0 <= r.value.left <= r.value.right <= config.cameraResolution.value.x
        && 0 <= r.value.top <= r.value.bottom <= config.cameraResolution.value.y
    {
      if framingRectInPreview.None? {
        var rect := GetFramingRect();
        if rect.None? {
          return None;
        }
        var camera, screen := config.cameraResolution.value, config.screenResolution.value;
        framingRectInPreview := Some(ProjectRect(rect.value, camera, screen));
      }
      r := framingRectInPreview;
      if r.Some? && config.screenResolution.value.x >= MinFrameWidth && config.screenResolution.value.y >= MinFrameHeight
         && config.cameraResolution.value.x >= 0 && config.cameraResolution.value.y >= 0 {
        FittingRectInside(framingRect.value, config.screenResolution.value, config.cameraResolution.value);
      }
    }

    /** `adjustFramingRect`: once initialised, resizes the cached rectangle
        axis by axis within [50, screen - 4], re-centres it and drops the
        preview-space cache; before that, records the deltas, replacing any
        recorded earlier. */
    method AdjustFramingRect(deltaWidth: int, deltaHeight: int) returns (outcome: AdjustOutcome)
      requires Valid()
      modifies this`framingRect, this`framingRectInPreview, this`requestedWidth, this`requestedHeight
      ensures Valid()
      ensures outcome == Deferred <==> !initialized
      ensures outcome == NoFramingRect <==> initialized && old(framingRect).None?
      ensures outcome == Deferred ==>
        requestedWidth == deltaWidth && requestedHeight == deltaHeight
        && framingRect == old(framingRect) && framingRectInPreview == old(framingRectInPreview)
      ensures outcome != Deferred ==> requestedWidth == old(requestedWidth) && requestedHeight == old(requestedHeight)
      ensures outcome == NoFramingRect ==>
        framingRect == old(framingRect) && framingRectInPreview == old(framingRectInPreview)
      ensures outcome == Adjusted ==>
        && framingRect == Some(AdjustRect(old(framingRect).value, deltaWidth, deltaHeight, config.screenResolution.value))
        && framingRectInPreview.None?
    {
      if initialized {
        if framingRect.None? {
          return NoFramingRect;
        }
        var screen := config.screenResolution.value;
        AdjustRectFits(framingRect.value, deltaWidth, deltaHeight, screen);
        framingRect := Some(AdjustRect(framingRect.value, deltaWidth, deltaHeight, screen));
        framingRectInPreview := None;
        outcome := Adjusted;
      } else {
        requestedWidth, requestedHeight := deltaWidth, deltaHeight;
        outcome := Deferred;
      }
    }

    /** `buildLuminanceSource`: the crop is the preview-space framing
        rectangle and the reverse-image setting. Nothing when there is no
        framing rectangle, where the source dereferences null. */
    method BuildLuminanceSource() returns (crop: Option<LuminanceCrop>)
      requires Valid()
      modifies this`framingRect, this`framingRectInPreview
      ensures Valid()
      ensures crop.Some? <==> framingRectInPreview.Some?
      ensures framingRect == old(CurrentFramingRect())
      ensures old(framingRectInPreview).Some? ==> framingRectInPreview == old(framingRectInPreview)
      ensures crop.Some? <==> old(framingRectInPreview).Some? || cameraOpen
      ensures crop.Some? ==>
        var p := framingRectInPreview.value;
        crop.value == LuminanceCrop(p.left, p.top, p.Width(), p.Height(), reverseImage)
    {
      var rect := GetFramingRectInPreview();
      if rect.None? {
        return None;
      }
      var p := rect.value;
      crop := Some(LuminanceCrop(p.left, p.top, p.Width(), p.Height(), reverseImage));
    }
  }
}
