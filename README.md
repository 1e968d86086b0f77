# MRZ scanner capture pipeline in Dafny

This project models the capture side of an Android scanner for passport machine-readable zones (MRZ). Its parts:

- **Camera driver** (`CameraManager`). It keeps the open, previewing and initialized flags. It caches the framing rectangle (the on-screen region of interest) and its projection into camera coordinates. It resizes the rectangle by drag deltas, recording them when the driver is not yet configured. It arms a one-shot frame request that the next preview frame answers.
- **Camera configuration** (`CameraConfigurationManager`). It handles the "first desired value that is supported" search and the focus and flash mode choice. It turns the screen size to landscape. It chooses the preview size: a pixel-count window, an exact-match shortcut, the closest aspect ratio, and a default fallback.
- **Controller** (`CaptureActivityHandler`). This is a six-state machine (PREVIEW, PREVIEW_PAUSED, CONTINUOUS, CONTINUOUS_PAUSED, SUCCESS, DONE) driven by decode outcomes, stop, reset, quit and the shutter.
- **Decode worker** (`DecodeHandler`). It has a `running` flag and a pending-decode latch, which drops continuous frames while a job is outstanding. Each continuous job posts exactly one success or failure outcome.
- **Activity rules** (`CaptureActivity`):
  - the MRZ text filter and the validation gate;
  - the rule that turns a drag into a resize;
  - the text-size clamp and the span between two tokens;
  - the engine-mode demotion;
  - the decisions taken on the shutter, the keys and pause.

The OCR engine (Tesseract), the image library (Leptonica) and the MRZ validator (jmrtd's `MRZInfo`) become inputs. An `EngineRun` says what the engine did and at which elapsed times. A `canonical` string is the validator's rendering of the filtered text, absent when the validator throws. Display size, supported preview sizes, camera parameters and preferences are also inputs.

The program keeps the controller state and the latch in static fields. Here they are fields of one `Pipeline.Session` object. That object also holds the worker's queue, the controller's queue, the paused flag and the cached result. Message handling is a sequence of atomic events.

Layout:

- `wrappers.dfy`: `Option`.
- `geometry.dfy`: rectangles, Java's truncating division, centring, resizing and projection.
- `camera_config.dfy`: the selection rules and the `ConfigurationManager` class.
- `camera_manager.dfy`: the `CameraManager` class.
- `messages.dfy`: the message types and the queue filter applied by `stop()`.
- `decode_worker.dfy`: the outcome of one continuous job.
- `capture_rules.dfy`: the activity's pure rules and the text-filter loop.
- `framing_touch.dfy`: the touch listener.
- `pipeline.dfy`: the session.

Behaviour of the code worth knowing, which the model follows:

- **A resize recorded before the first configuration is never applied.** In `openDriver` it calls `adjustFramingRect` after `initialized` is set but before any framing rectangle exists. That call dereferences null, so the recorded deltas are neither applied nor zeroed (`PendingResizeFailed`). Nothing in the app reaches this: the touch listener resizes only through an existing rectangle, which needs an open, initialized camera.
- **The `removeMessages` calls for decode requests remove nothing.** `stop()` and `quitSynchronously()` run them on the controller's queue, but decode requests wait in the worker's queue. Only the removal of continuous outcomes has an effect.
- **`quitSynchronously()` never sends a quit message to the worker.** The worker's `running` flag is only cleared by a quit message, and nothing here sends one.
- **The latch can stay set with no outcome queued, and be clear with one queued.**
  - `stop()` discards a queued outcome and leaves the latch set.
  - `resumeContinuousDecoding` clears the latch even while an outcome is still queued, so two continuous outcomes can wait at once (`Pipeline.BackWhilePausedQueuesTwoOutcomes`).
  - Every other event keeps the invariant "at most one continuous outcome waits, and only while the latch is set" (`Pipeline.LatchGuards`).
- **A continuous frame handled after the camera was closed kills the app.** The crop dereferences a missing framing rectangle, so there is no null luminance source to report as a failure. Nothing on the decode thread catches the exception, and the platform's default handler ends the process (`ProcessKilled`).
- **With no controller handler, a successful read leaves the image with the engine.** The job returns before the engine is cleared. When the engine throws, the controller is asked to stop whether or not the handler exists.
- **Only the second index decides whether a status span is applied.** `start > -1` always holds for a non-empty token.
- **`initOcrEngine` turns continuous mode on for the Cube engines, despite its log message.** The log line says it disables continuous preview. Its preference edit is never committed.

## Model

| member | source | states |
|---|---|---|
| Geometry.Centered | app/src/main/java/flynn/pro/mrz/camera/CameraManager.java:127-129 | the rectangle has the requested size; the left and right margins differ by at most one pixel, and likewise top and bottom; it lies on the screen when it fits |
| Geometry.DefaultFramingRect | app/src/main/java/flynn/pro/mrz/camera/CameraManager.java:119-129 | the default rectangle is max(W,50) wide and max(H/4,20) high (truncating division), and it is centred |
| Geometry.DefaultFramingRectInside | app/src/main/java/flynn/pro/mrz/camera/CameraManager.java:119-129 | on a screen of at least 50x80 the default rectangle lies inside the screen |
| Geometry.AdjustRectAxes | app/src/main/java/flynn/pro/mrz/camera/CameraManager.java:150-164 | each axis takes its delta exactly when the new size lies in [50, screen-4], otherwise it keeps its size; the result is centred |
| Geometry.AdjustRectRejectedIsIdentity | app/src/main/java/flynn/pro/mrz/camera/CameraManager.java:153-164 | deltas rejected (or zero) on both axes leave a centred rectangle unchanged |
| Geometry.DefaultWidthGrowthRejected | app/src/main/java/flynn/pro/mrz/camera/CameraManager.java:153-155 | the default rectangle spans the screen width, so every width delta above -4 is rejected and the rectangle stays as it is |
| Geometry.AdjustAllBounded | app/src/main/java/flynn/pro/mrz/camera/CameraManager.java:150-165 | after any sequence of resizes, each side has its original size or lies in [50, screen-4], and once any delta was applied the rectangle is centred |
| Geometry.JavaDivTruncates | app/src/main/java/flynn/pro/mrz/camera/CameraManager.java:123 | the division used for offsets and projection truncates toward zero, as Java's does |
| Geometry.ProjectRectInside | app/src/main/java/flynn/pro/mrz/camera/CameraManager.java:141-144 | scaling each edge by camera/screen with truncating division maps a rectangle inside the screen to one inside the camera frame, with its edges in order |
| Geometry.ProjectRectSameResolution | app/src/main/java/flynn/pro/mrz/camera/CameraManager.java:141-144 | when the camera and the screen have the same resolution, the projection is the identity |
| CameraDriver.DefaultFramingRectFits | app/src/main/java/flynn/pro/mrz/camera/CameraManager.java:119-129 | the default rectangle satisfies the invariant of every cached framing rectangle (centred, at least 50x20, bounded by the screen) |
| CameraDriver.AdjustRectFits | app/src/main/java/flynn/pro/mrz/camera/CameraManager.java:150-164 | a resize keeps that invariant |
| CameraDriver.FittingRectInside | app/src/main/java/flynn/pro/mrz/camera/CameraManager.java:133-147 | on a screen of at least 50x20 a rectangle meeting the invariant lies inside the screen, and its projection lies inside the camera frame |
| CameraDriver.CameraManager.constructor | app/src/main/java/flynn/pro/mrz/camera/CameraManager.java:38-42 | a new driver has no camera, no configuration, no cached rectangles, no recorded resize and nothing armed; no autofocus manager |
| CameraDriver.CameraManager.CurrentFramingRect | app/src/main/java/flynn/pro/mrz/camera/CameraManager.java:110-132 | a framing rectangle is available exactly when one is cached or a camera is open, and it meets the invariant |
| CameraDriver.CameraManager.OpenDriver | app/src/main/java/flynn/pro/mrz/camera/CameraManager.java:44-67 | an unavailable device changes nothing. The first open turns the display size to landscape and chooses the preview size. A recorded resize makes the first open fail after configuring. Later opens keep the configuration. Recorded deltas, cached rectangles, previewing and the armed request are untouched. A successful open applies the desired parameters and the reverse-image preference |
| CameraDriver.CameraManager.CloseDriver | app/src/main/java/flynn/pro/mrz/camera/CameraManager.java:69-77 | the camera is released, and both cached rectangles and the frame request are gone; `initialized` and `previewing` keep their values |
| CameraDriver.CameraManager.StartPreview | app/src/main/java/flynn/pro/mrz/camera/CameraManager.java:78-86 | previewing afterwards exactly when it was before or a camera is open (idempotent); an autofocus manager exists afterwards when one did before or the preview was just started |
| CameraDriver.CameraManager.StopPreview | app/src/main/java/flynn/pro/mrz/camera/CameraManager.java:87-98 | the autofocus manager is dropped in every case; an open camera stops previewing, and no frame request remains armed |
| CameraDriver.CameraManager.RequestAutoFocus | app/src/main/java/flynn/pro/mrz/camera/CameraManager.java:106-108 | asking for autofocus throws (a null dereference) exactly when no autofocus manager exists |
| CameraDriver.CameraManager.RequestOcrDecode | app/src/main/java/flynn/pro/mrz/camera/CameraManager.java:99-105 | arms a request of the given kind, replacing any earlier one, exactly when an open camera is previewing; otherwise no effect |
| CameraDriver.CameraManager.DeliverPreviewFrame | app/src/main/java/flynn/pro/mrz/camera/CameraManager.java:99-105 | a preview frame answers the armed request once and disarms it; a request is only armed while an open camera is previewing |
| CameraDriver.CameraManager.GetFramingRect | app/src/main/java/flynn/pro/mrz/camera/CameraManager.java:110-132 | the cached rectangle is returned unchanged. Without one: nothing when no camera is open, otherwise the default rectangle, which is then cached |
| CameraDriver.CameraManager.GetFramingRectInPreview | app/src/main/java/flynn/pro/mrz/camera/CameraManager.java:133-148 | the cached projection is returned unchanged. Otherwise the framing rectangle's projection is computed and cached. On a screen of at least 50x20 it lies within the camera resolution. The framing rectangle becomes what `getFramingRect` would return: the cached one or, on an open camera, the default |
| CameraDriver.CameraManager.AdjustFramingRect | app/src/main/java/flynn/pro/mrz/camera/CameraManager.java:150-170 | before initialization only the latest deltas are recorded. Once initialized, the cached rectangle is resized by `AdjustRect` and the preview-space cache is dropped. Without a cached rectangle, nothing changes |
| CameraDriver.CameraManager.BuildLuminanceSource | app/src/main/java/flynn/pro/mrz/camera/CameraManager.java:171-178 | the crop is the preview-space framing rectangle's offset and size with the reverse-image flag; there is one exactly when a projection is cached or a camera is open; it fills the two caches and replaces neither cached rectangle |
| CameraConfig.FirstSupported | app/src/main/java/flynn/pro/mrz/camera/CameraConfigurationManager.java:203-208 | the value found is desired and supported; nothing is found exactly when no desired value is supported |
| CameraConfig.SettableValue | app/src/main/java/flynn/pro/mrz/camera/CameraConfigurationManager.java:198-212 | as `FirstSupported`, and nothing when the supported list is absent |
| CameraConfig.FirstSupportedIsFirst | app/src/main/java/flynn/pro/mrz/camera/CameraConfigurationManager.java:203-208 | the result is the first desired value, in argument order, that is supported |
| CameraConfig.FirstSupportedAppend | app/src/main/java/flynn/pro/mrz/camera/CameraConfigurationManager.java:79-83 | trying one list and then another equals trying their concatenation |
| CameraConfig.FindSettableValue | app/src/main/java/flynn/pro/mrz/camera/CameraConfigurationManager.java:198-212 | the loop with its early exit returns `SettableValue` |
| CameraConfig.FocusModeIsFirstPreferred | app/src/main/java/flynn/pro/mrz/camera/CameraConfigurationManager.java:66-86 | the focus mode is the first supported mode among: auto only (autofocus with continuous disabled), or continuous-video, continuous-picture, auto (autofocus otherwise); then macro, edof |
| CameraConfig.TorchFlashMode | app/src/main/java/flynn/pro/mrz/camera/CameraConfigurationManager.java:118-127 | lighting picks torch, else on; not lighting picks off; the mode is supported; nothing exactly when none of the wanted modes is supported |
| CameraConfig.DoSetTorch | app/src/main/java/flynn/pro/mrz/camera/CameraConfigurationManager.java:118-131 | only the flash mode may change; it becomes `TorchFlashMode` (torch, else on, when lighting; off otherwise) whenever one of those is supported, and is unchanged otherwise |
| CameraConfig.Landscape | app/src/main/java/flynn/pro/mrz/camera/CameraConfigurationManager.java:41-49 | the result is landscape (x ≥ y); it is the same pair or the swapped pair, and an already landscape pair is unchanged |
| CameraConfig.InsertByPixels | app/src/main/java/flynn/pro/mrz/camera/CameraConfigurationManager.java:137-150 | inserting keeps the same elements plus the new one, and keeps the descending pixel order |
| CameraConfig.SortByPixels | app/src/main/java/flynn/pro/mrz/camera/CameraConfigurationManager.java:136-150 | the sorted list is a permutation of the sizes, in descending pixel-count order |
| CameraConfig.ScanSizesFinds | app/src/main/java/flynn/pro/mrz/camera/CameraConfigurationManager.java:165-186 | the scan finds nothing exactly when no candidate lies in the [470·320, 1280·720] pixel window; what it finds is in the window |
| CameraConfig.ScanSizesExact | app/src/main/java/flynn/pro/mrz/camera/CameraConfigurationManager.java:172-179 | the first in-window candidate equal to the screen once turned to landscape is returned, not turned |
| CameraConfig.ScanSizesKeeps | app/src/main/java/flynn/pro/mrz/camera/CameraConfigurationManager.java:180-185 | the best candidate so far is kept when no later one is strictly closer in aspect ratio |
| CameraConfig.ScanSizesClosest | app/src/main/java/flynn/pro/mrz/camera/CameraConfigurationManager.java:180-185 | with no exact match, the earliest in-window candidate with the smallest aspect-ratio difference wins (strict `<` keeps the earlier one on ties) |
| CameraConfig.BestPreviewSizeWindow | app/src/main/java/flynn/pro/mrz/camera/CameraConfigurationManager.java:133-196 | the camera's default size is returned when no size is in the window; otherwise a supported in-window size is returned |
| CameraConfig.FindBestPreviewSizeValue | app/src/main/java/flynn/pro/mrz/camera/CameraConfigurationManager.java:133-196 | the loop over the sorted sizes, with its early return, computes `BestPreviewSize` |
| CameraConfig.ConfigurationManager.constructor | app/src/main/java/flynn/pro/mrz/camera/CameraConfigurationManager.java:32-34 | no resolutions are known yet |
| CameraConfig.ConfigurationManager.InitFromCameraParameters | app/src/main/java/flynn/pro/mrz/camera/CameraConfigurationManager.java:37-53 | the screen resolution is the display size turned to landscape; the camera resolution is the best preview size for it |
| CameraConfig.ConfigurationManager.DesiredParameters | app/src/main/java/flynn/pro/mrz/camera/CameraConfigurationManager.java:55-90 | no parameters, nothing configured. Otherwise the supported lists are kept, the flash follows the stored torch preference, and the preview size is the camera resolution. The focus mode becomes `FocusMode` (the first supported of the preferred modes, by `FocusModeIsFirstPreferred`) when one is supported, and is unchanged otherwise |
| CameraConfig.ConfigurationManager.SetTorch | app/src/main/java/flynn/pro/mrz/camera/CameraConfigurationManager.java:100-111 | the parameters get `DoSetTorch`; the preference becomes the new setting and is written only when it differs |
| Messages.WithoutContinuousOutcomes | app/src/main/java/flynn/pro/mrz/CaptureActivityHandler.java:108-109 | a message survives exactly when it was queued and is not a continuous outcome |
| Messages.WithoutContinuousOutcomesAppend | app/src/main/java/flynn/pro/mrz/CaptureActivityHandler.java:108-109 | removal distributes over concatenation, so surviving messages keep their order |
| Messages.WithoutContinuousOutcomesIdempotent | app/src/main/java/flynn/pro/mrz/CaptureActivityHandler.java:102-111 | removing twice equals removing once; no continuous outcome survives; exactly the continuous outcomes are removed |
| DecodeWorker.GetOcrResult | app/src/main/java/flynn/pro/mrz/DecodeHandler.java:103-156 | there is a result exactly when the engine read a non-empty text. It carries that text, the mean confidence and the final elapsed time. The stop signal is raised exactly when the engine threw. The recorded time is the one taken at the last measurement reached |
| DecodeWorker.ContinuousJob | app/src/main/java/flynn/pro/mrz/DecodeHandler.java:63-100 | with a controller handler exactly one continuous outcome is posted, and none without one. It is a success exactly when a source exists and a non-empty text was read. A success carries the recognized result; a failure carries the worker's time. The engine still holds the image exactly when the read succeeded and there was no handler |
| CaptureRules.SplitLines | app/src/main/java/flynn/pro/mrz/CaptureActivity.java:666 | splitting on newlines gives at least one piece and no piece contains a newline |
| CaptureRules.JoinSplitLines | app/src/main/java/flynn/pro/mrz/CaptureActivity.java:666 | joining the pieces with newlines gives back the text |
| CaptureRules.SplitJoinLines | app/src/main/java/flynn/pro/mrz/CaptureActivity.java:666 | splitting joined newline-free pieces gives back the pieces |
| CaptureRules.DropTrailingEmpty | app/src/main/java/flynn/pro/mrz/CaptureActivity.java:666 | Java's `split` keeps a prefix of the pieces that does not end in an empty piece, and drops only empty ones |
| CaptureRules.JavaSplit | app/src/main/java/flynn/pro/mrz/CaptureActivity.java:666 | text without a newline is one piece; no piece contains a newline |
| CaptureRules.RemoveSpaces | app/src/main/java/flynn/pro/mrz/CaptureActivity.java:674 | the result contains no space and is no longer than the input |
| CaptureRules.RemoveSpacesKeepsNewlines | app/src/main/java/flynn/pro/mrz/CaptureActivity.java:674 | removing spaces keeps every newline |
| CaptureRules.KeepLongPiecesNewlines | app/src/main/java/flynn/pro/mrz/CaptureActivity.java:669-673 | the kept text has one newline per piece longer than 10 characters |
| CaptureRules.KeepLongPiecesEmpty | app/src/main/java/flynn/pro/mrz/CaptureActivity.java:669-673 | when no piece is longer than 10 characters nothing is kept |
| CaptureRules.FilteredMrzTextShape | app/src/main/java/flynn/pro/mrz/CaptureActivity.java:665-676 | the filtered text has no spaces, one line per long piece, and is empty when no piece is long; the discarded `replaceAll` at line 667 plays no part |
| CaptureRules.FilterContinuousText | app/src/main/java/flynn/pro/mrz/CaptureActivity.java:665-676 | the accumulating loop computes `FilteredMrzText` |
| CaptureRules.MrzAccepted | app/src/main/java/flynn/pro/mrz/CaptureActivity.java:677-689 | the MRZ is accepted exactly when the text is non-empty, the confidence is at least 50, the raw piece count is 2 or 3, and the validator renders the filtered text unchanged; the accepted MRZ is the filtered text |
| CaptureRules.TwoShortLinesRejected | app/src/main/java/flynn/pro/mrz/CaptureActivity.java:665-689 | two lines of at most 10 characters filter to the empty text and are never accepted, whatever the confidence, unless the validator renders the empty text |
| CaptureRules.GateCountsShortPieces | app/src/main/java/flynn/pro/mrz/CaptureActivity.java:666-677 | one long line and one short line pass the count gate, yet only the long line reaches validation, because the count is taken before filtering |
| CaptureRules.NoSpaces | app/src/main/java/flynn/pro/mrz/CaptureActivity.java:674 | removing spaces from a text without spaces changes nothing |
| CaptureRules.ScaledTextSize | app/src/main/java/flynn/pro/mrz/CaptureActivity.java:637 | the text size max(22, 32 − length/4) lies in [22, 32] |
| CaptureRules.ScaledTextSizeMonotone | app/src/main/java/flynn/pro/mrz/CaptureActivity.java:708 | longer text never gets a larger size |
| CaptureRules.IndexOf | app/src/main/java/flynn/pro/mrz/CaptureActivity.java:739-740 | Java's `indexOf` from a clamped start returns the first occurrence at or after it, or -1 when there is none |
| CaptureRules.SpanBetweenTokensMeaning | app/src/main/java/flynn/pro/mrz/CaptureActivity.java:737-750 | for a non-empty token, a span exists exactly when the token occurs twice without overlap; it covers the text strictly between the first occurrence and the next non-overlapping one |
| CaptureRules.InitEngineSettings | app/src/main/java/flynn/pro/mrz/CaptureActivity.java:568-599 | a Cube-using mode is demoted to Tesseract only, with the preference written, exactly when the language is neither "ara" nor "hin"; a Cube mode that remains turns continuous mode on |
| CaptureRules.GrabbedHandle | app/src/main/java/flynn/pro/mrz/CaptureActivity.java:231-271 | a handle is grabbed exactly when the pointer is near a corner or an edge, and a corner exactly when near a corner; each side of the grabbed handle is within 60 (corner) or 50 (edge) pixels of the current or previous pointer, and an edge handle has the pointer between the edges across it |
| CaptureRules.DragDelta | app/src/main/java/flynn/pro/mrz/CaptureActivity.java:226-275 | no resize on the first move (lastX = -1) or when no handle is grabbed. Otherwise each axis the grabbed handle lies on changes by twice the pointer's outward displacement (left and top handles moving left or up grow the rectangle, right and bottom handles moving right or down grow it), and the other axis of an edge handle is left alone |
| FramingTouch.FramingDrag.constructor | app/src/main/java/flynn/pro/mrz/CaptureActivity.java:211-212 | the listener starts with no previous position (-1, -1) |
| FramingTouch.FramingDrag.OnTouch | app/src/main/java/flynn/pro/mrz/CaptureActivity.java:215-287 | press and release forget the position. A move fetches the framing rectangle (caching the default), resizes it by `DragDelta` when that asks for a resize, and remembers the new position. Other actions are not handled |
| Pipeline.Session.constructor | app/src/main/java/flynn/pro/mrz/CaptureActivityHandler.java:32-56 | the preview runs and a fresh worker has empty queues. Continuous mode gives CONTINUOUS with exactly one continuous request armed. Otherwise the state passes through SUCCESS to PREVIEW and nothing new is armed. The worker starts with time 0 and no image; an autofocus manager exists unless the camera already previewed without one |
| Pipeline.Session.RestartOcrPreview | app/src/main/java/flynn/pro/mrz/CaptureActivityHandler.java:140-148 | SUCCESS becomes PREVIEW; every other state is left unchanged |
| Pipeline.Session.RestartOcrPreviewAndDecode | app/src/main/java/flynn/pro/mrz/CaptureActivityHandler.java:149-154 | the preview is started and one continuous request is armed when a camera is open, with the preview started and an autofocus manager created as `StartPreview` does |
| Pipeline.Session.OcrDecode | app/src/main/java/flynn/pro/mrz/CaptureActivityHandler.java:156-159 | PREVIEW_PAUSED and one single-shot request armed while the camera previews |
| Pipeline.Session.Stop | app/src/main/java/flynn/pro/mrz/CaptureActivityHandler.java:102-111 | CONTINUOUS_PAUSED from any state; queued continuous outcomes are removed (idempotent by `WithoutContinuousOutcomesIdempotent`); the latch is untouched |
| Pipeline.Session.ResetState | app/src/main/java/flynn/pro/mrz/CaptureActivityHandler.java:113-119 | only CONTINUOUS_PAUSED moves, to CONTINUOUS with one continuous request armed; in every other state nothing changes; the preview restarts as `StartPreview` does |
| Pipeline.Session.QuitSynchronously | app/src/main/java/flynn/pro/mrz/CaptureActivityHandler.java:121-138 | DONE with the preview stopped and no request armed; the autofocus manager is gone |
| Pipeline.Session.HardwareShutterButtonClick | app/src/main/java/flynn/pro/mrz/CaptureActivityHandler.java:160-164 | a single-shot decode starts only from PREVIEW; in other states nothing changes |
| Pipeline.Session.ShutterButtonClick | app/src/main/java/flynn/pro/mrz/CaptureActivityHandler.java:166-169 | the shutter disables itself and a single-shot decode starts from any state |
| Pipeline.Session.HandleOcrDecode | app/src/main/java/flynn/pro/mrz/CaptureActivity.java:607-615 | the result is cached in every case; it is shown exactly when its text is non-empty |
| Pipeline.Session.HandleOcrContinuousDecode | app/src/main/java/flynn/pro/mrz/CaptureActivity.java:661-690 | the cached result carries the filtered text. The screen finishes with the MRZ exactly when `MrzAccepted` accepts it; otherwise the session keeps running |
| Pipeline.Session.HandleControllerMessage | app/src/main/java/flynn/pro/mrz/CaptureActivityHandler.java:58-100 | a continuous outcome clears the latch and keeps the state. It re-arms a continuous request exactly when the state is CONTINUOUS. A failure forgets the cached result; a success caches the filtered result. A single-shot success gives SUCCESS and a failure PREVIEW, both re-enabling the shutter. Restart moves SUCCESS to PREVIEW. Only a continuous success can finish the screen, and only single-shot outcomes touch the shutter. The latch invariant is kept; the CONTINUOUS re-arm path starts the preview as `StartPreview` does |
| Pipeline.Session.DeliverFrame | app/src/main/java/flynn/pro/mrz/camera/CameraManager.java:99-105 | the armed request, if any, is consumed and its frame queued for the worker |
| Pipeline.Session.OcrContinuousDecode | app/src/main/java/flynn/pro/mrz/DecodeHandler.java:63-100 | the job posts the single outcome of `ContinuousJob`, after a stop when the engine threw, and updates time and engine state. It adds exactly one continuous outcome. After the camera was closed the crop throws instead: the worker stops and the app is killed. The framing rectangle becomes what `getFramingRect` would return, and a cached projection is kept |
| Pipeline.Session.HandleWorkerMessage | app/src/main/java/flynn/pro/mrz/DecodeHandler.java:32-52 | a stopped worker ignores everything. A continuous request is dropped while the latch is set; otherwise it sets the latch and runs one job. A single-shot request starts a recognition task and leaves the latch alone. A quit stops the worker. A crash on the crop kills the app. Nothing here clears the latch, and the latch invariant is kept. A job keeps a cached framing rectangle and projection. Every step but a job keeps the recorded time and the engine's image, and a crash keeps the state |
| Pipeline.Session.CompleteRecognition | app/src/main/java/flynn/pro/mrz/DecodeHandler.java:58-62 | a finished single-shot task posts a success with its result or a failure |
| Pipeline.Session.ResumeContinuousDecoding | app/src/main/java/flynn/pro/mrz/CaptureActivity.java:403-412 | unpaused, no cached result, the latch cleared and `ResetState` applied; the latch invariant then holds exactly when no continuous outcome is queued; the re-armed path starts the preview as `StartPreview` does |
| Pipeline.Session.OnShutterButtonPressContinuous | app/src/main/java/flynn/pro/mrz/CaptureActivity.java:390-401 | pause and stop. A cached result is shown (true exactly when its text is non-empty) and the scanner stays paused. Otherwise it resumes at once in CONTINUOUS with the latch clear and a request armed; resuming starts the preview as `StartPreview` does |
| Pipeline.Session.OnShutterButtonClick | app/src/main/java/flynn/pro/mrz/CaptureActivity.java:854-862 | continuous mode acts as the continuous shutter: the continuous outcomes are removed; with a cached result the scanner pauses in CONTINUOUS_PAUSED with the camera untouched, otherwise it resumes in CONTINUOUS with the latch clear and a continuous request armed. Otherwise the shutter disables itself and PREVIEW_PAUSED arms a single-shot request on a previewing camera; the single-shot path leaves the preview and autofocus as they are, and the resume path starts the preview as `StartPreview` does |
| Pipeline.Session.OnKeyDown | app/src/main/java/flynn/pro/mrz/CaptureActivity.java:483-514 | BACK resumes when paused; with nothing cached it cancels the screen; otherwise it forgets the cached result and queues a restart; each BACK path leaves the rest of the session and the camera as they are. CAMERA acts as the continuous shutter (same outcomes as on the screen) or, from PREVIEW only, arms a single-shot request in PREVIEW_PAUSED. The first FOCUS event kills the app exactly when no autofocus manager exists, and changes nothing else. Other keys are not handled |
| Pipeline.Session.OnPause | app/src/main/java/flynn/pro/mrz/CaptureActivity.java:444-463 | DONE, no request armed, camera closed and both cached rectangles gone; an open camera stops previewing and the autofocus manager is gone |
| Pipeline.PauseDecodeAndResume | app/src/main/java/flynn/pro/mrz/CaptureActivity.java:390-412 | first half of that scenario: after a frame, the continuous shutter, one worker job and BACK, the session is back in CONTINUOUS with a request armed, the latch clear and one continuous outcome still queued |
| Pipeline.BackWhilePausedQueuesTwoOutcomes | app/src/main/java/flynn/pro/mrz/CaptureActivity.java:402-408 | from a running continuous session with a cached result: shutter, one worker job, BACK, another frame and job leave two continuous outcomes queued with the latch set |

## Left out

- Views, toasts, dialogs, menus, the clipboard, sharing, the preferences screen and the engine initialisation task (`OcrInitAsyncTask`). They are display plumbing, file I/O and foreign calls.
- Tesseract, Leptonica, the luminance-source rendering and the single-shot recognition task. These are foreign or not part of this model; they appear only as the `EngineRun` input, the crop and the `CompleteRecognition` input.
- The ICAO Doc 9303 check-digit validation performed by jmrtd's `MRZInfo`. It is not part of this repository and is the `canonical` input.
- Threads and timing: the decode thread, `join(500)`, `synchronized` locking and the clock. Events are atomic and sequential, and elapsed times are inputs.
- The focusing done by the autofocus manager, the torch hardware, `setParameters`, and `setPreviewDisplay`'s IOException. They are hardware effects.
- Int overflow of pixel products and of the projection's multiplication. Integers are unbounded here.
- `PreviewCallback` is not part of this model. A delivered frame is the armed request consumed once.
- CameraDriver.CameraManager.GetFramingRectInPreview: copying a missing framing rectangle is modelled as a null dereference. On platform versions where `new Rect(null)` yields an empty rectangle, an empty projection would be cached instead; that variant is not modelled.
- CameraConfig.SortByPixels: the sort is a stable insertion sort, but stability (equal pixel counts keep their supplied order) is not stated.
- CameraConfig.AspectDiff: aspect ratios are exact reals, not Java floats. Ties that float rounding would break differently are not modelled.
- Pipeline.Session.constructor: the worker starts with the engine holding no image and the recognition time at 0, whatever an earlier session left.
- Pipeline.Session: the autofocus manager's constructor and `start` are not part of this model; a manager that exists is taken to start without error, also after `closeDriver` released its camera.
- Pipeline.Session: after `ProcessKilled` the process is gone, but the model does not forbid further events on the session.
- CaptureRules: string lengths (the 10-character piece rule, the text-size scaling) count Unicode scalar values. Java's `length()` counts UTF-16 code units, so a character outside the Basic Multilingual Plane counts 2 there and 1 here; OCR output of the MRZ alphabet is within that plane.
- Pipeline.Session: the handler is non-null throughout a session. The activity's `handler != null` checks, and `getHandler()` returning null during a job, are covered only by `DecodeWorker.ContinuousJob`'s `handlerPresent` input.
