/** One scanning session of the capture screen: the controller's state
    machine, the decode worker with its pending-decode latch, the two message
    queues between them, and the activity's paused flag and cached result.
    The state and the latch are static fields in the program; here they are
    fields of the one session object. Message handling is a sequence of
    atomic events; threads and timing are not modelled. */
module Pipeline {
  import opened Wrappers
  import opened Messages
  import opened DecodeWorker
  import opened CaptureRules
  import opened CameraDriver
  import opened Geometry

  /** The controller's states. */
  datatype State = Preview | PreviewPaused | Continuous | ContinuousPaused | Success | Done

  /** How the capture screen finished: with an accepted MRZ, canceled, or
      with the app's process killed by an exception nothing caught. */
  datatype Exit = MrzRead(mrz: string) | Canceled | ProcessKilled

  /** The keys `onKeyDown` distinguishes; a FOCUS event carries how many
      times the key has repeated while held. */
  datatype Key = BackKey | CameraKey | FocusKey(repeatCount: nat) | OtherKey

  /** What the decode worker did with the message at the head of its queue. */
  datatype WorkerStep =
    | Ignored    // the worker no longer runs
    | Dropped    // a continuous request arrived while the latch was set
    | Decoded    // a continuous job ran
    | Recognizing // a single-shot recognition task was started
    | Stopped    // a quit message
    | Crashed    // the frame arrived after the camera was closed

  /** The latch keeps the continuous pipeline single-file: at most one
      continuous outcome waits for the controller, and only while the latch
      is set. */
  predicate LatchGuards(queue: seq<ControllerMsg>, decodePending: bool)
  {
    CountContinuousOutcomes(queue) <= 1 && (CountContinuousOutcomes(queue) == 1 ==> decodePending)
  }

  class Session {
    const cam: CameraManager
    const continuousMode: bool
    var state: State
    /** The worker's static `isDecodePending`. */
    var decodePending: bool
    var running: bool
    var workerQueue: seq<WorkerMsg>
    var controllerQueue: seq<ControllerMsg>
    var timeRequired: int
    var engineHoldsImage: bool
    /** Single-shot recognition tasks started and not yet finished. */
    var recognitionTasks: nat
    var lastResult: Option<OcrResult>
    var isPaused: bool
    var shutterClickable: bool
    var finished: Option<Exit>

    ghost predicate Valid()
      reads this, cam, cam.config
    {
      cam.Valid()
    }

    predicate Guarded()
      reads this
    {
      LatchGuards(controllerQueue, decodePending)
    }

    /** What restarting the preview and arming a continuous request does to
        the camera: it previews afterwards when it did before or is open, an
        autofocus manager is created exactly when a stopped preview starts on
        an open camera, and an open camera is armed for a continuous frame. */
    twostate predicate PreviewRestartedAndArmed()
      reads cam
    {
      && cam.previewing == (old(cam.previewing) || cam.cameraOpen)
      && cam.autoFocusRunning == (old(cam.autoFocusRunning) || (cam.cameraOpen && !old(cam.previewing)))
      && cam.armed == if cam.cameraOpen then Some(RequestKind.Continuous) else old(cam.armed)
    }

    /** The controller is created right after the camera was opened: the
        preview starts, a fresh worker runs, and the state is CONTINUOUS with
        one continuous request armed, or passes through SUCCESS to PREVIEW. */
    constructor (cam: CameraManager, continuousMode: bool, decodePending: bool,
                 lastResult: Option<OcrResult>, isPaused: bool, shutterClickable: bool)
      requires cam.Valid() && cam.cameraOpen
      modifies cam`previewing, cam`armed, cam`autoFocusRunning
      ensures Valid() && this.cam == cam && this.continuousMode == continuousMode
      ensures this.decodePending == decodePending && this.lastResult == lastResult
      ensures this.isPaused == isPaused && this.shutterClickable == shutterClickable
      ensures running && workerQueue == [] && controllerQueue == [] && recognitionTasks == 0
      ensures finished.None? && !engineHoldsImage && timeRequired == 0
      ensures cam.previewing && cam.autoFocusRunning == (old(cam.autoFocusRunning) || !old(cam.previewing))
      ensures continuousMode ==> state == State.Continuous && cam.armed == Some(RequestKind.Continuous)
      ensures !continuousMode ==> state == Preview && cam.armed == old(cam.armed)
    {
      this.cam := cam;
      this.continuousMode := continuousMode;
      this.decodePending := decodePending;
      this.lastResult := lastResult;
      this.isPaused := isPaused;
      this.shutterClickable := shutterClickable;
      running := true;
      workerQueue := [];
      controllerQueue := [];
      timeRequired := 0;
      engineHoldsImage := false;
      recognitionTasks := 0;
      finished := None;
      state := Success;
      new;
      cam.StartPreview();
      if continuousMode {
        state := State.Continuous;
        RestartOcrPreviewAndDecode();
      } else {
        RestartOcrPreview();
      }
    }

    /** `restartOcrPreview`: SUCCESS becomes PREVIEW; other states stay. */
    method RestartOcrPreview()
      modifies this`state
      ensures state == if old(state) == Success then Preview else old(state)
    {
      if state == Success {
        state := Preview;
      }
    }

    /** `restartOcrPreviewAndDecode`: start the preview and arm one continuous
        request, which needs an open camera. */
    method RestartOcrPreviewAndDecode()
      requires Valid()
      modifies cam`previewing, cam`armed, cam`autoFocusRunning
      ensures Valid()
      ensures PreviewRestartedAndArmed()
    {
      cam.StartPreview();
      cam.RequestOcrDecode(RequestKind.Continuous);
    }

    /** `ocrDecode`: PREVIEW_PAUSED and one single-shot request. */
    method OcrDecode()
      requires Valid()
      modifies this`state, cam`armed
      ensures Valid()
      ensures state == PreviewPaused
      ensures cam.armed == if cam.cameraOpen && cam.previewing then Some(SingleShot) else old(cam.armed)
    {
      state := PreviewPaused;
      cam.RequestOcrDecode(SingleShot);
    }

    /** `stop`: CONTINUOUS_PAUSED from any state, and the continuous outcomes
        waiting for the controller are removed. The latch is left as it is. */
    method Stop()
      modifies this`state, this`controllerQueue
      ensures state == ContinuousPaused
      ensures controllerQueue == WithoutContinuousOutcomes(old(controllerQueue))
      ensures CountContinuousOutcomes(controllerQueue) == 0 && Guarded()
    {
      state := ContinuousPaused;
      WithoutContinuousOutcomesIdempotent(controllerQueue);
      controllerQueue := WithoutContinuousOutcomes(controllerQueue);
    }

    /** `resetState`: only CONTINUOUS_PAUSED moves, to CONTINUOUS with one
        continuous request armed. */
    method ResetState()
      requires Valid()
      modifies this`state, cam`previewing, cam`armed, cam`autoFocusRunning
      ensures Valid()
      ensures state == if old(state) == ContinuousPaused then State.Continuous else old(state)
      ensures old(state) == ContinuousPaused ==>
        PreviewRestartedAndArmed()
      ensures old(state) != ContinuousPaused ==> unchanged(cam)
    {
      if state == ContinuousPaused {
        state := State.Continuous;
        RestartOcrPreviewAndDecode();
      }
    }

    /** `quitSynchronously`: DONE and the preview stopped, which disarms the
        camera. The message removals target the controller's own queue, where
        decode requests never wait, so both queues are unchanged. */
    method QuitSynchronously()
      requires Valid()
      modifies this`state, cam`previewing, cam`armed, cam`autoFocusRunning
      ensures Valid()
      ensures state == Done && cam.armed.None? && !cam.autoFocusRunning
      ensures cam.previewing == (old(cam.previewing) && !cam.cameraOpen)
    {
      state := Done;
      cam.StopPreview();
    }

    /** The hardware shutter starts a single-shot decode only from PREVIEW. */
    method HardwareShutterButtonClick()
      requires Valid()
      modifies this`state, cam`armed
      ensures Valid()
      ensures old(state) == Preview ==>
        state == PreviewPaused
        && cam.armed == if cam.cameraOpen && cam.previewing then Some(SingleShot) else old(cam.armed)
      ensures old(state) != Preview ==> state == old(state) && unchanged(cam)
    {
      if state == Preview {
        OcrDecode();
      }
    }

    /** The on-screen shutter disables itself and starts a single-shot decode
        from any state. */
    method ShutterButtonClick()
      requires Valid()
      modifies this`state, this`shutterClickable, cam`armed
      ensures Valid()
      ensures !shutterClickable && state == PreviewPaused
      ensures cam.armed == if cam.cameraOpen && cam.previewing then Some(SingleShot) else old(cam.armed)
    {
      shutterClickable := false;
      OcrDecode();
    }

    /** `handleOcrDecode`: the result is cached in every case; it is shown
        exactly when its text is not empty. */
    method HandleOcrDecode(r: OcrResult) returns (shown: bool)
      modifies this`lastResult
      ensures lastResult == Some(r)
      ensures shown <==> r.text != ""
    {
      lastResult := Some(r);
      shown := r.text != "";
    }

    /** `handleOcrContinuousDecode` for a result: the cached result carries the
        filtered text, and the screen finishes with the MRZ when the gate is
        open and the validator's rendering equals the filtered text.
        `canonical` is that rendering (absent when the validator throws). */
    method HandleOcrContinuousDecode(r: OcrResult, canonical: Option<string>)
      modifies this`lastResult, this`finished
      ensures lastResult == Some(r.(text := FilteredMrzText(r.text)))
      ensures var accepted := MrzAccepted(r.meanConfidence, r.text, canonical);
        finished == if accepted.Some? then Some(MrzRead(accepted.value)) else old(finished)
    {
      if r.text != "" {
        var filtered := FilterContinuousText(r.text);
        lastResult := Some(r.(text := filtered));
        var accepted := MrzAccepted(r.meanConfidence, r.text, canonical);
        if accepted.Some? {
          finished := Some(MrzRead(accepted.value));
        }
      } else {
        lastResult := Some(r);
      }
    }

    /** The controller handles the message at the head of its queue.
        `canonical` is the MRZ validator's rendering, used only by a
        continuous success. */
    method HandleControllerMessage(canonical: Option<string>)
      requires Valid() && controllerQueue != []
      modifies this`state, this`controllerQueue, this`decodePending, this`lastResult
      modifies this`finished, this`shutterClickable, cam`previewing, cam`armed, cam`autoFocusRunning
      ensures Valid()
      ensures controllerQueue == old(controllerQueue[1..])
      ensures old(Guarded()) ==> Guarded()
      ensures var m := old(controllerQueue[0]);
        m.IsContinuousOutcome() ==>
          !decodePending && state == old(state)
          && (old(state) == State.Continuous ==>
                PreviewRestartedAndArmed())
          && (old(state) != State.Continuous ==> unchanged(cam))
      ensures var m := old(controllerQueue[0]);
        !m.IsContinuousOutcome() ==>
          decodePending == old(decodePending) && unchanged(cam)
      ensures var m := old(controllerQueue[0]);
        m.ContinuousDecodeFailed? ==> lastResult.None? && finished == old(finished)
      ensures var m := old(controllerQueue[0]);
        m.ContinuousDecodeSucceeded? ==>
          var accepted := MrzAccepted(m.result.meanConfidence, m.result.text, canonical);
          lastResult == Some(m.result.(text := FilteredMrzText(m.result.text)))
          && finished == if accepted.Some? then Some(MrzRead(accepted.value)) else old(finished)
      ensures var m := old(controllerQueue[0]);
        m.DecodeSucceeded? ==> state == Success && shutterClickable && lastResult == Some(m.result)
      ensures var m := old(controllerQueue[0]);
        m.DecodeFailed? ==> state == Preview && shutterClickable && lastResult == old(lastResult)
      ensures var m := old(controllerQueue[0]);
        m.RestartPreview? ==>
          state == (if old(state) == Success then Preview else old(state)) && lastResult == old(lastResult)
      ensures var m := old(controllerQueue[0]);
        !m.ContinuousDecodeSucceeded? ==> finished == old(finished)
      ensures var m := old(controllerQueue[0]);
        m.IsContinuousOutcome() || m.RestartPreview? ==> shutterClickable == old(shutterClickable)
    {
      var m := controllerQueue[0];
      CountContinuousOutcomesPop(controllerQueue);
      controllerQueue := controllerQueue[1..];
      match m
      case RestartPreview =>
        RestartOcrPreview();
      case ContinuousDecodeFailed(_) =>
        decodePending := false;
        lastResult := None;
        if state == State.Continuous {
          RestartOcrPreviewAndDecode();
        }
      case ContinuousDecodeSucceeded(r) =>
        decodePending := false;
        HandleOcrContinuousDecode(r, canonical);
        if state == State.Continuous {
          RestartOcrPreviewAndDecode();
        }
      case DecodeSucceeded(r) =>
        state := Success;
        shutterClickable := true;
        var _ := HandleOcrDecode(r);
      case DecodeFailed =>
        state := Preview;
        shutterClickable := true;
    }

    /** The camera hands a preview frame to the request armed, if any; the
        request is consumed and the frame queued for the worker. */
    method DeliverFrame()
      requires Valid()
      modifies this`workerQueue, cam`armed
      ensures Valid()
      ensures cam.armed.None?
      ensures workerQueue == old(workerQueue) + (if old(cam.armed).Some? then [Frame(old(cam.armed).value)] else [])
    {
      var kind := cam.DeliverPreviewFrame();
      if kind.Some? {
        workerQueue := workerQueue + [Frame(kind.value)];
      }
    }

    /** `ocrContinuousDecode` once the latch is set: crop the frame to the
        framing rectangle, run recognition (`run` says what the engine does)
        and post exactly one outcome. A continuous job finds no crop only
        after the camera was closed, and then the crop throws; nothing catches
        the exception, so the worker's thread ends and the platform's default
        handler kills the app. */
    method OcrContinuousDecode(run: EngineRun) returns (crashed: bool)
      requires Valid()
      modifies this`running, this`controllerQueue, this`state, this`timeRequired, this`engineHoldsImage
      modifies this`finished, cam`framingRect, cam`framingRectInPreview
      ensures Valid()
      ensures crashed <==> !old(cam.cameraOpen) && old(cam.framingRectInPreview).None?
      ensures finished == if crashed then Some(ProcessKilled) else old(finished)
      ensures cam.framingRect == old(cam.CurrentFramingRect())
      ensures old(cam.framingRectInPreview).Some? ==> cam.framingRectInPreview == old(cam.framingRectInPreview)
      ensures !crashed <==> cam.framingRectInPreview.Some?
      ensures crashed ==>
        !running && controllerQueue == old(controllerQueue) && state == old(state)
        && timeRequired == old(timeRequired) && engineHoldsImage == old(engineHoldsImage)
      ensures !crashed ==>
        var job := ContinuousJob(true, run, true, old(timeRequired), old(engineHoldsImage));
        && running == old(running)
        && (job.stopRequested ==>
              state == ContinuousPaused
              && controllerQueue == WithoutContinuousOutcomes(old(controllerQueue)) + job.posted
              && CountContinuousOutcomes(controllerQueue) == 1)
        && (!job.stopRequested ==>
              state == old(state) && controllerQueue == old(controllerQueue) + job.posted
              && CountContinuousOutcomes(controllerQueue) == CountContinuousOutcomes(old(controllerQueue)) + 1)
        && timeRequired == job.timeRequired && engineHoldsImage == job.engineHoldsImage
    {
      var crop := cam.BuildLuminanceSource();
      if crop.None? {
        running := false;
        finished := Some(ProcessKilled);
        return true;
      }
      var job := ContinuousJob(true, run, true, timeRequired, engineHoldsImage);
      if job.stopRequested {
        // The engine threw: `getOcrResult` asks the controller to stop
        // before the failure is posted.
        Stop();
      }
      CountContinuousOutcomesAppend(controllerQueue, job.posted[0]);
      assert job.posted == [job.posted[0]];
      controllerQueue := controllerQueue + job.posted;
      timeRequired := job.timeRequired;
      engineHoldsImage := job.engineHoldsImage;
      crashed := false;
    }

    /** The worker handles the message at the head of its queue. A stopped
        worker ignores everything; a continuous request is dropped while the
        latch is set and otherwise sets it and runs one job; a single-shot
        request starts a recognition task without looking at the latch; a
        quit message stops the worker. */
    method HandleWorkerMessage(run: EngineRun) returns (step: WorkerStep)
      requires Valid() && workerQueue != []
      modifies this`workerQueue, this`running, this`decodePending, this`controllerQueue
      modifies this`state, this`timeRequired, this`engineHoldsImage, this`recognitionTasks
      modifies this`finished, cam`framingRect, cam`framingRectInPreview
      ensures Valid()
      ensures workerQueue == old(workerQueue[1..])
      ensures finished == if step == Crashed then Some(ProcessKilled) else old(finished)
      ensures old(decodePending) ==> decodePending
      ensures step == Ignored <==> !old(running)
      ensures step == Dropped <==> old(running) && old(workerQueue[0]) == Frame(RequestKind.Continuous) && old(decodePending)
      ensures step == Recognizing <==> old(running) && old(workerQueue[0]) == Frame(SingleShot)
      ensures step == Stopped <==> old(running) && old(workerQueue[0]) == Quit
      ensures step in {Ignored, Dropped, Recognizing, Stopped} ==>
        decodePending == old(decodePending) && controllerQueue == old(controllerQueue) && state == old(state)
        && unchanged(cam)
      ensures step in {Ignored, Dropped, Recognizing} ==> running == old(running)
      ensures step == Stopped ==> !running
      ensures recognitionTasks == old(recognitionTasks) + (if step == Recognizing then 1 else 0)
      ensures step in {Decoded, Crashed} ==>
        old(running) && old(workerQueue[0]) == Frame(RequestKind.Continuous) && !old(decodePending) && decodePending
      ensures step == Crashed <==> step in {Decoded, Crashed} && !old(cam.cameraOpen) && old(cam.framingRectInPreview).None?
      ensures step == Crashed ==> !running && controllerQueue == old(controllerQueue) && state == old(state)
      ensures step != Decoded ==> timeRequired == old(timeRequired) && engineHoldsImage == old(engineHoldsImage)
      ensures step in {Decoded, Crashed} ==>
        cam.framingRect == old(cam.CurrentFramingRect())
        && (old(cam.framingRectInPreview).Some? ==> cam.framingRectInPreview == old(cam.framingRectInPreview))
        && (step == Decoded <==> cam.framingRectInPreview.Some?)
      ensures step == Decoded ==>
        var job := ContinuousJob(true, run, true, old(timeRequired), old(engineHoldsImage));
        && running
        && controllerQueue == (if job.stopRequested then WithoutContinuousOutcomes(old(controllerQueue)) else old(controllerQueue)) + job.posted
        && state == (if job.stopRequested then ContinuousPaused else old(state))
        && timeRequired == job.timeRequired && engineHoldsImage == job.engineHoldsImage
      ensures old(Guarded()) ==> Guarded()
    {
      var m := workerQueue[0];
      workerQueue := workerQueue[1..];
      if !running {
        return Ignored;
      }
      match m
      case Frame(kind) =>
        if kind == SingleShot {
          recognitionTasks := recognitionTasks + 1;
          return Recognizing;
        }
        if decodePending {
          return Dropped;
        }
        decodePending := true;
        var crashed := OcrContinuousDecode(run);
        step := if crashed then Crashed else Decoded;
      case Quit =>
        running := false;
        step := Stopped;
    }

    /** A single-shot recognition task finishes and posts its outcome. The
        task itself is not part of this model; `result` is what it found. */
    method CompleteRecognition(result: Option<OcrResult>)
      requires recognitionTasks > 0
      modifies this`recognitionTasks, this`controllerQueue
      ensures recognitionTasks == old(recognitionTasks) - 1
      ensures controllerQueue == old(controllerQueue) +
        [if result.Some? then DecodeSucceeded(result.value) else DecodeFailed]
      ensures old(Guarded()) ==> Guarded()
    {
      var msg := if result.Some? then DecodeSucceeded(result.value) else DecodeFailed;
      CountContinuousOutcomesAppend(controllerQueue, msg);
      recognitionTasks := recognitionTasks - 1;
      controllerQueue := controllerQueue + [msg];
    }

    /** `resumeContinuousDecoding`: unpause, forget the cached result, clear
        the latch and reset the controller. This is the only place the latch
        is cleared other than a continuous outcome, and it clears it even
        when an outcome is still queued. */
    method ResumeContinuousDecoding()
      requires Valid()
      modifies this`isPaused, this`lastResult, this`decodePending, this`state
      modifies cam`previewing, cam`armed, cam`autoFocusRunning
      ensures Valid()
      ensures !isPaused && lastResult.None? && !decodePending
      ensures state == if old(state) == ContinuousPaused then State.Continuous else old(state)
      ensures old(state) == ContinuousPaused ==>
        PreviewRestartedAndArmed()
      ensures old(state) != ContinuousPaused ==> unchanged(cam)
      ensures Guarded() <==> CountContinuousOutcomes(controllerQueue) == 0
    {
      isPaused := false;
      lastResult := None;
      decodePending := false;
      ResetState();
    }

    /** `onShutterButtonPressContinuous`: pause and stop the controller; show
        the cached result if there is one, otherwise resume at once. */
    method OnShutterButtonPressContinuous() returns (shown: bool)
      requires Valid()
      modifies this`isPaused, this`lastResult, this`decodePending, this`state, this`controllerQueue
      modifies cam`previewing, cam`armed, cam`autoFocusRunning
      ensures Valid()
      ensures controllerQueue == WithoutContinuousOutcomes(old(controllerQueue)) && Guarded()
      ensures old(lastResult).Some? ==>
        isPaused && state == ContinuousPaused && lastResult == old(lastResult)
        && decodePending == old(decodePending) && unchanged(cam)
        && (shown <==> old(lastResult).value.text != "")
      ensures old(lastResult).None? ==>
        !isPaused && state == State.Continuous && lastResult.None? && !decodePending && !shown
        && PreviewRestartedAndArmed()
    {
      isPaused := true;
      Stop();
      if lastResult.Some? {
        shown := HandleOcrDecode(lastResult.value);
      } else {
        ResumeContinuousDecoding();
        shown := false;
      }
    }

    /** `onShutterButtonClick`. */
    method OnShutterButtonClick()
      requires Valid()
      modifies this`isPaused, this`lastResult, this`decodePending, this`state, this`controllerQueue
      modifies this`shutterClickable, cam`previewing, cam`armed, cam`autoFocusRunning
      ensures Valid()
      ensures old(Guarded()) ==> Guarded()
      ensures continuousMode ==>
        controllerQueue == WithoutContinuousOutcomes(old(controllerQueue)) && Guarded()
        && shutterClickable == old(shutterClickable)
      ensures continuousMode && old(lastResult).Some? ==>
        isPaused && state == ContinuousPaused && lastResult == old(lastResult)
        && decodePending == old(decodePending) && unchanged(cam)
      ensures continuousMode && old(lastResult).None? ==>
        !isPaused && state == State.Continuous && lastResult.None? && !decodePending
        && PreviewRestartedAndArmed()
      ensures !continuousMode ==>
        !shutterClickable && state == PreviewPaused && controllerQueue == old(controllerQueue)
        && decodePending == old(decodePending) && isPaused == old(isPaused) && lastResult == old(lastResult)
        && cam.previewing == old(cam.previewing) && cam.autoFocusRunning == old(cam.autoFocusRunning)
        && cam.armed == if cam.cameraOpen && cam.previewing then Some(SingleShot) else old(cam.armed)
    {
      if continuousMode {
        var _ := OnShutterButtonPressContinuous();
      } else {
        ShutterButtonClick();
      }
    }

    /** `onKeyDown`: BACK resumes when paused, cancels the screen when
        nothing is cached, and otherwise forgets the cached result and asks
        the controller to restart the preview; CAMERA acts as the shutter;
        the first FOCUS event of a press asks for autofocus, which kills the
        app when no autofocus manager exists; other keys are not handled. */
    method OnKeyDown(key: Key) returns (handled: bool)
      requires Valid()
      modifies this`isPaused, this`lastResult, this`decodePending, this`state, this`controllerQueue
      modifies this`finished, cam`previewing, cam`armed, cam`autoFocusRunning
      ensures Valid()
      ensures handled <==> key != OtherKey
      ensures key == OtherKey ==> unchanged(this) && unchanged(cam)
      ensures key.FocusKey? ==>
        unchanged(cam) && isPaused == old(isPaused) && lastResult == old(lastResult)
        && decodePending == old(decodePending) && state == old(state) && controllerQueue == old(controllerQueue)
        && finished == if key.repeatCount == 0 && !cam.autoFocusRunning then Some(ProcessKilled) else old(finished)
      ensures key == BackKey && old(isPaused) ==>
        !isPaused && lastResult.None? && !decodePending && controllerQueue == old(controllerQueue)
        && finished == old(finished)
        && state == (if old(state) == ContinuousPaused then State.Continuous else old(state))
      ensures key == BackKey && old(isPaused) && old(state) == ContinuousPaused ==>
        PreviewRestartedAndArmed()
      ensures key == BackKey && old(isPaused) && old(state) != ContinuousPaused ==> unchanged(cam)
      ensures key == BackKey && !old(isPaused) ==>
        unchanged(cam) && isPaused == old(isPaused) && state == old(state) && decodePending == old(decodePending)
      ensures key == BackKey && !old(isPaused) && old(lastResult).None? ==>
        finished == Some(Canceled) && controllerQueue == old(controllerQueue) && lastResult == old(lastResult)
      ensures key == BackKey && !old(isPaused) && old(lastResult).Some? ==>
        lastResult.None? && controllerQueue == old(controllerQueue) + [RestartPreview] && finished == old(finished)
      ensures key == CameraKey ==> finished == old(finished)
      ensures key == CameraKey && continuousMode ==>
        controllerQueue == WithoutContinuousOutcomes(old(controllerQueue)) && Guarded()
      ensures key == CameraKey && continuousMode && old(lastResult).Some? ==>
        isPaused && state == ContinuousPaused && lastResult == old(lastResult)
        && decodePending == old(decodePending) && unchanged(cam)
      ensures key == CameraKey && continuousMode && old(lastResult).None? ==>
        !isPaused && state == State.Continuous && lastResult.None? && !decodePending
        && PreviewRestartedAndArmed()
      ensures key == CameraKey && !continuousMode ==>
        state == (if old(state) == Preview then PreviewPaused else old(state))
        && controllerQueue == old(controllerQueue) && decodePending == old(decodePending)
        && isPaused == old(isPaused) && lastResult == old(lastResult)
        && cam.previewing == old(cam.previewing) && cam.autoFocusRunning == old(cam.autoFocusRunning)
      ensures key == CameraKey && !continuousMode && old(state) == Preview ==>
        cam.armed == if cam.cameraOpen && cam.previewing then Some(SingleShot) else old(cam.armed)
      ensures key == CameraKey && !continuousMode && old(state) != Preview ==> unchanged(cam)
      ensures key != BackKey || !old(isPaused) ==> old(Guarded()) ==> Guarded()
    {
      match key
      case BackKey =>
        if isPaused {
          ResumeContinuousDecoding();
        } else if lastResult.None? {
          finished := Some(Canceled);
        } else {
          lastResult := None;
          CountContinuousOutcomesAppend(controllerQueue, RestartPreview);
          controllerQueue := controllerQueue + [RestartPreview];
        }
        handled := true;
      case CameraKey =>
        if continuousMode {
          var _ := OnShutterButtonPressContinuous();
        } else {
          HardwareShutterButtonClick();
        }
        handled := true;
      case FocusKey(repeatCount) =>
        if repeatCount == 0 {
          var crashed := cam.RequestAutoFocus();
          if crashed {
            finished := Some(ProcessKilled);
          }
        }
        handled := true;
      case OtherKey =>
        handled := false;
    }

    /** `onPause`: quit the controller, then close the camera. The latch and
        both queues are left as they are. */
    method OnPause()
      requires Valid()
      modifies this`state, cam`previewing, cam`armed, cam`autoFocusRunning
      modifies cam`cameraOpen, cam`framingRect, cam`framingRectInPreview
      ensures Valid()
      ensures state == Done && !cam.cameraOpen && cam.armed.None? && !cam.autoFocusRunning
      ensures cam.previewing == (old(cam.previewing) && !old(cam.cameraOpen))
      ensures cam.framingRect.None? && cam.framingRectInPreview.None?
    {
      QuitSynchronously();
      cam.CloseDriver();
    }
  }

  /** Clearing the latch on resume while an outcome is still queued breaks
      the single-file guarantee: from a running continuous session with a
      cached result, pausing, letting the worker finish a job, pressing BACK
      and letting it finish the next one leaves two continuous outcomes
      waiting for the controller. */
  method BackWhilePausedQueuesTwoOutcomes(s: Session, run: EngineRun)
    requires s.Valid() && s.cam.cameraOpen && s.cam.previewing && s.running && s.continuousMode
    requires s.state == State.Continuous && s.cam.armed == Some(RequestKind.Continuous)
    requires s.lastResult.Some? && !s.isPaused && !s.decodePending
    requires s.controllerQueue == [] && s.workerQueue == []
    requires run.Read?
    modifies s, s.cam
    ensures CountContinuousOutcomes(s.controllerQueue) == 2 && !s.Guarded()
    ensures s.state == State.Continuous && s.decodePending
  {
    PauseDecodeAndResume(s, run);
    var first := s.controllerQueue;
    s.DeliverFrame();
    var step := s.HandleWorkerMessage(run);
    assert step == Decoded;
    CountContinuousOutcomesAppend(first, s.controllerQueue[|first|]);
    assert s.controllerQueue == first + [s.controllerQueue[|first|]];
  }

  /** The first half of the scenario: a frame is taken, the shutter pauses
      the session, the worker finishes the job, and BACK resumes with the
      outcome still queued and the latch cleared. */
  method PauseDecodeAndResume(s: Session, run: EngineRun)
    requires s.Valid() && s.cam.cameraOpen && s.cam.previewing && s.running && s.continuousMode
    requires s.state == State.Continuous && s.cam.armed == Some(RequestKind.Continuous)
    requires s.lastResult.Some? && !s.isPaused && !s.decodePending
    requires s.controllerQueue == [] && s.workerQueue == []
    requires run.Read?
    modifies s, s.cam
    ensures s.Valid() && s.cam.cameraOpen && s.running
    ensures s.state == State.Continuous && s.cam.armed == Some(RequestKind.Continuous)
    ensures !s.decodePending && s.workerQueue == []
    ensures CountContinuousOutcomes(s.controllerQueue) == 1
  {
    s.DeliverFrame();
    var shown := s.OnShutterButtonPressContinuous();
    var step := s.HandleWorkerMessage(run);
    assert step == Decoded;
    assert CountContinuousOutcomes(s.controllerQueue) == 1;
    var handled := s.OnKeyDown(BackKey);
  }
}
