/** What one continuous decode job of the decode worker yields. The OCR
    engine, the image binarisation and the clock are outside the model: the
    engine run is an input saying what the engine did and at which elapsed
    times. */
module DecodeWorker {
  import opened Wrappers
  import opened Messages

  /** What the engine did during `getOcrResult`. */
  datatype EngineRun =
    /** A RuntimeException; `elapsedIfRead` is the elapsed time when it came
        after the text was read (so the first time measurement was taken). */
    | Threw(elapsedIfRead: Option<int>)
    /** The engine returned `text` (absent for Java `null`) with the given
        mean confidence; the elapsed time was taken right after the text was
        read and again at the end. */
    | Read(text: Option<string>, meanConfidence: int, elapsedAtRead: int, elapsedAtEnd: int)

  /** `getOcrResult`: the result (absent for `null`), the new value of the
      worker's `timeRequired` field, and whether the controller was asked to
      stop. */
  datatype Recognition = Recognition(result: Option<OcrResult>, timeRequired: int, stopRequested: bool)

  function GetOcrResult(run: EngineRun, timeRequired: int): (r: Recognition)
    ensures r.result.Some? <==> run.Read? && run.text.Some? && run.text.value != ""
    ensures r.result.Some? ==>
      && r.result.value.text == run.text.value
      && r.result.value.meanConfidence == run.meanConfidence
      && r.result.value.recognitionTime == r.timeRequired == run.elapsedAtEnd
    ensures r.stopRequested <==> run.Threw?
    ensures run.Read? && r.result.None? ==> r.timeRequired == run.elapsedAtRead
    ensures run.Threw? ==> r.timeRequired == (if run.elapsedIfRead.Some? then run.elapsedIfRead.value else timeRequired)
  {
    match run
    case Threw(t) =>
      Recognition(None, if t.Some? then t.value else timeRequired, true)
    case Read(text, conf, atRead, atEnd) =>
      if text.None? || text.value == "" then Recognition(None, atRead, false)
      else Recognition(Some(OcrResult(text.value, conf, atEnd)), atEnd, false)
  }

  /** The effects of one `ocrContinuousDecode` job: the messages posted to the
      controller, whether the controller was asked to stop, whether the
      engine still holds the image, and the worker's `timeRequired`. */
  datatype JobResult = JobResult(posted: seq<ControllerMsg>, stopRequested: bool, engineHoldsImage: bool, timeRequired: int)

  /** `ocrContinuousDecode`: no luminance source gives a failure carrying the
      stale time; otherwise recognition runs and, when the controller handler
      exists, its outcome is posted and the engine is cleared. */
  function ContinuousJob(sourceAvailable: bool, run: EngineRun, handlerPresent: bool,
                         timeRequired: int, engineHoldsImage: bool): (j: JobResult)
    ensures |j.posted| == (if handlerPresent then 1 else 0)
    ensures j.posted != [] ==> j.posted[0].IsContinuousOutcome()
    ensures j.posted != [] ==>
      (j.posted[0].ContinuousDecodeSucceeded? <==> sourceAvailable && run.Read? && run.text.Some? && run.text.value != "")
    ensures j.posted != [] && j.posted[0].ContinuousDecodeSucceeded? ==>
      j.posted[0].result == GetOcrResult(run, timeRequired).result.value
    ensures j.posted != [] && j.posted[0].ContinuousDecodeFailed? ==> j.posted[0].timeRequired == j.timeRequired
    ensures j.stopRequested <==> sourceAvailable && run.Threw?
    ensures !sourceAvailable ==> j.timeRequired == timeRequired && j.engineHoldsImage == engineHoldsImage
    ensures sourceAvailable ==> (j.engineHoldsImage <==> run.Read? && !handlerPresent)
  {
    if !sourceAvailable then
      JobResult(if handlerPresent then [ContinuousDecodeFailed(timeRequired)] else [],
                false, engineHoldsImage, timeRequired)
    else
      var rec := GetOcrResult(run, timeRequired);
      // A successful setImage leaves the image with the engine; the catch
      // block of getOcrResult clears it again.
      var held := run.Read?;
      if !handlerPresent then JobResult([], rec.stopRequested, held, rec.timeRequired)
      else if rec.result.None? then
        JobResult([ContinuousDecodeFailed(rec.timeRequired)], rec.stopRequested, false, rec.timeRequired)
      else
        JobResult([ContinuousDecodeSucceeded(rec.result.value)], rec.stopRequested, false, rec.timeRequired)
  }
}
