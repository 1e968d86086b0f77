/** The messages exchanged between the camera's preview callback, the decode
    worker and the controller, and the queue operations the controller
    applies to its own message queue. */
module Messages {

  /** What an armed preview frame is sent as: a single-shot decode
      (`R.id.ocr_decode`) or a continuous decode (`R.id.ocr_continuous_decode`). */
  datatype RequestKind = SingleShot | Continuous

  /** A recognition result: the text (a null text is the empty string here),
      the engine's mean confidence and the elapsed recognition time. */
  datatype OcrResult = OcrResult(text: string, meanConfidence: int, recognitionTime: int)

  /** Messages handled by the decode worker. */
  datatype WorkerMsg = Frame(kind: RequestKind) | Quit

  /** Messages handled by the controller. */
  datatype ControllerMsg =
    | RestartPreview
    | ContinuousDecodeFailed(timeRequired: int)
    | ContinuousDecodeSucceeded(result: OcrResult)
    | DecodeSucceeded(result: OcrResult)
    | DecodeFailed
  {
    /** The outcome of a continuous job, which `stop()` removes from the queue. */
    predicate IsContinuousOutcome() { ContinuousDecodeFailed? || ContinuousDecodeSucceeded? }
  }

  /** The queue after `removeMessages` of both continuous outcome kinds. */
  function WithoutContinuousOutcomes(q: seq<ControllerMsg>): (r: seq<ControllerMsg>)
    ensures |r| <= |q|
    ensures forall m :: m in r <==> m in q && !m.IsContinuousOutcome()
  {
    if q == [] then []
    else if q[0].IsContinuousOutcome() then WithoutContinuousOutcomes(q[1..])
    else [q[0]] + WithoutContinuousOutcomes(q[1..])
  }

  /** How many continuous outcomes wait in the queue. */
  function CountContinuousOutcomes(q: seq<ControllerMsg>): nat
  {
    if q == [] then 0
    else (if q[0].IsContinuousOutcome() then 1 else 0) + CountContinuousOutcomes(q[1..])
  }

  /** Removal distributes over concatenation, so the remaining messages keep
      their order. */
  lemma {:induction false} WithoutContinuousOutcomesAppend(a: seq<ControllerMsg>, b: seq<ControllerMsg>)
    ensures WithoutContinuousOutcomes(a + b) == WithoutContinuousOutcomes(a) + WithoutContinuousOutcomes(b)
  {
    if a == [] {
      assert a + b == b;
    } else {
      assert (a + b)[0] == a[0] && (a + b)[1..] == a[1..] + b;
      WithoutContinuousOutcomesAppend(a[1..], b);
    }
  }

  /** Removing twice is removing once; no continuous outcome survives, and
      each message removed is one of them. */
  lemma {:induction false} WithoutContinuousOutcomesIdempotent(q: seq<ControllerMsg>)
    ensures WithoutContinuousOutcomes(WithoutContinuousOutcomes(q)) == WithoutContinuousOutcomes(q)
    ensures CountContinuousOutcomes(WithoutContinuousOutcomes(q)) == 0
    ensures |WithoutContinuousOutcomes(q)| + CountContinuousOutcomes(q) == |q|
  {
    if q != [] {
      WithoutContinuousOutcomesIdempotent(q[1..]);
      var rest := WithoutContinuousOutcomes(q[1..]);
      if !q[0].IsContinuousOutcome() {
        assert ([q[0]] + rest)[0] == q[0] && ([q[0]] + rest)[1..] == rest;
      }
    }
  }

  /** Appending one message adds one to the count exactly when it is a
      continuous outcome. */
  lemma {:induction false} CountContinuousOutcomesAppend(q: seq<ControllerMsg>, m: ControllerMsg)
    ensures CountContinuousOutcomes(q + [m]) == CountContinuousOutcomes(q) + (if m.IsContinuousOutcome() then 1 else 0)
  {
    if q != [] {
      assert (q + [m])[0] == q[0] && (q + [m])[1..] == q[1..] + [m];
      CountContinuousOutcomesAppend(q[1..], m);
    } else {
      assert [m][1..] == [];
    }
  }

  /** Taking the first message off the queue removes one continuous outcome
      exactly when that message is one. */
  lemma CountContinuousOutcomesPop(q: seq<ControllerMsg>)
    requires q != []
    ensures CountContinuousOutcomes(q[1..]) == CountContinuousOutcomes(q) - (if q[0].IsContinuousOutcome() then 1 else 0)
  {
  }
}
