/** The touch listener on the viewfinder: it remembers the previous pointer
    position and turns each move into at most one framing-rectangle resize. */
module FramingTouch {
  import opened Wrappers
  import opened Geometry
  import opened CaptureRules
  import opened CameraDriver

  datatype TouchAction = Down | Move | Up | OtherAction

  class FramingDrag {
    const cam: CameraManager
    var lastX: int
    var lastY: int

    constructor (cam: CameraManager)
      ensures this.cam == cam && lastX == -1 && lastY == -1
    {
      this.cam := cam;
      lastX, lastY := -1, -1;
    }

    /** `onTouch`: a press or release forgets the previous position; a move
        fetches the framing rectangle (caching the default one), resizes it
        by `DragDelta` when that asks for a resize, and remembers the new
        position. Other actions are not handled. */
    method OnTouch(action: TouchAction, x: int, y: int) returns (handled: bool)
      requires cam.Valid()
      modifies this`lastX, this`lastY, cam`framingRect, cam`framingRectInPreview
      modifies cam`requestedWidth, cam`requestedHeight
      ensures cam.Valid()
      ensures cam.requestedWidth == old(cam.requestedWidth) && cam.requestedHeight == old(cam.requestedHeight)
      ensures handled <==> action != OtherAction
      ensures action == Down || action == Up ==>
        lastX == -1 && lastY == -1 && unchanged(cam)
      ensures action == OtherAction ==> unchanged(this) && unchanged(cam)
      ensures action == Move ==> lastX == x && lastY == y
      ensures action == Move ==>
        var rect := old(cam.CurrentFramingRect());
        var delta := if rect.Some? then DragDelta(rect.value, old(lastX), old(lastY), x, y) else None;
        if delta.Some? then
          cam.framingRect == Some(AdjustRect(rect.value, delta.value.0, delta.value.1, cam.config.screenResolution.value))
          && cam.framingRectInPreview.None?
        else
          cam.framingRect == rect
          && (old(cam.framingRect).Some? ==> cam.framingRectInPreview == old(cam.framingRectInPreview))
    {
      match action
      case Down =>
        lastX, lastY := -1, -1;
        handled := true;
      case Up =>
        lastX, lastY := -1, -1;
        handled := true;
      case Move =>
        var rect := cam.GetFramingRect();
        if rect.Some? && lastX >= 0 {
          var delta := DragDelta(rect.value, lastX, lastY, x, y);
          if delta.Some? {
            var outcome := cam.AdjustFramingRect(delta.value.0, delta.value.1);
            assert outcome == Adjusted;
          }
        }
        lastX, lastY := x, y;
        handled := true;
      case OtherAction =>
        handled := false;
    }
  }
}
