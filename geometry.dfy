/** Framing-rectangle arithmetic of the camera manager: the default region of
    interest, its resizing by drag deltas and its projection into camera
    coordinates. All divisions are Java `int` divisions, which truncate toward
    zero; `JavaDiv` spells that out because Dafny's `/` is Euclidean. */
module Geometry {

  datatype Point = Point(x: int, y: int)

  datatype Rect = Rect(left: int, top: int, right: int, bottom: int) {
    function Width(): int { right - left }
    function Height(): int { bottom - top }
  }

  const MinFrameWidth := 50
  const MinFrameHeight := 20
  /** Smallest size `adjustFramingRect` lets either side shrink to. */
  const MinAdjustedSide := 50
  /** `adjustFramingRect` keeps each side at most the screen size minus this. */
  const ScreenMargin := 4

  function Abs(n: int): nat { if n < 0 then -n else n }

  function Max(a: int, b: int): int { if a < b then b else a }

  /** Java's `a / b` for a positive divisor: the quotient truncated toward zero. */
  function JavaDiv(a: int, b: int): int
    requires b > 0
  {
    if a >= 0 then a / b else -((-a) / b)
  }

  /** Truncating division rounds toward zero from either side, and is
      symmetric around zero, unlike Euclidean division. */
  lemma JavaDivTruncates(a: int, b: int)
    requires b > 0
    ensures 0 <= a ==> 0 <= JavaDiv(a, b) && JavaDiv(a, b) * b <= a < JavaDiv(a, b) * b + b
    ensures a < 0 ==> JavaDiv(a, b) <= 0 && JavaDiv(a, b) * b - b < a <= JavaDiv(a, b) * b
    ensures JavaDiv(-a, b) == -JavaDiv(a, b)
  {
    var n := if a >= 0 then a else -a;
    var q := n / b;
    var qb := q * b;
    assert qb <= n < qb + b by { EuclideanDivision(n, b); }
    assert 0 <= q by {
      if q < 0 { MulMonotone(q, -1, b); }
    }
    if a >= 0 {
      assert JavaDiv(a, b) == q;
      assert JavaDiv(a, b) * b == qb;
    } else {
      assert JavaDiv(a, b) == -q;
      assert JavaDiv(a, b) * b == -qb;
    }
    if a > 0 {
      assert JavaDiv(-a, b) == -q;
    } else {
      assert -a == n && JavaDiv(-a, b) == q;
    }
  }

  lemma MulMonotone(x: int, y: int, d: int)
    requires x <= y && d >= 0
    ensures x * d <= y * d
  {
    assert (y - x) * d >= 0;
  }

  lemma EuclideanDivision(a: int, d: int)
    requires d > 0
    ensures a == (a / d) * d + a % d && 0 <= a % d < d
  {
  }

  /** Multiplying by a positive divisor and dividing again gives the factor back. */
  lemma MulDivCancel(c: int, s: int)
    requires s > 0
    ensures (c * s) / s == c
  {
    var q := (c * s) / s;
    EuclideanDivision(c * s, s);
    assert (c - q) * s == (c * s) % s;
    if c - q <= -1 { MulMonotone(c - q, -1, s); }
    if c - q >= 1 { MulMonotone(1, c - q, s); }
  }

  /** Rectangle of the given size whose offsets are half the leftover space. */
  function Centered(screen: Point, w: int, h: int): (r: Rect)
    ensures r.Width() == w && r.Height() == h
    ensures -1 <= (screen.x - r.right) - r.left <= 1
    ensures -1 <= (screen.y - r.bottom) - r.top <= 1
    ensures w <= screen.x ==> 0 <= r.left && r.right <= screen.x
    ensures h <= screen.y ==> 0 <= r.top && r.bottom <= screen.y
  {
    var left := JavaDiv(screen.x - w, 2);
    var top := JavaDiv(screen.y - h, 2);
    Rect(left, top, left + w, top + h)
  }

  /** The framing rectangle is centred: it is what `Centered` builds for its own size. */
  predicate IsCentered(r: Rect, screen: Point)
  {
    r == Centered(screen, r.Width(), r.Height())
  }

  /** What `getFramingRect` caches on first use: full screen width (at least
      50), a quarter of the screen height (at least 20), centred. */
  function DefaultFramingRect(screen: Point): (r: Rect)
    ensures r.Width() == Max(screen.x, MinFrameWidth)
    ensures r.Height() == Max(JavaDiv(screen.y, 4), MinFrameHeight)
    ensures IsCentered(r, screen)
  {
    Centered(screen, Max(screen.x, MinFrameWidth), Max(JavaDiv(screen.y, 4), MinFrameHeight))
  }

  /** On a screen of at least 50x80 the default rectangle lies inside the screen. */
  lemma DefaultFramingRectInside(screen: Point)
    requires screen.x >= MinFrameWidth && screen.y >= 4 * MinFrameHeight
    ensures var r := DefaultFramingRect(screen);
      0 <= r.left && r.right == screen.x && 0 <= r.top <= r.bottom <= screen.y
      && r.left == 0 && r.Width() == screen.x && r.Height() == screen.y / 4
  {
    var r := DefaultFramingRect(screen);
    assert JavaDiv(screen.y, 4) == screen.y / 4;
    assert screen.y / 4 >= MinFrameHeight;
    assert r.Height() == screen.y / 4;
    assert r.Width() == screen.x;
  }

  /** A delta is accepted on one axis when the new side stays in [50, limit - 4]. */
  predicate SideAccepted(side: int, delta: int, limit: int)
  {
    MinAdjustedSide <= side + delta <= limit - ScreenMargin
  }

  /** `adjustFramingRect` once initialized: each axis applies its delta only
      when the result stays within bounds, then the rectangle is re-centred. */
  function AdjustRect(r: Rect, dW: int, dH: int, screen: Point): Rect
  {
    var dw := if SideAccepted(r.Width(), dW, screen.x) then dW else 0;
    var dh := if SideAccepted(r.Height(), dH, screen.y) then dH else 0;
    Centered(screen, r.Width() + dw, r.Height() + dh)
  }

  /** Each axis either takes its delta (exactly when the result is in bounds)
      or keeps its size; the result is always centred. */
  lemma AdjustRectAxes(r: Rect, dW: int, dH: int, screen: Point)
    ensures var a := AdjustRect(r, dW, dH, screen);
      && (a.Width() == r.Width() + dW <==> SideAccepted(r.Width(), dW, screen.x) || dW == 0)
      && (a.Height() == r.Height() + dH <==> SideAccepted(r.Height(), dH, screen.y) || dH == 0)
      && (a.Width() == r.Width() || MinAdjustedSide <= a.Width() <= screen.x - ScreenMargin)
      && (a.Height() == r.Height() || MinAdjustedSide <= a.Height() <= screen.y - ScreenMargin)
      && IsCentered(a, screen)
  {
  }

  /** A rejected (or zero) delta on both axes leaves a centred rectangle as it is. */
  lemma AdjustRectRejectedIsIdentity(r: Rect, dW: int, dH: int, screen: Point)
    requires IsCentered(r, screen)
    requires !SideAccepted(r.Width(), dW, screen.x) || dW == 0
    requires !SideAccepted(r.Height(), dH, screen.y) || dH == 0
    ensures AdjustRect(r, dW, dH, screen) == r
  {
  }

  /** The default rectangle already spans the whole screen width, so any width
      delta above -4 (growth by 4000 pixels, say) is rejected and the
      rectangle does not change. */
  lemma DefaultWidthGrowthRejected(screen: Point, dW: int)
    requires screen.x >= MinFrameWidth && dW > -ScreenMargin
    ensures AdjustRect(DefaultFramingRect(screen), dW, 0, screen) == DefaultFramingRect(screen)
  {
    var r := DefaultFramingRect(screen);
    assert !SideAccepted(r.Width(), dW, screen.x);
    AdjustRectRejectedIsIdentity(r, dW, 0, screen);
  }

  /** Applies a whole drag's worth of deltas, one call at a time. */
  function AdjustAll(r: Rect, deltas: seq<(int, int)>, screen: Point): Rect
    decreases |deltas|
  {
    if deltas == [] then r
    else AdjustAll(AdjustRect(r, deltas[0].0, deltas[0].1, screen), deltas[1..], screen)
  }

  /** However many deltas are applied, each side keeps its starting size or
      lies within [50, screen - 4]; the rectangle stays centred unless nothing
      was applied. */
  lemma {:induction false} AdjustAllBounded(r: Rect, deltas: seq<(int, int)>, screen: Point)
    ensures var a := AdjustAll(r, deltas, screen);
      && (a.Width() == r.Width() || MinAdjustedSide <= a.Width() <= screen.x - ScreenMargin)
      && (a.Height() == r.Height() || MinAdjustedSide <= a.Height() <= screen.y - ScreenMargin)
      && (deltas != [] ==> IsCentered(a, screen))
    decreases |deltas|
  {
    if deltas != [] {
      var next := AdjustRect(r, deltas[0].0, deltas[0].1, screen);
      AdjustRectAxes(r, deltas[0].0, deltas[0].1, screen);
      AdjustAllBounded(next, deltas[1..], screen);
      if deltas[1..] == [] {
        assert AdjustAll(r, deltas, screen) == next;
      }
    }
  }

  /** `getFramingRectInPreview`: every edge multiplied by the camera size and
      divided (truncating) by the screen size, per axis. */
  function ProjectRect(r: Rect, camera: Point, screen: Point): Rect
    requires screen.x > 0 && screen.y > 0
  {
    Rect(JavaDiv(r.left * camera.x, screen.x), JavaDiv(r.top * camera.y, screen.y),
         JavaDiv(r.right * camera.x, screen.x), JavaDiv(r.bottom * camera.y, screen.y))
  }

  lemma JavaDivMonotone(a: int, b: int, d: int)
    requires d > 0 && 0 <= a <= b
    ensures JavaDiv(a, d) <= JavaDiv(b, d)
  {
    EuclideanDivision(a, d);
    EuclideanDivision(b, d);
    if b / d + 1 <= a / d { MulMonotone(b / d + 1, a / d, d); }
  }

  /** One coordinate in [0, s] maps into [0, c], order-preserving. */
  lemma ScaleCoordinate(a: int, b: int, c: int, s: int)
    requires s > 0 && c >= 0 && 0 <= a <= b <= s
    ensures 0 <= JavaDiv(a * c, s) <= JavaDiv(b * c, s) <= c
  {
    var ac, bc, cs := a * c, b * c, c * s;
    MulMonotone(0, a, c);
    MulMonotone(a, b, c);
    MulMonotone(b, s, c);
    assert 0 <= ac <= bc <= cs;
    JavaDivMonotone(ac, bc, s);
    JavaDivMonotone(bc, cs, s);
    MulDivCancel(c, s);
    assert JavaDiv(cs, s) == c;
  }

  /** A rectangle inside the screen projects to one inside the camera frame,
      with its edges in the same order. */
  lemma ProjectRectInside(r: Rect, camera: Point, screen: Point)
    requires screen.x > 0 && screen.y > 0 && camera.x >= 0 && camera.y >= 0
    requires 0 <= r.left <= r.right <= screen.x && 0 <= r.top <= r.bottom <= screen.y
    ensures var p := ProjectRect(r, camera, screen);
      0 <= p.left <= p.right <= camera.x && 0 <= p.top <= p.bottom <= camera.y
  {
    ScaleCoordinate(r.left, r.right, camera.x, screen.x);
    ScaleCoordinate(r.top, r.bottom, camera.y, screen.y);
  }

  /** When the camera resolution equals the screen's, projection is the identity. */
  lemma ProjectRectSameResolution(r: Rect, screen: Point)
    requires screen.x > 0 && screen.y > 0
    ensures ProjectRect(r, screen, screen) == r
  {
    CancelScale(r.left, screen.x);
    CancelScale(r.right, screen.x);
    CancelScale(r.top, screen.y);
    CancelScale(r.bottom, screen.y);
  }

  lemma CancelScale(a: int, s: int)
    requires s > 0
    ensures JavaDiv(a * s, s) == a
  {
    if a >= 0 {
      assert a * s >= 0;
      MulDivCancel(a, s);
    } else {
      assert a * s < 0 && -(a * s) == (-a) * s;
      MulDivCancel(-a, s);
    }
  }
}
