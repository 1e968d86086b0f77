/** Decision rules of the capture screen that do not depend on the user
    interface: the clean-up of continuous OCR text before MRZ validation and
    the gate in front of it, the result font size, the span between two
    tokens of the status line, the OCR engine mode check and the drag rule
    that turns pointer moves into framing-rectangle deltas. */
module CaptureRules {
  import opened Wrappers
  import opened Geometry

  // ---------------------------------------------------------------------
  // Splitting on newlines

  /** All pieces of `s` between newline characters, empty ones included. */
  function SplitLines(s: string): (r: seq<string>)
    ensures |r| >= 1
    ensures forall i :: 0 <= i < |r| ==> '\n' !in r[i]
    decreases |s|
  {
    if s == [] then [""]
    else if s[0] == '\n' then [""] + SplitLines(s[1..])
    else
      var rest := SplitLines(s[1..]);
      [[s[0]] + rest[0]] + rest[1..]
  }

  /** The pieces joined back with a newline between each two. */
  function JoinLines(pieces: seq<string>): string
    requires |pieces| >= 1
    decreases |pieces|
  {
    if |pieces| == 1 then pieces[0] else pieces[0] + "\n" + JoinLines(pieces[1..])
  }

  /** Joining the pieces gives the string back. */
  lemma {:induction false} JoinSplitLines(s: string)
    ensures JoinLines(SplitLines(s)) == s
    decreases |s|
  {
    if s != [] {
      JoinSplitLines(s[1..]);
      var rest := SplitLines(s[1..]);
      if s[0] == '\n' {
        assert ([""] + rest)[1..] == rest;
        assert s == [s[0]] + s[1..];
      } else {
        var r := [[s[0]] + rest[0]] + rest[1..];
        if |rest| == 1 {
          assert s == [s[0]] + s[1..];
        } else {
          assert r[1..] == rest[1..];
          assert JoinLines(rest) == rest[0] + "\n" + JoinLines(rest[1..]);
          assert s == [s[0]] + s[1..];
        }
      }
    }
  }

  /** Splitting a join of newline-free pieces gives the pieces back. */
  lemma {:induction false} SplitJoinLines(pieces: seq<string>)
    requires |pieces| >= 1
    requires forall i :: 0 <= i < |pieces| ==> '\n' !in pieces[i]
    ensures SplitLines(JoinLines(pieces)) == pieces
    decreases |pieces|, |pieces[0]|
  {
    var p := pieces[0];
    if p == [] {
      if |pieces| > 1 {
        SplitJoinLines(pieces[1..]);
        assert JoinLines(pieces) == "\n" + JoinLines(pieces[1..]);
        assert pieces == [""] + pieces[1..];
      }
    } else {
      var shorter := [p[1..]] + pieces[1..];
      assert shorter[1..] == pieces[1..];
      assert forall i :: 0 <= i < |shorter| ==> '\n' !in shorter[i] by {
        assert forall c :: c in p[1..] ==> c in p;
      }
      SplitJoinLines(shorter);
      JoinLinesHead(pieces);
      assert p[0] != '\n' by { assert p[0] in p; }
      SplitLinesCons(p[0], JoinLines(shorter));
      assert [p[0]] + p[1..] == p;
      assert pieces == [p] + pieces[1..];
    }
  }

  /** A first character other than a newline joins the first piece. */
  lemma SplitLinesCons(c: char, t: string)
    requires c != '\n'
    ensures SplitLines([c] + t) == [[c] + SplitLines(t)[0]] + SplitLines(t)[1..]
  {
    assert ([c] + t)[1..] == t;
  }

  /** The joined text starts with the first character of a non-empty first piece. */
  lemma JoinLinesHead(pieces: seq<string>)
    requires |pieces| >= 1 && pieces[0] != []
    ensures JoinLines(pieces) == [pieces[0][0]] + JoinLines([pieces[0][1..]] + pieces[1..])
  {
    var shorter := [pieces[0][1..]] + pieces[1..];
    assert shorter[1..] == pieces[1..];
    assert pieces[0] == [pieces[0][0]] + pieces[0][1..];
  }

  /** The pieces without the empty ones at the end. */
  function DropTrailingEmpty(pieces: seq<string>): (r: seq<string>)
    ensures |r| <= |pieces| && r == pieces[..|r|]
    ensures r == [] || r[|r| - 1] != ""
    ensures forall i :: |r| <= i < |pieces| ==> pieces[i] == ""
    decreases |pieces|
  {
    if pieces == [] then []
    else if pieces[|pieces| - 1] == "" then DropTrailingEmpty(pieces[..|pieces| - 1])
    else pieces
  }

  /** Java's `String.split("\n")`: the pieces with trailing empty ones
      dropped, except that a string without any newline gives itself. */
  function JavaSplit(s: string): (r: seq<string>)
    ensures '\n' !in s ==> r == [s]
    ensures forall i :: 0 <= i < |r| ==> '\n' !in r[i]
  {
    if '\n' !in s then [s] else DropTrailingEmpty(SplitLines(s))
  }

  // ---------------------------------------------------------------------
  // Continuous text filter

  /** A piece survives the filter when it is longer than 10 characters. */
  const MinPieceLength := 10

  function KeptPiece(piece: string): string
  {
    if |piece| > MinPieceLength then piece + "\n" else ""
  }

  /** Every piece longer than 10 characters followed by a newline, in order. */
  function KeepLongPieces(pieces: seq<string>): string
    decreases |pieces|
  {
    if pieces == [] then "" else KeepLongPieces(pieces[..|pieces| - 1]) + KeptPiece(pieces[|pieces| - 1])
  }

  /** How many pieces are longer than 10 characters. */
  function LongPieceCount(pieces: seq<string>): nat
    decreases |pieces|
  {
    if pieces == [] then 0
    else LongPieceCount(pieces[..|pieces| - 1]) + (if |pieces[|pieces| - 1]| > MinPieceLength then 1 else 0)
  }

  /** `replaceAll(" ", "")`. */
  function RemoveSpaces(s: string): (r: string)
    ensures ' ' !in r
    ensures |r| <= |s|
    decreases |s|
  {
    if s == [] then [] else (if s[0] == ' ' then [] else [s[0]]) + RemoveSpaces(s[1..])
  }

  function CountChar(s: string, c: char): nat
    decreases |s|
  {
    if s == [] then 0 else (if s[0] == c then 1 else 0) + CountChar(s[1..], c)
  }

  lemma {:induction false} CountCharAppend(a: string, b: string, c: char)
    ensures CountChar(a + b, c) == CountChar(a, c) + CountChar(b, c)
    decreases |a|
  {
    if a != [] {
      assert (a + b)[1..] == a[1..] + b;
      CountCharAppend(a[1..], b, c);
    } else {
      assert a + b == b;
    }
  }

  /** Removing spaces keeps every other character, newlines included. */
  lemma {:induction false} RemoveSpacesKeepsNewlines(s: string)
    ensures CountChar(RemoveSpaces(s), '\n') == CountChar(s, '\n')
    decreases |s|
  {
    if s != [] {
      RemoveSpacesKeepsNewlines(s[1..]);
      CountCharAppend(if s[0] == ' ' then [] else [s[0]], RemoveSpaces(s[1..]), '\n');
    }
  }

  /** The kept text has one newline per long piece. */
  lemma {:induction false} KeepLongPiecesNewlines(pieces: seq<string>)
    requires forall i :: 0 <= i < |pieces| ==> '\n' !in pieces[i]
    ensures CountChar(KeepLongPieces(pieces), '\n') == LongPieceCount(pieces)
    decreases |pieces|
  {
    if pieces != [] {
      var n := |pieces| - 1;
      KeepLongPiecesNewlines(pieces[..n]);
      CountCharAppend(KeepLongPieces(pieces[..n]), KeptPiece(pieces[n]), '\n');
      if |pieces[n]| > MinPieceLength {
        CountCharAppend(pieces[n], "\n", '\n');
        NoCharCount(pieces[n], '\n');
      }
    }
  }

  lemma {:induction false} NoCharCount(s: string, c: char)
    requires c !in s
    ensures CountChar(s, c) == 0
    decreases |s|
  {
    if s != [] {
      assert s[0] in s;
      assert forall d :: d in s[1..] ==> d in s;
      NoCharCount(s[1..], c);
    }
  }

  /** With no long piece nothing is kept. */
  lemma {:induction false} KeepLongPiecesEmpty(pieces: seq<string>)
    requires forall i :: 0 <= i < |pieces| ==> |pieces[i]| <= MinPieceLength
    ensures KeepLongPieces(pieces) == ""
    decreases |pieces|
  {
    if pieces != [] {
      KeepLongPiecesEmpty(pieces[..|pieces| - 1]);
    }
  }

  /** The text `handleOcrContinuousDecode` hands to MRZ validation: the
      newline pieces longer than 10 characters, each followed by a newline,
      with every space removed. Empty text is left as it is. */
  function FilteredMrzText(text: string): string
  {
    if text == "" then text else RemoveSpaces(KeepLongPieces(JavaSplit(text)))
  }

  /** The filtered text has no spaces and one newline per long piece of the
      split, and is empty when no piece is longer than 10 characters. */
  lemma FilteredMrzTextShape(text: string)
    requires text != ""
    ensures ' ' !in FilteredMrzText(text)
    ensures CountChar(FilteredMrzText(text), '\n') == LongPieceCount(JavaSplit(text))
    ensures (forall i :: 0 <= i < |JavaSplit(text)| ==> |JavaSplit(text)[i]| <= MinPieceLength)
        ==> FilteredMrzText(text) == ""
  {
    var pieces := JavaSplit(text);
    RemoveSpacesKeepsNewlines(KeepLongPieces(pieces));
    KeepLongPiecesNewlines(pieces);
    if forall i :: 0 <= i < |pieces| ==> |pieces[i]| <= MinPieceLength {
      KeepLongPiecesEmpty(pieces);
    }
  }

  /** The filter loop of `handleOcrContinuousDecode`, which builds the kept
      text piece by piece before removing the spaces. */
  method FilterContinuousText(text: string) returns (result: string)
    ensures result == FilteredMrzText(text)
  {
    if text == "" {
      return text;
    }
    var pieces := JavaSplit(text);
    result := "";
    var i := 0;
    while i < |pieces|
      invariant 0 <= i <= |pieces|
      invariant result == KeepLongPieces(pieces[..i])
    {
      assert pieces[..i + 1][..i] == pieces[..i];
      if |pieces[i]| > MinPieceLength {
        result := result + pieces[i] + "\n";
      }
      i := i + 1;
    }
    assert pieces[..i] == pieces;
    result := RemoveSpaces(result);
  }

  /** Mean confidence needed before MRZ validation is attempted. */
  const MinMrzConfidence := 50

  /** Validation is attempted only with mean confidence at least 50 and a
      raw split of two or three pieces (short pieces included). */
  predicate MrzGateOpen(meanConfidence: int, text: string)
  {
    meanConfidence >= MinMrzConfidence && 2 <= |JavaSplit(text)| <= 3
  }

  /** Whether a continuous result completes the scan. `canonical` is what
      the MRZ parser makes of the filtered text (absent when it rejects the
      text with an exception); the scan completes when the gate is open and
      the parsed MRZ prints back as exactly the filtered text. */
  function MrzAccepted(meanConfidence: int, text: string, canonical: Option<string>): (accepted: Option<string>)
    ensures accepted.Some? ==> accepted.value == FilteredMrzText(text) && text != ""
    ensures accepted.Some? <==>
      text != "" && MrzGateOpen(meanConfidence, text) && canonical == Some(FilteredMrzText(text))
  {
    if text != "" && MrzGateOpen(meanConfidence, text) && canonical == Some(FilteredMrzText(text))
    then Some(FilteredMrzText(text)) else None
  }

  /** A long line followed by a short non-empty one still opens the gate,
      since the count is taken before filtering, while only the long line
      reaches validation. */
  lemma GateCountsShortPieces(long: string, short: string, meanConfidence: int)
    requires '\n' !in long && '\n' !in short
    requires |long| > MinPieceLength && short != "" && |short| <= MinPieceLength
    requires meanConfidence >= MinMrzConfidence
    ensures MrzGateOpen(meanConfidence, long + "\n" + short)
    ensures FilteredMrzText(long + "\n" + short) == RemoveSpaces(long + "\n")
  {
    var text := long + "\n" + short;
    SplitTwoLines(long, short);
    KeepLongThenShort(long, short);
    assert |JavaSplit(text)| == 2;
    assert FilteredMrzText(text) == RemoveSpaces(KeepLongPieces(JavaSplit(text)));
  }

  /** Two short lines are never accepted, whatever the confidence: both are
      filtered away, so validation sees the empty text, which no parsed MRZ
      prints back as. */
  lemma TwoShortLinesRejected(first: string, second: string, meanConfidence: int, canonical: Option<string>)
    requires '\n' !in first && '\n' !in second && second != ""
    requires |first| <= MinPieceLength && |second| <= MinPieceLength
    requires canonical != Some("")
    ensures FilteredMrzText(first + "\n" + second) == ""
    ensures MrzAccepted(meanConfidence, first + "\n" + second, canonical).None?
  {
    SplitTwoLines(first, second);
    KeepLongPiecesEmpty([first, second]);
    assert RemoveSpaces("") == "";
  }

  /** Of a long piece and a short one only the long one is kept. */
  lemma KeepLongThenShort(long: string, short: string)
    requires |long| > MinPieceLength && |short| <= MinPieceLength
    ensures KeepLongPieces([long, short]) == long + "\n"
  {
    var pieces := [long, short];
    assert pieces[..1] == [long] && [long][..0] == [];
    assert KeepLongPieces([long]) == "" + KeptPiece(long);
    assert KeepLongPieces(pieces) == KeepLongPieces([long]) + KeptPiece(short);
  }

  /** Two newline-free lines, the second non-empty, split back into themselves. */
  lemma SplitTwoLines(first: string, second: string)
    requires '\n' !in first && '\n' !in second && second != ""
    ensures JavaSplit(first + "\n" + second) == [first, second]
  {
    var text := first + "\n" + second;
    var pieces := [first, second];
    assert JoinLines(pieces) == text by {
      assert pieces[1..] == [second];
    }
    SplitJoinLines(pieces);
    assert text[|first|] == '\n';
  }

  lemma {:induction false} NoSpaces(s: string)
    requires ' ' !in s
    ensures RemoveSpaces(s) == s
    decreases |s|
  {
    if s != [] {
      assert s[0] in s;
      assert forall d :: d in s[1..] ==> d in s;
      NoSpaces(s[1..]);
    }
  }

  // ---------------------------------------------------------------------
  // Result font size

  /** The result text size: 32 shrinking by one per four characters, never below 22. */
  function ScaledTextSize(length: nat): (size: int)
    ensures 22 <= size <= 32
  {
    Max(22, 32 - length / 4)
  }

  /** Longer text never gets a bigger font. */
  lemma ScaledTextSizeMonotone(a: nat, b: nat)
    requires a <= b
    ensures ScaledTextSize(b) <= ScaledTextSize(a)
  {
  }

  // ---------------------------------------------------------------------
  // Span between two tokens

  predicate OccursAt(text: string, token: string, k: int)
  {
    0 <= k && k + |token| <= |text| && text[k..k + |token|] == token
  }

  /** Java's `text.indexOf(token, from)`: the first occurrence at or after
      `from` (taken as 0 when negative and as the length when larger), or -1. */
  function IndexOf(text: string, token: string, from: int): (r: int)
    ensures r == -1 || (Clamp(from, |text|) <= r && OccursAt(text, token, r))
    ensures r != -1 ==> forall k :: Clamp(from, |text|) <= k < r ==> !OccursAt(text, token, k)
    ensures r == -1 ==> forall k :: Clamp(from, |text|) <= k ==> !OccursAt(text, token, k)
    decreases |text| - Clamp(from, |text|)
  {
    var k := Clamp(from, |text|);
    if OccursAt(text, token, k) then k
    else if k + |token| >= |text| then
      assert forall j :: k <= j ==> !OccursAt(text, token, j) by {
        forall j | k < j ensures !OccursAt(text, token, j) { }
      }
      -1
    else IndexOf(text, token, k + 1)
  }

  function Clamp(from: int, length: nat): (r: nat)
    ensures r <= length
  {
    if from < 0 then 0 else if from > length then length else from
  }

  /** `setSpanBetweenTokens`: the span from just after the first occurrence of
      the token to the start of the next occurrence that does not overlap it;
      nothing when there is no such pair. */
  function SpanBetweenTokens(text: string, token: string): (span: Option<(int, int)>)
  {
    var start := IndexOf(text, token, 0) + |token|;
    var end := IndexOf(text, token, start);
    if start > -1 && end > -1 then Some((start, end)) else None
  }

  /** The span covers exactly the text strictly between the first occurrence
      of a non-empty token and the next non-overlapping one, and exists
      exactly when such a second occurrence does. */
  lemma SpanBetweenTokensMeaning(text: string, token: string)
    requires token != ""
    ensures var span := SpanBetweenTokens(text, token);
      span.Some? ==>
        && OccursAt(text, token, span.value.0 - |token|)
        && OccursAt(text, token, span.value.1)
        && span.value.0 <= span.value.1
        && (forall k :: 0 <= k < span.value.0 - |token| ==> !OccursAt(text, token, k))
        && (forall k :: span.value.0 <= k < span.value.1 ==> !OccursAt(text, token, k))
    ensures SpanBetweenTokens(text, token).None? <==>
      forall i, j :: OccursAt(text, token, i) && OccursAt(text, token, j) ==> j < i + |token|
  {
    var first := IndexOf(text, token, 0);
    if first != -1 {
      var start := first + |token|;
      assert Clamp(start, |text|) == start;
    }
  }

  // ---------------------------------------------------------------------
  // OCR engine mode

  datatype EngineMode = TesseractOnly | CubeOnly | TesseractCubeCombined | DefaultEngine

  /** Languages the Cube engine supports. */
  const CubeSupportedLanguages: seq<string> := ["ara", "hin"]

  /** The engine mode, continuous-preview flag and whether the mode
      preference is written back, as `initOcrEngine` leaves them. */
  datatype EngineSettings = EngineSettings(mode: EngineMode, continuousMode: bool, modePreferenceWritten: bool)

  /** `initOcrEngine`: a Cube-using mode falls back to Tesseract only (and
      that is written to the preferences) unless the language is one Cube
      supports; a Cube-using mode that remains turns continuous mode on. */
  function InitEngineSettings(mode: EngineMode, language: string, continuousMode: bool): (s: EngineSettings)
    ensures s.modePreferenceWritten <==> mode != TesseractOnly && language !in CubeSupportedLanguages
    ensures s.mode == (if s.modePreferenceWritten then TesseractOnly else mode)
    ensures s.mode != TesseractOnly ==> language in CubeSupportedLanguages
    ensures s.continuousMode == (continuousMode || s.mode == CubeOnly || s.mode == TesseractCubeCombined)
  {
    var demote := mode != TesseractOnly && language !in CubeSupportedLanguages;
    var newMode := if demote then TesseractOnly else mode;
    EngineSettings(newMode, continuousMode || newMode == CubeOnly || newMode == TesseractCubeCombined, demote)
  }

  // ---------------------------------------------------------------------
  // Drag rule

  /** Handle tolerances around a corner and along an edge. */
  const CornerBuffer := 60
  const EdgeBuffer := 50

  predicate Near(v: int, edge: int, buffer: int) { edge - buffer <= v <= edge + buffer }

  /** The current or the previous coordinate is near the edge. */
  predicate EitherNear(v: int, last: int, edge: int, buffer: int) { Near(v, edge, buffer) || Near(last, edge, buffer) }

  /** The current or the previous coordinate lies between the two edges. */
  predicate EitherWithin(v: int, last: int, lo: int, hi: int) { (lo <= v <= hi) || (lo <= last <= hi) }

  predicate NearCorner(r: Rect, lastX: int, lastY: int, x: int, y: int)
  {
    (EitherNear(x, lastX, r.left, CornerBuffer) || EitherNear(x, lastX, r.right, CornerBuffer))
    && (EitherNear(y, lastY, r.top, CornerBuffer) || EitherNear(y, lastY, r.bottom, CornerBuffer))
  }

  predicate NearEdge(r: Rect, lastX: int, lastY: int, x: int, y: int)
  {
    ((EitherNear(x, lastX, r.left, EdgeBuffer) || EitherNear(x, lastX, r.right, EdgeBuffer))
     && EitherWithin(y, lastY, r.top, r.bottom))
    || ((EitherNear(y, lastY, r.top, EdgeBuffer) || EitherNear(y, lastY, r.bottom, EdgeBuffer))
        && EitherWithin(x, lastX, r.left, r.right))
  }

  /** The handle a drag takes hold of: a corner or an edge of the framing rectangle. */
  datatype Handle = TopLeft | TopRight | BottomLeft | BottomRight | LeftEdge | RightEdge | TopEdge | BottomEdge

  predicate IsCorner(h: Handle) { h in {TopLeft, TopRight, BottomLeft, BottomRight} }
  predicate OnLeft(h: Handle) { h in {TopLeft, BottomLeft, LeftEdge} }
  predicate OnRight(h: Handle) { h in {TopRight, BottomRight, RightEdge} }
  predicate OnTop(h: Handle) { h in {TopLeft, TopRight, TopEdge} }
  predicate OnBottom(h: Handle) { h in {BottomLeft, BottomRight, BottomEdge} }

  /** The handle a MOVE from (lastX, lastY) to (x, y) grabs: corners are
      tried before edges, in the order top-left, top-right, bottom-left,
      bottom-right, left, right, top, bottom. Each side a handle lies on is
      near the pointer (60 pixels for a corner, 50 for an edge), and an edge
      handle has the pointer between the two edges across it. */
  function GrabbedHandle(r: Rect, lastX: int, lastY: int, x: int, y: int): (h: Option<Handle>)
    ensures h.None? <==> !(NearCorner(r, lastX, lastY, x, y) || NearEdge(r, lastX, lastY, x, y))
    ensures h.Some? ==> (IsCorner(h.value) <==> NearCorner(r, lastX, lastY, x, y))
    ensures h.Some? && OnLeft(h.value) ==> EitherNear(x, lastX, r.left, if IsCorner(h.value) then CornerBuffer else EdgeBuffer)
    ensures h.Some? && OnRight(h.value) ==> EitherNear(x, lastX, r.right, if IsCorner(h.value) then CornerBuffer else EdgeBuffer)
    ensures h.Some? && OnTop(h.value) ==> EitherNear(y, lastY, r.top, if IsCorner(h.value) then CornerBuffer else EdgeBuffer)
    ensures h.Some? && OnBottom(h.value) ==> EitherNear(y, lastY, r.bottom, if IsCorner(h.value) then CornerBuffer else EdgeBuffer)
    ensures h.Some? && !IsCorner(h.value) && (OnLeft(h.value) || OnRight(h.value)) ==> EitherWithin(y, lastY, r.top, r.bottom)
    ensures h.Some? && !IsCorner(h.value) && (OnTop(h.value) || OnBottom(h.value)) ==> EitherWithin(x, lastX, r.left, r.right)
  {
    if EitherNear(x, lastX, r.left, CornerBuffer) && EitherNear(y, lastY, r.top, CornerBuffer) then Some(TopLeft)
    else if EitherNear(x, lastX, r.right, CornerBuffer) && EitherNear(y, lastY, r.top, CornerBuffer) then Some(TopRight)
    else if EitherNear(x, lastX, r.left, CornerBuffer) && EitherNear(y, lastY, r.bottom, CornerBuffer) then Some(BottomLeft)
    else if EitherNear(x, lastX, r.right, CornerBuffer) && EitherNear(y, lastY, r.bottom, CornerBuffer) then Some(BottomRight)
    else if EitherNear(x, lastX, r.left, EdgeBuffer) && EitherWithin(y, lastY, r.top, r.bottom) then Some(LeftEdge)
    else if EitherNear(x, lastX, r.right, EdgeBuffer) && EitherWithin(y, lastY, r.top, r.bottom) then Some(RightEdge)
    else if EitherNear(y, lastY, r.top, EdgeBuffer) && EitherWithin(x, lastX, r.left, r.right) then Some(TopEdge)
    else if EitherNear(y, lastY, r.bottom, EdgeBuffer) && EitherWithin(x, lastX, r.left, r.right) then Some(BottomEdge)
    else None
  }

  /** How far a pointer moved away from the rectangle along one axis, for a
      handle on the low side (left or top) or the high side (right or
      bottom); zero for a handle on neither side of that axis. */
  function Outward(low: bool, high: bool, last: int, cur: int): int
  {
    if low then last - cur else if high then cur - last else 0
  }

  /** The resize a MOVE from (lastX, lastY) to (x, y) asks for: nothing on
      the first move after a press or release (lastX = -1) or away from every
      handle. Otherwise each axis the grabbed handle lies on changes by twice
      the pointer's outward displacement (so dragging a handle outward grows
      the rectangle and inward shrinks it), and an axis it does not lie on
      (the other axis of an edge) is left alone. */
  function DragDelta(r: Rect, lastX: int, lastY: int, x: int, y: int): (delta: Option<(int, int)>)
    ensures lastX < 0 ==> delta.None?
    ensures delta.None? <==> lastX < 0 || GrabbedHandle(r, lastX, lastY, x, y).None?
    ensures delta.None? <==> lastX < 0 || !(NearCorner(r, lastX, lastY, x, y) || NearEdge(r, lastX, lastY, x, y))
    ensures delta.Some? ==>
      var h := GrabbedHandle(r, lastX, lastY, x, y).value;
      delta.value == (2 * Outward(OnLeft(h), OnRight(h), lastX, x), 2 * Outward(OnTop(h), OnBottom(h), lastY, y))
    ensures delta.Some? && NearCorner(r, lastX, lastY, x, y) ==>
      Abs(delta.value.0) == 2 * Abs(x - lastX) && Abs(delta.value.1) == 2 * Abs(y - lastY)
    ensures delta.Some? && !NearCorner(r, lastX, lastY, x, y) ==>
      (delta.value.0 == 0 && Abs(delta.value.1) == 2 * Abs(y - lastY))
      || (delta.value.1 == 0 && Abs(delta.value.0) == 2 * Abs(x - lastX))
  {
    if lastX < 0 then None
    else if EitherNear(x, lastX, r.left, CornerBuffer) && EitherNear(y, lastY, r.top, CornerBuffer) then
      Some((2 * (lastX - x), 2 * (lastY - y)))
    else if EitherNear(x, lastX, r.right, CornerBuffer) && EitherNear(y, lastY, r.top, CornerBuffer) then
      Some((2 * (x - lastX), 2 * (lastY - y)))
    else if EitherNear(x, lastX, r.left, CornerBuffer) && EitherNear(y, lastY, r.bottom, CornerBuffer) then
      Some((2 * (lastX - x), 2 * (y - lastY)))
    else if EitherNear(x, lastX, r.right, CornerBuffer) && EitherNear(y, lastY, r.bottom, CornerBuffer) then
      Some((2 * (x - lastX), 2 * (y - lastY)))
    else if EitherNear(x, lastX, r.left, EdgeBuffer) && EitherWithin(y, lastY, r.top, r.bottom) then
      Some((2 * (lastX - x), 0))
    else if EitherNear(x, lastX, r.right, EdgeBuffer) && EitherWithin(y, lastY, r.top, r.bottom) then
      Some((2 * (x - lastX), 0))
    else if EitherNear(y, lastY, r.top, EdgeBuffer) && EitherWithin(x, lastX, r.left, r.right) then
      Some((0, 2 * (lastY - y)))
    else if EitherNear(y, lastY, r.bottom, EdgeBuffer) && EitherWithin(x, lastX, r.left, r.right) then
      Some((0, 2 * (y - lastY)))
    else None
  }
}
