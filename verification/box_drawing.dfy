/** `drawBoxTextDetections`: for each box and caption, a green outline and a red caption
    whose font shrinks (never grows) to the box width and which is centred when it fits. */
module BoxDrawing {
  import opened ObjectDetection

  /** The text size set before each caption is measured. */
  const BASE_TEXT_SIZE: real := 80.0
  const STROKE_WIDTH: real := 1.5

  datatype Color = Green | Red

  /** `Rect` filled by `getTextBounds`: integer edges of the caption at the base size. */
  datatype TextBounds = TextBounds(left: int, top: int, right: int, bottom: int) {
    function Width(): int {
      right - left
    }
    function Height(): int {
      bottom - top
    }
  }

  /** A Kotlin `Float` as the font-size division can produce it; finite values are reals. */
  datatype FloatValue = Finite(value: real) | PositiveInfinity | NegativeInfinity | NaN

  /** IEEE `a < b` against a finite `b`: NaN is not less than anything. */
  predicate LessThan(a: FloatValue, b: real)
    ensures LessThan(a, b) ==> AtMost(a, b) && !a.NaN? && !a.PositiveInfinity?
    ensures a.Finite? ==> (LessThan(a, b) <==> a.value < b)
    ensures a.NegativeInfinity? ==> LessThan(a, b)
  {
    match a
    case Finite(v) => v < b
    case NegativeInfinity => true
    case PositiveInfinity => false
    case NaN => false
  }

  /** The value is at most `b`. */
  predicate AtMost(a: FloatValue, b: real) {
    a.NegativeInfinity? || (a.Finite? && a.value <= b)
  }

  /** IEEE division of `x` by the integer `n` converted to a float (which is +0 for 0). */
  function Divide(x: real, n: int): (r: FloatValue)
    ensures n != 0 ==> r.Finite? && r.value * n as real == x
    ensures n == 0 ==> !r.Finite?
    ensures n == 0 ==> (r.PositiveInfinity? <==> x > 0.0) && (r.NegativeInfinity? <==> x < 0.0)
  {
    if n != 0 then Finite(x / n as real)
    else if x > 0.0 then PositiveInfinity
    else if x < 0.0 then NegativeInfinity
    else NaN
  }

  /** The final text size: `80 * boxWidth / textWidth` when that is below 80, else 80. */
  function FontSize(boxWidth: real, textWidth: int): (size: FloatValue)
    ensures AtMost(size, BASE_TEXT_SIZE)
    ensures textWidth > 0 ==> size.Finite?
    ensures textWidth > 0 ==> size.value <= BASE_TEXT_SIZE * boxWidth / textWidth as real
    ensures textWidth > 0 ==>
              size.value == BASE_TEXT_SIZE || size.value == BASE_TEXT_SIZE * boxWidth / textWidth as real
    ensures textWidth == 0 ==> size == (if boxWidth < 0.0 then NegativeInfinity else Finite(BASE_TEXT_SIZE))
  {
    var scaled := Divide(BASE_TEXT_SIZE * boxWidth, textWidth);
    if LessThan(scaled, BASE_TEXT_SIZE) then scaled else Finite(BASE_TEXT_SIZE)
  }

  /** A caption that already fits keeps the base size: the font is only ever scaled down. */
  lemma FontSizeNotScaledUp(boxWidth: real, textWidth: int)
    requires 0 < textWidth && textWidth as real <= boxWidth
    ensures FontSize(boxWidth, textWidth) == Finite(BASE_TEXT_SIZE)
  {
  }

  /** At the chosen size the caption (whose width grows linearly with the size) is no
      wider than the box, and it is shrunk only as far as needed. */
  lemma ScaledCaptionFits(boxWidth: real, textWidth: int)
    requires 0 < textWidth && 0.0 <= boxWidth
    ensures var w := FontSize(boxWidth, textWidth).value * textWidth as real / BASE_TEXT_SIZE;
            w <= boxWidth && w <= textWidth as real && (w == boxWidth || w == textWidth as real)
  {
    var size := FontSize(boxWidth, textWidth).value;
    var tw := textWidth as real;
    if size != BASE_TEXT_SIZE {
      assert size == BASE_TEXT_SIZE * boxWidth / tw;
      assert size * tw == BASE_TEXT_SIZE * boxWidth;
    }
  }

  /** `(boxWidth - textWidth) / 2`, or 0 when that is negative. */
  function Margin(boxWidth: real, textWidth: int): (m: real)
    ensures m >= 0.0
    ensures textWidth as real <= boxWidth ==> m + textWidth as real + m == boxWidth
    ensures boxWidth < textWidth as real ==> m == 0.0
  {
    var margin := (boxWidth - textWidth as real) / 2.0;
    if margin < 0.0 then 0.0 else margin
  }

  /** Where and how large the caption of one box is drawn. */
  datatype Placement = Placement(size: FloatValue, x: real, y: real)

  function PlaceCaption(box: RectF, bounds: TextBounds): (p: Placement)
    ensures AtMost(p.size, BASE_TEXT_SIZE)
    ensures p.x >= box.left
    ensures p.y == box.top + bounds.Height() as real
    ensures bounds.Width() as real <= box.Width() ==> p.x - box.left == box.right - (p.x + bounds.Width() as real)
    ensures box.Width() < bounds.Width() as real ==> p.x == box.left
    ensures 0 < bounds.Width() ==>
              p.size == Finite(if bounds.Width() as real <= box.Width() then BASE_TEXT_SIZE
                               else BASE_TEXT_SIZE * box.Width() / bounds.Width() as real)
  {
    Placement(FontSize(box.Width(), bounds.Width()),
              box.left + Margin(box.Width(), bounds.Width()),
              box.top + bounds.Height() as real)
  }

  /** With positive measured width and a non-degenerate box, the caption drawn at its
      placement ends inside the box. */
  lemma CaptionInsideBox(box: RectF, bounds: TextBounds)
    requires 0 < bounds.Width() && 0.0 <= box.Width()
    ensures var p := PlaceCaption(box, bounds);
            box.left <= p.x && p.x + p.size.value * bounds.Width() as real / BASE_TEXT_SIZE <= box.right
  {
    ScaledCaptionFits(box.Width(), bounds.Width());
  }

  /** A canvas call. */
  datatype DrawOp =
    | DrawRect(rect: RectF, color: Color, strokeWidth: real)
    | DrawText(text: string, x: real, y: real, size: FloatValue, color: Color)

  /** A caption as `drawBoxTextDetections` draws it for `box` measured as `bounds`: it is
      red, at most the base size (exactly the base size when it fits, and scaled down to
      the box's width when it does not), anchored at the box's top plus the text height, starts
      at or right of the box's left edge, is centred when it fits and flush left when it
      does not, and at its size ends inside a non-degenerate box. */
  ghost predicate CaptionPlaced(op: DrawOp, box: RectF, bounds: TextBounds) {
    var tw := bounds.Width() as real;
    && op.DrawText?
    && op.color == Red
    && AtMost(op.size, BASE_TEXT_SIZE)
    && (0.0 < tw ==> op.size == Finite(if tw <= box.Width() then BASE_TEXT_SIZE
                                       else BASE_TEXT_SIZE * box.Width() / tw))
    && op.y == box.top + bounds.Height() as real
    && box.left <= op.x
    && (tw <= box.Width() ==> op.x - box.left == box.right - (op.x + tw))
    && (box.Width() < tw ==> op.x == box.left)
    && (0.0 < tw && 0.0 <= box.Width() ==>
          op.size.Finite? && op.x + op.size.value * tw / BASE_TEXT_SIZE <= box.right)
  }

  /** Drawing the caption at its placement meets every promise of `CaptionPlaced`. */
  lemma PlacedCaptionIsPlaced(text: string, box: RectF, bounds: TextBounds)
    ensures var p := PlaceCaption(box, bounds);
            CaptionPlaced(DrawText(text, p.x, p.y, p.size, Red), box, bounds)
  {
    if 0 < bounds.Width() && 0.0 <= box.Width() {
      CaptionInsideBox(box, bounds);
    }
  }

  /** The two canvas calls for one box; `measure` is `getTextBounds` at the base size. */
  function DrawItem(item: BoxText, measure: string -> TextBounds): (ops: seq<DrawOp>)
    ensures |ops| == 2
    ensures ops[0] == DrawRect(item.box, Green, STROKE_WIDTH)
    ensures ops[1].DrawText? && ops[1].text == item.text
    ensures CaptionPlaced(ops[1], item.box, measure(item.text))
  {
    var p := PlaceCaption(item.box, measure(item.text));
    PlacedCaptionIsPlaced(item.text, item.box, measure(item.text));
    [DrawRect(item.box, Green, STROKE_WIDTH), DrawText(item.text, p.x, p.y, p.size, Red)]
  }

  /** The canvas calls of `drawBoxTextDetections`, in order, on the copy of the bitmap. */
  function DrawBoxTextDetections(items: seq<BoxText>, measure: string -> TextBounds): (ops: seq<DrawOp>)
    ensures |ops| == 2 * |items|
    ensures forall i :: 0 <= i < |items| ==>
              ops[2 * i] == DrawItem(items[i], measure)[0] && ops[2 * i + 1] == DrawItem(items[i], measure)[1]
    decreases |items|
  {
    if |items| == 0 then []
    else DrawItem(items[0], measure) + DrawBoxTextDetections(items[1..], measure)
  }

  /** `runTensorFlowLiteObjectDetection` after the engine call: every detection gets its
      box outlined and a caption, none is dropped, order is kept. */
  function RenderDetections(outputs: seq<Detection>, measure: string -> TextBounds): (ops: seq<DrawOp>)
    ensures |ops| == 2 * |outputs|
    ensures forall i :: 0 <= i < |outputs| ==>
              && ops[2 * i] == DrawRect(outputs[i].boundingBox, Green, STROKE_WIDTH)
              && ops[2 * i + 1].DrawText?
              && ops[2 * i + 1].text == DetectionText(outputs[i])
              && CaptionPlaced(ops[2 * i + 1], outputs[i].boundingBox, measure(DetectionText(outputs[i])))
    ensures forall i :: 0 <= i < |outputs| && |outputs[i].categories| == 0 ==>
              ops[2 * i + 1].text == UNKNOWN
  {
    DrawBoxTextDetections(MapDetections(outputs), measure)
  }
}
