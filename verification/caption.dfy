/** `annotate_image` of both evaluation scripts: the generated picture is
    pasted at the top of a canvas 60 pixels taller, and the model name is
    drawn centred in the white bar underneath. The text's bounding box is
    measured by PIL and enters the model as a parameter. */
module Caption {
  import opened Fonts

  const BarHeight: int := 60
  const CaptionFontPath: string := "/usr/share/fonts/truetype/dejavu/DejaVuSans-Bold.ttf"
  const CaptionFontSize: nat := 36

  /** `draw.textbbox((0, 0), text, font)`: left, top, right, bottom. */
  datatype BBox = BBox(left: int, top: int, right: int, bottom: int)

  function TextWidth(b: BBox): int { b.right - b.left }
  function TextHeight(b: BBox): int { b.bottom - b.top }

  /** Python's `(extent - size) // 2`; Dafny's `/` floors like `//` for a
      positive divisor. The two margins it leaves differ by at most one
      pixel, the right one being the larger. */
  function Centre(extent: int, size: int): (r: int)
    ensures 2 * r <= extent - size <= 2 * r + 1
  {
    (extent - size) / 2
  }

  /** A centred box lies inside the extent exactly when it is not larger
      than the extent; a larger one starts before the extent and reaches at
      least its far end (one pixel too wide starts at -1 and ends flush; two
      or more pixels too wide runs past it). */
  lemma {:induction false} CentreInside(extent: int, size: int)
    requires size >= 0
    ensures 0 <= Centre(extent, size) <==> size <= extent
    ensures size <= extent ==> Centre(extent, size) + size <= extent
    ensures size > extent ==> Centre(extent, size) < 0 && Centre(extent, size) + size >= extent
    ensures size >= extent + 2 ==> Centre(extent, size) + size > extent
  {
  }

  /** `[lo, hi)` lies in `[start, end)` with margins that differ by at most
      one pixel, the far one being the larger: the span is centred. */
  predicate CentredSpan(lo: int, hi: int, start: int, end: int)
  {
    start <= lo && hi <= end && 0 <= (end - hi) - (lo - start) <= 1
  }

  /** The ink of text whose `textbbox((0, 0), ...)` is `b`, drawn at
      `(x, y)`: PIL places the ink at the draw origin plus the box's left
      and top offsets. */
  function Ink(x: int, y: int, b: BBox): BBox
  {
    BBox(x + b.left, y + b.top, x + b.right, y + b.bottom)
  }

  /** Along one axis, ink spanning `[lo, hi)` from the draw origin, drawn
      at `start + Centre(extent, hi - lo)` as the scripts do, is centred in
      `[start, start + extent)` exactly when the ink starts at the origin. */
  lemma {:induction false} CentredOnlyWithoutOffset(start: int, extent: int, lo: int, hi: int)
    requires 0 <= hi - lo <= extent
    ensures var o := start + Centre(extent, hi - lo);
      CentredSpan(o + lo, o + hi, start, start + extent) <==> lo == 0
  {
    CentreInside(extent, hi - lo);
  }

  /** The draw origin that centres ink spanning `[lo, hi)` from the origin:
      the centred position of the ink, less its offset. */
  function CentredOrigin(extent: int, lo: int, hi: int): int
  {
    Centre(extent, hi - lo) - lo
  }

  /** Drawn at `start + CentredOrigin(...)`, ink that fits is centred. */
  lemma {:induction false} CentredOriginCentres(start: int, extent: int, lo: int, hi: int)
    requires 0 <= hi - lo <= extent
    ensures var o := start + CentredOrigin(extent, lo, hi);
      CentredSpan(o + lo, o + hi, start, start + extent)
  {
    CentreInside(extent, hi - lo);
  }

  /** The annotated picture: canvas size, text origin and font. */
  datatype Annotated = Annotated(width: int, height: int, textX: int, textY: int, font: Font)

  /** `annotate_image` as written: the text box measured at the origin is
      centred, and the text is drawn at that box's corner. */
  function Annotate(imgWidth: nat, imgHeight: nat, bbox: BBox, available: set<string>): Annotated
  {
    var width := imgWidth;
    var height := imgHeight + BarHeight;
    Annotated(width, height,
      Centre(width, TextWidth(bbox)),
      imgHeight + Centre(BarHeight, TextHeight(bbox)),
      FontOrDefault([CaptionFontPath], available, CaptionFontSize))
  }

  /** For a caption no wider than the picture and no taller than the bar,
      the text box placed at the draw origin is centred in the bar below
      the pasted picture; the drawn
      ink is centred in the bar horizontally exactly when its box starts at
      x = 0 and vertically exactly when it starts at y = 0. */
  lemma {:induction false} CaptionInBar(imgWidth: nat, imgHeight: nat, bbox: BBox, available: set<string>)
    requires 0 <= TextWidth(bbox) <= imgWidth && 0 <= TextHeight(bbox) <= BarHeight
    ensures var a := Annotate(imgWidth, imgHeight, bbox, available);
      && CentredSpan(a.textX, a.textX + TextWidth(bbox), 0, a.width)
      && CentredSpan(a.textY, a.textY + TextHeight(bbox), imgHeight, a.height)
    ensures var a := Annotate(imgWidth, imgHeight, bbox, available);
      var ink := Ink(a.textX, a.textY, bbox);
      && (CentredSpan(ink.left, ink.right, 0, a.width) <==> bbox.left == 0)
      && (CentredSpan(ink.top, ink.bottom, imgHeight, a.height) <==> bbox.top == 0)
  {
    CentreInside(imgWidth, TextWidth(bbox));
    CentreInside(BarHeight, TextHeight(bbox));
    CentredOnlyWithoutOffset(0, imgWidth, bbox.left, bbox.right);
    CentredOnlyWithoutOffset(imgHeight, BarHeight, bbox.top, bbox.bottom);
  }

  /** A caption whose box starts 9 pixels below the origin (as a bold
      font's does) is drawn 25 pixels below the picture and 8 pixels above
      the canvas edge. */
  lemma {:induction false} CaptionDrawnLow()
    ensures var a := Annotate(800, 450, BBox(0, 9, 150, 36), {});
      var ink := Ink(a.textX, a.textY, BBox(0, 9, 150, 36));
      ink.top - 450 == 25 && a.height - ink.bottom == 8
  {
  }

  /** A caption 20 pixels tall whose box starts 40 pixels below the origin
      runs 20 pixels past the bottom of the canvas. */
  lemma {:induction false} CaptionDrawnOffCanvas()
    ensures var a := Annotate(800, 450, BBox(0, 40, 10, 60), {});
      var ink := Ink(a.textX, a.textY, BBox(0, 40, 10, 60));
      ink.bottom - a.height == 20
  {
  }

  /** `annotate_image` with the draw origin moved back by the box's offsets,
      which the comment "Center the text" intends. */
  function AnnotateCentred(imgWidth: nat, imgHeight: nat, bbox: BBox, available: set<string>): Annotated
  {
    var width := imgWidth;
    var height := imgHeight + BarHeight;
    Annotated(width, height,
      CentredOrigin(width, bbox.left, bbox.right),
      imgHeight + CentredOrigin(BarHeight, bbox.top, bbox.bottom),
      FontOrDefault([CaptionFontPath], available, CaptionFontSize))
  }

  /** With the offsets taken into account, every caption no wider than the
      picture and no taller than the bar is drawn inside the bar, centred
      both ways to within a pixel. */
  lemma {:induction false} CentredCaptionInBar(imgWidth: nat, imgHeight: nat, bbox: BBox, available: set<string>)
    requires 0 <= TextWidth(bbox) <= imgWidth && 0 <= TextHeight(bbox) <= BarHeight
    ensures var a := AnnotateCentred(imgWidth, imgHeight, bbox, available);
      var ink := Ink(a.textX, a.textY, bbox);
      && a.width == imgWidth && a.height == imgHeight + BarHeight
      && CentredSpan(ink.left, ink.right, 0, a.width)
      && CentredSpan(ink.top, ink.bottom, imgHeight, a.height)
  {
    CentredOriginCentres(0, imgWidth, bbox.left, bbox.right);
    CentredOriginCentres(imgHeight, BarHeight, bbox.top, bbox.bottom);
  }

  /** A caption wider than the picture starts left of the canvas and runs
      at least to its right edge: PIL clips it. */
  lemma {:induction false} CaptionClipped(imgWidth: nat, imgHeight: nat, bbox: BBox, available: set<string>)
    requires TextWidth(bbox) > imgWidth
    ensures var a := Annotate(imgWidth, imgHeight, bbox, available);
      a.textX < 0 && a.textX + TextWidth(bbox) >= a.width
  {
    CentreInside(imgWidth, TextWidth(bbox));
  }

  /** The caption uses DejaVu Sans Bold at 36 points when that file loads
      and PIL's built-in font otherwise. */
  lemma {:induction false} CaptionFont(imgWidth: nat, imgHeight: nat, bbox: BBox, available: set<string>)
    ensures var a := Annotate(imgWidth, imgHeight, bbox, available);
      a.font == (if CaptionFontPath in available then TrueType(CaptionFontPath, CaptionFontSize) else BuiltIn)
  {
    var f := FontOrDefault([CaptionFontPath], available, CaptionFontSize);
    if f != BuiltIn {
      var k :| FirstAt([CaptionFontPath], available, k) && f == TrueType([CaptionFontPath][k], CaptionFontSize);
      assert k == 0;
    } else {
      assert [CaptionFontPath][0] == CaptionFontPath;
    }
  }
}
