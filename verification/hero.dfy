/** create_hero.py: four evaluation outputs in a 2x2 grid on a black
    canvas. Each tile is a thumbnail, a verdict mark in its lower right
    corner and a label strip with the model name centred in it. Picture
    contents, resizing and text measurement belong to PIL; the model keeps
    the integer layout, the verdict marks and the font choice. */
module Hero {
  import opened Seqs
  import opened Hebrew
  import opened Fonts
  import opened Caption

  /** `reverse_hebrew` of this script: the whole text back to front, not
      run by run as in the report generator. */
  function ReverseWhole(text: string): (r: string)
    ensures |r| == |text|
  {
    Reverse(text)
  }

  /** Applied twice, the whole-text reversal restores the text. */
  lemma {:induction false} ReverseWholeInvolution(text: string)
    ensures ReverseWhole(ReverseWhole(text)) == text
  {
    ReverseInvolution(text);
  }

  /** On purely Hebrew text the two reversals agree. */
  lemma {:induction false} ReverseWholeOnHebrew(text: string)
    requires AllHebrew(text)
    ensures ReverseWhole(text) == ReverseRuns(text)
  {
    AllHebrewReversed(text);
  }

  /** On mixed text they differ: whole-text reversal also turns the Latin
      word and the digits around. */
  lemma {:induction false} ReverseWholeOnMixed()
    ensures ReverseWhole("שלום world 123") != ReverseRuns("שלום world 123")
  {
    MixedLabelExample();
    var w := ReverseWhole("שלום world 123");
    ReverseAt("שלום world 123", 0);
    assert w[0] == '3';
  }

  /** The layout parameters of the composite. */
  datatype Grid = Grid(thumbWidth: nat, thumbHeight: nat, labelHeight: nat, padding: nat, cols: nat, rows: nat)

  const Layout: Grid := Grid(800, 450, 50, 8, 2, 2)

  /** The verdict mark is drawn this far from the thumbnail's right and
      bottom edges. */
  const CheckInset: int := 70

  const LabelFontSize: nat := 28
  const CheckFontSize: nat := 60

  const FontPaths: seq<string> := [
    "/usr/share/fonts/truetype/dejavu/DejaVuSans-Bold.ttf",
    "/usr/share/fonts/truetype/noto/NotoSansHebrew-Bold.ttf",
    "/usr/share/fonts/truetype/freefont/FreeSansBold.ttf"
  ]

  function TotalWidth(g: Grid): int
  {
    g.cols * g.thumbWidth + (g.cols + 1) * g.padding
  }

  function TotalHeight(g: Grid): int
  {
    g.rows * (g.thumbHeight + g.labelHeight) + (g.rows + 1) * g.padding
  }

  /** A block of pixels, both corners included. */
  datatype Rect = Rect(x0: int, y0: int, x1: int, y1: int)

  predicate Inside(r: Rect, width: int, height: int)
  {
    0 <= r.x0 <= r.x1 < width && 0 <= r.y0 <= r.y1 < height
  }

  predicate Within(r: Rect, outer: Rect)
  {
    outer.x0 <= r.x0 && r.x1 <= outer.x1 && outer.y0 <= r.y0 && r.y1 <= outer.y1
  }

  /** No pixel in common. */
  predicate Apart(r: Rect, s: Rect)
  {
    r.x1 < s.x0 || s.x1 < r.x0 || r.y1 < s.y0 || s.y1 < r.y0
  }

  /** An entry of `images_info`. */
  datatype Entry = Entry(path: string, modelName: string, good: bool)

  const Images: seq<Entry> := [
    Entry("outputs/shalom/gemini-3-pro.png", "Gemini 3 Pro", true),
    Entry("outputs/firgun/wan-2-5.png", "Wan 2.5", true),
    Entry("outputs/shalom/ideogram-v2.png", "Ideogram V2", false),
    Entry("outputs/firgun/recraft-v3.png", "Recraft V3", false)
  ]

  datatype Colour = Colour(r: int, g: int, b: int)

  /** One tile as drawn: where the thumbnail is pasted (`paste` covers
      width x height pixels), the mark with its anchor and colour, the label
      rectangle (`draw.rectangle` includes both corners) and the label text
      origin. */
  datatype Tile = Tile(
    row: int, col: int,
    picture: Rect,
    checkX: int, checkY: int, mark: char, markColour: Colour,
    strip: Rect,
    textX: int, textY: int)

  /** The tile drawn in grid row `row` and column `col`. */
  function Cell(g: Grid, row: int, col: int, e: Entry, bbox: BBox): Tile
  {
    var x := g.padding + col * (g.thumbWidth + g.padding);
    var y := g.padding + row * (g.thumbHeight + g.labelHeight + g.padding);
    var labelY := y + g.thumbHeight;
    Tile(row, col,
      Rect(x, y, x + g.thumbWidth - 1, y + g.thumbHeight - 1),
      x + g.thumbWidth - CheckInset, y + g.thumbHeight - CheckInset,
      if e.good then '✓' else '✗',
      if e.good then Colour(0, 255, 0) else Colour(255, 0, 0),
      Rect(x, labelY, x + g.thumbWidth, labelY + g.labelHeight),
      x + Centre(g.thumbWidth, TextWidth(bbox)),
      labelY + Centre(g.labelHeight, TextHeight(bbox)))
  }

  /** Entry number `idx` goes to row `idx // cols`, column `idx % cols`. */
  function Place(g: Grid, idx: nat, e: Entry, bbox: BBox): Tile
    requires g.cols > 0
  {
    Cell(g, idx / g.cols, idx % g.cols, e, bbox)
  }

  /** The pixels a tile may touch: thumbnail and label strip together. */
  function Block(t: Tile): Rect
  {
    Rect(t.picture.x0, t.picture.y0, t.strip.x1, t.strip.y1)
  }

  datatype Composite = Composite(width: int, height: int, tiles: seq<Tile>, labelFont: Font, checkFont: Option<Font>)

  /** `create_hero_composite`, with the label bounding boxes measured by PIL
      and the loadable font files as parameters. */
  function Compose(g: Grid, images: seq<Entry>, bboxes: seq<BBox>, available: set<string>): (c: Composite)
    requires g.cols > 0 && |bboxes| == |images|
    ensures |c.tiles| == |images|
  {
    Composite(TotalWidth(g), TotalHeight(g),
      seq(|images|, i requires 0 <= i < |images| => Place(g, i, images[i], bboxes[i])),
      FontOrDefault(FontPaths, available, LabelFontSize),
      TryFonts(FontPaths, available, CheckFontSize))
  }

  /** Tiles are laid out row by row: index and (row, column) determine each
      other, and the first cols * rows indices fill the grid. */
  lemma {:induction false} TileIndex(g: Grid, idx: nat, e: Entry, bbox: BBox)
    requires g.cols > 0
    ensures var t := Place(g, idx, e, bbox);
      0 <= t.col < g.cols && 0 <= t.row && idx == t.row * g.cols + t.col
    ensures var t := Place(g, idx, e, bbox);
      idx < g.cols * g.rows <==> t.row < g.rows
  {
    var row := idx / g.cols;
    if row >= g.rows {
      MulMonotone(g.rows, row, g.cols);
    } else {
      MulMonotone(row + 1, g.rows, g.cols);
    }
  }

  /** The tile for row r and column c sits at index r * cols + c. */
  lemma {:induction false} TileAt(g: Grid, r: nat, c: nat, e: Entry, bbox: BBox)
    requires 0 <= c < g.cols
    ensures var t := Place(g, r * g.cols + c, e, bbox);
      t.row == r && t.col == c
  {
    var idx := r * g.cols + c;
    TileIndex(g, idx, e, bbox);
    var t := Place(g, idx, e, bbox);
    if t.row < r {
      MulMonotone(t.row + 1, r, g.cols);
    } else if t.row > r {
      MulMonotone(r + 1, t.row, g.cols);
    }
  }

  /** A tile of the grid lies on the canvas with at least `padding` pixels
      of border before it and at least `padding - 1` after it (the label
      rectangle includes its far corner, one pixel past the thumbnail); its
      thumbnail and label strip are stacked in its block. */
  lemma {:induction false} TileOnCanvas(g: Grid, row: int, col: int, e: Entry, bbox: BBox)
    requires 0 <= row < g.rows && 0 <= col < g.cols && g.thumbWidth > 0 && g.thumbHeight > 0 && g.padding > 0
    ensures var t := Cell(g, row, col, e, bbox);
      && Inside(Block(t), TotalWidth(g), TotalHeight(g))
      && g.padding <= Block(t).x0 && Block(t).x1 + g.padding <= TotalWidth(g)
      && g.padding <= Block(t).y0 && Block(t).y1 + g.padding <= TotalHeight(g)
      && Within(t.picture, Block(t)) && Within(t.strip, Block(t))
      && t.strip.y0 == t.picture.y1 + 1
  {
    AxisFits(col, g.cols, g.thumbWidth, g.padding);
    AxisFits(row, g.rows, g.thumbHeight + g.labelHeight, g.padding);
  }

  /** Along one axis, the k-th of n cells of extent e, with `pad` pixels
      before every cell and after the last, ends `pad` pixels or more before
      the canvas edge. */
  lemma {:induction false} AxisFits(k: int, n: int, e: int, pad: int)
    requires 0 <= k < n && e >= 0 && pad >= 0
    ensures pad + k * (e + pad) + e + pad <= n * e + (n + 1) * pad
  {
    MulMonotone(k + 1, n, e + pad);
    assert n * (e + pad) == n * e + n * pad;
    assert (k + 1) * (e + pad) == k * (e + pad) + e + pad;
  }

  /** Distinct offsets along one axis are at least one stride apart. */
  lemma {:induction false} StrideApart(a: int, b: int, stride: int)
    requires 0 <= a < b && stride >= 0
    ensures b * stride - a * stride >= stride
  {
    MulMonotone(a + 1, b, stride);
  }

  /** Tiles in different cells share no pixel. */
  lemma {:induction false} TilesApart(g: Grid, r: int, c: int, r': int, c': int, e: Entry, e': Entry, bbox: BBox, bbox': BBox)
    requires 0 <= r && 0 <= c && 0 <= r' && 0 <= c' && g.padding > 0
    requires r != r' || c != c'
    ensures Apart(Block(Cell(g, r, c, e, bbox)), Block(Cell(g, r', c', e', bbox')))
  {
    var sx := g.thumbWidth + g.padding;
    var sy := g.thumbHeight + g.labelHeight + g.padding;
    if c < c' {
      StrideApart(c, c', sx);
    } else if c' < c {
      StrideApart(c', c, sx);
    } else if r < r' {
      StrideApart(r, r', sy);
    } else {
      StrideApart(r', r, sy);
    }
  }

  /** Distinct entries of the composite get distinct cells, so their tiles
      share no pixel. */
  lemma {:induction false} PlacesApart(g: Grid, i: nat, j: nat, e: Entry, e': Entry, bbox: BBox, bbox': BBox)
    requires g.cols > 0 && g.padding > 0 && i != j
    ensures Apart(Block(Place(g, i, e, bbox)), Block(Place(g, j, e', bbox')))
  {
    TileIndex(g, i, e, bbox);
    TileIndex(g, j, e', bbox');
    TilesApart(g, i / g.cols, i % g.cols, j / g.cols, j % g.cols, e, e', bbox, bbox');
  }

  /** For a label no wider than the thumbnail and no taller than the strip,
      the text box placed at the draw origin lies in the strip, centred to
      within a pixel; the drawn ink is centred horizontally exactly when
      its box starts at x = 0 and vertically exactly when it starts at
      y = 0. */
  lemma {:induction false} LabelInStrip(g: Grid, row: int, col: int, e: Entry, bbox: BBox)
    requires 0 <= TextWidth(bbox) <= g.thumbWidth && 0 <= TextHeight(bbox) <= g.labelHeight
    ensures var t := Cell(g, row, col, e, bbox);
      && t.strip.x0 <= t.textX && t.textX + TextWidth(bbox) <= t.strip.x1
      && t.strip.y0 <= t.textY && t.textY + TextHeight(bbox) <= t.strip.y1
      && 0 <= (t.strip.x1 - (t.textX + TextWidth(bbox))) - (t.textX - t.strip.x0) <= 1
      && 0 <= (t.strip.y1 - (t.textY + TextHeight(bbox))) - (t.textY - t.strip.y0) <= 1
    ensures var t := Cell(g, row, col, e, bbox);
      var ink := Ink(t.textX, t.textY, bbox);
      && (CentredSpan(ink.left, ink.right, t.strip.x0, t.strip.x1) <==> bbox.left == 0)
      && (CentredSpan(ink.top, ink.bottom, t.strip.y0, t.strip.y1) <==> bbox.top == 0)
  {
    var t := Cell(g, row, col, e, bbox);
    CentreInside(g.thumbWidth, TextWidth(bbox));
    CentreInside(g.labelHeight, TextHeight(bbox));
    CentredOnlyWithoutOffset(t.strip.x0, g.thumbWidth, bbox.left, bbox.right);
    CentredOnlyWithoutOffset(t.strip.y0, g.labelHeight, bbox.top, bbox.bottom);
  }

  /** In the hero layout, a bottom-row label whose box starts 40 pixels
      below the origin is drawn 17 pixels past the bottom of the canvas. */
  lemma {:induction false} LabelDrawnOffCanvas(e: Entry)
    ensures var t := Cell(Layout, 1, 0, e, BBox(0, 40, 10, 60));
      var ink := Ink(t.textX, t.textY, BBox(0, 40, 10, 60));
      ink.bottom - TotalHeight(Layout) == 17
  {
  }

  /** The label origin with the box's offsets taken into account, as the
      comment "Center the text" intends. */
  function CentredLabelOrigin(g: Grid, row: int, col: int, bbox: BBox): (int, int)
  {
    var x := g.padding + col * (g.thumbWidth + g.padding);
    var labelY := g.padding + row * (g.thumbHeight + g.labelHeight + g.padding) + g.thumbHeight;
    (x + CentredOrigin(g.thumbWidth, bbox.left, bbox.right),
     labelY + CentredOrigin(g.labelHeight, bbox.top, bbox.bottom))
  }

  /** Drawn at the corrected origin, every label no wider than the
      thumbnail and no taller than the strip has its ink inside the strip,
      centred both ways to within a pixel. */
  lemma {:induction false} CentredLabelInStrip(g: Grid, row: int, col: int, e: Entry, bbox: BBox)
    requires 0 <= TextWidth(bbox) <= g.thumbWidth && 0 <= TextHeight(bbox) <= g.labelHeight
    ensures var t := Cell(g, row, col, e, bbox);
      var o := CentredLabelOrigin(g, row, col, bbox);
      var ink := Ink(o.0, o.1, bbox);
      && CentredSpan(ink.left, ink.right, t.strip.x0, t.strip.x1)
      && CentredSpan(ink.top, ink.bottom, t.strip.y0, t.strip.y1)
  {
    var t := Cell(g, row, col, e, bbox);
    CentredOriginCentres(t.strip.x0, g.thumbWidth, bbox.left, bbox.right);
    CentredOriginCentres(t.strip.y0, g.labelHeight, bbox.top, bbox.bottom);
  }

  /** The mark is anchored inside the thumbnail, CheckInset pixels in from
      its right and bottom edges, and shows the entry's verdict: a green
      tick for a good output, a red cross for a bad one. */
  lemma {:induction false} MarkOnPicture(g: Grid, row: int, col: int, e: Entry, bbox: BBox)
    requires g.thumbWidth >= CheckInset && g.thumbHeight >= CheckInset
    ensures var t := Cell(g, row, col, e, bbox);
      && t.picture.x0 <= t.checkX && t.checkX + CheckInset == t.picture.x1 + 1
      && t.picture.y0 <= t.checkY && t.checkY + CheckInset == t.picture.y1 + 1
    ensures var t := Cell(g, row, col, e, bbox);
      (t.mark == '✓' <==> e.good) && (t.markColour.g == 255 <==> e.good) && (t.markColour.r == 255 <==> !e.good)
  {
  }

  /** The hero canvas is 1624 x 1024 pixels; the good outputs fill the top
      row and the bad ones the bottom row. */
  lemma {:induction false} HeroLayout(bboxes: seq<BBox>, available: set<string>)
    requires |bboxes| == |Images|
    ensures var c := Compose(Layout, Images, bboxes, available);
      c.width == 1624 && c.height == 1024
    ensures var c := Compose(Layout, Images, bboxes, available);
      forall k :: 0 <= k < |c.tiles| ==> (Images[k].good <==> c.tiles[k].row == 0)
  {
    var c := Compose(Layout, Images, bboxes, available);
    forall k | 0 <= k < |c.tiles| ensures Images[k].good <==> c.tiles[k].row == 0 {
      assert c.tiles[k] == Place(Layout, k, Images[k], bboxes[k]);
    }
  }

  /** Every tile of the hero composite lies on the canvas, and no two
      tiles share a pixel. */
  lemma {:induction false} HeroTiles(bboxes: seq<BBox>, available: set<string>)
    requires |bboxes| == |Images|
    ensures var c := Compose(Layout, Images, bboxes, available);
      forall k :: 0 <= k < |c.tiles| ==> Inside(Block(c.tiles[k]), c.width, c.height)
    ensures var c := Compose(Layout, Images, bboxes, available);
      forall k, k' :: 0 <= k < k' < |c.tiles| ==> Apart(Block(c.tiles[k]), Block(c.tiles[k']))
  {
    var c := Compose(Layout, Images, bboxes, available);
    forall k | 0 <= k < |c.tiles| ensures Inside(Block(c.tiles[k]), c.width, c.height) {
      assert c.tiles[k] == Place(Layout, k, Images[k], bboxes[k]);
      TileIndex(Layout, k, Images[k], bboxes[k]);
      TileOnCanvas(Layout, k / 2, k % 2, Images[k], bboxes[k]);
    }
    forall k, k' | 0 <= k < k' < |c.tiles| ensures Apart(Block(c.tiles[k]), Block(c.tiles[k'])) {
      assert c.tiles[k] == Place(Layout, k, Images[k], bboxes[k]);
      assert c.tiles[k'] == Place(Layout, k', Images[k'], bboxes[k']);
      PlacesApart(Layout, k, k', Images[k], Images[k'], bboxes[k], bboxes[k']);
    }
  }

  /** The verdict marks need a font file: when none loads, the label font
      is PIL's built-in one and the mark is drawn with `font=None`, which
      PIL also resolves to its default font; otherwise both come from the
      same file. */
  lemma {:induction false} HeroFonts(g: Grid, images: seq<Entry>, bboxes: seq<BBox>, available: set<string>)
    requires g.cols > 0 && |bboxes| == |images|
    ensures var c := Compose(g, images, bboxes, available);
      c.checkFont.None? <==> c.labelFont == BuiltIn
    ensures var c := Compose(g, images, bboxes, available);
      c.checkFont.Some? ==> c.checkFont.value.path == c.labelFont.path && c.checkFont.value.size == CheckFontSize
  {
    SameFileAtEverySize(FontPaths, available, CheckFontSize, LabelFontSize);
    var f := TryFonts(FontPaths, available, CheckFontSize);
    if f.Some? {
      var k :| FirstAt(FontPaths, available, k) && f.value == TrueType(FontPaths[k], CheckFontSize);
    }
  }
}
