/** The display driver: its frame buffer, updated in place. */
module Displays {
  import opened Bits
  import opened Frames
  import opened Lines

  // ---------------------------------------------------------------------
  // Points.

  predicate OnScreen(p: Point, pages: nat) {
    0 <= p.x < COLUMNS && 0 <= p.y < 8 * pages
  }

  /** What `_ssd1306_pixel` makes of the frame. */
  function Plot(f: seq<bv8>, flip: bool, p: Point, invert: bool): (r: seq<bv8>)
    requires |f| == SIZE && OnScreen(p, 8)
    ensures |r| == SIZE
  {
    f[At(p.y / 8, p.x) := PixelByte(f[At(p.y / 8, p.x)], flip, p.y % 8, invert)]
  }

  /** The points plotted one after the other. */
  function Plotted(f: seq<bv8>, flip: bool, points: seq<Point>, invert: bool): (r: seq<bv8>)
    requires |f| == SIZE && forall k :: 0 <= k < |points| ==> OnScreen(points[k], 8)
    ensures |r| == SIZE
    decreases |points|
  {
    if points == [] then f
    else Plot(Plotted(f, flip, points[..|points| - 1], invert), flip, points[|points| - 1], invert)
  }

  /** On a display that is not flipped, exactly the pixels of the points change. */
  lemma {:induction false} PlottedPixel(f: seq<bv8>, points: seq<Point>, invert: bool, x: nat, y: nat)
    requires |f| == SIZE && (forall k :: 0 <= k < |points| ==> OnScreen(points[k], 8)) && x < COLUMNS && y < 64
    ensures Pixel(Plotted(f, false, points, invert), false, x, y)
            == if Point(x, y) in points then !invert else Pixel(f, false, x, y)
    decreases |points|
  {
    if points != [] {
      var front, p := points[..|points| - 1], points[|points| - 1];
      PlottedPixel(f, front, invert, x, y);
      var g := Plotted(f, false, front, invert);
      PixelByteSets(g[At(p.y / 8, p.x)], p.y % 8, invert);
      assert Plot(g, false, p, invert) == SetPixel(g, false, p.x, p.y, !invert);
      SetPixelPixel(g, false, p.x, p.y, !invert, x, y);
      assert points == front + [p];
    }
  }

  /** Drawing a line that is on the screen changes its points, and nothing else. */
  lemma LinePixels(f: seq<bv8>, a: Point, b: Point, pages: nat, invert: bool, x: nat, y: nat)
    requires |f| == SIZE && pages <= 8 && OnScreen(a, pages) && OnScreen(b, pages) && x < COLUMNS && y < 64
    ensures forall k :: 0 <= k < |Line(a, b)| ==> OnScreen(Line(a, b)[k], pages) && OnScreen(Line(a, b)[k], 8)
    ensures Pixel(Plotted(f, false, Line(a, b), invert), false, x, y)
            == if Point(x, y) in Line(a, b) then !invert else Pixel(f, false, x, y)
  {
    LineOnScreen(a, b, pages);
    PlottedPixel(f, Line(a, b), invert, x, y);
  }

  /** Every pixel but the one of the point is kept, and that one is set. */
  predicate SetsOnly(f: seq<bv8>, g: seq<bv8>, flip: bool, p: Point, on: bool)
    requires |f| == |g| == SIZE
  {
    forall x, y :: 0 <= x < COLUMNS && 0 <= y < 64 ==>
      Pixel(g, flip, x, y) == if Point(x, y) == p then on else Pixel(f, flip, x, y)
  }

  lemma SetsOnlyIsSetPixel(f: seq<bv8>, g: seq<bv8>, flip: bool, p: Point, on: bool)
    requires |f| == |g| == SIZE && OnScreen(p, 8)
    ensures SetsOnly(f, g, flip, p, on) <==> g == SetPixel(f, flip, p.x, p.y, on)
  {
    hide Pixel, SetPixel;
    var h := SetPixel(f, flip, p.x, p.y, on);
    forall x, y | 0 <= x < COLUMNS && 0 <= y < 64
      ensures Pixel(h, flip, x, y) == if Point(x, y) == p then on else Pixel(f, flip, x, y)
    {
      SetPixelPixel(f, flip, p.x, p.y, on, x, y);
    }
    if SetsOnly(f, g, flip, p, on) {
      SamePixels(g, h, flip);
    }
  }

  /** The eight pixels of a page and column of a flipped display read the same upwards and
      downwards. */
  predicate SameUpsideDown(f: seq<bv8>, x: nat, page: nat)
    requires |f| == SIZE && x < COLUMNS && page < 8
  {
    forall y :: 8 * page <= y < 8 * page + 8 ==> Pixel(f, true, x, y) == Pixel(f, true, x, 16 * page + 7 - y)
  }

  lemma UpsideDownIsPalindrome(f: seq<bv8>, x: nat, page: nat)
    requires |f| == SIZE && x < COLUMNS && page < 8
    ensures SameUpsideDown(f, x, page) <==> Palindrome(f[At(page, x)])
  {
    hide Bit, Mirror;
    var b := f[At(page, x)];
    forall y | 8 * page <= y < 8 * page + 8 ensures Pixel(f, true, x, y) == Bit(b, 7 - (y - 8 * page)) {
      MirrorBit(b, y - 8 * page);
    }
    if SameUpsideDown(f, x, page) {
      forall m | 0 <= m < 8 ensures Bit(b, m) == Bit(b, 7 - m) {
        var y := 8 * page + 7 - m;
        assert Pixel(f, true, x, y) == Pixel(f, true, x, 16 * page + 7 - y);
      }
    }
  }

  /** On a flipped display a point sets its pixel and changes no other if and only if the
      column of eight pixels that it is in reads the same upwards and downwards. */
  lemma PlotFlipped(f: seq<bv8>, p: Point, invert: bool)
    requires |f| == SIZE && OnScreen(p, 8)
    ensures SetsOnly(f, Plot(f, true, p, invert), true, p, !invert) <==> SameUpsideDown(f, p.x, p.y / 8)
  {
    hide SetsOnly, SameUpsideDown, Palindrome, PixelByte, View, SetBit;
    var b := f[At(p.y / 8, p.x)];
    SetsOnlyIsSetPixel(f, Plot(f, true, p, invert), true, p, !invert);
    UpsideDownIsPalindrome(f, p.x, p.y / 8);
    PixelByteFlipped(b, p.y % 8, invert);
    assert Plot(f, true, p, invert)[At(p.y / 8, p.x)] == PixelByte(b, true, p.y % 8, invert);
    assert SetPixel(f, true, p.x, p.y, !invert)[At(p.y / 8, p.x)]
           == View(SetBit(View(b, true), p.y % 8, !invert), true);
  }

  /** What the point does in any case: its pixel is set, the others of its column of eight
      are turned upside down, and all else is kept. */
  lemma PlotFlippedPixel(f: seq<bv8>, p: Point, invert: bool, x: nat, y: nat)
    requires |f| == SIZE && OnScreen(p, 8) && x < COLUMNS && y < 64
    ensures Pixel(Plot(f, true, p, invert), true, x, y)
            == if Point(x, y) == p then !invert
               else if x == p.x && y / 8 == p.y / 8 then Pixel(f, true, x, 16 * (y / 8) + 7 - y)
               else Pixel(f, true, x, y)
  {
    hide Bit, Mirror, SetBit;
    if x == p.x && y / 8 == p.y / 8 {
      var b := f[At(p.y / 8, p.x)];
      ViewView(SetBit(b, p.y % 8, !invert), true);
      SetBitBit(b, p.y % 8, !invert, y % 8);
      MirrorBit(b, 7 - y % 8);
    }
  }

  /** With a single pixel on at the bottom of the first column, setting the one in the
      middle moves it to the top. */
  lemma FlippedPlotMovesPixels(f: seq<bv8>)
    requires |f| == SIZE && f[0] == 1
    ensures Pixel(f, true, 0, 7) && !Pixel(f, true, 0, 0)
    ensures var g := Plot(f, true, Point(0, 3), false);
      Pixel(g, true, 0, 3) && Pixel(g, true, 0, 0) && !Pixel(g, true, 0, 7)
  {
  }

  lemma LineOnScreen(a: Point, b: Point, pages: nat)
    requires OnScreen(a, pages) && OnScreen(b, pages)
    ensures forall k :: 0 <= k < |Line(a, b)| ==> OnScreen(Line(a, b)[k], pages)
  {
    forall k | 0 <= k < |Line(a, b)| ensures OnScreen(Line(a, b)[k], pages) {
      LineInBox(a, b, k);
    }
  }

  // ---------------------------------------------------------------------
  // Bitmaps.

  /** The pixel of the bitmap, most significant bit first. */
  predicate Source(bitmap: seq<bv8>, width: nat, height: nat, u: nat, v: nat)
    requires width % 8 == 0 && |bitmap| >= width / 8 * height && u < width && v < height
  {
    InBitmap(width, height, u, v);
    Bit(bitmap[v * (width / 8) + u / 8], 7 - u % 8)
  }

  lemma InBitmap(width: nat, height: nat, u: nat, v: nat)
    requires width % 8 == 0 && u < width && v < height
    ensures v * (width / 8) + u / 8 < width / 8 * height
  {
    var w := width / 8;
    assert u / 8 < w;
    Rows(v, height, w);
  }

  lemma Rows(v: nat, height: nat, w: nat)
    requires v < height
    ensures v * w + w <= w * height
  {
    assert (height - v - 1) * w >= 0;
    assert w * height == v * w + w + (height - v - 1) * w;
  }

  // ---------------------------------------------------------------------
  // Text.

  /** One character: the eight columns of the font, inverted and turned over as asked for. */
  function Glyph(columns: seq<bv8>, invert: bool, flip: bool): (r: seq<bv8>)
    requires |columns| == 8
    ensures |r| == 8
  {
    seq(8, i requires 0 <= i < 8 => View(if invert then !columns[i] else columns[i], flip))
  }

  ghost predicate FontOk(font: seq<seq<bv8>>) {
    forall c :: 0 <= c < |font| ==> |font[c]| == 8
  }

  /** The columns of the first n characters. */
  function Glyphs(font: seq<seq<bv8>>, text: seq<nat>, n: nat, invert: bool, flip: bool): (r: seq<bv8>)
    requires FontOk(font) && n <= |text| && forall k :: 0 <= k < |text| ==> text[k] < |font|
    ensures |r| == 8 * n
  {
    if n == 0 then [] else Glyphs(font, text, n - 1, invert, flip) + Glyph(font[text[n - 1]], invert, flip)
  }

  /** The frame after columns have been copied to it. */
  function PutColumns(f: seq<bv8>, at: nat, columns: seq<bv8>): (r: seq<bv8>)
    requires at + |columns| <= |f|
    ensures |r| == |f|
  {
    f[..at] + columns + f[at + |columns|..]
  }

  lemma PutMore(f: seq<bv8>, at: nat, a: seq<bv8>, b: seq<bv8>)
    requires at + |a| + |b| <= |f|
    ensures PutColumns(PutColumns(f, at, a), at + |a|, b) == PutColumns(f, at, a + b)
  {
  }

  // ---------------------------------------------------------------------
  // The scrolling log.

  /** The pages from start to end, in either direction. */
  predicate InLog(start: nat, end: nat, page: int) {
    start <= page <= end || end <= page <= start
  }

  predicate Past(edge: int, direction: int, page: int) {
    if direction > 0 then page > edge else page < edge
  }

  function Direction(start: nat, end: nat): int {
    if start > end then -1 else 1
  }

  /** The pages past an edge have been shifted, the others not yet. */
  predicate ShiftedPast(now: seq<bv8>, was: seq<bv8>, width: nat, start: nat, end: nat, edge: int)
    requires |now| == |was| == SIZE && start < 8 && end < 8
  {
    forall i :: 0 <= i < SIZE ==>
      now[i] == if InLog(start, end, i / 128) && Past(edge, Direction(start, end), i / 128)
                then Shifted(was, width, start, end)[i] else was[i]
  }

  /** The frame with columns 0 to width of one page copied to another. */
  function Copied(f: seq<bv8>, width: nat, dst: nat, src: nat): (r: seq<bv8>)
    requires |f| == SIZE && src < 8
    ensures |r| == SIZE
  {
    seq(SIZE, i requires 0 <= i < SIZE => if i / 128 == dst && i % 128 < width then f[At(src, i % 128)] else f[i])
  }

  lemma ShiftStarts(was: seq<bv8>, width: nat, start: nat, end: nat)
    requires |was| == SIZE && start < 8 && end < 8
    ensures ShiftedPast(was, was, width, start, end, end)
  {
  }

  lemma ShiftNext(now: seq<bv8>, was: seq<bv8>, width: nat, start: nat, end: nat, src: nat)
    requires |now| == |was| == SIZE && start < 8 && end < 8 && InLog(start, end, src) && src != end
    requires ShiftedPast(now, was, width, start, end, src + Direction(start, end))
    ensures var dst := src + Direction(start, end);
      0 <= dst < 8 && ShiftedPast(Copied(now, width, dst, src), was, width, start, end, src)
  {
  }

  lemma ShiftEnds(now: seq<bv8>, was: seq<bv8>, width: nat, start: nat, end: nat)
    requires |now| == |was| == SIZE && start < 8 && end < 8 && ShiftedPast(now, was, width, start, end, start)
    ensures now == Shifted(was, width, start, end)
  {
  }

  /** The page that `ssd1306_scroll_text` copies from in turn k of its loop. */
  function SourceAt(start: nat, end: nat, k: nat): int {
    end - Direction(start, end) * (k + 1)
  }

  /** The loop comes to its last page if and only if the log has more than one. */
  lemma ScrollEnds(start: nat, end: nat)
    ensures (exists k: nat :: SourceAt(start, end, k) == start) <==> start != end
  {
    if start != end {
      assert SourceAt(start, end, Abs(end - start) - 1) == start;
    }
  }

  /** Up to there it stays in the log; in a log of one page it walks to page -1. */
  lemma ScrollStays(start: nat, end: nat, k: nat)
    ensures start != end && k < Abs(end - start) ==> InLog(start, end, SourceAt(start, end, k))
    ensures start == end && k < end ==> 0 <= SourceAt(start, end, k) < end
    ensures start == end ==> SourceAt(start, end, end) == -1
  {
  }

  /** A log of page 2 alone is accepted, and left for pages 1, 0 and -1. */
  lemma ScrollLeavesTheBuffer()
    ensures SourceAt(2, 2, 0) == 1 && SourceAt(2, 2, 1) == 0 && SourceAt(2, 2, 2) == -1
    ensures forall k: nat :: SourceAt(2, 2, k) != 2
  {
    ScrollEnds(2, 2);
  }

  /** Every page of the log but the first has taken over the one before it. */
  function Shifted(f: seq<bv8>, width: nat, start: nat, end: nat): (r: seq<bv8>)
    requires |f| == SIZE && start < 8 && end < 8
    ensures |r| == SIZE
  {
    seq(SIZE, i requires 0 <= i < SIZE =>
      if InLog(start, end, i / 128) && i / 128 != start && i % 128 < width then
        f[i - 128 * Direction(start, end)]
      else f[i])
  }

  /** `ssd1306_scroll_text` with the columns of a text. */
  function LogLine(f: seq<bv8>, width: nat, start: nat, end: nat, columns: seq<bv8>): (r: seq<bv8>)
    requires |f| == SIZE && start < 8 && end < 8 && |columns| <= COLUMNS
    ensures |r| == SIZE
  {
    PutColumns(Shifted(f, width, start, end), At(start, 0), columns)
  }

  /** Any number of lines. */
  function LogLines(f: seq<bv8>, width: nat, start: nat, end: nat, lines: seq<seq<bv8>>): (r: seq<bv8>)
    requires |f| == SIZE && start < 8 && end < 8 && forall k :: 0 <= k < |lines| ==> |lines[k]| == COLUMNS
    ensures |r| == SIZE
    decreases |lines|
  {
    if lines == [] then f
    else LogLine(LogLines(f, width, start, end, lines[..|lines| - 1]), width, start, end, lines[|lines| - 1])
  }

  /** After any number of full lines, the log shows the latest ones, newest at its start, as
      far as there are pages and lines; nothing outside its pages has changed. */
  lemma {:induction false} LogShowsLatest(f: seq<bv8>, width: nat, start: nat, end: nat, lines: seq<seq<bv8>>,
      page: nat, x: nat)
    requires |f| == SIZE && start < 8 && end < 8 && start != end && width <= COLUMNS
    requires (forall k :: 0 <= k < |lines| ==> |lines[k]| == COLUMNS) && page < 8 && x < COLUMNS
    ensures var r := LogLines(f, width, start, end, lines);
      && (!InLog(start, end, page) ==> r[At(page, x)] == f[At(page, x)])
      && var k := Abs(page - start);
         (InLog(start, end, page) && k < |lines| && x < width ==> r[At(page, x)] == lines[|lines| - 1 - k][x])
    decreases |lines|
  {
    if lines != [] {
      var front, last := lines[..|lines| - 1], lines[|lines| - 1];
      var g := LogLines(f, width, start, end, front);
      AtPage(f, page, x);
      LogLineAt(g, width, start, end, last, page, x);
      hide LogLine, InLog;
      if page == start || !InLog(start, end, page) {
        LogShowsLatest(f, width, start, end, front, page, x);
      } else {
        OneBack(start, end, page);
        LogShowsLatest(f, width, start, end, front, page - Direction(start, end), x);
      }
    }
  }

  lemma OneBack(start: nat, end: nat, page: nat)
    requires InLog(start, end, page) && page != start && page < 8
    ensures 0 <= page - Direction(start, end) && InLog(start, end, page - Direction(start, end))
    ensures Abs(page - Direction(start, end) - start) + 1 == Abs(page - start)
  {
  }

  lemma LogLineAt(f: seq<bv8>, width: nat, start: nat, end: nat, columns: seq<bv8>, page: nat, x: nat)
    requires |f| == SIZE && start < 8 && end < 8 && |columns| == COLUMNS && page < 8 && x < COLUMNS
    ensures LogLine(f, width, start, end, columns)[At(page, x)] ==
      if page == start then columns[x]
      else if InLog(start, end, page) && x < width then f[At(page - Direction(start, end), x)]
      else f[At(page, x)]
  {
    AtPage(f, page, x);
  }

  // ---------------------------------------------------------------------
  // Text as it shows.

  /** The pixel of a line of text: from the top, bit by bit of the font's columns. */
  predicate TextPixel(font: seq<seq<bv8>>, text: seq<nat>, invert: bool, x: nat, y: nat)
    requires FontOk(font) && x / 8 < |text| && text[x / 8] < |font|
  {
    Bit(font[text[x / 8]][x % 8], y % 8) != invert
  }

  lemma {:induction false} GlyphsAt(font: seq<seq<bv8>>, text: seq<nat>, n: nat, invert: bool, flip: bool, x: nat)
    requires FontOk(font) && n <= |text| && (forall k :: 0 <= k < |text| ==> text[k] < |font|) && x < 8 * n
    ensures Glyphs(font, text, n, invert, flip)[x] == Glyph(font[text[x / 8]], invert, flip)[x % 8]
  {
    hide Glyph;
    if x < 8 * (n - 1) {
      GlyphsAt(font, text, n - 1, invert, flip, x);
    } else {
      assert x / 8 == n - 1 && x % 8 == x - 8 * (n - 1);
    }
  }

  lemma GlyphPixel(column: seq<bv8>, invert: bool, flip: bool, i: nat, n: nat)
    requires |column| == 8 && i < 8 && n < 8
    ensures Bit(View(Glyph(column, invert, flip)[i], flip), n) == (Bit(column[i], n) != invert)
  {
    hide View;
    ViewView(if invert then !column[i] else column[i], flip);
    InvertedBit(column[i], n);
  }

  /** A line of text shows as the font's pixels, flipped or not, and the rest stays. */
  lemma TextShows(f: seq<bv8>, flip: bool, page: nat, font: seq<seq<bv8>>, text: seq<nat>, n: nat, invert: bool,
      x: nat, y: nat)
    requires |f| == SIZE && page < 8 && FontOk(font) && n <= |text| && n <= 16 && x < COLUMNS && y < 64
    requires forall k :: 0 <= k < |text| ==> text[k] < |font|
    ensures Pixel(PutColumns(f, At(page, 0), Glyphs(font, text, n, invert, flip)), flip, x, y)
            == if y / 8 == page && x < 8 * n then TextPixel(font, text, invert, x, y) else Pixel(f, flip, x, y)
  {
    hide Glyph, Glyphs, View, Bit;
    var columns := Glyphs(font, text, n, invert, flip);
    var g := PutColumns(f, At(page, 0), columns);
    if y / 8 == page && x < 8 * n {
      assert g[At(page, x)] == columns[x];
      GlyphsAt(font, text, n, invert, flip, x);
      GlyphPixel(font[text[x / 8]], invert, flip, x % 8, y % 8);
    } else {
      assert g[At(y / 8, x)] == f[At(y / 8, x)];
    }
  }

  /** ... and the log shows a page further on. */
  lemma ShiftShows(f: seq<bv8>, flip: bool, width: nat, start: nat, end: nat, x: nat, y: nat)
    requires |f| == SIZE && start < 8 && end < 8 && width <= COLUMNS && x < COLUMNS && y < 64
    ensures var moved := InLog(start, end, y / 8) && y / 8 != start && x < width;
      && (moved ==> 0 <= y - 8 * Direction(start, end) < 64)
      && Pixel(Shifted(f, width, start, end), flip, x, y)
         == Pixel(f, flip, x, if moved then y - 8 * Direction(start, end) else y)
  {
    hide View, Bit;
    AtPage(f, y / 8, x);
    if InLog(start, end, y / 8) && y / 8 != start && x < width {
      OneBack(start, end, y / 8);
      assert (y - 8 * Direction(start, end)) / 8 == y / 8 - Direction(start, end);
      assert (y - 8 * Direction(start, end)) % 8 == y % 8;
    }
  }

  /** The pixel that a log shows a page nearer to its start. */
  ghost predicate PixelAbove(f: seq<bv8>, flip: bool, start: nat, end: nat, x: nat, y: nat)
    requires |f| == SIZE && x < COLUMNS && y < 64
  {
    var from := y - 8 * Direction(start, end);
    0 <= from < 64 && Pixel(f, flip, x, from)
  }

  /** What a log shows after one more line. */
  ghost predicate LogPixel(f: seq<bv8>, flip: bool, width: nat, start: nat, end: nat, font: seq<seq<bv8>>,
      text: seq<nat>, n: nat, invert: bool, x: nat, y: nat)
    requires |f| == SIZE && FontOk(font) && n <= |text| && x < COLUMNS && y < 64
    requires forall k :: 0 <= k < |text| ==> text[k] < |font|
  {
    if y / 8 == start && x < 8 * n then TextPixel(font, text, invert, x, y)
    else if InLog(start, end, y / 8) && y / 8 != start && x < width then PixelAbove(f, flip, start, end, x, y)
    else Pixel(f, flip, x, y)
  }

  lemma LogLineShows(f: seq<bv8>, flip: bool, width: nat, start: nat, end: nat, font: seq<seq<bv8>>,
      text: seq<nat>, n: nat, invert: bool)
    requires |f| == SIZE && start < 8 && end < 8 && width <= COLUMNS && FontOk(font) && n <= |text| && n <= 16
    requires forall k :: 0 <= k < |text| ==> text[k] < |font|
    ensures var g := LogLine(f, width, start, end, Glyphs(font, text, n, invert, flip));
      forall x, y :: 0 <= x < COLUMNS && 0 <= y < 64 ==>
        Pixel(g, flip, x, y) == LogPixel(f, flip, width, start, end, font, text, n, invert, x, y)
  {
    hide Pixel, TextPixel, PutColumns, Shifted, Glyphs, InLog;
    var g := LogLine(f, width, start, end, Glyphs(font, text, n, invert, flip));
    forall x, y | 0 <= x < COLUMNS && 0 <= y < 64
      ensures Pixel(g, flip, x, y) == LogPixel(f, flip, width, start, end, font, text, n, invert, x, y)
    {
      TextShows(Shifted(f, width, start, end), flip, start, font, text, n, invert, x, y);
      ShiftShows(f, flip, width, start, end, x, y);
    }
  }

  // ---------------------------------------------------------------------
  // The driver.

  class Display {
    const width: nat
    const pages: nat
    var flip: bool
    const segs: array<bv8>
    const font: seq<seq<bv8>>
    var scEnable: bool
    var scStart: nat
    var scEnd: nat
    var scDirection: int

    ghost predicate Valid() {
      segs.Length == SIZE && 0 < pages <= 8 && width <= COLUMNS && FontOk(font)
    }

    ghost predicate Shows(x: nat, y: nat)
      requires Valid() && x < COLUMNS && y < 64
      reads this, segs
    {
      Pixel(segs[..], flip, x, y)
    }

    constructor (width: nat, pages: nat, flip: bool, font: seq<seq<bv8>>)
      requires 0 < pages <= 8 && width <= COLUMNS && FontOk(font)
      ensures Valid() && fresh(segs) && this.width == width && this.pages == pages && this.flip == flip && this.font == font
      ensures segs[..] == seq(SIZE, _ => 0) && !scEnable
    {
      this.width, this.pages, this.flip, this.font := width, pages, flip, font;
      scEnable, scStart, scEnd, scDirection := false, 0, 0, 0;
      segs := new bv8[SIZE](_ => 0);
      new;
      assert segs[..] == seq(SIZE, _ => 0);
    }

    /** A byte turned over if the display is flipped. */
    method Turned(b: bv8) returns (r: bv8)
      ensures r == View(b, flip)
    {
      r := b;
      if flip {
        r := RotateByte(r);
      }
    }

    method Store(page: nat, seg: nat, b: bv8)
      requires Valid() && page < 8 && seg < COLUMNS
      modifies segs
      ensures segs[..] == old(segs[..])[At(page, seg) := b]
    {
      segs[At(page, seg)] := b;
    }

    // Points and lines.

    /** `_ssd1306_pixel`. */
    method SetPoint(p: Point, invert: bool)
      requires Valid() && OnScreen(p, pages)
      modifies segs
      ensures segs[..] == Plot(old(segs[..]), flip, p, invert)
    {
      hide SetBit, View;
      var page, bits, seg := p.y / 8, p.y % 8, p.x;
      var wk0 := WithBit(segs[At(page, seg)], bits, !invert);
      wk0 := Turned(wk0);
      Store(page, seg, wk0);
    }

    /** `_ssd1306_line`. */
    method DrawLine(a: Point, b: Point, invert: bool)
      requires Valid() && OnScreen(a, pages) && OnScreen(b, pages)
      modifies segs
      ensures forall k :: 0 <= k < |Line(a, b)| ==> OnScreen(Line(a, b)[k], 8)
      ensures segs[..] == Plotted(old(segs[..]), flip, Line(a, b), invert)
    {
      LineOnScreen(a, b, pages);
      assert forall k :: 0 <= k < |Line(a, b)| ==> OnScreen(Line(a, b)[k], pages) && OnScreen(Line(a, b)[k], 8);
      hide OnScreen, Plotted, LinePoint;
      var dx, dy := Abs(b.x - a.x), Abs(b.y - a.y);
      if dx > dy {
        DrawFlat(a, b, dx, dy, invert);
      } else {
        DrawSteep(a, b, dx, dy, invert);
      }
    }

    /** Inclination below 1. */
    method DrawFlat(a: Point, b: Point, dx: nat, dy: nat, invert: bool)
      requires Valid() && dx == Abs(b.x - a.x) && dy == Abs(b.y - a.y) && dx > dy
      requires forall k :: 0 <= k < |Line(a, b)| ==> OnScreen(Line(a, b)[k], pages) && OnScreen(Line(a, b)[k], 8)
      modifies segs
      ensures segs[..] == Plotted(old(segs[..]), flip, Line(a, b), invert)
    {
      var sx, sy := Sign(a.x, b.x), Sign(a.y, b.y);
      var x1, y1 := a.x, a.y;
      ghost var points := Line(a, b);
      LineEnds(a, b);
      var e: int := 0 - dx;
      var i := 0;
      hide OnScreen, Plot, Plotted, LinePoint, Walk, Sign;
      NoPlots(segs[..], flip, points, invert);
      WalkStarts(dx, dy);
      while i <= dx
        invariant i <= dx + 1 && (i <= dx ==> Point(x1, y1) == points[i])
        invariant e == Walk(i, dx, dy).1
        invariant segs[..] == Plotted(old(segs[..]), flip, points[..i], invert)
      {
        SetPoint(Point(x1, y1), invert);
        PlotNext(old(segs[..]), flip, points, i, invert);
        LineNext(a, b, i);
        x1 := x1 + sx;
        e := e + 2 * dy;
        if e >= 0 {
          y1 := y1 + sy;
          e := e - 2 * dx;
        }
        i := i + 1;
      }
      assert points[..i] == points;
    }

    /** Inclination 1 and above. */
    method DrawSteep(a: Point, b: Point, dx: nat, dy: nat, invert: bool)
      requires Valid() && dx == Abs(b.x - a.x) && dy == Abs(b.y - a.y) && dx <= dy
      requires forall k :: 0 <= k < |Line(a, b)| ==> OnScreen(Line(a, b)[k], pages) && OnScreen(Line(a, b)[k], 8)
      modifies segs
      ensures segs[..] == Plotted(old(segs[..]), flip, Line(a, b), invert)
    {
      var sx, sy := Sign(a.x, b.x), Sign(a.y, b.y);
      var x1, y1 := a.x, a.y;
      ghost var points := Line(a, b);
      LineEnds(a, b);
      var e: int := 0 - dy;
      var i := 0;
      hide OnScreen, Plot, Plotted, LinePoint, Walk, Sign;
      NoPlots(segs[..], flip, points, invert);
      WalkStarts(dy, dx);
      while i <= dy
        invariant i <= dy + 1 && (i <= dy ==> Point(x1, y1) == points[i])
        invariant e == Walk(i, dy, dx).1
        invariant segs[..] == Plotted(old(segs[..]), flip, points[..i], invert)
      {
        SetPoint(Point(x1, y1), invert);
        PlotNext(old(segs[..]), flip, points, i, invert);
        LineNext(a, b, i);
        y1 := y1 + sy;
        e := e + 2 * dx;
        if e >= 0 {
          x1 := x1 + sx;
          e := e - 2 * dy;
        }
        i := i + 1;
      }
      assert points[..i] == points;
    }

    // Bitmaps.

    /** One pixel of the bitmap: bit srcBits of src goes to bit dstBits of the column. */
    method BlitPixel(src: bv8, srcBits: nat, page: nat, seg: nat, dstBits: nat, invert: bool)
      requires Valid() && srcBits < 8 && page < pages && seg < COLUMNS && dstBits < 8
      modifies segs
      ensures segs[..] == SetPixel(old(segs[..]), flip, seg, 8 * page + dstBits, Bit(src, srcBits) != invert)
    {
      hide Mask, View, SetBit, Bit;
      var wk0 := Turned(segs[At(page, seg)]);
      var wk1 := src;
      if invert {
        wk1 := !wk1;
      }
      InvertedBit(src, srcBits);
      var wk2 := CopyBit(wk1, srcBits, wk0, dstBits);
      wk2 := Turned(wk2);
      Store(page, seg, wk2);
    }

    /** The eight pixels of a byte. */
    method BlitByte(src: bv8, page: nat, seg: nat, dstBits: nat, invert: bool)
      requires Valid() && page < pages && seg + 8 <= COLUMNS && dstBits < 8
      modifies segs
      ensures forall x, y :: 0 <= x < COLUMNS && 0 <= y < 64 ==>
        Shows(x, y) == if y == 8 * page + dstBits && seg <= x < seg + 8 then Bit(src, 7 - (x - seg)) != invert
                       else old(Shows(x, y))
    {
      hide Bit, Pixel, SetPixel;
      ghost var row := 8 * page + dstBits;
      var srcBits := 7;
      while srcBits >= 0
        invariant -1 <= srcBits <= 7
        invariant forall x, y :: 0 <= x < COLUMNS && 0 <= y < 64 ==>
          Shows(x, y) == if y == row && seg <= x < seg + 7 - srcBits then Bit(src, 7 - (x - seg)) != invert
                         else old(Shows(x, y))
      {
        ghost var before := segs[..];
        var column := seg + (7 - srcBits);
        assert 7 - (column - seg) == srcBits;
        BlitPixel(src, srcBits, page, column, dstBits, invert);
        forall x, y | 0 <= x < COLUMNS && 0 <= y < 64
          ensures Shows(x, y) ==
            if x == column && y == row then Bit(src, 7 - (x - seg)) != invert else Pixel(before, flip, x, y)
        {
          SetPixelPixel(before, flip, column, row, Bit(src, srcBits) != invert, x, y);
        }
        srcBits := srcBits - 1;
      }
    }

    /** One line of the bitmap. */
    method BlitRow(bytes: seq<bv8>, xpos: nat, page: nat, dstBits: nat, invert: bool)
      requires Valid() && page < pages && xpos + 8 * |bytes| <= COLUMNS && dstBits < 8
      modifies segs
      ensures forall x, y :: 0 <= x < COLUMNS && 0 <= y < 64 ==>
        Shows(x, y) == if y == 8 * page + dstBits && xpos <= x < xpos + 8 * |bytes|
                       then Bit(bytes[(x - xpos) / 8], 7 - (x - xpos) % 8) != invert
                       else old(Shows(x, y))
    {
      hide Bit, Pixel;
      ghost var row := 8 * page + dstBits;
      var index := 0;
      while index < |bytes|
        invariant index <= |bytes|
        invariant forall x, y :: 0 <= x < COLUMNS && 0 <= y < 64 ==>
          Shows(x, y) == if y == row && xpos <= x < xpos + 8 * index
                         then Bit(bytes[(x - xpos) / 8], 7 - (x - xpos) % 8) != invert
                         else old(Shows(x, y))
      {
        BlitByte(bytes[index], page, xpos + 8 * index, dstBits, invert);
        index := index + 1;
      }
    }

    /** `ssd1306_bitmaps`: exactly the rectangle changes, and shows the bitmap. */
    method Bitmaps(xpos: nat, ypos: nat, bitmap: seq<bv8>, width: nat, height: nat, invert: bool)
      requires Valid() && xpos + width <= COLUMNS && ypos + height <= 8 * pages
      requires width % 8 == 0 ==> |bitmap| >= width / 8 * height
      modifies segs
      ensures width % 8 != 0 ==> segs[..] == old(segs[..])
      ensures width % 8 == 0 ==> forall x, y :: 0 <= x < COLUMNS && 0 <= y < 64 ==>
        Shows(x, y) == if xpos <= x < xpos + width && ypos <= y < ypos + height
                       then Source(bitmap, width, height, x - xpos, y - ypos) != invert
                       else old(Shows(x, y))
    {
      if width % 8 != 0 {
        return;
      }
      hide Bit, Pixel;
      var w := width / 8;
      var page, dstBits, offset := ypos / 8, ypos % 8, 0;
      var row := 0;
      while row < height
        invariant row <= height && 0 <= dstBits < 8 && 8 * page + dstBits == ypos + row && offset == row * w
        invariant forall x, y :: 0 <= x < COLUMNS && 0 <= y < 64 ==>
          Shows(x, y) == if xpos <= x < xpos + width && ypos <= y < ypos + row
                         then Source(bitmap, width, height, x - xpos, y - ypos) != invert
                         else old(Shows(x, y))
      {
        Rows(row, height, w);
        BlitRow(bitmap[offset..offset + w], xpos, page, dstBits, invert);
        assert (row + 1) * w == row * w + w;
        offset := offset + w;
        dstBits := dstBits + 1;
        if dstBits == 8 {
          page := page + 1;
          dstBits := 0;
        }
        row := row + 1;
      }
    }

    // Vertical scrolling.

    /** The columns that a scroll moves end at the width. */
    function Clipped(end: int): int {
      if end >= width then width - 1 else end
    }

    /** One page moves up; row holds the page below. */
    method UpPage(page: nat, row: seq<bv8>, start: nat, end: int)
      requires Valid() && page < pages && |row| == COLUMNS && end < COLUMNS
      modifies segs
      ensures forall i :: 0 <= i < SIZE ==>
        segs[i] == if i / 128 == page && start <= i % 128 <= end
                   then View(UpByte(View(old(segs[i]), flip), View(row[i % 128], flip)), flip) else old(segs[i])
    {
      hide View;
      var seg := start;
      while seg <= end
        invariant start <= seg && (seg <= end + 1 || seg == start)
        invariant forall i :: 0 <= i < SIZE ==>
          segs[i] == if i / 128 == page && start <= i % 128 < seg
                     then View(UpByte(View(old(segs[i]), flip), View(row[i % 128], flip)), flip) else old(segs[i])
      {
        AtPage(segs[..], page, seg);
        var wk0 := Turned(segs[At(page, seg)]);
        var wk1 := Turned(row[seg]);
        wk0 := wk0 >> 1;
        wk1 := wk1 & 0x01;
        wk1 := wk1 << 7;
        var wk2 := Turned(wk0 | wk1);
        segs[At(page, seg)] := wk2;
        seg := seg + 1;
      }
    }

    /** SCROLL_UP of `ssd1306_wrap_arround`. */
    method ScrollUp(start: nat, end: int)
      requires Valid()
      modifies segs
      ensures segs[..] == Up(old(segs[..]), flip, pages, start, Clipped(end))
    {
      hide View, UpByte, Up;
      var last := Clipped(end);
      ghost var was := segs[..];
      ghost var goal := Up(was, flip, pages, start, last);
      UpOutside(was, flip, pages, start, last);
      var save := segs[..128];
      var page := 0;
      while page < pages - 1
        invariant page <= pages - 1
        invariant forall i :: 0 <= i < SIZE ==> segs[i] == if i / 128 < page then goal[i] else was[i]
      {
        var row := segs[At(page + 1, 0)..At(page + 2, 0)];
        UpRow(was, flip, pages, start, last, page, row);
        UpPage(page, row, start, last);
        page := page + 1;
      }
      UpRow(was, flip, pages, start, last, page, save);
      UpPage(page, save, start, last);
      assert segs[..] == goal;
    }

    /** One page moves down; row holds the page above. */
    method DownPage(page: nat, row: seq<bv8>, start: nat, end: int)
      requires Valid() && page < pages && |row| == COLUMNS && end < COLUMNS
      modifies segs
      ensures forall i :: 0 <= i < SIZE ==>
        segs[i] == if i / 128 == page && start <= i % 128 <= end
                   then View(DownByte(View(old(segs[i]), flip), View(row[i % 128], flip)), flip) else old(segs[i])
    {
      hide View;
      var seg := start;
      while seg <= end
        invariant start <= seg && (seg <= end + 1 || seg == start)
        invariant forall i :: 0 <= i < SIZE ==>
          segs[i] == if i / 128 == page && start <= i % 128 < seg
                     then View(DownByte(View(old(segs[i]), flip), View(row[i % 128], flip)), flip) else old(segs[i])
      {
        AtPage(segs[..], page, seg);
        var wk0 := Turned(segs[At(page, seg)]);
        var wk1 := Turned(row[seg]);
        wk0 := wk0 << 1;
        wk1 := wk1 & 0x80;
        wk1 := wk1 >> 7;
        var wk2 := Turned(wk0 | wk1);
        segs[At(page, seg)] := wk2;
        seg := seg + 1;
      }
    }

    /** SCROLL_DOWN. */
    method ScrollDown(start: nat, end: int)
      requires Valid()
      modifies segs
      ensures segs[..] == Down(old(segs[..]), flip, pages, start, Clipped(end))
    {
      hide View, DownByte, Down, Prev;
      var last := Clipped(end);
      ghost var was := segs[..];
      ghost var goal := Down(was, flip, pages, start, last);
      DownOutside(was, flip, pages, start, last);
      var page := pages - 1;
      var save := segs[At(page, 0)..At(page + 1, 0)];
      while page > 0
        invariant 0 <= page <= pages - 1
        invariant forall i :: 0 <= i < SIZE ==> segs[i] == if page < i / 128 < pages then goal[i] else was[i]
      {
        var row := segs[At(page - 1, 0)..At(page, 0)];
        assert Prev(page, pages) == page - 1 by { PrevIs(page, pages); }
        DownRow(was, flip, pages, start, last, page, row);
        DownPage(page, row, start, last);
        page := page - 1;
      }
      PrevIs(0, pages);
      DownRow(was, flip, pages, start, last, 0, save);
      DownPage(0, save, start, last);
      assert segs[..] == goal;
    }

    // Text.

    /** `ssd1306_invert`. */
    method Invert(buf: array<bv8>)
      modifies buf
      ensures forall i :: 0 <= i < buf.Length ==> buf[i] == !old(buf[i])
    {
      var i := 0;
      while i < buf.Length
        invariant i <= buf.Length
        invariant forall k :: 0 <= k < buf.Length ==> buf[k] == if k < i then !old(buf[k]) else old(buf[k])
      {
        buf[i] := !buf[i];
        i := i + 1;
      }
    }

    /** `ssd1306_flip`. */
    method TurnOver(buf: array<bv8>)
      modifies buf
      ensures forall i :: 0 <= i < buf.Length ==> buf[i] == Mirror(old(buf[i]))
    {
      hide Mirror;
      var i := 0;
      while i < buf.Length
        invariant i <= buf.Length
        invariant forall k :: 0 <= k < buf.Length ==> buf[k] == if k < i then Mirror(old(buf[k])) else old(buf[k])
      {
        buf[i] := RotateByte(buf[i]);
        i := i + 1;
      }
    }

    /** The image of one character. */
    method Image(c: nat, invert: bool) returns (image: array<bv8>)
      requires Valid() && c < |font|
      ensures fresh(image) && image[..] == Glyph(font[c], invert, flip)
    {
      hide Mirror;
      var columns := font[c];
      image := new bv8[8](i requires 0 <= i < 8 => columns[i]);
      if invert {
        Invert(image);
      }
      if flip {
        TurnOver(image);
      }
    }

    /** `ssd1306_display_image`, in the frame buffer. */
    method DisplayImage(page: nat, seg: nat, image: seq<bv8>)
      requires Valid() && page < 8 && seg + |image| <= COLUMNS
      modifies segs
      ensures segs[..] == PutColumns(old(segs[..]), At(page, seg), image)
    {
      forall i | 0 <= i < |image| {
        segs[At(page, seg) + i] := image[i];
      }
      assert segs[..] == PutColumns(old(segs[..]), At(page, seg), image);
    }

    /** `ssd1306_display_text`. */
    method DisplayText(page: nat, text: seq<nat>, textLen: int, invert: bool)
      requires Valid() && (forall k :: 0 <= k < |text| ==> text[k] < |font|) && textLen <= |text|
      modifies segs
      ensures page >= pages ==> segs[..] == old(segs[..])
      ensures page < pages ==>
        segs[..] == PutColumns(old(segs[..]), At(page, 0), Glyphs(font, text, Shown(textLen), invert, flip))
      ensures page < pages ==> forall x, y :: 0 <= x < COLUMNS && 0 <= y < 64 ==>
        Shows(x, y) == if y / 8 == page && x < 8 * Shown(textLen) then TextPixel(font, text, invert, x, y)
                       else old(Shows(x, y))
    {
      hide PutColumns, Glyph, Glyphs;
      if page >= pages {
        return;
      }
      var len := textLen;
      if len > 16 {
        len := 16;
      }
      var i := 0;
      PutNothing(segs[..], At(page, 0));
      NoGlyphs(font, text, invert, flip);
      while i < len
        invariant 0 <= i && (i <= len || i == 0)
        invariant segs[..] == PutColumns(old(segs[..]), At(page, 0), Glyphs(font, text, i, invert, flip))
      {
        var image := Image(text[i], invert);
        PutMore(old(segs[..]), At(page, 0), Glyphs(font, text, i, invert, flip), image[..]);
        OneGlyph(font, text, i, invert, flip);
        DisplayImage(page, 8 * i, image[..]);
        i := i + 1;
      }
      forall x, y | 0 <= x < COLUMNS && 0 <= y < 64
        ensures Shows(x, y) == if y / 8 == page && x < 8 * Shown(textLen) then TextPixel(font, text, invert, x, y)
                               else old(Shows(x, y))
      {
        TextShows(old(segs[..]), flip, page, font, text, Shown(textLen), invert, x, y);
      }
    }

    /** `ssd1306_software_scroll`. */
    method SoftwareScroll(start: int, end: int)
      modifies `scEnable, `scStart, `scEnd, `scDirection
      ensures scEnable <==> 0 <= start < pages && 0 <= end < pages
      ensures scEnable ==> scStart == start && scEnd == end && scDirection == Direction(start, end)
    {
      if start < 0 || end < 0 {
        scEnable := false;
      } else if start >= pages || end >= pages {
        scEnable := false;
      } else {
        scEnable := true;
        scStart := start;
        scEnd := end;
        scDirection := 1;
        if start > end {
          scDirection := -1;
        }
      }
    }

    /** Columns 0 to width of page src are copied to page dst. */
    method CopyPage(dst: nat, src: nat)
      requires Valid() && dst < 8 && src < 8 && dst != src
      modifies segs
      ensures segs[..] == Copied(old(segs[..]), width, dst, src)
    {
      var seg := 0;
      while seg < width
        invariant seg <= width
        invariant forall i :: 0 <= i < SIZE ==>
          segs[i] == if i / 128 == dst && i % 128 < seg then old(segs[At(src, i % 128)]) else old(segs[i])
      {
        AtPage(segs[..], dst, seg);
        AtPage(segs[..], src, seg);
        segs[At(dst, seg)] := segs[At(src, seg)];
        seg := seg + 1;
      }
    }

    /** `ssd1306_scroll_text`. It does not come to the text if its loop leaves the buffer. */
    method ScrollText(text: seq<nat>, textLen: int, invert: bool) returns (inside: bool)
      requires Valid() && (forall k :: 0 <= k < |text| ==> text[k] < |font|) && textLen <= |text|
      requires scEnable ==> scStart < pages && scEnd < pages && scDirection == Direction(scStart, scEnd)
      modifies segs
      ensures !scEnable ==> inside && segs[..] == old(segs[..])
      ensures scEnable ==> (inside <==> scStart != scEnd)
      ensures scEnable && inside ==>
        segs[..] == LogLine(old(segs[..]), width, scStart, scEnd, Glyphs(font, text, Shown(textLen), invert, flip))
      ensures scEnable && !inside ==> segs[..] == Shifted(old(segs[..]), width, 0, scEnd)
      ensures scEnable && inside ==> forall x, y :: 0 <= x < COLUMNS && 0 <= y < 64 ==>
        Shows(x, y) == LogPixel(old(segs[..]), flip, width, scStart, scEnd, font, text, Shown(textLen), invert, x, y)
    {
      if !scEnable {
        return true;
      }
      hide Glyphs, PutColumns, Shifted, TextPixel, Pixel, LogPixel;
      LogLineShows(segs[..], flip, width, scStart, scEnd, font, text, Shown(textLen), invert);
      ghost var turns;
      inside, turns := ShiftPages();
      if inside {
        DisplayText(scStart, text, textLen, invert);
      }
    }

    /** The loop: from the end of the log to its start, or off the buffer at page -1, where
        this stops. The last page is the one of turn number turns. */
    method ShiftPages() returns (inside: bool, ghost turns: nat)
      requires Valid() && scStart < pages && scEnd < pages && scDirection == Direction(scStart, scEnd)
      modifies segs
      ensures inside <==> scStart != scEnd
      ensures SourceAt(scStart, scEnd, turns) == if inside then scStart else -1
      ensures forall k :: 0 <= k < turns ==> SourceAt(scStart, scEnd, k) != scStart
      ensures segs[..] == Shifted(old(segs[..]), width, if inside then scStart else 0, scEnd)
    {
      hide FontOk, Shifted, ShiftedPast, Copied;
      ghost var was := segs[..];
      ghost var first := if scStart != scEnd then scStart else 0;
      var srcIndex := scEnd - scDirection;
      inside, turns := srcIndex >= 0, 0;
      var more := inside;
      ghost var edge: int := scEnd;
      ShiftStarts(was, width, first, scEnd);
      while more
        invariant srcIndex == SourceAt(scStart, scEnd, turns)
        invariant srcIndex < 0 || (InLog(first, scEnd, srcIndex) && srcIndex != scEnd)
        invariant inside == (srcIndex >= 0) && (!more ==> srcIndex == if scStart != scEnd then scStart else -1)
        invariant forall k :: 0 <= k < turns ==> SourceAt(scStart, scEnd, k) != scStart
        invariant more ==> inside
        invariant edge == if more then srcIndex + scDirection else first
        invariant ShiftedPast(segs[..], was, width, first, scEnd, edge)
        decreases if more then 1 + Abs(srcIndex - first) else 0
      {
        var dstIndex := srcIndex + scDirection;
        ShiftNext(segs[..], was, width, first, scEnd, srcIndex);
        CopyPage(dstIndex, srcIndex);
        edge := srcIndex;
        if srcIndex == scStart {
          more := false;
        } else {
          srcIndex, turns := srcIndex - scDirection, turns + 1;
          if srcIndex < 0 {
            inside, more := false, false;
          }
        }
      }
      ShiftEnds(segs[..], was, width, first, scEnd);
    }
  }

  /** At most 16 characters are shown. */
  function Shown(textLen: int): nat {
    if textLen > 16 then 16 else if textLen < 0 then 0 else textLen
  }

  lemma NoGlyphs(font: seq<seq<bv8>>, text: seq<nat>, invert: bool, flip: bool)
    requires FontOk(font) && forall k :: 0 <= k < |text| ==> text[k] < |font|
    ensures Glyphs(font, text, 0, invert, flip) == []
  {
  }

  lemma OneGlyph(font: seq<seq<bv8>>, text: seq<nat>, i: nat, invert: bool, flip: bool)
    requires FontOk(font) && i < |text| && forall k :: 0 <= k < |text| ==> text[k] < |font|
    ensures Glyphs(font, text, i + 1, invert, flip)
            == Glyphs(font, text, i, invert, flip) + Glyph(font[text[i]], invert, flip)
  {
  }

  lemma PutNothing(f: seq<bv8>, at: nat)
    requires at <= |f|
    ensures PutColumns(f, at, []) == f
  {
  }

  lemma UpOutside(f: seq<bv8>, flip: bool, pages: nat, start: int, end: int)
    requires |f| == SIZE && 0 < pages <= 8
    ensures forall i :: pages * 128 <= i < SIZE ==> Up(f, flip, pages, start, end)[i] == f[i]
  {
  }

  lemma DownOutside(f: seq<bv8>, flip: bool, pages: nat, start: int, end: int)
    requires |f| == SIZE && 0 < pages <= 8
    ensures forall i :: pages * 128 <= i < SIZE ==> Down(f, flip, pages, start, end)[i] == f[i]
  {
  }

  /** A page of the frame that has been scrolled up, from the page and the one below. */
  lemma UpRow(f: seq<bv8>, flip: bool, pages: nat, start: int, end: int, page: nat, row: seq<bv8>)
    requires |f| == SIZE && page < pages <= 8
    requires row == f[At(Next(page, pages), 0)..At(Next(page, pages) + 1, 0)]
    ensures forall i :: 0 <= i < SIZE && i / 128 == page ==>
      Up(f, flip, pages, start, end)[i] ==
        if start <= i % 128 <= end then View(UpByte(View(f[i], flip), View(row[i % 128], flip)), flip) else f[i]
  {
    hide View, UpByte;
  }

  lemma PrevIs(k: nat, m: nat)
    requires k < m
    ensures Prev(k, m) == if k == 0 then m - 1 else k - 1
  {
  }

  lemma DownRow(f: seq<bv8>, flip: bool, pages: nat, start: int, end: int, page: nat, row: seq<bv8>)
    requires |f| == SIZE && page < pages <= 8
    requires row == f[At(Prev(page, pages), 0)..At(Prev(page, pages) + 1, 0)]
    ensures forall i :: 0 <= i < SIZE && i / 128 == page ==>
      Down(f, flip, pages, start, end)[i] ==
        if start <= i % 128 <= end then View(DownByte(View(f[i], flip), View(row[i % 128], flip)), flip) else f[i]
  {
    assert forall s :: 0 <= s < 128 ==> row[s] == f[At(Prev(page, pages), s)];
    hide View, DownByte;
  }

  lemma WalkStarts(major: nat, minor: nat)
    ensures Walk(0, major, minor).1 == 0 - major
  {
  }

  lemma NoPlots(f: seq<bv8>, flip: bool, points: seq<Point>, invert: bool)
    requires |f| == SIZE && forall k :: 0 <= k < |points| ==> OnScreen(points[k], 8)
    ensures Plotted(f, flip, points[..0], invert) == f
  {
  }

  /** One turn of the loop. */
  lemma LineNext(a: Point, b: Point, i: nat)
    requires i <= Major(a, b)
    ensures var (dx, dy) := (Abs(b.x - a.x), Abs(b.y - a.y));
      var e := Walk(i, Major(a, b), Minor(a, b)).1 + 2 * Minor(a, b);
      && Walk(i + 1, Major(a, b), Minor(a, b)).1 == (if e >= 0 then e - 2 * Major(a, b) else e)
      && (i < Major(a, b) ==>
            var (p, q) := (Line(a, b)[i], Line(a, b)[i + 1]);
            if dx > dy then q == Point(p.x + Sign(a.x, b.x), if e >= 0 then p.y + Sign(a.y, b.y) else p.y)
            else q == Point(if e >= 0 then p.x + Sign(a.x, b.x) else p.x, p.y + Sign(a.y, b.y)))
  {
  }

  lemma PlotNext(f: seq<bv8>, flip: bool, points: seq<Point>, i: nat, invert: bool)
    requires |f| == SIZE && i < |points| && forall k :: 0 <= k < |points| ==> OnScreen(points[k], 8)
    ensures Plotted(f, flip, points[..i + 1], invert) == Plot(Plotted(f, flip, points[..i], invert), flip, points[i], invert)
  {
    assert points[..i + 1][..i] == points[..i];
  }
}
