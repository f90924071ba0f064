/** The picture that a frame buffer shows: eight pages of 128 columns, a byte for eight
    pixels, upside down when the display is flipped. */
module Frames {
  import opened Bits

  const COLUMNS := 128
  const SIZE := 1024

  /** Where column seg of a page is kept. */
  function At(page: nat, seg: nat): nat {
    128 * page + seg
  }

  /** A byte as it is shown. */
  function View(b: bv8, flip: bool): bv8 {
    if flip then Mirror(b) else b
  }

  lemma ViewView(b: bv8, flip: bool)
    ensures View(View(b, flip), flip) == b
  {
    MirrorMirror(b);
  }

  predicate Pixel(f: seq<bv8>, flip: bool, x: nat, y: nat)
    requires |f| == SIZE && x < COLUMNS && y < 64
  {
    Bit(View(f[At(y / 8, x)], flip), y % 8)
  }

  /** A frame is its pixels. */
  lemma SamePixels(f: seq<bv8>, g: seq<bv8>, flip: bool)
    requires |f| == |g| == SIZE
    requires forall x, y :: 0 <= x < COLUMNS && 0 <= y < 64 ==> Pixel(f, flip, x, y) == Pixel(g, flip, x, y)
    ensures f == g
  {
    forall i | 0 <= i < SIZE ensures f[i] == g[i] {
      SameByte(f, g, flip, i / 128, i % 128);
    }
  }

  lemma SameByte(f: seq<bv8>, g: seq<bv8>, flip: bool, page: nat, seg: nat)
    requires |f| == |g| == SIZE && page < 8 && seg < COLUMNS
    requires forall x, y :: 0 <= x < COLUMNS && 0 <= y < 64 ==> Pixel(f, flip, x, y) == Pixel(g, flip, x, y)
    ensures f[At(page, seg)] == g[At(page, seg)]
  {
    hide View, Bit;
    var a, b := f[At(page, seg)], g[At(page, seg)];
    forall n | 0 <= n < 8 ensures Bit(View(a, flip), n) == Bit(View(b, flip), n) {
      assert Pixel(f, flip, seg, 8 * page + n) == Pixel(g, flip, seg, 8 * page + n);
    }
    SameBits(View(a, flip), View(b, flip));
    ViewView(a, flip);
    ViewView(b, flip);
  }

  // ---------------------------------------------------------------------
  // One pixel.

  /** The frame after one pixel has been set. */
  function SetPixel(f: seq<bv8>, flip: bool, x: nat, y: nat, on: bool): (r: seq<bv8>)
    requires |f| == SIZE && x < COLUMNS && y < 64
    ensures |r| == SIZE
  {
    f[At(y / 8, x) := View(SetBit(View(f[At(y / 8, x)], flip), y % 8, on), flip)]
  }

  lemma SetPixelPixel(f: seq<bv8>, flip: bool, x: nat, y: nat, on: bool, u: nat, v: nat)
    requires |f| == SIZE && x < COLUMNS && y < 64 && u < COLUMNS && v < 64
    ensures Pixel(SetPixel(f, flip, x, y, on), flip, u, v) == if (u, v) == (x, y) then on else Pixel(f, flip, u, v)
  {
    var b := View(f[At(y / 8, x)], flip);
    hide View, Bit, SetBit;
    ViewView(SetBit(b, y % 8, on), flip);
    SetBitBit(b, y % 8, on, v % 8);
  }

  /** `_ssd1306_pixel`: the bit is set in the stored byte, which is then turned over if the
      display is flipped. */
  function PixelByte(b: bv8, flip: bool, n: nat, invert: bool): bv8
    requires n < 8
  {
    View(SetBit(b, n, !invert), flip)
  }

  /** On a display that is not flipped that sets the pixel. */
  lemma PixelByteSets(b: bv8, n: nat, invert: bool)
    requires n < 8
    ensures PixelByte(b, false, n, invert) == View(SetBit(View(b, false), n, !invert), false)
  {
  }

  /** The stored column reads the same upwards and downwards. */
  predicate Palindrome(b: bv8) {
    forall m :: 0 <= m < 8 ==> Bit(b, m) == Bit(b, 7 - m)
  }

  lemma PalindromeIsMirrored(b: bv8)
    ensures Palindrome(b) <==> Mirror(b) == b
  {
    forall m | 0 <= m < 8 ensures Bit(Mirror(b), m) == Bit(b, 7 - m) {
      MirrorBit(b, m);
    }
    if Palindrome(b) {
      SameBits(Mirror(b), b);
    }
  }

  /** On a flipped display it sets the pixel and no other if and only if the stored column
      reads the same in both directions. */
  lemma PixelByteFlipped(b: bv8, n: nat, invert: bool)
    requires n < 8
    ensures PixelByte(b, true, n, invert) == View(SetBit(View(b, true), n, !invert), true) <==> Palindrome(b)
  {
    hide Mirror, Bit, SetBit;
    PalindromeIsMirrored(b);
    MirrorMirror(SetBit(Mirror(b), n, !invert));
    MirrorMirror(SetBit(b, n, !invert));
    if SetBit(Mirror(b), n, !invert) == SetBit(b, n, !invert) {
      forall m | 0 <= m < 8 && m != n ensures Bit(b, m) == Bit(b, 7 - m) {
        SetBitBit(b, n, !invert, m);
        SetBitBit(Mirror(b), n, !invert, m);
        MirrorBit(b, m);
      }
      assert Bit(b, 7 - n) == Bit(b, 7 - (7 - n));
    }
  }

  // ---------------------------------------------------------------------
  // Rotation of columns.

  /** One on, or one back, around the edge. */
  function Next(k: nat, m: nat): (r: nat)
    requires k < m
    ensures r < m
  {
    if k + 1 == m then 0 else k + 1
  }

  function Prev(k: nat, m: nat): (r: nat)
    requires k < m
    ensures r < m
  {
    if k == 0 then m - 1 else k - 1
  }

  /** SCROLL_UP on the columns from start to end. */
  function Up(f: seq<bv8>, flip: bool, pages: nat, start: int, end: int): (r: seq<bv8>)
    requires |f| == SIZE && 0 < pages <= 8
    ensures |r| == SIZE
  {
    seq(SIZE, i requires 0 <= i < SIZE =>
      if i / 128 < pages && start <= i % 128 <= end then
        View(UpByte(View(f[i], flip), View(f[At(Next(i / 128, pages), i % 128)], flip)), flip)
      else f[i])
  }

  /** SCROLL_DOWN. */
  function Down(f: seq<bv8>, flip: bool, pages: nat, start: int, end: int): (r: seq<bv8>)
    requires |f| == SIZE && 0 < pages <= 8
    ensures |r| == SIZE
  {
    seq(SIZE, i requires 0 <= i < SIZE =>
      if i / 128 < pages && start <= i % 128 <= end then
        View(DownByte(View(f[i], flip), View(f[At(Prev(i / 128, pages), i % 128)], flip)), flip)
      else f[i])
  }

  predicate Moves(pages: nat, start: int, end: int, x: nat, y: nat) {
    y < 8 * pages && start <= x <= end
  }

  lemma AtPage(f: seq<bv8>, page: nat, seg: nat)
    requires |f| == SIZE && page < 8 && seg < COLUMNS
    ensures At(page, seg) < SIZE && At(page, seg) / 128 == page && At(page, seg) % 128 == seg
  {
  }

  /** Scrolling up takes each pixel from the line below, around the edge; nothing outside the
      columns and the pages changes. */
  lemma UpPixel(f: seq<bv8>, flip: bool, pages: nat, start: int, end: int, x: nat, y: nat)
    requires |f| == SIZE && 0 < pages <= 8 && x < COLUMNS && y < 64
    ensures Pixel(Up(f, flip, pages, start, end), flip, x, y)
            == Pixel(f, flip, x, if Moves(pages, start, end, x, y) then Next(y, 8 * pages) else y)
  {
    hide View, Bit, UpByte;
    var p, n := y / 8, y % 8;
    AtPage(f, p, x);
    if Moves(pages, start, end, x, y) {
      var a, b := View(f[At(p, x)], flip), View(f[At(Next(p, pages), x)], flip);
      ViewView(UpByte(a, b), flip);
      UpBit(a, b, n);
    }
  }

  lemma DownPixel(f: seq<bv8>, flip: bool, pages: nat, start: int, end: int, x: nat, y: nat)
    requires |f| == SIZE && 0 < pages <= 8 && x < COLUMNS && y < 64
    ensures Pixel(Down(f, flip, pages, start, end), flip, x, y)
            == Pixel(f, flip, x, if Moves(pages, start, end, x, y) then Prev(y, 8 * pages) else y)
  {
    hide View, Bit, DownByte;
    var p, n := y / 8, y % 8;
    AtPage(f, p, x);
    if Moves(pages, start, end, x, y) {
      var a, b := View(f[At(p, x)], flip), View(f[At(Prev(p, pages), x)], flip);
      ViewView(DownByte(a, b), flip);
      DownBit(a, b, n);
    }
  }

  /** A run of scrolls on one range: true is up. */
  function Scrolls(f: seq<bv8>, flip: bool, pages: nat, start: int, end: int, moves: seq<bool>): (r: seq<bv8>)
    requires |f| == SIZE && 0 < pages <= 8
    ensures |r| == SIZE
    decreases |moves|
  {
    if moves == [] then f
    else
      Scrolls(if moves[0] then Up(f, flip, pages, start, end) else Down(f, flip, pages, start, end),
              flip, pages, start, end, moves[1..])
  }

  /** Ups minus downs. */
  function Net(moves: seq<bool>): int {
    if moves == [] then 0 else (if moves[0] then 1 else -1) + Net(moves[1..])
  }

  lemma Multiple(m: nat, d: int)
    requires m > 0 && d >= 1
    ensures m * d >= m
  {
  }

  /** Quotient and remainder are determined. */
  lemma ModUnique(a: int, m: nat, q: int, r: nat)
    requires a == m * q + r && r < m
    ensures a % m == r
  {
    var d := a / m - q;
    assert m * d == r - a % m;
    if d >= 1 {
      Multiple(m, d);
    } else if d <= -1 {
      Multiple(m, -d);
    }
  }

  lemma ModNext(a: int, m: nat)
    requires m > 0
    ensures (a + 1) % m == Next(a % m, m)
  {
    var q, r := a / m, a % m;
    if r + 1 < m {
      ModUnique(a + 1, m, q, r + 1);
    } else {
      assert m * (q + 1) == m * q + m;
      ModUnique(a + 1, m, q + 1, 0);
    }
  }

  lemma ModPrev(a: int, m: nat)
    requires m > 0
    ensures (a - 1) % m == Prev(a % m, m)
  {
    var q, r := a / m, a % m;
    if r > 0 {
      ModUnique(a - 1, m, q, r - 1);
    } else {
      assert m * (q - 1) == m * q - m;
      ModUnique(a - 1, m, q - 1, m - 1);
    }
  }

  /** Any run of scrolls is a rotation by the net number of lines. */
  lemma {:induction false} ScrollsRotate(f: seq<bv8>, flip: bool, pages: nat, start: int, end: int, moves: seq<bool>,
      x: nat, y: nat)
    requires |f| == SIZE && 0 < pages <= 8 && x < COLUMNS && y < 64
    ensures Pixel(Scrolls(f, flip, pages, start, end, moves), flip, x, y)
            == Pixel(f, flip, x, if Moves(pages, start, end, x, y) then (y + Net(moves)) % (8 * pages) else y)
    decreases |moves|
  {
    hide Pixel, Up, Down, Next, Prev;
    if moves == [] {
      if Moves(pages, start, end, x, y) {
        ModUnique(y, 8 * pages, 0, y);
      }
    } else {
      var g := if moves[0] then Up(f, flip, pages, start, end) else Down(f, flip, pages, start, end);
      ScrollsRotate(g, flip, pages, start, end, moves[1..], x, y);
      var z := if Moves(pages, start, end, x, y) then (y + Net(moves[1..])) % (8 * pages) else y;
      if moves[0] {
        UpPixel(f, flip, pages, start, end, x, z);
        ModNext(y + Net(moves[1..]), 8 * pages);
      } else {
        DownPixel(f, flip, pages, start, end, x, z);
        ModPrev(y + Net(moves[1..]), 8 * pages);
      }
    }
  }

  /** Ups and downs that cancel, in whatever order, change nothing. */
  lemma ScrollsCancel(f: seq<bv8>, flip: bool, pages: nat, start: int, end: int, moves: seq<bool>)
    requires |f| == SIZE && 0 < pages <= 8 && Net(moves) == 0
    ensures Scrolls(f, flip, pages, start, end, moves) == f
  {
    hide Pixel, Scrolls;
    forall x, y | 0 <= x < COLUMNS && 0 <= y < 64
      ensures Pixel(Scrolls(f, flip, pages, start, end, moves), flip, x, y) == Pixel(f, flip, x, y)
    {
      ScrollsRotate(f, flip, pages, start, end, moves, x, y);
      if Moves(pages, start, end, x, y) {
        ModUnique(y, 8 * pages, 0, y);
      }
    }
    SamePixels(Scrolls(f, flip, pages, start, end, moves), f, flip);
  }

  /** Down undoes up, and up undoes down. */
  lemma UpAndDown(f: seq<bv8>, flip: bool, pages: nat, start: int, end: int)
    requires |f| == SIZE && 0 < pages <= 8
    ensures Down(Up(f, flip, pages, start, end), flip, pages, start, end) == f
    ensures Up(Down(f, flip, pages, start, end), flip, pages, start, end) == f
  {
    hide Up, Down;
    ScrollsCancel(f, flip, pages, start, end, [true, false]);
    ScrollsCancel(f, flip, pages, start, end, [false, true]);
    var up, down := Up(f, flip, pages, start, end), Down(f, flip, pages, start, end);
    assert [true, false][1..] == [false] && [false, true][1..] == [true] && [true][1..] == [] && [false][1..] == [];
    assert Scrolls(up, flip, pages, start, end, [false]) == Down(up, flip, pages, start, end);
    assert Scrolls(down, flip, pages, start, end, [true]) == Up(down, flip, pages, start, end);
  }
}
