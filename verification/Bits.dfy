/** The eight pixels of a byte. */
module Bits {

  /** 1 << n. */
  function Mask(n: nat): bv8
    requires n < 8
  {
    if n == 0 then 1 else if n == 1 then 2 else if n == 2 then 4 else if n == 3 then 8
    else if n == 4 then 16 else if n == 5 then 32 else if n == 6 then 64 else 128
  }

  lemma MaskIsShift(n: nat)
    requires n < 8
    ensures Mask(n) == (1 as bv8) << n
  {
    if n == 0 {
    } else if n == 1 {
    } else if n == 2 {
    } else if n == 3 {
    } else if n == 4 {
    } else if n == 5 {
    } else if n == 6 {
    } else {
    }
  }

  predicate Bit(b: bv8, n: nat)
    requires n < 8
  {
    b & Mask(n) != 0
  }

  function SetBit(b: bv8, n: nat, on: bool): bv8
    requires n < 8
  {
    if on then b | Mask(n) else b & !Mask(n)
  }

  lemma SetBitBit(b: bv8, n: nat, on: bool, m: nat)
    requires n < 8 && m < 8
    ensures Bit(SetBit(b, n, on), m) == if m == n then on else Bit(b, m)
  {
    SetMask(b, Mask(n), Mask(m), n == m);
  }

  /** Masks of one bit are the same or disjoint. */
  lemma SetMask(b: bv8, x: bv8, y: bv8, same: bool)
    requires x != 0 && y != 0 && if same then x == y else x & y == 0
    ensures same ==> (b | x) & y != 0 && (b & !x) & y == 0
    ensures !same ==> (b | x) & y == b & y && (b & !x) & y == b & y
  {
  }

  lemma InvertedBit(b: bv8, n: nat)
    requires n < 8
    ensures Bit(!b, n) == !Bit(b, n)
  {
  }

  /** A byte is its bits. */
  lemma SameBits(a: bv8, b: bv8)
    requires forall n :: 0 <= n < 8 ==> Bit(a, n) == Bit(b, n)
    ensures a == b
  {
    assert Bit(a, 0) == Bit(b, 0) && Bit(a, 1) == Bit(b, 1) && Bit(a, 2) == Bit(b, 2) && Bit(a, 3) == Bit(b, 3);
    assert Bit(a, 4) == Bit(b, 4) && Bit(a, 5) == Bit(b, 5) && Bit(a, 6) == Bit(b, 6) && Bit(a, 7) == Bit(b, 7);
  }

  /** The byte with its bits in the opposite order. */
  function Mirror(b: bv8): bv8 {
    ((b & 1) << 7) | ((b & 2) << 5) | ((b & 4) << 3) | ((b & 8) << 1)
    | ((b & 16) >> 1) | ((b & 32) >> 3) | ((b & 64) >> 5) | ((b & 128) >> 7)
  }

  lemma MirrorBit(b: bv8, n: nat)
    requires n < 8
    ensures Bit(Mirror(b), n) == Bit(b, 7 - n)
  {
    if n == 0 {
    } else if n == 1 {
    } else if n == 2 {
    } else if n == 3 {
    } else if n == 4 {
    } else if n == 5 {
    } else if n == 6 {
    } else {
    }
  }

  lemma MirrorMirror(b: bv8)
    ensures Mirror(Mirror(b)) == b
  {
  }

  /** `ssd1306_rotate_byte`: the lowest bit of what is left is pushed into the result. */
  method RotateByte(b: bv8) returns (r: bv8)
    ensures r == Mirror(b)
  {
    var ch1 := b;
    r := 0;
    var j := 0;
    while j < 8
      invariant j <= 8 && (r, ch1) == Rotated(b, j)
    {
      r := (r << 1) + (ch1 & 1);
      ch1 := ch1 >> 1;
      j := j + 1;
    }
    RotatedIsMirror(b);
  }

  function Rotated(b: bv8, j: nat): (bv8, bv8) {
    if j == 0 then (0, b)
    else
      var p := Rotated(b, j - 1);
      ((p.0 << 1) + (p.1 & 1), p.1 >> 1)
  }

  lemma RotatedIsMirror(b: bv8)
    ensures Rotated(b, 8).0 == Mirror(b)
  {
    hide Rotated;
    RotatedHalf(b);
    TwoMore(b, 4);
    TwoMore(b, 6);
    var r4 := Rotated(b, 4).0;
    var r6 := Rotated(b, 6);
    assert r6.1 == b >> 6 && r6.0 == (r4 << 2) | ((b & 16) >> 3) | ((b & 32) >> 5);
  }

  lemma RotatedHalf(b: bv8)
    ensures Rotated(b, 4) == (((b & 1) << 3) | ((b & 2) << 1) | ((b & 4) >> 1) | ((b & 8) >> 3), b >> 4)
  {
    assert Rotated(b, 0) == (0, b);
    TwoMore(b, 0);
    TwoMore(b, 2);
  }

  lemma TwoMore(b: bv8, j: nat)
    ensures var (r, c) := Rotated(b, j);
      Rotated(b, j + 2) == ((((r << 1) + (c & 1)) << 1) + ((c >> 1) & 1), (c >> 1) >> 1)
  {
  }

  method OneBit(n: nat) returns (m: bv8)
    requires n < 8
    ensures m == Mask(n)
  {
    MaskIsShift(n);
    m := (1 as bv8) << n;
  }

  /** The bit is set or cleared through its mask. */
  method WithBit(b: bv8, n: nat, on: bool) returns (r: bv8)
    requires n < 8
    ensures r == SetBit(b, n, on)
  {
    var mask := OneBit(n);
    r := if on then b | mask else b & !mask;
  }

  /** `ssd1306_copy_bit`: the bit of src goes to bit dstBits of dst. */
  method CopyBit(src: bv8, srcBits: nat, dst: bv8, dstBits: nat) returns (r: bv8)
    requires srcBits < 8 && dstBits < 8
    ensures r == SetBit(dst, dstBits, Bit(src, srcBits))
  {
    hide Mask;
    var smask := OneBit(srcBits);
    r := WithBit(dst, dstBits, src & smask != 0);
  }

  // ---------------------------------------------------------------------
  // Columns that move by one pixel.

  /** The byte moves up by one pixel, and takes in the first pixel of the byte below. */
  function UpByte(a: bv8, below: bv8): bv8 {
    (a >> 1) | ((below & 0x01) << 7)
  }

  /** The byte moves down by one pixel, and takes in the last pixel of the byte above. */
  function DownByte(a: bv8, above: bv8): bv8 {
    (a << 1) | ((above & 0x80) >> 7)
  }

  lemma UpBit(a: bv8, below: bv8, n: nat)
    requires n < 8
    ensures Bit(UpByte(a, below), n) == if n < 7 then Bit(a, n + 1) else Bit(below, 0)
  {
    if n == 0 {
    } else if n == 1 {
    } else if n == 2 {
    } else if n == 3 {
    } else if n == 4 {
    } else if n == 5 {
    } else if n == 6 {
    } else {
    }
  }

  lemma DownBit(a: bv8, above: bv8, n: nat)
    requires n < 8
    ensures Bit(DownByte(a, above), n) == if n > 0 then Bit(a, n - 1) else Bit(above, 7)
  {
    if n == 0 {
    } else if n == 1 {
    } else if n == 2 {
    } else if n == 3 {
    } else if n == 4 {
    } else if n == 5 {
    } else if n == 6 {
    } else {
    }
  }
}
