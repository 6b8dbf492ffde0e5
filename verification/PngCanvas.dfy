/** Canvas: an RGB buffer filled by a background colour and clipped rectangles, in place. */
module PngCanvas {
  import opened Common
  import opened PngBits
  import opened PngFile
  import opened PngWriter

  datatype Rgb = Rgb(r: byte, g: byte, b: byte)

  /** The index of a pixel's first byte. */
  function Offset(width: int, px: int, py: int): int {
    (py * width + px) * 3
  }

  predicate OnCanvas(width: int, height: int, px: int, py: int) {
    0 <= px < width && 0 <= py < height
  }

  lemma OffsetInRange(width: int, height: int, px: int, py: int)
    requires OnCanvas(width, height, px, py)
    ensures 0 <= Offset(width, px, py) && Offset(width, px, py) + 3 <= width * height * 3
  {
    assert (py + 1) * width + (height - py - 1) * width == height * width;
    assert py * width >= 0 && (height - py - 1) * width >= 0;
  }

  lemma EarlierRow(width: int, px: int, py: int, qx: int, qy: int)
    requires 0 <= px < width && 0 <= qx < width && 0 <= py < qy
    ensures Offset(width, px, py) + 3 <= Offset(width, qx, qy)
  {
    assert qy * width == (py + 1) * width + (qy - py - 1) * width;
    assert (qy - py - 1) * width >= 0;
    assert (py + 1) * width == py * width + width;
  }

  lemma OffsetsDiffer(width: int, height: int, px: int, py: int, qx: int, qy: int)
    requires OnCanvas(width, height, px, py) && OnCanvas(width, height, qx, qy)
    requires px != qx || py != qy
    ensures Offset(width, px, py) + 3 <= Offset(width, qx, qy) || Offset(width, qx, qy) + 3 <= Offset(width, px, py)
  {
    if py < qy {
      EarlierRow(width, px, py, qx, qy);
    } else if qy < py {
      EarlierRow(width, qx, qy, px, py);
    }
  }

  function Colour(s: seq<byte>, offset: int): Rgb {
    if 0 <= offset && offset + 3 <= |s| then Rgb(s[offset], s[offset + 1], s[offset + 2]) else Rgb(0, 0, 0)
  }

  function Pixel(s: seq<byte>, width: int, px: int, py: int): Rgb {
    Colour(s, Offset(width, px, py))
  }

  /** In the scanlines a pixel's red, green and blue stand in its row, behind those of the pixels to its left. */
  lemma PixelInScanline(rgb: seq<byte>, width: nat, height: nat, px: int, py: int)
    requires |rgb| == width * 3 * height && OnCanvas(width, height, px, py)
    ensures var (raw, at) := (Packed(rgb, width * 3, height), py * (width * 3 + 1) + 1 + 3 * px);
            0 <= at && at + 2 < |raw| && Pixel(rgb, width, px, py) == Rgb(raw[at], raw[at + 1], raw[at + 2])
  {
    OffsetInRange(width, height, px, py);
    OffsetInRow(width, px, py);
    var row := width * 3;
    assert 3 * px + 2 < row;
    PackedAt(rgb, row, height, py, 3 * px);
    PackedAt(rgb, row, height, py, 3 * px + 1);
    PackedAt(rgb, row, height, py, 3 * px + 2);
  }

  lemma OffsetInRow(width: int, px: int, py: int)
    ensures py * (width * 3) + 3 * px == Offset(width, px, py)
  {
  }

  predicate Inside(px: int, py: int, x: int, y: int, w: int, h: int) {
    x <= px < x + w && y <= py < y + h
  }

  /** Rectangles side by side or one above the other make one; a rectangle of one by one is its corner pixel, and one
      without width or height is nothing. */
  lemma RectanglesTile(px: int, py: int, x: int, y: int, w: nat, h: nat, k: nat)
    ensures Inside(px, py, x, y, w + k, h) <==> Inside(px, py, x, y, w, h) != Inside(px, py, x + w, y, k, h)
    ensures Inside(px, py, x, y, w, h + k) <==> Inside(px, py, x, y, w, h) != Inside(px, py, x, y + h, w, k)
    ensures Inside(px, py, x, y, 1, 1) <==> px == x && py == y
    ensures !Inside(px, py, x, y, 0, h) && !Inside(px, py, x, y, w, 0)
  {
  }

  /** Write the three bytes of one pixel. */
  method PutColour(buf: array<byte>, i: nat, color: Rgb)
    requires i + 3 <= buf.Length
    modifies buf
    ensures Colour(buf[..], i) == color
    ensures forall k :: k + 3 <= i || i + 3 <= k ==> Colour(buf[..], k) == old(Colour(buf[..], k))
  {
    buf[i] := color.r;
    buf[i + 1] := color.g;
    buf[i + 2] := color.b;
  }

  class Canvas {
    const width: nat
    const height: nat
    const buf: array<byte>

    ghost predicate Valid() {
      buf.Length == width * height * 3
    }

    constructor (width: nat, height: nat, background: Rgb)
      ensures Valid() && fresh(buf) && this.width == width && this.height == height
      ensures forall px, py :: OnCanvas(width, height, px, py) ==> Pixel(buf[..], width, px, py) == background
    {
      this.width, this.height := width, height;
      buf := new byte[width * height * 3](_ => 0);
      new;
      for i := 0 to width * height
        invariant forall j :: 0 <= j < i ==> Colour(buf[..], j * 3) == background
      {
        PutColour(buf, i * 3, background);
      }
      forall px, py | OnCanvas(width, height, px, py)
        ensures Pixel(buf[..], width, px, py) == background
      {
        OffsetInRange(width, height, px, py);
        assert Colour(buf[..], (py * width + px) * 3) == background;
      }
    }

    /** The body of fillRect's inner loop. */
    method SetPixel(px: int, py: int, color: Rgb)
      requires Valid() && OnCanvas(width, height, px, py)
      modifies buf
      ensures forall qx, qy :: OnCanvas(width, height, qx, qy) ==>
        Pixel(buf[..], width, qx, qy) == if qx == px && qy == py then color else old(Pixel(buf[..], width, qx, qy))
    {
      OffsetInRange(width, height, px, py);
      var i := (py * width + px) * 3;
      PutColour(buf, i, color);
      forall qx, qy | OnCanvas(width, height, qx, qy)
        ensures Pixel(buf[..], width, qx, qy) ==
                if qx == px && qy == py then color else old(Pixel(buf[..], width, qx, qy))
      {
        OffsetInRange(width, height, qx, qy);
        if qx != px || qy != py {
          OffsetsDiffer(width, height, px, py, qx, qy);
        }
      }
    }

    /** Exactly the pixels of the rectangle that lie on the canvas take the colour. */
    method FillRect(x: int, y: int, w: int, h: int, color: Rgb)
      requires Valid()
      modifies buf
      ensures forall px, py :: OnCanvas(width, height, px, py) ==>
        Pixel(buf[..], width, px, py) ==
        if Inside(px, py, x, y, w, h) then color else old(Pixel(buf[..], width, px, py))
    {
      var x0, y0 := Max(0, x), Max(0, y);
      var x1, y1 := Min(width, x + w), Min(height, y + h);
      var yy := y0;
      while yy < y1
        invariant y0 <= yy && (y0 <= y1 ==> yy <= y1)
        invariant forall px, py :: OnCanvas(width, height, px, py) ==>
          Pixel(buf[..], width, px, py) ==
          if Inside(px, py, x, y, w, h) && py < yy then color else old(Pixel(buf[..], width, px, py))
      {
        var xx := x0;
        while xx < x1
          invariant x0 <= xx && (x0 <= x1 ==> xx <= x1)
          invariant forall px, py :: OnCanvas(width, height, px, py) ==>
            Pixel(buf[..], width, px, py) ==
            if Inside(px, py, x, y, w, h) && (py < yy || (py == yy && px < xx)) then color
            else old(Pixel(buf[..], width, px, py))
        {
          SetPixel(xx, yy, color);
          xx := xx + 1;
        }
        yy := yy + 1;
      }
    }

    method ToPng(deflate: seq<byte> -> seq<byte>) returns (file: Option<seq<byte>>)
      requires Valid()
      ensures |buf[..]| == width * 3 * height && file == Encoded(width, height, buf[..], deflate)
    {
      assert width * height * 3 == width * 3 * height;
      file := EncodePng(width, height, buf, deflate);
    }
  }
}
