/**
 The RGBA compositor: one canvas, one scratch rectangle. The reference model remembers every
 layer drawn so far and defines each canvas pixel from that history, following section 11.3.6 of
 the PNG Specification (Third Edition); the class proves that its in-place canvas shows it.
 */
module ApngCompose {
  import opened Prelude
  import opened ApngContainer

  datatype Pixel = Pixel(r: byte, g: byte, b: byte, a: byte)

  const CLEAR: Pixel := Pixel(0, 0, 0, 0)

  // ----- straight-alpha arithmetic -----

  /** 255 times the resulting alpha. */
  function Weight(sa: byte, da: byte): int
  {
    sa * 255 + da * (255 - sa)
  }

  function OverChannel(s: byte, sa: byte, d: byte, da: byte): (c: byte)
    requires 0 < sa
  {
    OverChannelBounds(s, sa, d, da);
    (s * sa * 255 + d * da * (255 - sa) + Weight(sa, da) / 2) / Weight(sa, da)
  }

  /** A rounded weighted mean stays between its two inputs. */
  lemma OverChannelBounds(s: byte, sa: byte, d: byte, da: byte)
    requires 0 < sa
    ensures 0 < Weight(sa, da)
    ensures Min(s, d) <= (s * sa * 255 + d * da * (255 - sa) + Weight(sa, da) / 2) / Weight(sa, da) <= Max(s, d)
  {
    var p, q: int := sa * 255, da * (255 - sa);
    assert q >= 0 by { MulMonotone(0, da, 255 - sa); }
    MulAssociates(s, sa, 255);
    MulAssociates(d, da, 255 - sa);
    MeanBounds(s, d, p, q);
  }

  lemma MulAssociates(a: int, b: int, c: int)
    ensures a * b * c == a * (b * c)
  {
  }

  lemma MeanBounds(s: int, d: int, p: int, q: int)
    requires 0 < p && 0 <= q
    ensures Min(s, d) <= (s * p + d * q + (p + q) / 2) / (p + q) <= Max(s, d)
  {
    var lo, hi, w := Min(s, d), Max(s, d), p + q;
    var n := s * p + d * q + w / 2;
    WeightedBetween(lo, s, hi, p);
    WeightedBetween(lo, d, hi, q);
    Distributes(lo, p, q);
    Distributes(hi, p, q);
    Distributes(w, hi, 1);
    DivExceeds(n, w, lo);
    DivExceeds(n, w, hi + 1);
  }

  lemma Distributes(a: int, b: int, c: int)
    ensures a * (b + c) == a * b + a * c
  {
  }

  lemma WeightedBetween(lo: int, x: int, hi: int, weight: int)
    requires lo <= x <= hi && 0 <= weight
    ensures lo * weight <= x * weight <= hi * weight
  {
    MulMonotone(lo, x, weight);
    MulMonotone(x, hi, weight);
  }

  /** The rounded mean is a nearest integer to the exact one. */
  lemma OverChannelIsNearest(s: byte, sa: byte, d: byte, da: byte)
    requires 0 < sa
    ensures var exact := s * sa * 255 + d * da * (255 - sa);
            var w := Weight(sa, da);
            -w <= 2 * (OverChannel(s, sa, d, da) * w - exact) <= w
  {
    OverChannelBounds(s, sa, d, da);
    var w := Weight(sa, da);
    DivBounds(s * sa * 255 + d * da * (255 - sa) + w / 2, w);
  }

  function OverAlpha(sa: byte, da: byte): (a: byte)
  {
    OverAlphaGrows(sa, da);
    (Weight(sa, da) + 127) / 255
  }

  /** Composing never loses opacity. */
  lemma OverAlphaGrows(sa: byte, da: byte)
    ensures Max(sa, da) <= (Weight(sa, da) + 127) / 255 <= 255
  {
    MulMonotone(0, da, 255 - sa);
    MulMonotone(da, 255, 255 - sa);
    MulMonotone(0, sa, 255 - da);
    assert Weight(sa, da) == da * 255 + sa * (255 - da);
    assert Weight(sa, da) <= 255 * 255;
  }

  function Over(s: Pixel, d: Pixel): Pixel
  {
    if s.a == 0 then d
    else if s.a == 255 then s
    else Pixel(OverChannel(s.r, s.a, d.r, d.a), OverChannel(s.g, s.a, d.g, d.a),
               OverChannel(s.b, s.a, d.b, d.a), OverAlpha(s.a, d.a))
  }

  predicate Between(lo: int, c: int, hi: int)
  {
    Min(lo, hi) <= c <= Max(lo, hi)
  }

  /** Every blended channel lies between its inputs; the result is at least as opaque as both. */
  lemma OverIsBetween(s: Pixel, d: Pixel)
    ensures var o := Over(s, d);
            && Between(s.r, o.r, d.r) && Between(s.g, o.g, d.g) && Between(s.b, o.b, d.b)
            && o.a >= s.a && o.a >= d.a
  {
    if s.a != 0 {
      OverChannelBounds(s.r, s.a, d.r, d.a);
      OverChannelBounds(s.g, s.a, d.g, d.a);
      OverChannelBounds(s.b, s.a, d.b, d.a);
    }
    OverAlphaGrows(s.a, d.a);
  }

  // ----- the reference model: all layers ever drawn -----

  datatype Layer = Layer(frame: Frame, rgba: seq<byte>, stride: nat)

  predicate Inside(f: Frame, x: int, y: int)
  {
    f.x <= x < f.x + f.width && f.y <= y < f.y + f.height
  }

  function Offset(stride: nat, x: nat, y: nat): nat
  {
    y * stride + x * 4
  }

  function PixelAt(s: seq<byte>, stride: nat, x: nat, y: nat): Pixel
  {
    var o := Offset(stride, x, y);
    if o + 4 <= |s| then Pixel(s[o], s[o + 1], s[o + 2], s[o + 3]) else CLEAR
  }

  function LayerPixel(l: Layer, x: int, y: int): Pixel
    requires Inside(l.frame, x, y)
  {
    PixelAt(l.rgba, l.stride, x - l.frame.x, y - l.frame.y)
  }

  /** What the canvas shows at a point after all these layers. */
  function Shown(layers: seq<Layer>, x: nat, y: nat): Pixel
    decreases |layers|, 0
  {
    if layers == [] then CLEAR
    else
      var l := layers[|layers| - 1];
      var under := Before(layers[..|layers| - 1], x, y);
      if !Inside(l.frame, x, y) then under
      else if l.frame.blend == 0 then LayerPixel(l, x, y)
      else Over(LayerPixel(l, x, y), under)
  }

  /** What the next layer is drawn on: the canvas after the last layer's disposal. PREVIOUS goes
      back to the whole canvas the last layer was itself drawn on. */
  function Before(layers: seq<Layer>, x: nat, y: nat): Pixel
    decreases |layers|, 1
  {
    if layers == [] then CLEAR
    else
      var l := layers[|layers| - 1];
      if l.frame.dispose == 2 then Before(layers[..|layers| - 1], x, y)
      else if l.frame.dispose == 1 && Inside(l.frame, x, y) then CLEAR
      else Shown(layers, x, y)
  }

  /** A first frame with PREVIOUS disposal leaves what BACKGROUND would: a transparent rectangle. */
  lemma FirstPreviousIsBackground(l: Layer, m: Layer, x: nat, y: nat)
    requires l.frame.dispose == 2 && m == l.(frame := l.frame.(dispose := 1))
    ensures Before([l], x, y) == Before([m], x, y) == CLEAR
  {
    assert [l][..0] == [] && [m][..0] == [];
  }

  // ----- rectangles of bytes -----

  /** How one pixel of a rectangle is rewritten. */
  datatype Op = Wipe | Copy(src: seq<byte>, stride: nat, x: nat, y: nat) | Blend(src: seq<byte>, stride: nat)

  function NewPixel(op: Op, was: Pixel, x: nat, y: nat): Pixel
  {
    match op
    case Wipe => CLEAR
    case Copy(src, stride, sx, sy) => PixelAt(src, stride, sx + x, sy + y)
    case Blend(src, stride) => Over(PixelAt(src, stride, x, y), was)
  }

  datatype Rect = Rect(x: nat, y: nat, width: nat, height: nat)

  function RectOf(f: Frame): Rect
  {
    Rect(f.x, f.y, f.width, f.height)
  }

  /** Pixel (x, y) of the rectangle comes before position (row, col) in reading order. */
  predicate Earlier(x: int, y: int, row: nat, col: nat)
  {
    y < row || (y == row && x < col)
  }

  /** Byte i of a buffer belongs to a pixel of the rectangle that comes before (row, col). */
  predicate Done(stride: nat, r: Rect, row: nat, col: nat, i: nat)
    requires 0 < stride
  {
    var y, x := i / stride - r.y, i % stride / 4 - r.x;
    0 <= x < r.width && 0 <= y < r.height && Earlier(x, y, row, col)
  }

  ghost predicate Lies(stride: nat, size: nat, r: Rect)
  {
    && (r.x + r.width) * 4 <= stride && 0 < r.width && 0 < r.height
    && (r.y + r.height - 1) * stride + (r.x + r.width) * 4 <= size
  }

  /** The pixels before (row, col) are rewritten and every other byte is untouched. */
  ghost predicate Applied(now: seq<byte>, was: seq<byte>, stride: nat, r: Rect, op: Op, row: nat, col: nat)
    requires 0 < stride
  {
    && |now| == |was|
    && (forall i :: 0 <= i < |was| && !Done(stride, r, row, col, i) ==> now[i] == was[i])
    && (forall x: nat, y: nat :: x < r.width && y < r.height && Earlier(x, y, row, col) ==>
          PixelAt(now, stride, r.x + x, r.y + y) == NewPixel(op, PixelAt(was, stride, r.x + x, r.y + y), x, y))
  }

  function Overwritten(s: seq<byte>, at: nat, bytes: seq<byte>): (r: seq<byte>)
    requires at + |bytes| <= |s|
    ensures |r| == |s|
    ensures forall i :: 0 <= i < |s| ==> r[i] == if at <= i < at + |bytes| then bytes[i - at] else s[i]
  {
    s[..at] + bytes + s[at + |bytes|..]
  }

  /** A run of pixels ends inside its row, and its row inside the buffer. */
  lemma RunFits(stride: nat, size: nat, r: Rect, y: nat, x: nat, n: nat)
    requires Lies(stride, size, r) && y < r.height && x + n <= r.width
    ensures Offset(stride, r.x + x, r.y + y) + 4 * n <= size
    ensures Offset(stride, r.x + x, r.y + y) + 4 * n <= (r.y + y) * stride + stride
  {
    MulMonotone(r.y + y, r.y + r.height - 1, stride);
  }

  /** The bytes of a run belong to exactly its pixels. */
  lemma RunIsDone(stride: nat, r: Rect, y: nat, x: nat, n: nat, i: nat)
    requires 0 < stride && (r.x + r.width) * 4 <= stride && y < r.height && x + n <= r.width
    requires var at := Offset(stride, r.x + x, r.y + y); at <= i < at + 4 * n
    ensures Done(stride, r, y, x + n, i)
  {
    var j := i - Offset(stride, r.x + x, r.y + y);
    DivModUnique(r.y + y, (r.x + x) * 4 + j, stride);
    assert i == (r.y + y) * stride + ((r.x + x) * 4 + j);
  }

  /** Pixels written before a run lie before it in the buffer. */
  lemma EarlierPixelsLieBefore(stride: nat, r: Rect, y: nat, x: nat, px: nat, py: nat)
    requires (r.x + r.width) * 4 <= stride && px < r.width && x <= r.width && Earlier(px, py, y, x)
    ensures Offset(stride, r.x + px, r.y + py) + 4 <= Offset(stride, r.x + x, r.y + y)
  {
    if py < y {
      MulMonotone(r.y + py + 1, r.y + y, stride);
      assert (r.y + py + 1) * stride == (r.y + py) * stride + stride;
    }
  }

  /** Writing the next run of pixels. */
  lemma RunWritten(now: seq<byte>, was: seq<byte>, stride: nat, r: Rect, op: Op, y: nat, x: nat, n: nat, bytes: seq<byte>)
    requires 0 < stride && Lies(stride, |was|, r) && y < r.height && x + n <= r.width
    requires Applied(now, was, stride, r, op, y, x) && |bytes| == 4 * n
    requires forall k: nat :: k < n ==>
               PixelAt(bytes, 0, k, 0) == NewPixel(op, PixelAt(was, stride, r.x + (x + k), r.y + y), x + k, y)
    ensures Offset(stride, r.x + x, r.y + y) + 4 * n <= |now|
    ensures Applied(Overwritten(now, Offset(stride, r.x + x, r.y + y), bytes), was, stride, r, op, y, x + n)
  {
    hide Done, NewPixel;
    RunFits(stride, |was|, r, y, x, n);
    var at := Offset(stride, r.x + x, r.y + y);
    var next := Overwritten(now, at, bytes);
    forall i | 0 <= i < |was| && !Done(stride, r, y, x + n, i)
      ensures next[i] == was[i]
    {
      DoneGrows(stride, r, y, x, n, i);
      if at <= i < at + 4 * n {
        RunIsDone(stride, r, y, x, n, i);
      }
    }
    var end := x + n;
    forall px: nat, py: nat | px < r.width && py < r.height && Earlier(px, py, y, end)
      ensures PixelAt(next, stride, r.x + px, r.y + py)
              == NewPixel(op, PixelAt(was, stride, r.x + px, r.y + py), px, py)
    {
      if Earlier(px, py, y, x) {
        EarlierPixelsLieBefore(stride, r, y, x, px, py);
      } else {
        var k := px - x;
        assert Offset(stride, r.x + px, r.y + py) == at + 4 * k;
        assert PixelAt(bytes, 0, k, 0) == NewPixel(op, PixelAt(was, stride, r.x + (x + k), r.y + y), x + k, y);
      }
    }
  }

  /** The same for a single pixel. */
  lemma PixelWritten(now: seq<byte>, was: seq<byte>, stride: nat, r: Rect, op: Op, y: nat, x: nat, p: Pixel)
    requires 0 < stride && Lies(stride, |was|, r) && y < r.height && x < r.width
    requires Applied(now, was, stride, r, op, y, x)
    requires p == NewPixel(op, PixelAt(was, stride, r.x + x, r.y + y), x, y)
    ensures var o := Offset(stride, r.x + x, r.y + y);
            && o + 4 <= |now|
            && Applied(Overwritten(now, o, [p.r, p.g, p.b, p.a]), was, stride, r, op, y, x + 1)
  {
    hide Done, Applied, Lies, NewPixel, Offset;
    var bytes := [p.r, p.g, p.b, p.a];
    forall k: nat | k < 1
      ensures PixelAt(bytes, 0, k, 0) == NewPixel(op, PixelAt(was, stride, r.x + (x + k), r.y + y), x + k, y)
    {
      assert k == 0 && x + k == x;
      PixelIs(bytes, 0, k, 0, p);
    }
    RunWritten(now, was, stride, r, op, y, x, 1, bytes);
  }

  lemma PixelIs(s: seq<byte>, stride: nat, x: nat, y: nat, p: Pixel)
    requires y * stride + x * 4 + 4 <= |s|
    requires var o := y * stride + x * 4; s[o] == p.r && s[o + 1] == p.g && s[o + 2] == p.b && s[o + 3] == p.a
    ensures PixelAt(s, stride, x, y) == p
  {
  }

  lemma DoneGrows(stride: nat, r: Rect, y: nat, x: nat, n: nat, i: nat)
    requires 0 < stride
    ensures Done(stride, r, y, x, i) ==> Done(stride, r, y, x + n, i)
  {
  }

  /** A finished row is the start of the next one. */
  lemma RowDone(now: seq<byte>, was: seq<byte>, stride: nat, r: Rect, op: Op, y: nat)
    requires 0 < stride && Applied(now, was, stride, r, op, y, r.width)
    ensures Applied(now, was, stride, r, op, y + 1, 0)
  {
    hide NewPixel, PixelAt;
    forall i | 0 <= i < |was| && !Done(stride, r, y + 1, 0, i)
      ensures now[i] == was[i]
    {
      assert !Done(stride, r, y, r.width, i);
    }
    var below := y + 1;
    forall px: nat, py: nat | px < r.width && py < r.height && Earlier(px, py, below, 0)
      ensures PixelAt(now, stride, r.x + px, r.y + py)
              == NewPixel(op, PixelAt(was, stride, r.x + px, r.y + py), px, py)
    {
      assert Earlier(px, py, y, r.width);
    }
  }

  lemma NothingApplied(was: seq<byte>, stride: nat, r: Rect, op: Op)
    requires 0 < stride
    ensures Applied(was, was, stride, r, op, 0, 0)
  {
  }

  /** The pixel a run is about to overwrite is still the original one. */
  lemma NextPixelUntouched(now: seq<byte>, was: seq<byte>, stride: nat, r: Rect, op: Op, y: nat, x: nat)
    requires 0 < stride && Lies(stride, |was|, r) && y < r.height && x < r.width
    requires Applied(now, was, stride, r, op, y, x)
    ensures Offset(stride, r.x + x, r.y + y) + 4 <= |now|
    ensures PixelAt(now, stride, r.x + x, r.y + y) == PixelAt(was, stride, r.x + x, r.y + y)
  {
    RunFits(stride, |was|, r, y, x, 1);
    var at := Offset(stride, r.x + x, r.y + y);
    forall i | at <= i < at + 4
      ensures now[i] == was[i]
    {
      DivModUnique(r.y + y, (r.x + x) * 4 + (i - at), stride);
      assert i == (r.y + y) * stride + ((r.x + x) * 4 + (i - at));
    }
  }

  /** A slice of one row holds that row's pixels. */
  lemma SliceHolds(src: seq<byte>, stride: nat, x: nat, y: nat, n: nat, part: seq<byte>)
    requires Offset(stride, x, y) + 4 * n <= |src|
    requires part == src[Offset(stride, x, y)..Offset(stride, x, y) + 4 * n]
    ensures forall k: nat :: k < n ==> PixelAt(part, 0, k, 0) == PixelAt(src, stride, x + k, y)
  {
    var o := Offset(stride, x, y);
    forall k: nat | k < n
      ensures PixelAt(part, 0, k, 0) == PixelAt(src, stride, x + k, y)
    {
      assert Offset(stride, x + k, y) == o + 4 * k;
    }
  }

  /** A whole rectangle, seen pixel by pixel over the canvas. */
  lemma AppliedEverywhere(now: seq<byte>, was: seq<byte>, stride: nat, r: Rect, op: Op, x: nat, y: nat)
    requires 0 < stride && Applied(now, was, stride, r, op, r.height, 0) && x * 4 + 4 <= stride
    ensures PixelAt(now, stride, x, y)
            == if r.x <= x < r.x + r.width && r.y <= y < r.y + r.height
               then NewPixel(op, PixelAt(was, stride, x, y), x - r.x, y - r.y)
               else PixelAt(was, stride, x, y)
  {
    hide NewPixel;
    if r.x <= x < r.x + r.width && r.y <= y < r.y + r.height {
      assert Earlier(x - r.x, y - r.y, r.height, 0);
    } else if Offset(stride, x, y) + 4 <= |was| {
      var o := Offset(stride, x, y);
      forall i | o <= i < o + 4
        ensures now[i] == was[i]
      {
        DivModUnique(y, x * 4 + (i - o), stride);
      }
    }
  }
}
