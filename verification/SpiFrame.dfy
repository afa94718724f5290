/** Packing an RGB565 frame for the wire: clockwise rotation, nearest resize, byte order. */
module SpiFrame {
  import opened Prelude

  /** A borrowed source: its bytes, row stride and size in pixels. */
  datatype Source = Source(data: seq<byte>, stride: nat, width: u32, height: u32)

  predicate Orthogonal(degrees: nat)
  {
    degrees == 0 || degrees == 90 || degrees == 180 || degrees == 270
  }

  /** Bytes from the first to the last pixel of a source. */
  function SourceSpan(s: Source): int
  {
    s.stride * (s.height - 1) + s.width * 2
  }

  predicate PackAllowed(s: Source, capacity: nat, width: u32, height: u32, degrees: nat)
  {
    && 0 < s.width <= 4096 && 0 < s.height <= 4096 && 0 < width <= 4096 && 0 < height <= 4096
    && Orthogonal(degrees) && s.width * 2 <= s.stride
    && SourceSpan(s) <= Min(|s.data|, U64_MAX) && width * height * 2 <= capacity
  }

  // ----- the reference: quarter turns, then nearest sampling -----

  /** A pixel as its two little-endian bytes. */
  type Rgb = (byte, byte)

  function SourcePixel(s: Source, x: int, y: int): Rgb
  {
    var o := y * s.stride + x * 2;
    if 0 <= o < |s.data| - 1 then (s.data[o], s.data[o + 1]) else (0, 0)
  }

  /** Width and height after a number of quarter turns. */
  function TurnedSize(s: Source, turns: nat): (int, int)
  {
    if turns == 0 then (s.width, s.height)
    else
      var (w, h) := TurnedSize(s, turns - 1);
      (h, w)
  }

  /** One clockwise quarter turn at a time: the new column x was the old row, counted from the bottom. */
  function TurnedPixel(s: Source, turns: nat, x: int, y: int): Rgb
    decreases turns
  {
    if turns == 0 then SourcePixel(s, x, y)
    else TurnedPixel(s, turns - 1, y, TurnedSize(s, turns - 1).1 - 1 - x)
  }

  /** The output pixel: nearest sample of the turned source. */
  function PackedPixel(s: Source, width: u32, height: u32, degrees: nat, x: int, y: int): Rgb
    requires 0 < width && 0 < height
  {
    var (w, h) := TurnedSize(s, degrees / 90);
    TurnedPixel(s, degrees / 90, x * w / width, y * h / height)
  }

  function PackedByte(s: Source, width: u32, height: u32, degrees: nat, swap: bool, i: nat): byte
    requires 0 < width && 0 < height
  {
    var p := PackedPixel(s, width, height, degrees, i / 2 % width, i / 2 / width);
    if (i % 2 == 0) != swap then p.0 else p.1
  }

  function ImageBytes(width: u32, height: u32): nat
  {
    width * height * 2
  }

  /** The whole packed image. */
  function Packed(s: Source, width: u32, height: u32, degrees: nat, swap: bool): (r: seq<byte>)
    requires 0 < width && 0 < height
    ensures |r| == ImageBytes(width, height)
  {
    seq(ImageBytes(width, height), i requires i >= 0 => PackedByte(s, width, height, degrees, swap, i))
  }

  // ----- the code -----

  /** The source position the code reads for a position of the turned image. */
  function ReadX(s: Source, degrees: nat, rx: int, ry: int): int
  {
    if degrees == 90 then ry
    else if degrees == 180 then s.width - 1 - rx
    else if degrees == 270 then s.width - 1 - ry
    else rx
  }

  function ReadY(s: Source, degrees: nat, rx: int, ry: int): int
  {
    if degrees == 90 then s.height - 1 - rx
    else if degrees == 180 then s.height - 1 - ry
    else if degrees == 270 then rx
    else ry
  }

  /** The four cases of the code are zero to three quarter turns. */
  lemma ReadsTurnedPixel(s: Source, degrees: nat, rx: int, ry: int)
    requires Orthogonal(degrees)
    ensures SourcePixel(s, ReadX(s, degrees, rx, ry), ReadY(s, degrees, rx, ry)) == TurnedPixel(s, degrees / 90, rx, ry)
    ensures TurnedSize(s, degrees / 90)
            == if degrees == 90 || degrees == 270 then (s.height, s.width) else (s.width, s.height)
  {
    hide SourcePixel;
    assert TurnedSize(s, 1) == (s.height, s.width);
    assert TurnedSize(s, 2) == (s.width, s.height);
    assert TurnedSize(s, 3) == (s.height, s.width);
    assert TurnedPixel(s, 1, rx, ry) == SourcePixel(s, ry, s.height - 1 - rx);
    assert TurnedPixel(s, 2, rx, ry) == TurnedPixel(s, 1, ry, s.width - 1 - rx);
    assert TurnedPixel(s, 3, rx, ry) == TurnedPixel(s, 2, ry, s.height - 1 - rx);
    assert TurnedPixel(s, 2, ry, s.height - 1 - rx) == TurnedPixel(s, 1, s.height - 1 - rx, s.width - 1 - ry);
  }

  /** Nearest sampling stays inside the image. */
  lemma SampleInside(x: int, size: int, out: int)
    requires 0 <= x < out && 0 < size
    ensures 0 <= x * size / out < size
  {
    MulMonotone(0, x, size);
    DivExceeds(x * size, out, 0);
    DivExceeds(x * size, out, size);
    MulMonotone(x + 1, out, size);
    assert (x + 1) * size == x * size + size;
  }

  lemma PixelInSpan(s: Source, x: int, y: int)
    requires 0 <= x < s.width && 0 <= y < s.height && s.width * 2 <= s.stride
    ensures 0 <= y * s.stride + x * 2 && y * s.stride + x * 2 + 2 <= SourceSpan(s)
  {
    MulMonotone(y, s.height - 1, s.stride);
    MulMonotone(0, y, s.stride);
  }

  /** The two bytes of one output pixel lie at its offset. */
  lemma BytesOfPixel(s: Source, width: u32, height: u32, degrees: nat, swap: bool, x: nat, y: nat)
    requires x < width && y < height
    ensures var p := PackedPixel(s, width, height, degrees, x, y);
            var o := (y * width + x) * 2;
            && o + 2 <= ImageBytes(width, height)
            && Packed(s, width, height, degrees, swap)[o] == (if swap then p.1 else p.0)
            && Packed(s, width, height, degrees, swap)[o + 1] == (if swap then p.0 else p.1)
  {
    hide PackedPixel;
    MulMonotone(y + 1, height, width);
    var i := y * width + x;
    DivModUnique(y, x, width);
    assert i * 2 / 2 == i && (i * 2 + 1) / 2 == i && i * 2 % 2 == 0 && (i * 2 + 1) % 2 == 1;
  }

  /** A source and an output are taken exactly when the sizes and the angle are, a row holds its pixels,
      and every pixel of the source and every byte of the image lies in its buffer. */
  lemma AllowedExactly(s: Source, capacity: nat, width: u32, height: u32, degrees: nat)
    requires |s.data| <= U64_MAX
    ensures PackAllowed(s, capacity, width, height, degrees)
            <==> && 1 <= s.width <= 4096 && 1 <= s.height <= 4096 && 1 <= width <= 4096 && 1 <= height <= 4096
                 && degrees in [0, 90, 180, 270] && s.width * 2 <= s.stride
                 && (forall x: nat, y: nat :: x < s.width && y < s.height ==> PixelFits(s.stride, |s.data|, x, y))
                 && (forall x: nat, y: nat :: x < width && y < height ==> PixelFits(width * 2, capacity, x, y))
  {
    if 1 <= s.width <= 4096 && 1 <= s.height <= 4096 && 1 <= width <= 4096 && 1 <= height <= 4096 && s.width * 2 <= s.stride {
      RowsFit(s.stride, s.width, s.height, |s.data|);
      RowsFit(width * 2, width, height, capacity);
      assert (width * 2) * (height - 1) + width * 2 == width * height * 2;
    }
  }

  /** The two bytes of a pixel lie in a buffer. */
  predicate PixelFits(stride: nat, capacity: nat, x: nat, y: nat)
  {
    y * stride + x * 2 + 2 <= capacity
  }

  lemma RowsFit(stride: nat, width: nat, height: nat, capacity: nat)
    requires 0 < width && 0 < height
    ensures (forall x: nat, y: nat :: x < width && y < height ==> PixelFits(stride, capacity, x, y))
            <==> stride * (height - 1) + width * 2 <= capacity
  {
    if stride * (height - 1) + width * 2 <= capacity {
      forall x: nat, y: nat | x < width && y < height ensures PixelFits(stride, capacity, x, y) { MulMonotone(y, height - 1, stride); }
    }
    if PixelFits(stride, capacity, width - 1, height - 1) {
      assert (height - 1) * stride + (width - 1) * 2 + 2 <= capacity;
    }
  }

  /** Nearest sampling takes the source pixel in which the output pixel's edge lies. */
  lemma SampleExactly(x: int, size: int, out: int, c: int)
    requires 0 < out
    ensures x * size / out == c <==> c * out <= x * size < (c + 1) * out
  {
    DivBounds(x * size, out);
    if c * out <= x * size < (c + 1) * out {
      DivExceeds(x * size, out, c);
      DivExceeds(x * size, out, c + 1);
    }
  }

  /** Without turning and at the same size the image is a copy; and each turn brings its corner to the
      top left: the bottom left after 90 degrees, the bottom right after 180, the top right after 270. */
  lemma CornersTurn(s: Source, width: u32, height: u32, x: nat, y: nat)
    requires 0 < s.width && 0 < s.height && 0 < width && 0 < height
    ensures width == s.width && height == s.height ==> PackedPixel(s, width, height, 0, x, y) == SourcePixel(s, x, y)
    ensures PackedPixel(s, width, height, 90, 0, 0) == SourcePixel(s, 0, s.height - 1)
    ensures PackedPixel(s, width, height, 180, 0, 0) == SourcePixel(s, s.width - 1, s.height - 1)
    ensures PackedPixel(s, width, height, 270, 0, 0) == SourcePixel(s, s.width - 1, 0)
  {
    hide PackedPixel, SourcePixel;
    if width == s.width && height == s.height { CopiesPlain(s, x, y); }
    FirstPixel(s, width, height, 90);
    FirstPixel(s, width, height, 180);
    FirstPixel(s, width, height, 270);
  }

  lemma CopiesPlain(s: Source, x: nat, y: nat)
    requires 0 < s.width && 0 < s.height
    ensures PackedPixel(s, s.width, s.height, 0, x, y) == SourcePixel(s, x, y)
  {
    hide SourcePixel, TurnedPixel, TurnedSize;
    ReadsTurnedPixel(s, 0, x, y);
    SampleExactly(x, s.width, s.width, x);
    SampleExactly(y, s.height, s.height, y);
    assert (x + 1) * s.width == x * s.width + s.width && (y + 1) * s.height == y * s.height + s.height;
  }

  lemma FirstPixel(s: Source, width: u32, height: u32, degrees: nat)
    requires Orthogonal(degrees) && 0 < width && 0 < height
    ensures PackedPixel(s, width, height, degrees, 0, 0) == SourcePixel(s, ReadX(s, degrees, 0, 0), ReadY(s, degrees, 0, 0))
  {
    hide SourcePixel, TurnedPixel, TurnedSize, ReadX, ReadY;
    ReadsTurnedPixel(s, degrees, 0, 0);
    ZeroSample(TurnedSize(s, degrees / 90).0, width);
    ZeroSample(TurnedSize(s, degrees / 90).1, height);
  }

  lemma ZeroSample(size: int, out: int)
    requires 0 < out
    ensures 0 * size / out == 0
  {
  }

  method PackRgb565(s: Source, output: array<byte>, width: u32, height: u32, degrees: nat, swap: bool) returns (ok: bool)
    modifies output
    ensures ok == PackAllowed(s, output.Length, width, height, degrees)
    ensures ok ==> output[..] == Packed(s, width, height, degrees, swap) + old(output[ImageBytes(width, height)..])
    ensures !ok ==> output[..] == old(output[..])
  {
    if s.width == 0 || s.height == 0 || s.width > 4096 || s.height > 4096 || width == 0 || height == 0
       || width > 4096 || height > 4096 || (degrees != 0 && degrees != 90 && degrees != 180 && degrees != 270)
       || s.stride < s.width * 2 {
      return false;
    }
    SpanGuard(s);
    if s.height > 1 && s.stride > (U64_MAX - s.width * 2) / (s.height - 1) { return false; }
    var span, bytes := s.stride * (s.height - 1) + s.width * 2, width * height * 2;
    if span > |s.data| || bytes > output.Length { return false; }
    PackRows(s, output, width, height, degrees, swap);
    ok := true;
  }

  /** The division guard is the overflow condition. */
  lemma SpanGuard(s: Source)
    requires 0 < s.height && s.width <= 4096
    ensures s.height > 1 ==>
              (s.stride > (U64_MAX - s.width * 2) / (s.height - 1) <==> SourceSpan(s) > U64_MAX)
  {
    if s.height > 1 {
      DivExceeds(U64_MAX - s.width * 2, s.height - 1, s.stride);
    }
  }

  /** The first n bytes are the image's, the rest what was there. */
  ghost predicate Written(out: seq<byte>, image: seq<byte>, was: seq<byte>, n: int)
  {
    0 <= n <= |image| <= |was| && out == image[..n] + was[n..]
  }

  /** One pixel read from the source and stored at its place. */
  method PackOne(s: Source, output: array<byte>, offset: nat, p: nat, swap: bool, ghost image: seq<byte>, ghost was: seq<byte>)
    requires p + 1 < |s.data| && offset + 2 <= |image| && Written(output[..], image, was, offset)
    requires image[offset] == s.data[p + if swap then 1 else 0] && image[offset + 1] == s.data[p + if swap then 0 else 1]
    modifies output
    ensures Written(output[..], image, was, offset + 2)
  {
    output[offset] := s.data[p + if swap then 1 else 0];
    output[offset + 1] := s.data[p + if swap then 0 else 1];
  }

  method PackRows(s: Source, output: array<byte>, width: u32, height: u32, degrees: nat, swap: bool)
    requires PackAllowed(s, output.Length, width, height, degrees)
    modifies output
    ensures output[..] == Packed(s, width, height, degrees, swap) + old(output[ImageBytes(width, height)..])
  {
    hide Packed, Written;
    ghost var image, was := Packed(s, width, height, degrees, swap), output[..];
    WrittenEnds(output[..], image, was, s, output.Length, width, height, degrees);
    var y := 0;
    while y < height
      invariant 0 <= y <= height
      invariant Written(output[..], image, was, y * width * 2)
    {
      PackRow(s, output, width, height, degrees, swap, y, image, was);
      y := y + 1;
    }
    assert y * width * 2 == |image|;
    WrittenEnds(output[..], image, was, s, output.Length, width, height, degrees);
  }

  lemma WrittenEnds(out: seq<byte>, image: seq<byte>, was: seq<byte>, s: Source, capacity: nat, width: u32, height: u32, degrees: nat)
    requires PackAllowed(s, capacity, width, height, degrees) && |was| == capacity && |image| == ImageBytes(width, height)
    ensures Written(was, image, was, 0)
    ensures Written(out, image, was, |image|) ==> out == image + was[|image|..]
  {
  }

  method PackRow(s: Source, output: array<byte>, width: u32, height: u32, degrees: nat, swap: bool, y: nat,
                 ghost image: seq<byte>, ghost was: seq<byte>)
    requires PackAllowed(s, output.Length, width, height, degrees) && y < height && 0 < width
    requires image == Packed(s, width, height, degrees, swap) && Written(output[..], image, was, y * width * 2)
    modifies output
    ensures Written(output[..], image, was, (y + 1) * width * 2)
  {
    hide *;
    ghost var row := y * width;
    var x := 0;
    while x < width
      invariant 0 <= x <= width
      invariant Written(output[..], image, was, (row + x) * 2)
    {
      var p := SourceOffset(s, output.Length, width, height, degrees, swap, x, y, image);
      PackOne(s, output, (y * width + x) * 2, p, swap, image, was);
      x := x + 1;
    }
    assert (row + width) * 2 == (y + 1) * width * 2;
  }

  /** Where the source pixel of an output pixel lies. */
  method SourceOffset(s: Source, ghost capacity: nat, width: u32, height: u32, degrees: nat, ghost swap: bool, x: nat, y: nat,
                      ghost image: seq<byte>) returns (p: nat)
    requires PackAllowed(s, capacity, width, height, degrees) && x < width && y < height
    requires image == Packed(s, width, height, degrees, swap)
    ensures p + 1 < |s.data| && (y * width + x) * 2 + 2 <= |image|
    ensures image[(y * width + x) * 2] == s.data[p + if swap then 1 else 0]
    ensures image[(y * width + x) * 2 + 1] == s.data[p + if swap then 0 else 1]
  {
    hide PackedPixel, TurnedPixel, TurnedSize, SourcePixel, Packed;
    var rotated := degrees == 90 || degrees == 270;
    var rw, rh := if rotated then s.height else s.width, if rotated then s.width else s.height;
    PixelStep(s, capacity, width, height, degrees, swap, x, y);
    var rx, ry := x * rw / width, y * rh / height;
    var sx, sy := ReadX(s, degrees, rx, ry), ReadY(s, degrees, rx, ry);
    p := sy * s.stride + sx * 2;
  }

  /** What one step of the loop reads and where it belongs. */
  lemma PixelStep(s: Source, capacity: nat, width: u32, height: u32, degrees: nat, swap: bool, x: nat, y: nat)
    requires PackAllowed(s, capacity, width, height, degrees) && x < width && y < height
    ensures var rotated := degrees == 90 || degrees == 270;
            var rx := x * (if rotated then s.height else s.width) / width;
            var ry := y * (if rotated then s.width else s.height) / height;
            var p := ReadY(s, degrees, rx, ry) * s.stride + ReadX(s, degrees, rx, ry) * 2;
            var o, image := (y * width + x) * 2, Packed(s, width, height, degrees, swap);
            && 0 <= p < |s.data| - 1 && o + 2 <= |image|
            && image[o] == s.data[p + if swap then 1 else 0] && image[o + 1] == s.data[p + if swap then 0 else 1]
  {
    hide Packed;
    var rotated := degrees == 90 || degrees == 270;
    var w, h := if rotated then s.height else s.width, if rotated then s.width else s.height;
    SampleInside(x, w, width);
    SampleInside(y, h, height);
    var rx, ry := x * w / width, y * h / height;
    PixelInSpan(s, ReadX(s, degrees, rx, ry), ReadY(s, degrees, rx, ry));
    ReadsTurnedPixel(s, degrees, rx, ry);
    BytesOfPixel(s, width, height, degrees, swap, x, y);
  }
}
