/** YUV frames: layout, validation, sampling, conversion to RGB888, and cropping. */
module Yuv {
  import opened Prelude

  datatype Format = I420 | I422 | I444 | I400 | Nv12 | Nv21 | Nv16 | Nv61 | Yuy2 | Uyvy | Yvyu | Vyuy | OtherFormat

  datatype Space = Bt601Limited | Bt709Limited | Bt601Full | Bt709Full

  /** A borrowed plane: where it starts (zero for none), bytes per row, bytes it may be read. */
  datatype Plane = Plane(data: nat, stride: u32, capacity: u64)

  type Planes = s: seq<Plane> | |s| == 3 witness [Plane(0, 0, 0), Plane(0, 0, 0), Plane(0, 0, 0)]

  datatype Frame = Frame(format: Format, width: u32, height: u32, space: Space, planes: Planes)

  /** Bytes of a row and rows of each plane. */
  datatype Layout = Layout(planes: nat, rowBytes: seq<nat>, rows: seq<nat>)

  /** What lies at every address. */
  type Memory = nat -> byte

  // ----- layout and validation -----

  predicate Packed(f: Format)
  {
    f == Yuy2 || f == Uyvy || f == Yvyu || f == Vyuy
  }

  predicate SubX(f: Format)
  {
    f != I400 && f != I444
  }

  predicate SubY(f: Format)
  {
    f == I420 || f == Nv12 || f == Nv21
  }

  function PlaneCount(f: Format): nat
  {
    match f
    case I420 => 3
    case I422 => 3
    case I444 => 3
    case Nv12 => 2
    case Nv21 => 2
    case Nv16 => 2
    case Nv61 => 2
    case _ => 1
  }

  function RowBytes(f: Format, w: nat, plane: nat): nat
  {
    if plane == 0 then (if Packed(f) then (w + 1) / 2 * 4 else w)
    else if PlaneCount(f) == 3 then (if f == I444 then w else (w + 1) / 2)
    else (w + 1) / 2 * 2
  }

  function Rows(f: Format, h: nat, plane: nat): nat
  {
    if plane > 0 && SubY(f) then (h + 1) / 2 else h
  }

  predicate LayoutAllowed(f: Format, w: nat, h: nat)
  {
    0 < w <= 4096 && 0 < h <= 4096 && w * h <= 8 * 1024 * 1024 && f != OtherFormat
  }

  /** Bytes from the first to the last byte of a plane. */
  function Span(stride: nat, rowBytes: nat, rows: nat): int
  {
    (rows - 1) * stride + rowBytes
  }

  predicate SpanValid(data: nat, stride: nat, rowBytes: nat, rows: nat, capacity: nat)
  {
    && stride >= rowBytes && data != 0 && Span(stride, rowBytes, rows) <= capacity
    && data <= U64_MAX - Span(stride, rowBytes, rows)
  }

  predicate PlaneValid(f: Frame, i: nat)
    requires i < 3
  {
    SpanValid(f.planes[i].data, f.planes[i].stride, RowBytes(f.format, f.width, i), Rows(f.format, f.height, i), f.planes[i].capacity)
  }

  predicate Valid(f: Frame)
  {
    LayoutAllowed(f.format, f.width, f.height) && forall i :: 0 <= i < PlaneCount(f.format) ==> PlaneValid(f, i)
  }

  /** The validation loop. */
  method Validate(f: Frame) returns (ok: bool)
    ensures ok == Valid(f)
  {
    if f.width == 0 || f.height == 0 || f.width > 4096 || f.height > 4096 || f.width * f.height > 8 * 1024 * 1024
       || f.format == OtherFormat { return false; }
    var i := 0;
    while i < PlaneCount(f.format)
      invariant i <= PlaneCount(f.format) && forall k :: 0 <= k < i ==> PlaneValid(f, k)
    {
      if !PlaneValid(f, i) { return false; }
      i := i + 1;
    }
    ok := true;
  }

  // ----- sampling -----

  /** One byte: its plane, row and column. */
  datatype Spot = Spot(plane: nat, row: nat, column: nat)

  function Index(f: Frame, s: Spot): nat
  {
    if s.plane < 3 then s.row * f.planes[s.plane].stride + s.column else 0
  }

  function ByteAt(m: Memory, f: Frame, s: Spot): byte
  {
    if s.plane < 3 then m(f.planes[s.plane].data + Index(f, s)) else 0
  }

  function ChromaX(f: Format, x: nat): nat
  {
    if f == I444 then x else x / 2
  }

  function ChromaY(f: Format, y: nat): nat
  {
    if SubY(f) then y / 2 else y
  }

  /** Where luma and the two chroma values of a pixel lie. */
  function LumaSpot(f: Format, x: nat, y: nat): Spot
  {
    match f
    case Yuy2 => Spot(0, y, x / 2 * 4 + x % 2 * 2)
    case Yvyu => Spot(0, y, x / 2 * 4 + x % 2 * 2)
    case Uyvy => Spot(0, y, x / 2 * 4 + x % 2 * 2 + 1)
    case Vyuy => Spot(0, y, x / 2 * 4 + x % 2 * 2 + 1)
    case _ => Spot(0, y, x)
  }

  function USpot(f: Format, x: nat, y: nat): Spot
  {
    match f
    case Yuy2 => Spot(0, y, x / 2 * 4 + 1)
    case Yvyu => Spot(0, y, x / 2 * 4 + 3)
    case Uyvy => Spot(0, y, x / 2 * 4)
    case Vyuy => Spot(0, y, x / 2 * 4 + 2)
    case Nv12 => Spot(1, ChromaY(f, y), ChromaX(f, x) * 2)
    case Nv16 => Spot(1, ChromaY(f, y), ChromaX(f, x) * 2)
    case Nv21 => Spot(1, ChromaY(f, y), ChromaX(f, x) * 2 + 1)
    case Nv61 => Spot(1, ChromaY(f, y), ChromaX(f, x) * 2 + 1)
    case _ => Spot(1, ChromaY(f, y), ChromaX(f, x))
  }

  function VSpot(f: Format, x: nat, y: nat): Spot
  {
    match f
    case Yuy2 => Spot(0, y, x / 2 * 4 + 3)
    case Yvyu => Spot(0, y, x / 2 * 4 + 1)
    case Uyvy => Spot(0, y, x / 2 * 4 + 2)
    case Vyuy => Spot(0, y, x / 2 * 4)
    case Nv12 => Spot(1, ChromaY(f, y), ChromaX(f, x) * 2 + 1)
    case Nv16 => Spot(1, ChromaY(f, y), ChromaX(f, x) * 2 + 1)
    case Nv21 => Spot(1, ChromaY(f, y), ChromaX(f, x) * 2)
    case Nv61 => Spot(1, ChromaY(f, y), ChromaX(f, x) * 2)
    case _ => Spot(2, ChromaY(f, y), ChromaX(f, x))
  }

  /** Luma and chroma of a pixel. */
  function Sample(m: Memory, f: Frame, x: nat, y: nat): (int, int, int)
  {
    if f.format == I400 then (ByteAt(m, f, LumaSpot(f.format, x, y)), 128, 128)
    else
      (ByteAt(m, f, LumaSpot(f.format, x, y)), ByteAt(m, f, USpot(f.format, x, y)), ByteAt(m, f, VSpot(f.format, x, y)))
  }

  /** Every byte that sampling a pixel reads; the code reads byte x of the row first, whatever the format. */
  function PixelSpots(f: Format, x: nat, y: nat): set<Spot>
  {
    if f == I400 then {Spot(0, y, x)} else {Spot(0, y, x), LumaSpot(f, x, y), USpot(f, x, y), VSpot(f, x, y)}
  }

  /** The sampling code, with every byte it reads. */
  method SampleAt(m: Memory, f: Frame, x: nat, y: nat) returns (luma: int, u: int, v: int, touched: set<Spot>)
    ensures (luma, u, v) == Sample(m, f, x, y) && touched <= PixelSpots(f.format, x, y)
  {
    hide ByteAt;
    luma, touched := ByteAt(m, f, Spot(0, y, x)), {Spot(0, y, x)};
    u, v := 128, 128;
    if f.format == I400 { return; }
    var a: Spot, b: Spot;
    if Packed(f.format) {
      var p := x / 2 * 4;
      var at: Spot;
      if f.format == Yuy2 {
        at, a, b := Spot(0, y, p + x % 2 * 2), Spot(0, y, p + 1), Spot(0, y, p + 3);
      } else if f.format == Uyvy {
        at, a, b := Spot(0, y, p + x % 2 * 2 + 1), Spot(0, y, p), Spot(0, y, p + 2);
      } else if f.format == Yvyu {
        at, b, a := Spot(0, y, p + x % 2 * 2), Spot(0, y, p + 1), Spot(0, y, p + 3);
      } else {
        at, b, a := Spot(0, y, p + x % 2 * 2 + 1), Spot(0, y, p), Spot(0, y, p + 2);
      }
      luma, u, v := ByteAt(m, f, at), ByteAt(m, f, a), ByteAt(m, f, b);
      touched := touched + {at, a, b};
      return;
    }
    var cx := if f.format != I444 then x / 2 else x;
    var cy := if f.format == I420 || f.format == Nv12 || f.format == Nv21 then y / 2 else y;
    if f.format == Nv12 || f.format == Nv16 {
      a, b := Spot(1, cy, cx * 2), Spot(1, cy, cx * 2 + 1);
    } else if f.format == Nv21 || f.format == Nv61 {
      b, a := Spot(1, cy, cx * 2), Spot(1, cy, cx * 2 + 1);
    } else {
      a, b := Spot(1, cy, cx), Spot(2, cy, cx);
    }
    u, v := ByteAt(m, f, a), ByteAt(m, f, b);
    touched := touched + {a, b};
  }

  /** A byte in a row of a plane lies in the plane's span. */
  lemma InSpan(stride: nat, rowBytes: nat, rows: nat, y: nat, i: nat)
    requires stride >= rowBytes && y < rows && i < rowBytes
    ensures y * stride + i < Span(stride, rowBytes, rows)
  {
    MulMonotone(y, rows - 1, stride);
  }

  /** The spots of a pixel lie in the rows of their planes. */
  lemma SpotInRow(f: Format, w: nat, h: nat, x: nat, y: nat, s: Spot)
    requires f != OtherFormat && x < w && y < h && s in PixelSpots(f, x, y)
    ensures s.plane < PlaneCount(f) && s.row < Rows(f, h, s.plane) && s.column < RowBytes(f, w, s.plane)
  {
  }

  /** Every byte read for a pixel of a validated frame lies in its plane's capacity, odd sizes included. */
  lemma ReadsInside(f: Frame, x: nat, y: nat, s: Spot)
    requires Valid(f) && x < f.width && y < f.height && s in PixelSpots(f.format, x, y)
    ensures s.plane < PlaneCount(f.format) <= 3 && Index(f, s) < f.planes[s.plane].capacity
  {
    hide PixelSpots, RowBytes, Rows;
    SpotInRow(f.format, f.width, f.height, x, y, s);
    assert PlaneValid(f, s.plane);
    InSpan(f.planes[s.plane].stride, RowBytes(f.format, f.width, s.plane), Rows(f.format, f.height, s.plane), s.row, s.column);
  }

  // ----- conversion -----

  /** Luma gain, V to red, U to green, V to green, U to blue, in 16.16 fixed point. */
  function Coefficients(space: Space): (int, int, int, int, int)
  {
    match space
    case Bt601Limited => (76309, 104597, 25675, 53279, 132201)
    case Bt709Limited => (76309, 117489, 13975, 34925, 138438)
    case Bt601Full => (65536, 91881, 22553, 46802, 116130)
    case Bt709Full => (65536, 103206, 12276, 30679, 121609)
  }

  /** Round to the nearest byte, clipped. */
  function Channel(fixed: int): (r: byte)
    ensures 0 < fixed < 255 * 65536 ==> -32768 <= r as int * 65536 - fixed <= 32768
    ensures fixed <= 0 ==> r == 0
    ensures fixed >= 255 * 65536 ==> r == 255
  {
    if fixed <= 0 then 0 else if fixed >= 255 * 65536 then 255 else (fixed + 32768) / 65536
  }

  /** Blue, green and red of a sample. */
  function Rgb(space: Space, s: (int, int, int)): (byte, byte, byte)
  {
    var c := Coefficients(space);
    var base := (s.0 - if space == Bt601Limited || space == Bt709Limited then 16 else 0) * c.0;
    var u, v := s.1 - 128, s.2 - 128;
    (Channel(base + u * c.4), Channel(base - u * c.2 - v * c.3), Channel(base + v * c.1))
  }

  function Pixel(m: Memory, f: Frame, x: nat, y: nat): (byte, byte, byte)
  {
    Rgb(f.space, Sample(m, f, x, y))
  }

  function Part(p: (byte, byte, byte), c: nat): byte
  {
    if c == 0 then p.0 else if c == 1 then p.1 else p.2
  }

  /** Whether the output can take the image. */
  predicate OutputFits(f: Frame, stride: nat, capacity: nat)
  {
    stride >= f.width * 3 && Span(stride, f.width * 3, f.height) <= capacity
  }

  /** Writing the image changes no byte that is read for it. */
  lemma OutputApart(f: Frame, at: nat, stride: nat, capacity: nat, x: nat, y: nat, s: Spot, i: nat)
    requires Accepts(f, at, stride, capacity) && x < f.width && y < f.height && s in PixelSpots(f.format, x, y)
    requires i < Span(stride, f.width * 3, f.height)
    ensures s.plane < 3 && f.planes[s.plane].data + Index(f, s) != at + i
  {
    hide PixelSpots, RowBytes, Rows;
    SpotInRow(f.format, f.width, f.height, x, y, s);
    assert PlaneValid(f, s.plane) && !Overlaps(f, s.plane, at, Span(stride, f.width * 3, f.height));
    InSpan(f.planes[s.plane].stride, RowBytes(f.format, f.width, s.plane), Rows(f.format, f.height, s.plane), s.row, s.column);
  }

  /** The first n pixels of a row, three bytes each. */
  function Row(m: Memory, f: Frame, y: nat, n: nat): (r: seq<byte>)
    ensures |r| == 3 * n
    decreases n
  {
    if n == 0 then []
    else
      var p := Pixel(m, f, n - 1, y);
      Row(m, f, y, n - 1) + [p.0, p.1, p.2]
  }

  /** Bytes laid over a buffer. */
  function Over(s: seq<byte>, at: nat, bytes: seq<byte>): (r: seq<byte>)
    requires at + |bytes| <= |s|
    ensures |r| == |s|
    ensures forall i :: 0 <= i < |s| ==> r[i] == if at <= i < at + |bytes| then bytes[i - at] else s[i]
  {
    s[..at] + bytes + s[at + |bytes|..]
  }

  /** Where a row of the output starts. */
  function RowStart(stride: nat, y: nat): nat
  {
    y * stride
  }

  lemma RowsApart(stride: nat, y: nat, z: nat)
    requires y < z
    ensures RowStart(stride, y) + stride <= RowStart(stride, z)
  {
    MulMonotone(y + 1, z, stride);
  }

  /** The buffer after the first rows were converted. */
  function Painted(was: seq<byte>, m: Memory, f: Frame, stride: nat, rows: nat): (r: seq<byte>)
    requires rows <= f.height && OutputFits(f, stride, |was|)
    ensures |r| == |was|
    decreases rows
  {
    if rows == 0 then was
    else
      RowFits(f, stride, |was|, rows - 1);
      Over(Painted(was, m, f, stride, rows - 1), RowStart(stride, rows - 1), Row(m, f, rows - 1, f.width))
  }

  lemma RowFits(f: Frame, stride: nat, capacity: nat, y: nat)
    requires y < f.height && OutputFits(f, stride, capacity)
    ensures RowStart(stride, y) + f.width * 3 <= capacity
  {
    MulMonotone(y, f.height - 1, stride);
  }

  /** The bytes from an address share one with a plane. */
  predicate Overlaps(f: Frame, i: nat, at: nat, span: int)
    requires i < 3
  {
    var p := f.planes[i];
    p.data < at + span && at < p.data + Span(p.stride, RowBytes(f.format, f.width, i), Rows(f.format, f.height, i))
  }

  /** The output buffer at an address (zero for none) takes the image and shares no byte with the frame. */
  predicate Accepts(f: Frame, at: nat, stride: nat, capacity: nat)
  {
    && Valid(f) && SpanValid(at, stride, f.width * 3, f.height, capacity)
    && forall i :: 0 <= i < PlaneCount(f.format) && i < 3 ==> !Overlaps(f, i, at, Span(stride, f.width * 3, f.height))
  }

  /** Convert a frame: refused exactly when the frame or the output buffer does not fit or they overlap;
      padding and bytes beyond the image stay as they were. */
  method ToRgb888(m: Memory, f: Frame, output: array<byte>, at: nat, stride: nat) returns (ok: bool)
    modifies output
    ensures ok == Accepts(f, at, stride, output.Length)
    ensures ok ==> OutputFits(f, stride, output.Length)
    ensures if ok then output[..] == Painted(old(output[..]), m, f, stride, f.height) else output[..] == old(output[..])
  {
    hide RowBytes, Rows, Span, PlaneValid, LayoutAllowed, Painted;
    var valid := Validate(f);
    if !valid || !SpanValid(at, stride, f.width * 3, f.height, output.Length) { return false; }
    var i := 0;
    while i < PlaneCount(f.format)
      invariant i <= PlaneCount(f.format) <= 3
      invariant forall k :: 0 <= k < i ==> !Overlaps(f, k, at, Span(stride, f.width * 3, f.height))
    {
      if Overlaps(f, i, at, Span(stride, f.width * 3, f.height)) { return false; }
      i := i + 1;
    }
    ConvertRows(m, f, output, stride);
    ok := true;
  }

  method ConvertRows(m: Memory, f: Frame, output: array<byte>, stride: nat)
    requires OutputFits(f, stride, output.Length)
    modifies output
    ensures output[..] == Painted(old(output[..]), m, f, stride, f.height)
  {
    hide Over, Row, OutputFits, RowStart;
    ghost var was := output[..];
    var y := 0;
    while y < f.height
      invariant y <= f.height && output[..] == Painted(was, m, f, stride, y)
    {
      RowFits(f, stride, output.Length, y);
      ConvertRow(m, f, output, y, RowStart(stride, y));
      y := y + 1;
    }
  }

  method ConvertRow(m: Memory, f: Frame, output: array<byte>, y: nat, start: nat)
    requires start + f.width * 3 <= output.Length
    modifies output
    ensures output[..] == Over(old(output[..]), start, Row(m, f, y, f.width))
  {
    hide Pixel, Sample, Rgb, Over;
    ghost var was := output[..];
    var x := 0;
    assert output[..] == Over(was, start, Row(m, f, y, 0));
    while x < f.width
      invariant x <= f.width && output[..] == Over(was, start, Row(m, f, y, x))
    {
      var luma, u, v, _ := SampleAt(m, f, x, y);
      PixelIs(m, f, x, y, luma, u, v);
      var p := Rgb(f.space, (luma, u, v));
      PutPixel(output, start + 3 * x, p);
      OverMore(was, start, Row(m, f, y, x), p);
      x := x + 1;
    }
  }

  lemma PixelIs(m: Memory, f: Frame, x: nat, y: nat, luma: int, u: int, v: int)
    requires (luma, u, v) == Sample(m, f, x, y)
    ensures Rgb(f.space, (luma, u, v)) == Pixel(m, f, x, y)
  {
    hide Rgb, Sample;
  }

  method PutPixel(output: array<byte>, at: nat, p: (byte, byte, byte))
    requires at + 3 <= output.Length
    modifies output
    ensures output[..] == Over(old(output[..]), at, [p.0, p.1, p.2])
  {
    output[at] := p.0;
    output[at + 1] := p.1;
    output[at + 2] := p.2;
  }

  lemma OverMore(was: seq<byte>, start: nat, row: seq<byte>, p: (byte, byte, byte))
    requires start + |row| + 3 <= |was|
    ensures Over(Over(was, start, row), start + |row|, [p.0, p.1, p.2]) == Over(was, start, row + [p.0, p.1, p.2])
  {
    hide Over;
    var more := row + [p.0, p.1, p.2];
    assert forall i :: 0 <= i < |row| ==> more[i] == row[i];
  }

  /** Byte c of pixel x in a row. */
  lemma {:induction false} RowAt(m: Memory, f: Frame, y: nat, n: nat, x: nat, c: nat)
    requires x < n && c < 3
    ensures Row(m, f, y, n)[3 * x + c] == Part(Pixel(m, f, x, y), c)
    decreases n
  {
    hide Pixel;
    if x < n - 1 { RowAt(m, f, y, n - 1, x, c); }
  }

  /** The converted image: every byte of every pixel. */
  lemma {:induction false} PaintedPixel(was: seq<byte>, m: Memory, f: Frame, stride: nat, rows: nat, x: nat, y: nat, c: nat)
    requires rows <= f.height && OutputFits(f, stride, |was|) && y < rows && x < f.width && c < 3
    ensures RowStart(stride, y) + 3 * x + c < |was|
    ensures Painted(was, m, f, stride, rows)[RowStart(stride, y) + 3 * x + c] == Part(Pixel(m, f, x, y), c)
    decreases rows
  {
    hide Pixel, Over, Row, RowStart, OutputFits;
    RowFits(f, stride, |was|, y);
    RowFits(f, stride, |was|, rows - 1);
    StrideHolds(f, stride, |was|);
    if y < rows - 1 {
      PaintedPixel(was, m, f, stride, rows - 1, x, y, c);
      RowsApart(stride, y, rows - 1);
    } else {
      RowAt(m, f, y, f.width, x, c);
    }
  }

  lemma StrideHolds(f: Frame, stride: nat, capacity: nat)
    requires OutputFits(f, stride, capacity)
    ensures stride >= f.width * 3
  {
  }

  /** Everything that belongs to no row stays. */
  lemma {:induction false} PaintedPadding(was: seq<byte>, m: Memory, f: Frame, stride: nat, rows: nat, i: nat)
    requires rows <= f.height && OutputFits(f, stride, |was|) && i < |was|
    requires forall y: nat :: y < rows ==> !InRow(f, stride, y, i)
    ensures Painted(was, m, f, stride, rows)[i] == was[i]
    decreases rows
  {
    hide Pixel, Over, Row, RowStart, OutputFits;
    if rows > 0 {
      RowFits(f, stride, |was|, rows - 1);
      PaintedPadding(was, m, f, stride, rows - 1, i);
      assert !InRow(f, stride, rows - 1, i);
    }
  }

  predicate InRow(f: Frame, stride: nat, y: nat, i: nat)
  {
    RowStart(stride, y) <= i < RowStart(stride, y) + f.width * 3
  }
}
