/** Borrowing an SDK buffer as a YUV frame, with its crop rectangle applied. */
module YuvCrop {
  import opened Prelude
  import opened Yuv

  datatype Rect = Rect(x: int, y: int, width: int, height: int)

  /** An SDK buffer: kind, size, up to three plane addresses and strides, and an optional crop. */
  datatype Buffer = Buffer(physical: bool, format: Format, width: int, height: int, addr: seq<u32>, stride: seq<u32>, cropped: bool, crop: Rect)

  predicate Shaped(b: Buffer, capacities: seq<u64>)
  {
    |b.addr| == |b.stride| == |capacities| == 3
  }

  /** The span of a plane stays below 4 GiB. */
  predicate Addressable(b: Buffer, i: nat)
    requires |b.addr| == |b.stride| == 3 && i < 3 && b.width > 0 && b.height > 0
  {
    Span(b.stride[i], RowBytes(b.format, b.width, i), Rows(b.format, b.height, i)) <= U32_MAX - b.addr[i] + 1
  }

  function PlaneOf(b: Buffer, capacities: seq<u64>, i: nat): Plane
    requires Shaped(b, capacities) && i < 3
  {
    if i < PlaneCount(b.format) then Plane(b.addr[i], b.stride[i], capacities[i]) else Plane(0, 0, 0)
  }

  /** The whole frame, or nothing. */
  function Whole(b: Buffer, capacities: seq<u64>, space: Space): Option<Frame>
    requires Shaped(b, capacities)
  {
    if !b.physical || b.width <= 0 || b.height <= 0 || !LayoutAllowed(b.format, b.width, b.height) then None
    else if exists i :: 0 <= i < PlaneCount(b.format) && i < 3 && !Addressable(b, i) then None
    else
      var f := Frame(b.format, b.width, b.height, space, [PlaneOf(b, capacities, 0), PlaneOf(b, capacities, 1), PlaneOf(b, capacities, 2)]);
      if Valid(f) then Some(f) else None
  }

  /** A rectangle inside the frame, on whole chroma samples. */
  predicate CropAllowed(f: Frame, c: Rect)
  {
    && c.x >= 0 && c.y >= 0 && c.width > 0 && c.height > 0 && c.x + c.width <= f.width && c.y + c.height <= f.height
    && (SubX(f.format) ==> c.x % 2 == 0) && (SubY(f.format) ==> c.y % 2 == 0)
  }

  /** The first byte of the crop in a plane: its row and its column. */
  function CropRow(f: Format, y: nat, i: nat): nat
  {
    if i > 0 && SubY(f) then y / 2 else y
  }

  function CropColumn(f: Format, x: nat, i: nat): nat
  {
    if Packed(f) then x * 2 else if i > 0 && SubX(f) && PlaneCount(f) == 3 then x / 2 else x
  }

  function Offset(f: Frame, x: nat, y: nat, i: nat): nat
    requires i < 3
  {
    CropRow(f.format, y, i) * f.planes[i].stride + CropColumn(f.format, x, i)
  }

  function Moved(p: Plane, offset: nat): Plane
  {
    if offset < p.capacity then p.(data := p.data + offset, capacity := p.capacity - offset) else p
  }

  function MovedPlane(f: Frame, x: nat, y: nat, i: nat): Plane
    requires i < 3
  {
    if i < PlaneCount(f.format) then Moved(f.planes[i], Offset(f, x, y, i)) else f.planes[i]
  }

  /** The frame with its first plane bytes and its size moved to a rectangle. */
  function CropFrame(f: Frame, c: Rect): Frame
    requires CropAllowed(f, c)
  {
    f.(width := c.width, height := c.height,
       planes := [MovedPlane(f, c.x, c.y, 0), MovedPlane(f, c.x, c.y, 1), MovedPlane(f, c.x, c.y, 2)])
  }

  /** The crop as the code applies it: refused when a plane's offset leaves its capacity or the result does not validate. */
  function Cropped(f: Frame, c: Rect): Option<Frame>
  {
    if !CropAllowed(f, c) then None
    else if exists i :: 0 <= i < PlaneCount(f.format) && i < 3 && Offset(f, c.x, c.y, i) >= f.planes[i].capacity then None
    else if Valid(CropFrame(f, c)) then Some(CropFrame(f, c)) else None
  }

  function FromMpp(b: Buffer, capacities: seq<u64>, space: Space): Option<Frame>
    requires Shaped(b, capacities)
  {
    match Whole(b, capacities, space)
    case None => None
    case Some(f) => if b.cropped then Cropped(f, b.crop) else Some(f)
  }

  /** The loops over the planes. */
  method Borrow(b: Buffer, capacities: seq<u64>, space: Space) returns (r: Option<Frame>)
    requires Shaped(b, capacities)
    ensures r == FromMpp(b, capacities, space)
  {
    if !b.physical || b.width <= 0 || b.height <= 0 || !LayoutAllowed(b.format, b.width, b.height) { return None; }
    var planes: seq<Plane>, i := [Plane(0, 0, 0), Plane(0, 0, 0), Plane(0, 0, 0)], 0;
    PlanesAtMostThree(b.format);
    while i < PlaneCount(b.format)
      invariant i <= PlaneCount(b.format) && |planes| == 3
      invariant forall k :: 0 <= k < i ==> Addressable(b, k)
      invariant forall k :: 0 <= k < 3 ==> planes[k] == if k < i then PlaneOf(b, capacities, k) else Plane(0, 0, 0)
    {
      if !Addressable(b, i) { return None; }
      planes := planes[i := Plane(b.addr[i], b.stride[i], capacities[i])];
      i := i + 1;
    }
    assert planes == [PlaneOf(b, capacities, 0), PlaneOf(b, capacities, 1), PlaneOf(b, capacities, 2)];
    var f := Frame(b.format, b.width, b.height, space, planes);
    var valid := Validate(f);
    if !valid { return None; }
    if !b.cropped { return Some(f); }
    r := ApplyCrop(f, b.crop);
  }

  method ApplyCrop(f: Frame, c: Rect) returns (r: Option<Frame>)
    ensures r == Cropped(f, c)
  {
    if !CropAllowed(f, c) { return None; }
    var planes: seq<Plane>, i := f.planes, 0;
    PlanesAtMostThree(f.format);
    while i < PlaneCount(f.format)
      invariant i <= PlaneCount(f.format) && |planes| == 3
      invariant forall k :: 0 <= k < i ==> Offset(f, c.x, c.y, k) < f.planes[k].capacity
      invariant forall k :: 0 <= k < 3 ==> planes[k] == if k < i then MovedPlane(f, c.x, c.y, k) else f.planes[k]
    {
      var offset := Offset(f, c.x, c.y, i);
      if offset >= planes[i].capacity { return None; }
      planes := planes[i := planes[i].(data := planes[i].data + offset, capacity := planes[i].capacity - offset)];
      i := i + 1;
    }
    assert planes == CropFrame(f, c).planes;
    var g := f.(width := c.width, height := c.height, planes := planes);
    var valid := Validate(g);
    r := if valid then Some(g) else None;
  }

  lemma PlanesAtMostThree(f: Format)
    ensures 1 <= PlaneCount(f) <= 3
  {
  }

  // ----- the crop -----

  /** The rows and columns of a crop lie in those of the frame. */
  lemma CropShape(f: Format, w: nat, h: nat, c: Rect, i: nat)
    requires f != OtherFormat && i < PlaneCount(f)
    requires c.x >= 0 && c.y >= 0 && c.width > 0 && c.height > 0 && c.x + c.width <= w && c.y + c.height <= h
    requires (SubX(f) ==> c.x % 2 == 0) && (SubY(f) ==> c.y % 2 == 0)
    ensures CropColumn(f, c.x, i) + RowBytes(f, c.width, i) <= RowBytes(f, w, i)
    ensures CropRow(f, c.y, i) + Rows(f, c.height, i) <= Rows(f, h, i)
    ensures RowBytes(f, c.width, i) > 0 && Rows(f, c.height, i) > 0
  {
  }

  /** The span of the moved plane ends no later than the plane's. */
  lemma CropSpan(stride: nat, row: nat, column: nat, rowBytes: nat, rows: nat, wholeBytes: nat, wholeRows: nat)
    requires column + rowBytes <= wholeBytes && row + rows <= wholeRows && rows > 0 && rowBytes > 0
    ensures row * stride + column + Span(stride, rowBytes, rows) <= Span(stride, wholeBytes, wholeRows)
    ensures Span(stride, rowBytes, rows) > 0
  {
    assert row * stride + (rows - 1) * stride == (row + rows - 1) * stride;
    MulMonotone(row + rows - 1, wholeRows - 1, stride);
    MulMonotone(0, rows - 1, stride);
  }

  lemma CropPlaneValid(f: Frame, c: Rect, i: nat)
    requires Valid(f) && CropAllowed(f, c) && i < PlaneCount(f.format)
    ensures i < 3 && Offset(f, c.x, c.y, i) < f.planes[i].capacity && PlaneValid(CropFrame(f, c), i)
  {
    hide RowBytes, Rows, CropRow, CropColumn, LayoutAllowed, PlaneCount, SubX, SubY, Packed;
    PlanesAtMostThree(f.format);
    LayoutKnown(f);
    CropShape(f.format, f.width, f.height, c, i);
    assert PlaneValid(f, i);
    CropSpan(f.planes[i].stride, CropRow(f.format, c.y, i), CropColumn(f.format, c.x, i), RowBytes(f.format, c.width, i),
             Rows(f.format, c.height, i), RowBytes(f.format, f.width, i), Rows(f.format, f.height, i));
  }

  lemma LayoutKnown(f: Frame)
    requires Valid(f)
    ensures f.format != OtherFormat
  {
  }

  /** Of a validated frame a crop is accepted exactly when the rectangle is: its own checks of the
      offsets and of the result never refuse more. */
  lemma CropAcceptedExactly(f: Frame, c: Rect)
    requires Valid(f)
    ensures Cropped(f, c).Some? <==> CropAllowed(f, c)
    ensures CropAllowed(f, c) ==> Cropped(f, c) == Some(CropFrame(f, c)) && Valid(CropFrame(f, c))
  {
    if CropAllowed(f, c) {
      hide PlaneValid, Offset, SubX, SubY;
      PlanesAtMostThree(f.format);
      forall i: nat | i < PlaneCount(f.format)
        ensures Offset(f, c.x, c.y, i) < f.planes[i].capacity && PlaneValid(CropFrame(f, c), i)
      {
        CropPlaneValid(f, c, i);
      }
      SmallerLayout(f, c);
    }
  }

  lemma SmallerLayout(f: Frame, c: Rect)
    requires LayoutAllowed(f.format, f.width, f.height) && CropAllowed(f, c)
    ensures LayoutAllowed(f.format, c.width, c.height)
  {
    MulMonotone(c.width, f.width, c.height);
    MulMonotone(c.height, f.height, f.width);
  }

  // ----- cropping commutes with conversion -----

  /** A spot seen from the whole frame. */
  function Shift(f: Format, s: Spot, x: nat, y: nat): Spot
  {
    Spot(s.plane, s.row + CropRow(f, y, s.plane), s.column + CropColumn(f, x, s.plane))
  }

  lemma LumaShifts(f: Format, cx: nat, cy: nat, x: nat, y: nat)
    requires f != OtherFormat && (SubX(f) ==> cx % 2 == 0) && (SubY(f) ==> cy % 2 == 0)
    ensures LumaSpot(f, cx + x, cy + y) == Shift(f, LumaSpot(f, x, y), cx, cy)
  {
    HalfSum(cx, x);
    HalfSum(cy, y);
  }

  lemma UShifts(f: Format, cx: nat, cy: nat, x: nat, y: nat)
    requires f != OtherFormat && (SubX(f) ==> cx % 2 == 0) && (SubY(f) ==> cy % 2 == 0)
    ensures f != I400 ==> USpot(f, cx + x, cy + y) == Shift(f, USpot(f, x, y), cx, cy)
  {
    HalfSum(cx, x);
    HalfSum(cy, y);
  }

  lemma VShifts(f: Format, cx: nat, cy: nat, x: nat, y: nat)
    requires f != OtherFormat && (SubX(f) ==> cx % 2 == 0) && (SubY(f) ==> cy % 2 == 0)
    ensures f != I400 ==> VSpot(f, cx + x, cy + y) == Shift(f, VSpot(f, x, y), cx, cy)
  {
    HalfSum(cx, x);
    HalfSum(cy, y);
  }

  /** The spots of a pixel move with the crop. */
  lemma SpotsShift(f: Format, cx: nat, cy: nat, x: nat, y: nat)
    requires f != OtherFormat && (SubX(f) ==> cx % 2 == 0) && (SubY(f) ==> cy % 2 == 0)
    ensures LumaSpot(f, cx + x, cy + y) == Shift(f, LumaSpot(f, x, y), cx, cy)
    ensures f != I400 ==> USpot(f, cx + x, cy + y) == Shift(f, USpot(f, x, y), cx, cy)
    ensures f != I400 ==> VSpot(f, cx + x, cy + y) == Shift(f, VSpot(f, x, y), cx, cy)
  {
    hide LumaSpot, USpot, VSpot, Shift, SubX, SubY;
    LumaShifts(f, cx, cy, x, y);
    UShifts(f, cx, cy, x, y);
    VShifts(f, cx, cy, x, y);
  }

  lemma HalfSum(a: nat, b: nat)
    ensures a % 2 == 0 ==> (a + b) / 2 == a / 2 + b / 2 && (a + b) % 2 == b % 2
  {
  }

  /** A byte of the cropped frame is the shifted byte of the whole one. */
  lemma ByteShift(m: Memory, f: Frame, c: Rect, s: Spot)
    requires Valid(f) && CropAllowed(f, c) && s.plane < PlaneCount(f.format)
    ensures ByteAt(m, CropFrame(f, c), s) == ByteAt(m, f, Shift(f.format, s, c.x, c.y))
  {
    hide RowBytes, Rows, CropRow, CropColumn, LayoutAllowed, PlaneCount, SubX, SubY, Packed, PlaneValid, Valid;
    PlanesAtMostThree(f.format);
    CropPlaneValid(f, c, s.plane);
    var stride := f.planes[s.plane].stride;
    assert (s.row + CropRow(f.format, c.y, s.plane)) * stride == s.row * stride + CropRow(f.format, c.y, s.plane) * stride;
  }

  lemma SpotPlanes(f: Format, x: nat, y: nat)
    requires f != OtherFormat
    ensures LumaSpot(f, x, y).plane == 0 < PlaneCount(f)
    ensures f != I400 ==> USpot(f, x, y).plane < PlaneCount(f) && VSpot(f, x, y).plane < PlaneCount(f)
  {
  }

  /** Converting a cropped frame gives the crop rectangle of converting the whole frame, for all twelve
      formats and any rectangle the code accepts. */
  lemma CropCommutes(m: Memory, f: Frame, c: Rect, x: nat, y: nat)
    requires Valid(f) && Cropped(f, c).Some? && x < c.width && y < c.height
    ensures var g := Cropped(f, c).value;
            && Valid(g) && x < g.width && y < g.height && c.x >= 0 && c.y >= 0
            && Sample(m, g, x, y) == Sample(m, f, c.x + x, c.y + y) && Pixel(m, g, x, y) == Pixel(m, f, c.x + x, c.y + y)
  {
    hide ByteAt, LumaSpot, USpot, VSpot, Shift, Valid, PlaneValid, Rgb, CropFrame;
    CropAcceptedExactly(f, c);
    LayoutKnown(f);
    CropKeeps(f, c);
    SpotPlanes(f.format, x, y);
    SpotsShift(f.format, c.x, c.y, x, y);
    ByteShift(m, f, c, LumaSpot(f.format, x, y));
    if f.format != I400 {
      ByteShift(m, f, c, USpot(f.format, x, y));
      ByteShift(m, f, c, VSpot(f.format, x, y));
    }
  }

  lemma CropKeeps(f: Frame, c: Rect)
    requires CropAllowed(f, c)
    ensures var g := CropFrame(f, c); g.format == f.format && g.space == f.space && g.width == c.width && g.height == c.height
  {
  }

  /** The same on the converted buffers: byte by byte, the cropped image is the rectangle of the whole one. */
  lemma ConvertedCrop(m: Memory, f: Frame, c: Rect, small: seq<byte>, smallStride: nat, big: seq<byte>, bigStride: nat, x: nat, y: nat, k: nat)
    requires Valid(f) && Cropped(f, c).Some? && x < c.width && y < c.height && k < 3
    requires var g := Cropped(f, c).value; OutputFits(g, smallStride, |small|) && OutputFits(f, bigStride, |big|)
    ensures var g := Cropped(f, c).value;
            && g.height == c.height && c.x + x < f.width && c.y + y < f.height && c.x >= 0 && c.y >= 0
            && RowStart(smallStride, y) + 3 * x + k < |small| && RowStart(bigStride, c.y + y) + 3 * (c.x + x) + k < |big|
            && Painted(small, m, g, smallStride, g.height)[RowStart(smallStride, y) + 3 * x + k]
               == Painted(big, m, f, bigStride, f.height)[RowStart(bigStride, c.y + y) + 3 * (c.x + x) + k]
  {
    hide Painted, Pixel, RowStart, OutputFits, Valid, CropFrame, Cropped, CropAllowed, Sample;
    var g := Cropped(f, c).value;
    CroppedShape(f, c);
    CropCommutes(m, f, c, x, y);
    PaintedPixel(small, m, g, smallStride, g.height, x, y, k);
    PaintedPixel(big, m, f, bigStride, f.height, c.x + x, c.y + y, k);
  }

  lemma CroppedShape(f: Frame, c: Rect)
    requires Cropped(f, c).Some?
    ensures var g := Cropped(f, c).value;
            g.width == c.width && g.height == c.height && c.x >= 0 && c.y >= 0 && c.x + c.width <= f.width && c.y + c.height <= f.height
  {
    hide Valid;
  }
}
