/** Which YUV frames, crops and output buffers are accepted, stated on bytes and addresses. */
module YuvExactly {
  import opened Prelude
  import opened Yuv
  import opened YuvCrop

  /** The rows of a plane: how many samples a row has, of how many bytes, and how many rows there are. */
  datatype Shape = Shape(samples: nat, bytes: nat, rows: nat)

  /** Half of a number, rounded up. */
  predicate Half(n: nat, h: nat)
  {
    2 * h - 1 <= n <= 2 * h
  }

  /** The planes of a format: full luma, and chroma halved as the format says, in planes of its own, in one plane
      together, or packed with luma. */
  function Shapes(f: Format, w: nat, h: nat, w2: nat, h2: nat): seq<Shape>
  {
    match f
    case I400 => [Shape(w, 1, h)]
    case I444 => [Shape(w, 1, h), Shape(w, 1, h), Shape(w, 1, h)]
    case I422 => [Shape(w, 1, h), Shape(w2, 1, h), Shape(w2, 1, h)]
    case I420 => [Shape(w, 1, h), Shape(w2, 1, h2), Shape(w2, 1, h2)]
    case Nv16 => [Shape(w, 1, h), Shape(w2, 2, h)]
    case Nv61 => [Shape(w, 1, h), Shape(w2, 2, h)]
    case Nv12 => [Shape(w, 1, h), Shape(w2, 2, h2)]
    case Nv21 => [Shape(w, 1, h), Shape(w2, 2, h2)]
    case OtherFormat => []
    case _ => [Shape(w2, 4, h)]
  }

  lemma PlanesAre(f: Format, w: nat, h: nat, w2: nat, h2: nat)
    requires f != OtherFormat && Half(w, w2) && Half(h, h2)
    ensures var s := Shapes(f, w, h, w2, h2);
            |s| == PlaneCount(f) && forall i :: 0 <= i < |s| ==> RowBytes(f, w, i) == s[i].samples * s[i].bytes && Rows(f, h, i) == s[i].rows
  {
    assert w2 == (w + 1) / 2 && h2 == (h + 1) / 2;
  }

  /** The rows of a plane lie one after the other, every byte of them within the capacity and the address space. */
  ghost predicate RowsLie(p: Plane, s: Shape)
  {
    && p.data != 0 && s.samples * s.bytes <= p.stride
    && (forall y: nat, i: nat :: y < s.rows && i < s.samples * s.bytes ==> Place(p, y, i) < p.capacity && p.data + Place(p, y, i) < U64_MAX)
  }

  function Place(p: Plane, y: nat, i: nat): nat
  {
    y * p.stride + i
  }

  lemma RowsExactly(p: Plane, s: Shape)
    requires s.rows > 0 && s.samples > 0 && s.bytes > 0
    ensures SpanValid(p.data, p.stride, s.samples * s.bytes, s.rows, p.capacity) <==> RowsLie(p, s)
  {
    var n := s.samples * s.bytes;
    MulMonotone(1, s.samples, s.bytes);
    if SpanValid(p.data, p.stride, n, s.rows, p.capacity) {
      forall y: nat, i: nat | y < s.rows && i < n ensures Place(p, y, i) < p.capacity && p.data + Place(p, y, i) < U64_MAX {
        InSpan(p.stride, n, s.rows, y, i);
      }
    }
    if RowsLie(p, s) {
      assert Place(p, s.rows - 1, n - 1) < p.capacity && p.data + Place(p, s.rows - 1, n - 1) < U64_MAX;
    }
  }

  /** A frame is valid exactly when its size is allowed and the rows of its planes lie within their capacities. */
  lemma ValidExactly(f: Frame, w2: nat, h2: nat)
    requires Half(f.width, w2) && Half(f.height, h2)
    ensures Valid(f) <==>
              && f.format != OtherFormat && 1 <= f.width <= 4096 && 1 <= f.height <= 4096 && f.width * f.height <= 0x80_0000
              && var s := Shapes(f.format, f.width, f.height, w2, h2);
                 |s| <= 3 && forall i :: 0 <= i < |s| ==> RowsLie(f.planes[i], s[i])
  {
    hide Shapes, RowsLie, SpanValid, RowBytes, Rows;
    if f.format != OtherFormat && f.width > 0 && f.height > 0 {
      PlanesAre(f.format, f.width, f.height, w2, h2);
      PlanesAtMostThree(f.format);
      ShapesPositive(f.format, f.width, f.height, w2, h2);
      var s := Shapes(f.format, f.width, f.height, w2, h2);
      forall i | 0 <= i < |s| ensures PlaneValid(f, i) <==> RowsLie(f.planes[i], s[i]) { RowsExactly(f.planes[i], s[i]); }
    }
  }

  lemma ShapesPositive(f: Format, w: nat, h: nat, w2: nat, h2: nat)
    requires w > 0 && h > 0 && Half(w, w2) && Half(h, h2)
    ensures forall s :: s in Shapes(f, w, h, w2, h2) ==> s.samples > 0 && s.bytes > 0 && s.rows > 0
  {
  }

  /** An address lies among so many from a first one. */
  predicate Among(a: int, first: int, n: int)
  {
    first <= a < first + n
  }

  /** A plane and the output overlap exactly when some address lies between the first and the last byte of both. */
  lemma OverlapsExactly(f: Frame, i: nat, at: nat, span: int)
    requires i < 3 && span > 0 && Span(f.planes[i].stride, RowBytes(f.format, f.width, i), Rows(f.format, f.height, i)) > 0
    ensures Overlaps(f, i, at, span) <==>
              exists a :: Among(a, at, span)
                          && Among(a, f.planes[i].data, Span(f.planes[i].stride, RowBytes(f.format, f.width, i), Rows(f.format, f.height, i)))
  {
    hide Span, RowBytes, Rows;
    if Overlaps(f, i, at, span) { assert Among(Max(at, f.planes[i].data), at, span); }
  }

  /** A crop of a valid frame is accepted exactly when it is not empty, lies in the frame, and starts on a whole
      chroma sample: an even column where chroma is halved in a row, and an even row where it is halved in both. */
  lemma CropExactly(f: Frame, c: Rect)
    requires Valid(f)
    ensures Cropped(f, c).Some? <==>
              && 0 <= c.x && 0 <= c.y && 0 < c.width && 0 < c.height && c.x + c.width <= f.width && c.y + c.height <= f.height
              && (f.format != I400 && f.format != I444 ==> c.x % 2 == 0)
              && (f.format == I420 || f.format == Nv12 || f.format == Nv21 ==> c.y % 2 == 0)
    ensures Cropped(f, c).Some? ==> Cropped(f, c).value.width == c.width && Cropped(f, c).value.height == c.height
  {
    hide Cropped, CropFrame, Valid;
    CropAcceptedExactly(f, c);
    if CropAllowed(f, c) { CropKeeps(f, c); }
  }

  /** A buffer is borrowed exactly when it is physical memory, every plane ends below 4 GiB, and the frame of its
      planes with these capacities is valid; the frame has the buffer's own format, size, addresses and strides. */
  lemma BorrowExactly(b: Buffer, capacities: seq<u64>, space: Space)
    requires Shaped(b, capacities) && !b.cropped
    ensures var n := PlaneCount(b.format);
            n <= 3
            && (FromMpp(b, capacities, space).Some? <==>
                  && b.physical && b.width > 0 && b.height > 0 && b.width <= U32_MAX && b.height <= U32_MAX
                  && Valid(FrameOf(b, capacities, space))
                  && forall i :: 0 <= i < n ==> b.addr[i] + Span(b.stride[i], RowBytes(b.format, b.width, i), Rows(b.format, b.height, i)) <= 0x1_0000_0000)
            && (FromMpp(b, capacities, space).Some? ==> FromMpp(b, capacities, space).value == FrameOf(b, capacities, space))
  {
    hide RowBytes, Rows, Span, PlaneValid, PlaneCount;
    PlanesAtMostThree(b.format);
    if 0 < b.width <= U32_MAX && 0 < b.height <= U32_MAX {
      assert FrameOf(b, capacities, space)
          == Frame(b.format, b.width, b.height, space, [PlaneOf(b, capacities, 0), PlaneOf(b, capacities, 1), PlaneOf(b, capacities, 2)]);
      assert forall i :: 0 <= i < PlaneCount(b.format) ==>
          (Addressable(b, i) <==> b.addr[i] + Span(b.stride[i], RowBytes(b.format, b.width, i), Rows(b.format, b.height, i)) <= 0x1_0000_0000);
    }
  }

  function FrameOf(b: Buffer, capacities: seq<u64>, space: Space): Frame
    requires Shaped(b, capacities) && 0 < b.width <= U32_MAX && 0 < b.height <= U32_MAX
  {
    var n := PlaneCount(b.format);
    Frame(b.format, b.width, b.height, space,
          [Plane(b.addr[0], b.stride[0], capacities[0]), if n > 1 then Plane(b.addr[1], b.stride[1], capacities[1]) else Plane(0, 0, 0),
           if n > 2 then Plane(b.addr[2], b.stride[2], capacities[2]) else Plane(0, 0, 0)])
  }
}
