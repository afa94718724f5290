/** What the frame allocator answers, exactly: which allocations and pins succeed, what they leave, and that
    the planes of an allocated frame hold every sample of it. */
module PlayerAllocated {
  import opened Prelude
  import opened PlayerAllocator
  import Y = Yuv
  import C = YuvCrop

  // ----- the planes hold the picture -----

  /** Bytes of a sample in the first plane. */
  function SampleBytes(f: Format): nat
  {
    match f
    case Rgb565 => 2
    case Bgr565 => 2
    case Rgb888 => 3
    case Bgr888 => 3
    case Argb8888 => 4
    case Abgr8888 => 4
    case Rgba8888 => 4
    case Bgra8888 => 4
    case _ => 1
  }

  /** Row, first and last byte of a pixel's sample in a plane end within the plane. */
  predicate Lies(strides: Planes, capacity: Planes, plane: nat, row: nat, first: nat, last: nat)
    requires plane < 3
  {
    first <= last < strides[plane] && row * strides[plane] + last < capacity[plane]
  }

  /** Every plane that a pixel needs holds its sample, and the other planes are empty. */
  predicate Holds(f: Format, strides: Planes, capacity: Planes, x: nat, y: nat)
  {
    var n := SampleBytes(f);
    && Lies(strides, capacity, 0, y, x * n, x * n + n - 1)
    && match f {
         case Yuv420P => Lies(strides, capacity, 1, y / 2, x / 2, x / 2) && Lies(strides, capacity, 2, y / 2, x / 2, x / 2)
         case Yuv422P => Lies(strides, capacity, 1, y, x / 2, x / 2) && Lies(strides, capacity, 2, y, x / 2, x / 2)
         case Yuv444P => Lies(strides, capacity, 1, y, x, x) && Lies(strides, capacity, 2, y, x, x)
         case Nv12 => Lies(strides, capacity, 1, y / 2, x / 2 * 2, x / 2 * 2 + 1) && capacity[2] == 0
         case Nv21 => Lies(strides, capacity, 1, y / 2, x / 2 * 2, x / 2 * 2 + 1) && capacity[2] == 0
         case _ => capacity[1] == capacity[2] == 0
       }
  }

  lemma LinesCover(size: nat)
    ensures size <= Lines(size) < size + LINE && Lines(size) % LINE == 0
  {
  }

  /** A byte of a row of a plane. */
  lemma RowFits(row: nat, rows: nat, pitch: nat, last: nat, capacity: nat)
    requires row < rows && last < pitch && pitch * rows <= capacity
    ensures row * pitch + last < capacity
  {
    MulMonotone(row + 1, rows, pitch);
  }

  lemma PlaneHolds(s: Shape, stride: nat, height: nat, i: nat, row: nat, last: nat, capacity: nat)
    requires i < s.planes && row < Rows(s, height, i) && last < Pitch(s, stride, i)
    requires capacity == Capacity(s, stride, height, i)
    ensures row * Pitch(s, stride, i) + last < capacity
  {
    hide Lines;
    var pitch, rows := Pitch(s, stride, i), Rows(s, height, i);
    MulMonotone(0, rows, pitch);
    LinesCover(PlaneSize(s, stride, height, i));
    RowFits(row, rows, pitch, last, capacity);
  }

  lemma {:induction false} PixelBytes(x: nat, width: nat, n: nat, stride: nat)
    requires x < width && 0 < n && stride >= width * n
    ensures x * n + n - 1 < stride
  {
    MulMonotone(x + 1, width, n);
  }

  /** A sample of a plane that the format has. */
  lemma SampleLies(width: int, stride: int, height: int, f: Format, i: nat, row: nat, first: nat, last: nat)
    requires LayoutAllowed(width, stride, height, f) && i < 3 && first <= last
    requires var s := ShapeOf(f).value; i < s.planes && row < Rows(s, height, i) && last < Pitch(s, stride, i)
    ensures var (strides, capacity) := Layout(width, stride, height, f).value; Lies(strides, capacity, i, row, first, last)
  {
    hide ShapeOf, Capacity, Pitch, Rows;
    PlaneHolds(ShapeOf(f).value, stride, height, i, row, last, Capacity(ShapeOf(f).value, stride, height, i));
  }

  /** Where the chroma of a pixel lies within rows and pitch. */
  lemma ChromaInside(width: int, stride: int, height: int, f: Format, x: nat, y: nat)
    requires LayoutAllowed(width, stride, height, f) && x < width && y < height
    ensures var s := ShapeOf(f).value;
            && 1 <= s.planes <= 3 && s.bytes == SampleBytes(f) && y < Rows(s, height, 0) && Pitch(s, stride, 0) == stride
            && forall i :: 0 < i < s.planes ==>
                 && (if s.halfY then y / 2 else y) < Rows(s, height, i)
                 && (if s.planes == 2 then x / 2 * 2 + 1 else if s.halfX then x / 2 else x) < Pitch(s, stride, i)
  {
    hide PlaneSize;
  }

  /** Every sample of every pixel of an accepted size lies in the memory that is taken for it, in every format. */
  lemma CapacityHolds(width: int, stride: int, height: int, f: Format, x: nat, y: nat)
    requires Layout(width, stride, height, f).Some? && x < width && y < height
    ensures var (strides, capacity) := Layout(width, stride, height, f).value; Holds(f, strides, capacity, x, y)
  {
    hide Capacity, PlaneSize, Lies, Pitch, Rows, SampleBytes;
    var s := ShapeOf(f).value;
    ChromaInside(width, stride, height, f, x, y);
    PixelBytes(x, width, s.bytes, stride);
    SampleLies(width, stride, height, f, 0, y, x * s.bytes, x * s.bytes + s.bytes - 1);
    if s.planes == 3 {
      var row, last := if s.halfY then y / 2 else y, if s.halfX then x / 2 else x;
      SampleLies(width, stride, height, f, 1, row, last, last);
      SampleLies(width, stride, height, f, 2, row, last, last);
    } else if s.planes == 2 {
      SampleLies(width, stride, height, f, 1, y / 2, x / 2 * 2, x / 2 * 2 + 1);
    }
    NoPlane(s, stride, height);
  }

  lemma NoPlane(s: Shape, stride: int, height: int)
    ensures forall i: nat :: i >= s.planes ==> Capacity(s, stride, height, i) == 0
  {
  }

  // ----- allocation -----

  /** A block that malloc may give and the allocator keeps: aligned, and below 4 GiB to its end. */
  predicate Fit(answer: Option<nat>, size: nat)
  {
    answer.Some? && answer.value % 32 == 0 && answer.value + size <= 0x1_0000_0000
  }

  /** The addresses of the planes, zero for the empty ones. */
  predicate AddressesOf(addr: Planes, capacity: Planes, answers: seq<Option<nat>>)
    requires |answers| == 3
  {
    forall j :: 0 <= j < 3 ==> if capacity[j] == 0 then addr[j] == 0 else answers[j] == Some(addr[j])
  }

  lemma {:induction false} ReserveExactly(heap: Heap, capacity: Planes, answers: seq<Option<nat>>, i: nat, addr: Planes)
    requires i <= 3 && |answers| == 3 && forall j :: i <= j < 3 ==> addr[j] == 0
    requires forall j :: 0 <= j < i ==> if capacity[j] == 0 then addr[j] == 0 else answers[j] == Some(addr[j])
    ensures Reserve(heap, capacity, answers, i, addr).Some? <==> forall j :: i <= j < 3 && capacity[j] > 0 ==> Fit(answers[j], capacity[j])
    ensures Reserve(heap, capacity, answers, i, addr).Some? ==>
              var (h, a) := Reserve(heap, capacity, answers, i, addr).value;
              && AddressesOf(a, capacity, answers)
              && forall x :: x in h <==> x in heap || exists j :: i <= j < 3 && capacity[j] > 0 && a[j] == x
    decreases 3 - i
  {
    if i < 3 {
      if capacity[i] == 0 {
        ReserveExactly(heap, capacity, answers, i + 1, addr);
      } else if Usable(answers[i], capacity[i]) {
        ReserveExactly(heap[answers[i].value := capacity[i]], capacity, answers, i + 1, addr[i := answers[i].value]);
      }
    }
  }

  /** The record of a new frame. */
  function NewRecord(frame: Frame, capacity: Planes): Record
  {
    Record(frame.addr, frame.stride, capacity, frame.width, frame.height, frame.format, 0, true, false)
  }

  /** An allocation succeeds exactly when the size and format are accepted, a record is free, the budget has room
      and malloc gives every plane a block that fits. The frame is then as asked, at the blocks given, in a
      record that was free; the account grows by its planes, and nothing else changes. */
  lemma AllocateExactly(a: Allocator, heap: Heap, width: int, stride: int, height: int, f: Format, answers: seq<Option<nat>>)
    requires |answers| == 3
    ensures var (b, h, frame) := Allocate(a, heap, width, stride, height, f, answers);
            match Layout(width, stride, height, f) {
              case None => frame.None? && b == a && h == heap
              case Some((strides, capacity)) =>
                && (frame.Some? <==>
                      && (exists i :: 0 <= i < |a.frames| && !a.frames[i].live)
                      && a.used + capacity[0] + capacity[1] + capacity[2] <= a.budget
                      && forall j :: 0 <= j < 3 && capacity[j] > 0 ==> Fit(answers[j], capacity[j]))
                && (frame.None? ==> b == a && h == heap)
                && (frame.Some? ==>
                      && frame.value == Frame(true, frame.value.addr, strides, width, height, f)
                      && AddressesOf(frame.value.addr, capacity, answers)
                      && b == a.(frames := b.frames, used := a.used + capacity[0] + capacity[1] + capacity[2])
                      && (exists i: nat :: i < |a.frames| && !a.frames[i].live && b.frames == a.frames[i := NewRecord(frame.value, capacity)])
                      && forall x :: x in h <==> x in heap || exists j :: 0 <= j < 3 && capacity[j] > 0 && frame.value.addr[j] == x)
            }
  {
    hide Layout, Reserve;
    match Layout(width, stride, height, f)
    case None =>
    case Some((strides, capacity)) =>
      ReserveExactly(heap, capacity, answers, 0, [0, 0, 0]);
  }

  // ----- pins -----

  /** A pin of a frame may be taken under record i. */
  predicate MayPin(r: Record, f: Frame)
  {
    && r.live && !r.retired && r.ticket == 0
    && f.physical && r.addr == f.addr && r.format == f.format && f.width <= r.width && f.height <= r.height && f.stride[0] <= 0x7fff_ffff
    && Layout(f.width, f.stride[0], f.height, f.format).Some?
    && var (strides, capacity) := Layout(f.width, f.stride[0], f.height, f.format).value;
       strides == f.stride && forall j :: 0 <= j < 3 ==> capacity[j] <= r.capacity[j]
  }

  /** A frame is pinned exactly when a live record that is neither retired nor pinned stands for it with memory
      enough for its size; the ticket is new, and only that record changes. */
  lemma AcquireExactly(a: Allocator, f: Frame)
    ensures var (b, pin) := Acquire(a, f);
            && (pin.Some? <==> a.nextTicket < U64_MAX && exists i :: 0 <= i < |a.frames| && MayPin(a.frames[i], f))
            && (pin.None? ==> b == a)
            && (pin.Some? ==>
                  exists i: nat :: i < |a.frames| && MayPin(a.frames[i], f) && pin.value == (a.nextTicket as nat + 1, a.frames[i].capacity)
                                   && b == a.(frames := a.frames[i := a.frames[i].(ticket := a.nextTicket + 1)], nextTicket := a.nextTicket + 1))
  {
    hide Layout;
    forall r: Record ensures Pinnable(r, f) <==> MayPin(r, f) { PinnableIs(r, f); }
    hide Pinnable, MayPin;
  }

  lemma PinnableIs(r: Record, f: Frame)
    ensures Pinnable(r, f) <==> MayPin(r, f)
  {
    hide Layout;
  }

  /** A frame just allocated can be pinned, with all of its planes. */
  lemma AllocatedPins(a: Allocator, heap: Heap, width: int, stride: int, height: int, f: Format, answers: seq<Option<nat>>)
    requires |answers| == 3 && a.nextTicket < U64_MAX && stride <= 0x7fff_ffff
    ensures var (b, h, frame) := Allocate(a, heap, width, stride, height, f, answers);
            frame.Some? ==> Acquire(b, frame.value).1.Some?
  {
    hide Layout, Acquire, MayPin;
    var (b, h, frame) := Allocate(a, heap, width, stride, height, f, answers);
    AllocateExactly(a, heap, width, stride, height, f, answers);
    if frame.Some? {
      var (strides, capacity) := Layout(width, stride, height, f).value;
      var i: nat :| i < |a.frames| && !a.frames[i].live && b.frames == a.frames[i := NewRecord(frame.value, capacity)];
      LayoutFits(width, stride, height, f);
      NewMayPin(frame.value, strides, capacity);
      assert MayPin(b.frames[i], frame.value);
      AcquireExactly(b, frame.value);
    }
  }

  lemma NewMayPin(f: Frame, strides: Planes, capacity: Planes)
    requires f.physical && f.stride == strides && strides[0] <= 0x7fff_ffff && Layout(f.width, strides[0], f.height, f.format) == Some((strides, capacity))
    ensures MayPin(NewRecord(f, capacity), f)
  {
    hide Layout;
  }

  // ----- freeing -----

  /** A record stands for a frame that the SDK names by its planes and format. */
  predicate StandsFor(r: Record, f: Frame)
  {
    r.live && f.physical && r.addr == f.addr && r.format == f.format
  }

  /** What freeing the frame of record i does. */
  predicate FreedAt(a: Allocator, heap: Heap, b: Allocator, h: Heap, ok: bool, i: nat)
    requires i < |a.frames|
  {
    && ok == !a.frames[i].retired
    && if a.frames[i].ticket != 0 then h == heap && b == a.(frames := a.frames[i := a.frames[i].(retired := true)])
       else b == a.(frames := a.frames[i := BLANK], used := b.used) && b.used + Total(a.frames[i].capacity) == a.used
  }

  /** A free succeeds exactly for a frame that a record stands for and that was not freed before, or for a frame
      without memory; a pinned one keeps its memory and is only marked, any other leaves its record blank. */
  lemma FreesExactly(a: Allocator, heap: Heap, f: Frame)
    requires Inv(a, heap)
    ensures var (b, h, ok) := FreeFrame(a, heap, f);
            if exists i :: 0 <= i < |a.frames| && StandsFor(a.frames[i], f)
            then exists i: nat :: i < |a.frames| && StandsFor(a.frames[i], f) && FreedAt(a, heap, b, h, ok, i)
            else b == a && h == heap && ok == (f.addr == [0, 0, 0])
  {
    hide Layout, Inv, Sum, Freed, Total;
    var i := Find(a.frames, (r: Record) => Matches(r, f), 0);
    if i < |a.frames| {
      var (b, h, ok) := FreeFrame(a, heap, f);
      UsedCovers(a, heap, i);
      RetiredIsPinned(a, heap, i);
      if a.frames[i].retired { assert a.frames[i := a.frames[i].(retired := true)] == a.frames; }
      assert StandsFor(a.frames[i], f) && FreedAt(a, heap, b, h, ok, i);
    }
  }

  lemma RetiredIsPinned(a: Allocator, heap: Heap, i: nat)
    requires Inv(a, heap) && i < |a.frames|
    ensures a.frames[i].retired ==> a.frames[i].ticket != 0
  {
    hide HeapFits, Disjoint, Layout, Sum;
  }

  // ----- an allocated YUV frame can be shown -----

  function YuvFormat(f: Format): Y.Format
  {
    match f
    case Yuv420P => Y.I420
    case Yuv422P => Y.I422
    case Yuv444P => Y.I444
    case Nv12 => Y.Nv12
    case Nv21 => Y.Nv21
    case Yuv400 => Y.I400
    case _ => Y.OtherFormat
  }

  /** The frame as the SDK's buffer shows it, without a crop. */
  function BufferOf(f: Frame): C.Buffer
    requires (forall j :: 0 <= j < 3 ==> f.addr[j] <= U32_MAX && f.stride[j] <= U32_MAX)
  {
    C.Buffer(f.physical, YuvFormat(f.format), f.width, f.height, [f.addr[0], f.addr[1], f.addr[2]], [f.stride[0], f.stride[1], f.stride[2]],
             false, C.Rect(0, 0, 0, 0))
  }

  /** The plane of an allocated frame has the rows that a YUV frame of that format needs. */
  lemma YuvPlane(width: int, stride: int, height: int, f: Format, i: nat)
    requires Layout(width, stride, height, f).Some? && i < Y.PlaneCount(YuvFormat(f)) && YuvFormat(f) != Y.OtherFormat
    ensures i < 3
    ensures var (strides, capacity) := Layout(width, stride, height, f).value; var y := YuvFormat(f);
            && strides[i] >= Y.RowBytes(y, width, i) > 0 && Y.Rows(y, height, i) > 0
            && Y.Span(strides[i], Y.RowBytes(y, width, i), Y.Rows(y, height, i)) <= capacity[i]
  {
    hide Lines, Y.RowBytes, Y.Rows, Y.Span, ShapeOf, YuvFormat, Pitch, Rows;
    var s, y := ShapeOf(f).value, YuvFormat(f);
    var (strides, capacity) := Layout(width, stride, height, f).value;
    YuvShape(width, stride, height, f, i);
    MulMonotone(0, Rows(s, height, i), Pitch(s, stride, i));
    LinesCover(Pitch(s, stride, i) * Rows(s, height, i));
    SpanWithin(strides[i], Y.RowBytes(y, width, i), Rows(s, height, i), capacity[i]);
  }

  /** Pitch and rows of a plane, against what the format needs. */
  lemma YuvShape(width: int, stride: int, height: int, f: Format, i: nat)
    requires LayoutAllowed(width, stride, height, f) && i < Y.PlaneCount(YuvFormat(f)) && YuvFormat(f) != Y.OtherFormat
    ensures var s, y := ShapeOf(f).value, YuvFormat(f);
            && i < s.planes <= 3 && Pitch(s, stride, i) >= Y.RowBytes(y, width, i) > 0 && Y.Rows(y, height, i) == Rows(s, height, i) > 0
  {
    hide PlaneSize;
  }

  lemma SpanWithin(stride: nat, rowBytes: nat, rows: nat, capacity: nat)
    requires rows > 0 && rowBytes <= stride && stride * rows <= capacity
    ensures Y.Span(stride, rowBytes, rows) <= capacity
  {
    assert (rows - 1) * stride + stride == stride * rows;
  }

  /** A frame of planar or semiplanar YUV that was just allocated can be shown: borrowed as a YUV frame with the
      capacities of its pin it is accepted, whatever the colour space, and its planes are its blocks. */
  lemma AllocatedIsShown(a: Allocator, heap: Heap, width: int, stride: int, height: int, f: Format, answers: seq<Option<nat>>, space: Y.Space)
    requires |answers| == 3 && YuvFormat(f) != Y.OtherFormat && stride <= 0x7fff_ffff
    requires forall j :: 0 <= j < 3 && answers[j].Some? ==> answers[j].value > 0
    ensures var frame := Allocate(a, heap, width, stride, height, f, answers).2;
            frame.Some? ==>
              && (forall j :: 0 <= j < 3 ==> frame.value.addr[j] <= U32_MAX && frame.value.stride[j] <= U32_MAX)
              && Layout(width, stride, height, f).Some?
              && var capacity := Layout(width, stride, height, f).value.1;
                 C.FromMpp(BufferOf(frame.value), [capacity[0], capacity[1], capacity[2]], space).Some?
  {
    hide Layout, C.FromMpp, Y.PlaneCount;
    var frame := Allocate(a, heap, width, stride, height, f, answers).2;
    AllocateExactly(a, heap, width, stride, height, f, answers);
    if frame.Some? {
      var (strides, capacity) := Layout(width, stride, height, f).value;
      NumbersFit(width, stride, height, f, frame.value.addr, answers);
      Shown(frame.value, width, stride, height, f, capacity, space);
    }
  }

  lemma NumbersFit(width: int, stride: int, height: int, f: Format, addr: Planes, answers: seq<Option<nat>>)
    requires |answers| == 3 && Layout(width, stride, height, f).Some? && stride <= 0x7fff_ffff
    requires forall j :: 0 <= j < 3 && answers[j].Some? ==> answers[j].value > 0
    requires var capacity := Layout(width, stride, height, f).value.1;
             AddressesOf(addr, capacity, answers) && forall j :: 0 <= j < 3 && capacity[j] > 0 ==> Fit(answers[j], capacity[j])
    ensures var (strides, capacity) := Layout(width, stride, height, f).value;
            forall j :: 0 <= j < 3 ==>
              && addr[j] <= U32_MAX && strides[j] <= U32_MAX && capacity[j] <= U32_MAX
              && (capacity[j] > 0 ==> addr[j] > 0 && addr[j] + capacity[j] <= 0x1_0000_0000)
  {
    hide Lines, PlaneSize;
    var s := ShapeOf(f).value;
    forall j: nat | j < 3 ensures Capacity(s, stride, height, j) <= U32_MAX { LinesCover(Max(PlaneSize(s, stride, height, j), 0)); }
  }

  /** Such a frame passes every check of borrowing. */
  lemma Shown(frame: Frame, width: int, stride: int, height: int, f: Format, capacity: Planes, space: Y.Space)
    requires Layout(width, stride, height, f) == Some((frame.stride, capacity)) && YuvFormat(f) != Y.OtherFormat
    requires frame == Frame(true, frame.addr, frame.stride, width, height, f)
    requires forall j :: 0 <= j < 3 ==>
               && frame.addr[j] <= U32_MAX && frame.stride[j] <= U32_MAX && capacity[j] <= U32_MAX
               && (capacity[j] > 0 ==> frame.addr[j] > 0 && frame.addr[j] + capacity[j] <= 0x1_0000_0000)
    ensures C.FromMpp(BufferOf(frame), [capacity[0], capacity[1], capacity[2]], space).Some?
  {
    hide Layout, Y.RowBytes, Y.Rows, Y.Span, YuvFormat;
    var b, caps := BufferOf(frame), [capacity[0], capacity[1], capacity[2]];
    SizeAllowed(width, stride, height, f);
    C.PlanesAtMostThree(b.format);
    forall i: nat | i < Y.PlaneCount(b.format)
      ensures C.Addressable(b, i)
      ensures var p := C.PlaneOf(b, caps, i); Y.SpanValid(p.data, p.stride, Y.RowBytes(b.format, width, i), Y.Rows(b.format, height, i), p.capacity)
    {
      YuvPlane(width, stride, height, f, i);
      SpanPositive(frame.stride[i], Y.RowBytes(b.format, width, i), Y.Rows(b.format, height, i));
    }
  }

  lemma SpanPositive(stride: nat, rowBytes: nat, rows: nat)
    requires rowBytes > 0 && rows > 0
    ensures Y.Span(stride, rowBytes, rows) > 0
  {
    MulMonotone(0, rows - 1, stride);
  }

  lemma SizeAllowed(width: int, stride: int, height: int, f: Format)
    requires Layout(width, stride, height, f).Some? && YuvFormat(f) != Y.OtherFormat
    ensures width > 0 && height > 0 && Y.LayoutAllowed(YuvFormat(f), width, height)
  {
  }
}
