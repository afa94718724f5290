/** Splitting a scaled GE2D blit into strips that keep every sampling coordinate. */
module Ge2dStripes {
  import opened Prelude

  datatype Format =
    | Rgb565 | Rgb888 | Xrgb8888 | Argb8888 | Yuv400 | Yuv444P | Yuv420P | Nv12 | Nv21
    | Yuv422P | Nv16 | Nv61 | Yuyv | Yvyu | Uyvy | Vyuy | OtherFormat

  datatype Rect = Rect(x: int, y: int, width: int, height: int)
  datatype Buffer = Buffer(cropped: bool, crop: Rect, width: int, height: int, format: Format)

  /** Steps and phases in 16.16 fixed point, luma then chroma. */
  datatype Scale = Scale(phased: bool, scaled: bool, channels: int, dx0: int, dx1: int, dy0: int, dy1: int,
                         h0: int, h1: int, v0: int, v1: int, inW1: int, inH1: int)

  /** A blit command; `plain` says that no flag beyond the rotation is set. */
  datatype Command = Command(src: Buffer, dst: Buffer, rotation: nat, plain: bool, scale: Scale)

  /** Channels, subsampling shifts and smallest dimension of a format. */
  datatype Layout = Layout(channels: int, subX: nat, subY: nat, minimum: int)

  const ONE: int := 65536

  // ----- one axis -----

  datatype Axis = Axis(crop: int, extent: int, step: int, phase: int)

  function AxisStep(scale: int): int
    requires scale > 0
  {
    65536 * 256 / scale
  }

  function AxisFirst(destStart: int, pivot: int, scale: int): int
    requires scale > 0
  {
    (destStart - pivot) * AxisStep(scale) + pivot * 65536
  }

  /** Crop, extent, step and phase of a scaled axis, or nothing when it cannot be served whole. */
  function ScaleAxis(sourceSize: int, destStart: int, destSize: int, pivot: int, scale: int): Option<Axis>
  {
    if sourceSize < 4 || destSize < 4 || scale < 16 || scale > 4096 then None
    else
      var step, first := AxisStep(scale), AxisFirst(destStart, pivot, scale);
      var last := first + (destSize - 1) * step;
      if first < 0 || last > (sourceSize - 1) * 65536 then None
      else
        var crop, end := first / 65536, Min((last + 65535) / 65536 + 2, sourceSize);
        if end - crop < 4 then None else Some(Axis(crop, end - crop, step, first % 65536))
  }

  predicate SplitRisk(step: int, destWidth: int)
  {
    step < 65536 && step > 65536 / 32 * 29 && destWidth >= 32
  }

  // ----- planning -----

  function Crop(b: Buffer): Rect
  {
    if b.cropped then b.crop else Rect(0, 0, b.width, b.height)
  }

  predicate Bounded(r: Rect, b: Buffer)
  {
    r.x >= 0 && r.y >= 0 && r.width >= 4 && r.height >= 4 && r.x + r.width <= b.width && r.y + r.height <= b.height
  }

  function LayoutOf(f: Format): Option<Layout>
  {
    match f
    case OtherFormat => None
    case Rgb565 => Some(Layout(1, 0, 0, 4))
    case Rgb888 => Some(Layout(1, 0, 0, 4))
    case Xrgb8888 => Some(Layout(1, 0, 0, 4))
    case Argb8888 => Some(Layout(1, 0, 0, 4))
    case Yuv400 => Some(Layout(1, 0, 0, 8))
    case Yuv444P => Some(Layout(2, 0, 0, 8))
    case Yuv420P => Some(Layout(2, 1, 1, 8))
    case Nv12 => Some(Layout(2, 1, 1, 8))
    case Nv21 => Some(Layout(2, 1, 1, 8))
    case _ => Some(Layout(2, 1, 0, 8))
  }

  /** A value shifted right by zero or one. */
  function Shifted(v: int, shift: nat): int
  {
    if shift == 0 then v else v / 2
  }

  /** The output width along the scaler's X axis. */
  function OutWidth(b: Command): int
  {
    var d := Crop(b.dst);
    if b.rotation % 2 == 1 then d.height else d.width
  }

  predicate AnyOdd(a: int, b: int, c: int, d: int)
  {
    a % 2 != 0 || b % 2 != 0 || c % 2 != 0 || d % 2 != 0
  }

  predicate NeedsSplit(b: Command)
  {
    b.scale.phased && b.scale.scaled && SplitRisk(b.scale.dx0, OutWidth(b))
  }

  /** What a command that needs splitting must satisfy for the planner to count its strips. */
  predicate Splittable(b: Command)
  {
    var s, src := b.scale, Crop(b.src);
    && OutWidth(b) <= 4096 && b.plain && LayoutOf(b.src.format).Some?
    && var l := LayoutOf(b.src.format).value;
       && s.channels == l.channels && 0 <= s.h0 < (if l.subX == 0 then 65536 else 131072)
       && (l.subX == 1 ==> !AnyOdd(src.x, src.width, s.dx0, s.h0))
       && (l.subY == 1 ==> !AnyOdd(src.y, src.height, s.dy0, s.v0))
       && (l.channels == 2 ==>
             && s.inW1 == Shifted(src.width, l.subX) && s.inH1 == Shifted(src.height, l.subY)
             && s.dx1 == Shifted(s.dx0, l.subX) && s.dy1 == Shifted(s.dy0, l.subY)
             && s.h1 == Shifted(s.h0, l.subX) && s.v1 == Shifted(s.v0, l.subY))
  }

  /** Strips of at most 31 outputs. */
  function Strips(width: int): nat
    requires width >= 0
  {
    (width + 30) / 31
  }

  /** Strips a command takes; zero when it cannot be split. */
  function CountFor(b: Command): nat
  {
    if !NeedsSplit(b) then 1 else if !Splittable(b) then 0 else Strips(OutWidth(b))
  }

  /** Where strip i begins and how wide it is, the remainder spread over the first strips. */
  function OffsetOf(width: int, count: nat, i: nat): int
    requires count > 0
  {
    i * (width / count) + Min(i, width % count)
  }

  function WidthOf(width: int, count: nat, i: nat): int
    requires count > 0
  {
    width / count + if i < width % count then 1 else 0
  }

  /** The largest multiple of the chroma block at or below a value. */
  function Aligned(v: int, subX: nat): int
  {
    if subX == 0 then v else v / 2 * 2
  }

  function AlignedUp(v: int, subX: nat): int
  {
    if subX == 0 then v else (v + 1) / 2 * 2
  }

  function Ceil(v: int): int
  {
    (v + 65535) / 65536
  }

  /** The strip's destination: along the rotated scaler axis, from the far end for half and three-quarter turns. */
  function StripDst(b: Command, offset: int, n: int): Rect
  {
    var d, width := Crop(b.dst), OutWidth(b);
    var at := if b.rotation <= 1 then offset else width - offset - n;
    if b.rotation % 2 == 1 then Rect(d.x, d.y + at, d.width, n) else Rect(d.x + at, d.y, n, d.height)
  }

  /** What strip (offset, n) reads: crop advance, luma phase, and the two widths. */
  datatype Reading = Reading(advance: int, phase: int, chromaPhase: int, needed: int, fits: bool)

  function ReadingOf(b: Command, l: Layout, offset: int, n: int): Reading
  {
    var s, width := b.scale, Crop(b.src).width;
    var first := s.h0 + offset * s.dx0;
    var advance := Aligned(first / 65536, l.subX);
    var phase := first - advance * 65536;
    var last := phase + (n - 1) * s.dx0;
    var remaining := width - advance;
    var chromaFirst := s.h1 + offset * s.dx1 - Shifted(advance, l.subX) * 65536;
    var chromaLast := chromaFirst + (n - 1) * s.dx1;
    var luma := Ceil(last) + 2;
    var chroma := (Ceil(chromaLast) + 2) * (if l.subX == 0 then 1 else 2);
    var needed := AlignedUp(if l.channels == 2 then Max(luma, chroma) else luma, l.subX);
    Reading(advance, phase, chromaFirst, Min(needed, remaining), remaining >= l.minimum && last <= (remaining - 1) * 65536)
  }

  /** Strip i of a command, the command itself if it needs no split, nothing if it is refused. */
  function Stripe(b: Command, i: nat): Option<Command>
  {
    var count := CountFor(b);
    if count == 0 || i >= count then None
    else if count == 1 then Some(b)
    else
      var src, dst := Crop(b.src), Crop(b.dst);
      if !Bounded(src, b.src) || !Bounded(dst, b.dst) then None
      else
        var l := LayoutOf(b.src.format);
        if l.None? || src.width < l.value.minimum || src.height < l.value.minimum || dst.width < l.value.minimum || dst.height < l.value.minimum
        then None
        else
          var offset, n := OffsetOf(OutWidth(b), count, i), WidthOf(OutWidth(b), count, i);
          var r := ReadingOf(b, l.value, offset, n);
          if !r.fits then None
          else
            var two := l.value.channels == 2;
            Some(b.(src := b.src.(cropped := true, crop := Rect(src.x + r.advance, src.y, r.needed, src.height)),
                    dst := b.dst.(cropped := true, crop := StripDst(b, offset, n)),
                    scale := b.scale.(h0 := r.phase, h1 := if two then r.chromaPhase else b.scale.h1,
                                      inW1 := if two then Shifted(r.needed, l.value.subX) else b.scale.inW1)))
  }

  /** All strips, or nothing when one of them is refused. */
  predicate Accepted(b: Command)
  {
    CountFor(b) > 0 && forall i :: 0 <= i < CountFor(b) ==> Stripe(b, i).Some?
  }

  method StripeCount(b: Command) returns (count: Option<nat>)
    ensures count == if Accepted(b) then Some(CountFor(b)) else None
  {
    var n := CountFor(b);
    if n == 0 { return None; }
    var i := 0;
    while i < n
      invariant i <= n && forall k :: 0 <= k < i ==> Stripe(b, k).Some?
    {
      if Stripe(b, i).None? { return None; }
      i := i + 1;
    }
    count := Some(n);
  }

  datatype Outcome = Unsupported | Complete | Uncertain

  /** Run every strip in order; `answers` says of each submission whether it succeeded. Nothing is
      submitted unless every strip was accepted first, and a failed one ends the run. */
  method StripeRun(b: Command, answers: seq<bool>) returns (r: Outcome, submitted: seq<Command>)
    requires |answers| >= CountFor(b)
    ensures r == Unsupported <==> !Accepted(b)
    ensures r == Unsupported ==> submitted == []
    ensures r == Complete ==> |submitted| == CountFor(b)
    ensures r == Uncertain ==> 0 < |submitted| <= CountFor(b) && !answers[|submitted| - 1]
    ensures forall i :: 0 <= i < |submitted| ==> Stripe(b, i) == Some(submitted[i])
    ensures forall i :: 0 <= i < |submitted| - (if r == Uncertain then 1 else 0) ==> answers[i]
  {
    submitted := [];
    var count := StripeCount(b);
    if count.None? { return Unsupported, []; }
    var i := 0;
    while i < count.value
      invariant i <= count.value && |submitted| == i
      invariant forall k :: 0 <= k < i ==> Stripe(b, k) == Some(submitted[k]) && answers[k]
    {
      submitted := submitted + [Stripe(b, i).value];
      if !answers[i] { return Uncertain, submitted; }
      i := i + 1;
    }
    r := Complete;
  }

  // ----- widths and offsets -----

  lemma CountBounds(width: int)
    requires 32 <= width <= 4096
    ensures Strips(width) >= 2 && 16 * Strips(width) <= width <= 31 * Strips(width)
  {
  }

  lemma BaseBounds(width: int, count: int)
    requires count >= 2 && 16 * count <= width <= 31 * count
    ensures 16 <= width / count <= 31 && (width % count > 0 ==> width / count <= 30)
  {
    DivExceeds(width, count, 16);
    DivExceeds(width, count, 32);
    if width % count > 0 { DivExceeds(width, count, 31); DivBounds(width, count); }
  }

  /** Every strip is 16 to 31 wide. */
  lemma StripWidths(width: int, i: nat)
    requires 32 <= width <= 4096
    ensures Strips(width) >= 2 && 16 <= WidthOf(width, Strips(width), i) <= 31
  {
    CountBounds(width);
    BaseBounds(width, Strips(width));
  }

  /** The strips follow each other from the first output to the last. */
  lemma StripsFollow(width: int, i: nat)
    requires 32 <= width <= 4096 && i < Strips(width)
    ensures OffsetOf(width, Strips(width), i) + WidthOf(width, Strips(width), i) == OffsetOf(width, Strips(width), i + 1)
    ensures OffsetOf(width, Strips(width), 0) == 0 && OffsetOf(width, Strips(width), Strips(width)) == width
  {
    var base := width / Strips(width);
    assert (i + 1) * base == i * base + base;
  }

  /** Offsets grow with the strip. */
  lemma OffsetsGrow(width: int, count: nat, i: nat, k: nat)
    requires count > 0 && width >= 0 && i <= k
    ensures OffsetOf(width, count, i) <= OffsetOf(width, count, k)
  {
    MulMonotone(i, k, width / count);
  }

  predicate Holds(width: int, i: nat, u: int)
    requires width >= 32
  {
    && i < Strips(width)
    && OffsetOf(width, Strips(width), i) <= u < OffsetOf(width, Strips(width), i) + WidthOf(width, Strips(width), i)
  }

  /** Every output lies in exactly one strip. */
  lemma EveryOutputOnce(width: int, u: int)
    requires 32 <= width <= 4096 && 0 <= u < width
    ensures exists i: nat :: Holds(width, i, u)
    ensures forall i: nat, k: nat :: Holds(width, i, u) && Holds(width, k, u) ==> i == k
  {
    hide OffsetOf, WidthOf;
    StripWidths(width, 0);
    StripsFollow(width, 0);
    var i := FindStrip(width, u, Strips(width));
    assert Holds(width, i, u);
    forall a: nat, b: nat | Holds(width, a, u) && Holds(width, b, u) ensures a == b {
      StripsFollow(width, a);
      StripsFollow(width, b);
      if a < b { OffsetsGrow(width, Strips(width), a + 1, b); }
      if b < a { OffsetsGrow(width, Strips(width), b + 1, a); }
    }
  }

  /** Search backwards from strip n. */
  lemma FindStrip(width: int, u: int, n: nat) returns (i: nat)
    requires 32 <= width <= 4096 && 0 <= u && 0 < n <= Strips(width) && u < OffsetOf(width, Strips(width), n)
    ensures i < n && Holds(width, i, u)
    decreases n
  {
    hide OffsetOf, WidthOf;
    StripsFollow(width, n - 1);
    if OffsetOf(width, Strips(width), n - 1) <= u || n == 1 { i := n - 1; } else { i := FindStrip(width, u, n - 1); }
  }

  // ----- what a strip reads and writes -----

  /** The luma coordinate, in the source buffer, of output u of a command. */
  function LumaAt(b: Command, u: int): int
  {
    Crop(b.src).x * ONE + b.scale.h0 + u * b.scale.dx0
  }

  /** The chroma coordinate of output u. */
  function ChromaAt(b: Command, subX: nat, u: int): int
  {
    Shifted(Crop(b.src).x, subX) * ONE + b.scale.h1 + u * b.scale.dx1
  }

  /** Where output (u, v) of the scaler lands: scaled first, then turned. */
  function Lands(b: Command, u: int, v: int): (int, int)
  {
    var d := Crop(b.dst);
    match b.rotation
    case 0 => (d.x + u, d.y + v)
    case 1 => (d.x + d.width - 1 - v, d.y + u)
    case 2 => (d.x + d.width - 1 - u, d.y + d.height - 1 - v)
    case _ => (d.x + v, d.y + d.height - 1 - u)
  }

  /** A command the planner really splits. */
  predicate Split(b: Command)
  {
    b.rotation < 4 && NeedsSplit(b) && Splittable(b)
  }

  function OffsetIn(b: Command, i: nat): int
    requires Split(b)
  {
    OffsetOf(OutWidth(b), Strips(OutWidth(b)), i)
  }

  function WidthIn(b: Command, i: nat): int
    requires Split(b)
  {
    WidthOf(OutWidth(b), Strips(OutWidth(b)), i)
  }

  lemma SplitFacts(b: Command)
    requires Split(b)
    ensures 32 <= OutWidth(b) <= 4096 && CountFor(b) == Strips(OutWidth(b)) >= 2
    ensures 59392 < b.scale.dx0 < 65536 && b.scale.h0 >= 0
    ensures LayoutOf(b.src.format).Some? && LayoutOf(b.src.format).value.subX <= 1 && 1 <= LayoutOf(b.src.format).value.channels <= 2
  {
    CountBounds(OutWidth(b));
  }

  /** The parts of an accepted strip. */
  lemma StripeIs(b: Command, i: nat)
    requires Split(b) && Stripe(b, i).Some?
    ensures var c, l := Stripe(b, i).value, LayoutOf(b.src.format).value;
            var r := ReadingOf(b, l, OffsetIn(b, i), WidthIn(b, i));
            && i < CountFor(b) && r.fits && Bounded(Crop(b.src), b.src) && Bounded(Crop(b.dst), b.dst)
            && Crop(b.src).width >= l.minimum
            && Crop(c.src) == Rect(Crop(b.src).x + r.advance, Crop(b.src).y, r.needed, Crop(b.src).height)
            && Crop(c.dst) == StripDst(b, OffsetIn(b, i), WidthIn(b, i))
            && c.rotation == b.rotation && c.src.format == b.src.format && c.src.width == b.src.width && c.src.height == b.src.height
            && c.dst.width == b.dst.width && c.dst.height == b.dst.height && c.plain == b.plain
            && c.scale.h0 == r.phase && c.scale.dx0 == b.scale.dx0 && c.scale.dx1 == b.scale.dx1
            && c.scale.dy0 == b.scale.dy0 && c.scale.dy1 == b.scale.dy1 && c.scale.v0 == b.scale.v0 && c.scale.v1 == b.scale.v1
            && c.scale.inH1 == b.scale.inH1 && c.scale.phased && c.scale.scaled && c.scale.channels == b.scale.channels
            && (l.channels == 2 ==> c.scale.h1 == r.chromaPhase && c.scale.inW1 == Shifted(r.needed, l.subX))
  {
    hide ReadingOf, StripDst, OffsetOf, WidthOf, Splittable;
    SplitFacts(b);
  }

  lemma LumaKept(b: Command, i: nat, k: int)
    requires Split(b) && Stripe(b, i).Some?
    ensures LumaAt(Stripe(b, i).value, k) == LumaAt(b, OffsetIn(b, i) + k)
  {
    hide Stripe, OffsetOf, WidthOf, CountFor, Splittable, NeedsSplit, StripDst;
    StripeIs(b, i);
    var o := OffsetIn(b, i);
    assert (o + k) * b.scale.dx0 == o * b.scale.dx0 + k * b.scale.dx0;
  }

  lemma ChromaKept(b: Command, i: nat, k: int)
    requires Split(b) && Stripe(b, i).Some? && LayoutOf(b.src.format).value.channels == 2
    ensures var subX := LayoutOf(b.src.format).value.subX;
            ChromaAt(Stripe(b, i).value, subX, k) == ChromaAt(b, subX, OffsetIn(b, i) + k)
  {
    hide Stripe, OffsetOf, WidthOf, CountFor, Splittable, NeedsSplit, StripDst, Shifted, OffsetIn, WidthIn, Aligned;
    SplitFacts(b);
    SourceEven(b);
    StripeIs(b, i);
    var l, o := LayoutOf(b.src.format).value, OffsetIn(b, i);
    var advance := Aligned((b.scale.h0 + o * b.scale.dx0) / 65536, l.subX);
    Distributed(o, k, b.scale.dx1);
    ShiftSum(Crop(b.src).x, advance, l.subX);
  }

  lemma Distributed(o: int, k: int, d: int)
    ensures (o + k) * d == o * d + k * d
  {
  }

  lemma SourceEven(b: Command)
    requires Split(b)
    ensures LayoutOf(b.src.format).value.subX == 0 || Crop(b.src).x % 2 == 0
  {
  }

  /** Where chroma is halved the planner demands even source columns, steps and phases. */
  lemma EvenSource(b: Command)
    requires Split(b) && LayoutOf(b.src.format).value.subX == 1
    ensures Crop(b.src).x % 2 == 0 && Crop(b.src).width % 2 == 0 && b.scale.dx0 % 2 == 0 && b.scale.h0 % 2 == 0
    ensures LayoutOf(b.src.format).value.channels == 2 && b.scale.dx1 * 2 == b.scale.dx0 && b.scale.h1 * 2 == b.scale.h0
  {
  }

  lemma LandsKept(b: Command, i: nat, k: int, v: int)
    requires Split(b) && Stripe(b, i).Some?
    ensures Lands(Stripe(b, i).value, k, v) == Lands(b, OffsetIn(b, i) + k, v)
  {
    hide Stripe, OffsetOf, WidthOf, CountFor, Splittable, NeedsSplit, ReadingOf;
    StripeIs(b, i);
  }

  /** Output k of strip i reads the very luma and chroma coordinates of output offset + k of the whole
      command, on the same rows, and lands on the same destination pixel. */
  lemma SamplesKept(b: Command, i: nat, k: int, v: int)
    requires Split(b) && Stripe(b, i).Some? && 0 <= k < WidthIn(b, i)
    ensures var c, l, u := Stripe(b, i).value, LayoutOf(b.src.format).value, OffsetIn(b, i) + k;
            && LumaAt(c, k) == LumaAt(b, u)
            && (l.channels == 2 ==> ChromaAt(c, l.subX, k) == ChromaAt(b, l.subX, u))
            && Lands(c, k, v) == Lands(b, u, v)
            && Crop(c.src).y == Crop(b.src).y && Crop(c.src).height == Crop(b.src).height
            && c.scale.dy0 == b.scale.dy0 && c.scale.dy1 == b.scale.dy1 && c.scale.v0 == b.scale.v0 && c.scale.v1 == b.scale.v1
            && c.scale.inH1 == b.scale.inH1
  {
    hide Stripe, OffsetOf, WidthOf, CountFor, Splittable, NeedsSplit, ReadingOf, LumaAt, ChromaAt, Lands;
    SplitFacts(b);
    StripeIs(b, i);
    LumaKept(b, i, k);
    if LayoutOf(b.src.format).value.channels == 2 { ChromaKept(b, i, k); }
    LandsKept(b, i, k, v);
  }

  lemma ShiftSum(x: int, advance: int, subX: nat)
    ensures subX == 0 || x % 2 == 0 ==> Shifted(x + advance, subX) == Shifted(x, subX) + Shifted(advance, subX)
  {
  }

  /** No strip needs splitting again. */
  lemma NoFurtherSplit(b: Command, i: nat)
    requires Split(b) && Stripe(b, i).Some?
    ensures CountFor(Stripe(b, i).value) == 1 && Stripe(Stripe(b, i).value, 0) == Some(Stripe(b, i).value)
    ensures 16 <= WidthIn(b, i) <= 31 && OutWidth(Stripe(b, i).value) == WidthIn(b, i)
  {
    hide ReadingOf, OffsetOf, WidthOf;
    SplitFacts(b);
    StripWidths(OutWidth(b), i);
    StripeIs(b, i);
  }

  // ----- staying inside the source -----

  /** Alignment moves a value down by less than one block. */
  lemma AlignedBounds(v: int, subX: nat)
    requires subX <= 1 && v >= 0
    ensures 0 <= Aligned(v, subX) <= v && v <= Aligned(v, subX) + subX && AlignedUp(v, subX) >= v
    ensures subX == 1 ==> Aligned(v, subX) % 2 == 0 && AlignedUp(v, subX) % 2 == 0
  {
  }

  /** The luma part of a reading, in plain numbers. */
  lemma ReadingBounds(b: Command, i: nat)
    requires Split(b) && i < Strips(OutWidth(b))
    ensures var l := LayoutOf(b.src.format).value;
            var o, n := OffsetIn(b, i), WidthIn(b, i);
            var r := ReadingOf(b, l, o, n);
            var first := b.scale.h0 + o * b.scale.dx0;
            && first >= 0 && 0 <= r.advance && 0 <= r.phase < 65536 * (1 + l.subX)
            && r.advance * 65536 + r.phase == first
            && (l.subX == 1 ==> r.advance % 2 == 0)
            && r.fits == (Crop(b.src).width - r.advance >= l.minimum
                          && b.scale.h0 + (o + n - 1) * b.scale.dx0 <= (Crop(b.src).width - 1) * 65536)
  {
    hide Splittable, NeedsSplit, StripDst, CountFor, OffsetOf, WidthOf, AlignedUp, Aligned, Shifted;
    SplitFacts(b);
    StripWidths(OutWidth(b), i);
    OffsetPositive(b, i);
    var l, o, n := LayoutOf(b.src.format).value, OffsetIn(b, i), WidthIn(b, i);
    MulMonotone(0, o, b.scale.dx0);
    AlignedBounds((b.scale.h0 + o * b.scale.dx0) / 65536, l.subX);
    assert (o + n - 1) * b.scale.dx0 == o * b.scale.dx0 + (n - 1) * b.scale.dx0;
  }

  lemma OffsetPositive(b: Command, i: nat)
    requires Split(b) && i < Strips(OutWidth(b))
    ensures 0 <= OffsetIn(b, i) && OffsetIn(b, i) + WidthIn(b, i) <= OutWidth(b)
  {
    hide OffsetOf, WidthOf;
    StripsFollow(OutWidth(b), i);
    OffsetsGrow(OutWidth(b), Strips(OutWidth(b)), 0, i);
    OffsetsGrow(OutWidth(b), Strips(OutWidth(b)), i + 1, Strips(OutWidth(b)));
  }

  /** A command that needs splitting is accepted exactly when both crops lie in their buffers, nothing
      is smaller than the format allows, and the last output's sample lies in the source crop. */
  lemma AcceptedExactly(b: Command)
    requires b.rotation < 4 && NeedsSplit(b)
    ensures Accepted(b) <==>
              && Splittable(b) && Bounded(Crop(b.src), b.src) && Bounded(Crop(b.dst), b.dst)
              && var m := LayoutOf(b.src.format).value.minimum;
                 && Crop(b.src).width >= m && Crop(b.src).height >= m && Crop(b.dst).width >= m && Crop(b.dst).height >= m
                 && b.scale.h0 + (OutWidth(b) - 1) * b.scale.dx0 <= (Crop(b.src).width - 1) * 65536
  {
    hide Stripe, LastInside, OutWidth;
    if Splittable(b) {
      SplitFacts(b);
      forall i: nat | i < Strips(OutWidth(b))
        ensures Stripe(b, i).Some? <==> Measures(b) && LastInside(b, i)
      {
        StripeExactly(b, i);
      }
      LastOfAll(b);
      AllStripes(b);
    }
  }

  lemma AllStripes(b: Command)
    requires Split(b) && forall i: nat :: i < Strips(OutWidth(b)) ==> (Stripe(b, i).Some? <==> Measures(b) && LastInside(b, i))
    ensures Accepted(b) <==> Measures(b) && forall i: nat :: i < Strips(OutWidth(b)) ==> LastInside(b, i)
  {
    hide Stripe, Measures, LastInside, Splittable, NeedsSplit;
    SplitFacts(b);
    assert Stripe(b, 0).Some? <==> Measures(b) && LastInside(b, 0);
  }

  predicate Measures(b: Command)
    requires Split(b)
  {
    var m := LayoutOf(b.src.format).value.minimum;
    && Bounded(Crop(b.src), b.src) && Bounded(Crop(b.dst), b.dst)
    && Crop(b.src).width >= m && Crop(b.src).height >= m && Crop(b.dst).width >= m && Crop(b.dst).height >= m
  }

  /** The last sample of strip i lies in the source crop. */
  predicate LastInside(b: Command, i: nat)
    requires Split(b)
  {
    b.scale.h0 + (OffsetIn(b, i) + WidthIn(b, i) - 1) * b.scale.dx0 <= (Crop(b.src).width - 1) * 65536
  }

  lemma StripeExactly(b: Command, i: nat)
    requires Split(b) && i < Strips(OutWidth(b))
    ensures Stripe(b, i).Some? <==> Measures(b) && LastInside(b, i)
  {
    hide ReadingOf, OffsetOf, WidthOf, StripDst, NeedsSplit, Splittable;
    SplitFacts(b);
    ReadingBounds(b, i);
    if LastInside(b, i) { RoomLeft(b, i); }
  }

  /** Sixteen outputs at this step span more than the smallest crop, so a crop that holds the last
      sample holds the smallest width. */
  lemma RoomLeft(b: Command, i: nat)
    requires Split(b) && i < Strips(OutWidth(b)) && LastInside(b, i)
    ensures Crop(b.src).width - ReadingOf(b, LayoutOf(b.src.format).value, OffsetIn(b, i), WidthIn(b, i)).advance
            >= LayoutOf(b.src.format).value.minimum
  {
    hide ReadingOf, OffsetOf, WidthOf, StripDst, NeedsSplit, Splittable, CountFor;
    SplitFacts(b);
    ReadingBounds(b, i);
    StripWidths(OutWidth(b), i);
    var o, n := OffsetIn(b, i), WidthIn(b, i);
    assert (o + n - 1) * b.scale.dx0 == o * b.scale.dx0 + (n - 1) * b.scale.dx0;
    MulMonotone(15, n - 1, b.scale.dx0);
  }

  /** The last strip's last sample is the last of all. */
  lemma LastOfAll(b: Command)
    requires Split(b)
    ensures (forall i: nat :: i < Strips(OutWidth(b)) ==> LastInside(b, i))
            <==> b.scale.h0 + (OutWidth(b) - 1) * b.scale.dx0 <= (Crop(b.src).width - 1) * 65536
  {
    hide OffsetOf, WidthOf, NeedsSplit, Splittable, CountFor;
    SplitFacts(b);
    var count := Strips(OutWidth(b));
    StripsFollow(OutWidth(b), count - 1);
    assert LastInside(b, count - 1) <==> b.scale.h0 + (OutWidth(b) - 1) * b.scale.dx0 <= (Crop(b.src).width - 1) * 65536;
    if LastInside(b, count - 1) {
      forall i: nat | i < count ensures LastInside(b, i) {
        OffsetPositive(b, i);
        MulMonotone(OffsetIn(b, i) + WidthIn(b, i) - 1, OutWidth(b) - 1, b.scale.dx0);
      }
    }
  }

  /** Inside a width: the sample's pixel exists, and so does its neighbour unless the width ends at the edge. */
  predicate Taps(last: int, width: int, atEdge: bool)
  {
    0 <= last && last / 65536 < width && (!atEdge ==> Ceil(last) + 2 <= width)
  }

  /** One channel: what is needed for the taps of the last sample, cut at the edge. */
  lemma LumaTaps(last: int, needed: int, remaining: int)
    requires 0 <= last <= (remaining - 1) * 65536 && (Ceil(last) + 2 <= needed || needed == remaining)
    ensures Taps(last, needed, needed == remaining)
  {
  }

  /** Halved chroma: the taps of half the coordinate lie in half the width. */
  lemma HalfTaps(last: int, needed: int, remaining: int)
    requires 0 <= last <= (remaining - 1) * 65536 && last % 2 == 0 && remaining % 2 == 0 && needed % 2 == 0
    requires (Ceil(last / 2) + 2) * 2 <= needed || needed == remaining
    ensures Taps(last / 2, needed / 2, needed == remaining)
  {
  }

  /** Every sample of a strip lies in its own crop, that crop in the command's, and both crops in their
      buffers; each channel has both taps of its last sample unless the crop ends at the original edge. */
  lemma StripInside(b: Command, i: nat)
    requires Split(b) && Stripe(b, i).Some?
    ensures var c, l, n := Stripe(b, i).value, LayoutOf(b.src.format).value, WidthIn(b, i);
            var edge := Crop(c.src).x + Crop(c.src).width == Crop(b.src).x + Crop(b.src).width;
            && Crop(b.src).x <= Crop(c.src).x && Crop(c.src).x + Crop(c.src).width <= Crop(b.src).x + Crop(b.src).width
            && Bounded(Crop(c.src), c.src) && Bounded(Crop(c.dst), c.dst)
            && c.scale.h0 >= 0 && Taps(c.scale.h0 + (n - 1) * c.scale.dx0, Crop(c.src).width, edge)
            && (l.channels == 2 ==>
                  && c.scale.inW1 == Shifted(Crop(c.src).width, l.subX) && c.scale.inH1 == Shifted(Crop(c.src).height, l.subY)
                  && c.scale.h1 >= 0 && Taps(c.scale.h1 + (n - 1) * c.scale.dx1, c.scale.inW1, edge))
  {
    hide Stripe, OffsetOf, WidthOf, CountFor, Splittable, NeedsSplit, Taps, ReadingOf, StripDst;
    SplitFacts(b);
    StripeIs(b, i);
    ReadingBounds(b, i);
    StripWidths(OutWidth(b), i);
    SourceInside(b, i);
    DstInside(b, i);
    ChromaHeights(b);
  }

  lemma ChromaHeights(b: Command)
    requires Split(b)
    ensures LayoutOf(b.src.format).value.channels == 2 ==> b.scale.inH1 == Shifted(Crop(b.src).height, LayoutOf(b.src.format).value.subY)
  {
  }

  lemma DstInside(b: Command, i: nat)
    requires Split(b) && i < Strips(OutWidth(b)) && Bounded(Crop(b.dst), b.dst)
    ensures Bounded(StripDst(b, OffsetIn(b, i), WidthIn(b, i)), b.dst)
  {
    hide OffsetOf, WidthOf, CountFor, Splittable, NeedsSplit;
    SplitFacts(b);
    OffsetPositive(b, i);
    StripWidths(OutWidth(b), i);
  }

  /** The width a strip needs, from its last luma and chroma samples. */
  function Needed(last: int, chromaLast: int, two: bool, subX: nat): int
  {
    var chroma := (Ceil(chromaLast) + 2) * (if subX == 0 then 1 else 2);
    AlignedUp(if two then Max(Ceil(last) + 2, chroma) else Ceil(last) + 2, subX)
  }

  lemma NeededTaps(last: int, chromaLast: int, two: bool, subX: nat, remaining: int)
    requires subX <= 1 && 131072 <= last <= (remaining - 1) * 65536
    requires two ==> chromaLast == Shifted(last, subX)
    requires subX == 1 ==> two && last % 2 == 0 && remaining % 2 == 0
    ensures var needed := Min(Needed(last, chromaLast, two, subX), remaining);
            && (remaining >= 4 ==> needed >= 4) && Taps(last, needed, needed == remaining)
            && (two ==> Taps(chromaLast, Shifted(needed, subX), needed == remaining))
  {
    hide Taps;
    var needed := Min(Needed(last, chromaLast, two, subX), remaining);
    LumaTaps(last, needed, remaining);
    if subX == 1 { HalfTaps(last, needed, remaining); }
  }

  /** Chroma follows luma, at half the coordinate where it is halved. */
  lemma ChromaRegistered(b: Command, i: nat)
    requires Split(b) && i < Strips(OutWidth(b)) && LayoutOf(b.src.format).value.channels == 2
    ensures var l, n := LayoutOf(b.src.format).value, WidthIn(b, i);
            var r := ReadingOf(b, l, OffsetIn(b, i), n);
            && (l.subX == 1 ==> (r.phase + (n - 1) * b.scale.dx0) % 2 == 0 && (Crop(b.src).width - r.advance) % 2 == 0)
            && r.chromaPhase == Shifted(r.phase, l.subX)
            && r.chromaPhase + (n - 1) * b.scale.dx1 == Shifted(r.phase + (n - 1) * b.scale.dx0, l.subX)
  {
    hide LayoutOf, Crop, NeedsSplit, Splittable, CountFor, OffsetOf, WidthOf, OffsetIn, WidthIn, ReadingOf, OutWidth, Strips;
    SplitFacts(b);
    var l, o, n := LayoutOf(b.src.format).value, OffsetIn(b, i), WidthIn(b, i);
    ReadingBounds(b, i);
    ReadingPhases(b, l, o, n);
    if l.subX == 0 {
      SameScale(b);
    } else {
      EvenSource(b);
      Doubled(o, b.scale.dx1, b.scale.dx0);
      Doubled(n - 1, b.scale.dx1, b.scale.dx0);
      Halves(b.scale.h1, o * b.scale.dx1, ReadingOf(b, l, o, n).advance, (n - 1) * b.scale.dx1);
    }
  }

  lemma ReadingPhases(b: Command, l: Layout, o: int, n: int)
    ensures var r := ReadingOf(b, l, o, n);
            && r.phase == b.scale.h0 + o * b.scale.dx0 - r.advance * 65536
            && r.chromaPhase == b.scale.h1 + o * b.scale.dx1 - Shifted(r.advance, l.subX) * 65536
  {
  }

  lemma Halves(h: int, a: int, advance: int, run: int)
    requires advance % 2 == 0
    ensures var phase := 2 * h + 2 * a - advance * 65536;
            && (phase + 2 * run) % 2 == 0
            && h + a - advance / 2 * 65536 == phase / 2
            && h + a - advance / 2 * 65536 + run == (phase + 2 * run) / 2
  {
  }

  lemma SameScale(b: Command)
    requires Split(b) && LayoutOf(b.src.format).value.channels == 2
    ensures LayoutOf(b.src.format).value.subX == 0 ==> b.scale.dx1 == b.scale.dx0 && b.scale.h1 == b.scale.h0
  {
  }

  lemma Doubled(k: int, half: int, whole: int)
    requires half * 2 == whole
    ensures k * half * 2 == k * whole
  {
  }

  /** What a reading covers. */
  lemma SourceInside(b: Command, i: nat)
    requires Split(b) && i < Strips(OutWidth(b))
    requires ReadingOf(b, LayoutOf(b.src.format).value, OffsetIn(b, i), WidthIn(b, i)).fits
    ensures var l, n := LayoutOf(b.src.format).value, WidthIn(b, i);
            var r := ReadingOf(b, l, OffsetIn(b, i), n);
            var remaining := Crop(b.src).width - r.advance;
            && 4 <= r.needed <= remaining
            && Taps(r.phase + (n - 1) * b.scale.dx0, r.needed, r.needed == remaining)
            && (l.channels == 2 ==>
                  && r.chromaPhase >= 0
                  && Taps(r.chromaPhase + (n - 1) * b.scale.dx1, Shifted(r.needed, l.subX), r.needed == remaining))
  {
    hide LayoutOf, Crop, ReadingOf, NeedsSplit, Splittable, CountFor, OffsetOf, WidthOf, OffsetIn, WidthIn, Needed, Taps, OutWidth, Strips;
    SplitFacts(b);
    var l, o, n := LayoutOf(b.src.format).value, OffsetIn(b, i), WidthIn(b, i);
    var r := ReadingOf(b, l, o, n);
    var last, chromaLast := r.phase + (n - 1) * b.scale.dx0, r.chromaPhase + (n - 1) * b.scale.dx1;
    PhasePositive(b, i);
    ReadingNeeds(b, l, o, n);
    LongEnough(b, i);
    if l.channels == 2 { ChromaRegistered(b, i); }
    MinimumIsFour(b);
    NeededTaps(last, chromaLast, l.channels == 2, l.subX, Crop(b.src).width - r.advance);
  }

  lemma PhasePositive(b: Command, i: nat)
    requires Split(b) && i < Strips(OutWidth(b))
    ensures ReadingOf(b, LayoutOf(b.src.format).value, OffsetIn(b, i), WidthIn(b, i)).phase >= 0
  {
    hide LayoutOf, Crop, ReadingOf, NeedsSplit, Splittable, CountFor, OffsetOf, WidthOf, OffsetIn, WidthIn;
    ReadingBounds(b, i);
  }

  lemma MinimumIsFour(b: Command)
    requires LayoutOf(b.src.format).Some?
    ensures LayoutOf(b.src.format).value.minimum >= 4 && (LayoutOf(b.src.format).value.subX == 1 ==> LayoutOf(b.src.format).value.channels == 2)
  {
  }

  lemma ReadingNeeds(b: Command, l: Layout, o: int, n: int)
    ensures var r := ReadingOf(b, l, o, n);
            && r.needed == Min(Needed(r.phase + (n - 1) * b.scale.dx0, r.chromaPhase + (n - 1) * b.scale.dx1, l.channels == 2, l.subX),
                               Crop(b.src).width - r.advance)
            && (r.fits ==> r.phase + (n - 1) * b.scale.dx0 <= (Crop(b.src).width - r.advance - 1) * 65536
                           && Crop(b.src).width - r.advance >= l.minimum)
  {
  }

  lemma LongEnough(b: Command, i: nat)
    requires Split(b) && i < Strips(OutWidth(b))
    ensures (WidthIn(b, i) - 1) * b.scale.dx0 >= 131072
  {
    SplitFacts(b);
    StripWidths(OutWidth(b), i);
    hide OffsetOf, WidthOf, NeedsSplit, Splittable;
    MulMonotone(15, WidthIn(b, i) - 1, b.scale.dx0);
  }

  // ----- tiling the destination -----

  predicate Within(r: Rect, x: int, y: int)
  {
    r.x <= x < r.x + r.width && r.y <= y < r.y + r.height
  }

  /** The scaler output that lands on a destination pixel. */
  function OutputAt(b: Command, x: int, y: int): int
  {
    var d := Crop(b.dst);
    match b.rotation
    case 0 => x - d.x
    case 1 => y - d.y
    case 2 => d.width - 1 - (x - d.x)
    case _ => d.height - 1 - (y - d.y)
  }

  /** A pixel lies in a strip's destination exactly when the strip holds the output that lands on it. */
  lemma StripPixels(b: Command, i: nat, x: int, y: int)
    requires Split(b) && i < Strips(OutWidth(b)) && Within(Crop(b.dst), x, y)
    ensures Within(StripDst(b, OffsetIn(b, i), WidthIn(b, i)), x, y) <==> Holds(OutWidth(b), i, OutputAt(b, x, y))
    ensures 0 <= OutputAt(b, x, y) < OutWidth(b)
  {
    hide OffsetOf, WidthOf, Splittable, NeedsSplit, Crop;
    SplitFacts(b);
  }

  /** The strips of an accepted command tile its destination crop: a pixel lies in a strip exactly when it
      lies in the crop, and then in only one. */
  lemma TilesOnce(b: Command, x: int, y: int)
    requires Split(b) && Accepted(b)
    ensures (exists i: nat :: InStrip(b, i, x, y)) <==> Within(Crop(b.dst), x, y)
    ensures forall i: nat, k: nat :: InStrip(b, i, x, y) && InStrip(b, k, x, y) ==> i == k
  {
    hide Stripe, Splittable, NeedsSplit, Holds, Within, InStrip;
    SplitFacts(b);
    forall i: nat | InStrip(b, i, x, y) ensures Within(Crop(b.dst), x, y) { StripStaysInside(b, i, x, y); }
    if Within(Crop(b.dst), x, y) {
      StripPixels(b, 0, x, y);
      EveryOutputOnce(OutWidth(b), OutputAt(b, x, y));
      forall i: nat ensures InStrip(b, i, x, y) <==> Holds(OutWidth(b), i, OutputAt(b, x, y)) { InStripIs(b, i, x, y); }
    }
  }

  /** A strip writes nothing outside the destination crop. */
  lemma StripStaysInside(b: Command, i: nat, x: int, y: int)
    requires Split(b) && InStrip(b, i, x, y)
    ensures Within(Crop(b.dst), x, y)
  {
    hide Stripe, Splittable, NeedsSplit, OffsetOf, WidthOf, ReadingOf, LayoutOf;
    SplitFacts(b);
    StripeIs(b, i);
    OffsetPositive(b, i);
  }

  predicate InStrip(b: Command, i: nat, x: int, y: int)
  {
    Stripe(b, i).Some? && Within(Crop(Stripe(b, i).value.dst), x, y)
  }

  lemma InStripIs(b: Command, i: nat, x: int, y: int)
    requires Split(b) && Accepted(b) && Within(Crop(b.dst), x, y)
    ensures InStrip(b, i, x, y) <==> Holds(OutWidth(b), i, OutputAt(b, x, y))
  {
    hide Splittable, NeedsSplit, OffsetOf, WidthOf, ReadingOf, StripDst, Within;
    SplitFacts(b);
    if i < Strips(OutWidth(b)) {
      StripPixels(b, i, x, y);
      StripeIs(b, i);
    }
  }

  // ----- one axis -----

  /** A served axis starts at the exact first coordinate, stays in the image, and holds every sample
      with both taps unless it ends at the image's edge; and it is refused only when a sample would lie
      outside the image or too little of the image is covered. */
  lemma AxisCovers(sourceSize: int, destStart: int, destSize: int, pivot: int, scale: int, k: int)
    requires sourceSize >= 4 && destSize >= 4 && 16 <= scale <= 4096 && 0 <= k < destSize
    ensures var first := AxisFirst(destStart, pivot, scale);
            match ScaleAxis(sourceSize, destStart, destSize, pivot, scale)
            case Some(axis) =>
              && 0 <= axis.crop && axis.crop + axis.extent <= sourceSize && axis.extent >= 4
              && axis.crop * 65536 + axis.phase == first && 0 <= axis.phase < 65536 && axis.step == AxisStep(scale)
              && Taps(axis.phase + k * axis.step, axis.extent, axis.crop + axis.extent == sourceSize)
            case None =>
              || first < 0 || first + (destSize - 1) * AxisStep(scale) > (sourceSize - 1) * 65536
              || Min(Ceil(first + (destSize - 1) * AxisStep(scale)) + 2, sourceSize) - first / 65536 < 4
  {
    hide AxisFirst, AxisStep;
    var step, first := AxisStep(scale), AxisFirst(destStart, pivot, scale);
    StepPositive(scale);
    MulMonotone(k, destSize - 1, step);
    MulMonotone(0, k, step);
  }

  lemma StepPositive(scale: int)
    requires 16 <= scale <= 4096
    ensures 4096 <= AxisStep(scale) <= 1048576
  {
    DivExceeds(65536 * 256, scale, 4096);
    DivExceeds(65536 * 256, scale, 1048577);
  }
}
