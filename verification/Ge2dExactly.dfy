/** Where a scaled axis samples, which blits the strip planner touches, and what it asks of them. */
module Ge2dExactly {
  import opened Prelude
  import opened Ge2dStripes
  import Y = Yuv

  // ----- a scaled axis -----

  /** A scaled axis samples output k where the image would be magnified about the pivot: at distance (d - pivot)
      from it the sample's distance times scale / 256 is d - pivot, short of it by less than one 1/65536 for
      each pixel of distance, and exactly at scale 256. */
  lemma AxisSamples(sourceSize: int, destStart: int, destSize: int, pivot: int, scale: int, k: int)
    requires ScaleAxis(sourceSize, destStart, destSize, pivot, scale).Some? && 0 <= k < destSize
    ensures var axis := ScaleAxis(sourceSize, destStart, destSize, pivot, scale).value;
            var away := destStart + k - pivot;
            var sampled := axis.crop * 65536 + axis.phase + k * axis.step - pivot * 65536;
            && (away >= 0 ==> 16777216 * away - scale * away <= scale * sampled <= 16777216 * away)
            && (away <= 0 ==> 16777216 * away <= scale * sampled <= 16777216 * away - scale * away)
            && (away > 0 ==> 16777216 * away - scale * away < scale * sampled)
            && (away < 0 ==> scale * sampled < 16777216 * away - scale * away)
            && (scale == 256 ==> sampled == away * 65536)
  {
    hide ScaleAxis;
    var away := destStart + k - pivot;
    var axis := ScaleAxis(sourceSize, destStart, destSize, pivot, scale).value;
    AxisPlace(sourceSize, destStart, destSize, pivot, scale, k);
    DivBounds(16777216, scale);
    StepTimes(scale, axis.step, away, axis.crop * 65536 + axis.phase + k * axis.step - pivot * 65536);
  }

  lemma AxisPlace(sourceSize: int, destStart: int, destSize: int, pivot: int, scale: int, k: int)
    requires ScaleAxis(sourceSize, destStart, destSize, pivot, scale).Some?
    ensures 16 <= scale <= 4096
    ensures var axis := ScaleAxis(sourceSize, destStart, destSize, pivot, scale).value;
            && axis.step == 16777216 / scale
            && axis.crop * 65536 + axis.phase + k * axis.step - pivot * 65536 == (destStart + k - pivot) * axis.step
  {
    var step := 16777216 / scale;
    assert (destStart + k - pivot) * step == (destStart - pivot) * step + k * step;
  }

  lemma StepTimes(scale: int, step: int, away: int, sampled: int)
    requires 0 < scale && step * scale <= 16777216 < (step + 1) * scale && sampled == away * step
    ensures away >= 0 ==> 16777216 * away - scale * away <= scale * sampled <= 16777216 * away
    ensures away <= 0 ==> 16777216 * away <= scale * sampled <= 16777216 * away - scale * away
    ensures away > 0 ==> 16777216 * away - scale * away < scale * sampled
    ensures away < 0 ==> scale * sampled < 16777216 * away - scale * away
    ensures scale == 256 ==> sampled == away * 65536
  {
    var short := 16777216 - step * scale;
    assert scale * sampled == away * (step * scale) == 16777216 * away - short * away;
    if away >= 0 { Between(away, short, scale); } else { Between(-away, short, scale); }
  }

  lemma Between(n: int, a: int, b: int)
    requires 0 <= n && 0 <= a < b
    ensures 0 <= a * n <= b * n && (n > 0 ==> a * n < b * n)
  {
    MulMonotone(0, a, n);
    MulMonotone(a + 1, b, n);
  }

  /** An axis is served exactly for sizes of at least four and scales from 1/16 to 16 whose first and last sample
      lie in the image, when the crop that holds them with their taps is four pixels or more. */
  lemma AxisServedExactly(sourceSize: int, destStart: int, destSize: int, pivot: int, scale: int)
    ensures ScaleAxis(sourceSize, destStart, destSize, pivot, scale).Some? <==>
              && sourceSize >= 4 && destSize >= 4 && 16 <= scale <= 4096
              && var first := (destStart - pivot) * (16777216 / scale) + pivot * 65536;
                 var last := first + (destSize - 1) * (16777216 / scale);
                 && 0 <= first && last <= (sourceSize - 1) * 65536
                 && Min((last + 65535) / 65536 + 2, sourceSize) - first / 65536 >= 4
  {
  }

  // ----- which commands are split -----

  /** A command is split exactly when it is phased, scaled by a little more than one to one along X, and 32 outputs
      wide or more; any other command is its own only strip, untouched. */
  lemma OtherwiseWhole(b: Command)
    ensures NeedsSplit(b) <==>
              && b.scale.phased && b.scale.scaled && 29 * 65536 < 32 * b.scale.dx0 < 32 * 65536
              && (if b.rotation % 2 == 1 then Crop(b.dst).height else Crop(b.dst).width) >= 32
    ensures !NeedsSplit(b) ==> CountFor(b) == 1 && Accepted(b) && Stripe(b, 0) == Some(b) && forall i: nat :: i > 0 ==> Stripe(b, i).None?
  {
  }

  /** The YUV format that a format is, if it is one. */
  function AsYuv(f: Format): Y.Format
  {
    match f
    case Yuv400 => Y.I400
    case Yuv444P => Y.I444
    case Yuv420P => Y.I420
    case Nv12 => Y.Nv12
    case Nv21 => Y.Nv21
    case Yuv422P => Y.I422
    case Nv16 => Y.Nv16
    case Nv61 => Y.Nv61
    case Yuyv => Y.Yuy2
    case Yvyu => Y.Yvyu
    case Uyvy => Y.Uyvy
    case Vyuy => Y.Vyuy
    case _ => Y.OtherFormat
  }

  /** The planner's layout of a YUV format halves chroma where the sampler does, and gives chroma a channel of its
      own exactly when there is chroma. */
  lemma LayoutIsSampled(f: Format)
    ensures AsYuv(f) != Y.OtherFormat ==>
              && LayoutOf(f).Some?
              && var l := LayoutOf(f).value;
                 && (l.subX == 1 <==> Y.SubX(AsYuv(f))) && (l.subY == 1 <==> Y.SubY(AsYuv(f))) && l.subX <= 1 && l.subY <= 1
                 && l.channels == (if f == Yuv400 then 1 else 2) && l.minimum == 8
    ensures AsYuv(f) == Y.OtherFormat ==> LayoutOf(f) == if f == OtherFormat then None else Some(Layout(1, 0, 0, 4))
  {
  }

  /** Chroma of one axis follows luma: the same, or half of it from an even start. */
  predicate Follows(halved: bool, start: int, size: int, step: int, phase: int, size1: int, step1: int, phase1: int)
  {
    if halved then start % 2 == 0 && size1 * 2 == size && step1 * 2 == step && phase1 * 2 == phase
    else size1 == size && step1 == step && phase1 == phase
  }

  /** What a split asks of a command: a plain one no wider than 4096, of a known format, whose first sample lies in
      the first chroma block, and whose chroma, if it has any, follows luma on both axes. */
  lemma SplittableExactly(b: Command)
    ensures Splittable(b) <==>
              && (if b.rotation % 2 == 1 then Crop(b.dst).height else Crop(b.dst).width) <= 4096 && b.plain
              && LayoutOf(b.src.format).Some?
              && var l, s, src := LayoutOf(b.src.format).value, b.scale, Crop(b.src);
                 && s.channels == l.channels && 0 <= s.h0 < (1 + l.subX) * 65536
                 && (l.channels == 2 ==>
                       && Follows(l.subX == 1, src.x, src.width, s.dx0, s.h0, s.inW1, s.dx1, s.h1)
                       && Follows(l.subY == 1, src.y, src.height, s.dy0, s.v0, s.inH1, s.dy1, s.v1))
  {
  }

  /** In every strip chroma stays on luma: twice a halved chroma coordinate is the luma coordinate, on both axes. */
  lemma ChromaFollows(b: Command, i: nat, k: int, v: int)
    requires Split(b) && Stripe(b, i).Some? && LayoutOf(b.src.format).value.channels == 2
    ensures var c, l := Stripe(b, i).value, LayoutOf(b.src.format).value;
            && ChromaAt(c, l.subX, k) * (1 + l.subX) == LumaAt(c, k)
            && var y := Crop(c.src).y * ONE + c.scale.v0 + v * c.scale.dy0;
               (Shifted(Crop(c.src).y, l.subY) * ONE + c.scale.v1 + v * c.scale.dy1) * (1 + l.subY) == y
  {
    hide Stripe, OffsetOf, WidthOf, CountFor, Splittable, NeedsSplit, StripDst, ReadingOf, OffsetIn, WidthIn, ChromaAt, LumaAt;
    LumaKept(b, i, k);
    ChromaKept(b, i, k);
    StripeIs(b, i);
    CommandFollows(b, OffsetIn(b, i) + k, v);
  }

  lemma CommandFollows(b: Command, u: int, v: int)
    requires Split(b) && LayoutOf(b.src.format).value.channels == 2
    ensures var l := LayoutOf(b.src.format).value;
            && ChromaAt(b, l.subX, u) * (1 + l.subX) == LumaAt(b, u)
            && (Shifted(Crop(b.src).y, l.subY) * ONE + b.scale.v1 + v * b.scale.dy1) * (1 + l.subY)
               == Crop(b.src).y * ONE + b.scale.v0 + v * b.scale.dy0
  {
    hide Splittable, NeedsSplit;
    SplittableExactly(b);
    var l := LayoutOf(b.src.format).value;
    if l.subX == 1 { Doubled(u, b.scale.dx1, b.scale.dx0); }
    if l.subY == 1 { Doubled(v, b.scale.dy1, b.scale.dy0); }
  }

  /** Strips are as few as 31 outputs each allow, and as even as can be, the wider ones first. */
  lemma StripsAreEven(width: int, i: nat, k: nat)
    requires 32 <= width <= 4096 && i <= k < Strips(width)
    ensures 31 * (Strips(width) - 1) < width <= 31 * Strips(width)
    ensures var n := Strips(width); WidthOf(width, n, k) <= WidthOf(width, n, i) <= WidthOf(width, n, k) + 1
  {
  }

  /** A strip's crop is as narrow as its samples allow: it starts in the block of its first sample, and one block
      less would cut off a tap of its last sample, unless it ends where the command's crop ends. */
  lemma StripIsTight(b: Command, i: nat)
    requires Split(b) && Stripe(b, i).Some?
    ensures var c, l, n := Stripe(b, i).value, LayoutOf(b.src.format).value, WidthIn(b, i);
            var narrower := Crop(c.src).width - (1 + l.subX);
            && 0 <= c.scale.h0 < 65536 * (1 + l.subX)
            && (Crop(c.src).x + Crop(c.src).width < Crop(b.src).x + Crop(b.src).width ==>
                  || Ceil(c.scale.h0 + (n - 1) * c.scale.dx0) + 2 > narrower
                  || (l.channels == 2 && Ceil(c.scale.h1 + (n - 1) * c.scale.dx1) + 2 > Shifted(narrower, l.subX)))
  {
    hide Stripe, OffsetOf, WidthOf, CountFor, Splittable, NeedsSplit, StripDst, ReadingOf, OffsetIn, WidthIn, Needed, Ceil;
    SplitFacts(b);
    StripeIs(b, i);
    ReadingBounds(b, i);
    var l, o, n := LayoutOf(b.src.format).value, OffsetIn(b, i), WidthIn(b, i);
    var r := ReadingOf(b, l, o, n);
    ReadingNeeds(b, l, o, n);
    NeededLeast(r.phase + (n - 1) * b.scale.dx0, r.chromaPhase + (n - 1) * b.scale.dx1, l.channels == 2, l.subX);
  }

  /** What is needed is no more than a block above what some channel asks for. */
  lemma NeededLeast(last: int, chromaLast: int, two: bool, subX: nat)
    requires subX <= 1
    ensures var less := Needed(last, chromaLast, two, subX) - (1 + subX);
            Ceil(last) + 2 > less || (two && Ceil(chromaLast) + 2 > Shifted(less, subX))
  {
    hide Ceil;
  }
}
