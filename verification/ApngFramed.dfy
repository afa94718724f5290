/** Which files open, and which frames they have: exactly those whose chunks keep the rules, with one
    frame for each fcTL, in order, and with the numbers written in it. */
module ApngFramed {
  import opened Prelude
  import opened ApngContainer
  import opened ApngRules
  import opened ApngRuled

  // ----- the chunks of one frame -----

  /** The chunk before which the chunks of a frame end, from chunk i on: the next fcTL or IEND. */
  function EndOf(cs: seq<Chunk>, i: nat): (e: nat)
    requires i <= |cs|
    ensures i <= e <= |cs| && (e < |cs| ==> cs[e].kind == Fctl || cs[e].kind == Iend)
    ensures forall j :: i <= j < e ==> cs[j].kind != Fctl && cs[j].kind != Iend
    decreases |cs| - i
  {
    if i == |cs| || cs[i].kind == Fctl || cs[i].kind == Iend then i else EndOf(cs, i + 1)
  }

  predicate Carries(c: Chunk)
  {
    c.kind == Idat || c.kind == Fdat
  }

  /** The bytes that the data chunks among i..e take when written as IDAT chunks. */
  function Cost(cs: seq<Chunk>, i: nat, e: nat): nat
    requires i <= e <= |cs|
    decreases e - i
  {
    if i == e then 0 else Cost(cs, i, e - 1) + if Carries(cs[e - 1]) then Picture(cs[e - 1]) + 12 else 0
  }

  /** The size of the standalone PNG of the frame begun by chunk i. */
  function Whole(cs: seq<Chunk>, i: nat): nat
    requires i < |cs|
  {
    45 + Prefix(cs, |cs|) + Cost(cs, i + 1, EndOf(cs, i + 1))
  }

  /** a is the first data chunk among i..e and b the last. */
  predicate Span(cs: seq<Chunk>, i: nat, e: nat, a: nat, b: nat)
    requires e <= |cs|
  {
    && i <= a <= b < e && Carries(cs[a]) && Carries(cs[b])
    && (forall j :: i <= j < a ==> !Carries(cs[j])) && (forall j :: b < j < e ==> !Carries(cs[j]))
  }

  /** The frame covers the data chunks among i..e, and they make it pngBytes long. */
  ghost predicate Covers(cs: seq<Chunk>, i: nat, e: nat, f: Frame)
    requires i <= e <= |cs|
  {
    exists a: nat, b: nat :: Span(cs, i, e, a, b) && f.dataStart == Place(cs, a) && f.dataEnd == Place(cs, b + 1)
  }

  /** The numbers of a frame are those written in an fcTL body. */
  predicate Written(b: seq<byte>, f: Frame)
  {
    && |b| == 26
    && f.width == Number(b[4..8]) && f.height == Number(b[8..12]) && f.x == Number(b[12..16]) && f.y == Number(b[16..20])
    && f.delayNum == Number(b[20..22]) && f.delayDen == (if Number(b[22..24]) == 0 then 100 else Number(b[22..24]))
    && f.dispose == b[24] && f.blend == b[25]
  }

  /** A frame that covers the canvas, as a file without acTL has it. */
  predicate Still(cs: seq<Chunk>, f: Frame)
    requires 0 < |cs| && |cs[0].body| == 13
  {
    && f.width == Width(cs) && f.height == Height(cs) && f.x == f.y == 0
    && f.delayNum == 0 && f.delayDen == 100 && f.dispose == f.blend == 0
  }

  /** f is the frame begun by chunk i: an fcTL, or the header of a file without acTL. */
  ghost predicate IsFrame(cs: seq<Chunk>, i: nat, f: Frame)
    requires i < |cs| && |cs[0].body| == 13
  {
    && (if cs[i].kind == Fctl then Written(cs[i].body, f) else Still(cs, f))
    && Covers(cs, i + 1, EndOf(cs, i + 1), f) && f.pngBytes == Whole(cs, i)
  }

  // ----- an accepted scan -----

  /** Chunks that keep their rules, from a header to IEND. */
  predicate Kept(crc: Checksum, limits: Limits, cs: seq<Chunk>)
  {
    0 < |cs| && HeaderRule(cs[0]) && Rules(crc, cs, limits, 0) && cs[|cs| - 1].kind == Iend
  }

  /** The chunks of a file that passed the scan. */
  ghost predicate Passed(crc: Checksum, data: seq<byte>, limits: Limits, cs: seq<Chunk>, d: Doc)
  {
    && Kept(crc, limits, cs) && |cs[0].body| == 13 && Cut(data, 8) == Some(cs)
    && d.data == data && d.maxFramePngBytes == limits.framePngBytes && d.width == Width(cs) && d.height == Height(cs)
    && d.animated == Seen(cs, |cs|, Actl) && d.prefixBytes == Prefix(cs, |cs|)
  }

  /** Chunk i stands at its place. */
  lemma {:induction false} Stands(data: seq<byte>, cs: seq<Chunk>, i: nat)
    requires i <= |cs| && Cut(data, 8) == Some(cs)
    ensures Cut(data, Place(cs, i)) == Some(cs[i..])
    ensures i < |cs| ==> Place(cs, i) < |data| && ChunkAt(data, Place(cs, i)) == Some(cs[i]) && Place(cs, i + 1) == Place(cs, i) + Size(cs[i])
  {
    hide ChunkAt, Cut;
    if i == 0 {
      assert cs[0..] == cs;
    } else {
      Stands(data, cs, i - 1);
      CutHere(data, cs, i - 1);
    }
    if i < |cs| { CutHere(data, cs, i); }
  }

  // ----- gathering one frame -----

  /** The gathered frame after the chunks i..j. */
  ghost predicate Gathered(cs: seq<Chunk>, i: nat, j: nat, start: Gather, g: Gather)
    requires i <= j <= |cs|
  {
    && g.haveControl == start.haveControl && g.bytes == start.bytes + Cost(cs, i, j)
    && g.frame == start.frame.(dataStart := g.frame.dataStart, dataEnd := g.frame.dataEnd)
    && (g.haveData <==> exists k :: i <= k < j && Carries(cs[k]))
    && (g.haveData ==> Covers(cs, i, j, g.frame))
  }

  /** The frame under way takes the data chunks among i..e. */
  predicate Takes(d: Doc, cs: seq<Chunk>, i: nat, e: nat, start: Gather)
    requires i <= e <= |cs|
  {
    && !start.haveData && (d.animated ==> start.haveControl)
    && (forall k :: i <= k < e ==> cs[k].kind != Fctl && cs[k].kind != Iend)
    && (forall k :: i <= k < e && cs[k].kind == Fdat ==> start.haveControl && |cs[k].body| >= 4)
  }

  lemma {:induction false} CostGrows(cs: seq<Chunk>, i: nat, j: nat, e: nat)
    requires i <= j <= e <= |cs|
    ensures Cost(cs, i, j) <= Cost(cs, i, e)
    decreases e - j
  {
    if j < e { CostGrows(cs, i, j, e - 1); }
  }

  /** One more chunk. */
  lemma CoversNext(cs: seq<Chunk>, i: nat, j: nat, f: Frame, g: Frame)
    requires i <= j < |cs|
    requires (exists k :: i <= k < j && Carries(cs[k])) ==> Covers(cs, i, j, f)
    requires Carries(cs[j]) ==> g.dataEnd == Place(cs, j + 1)
    requires Carries(cs[j]) ==> g.dataStart == if exists k :: i <= k < j && Carries(cs[k]) then f.dataStart else Place(cs, j)
    requires !Carries(cs[j]) ==> g == f
    ensures (exists k :: i <= k < j + 1 && Carries(cs[k])) ==> Covers(cs, i, j + 1, g)
  {
    hide Place, Carries;
    if exists k :: i <= k < j && Carries(cs[k]) {
      var a: nat, b: nat :| Span(cs, i, j, a, b) && f.dataStart == Place(cs, a) && f.dataEnd == Place(cs, b + 1);
      if Carries(cs[j]) { assert Span(cs, i, j + 1, a, j); } else { assert Span(cs, i, j + 1, a, b); }
    } else if Carries(cs[j]) {
      assert Span(cs, i, j + 1, j, j);
    }
  }

  lemma GatherStep(d: Doc, cs: seq<Chunk>, i: nat, j: nat, e: nat, start: Gather, g: Gather)
    requires i <= j < e <= |cs| && Takes(d, cs, i, e, start) && Gathered(cs, i, j, start, g) && g.bytes <= d.maxFramePngBytes
    requires Place(cs, j + 1) == Place(cs, j) + Size(cs[j])
    ensures GatherOne(d, Place(cs, j), cs[j], g).Some? <==> start.bytes + Cost(cs, i, j + 1) <= d.maxFramePngBytes
    ensures GatherOne(d, Place(cs, j), cs[j], g).Some? ==>
              var h := GatherOne(d, Place(cs, j), cs[j], g).value;
              Gathered(cs, i, j + 1, start, h) && h.bytes == start.bytes + Cost(cs, i, j + 1)
    ensures cs[j].kind != Fctl && cs[j].kind != Iend
  {
    hide Place, Covers;
    assert Cost(cs, i, j + 1) == Cost(cs, i, j) + if Carries(cs[j]) then Picture(cs[j]) + 12 else 0;
    match GatherOne(d, Place(cs, j), cs[j], g)
    case None =>
    case Some(h) => CoversNext(cs, i, j, g.frame, h.frame);
  }

  /** A chunk of the frame. */
  lemma CollectOn(d: Doc, pos: nat, c: Chunk, g: Gather)
    requires pos < |d.data| && ChunkAt(d.data, pos) == Some(c) && (g.haveData ==> c.kind != Fctl && c.kind != Iend)
    ensures Collect(d, pos, g) == match GatherOne(d, pos, c, g) { case None => None case Some(h) => Collect(d, pos + Size(c), h) }
  {
    hide ChunkAt, GatherOne;
  }

  /** The chunk after the frame. */
  lemma CollectEnd(d: Doc, pos: nat, c: Chunk, g: Gather)
    requires pos < |d.data| && ChunkAt(d.data, pos) == Some(c) && g.haveData && (c.kind == Fctl || c.kind == Iend)
    ensures Collect(d, pos, g) == Some((g.frame.(pngBytes := g.bytes), if c.kind == Iend then |d.data| else pos))
  {
    hide ChunkAt, GatherOne;
  }

  /** What the frame is whose chunks i..e were gathered. */
  ghost predicate Made(d: Doc, cs: seq<Chunk>, i: nat, e: nat, start: Gather, f: Frame, next: nat)
    requires i <= e < |cs|
  {
    && f == start.frame.(dataStart := f.dataStart, dataEnd := f.dataEnd, pngBytes := start.bytes + Cost(cs, i, e))
    && Covers(cs, i, e, f) && next == if cs[e].kind == Iend then |d.data| else Place(cs, e)
  }

  lemma CollectLast(d: Doc, cs: seq<Chunk>, i: nat, e: nat, start: Gather, g: Gather)
    requires i <= e < |cs| && Gathered(cs, i, e, start, g) && g.bytes <= d.maxFramePngBytes && cs[e].kind in {Fctl, Iend}
    requires exists k :: i <= k < e && Carries(cs[k])
    requires Place(cs, e) < |d.data| && ChunkAt(d.data, Place(cs, e)) == Some(cs[e])
    ensures start.bytes + Cost(cs, i, e) <= d.maxFramePngBytes && Collect(d, Place(cs, e), g).Some?
    ensures var (f, next) := Collect(d, Place(cs, e), g).value; Made(d, cs, i, e, start, f, next)
  {
    hide ChunkAt, Place, Carries, Covers, Collect;
    CollectEnd(d, Place(cs, e), cs[e], g);
    SameCovers(cs, i, e, g.frame, g.frame.(pngBytes := g.bytes));
  }

  /** The chunks j.. up to the end of the frame. */
  lemma {:induction false} CollectExactly(d: Doc, cs: seq<Chunk>, i: nat, j: nat, e: nat, start: Gather, g: Gather)
    requires i <= j <= e < |cs| && Takes(d, cs, i, e, start) && Gathered(cs, i, j, start, g) && g.bytes <= d.maxFramePngBytes
    requires Cut(d.data, 8) == Some(cs) && cs[e].kind in {Fctl, Iend} && exists k :: i <= k < e && Carries(cs[k])
    ensures Collect(d, Place(cs, j), g).Some? <==> start.bytes + Cost(cs, i, e) <= d.maxFramePngBytes
    ensures Collect(d, Place(cs, j), g).Some? ==>
              var (f, next) := Collect(d, Place(cs, j), g).value; Made(d, cs, i, e, start, f, next)
    decreases e - j
  {
    hide ChunkAt, Place, Cut, GatherOne, Carries, Collect, Gathered, Takes, Made, Cost;
    Stands(d.data, cs, j);
    if j < e {
      GatherStep(d, cs, i, j, e, start, g);
      CollectOn(d, Place(cs, j), cs[j], g);
      CostGrows(cs, i, j + 1, e);
      if start.bytes + Cost(cs, i, j + 1) <= d.maxFramePngBytes {
        CollectExactly(d, cs, i, j + 1, e, start, GatherOne(d, Place(cs, j), cs[j], g).value);
      }
    } else {
      CollectLast(d, cs, i, e, start, g);
    }
  }

  lemma SameCovers(cs: seq<Chunk>, i: nat, e: nat, f: Frame, g: Frame)
    requires i <= e <= |cs| && Covers(cs, i, e, f) && f.dataStart == g.dataStart && f.dataEnd == g.dataEnd
    ensures Covers(cs, i, e, g)
  {
  }

  // ----- one frame of an accepted scan -----

  lemma RuleHolds(crc: Checksum, limits: Limits, cs: seq<Chunk>, i: nat)
    requires i < |cs| && Kept(crc, limits, cs)
    ensures |cs[0].body| == 13 && cs[0].kind == Ihdr && cs[|cs| - 1].kind == Iend
    ensures cs[i].kind == Fctl ==> ControlRule(cs, i)
    ensures cs[i].kind == Fdat ==> FrameDataRule(cs, i)
    ensures cs[i].kind == Iend ==> EndRule(cs, i) && i == |cs| - 1
  {
    hide ControlRule, FrameDataRule, Formed;
    assert Rule(crc, cs, i, limits);
  }

  lemma {:induction false} ControlsGrow(cs: seq<Chunk>, i: nat, k: nat)
    requires i <= k <= |cs|
    ensures Controls(cs, i) <= Controls(cs, k)
    ensures (forall j :: i <= j < k ==> cs[j].kind != Fctl) ==> Controls(cs, i) == Controls(cs, k)
    decreases k - i
  {
    if i < k { ControlsGrow(cs, i, k - 1); }
  }

  /** Picture bytes since the fcTL before chunk i come from data chunks. */
  lemma {:induction false} PayloadCarried(cs: seq<Chunk>, i: nat, j: nat)
    requires i <= j <= |cs| && Payload(cs, i) == 0 && Payload(cs, j) > 0 && forall k :: i <= k < j ==> cs[k].kind != Fctl
    ensures exists k :: i <= k < j && Carries(cs[k])
    decreases j - i
  {
    if i < j && !Carries(cs[j - 1]) { PayloadCarried(cs, i, j - 1); }
  }

  lemma {:induction false} DefaultCarried(cs: seq<Chunk>, j: nat)
    requires j <= |cs| && Default(cs, j) > 0
    ensures exists k :: 0 <= k < j && cs[k].kind == Idat
  {
    if cs[j - 1].kind != Idat { DefaultCarried(cs, j - 1); }
  }

  /** The frame of an fcTL has data, and ends before the next fcTL or before IEND. */
  lemma ControlHasData(crc: Checksum, limits: Limits, cs: seq<Chunk>, i: nat)
    requires Kept(crc, limits, cs) && i < |cs| && cs[i].kind == Fctl
    ensures var e := EndOf(cs, i + 1); e < |cs| && exists k :: i + 1 <= k < e && Carries(cs[k])
  {
    hide Kept, Carries, ControlRule, EndRule, FrameDataRule;
    var e := EndOf(cs, i + 1);
    RuleHolds(crc, limits, cs, i);
    RuleHolds(crc, limits, cs, e);
    ControlsGrow(cs, i + 1, e);
    DataBefore(cs, i, e);
    PayloadCarried(cs, i + 1, e);
  }

  lemma DataBefore(cs: seq<Chunk>, i: nat, e: nat)
    requires i < e < |cs| && |cs[0].body| == 13 && ControlRule(cs, i) && Controls(cs, e) > 0
    requires (cs[e].kind == Fctl && ControlRule(cs, e)) || (cs[e].kind == Iend && EndRule(cs, e))
    ensures Payload(cs, e) > 0
  {
    hide OnCanvas, Controls, Payload, Number, Default, Announced;
    assert Seen(cs, e, Actl);
  }

  lemma SkipsFit(crc: Checksum, limits: Limits, cs: seq<Chunk>, i: nat, e: nat)
    requires i <= e <= |cs| && Kept(crc, limits, cs)
    ensures forall k :: i <= k < e && cs[k].kind == Fdat ==> |cs[k].body| >= 4 && Seen(cs, k, Actl)
  {
    hide Kept, FrameDataRule, ControlRule, EndRule;
    forall k | i <= k < e && cs[k].kind == Fdat ensures |cs[k].body| >= 4 && Seen(cs, k, Actl) {
      RuleHolds(crc, limits, cs, k);
      FrameDataNeeds(cs, k);
    }
  }

  lemma FrameDataNeeds(cs: seq<Chunk>, k: nat)
    requires k < |cs| && FrameDataRule(cs, k)
    ensures |cs[k].body| >= 4 && Seen(cs, k, Actl)
  {
  }

  /** The search from an fcTL. */
  lemma ControlSearch(crc: Checksum, data: seq<byte>, limits: Limits, cs: seq<Chunk>, d: Doc, i: nat)
    requires Passed(crc, data, limits, cs, d) && i < |cs| && cs[i].kind == Fctl
    ensures |cs[0].body| == 13 && Place(cs, i) < |data| && Control(cs[i]).Some? && Written(cs[i].body, Control(cs[i]).value)
    ensures var sum := 45 + Prefix(cs, |cs|);
            Next(d, Place(cs, i)) == if sum > limits.framePngBytes then None
                                     else Collect(d, Place(cs, i + 1), Gather(Control(cs[i]).value, true, false, sum))
  {
    hide Kept, Cut, Place, Seen, ControlRule, EndRule, FrameDataRule, Collect, Control, Written, Next, ChunkAt, Passed, Prefix, GatherOne;
    DataIs(crc, data, limits, cs, d);
    NextIs(d, Place(cs, i));
    RuleHolds(crc, limits, cs, i);
    ControlFields(cs, i);
    FirstPlace(cs, i);
    Stands(data, cs, i);
    ControlBegins(d, Place(cs, i), cs[i], Gather(WholeCanvas(d), false, false, 45 + d.prefixBytes));
  }

  /** The frame begun by an fcTL is found exactly when its PNG fits. */
  lemma ControlNext(crc: Checksum, data: seq<byte>, limits: Limits, cs: seq<Chunk>, d: Doc, i: nat)
    requires Passed(crc, data, limits, cs, d) && i < |cs| && cs[i].kind == Fctl
    ensures EndOf(cs, i + 1) < |cs| && Place(cs, i) < |data|
    ensures Next(d, Place(cs, i)).Some? <==> Whole(cs, i) <= limits.framePngBytes
    ensures Next(d, Place(cs, i)).Some? ==>
              var (f, next) := Next(d, Place(cs, i)).value; var e := EndOf(cs, i + 1);
              IsFrame(cs, i, f) && next == if cs[e].kind == Iend then |data| else Place(cs, e)
  {
    hide Kept, Cut, Carries, Place, Seen, Collect, Control, Written, Covers, Gathered, Takes, IsFrame, Next,
         ChunkAt, Cost, Made, Whole, Passed, Prefix, EndOf, GatherOne, Cut, HeaderRule, Rules;
    var e := EndOf(cs, i + 1);
    DataIs(crc, data, limits, cs, d);
    ControlSearch(crc, data, limits, cs, d, i);
    ControlHasData(crc, limits, cs, i);
    var sum := 45 + d.prefixBytes;
    WholeIs(cs, i, e);
    if sum <= d.maxFramePngBytes {
      var h := Gather(Control(cs[i]).value, true, false, sum);
      ControlTakes(crc, limits, d, cs, i, h);
      CollectExactly(d, cs, i + 1, i + 1, e, h, h);
      if Whole(cs, i) <= limits.framePngBytes {
        var (f, next) := Next(d, Place(cs, i)).value;
        ControlIsFrame(d, cs, i, e, h, f, next);
      }
    }
  }

  lemma WholeIs(cs: seq<Chunk>, i: nat, e: nat)
    requires i < |cs| && e == EndOf(cs, i + 1)
    ensures Whole(cs, i) == 45 + Prefix(cs, |cs|) + Cost(cs, i + 1, e) && 45 + Prefix(cs, |cs|) <= Whole(cs, i)
  {
  }

  lemma NextIs(d: Doc, cursor: nat)
    ensures var sum := 45 + d.prefixBytes;
            Next(d, cursor) == if cursor >= |d.data| || sum > d.maxFramePngBytes then None
                               else Collect(d, if cursor != 0 then cursor else 8, Gather(WholeCanvas(d), false, false, sum))
  {
    hide Collect;
  }

  lemma ControlBegins(d: Doc, pos: nat, c: Chunk, g: Gather)
    requires pos < |d.data| && ChunkAt(d.data, pos) == Some(c) && !g.haveData && c.kind == Fctl && Control(c).Some?
    ensures Collect(d, pos, g) == Collect(d, pos + Size(c), Gather(Control(c).value, true, false, g.bytes))
  {
    hide Control, Collect;
    CollectOn(d, pos, c, g);
  }

  lemma StillBegins(d: Doc, pos: nat, c: Chunk, g: Gather)
    requires pos < |d.data| && ChunkAt(d.data, pos) == Some(c) && !g.haveData && c.kind == Ihdr
    ensures Collect(d, pos, g) == Collect(d, pos + Size(c), g)
  {
    hide Collect;
    CollectOn(d, pos, c, g);
  }

  lemma ControlTakes(crc: Checksum, limits: Limits, d: Doc, cs: seq<Chunk>, i: nat, h: Gather)
    requires Kept(crc, limits, cs) && i < |cs| && h.haveControl && !h.haveData
    ensures Takes(d, cs, i + 1, EndOf(cs, i + 1), h) && Gathered(cs, i + 1, i + 1, h, h)
  {
    hide Kept, Seen;
    SkipsFit(crc, limits, cs, i + 1, EndOf(cs, i + 1));
  }

  lemma ControlIsFrame(d: Doc, cs: seq<Chunk>, i: nat, e: nat, h: Gather, f: Frame, next: nat)
    requires i < e < |cs| && e == EndOf(cs, i + 1) && |cs[0].body| == 13 && cs[i].kind == Fctl && Written(cs[i].body, h.frame)
    requires Made(d, cs, i + 1, e, h, f, next) && h.bytes == 45 + Prefix(cs, |cs|)
    ensures IsFrame(cs, i, f) && next == if cs[e].kind == Iend then |d.data| else Place(cs, e)
  {
    hide Covers, Number, Cost, Prefix, Place;
  }

  lemma StillIsFrame(d: Doc, cs: seq<Chunk>, e: nat, h: Gather, f: Frame, next: nat)
    requires 0 < e < |cs| && e == EndOf(cs, 1) && |cs[0].body| == 13 && cs[0].kind == Ihdr && cs[e].kind == Iend
    requires d.width == Width(cs) && d.height == Height(cs) && h.frame == WholeCanvas(d)
    requires Made(d, cs, 1, e, h, f, next) && h.bytes == 45 + Prefix(cs, |cs|)
    ensures IsFrame(cs, 0, f) && next == |d.data|
  {
    hide Covers, Width, Height, Cost, Prefix, Place;
  }

  lemma ControlFields(cs: seq<Chunk>, i: nat)
    requires i < |cs| && |cs[0].body| == 13 && ControlRule(cs, i)
    ensures Control(cs[i]).Some? && Written(cs[i].body, Control(cs[i]).value)
  {
    ControlReads(cs[i]);
  }

  // ----- all frames of an animated file -----

  /** Every frame from chunk i on fits. */
  ghost predicate AllFit(cs: seq<Chunk>, i: nat, limit: nat)
  {
    forall j :: i <= j < |cs| && cs[j].kind == Fctl ==> Whole(cs, j) <= limit
  }

  /** The frames of the fcTL chunks from chunk i on, in order. */
  ghost predicate Listed(cs: seq<Chunk>, i: nat, fs: seq<Frame>)
    requires i <= |cs| && 0 < |cs| && |cs[0].body| == 13
  {
    && |fs| == Controls(cs, |cs|) - Controls(cs, i)
    && forall j :: i <= j < |cs| && cs[j].kind == Fctl ==>
         var n := Controls(cs, j) - Controls(cs, i); 0 <= n < |fs| && IsFrame(cs, j, fs[n])
  }

  lemma AllFitFirst(cs: seq<Chunk>, i: nat, e: nat, limit: nat)
    requires i < e <= |cs| && cs[i].kind == Fctl && forall j :: i < j < e ==> cs[j].kind != Fctl
    ensures AllFit(cs, i, limit) <==> Whole(cs, i) <= limit && AllFit(cs, e, limit)
  {
    hide Whole;
  }

  lemma ListedFirst(cs: seq<Chunk>, i: nat, e: nat, f: Frame, rest: seq<Frame>)
    requires 0 < |cs| && |cs[0].body| == 13 && i < e <= |cs| && cs[i].kind == Fctl && IsFrame(cs, i, f)
    requires (forall j :: i < j < e ==> cs[j].kind != Fctl) && Listed(cs, e, rest)
    ensures Listed(cs, i, [f] + rest)
  {
    hide IsFrame;
    ControlsGrow(cs, i + 1, e);
    var fs := [f] + rest;
    forall j | i <= j < |cs| && cs[j].kind == Fctl
      ensures var n := Controls(cs, j) - Controls(cs, i); 0 <= n < |fs| && IsFrame(cs, j, fs[n])
    {
      if j >= e { assert fs[Controls(cs, j) - Controls(cs, i)] == rest[Controls(cs, j) - Controls(cs, e)]; }
    }
  }

  lemma OnlyEnd(crc: Checksum, limits: Limits, cs: seq<Chunk>, e: nat)
    requires Kept(crc, limits, cs) && e < |cs| && cs[e].kind == Iend
    ensures e == |cs| - 1 && Controls(cs, |cs|) == Controls(cs, e)
  {
    hide Kept, ControlRule, FrameDataRule, EndRule;
    RuleHolds(crc, limits, cs, e);
  }

  /** From an fcTL on, enumeration reaches the end exactly when every frame fits. */
  lemma {:induction false} FromControl(crc: Checksum, data: seq<byte>, limits: Limits, cs: seq<Chunk>, d: Doc, i: nat)
    requires Passed(crc, data, limits, cs, d) && i < |cs| && cs[i].kind == Fctl
    ensures LastCursor(d, Place(cs, i)) == |data| <==> AllFit(cs, i, limits.framePngBytes)
    ensures AllFit(cs, i, limits.framePngBytes) ==> Listed(cs, i, FramesFrom(d, Place(cs, i)))
    decreases |cs| - i
  {
    hide Passed, Place, IsFrame, Next, Whole, Listed, LastCursor, FramesFrom, AllFit, Kept, Cut, Seen;
    var e := EndOf(cs, i + 1);
    AllFitFirst(cs, i, e, limits.framePngBytes);
    ControlNext(crc, data, limits, cs, d, i);
    DataIs(crc, data, limits, cs, d);
    EnumerateOn(d, Place(cs, i));
    if Whole(cs, i) <= limits.framePngBytes {
      var (f, next) := Next(d, Place(cs, i)).value;
      if cs[e].kind == Iend {
        OnlyEnd(crc, limits, cs, e);
        EnumerateOn(d, |data|);
        LastListed(cs, e, limits.framePngBytes);
      } else {
        FromControl(crc, data, limits, cs, d, e);
      }
      if AllFit(cs, i, limits.framePngBytes) { ListedFirst(cs, i, e, f, FramesFrom(d, next)); }
    }
  }

  lemma LastListed(cs: seq<Chunk>, e: nat, limit: nat)
    requires 0 < |cs| && |cs[0].body| == 13 && e == |cs| - 1 && cs[e].kind != Fctl
    ensures Listed(cs, e, []) && AllFit(cs, e, limit)
  {
    hide IsFrame;
  }

  lemma DataIs(crc: Checksum, data: seq<byte>, limits: Limits, cs: seq<Chunk>, d: Doc)
    requires Passed(crc, data, limits, cs, d)
    ensures d.data == data && Kept(crc, limits, cs) && 0 < |cs| && |cs[0].body| == 13 && cs[0].kind == Ihdr
    ensures Cut(data, 8) == Some(cs) && d.animated == Seen(cs, |cs|, Actl) && d.prefixBytes == Prefix(cs, |cs|)
    ensures d.maxFramePngBytes == limits.framePngBytes && d.width == Width(cs) && d.height == Height(cs)
  {
  }

  /** One step of the enumeration. */
  lemma EnumerateOn(d: Doc, cursor: nat)
    ensures cursor >= |d.data| ==> Next(d, cursor).None?
    ensures Next(d, cursor).None? ==> LastCursor(d, cursor) == cursor && FramesFrom(d, cursor) == []
    ensures Next(d, cursor).Some? ==>
              var (f, next) := Next(d, cursor).value;
              LastCursor(d, cursor) == LastCursor(d, next) && FramesFrom(d, cursor) == [f] + FramesFrom(d, next)
  {
  }

  /** The chunks before the first fcTL are passed over. */
  lemma {:induction false} SkipTo(d: Doc, cs: seq<Chunk>, j: nat, i: nat, g: Gather)
    requires j <= i < |cs| && Cut(d.data, 8) == Some(cs) && d.animated && !g.haveControl && !g.haveData
    requires forall k :: j <= k < i ==> cs[k].kind != Fctl
    ensures Collect(d, Place(cs, j), g) == Collect(d, Place(cs, i), g)
    decreases i - j
  {
    hide ChunkAt, Place, Cut, Collect;
    if j < i {
      Stands(d.data, cs, j);
      CollectOn(d, Place(cs, j), cs[j], g);
      SkipTo(d, cs, j + 1, i, g);
    }
  }

  /** An animated file: its first fcTL is where the enumeration starts. */
  lemma AnimatedFrames(crc: Checksum, data: seq<byte>, limits: Limits, cs: seq<Chunk>, d: Doc)
    requires Passed(crc, data, limits, cs, d) && d.animated
    ensures LastCursor(d, 0) == |data| <==> AllFit(cs, 0, limits.framePngBytes)
    ensures AllFit(cs, 0, limits.framePngBytes) ==> Listed(cs, 0, FramesFrom(d, 0))
  {
    hide Passed, Place, Seen, Next, LastCursor, FramesFrom, IsFrame, Whole, Cut, Kept, Controls, AllFit, Listed, EndOf;
    var i := EndOf(cs, 0);
    DataIs(crc, data, limits, cs, d);
    AnimatedHasControl(crc, limits, cs);
    NextSkips(d, cs, i);
    Stands(data, cs, i);
    FirstPlace(cs, i);
    EnumerateOn(d, 0);
    EnumerateOn(d, Place(cs, i));
    FromControl(crc, data, limits, cs, d, i);
    SameFrom(cs, i, limits.framePngBytes, FramesFrom(d, 0));
  }

  lemma SameFrom(cs: seq<Chunk>, i: nat, limit: nat, fs: seq<Frame>)
    requires i <= |cs| && 0 < |cs| && |cs[0].body| == 13 && forall k :: 0 <= k < i ==> cs[k].kind != Fctl
    ensures AllFit(cs, 0, limit) <==> AllFit(cs, i, limit)
    ensures Listed(cs, 0, fs) <==> Listed(cs, i, fs)
  {
    hide Whole, IsFrame;
    ControlsGrow(cs, 0, i);
  }

  lemma NextSkips(d: Doc, cs: seq<Chunk>, i: nat)
    requires i < |cs| && Cut(d.data, 8) == Some(cs) && d.animated && forall k :: 0 <= k < i ==> cs[k].kind != Fctl
    ensures Next(d, 0) == Next(d, Place(cs, i))
  {
    hide Cut, Collect, Place;
    Stands(d.data, cs, i);
    Stands(d.data, cs, 0);
    FirstPlace(cs, i);
    FirstPlace(cs, 0);
    SkipTo(d, cs, 0, i, Gather(WholeCanvas(d), false, false, 45 + d.prefixBytes));
  }

  lemma AnimatedHasControl(crc: Checksum, limits: Limits, cs: seq<Chunk>)
    requires Kept(crc, limits, cs) && Seen(cs, |cs|, Actl)
    ensures EndOf(cs, 0) < |cs| && cs[EndOf(cs, 0)].kind == Fctl
  {
    hide Kept, EndRule, ControlRule, FrameDataRule;
    var i, last := EndOf(cs, 0), |cs| - 1;
    RuleHolds(crc, limits, cs, last);
    EndCounts(cs, last);
    ControlsGrow(cs, 0, i);
    if cs[i].kind == Iend { OnlyEnd(crc, limits, cs, i); }
  }

  lemma EndCounts(cs: seq<Chunk>, e: nat)
    requires e < |cs| && cs[e].kind == Iend && EndRule(cs, e)
    ensures Seen(cs, |cs|, Actl) ==> Controls(cs, e) > 0
    ensures Default(cs, e) > 0 && e == |cs| - 1
  {
    hide Controls, Payload, Default, Announced;
  }

  // ----- a file without acTL -----

  lemma StillFrames(crc: Checksum, data: seq<byte>, limits: Limits, cs: seq<Chunk>, d: Doc)
    requires Passed(crc, data, limits, cs, d) && !d.animated
    ensures LastCursor(d, 0) == |data| <==> Whole(cs, 0) <= limits.framePngBytes
    ensures LastCursor(d, 0) == |data| ==> |FramesFrom(d, 0)| == 1 && IsFrame(cs, 0, FramesFrom(d, 0)[0])
  {
    hide Passed, LastCursor, FramesFrom, Next, IsFrame, Whole, Seen;
    DataIs(crc, data, limits, cs, d);
    StillNext(crc, data, limits, cs, d);
    EnumerateOn(d, 0);
    EnumerateOn(d, |data|);
    Stands(data, cs, 0);
    FirstPlace(cs, 0);
  }

  lemma StillNext(crc: Checksum, data: seq<byte>, limits: Limits, cs: seq<Chunk>, d: Doc)
    requires Passed(crc, data, limits, cs, d) && !d.animated
    ensures Next(d, 0).Some? <==> Whole(cs, 0) <= limits.framePngBytes
    ensures Next(d, 0).Some? ==> var (f, next) := Next(d, 0).value; next == |data| && IsFrame(cs, 0, f)
  {
    hide Kept, Cut, Carries, Place, Seen, Collect, Covers, Gathered, Takes, Width, Height, Next, ChunkAt, Cost, Made, Whole, IsFrame, Passed, Prefix, EndOf;
    DataIs(crc, data, limits, cs, d);
    NextIs(d, 0);
    StillHasData(crc, limits, cs);
    var e, sum := EndOf(cs, 1), 45 + d.prefixBytes;
    FirstPlace(cs, 0);
    Stands(data, cs, 0);
    WholeIs(cs, 0, e);
    if sum <= d.maxFramePngBytes {
      var g := Gather(WholeCanvas(d), false, false, sum);
      StillBegins(d, 8, cs[0], g);
      StillTakes(crc, limits, d, cs, e, g);
      CollectExactly(d, cs, 1, 1, e, g, g);
      if Whole(cs, 0) <= limits.framePngBytes {
        var (f, next) := Next(d, 0).value;
        StillIsFrame(d, cs, e, g, f, next);
      }
    }
  }

  lemma StillTakes(crc: Checksum, limits: Limits, d: Doc, cs: seq<Chunk>, e: nat, g: Gather)
    requires Kept(crc, limits, cs) && 1 <= |cs| && !Seen(cs, |cs|, Actl) && !d.animated && !g.haveData && e == EndOf(cs, 1)
    ensures Takes(d, cs, 1, e, g) && Gathered(cs, 1, 1, g, g)
  {
    hide Kept;
    SkipsFit(crc, limits, cs, 1, e);
  }

  lemma StillHasData(crc: Checksum, limits: Limits, cs: seq<Chunk>)
    requires Kept(crc, limits, cs) && !Seen(cs, |cs|, Actl)
    ensures 1 <= |cs|
    ensures var e := EndOf(cs, 1); e < |cs| && cs[e].kind == Iend && exists k :: 1 <= k < e && Carries(cs[k])
  {
    hide Seen, ControlRule, EndRule, FrameDataRule, HeaderRule, Rules;
    var last := |cs| - 1;
    RuleHolds(crc, limits, cs, last);
    EndCounts(cs, last);
    DefaultCarried(cs, last);
    var k :| 0 <= k < last && cs[k].kind == Idat;
    var e := EndOf(cs, 1);
    RuleHolds(crc, limits, cs, e);
    if cs[e].kind == Fctl { ControlNeeds(cs, e); }
    assert Carries(cs[k]);
  }

  lemma ControlNeeds(cs: seq<Chunk>, e: nat)
    requires e < |cs| && |cs[0].body| == 13 && ControlRule(cs, e)
    ensures Seen(cs, |cs|, Actl)
  {
    hide Controls, Payload, Announced, Number, OnCanvas;
  }
}
