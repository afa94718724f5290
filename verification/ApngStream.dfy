/**
 The animation stream: container, compositor and clock put together. A tick decodes and composes
 at most one frame; the canvas always shows the document's frames 0..index of the current play,
 composed from transparency.
 */
module ApngStream {
  import opened Prelude
  import opened ApngContainer
  import opened ApngAccepted
  import opened ApngCompose
  import opened ApngCanvas
  import Reader = ApngReader
  import Trips = ApngRoundTrip
  import Clocks = ApngTimeline

  /** The picture a standalone PNG decodes to, as packed RGBA rows. */
  type Decoder = seq<byte> -> seq<byte>

  // ----- cursors -----

  /** Where enumeration stands after n frames. */
  function CursorOf(d: Doc, n: nat): nat
  {
    if n == 0 then 0
    else
      match Next(d, CursorOf(d, n - 1))
      case None => |d.data|
      case Some((_, next)) => next
  }

  lemma {:induction false} CursorFrames(d: Doc, n: nat)
    requires n <= |FramesFrom(d, 0)|
    ensures FramesFrom(d, CursorOf(d, n)) == FramesFrom(d, 0)[n..]
  {
    hide Next;
    if n > 0 {
      CursorFrames(d, n - 1);
    }
  }

  /** From the cursor of frame n, the enumerator yields exactly frame n and the cursor of n + 1. */
  lemma NextFrameIs(d: Doc, n: nat)
    requires n < |FramesFrom(d, 0)|
    ensures Next(d, CursorOf(d, n)) == Some((FramesFrom(d, 0)[n], CursorOf(d, n + 1)))
  {
    hide Next;
    CursorFrames(d, n);
  }

  // ----- ideal layers -----

  function Packed(s: seq<byte>, n: nat): (r: seq<byte>)
    ensures |r| == n
  {
    seq(n, i requires 0 <= i < n => if i < |s| then s[i] else 0)
  }

  /** The standalone PNG of a frame. */
  function PngOf(crc: Checksum, d: Doc, f: Frame): seq<byte>
  {
    match Extracted(crc, d, f, f.pngBytes)
    case None => []
    case Some(s) => s
  }

  function PictureSize(f: Frame): nat
  {
    f.width * f.height * 4
  }

  /** The picture of one frame, whatever buffers it is produced in. */
  function IdealLayer(crc: Checksum, decode: Decoder, d: Doc, f: Frame): Layer
  {
    Layer(f, Packed(decode(PngOf(crc, d, f)), PictureSize(f)), f.width * 4)
  }

  function IdealLayers(crc: Checksum, decode: Decoder, d: Doc, n: nat): (ls: seq<Layer>)
    requires n <= |FramesFrom(d, 0)|
    ensures |ls| == n
  {
    if n == 0 then []
    else IdealLayers(crc, decode, d, n - 1) + [IdealLayer(crc, decode, d, FramesFrom(d, 0)[n - 1])]
  }

  /** Two layers with the same rectangle and the same picture; buffers may have different tails. */
  ghost predicate SamePicture(a: Layer, b: Layer)
  {
    && a.frame == b.frame && a.stride == b.stride == a.frame.width * 4
    && |b.rgba| == PictureSize(a.frame) && b.rgba <= a.rgba
  }

  ghost predicate SamePictures(a: seq<Layer>, b: seq<Layer>)
  {
    |a| == |b| && forall k :: 0 <= k < |a| ==> SamePicture(a[k], b[k])
  }

  lemma SameLayerPixel(a: Layer, b: Layer, x: int, y: int)
    requires SamePicture(a, b) && Inside(a.frame, x, y)
    ensures LayerPixel(a, x, y) == LayerPixel(b, x, y)
  {
    var f := a.frame;
    var px, py := x - f.x, y - f.y;
    MulMonotone(py + 1, f.height, f.width * 4);
    assert Offset(a.stride, px, py) + 4 <= |b.rgba| by {
      assert (py + 1) * (f.width * 4) == py * (f.width * 4) + f.width * 4;
      assert f.height * (f.width * 4) == f.width * f.height * 4;
    }
  }

  lemma {:induction false} SameShown(a: seq<Layer>, b: seq<Layer>, x: nat, y: nat)
    requires SamePictures(a, b)
    ensures Shown(a, x, y) == Shown(b, x, y) && Before(a, x, y) == Before(b, x, y)
    decreases |a|
  {
    hide LayerPixel, Over;
    if a != [] {
      var n := |a| - 1;
      assert SamePicture(a[n], b[n]);
      SameShown(a[..n], b[..n], x, y);
      if Inside(a[n].frame, x, y) {
        SameLayerPixel(a[n], b[n], x, y);
      }
    }
  }

  /** The size of the buffer does not matter, as long as it is enough. */
  lemma ExtractionIsPng(crc: Checksum, d: Doc, limits: Limits, f: Frame, capacity: nat)
    requires Open(crc, d.data, limits) == Some(d) && f in FramesFrom(d, 0) && f.pngBytes <= capacity
    ensures Extracted(crc, d, f, capacity) == Some(PngOf(crc, d, f)) && |PngOf(crc, d, f)| == f.pngBytes
  {
    hide Open, FramesFrom, Extracted, Trips.Copies, Prefixes, Pieces, Standalone;
    var p, pieces, out := Trips.FrameIsExtracted(crc, d.data, limits, d, f, capacity);
    var q, pieces', again := Trips.FrameIsExtracted(crc, d.data, limits, d, f, f.pngBytes);
    SameCopies(crc, d, f, p, pieces, out, q, pieces', again);
  }

  lemma SameCopies(crc: Checksum, d: Doc, f: Frame, p: seq<byte>, pieces: seq<seq<byte>>, out: seq<byte>,
                   q: seq<byte>, others: seq<seq<byte>>, again: seq<byte>)
    requires Trips.Copies(crc, d, f, p, pieces, out) && Trips.Copies(crc, d, f, q, others, again)
    ensures out == again && |out| == f.pngBytes
  {
    hide Prefixes, Pieces, Standalone, WireSize, Writable, Total;
  }

  /** Every enumerated frame passes the compositor's checks in a large enough rectangle. */
  lemma FrameIsComposable(crc: Checksum, d: Doc, limits: Limits, f: Frame, size: nat)
    requires Open(crc, d.data, limits) == Some(d) && f in FramesFrom(d, 0)
    requires d.width <= 4096 && d.height <= 4096 && PictureSize(f) <= size <= SIZE_MAX
    ensures SpanAllowed(f.width, f.height, f.width * 4, size) && FitsCanvas(d.width, d.height, f)
    ensures f.dispose <= 2 && f.blend <= 1
  {
    hide Open, FramesFrom, Prefixes, LastCursor, Pieces;
    OpenFacts(crc, d.data, limits);
    assert FrameFacts(d, f);
    assert (f.height - 1) * (f.width * 4) + f.width * 4 == f.width * f.height * 4;
  }

  lemma WrittenFirst(was: seq<byte>, bytes: seq<byte>, now: seq<byte>)
    requires Reader.Written(was, bytes, now)
    ensures |bytes| <= |now| && now[..|bytes|] == bytes
  {
  }

  // ----- the stream -----

  datatype View = View(step: Clocks.Step, visible: bool, sequence: u64)

  const NO_VIEW: View := View(Clocks.NO_STEP, false, 0)

  class Stream {
    const crc: Checksum
    const decode: Decoder
    const doc: Doc
    const canvas: Canvas
    const clock: Clocks.Timeline
    const png: array<byte>
    const rectangle: array<byte>
    var cursor: nat
    var sequence: u64
    var fault: bool
    ghost const limits: Limits

    ghost function Storage(): set<object>
    {
      {this, canvas, canvas.pixels, canvas.scratch, clock, png, rectangle}
    }

    /** Buffers large enough for every frame, and the storage of each its own. */
    ghost predicate Fitted()
    {
      && Open(crc, doc.data, limits) == Some(doc)
      && png != rectangle && png != canvas.pixels && png != canvas.scratch
      && rectangle != canvas.pixels && rectangle != canvas.scratch
      && rectangle.Length <= SIZE_MAX && canvas.pixels.Length <= SIZE_MAX
      && canvas.width == doc.width && canvas.height == doc.height
      && forall f :: f in FramesFrom(doc, 0) ==> Holds(f)
    }

    ghost predicate Holds(f: Frame)
    {
      f.pngBytes <= png.Length && PictureSize(f) <= rectangle.Length
    }

    ghost predicate Running(c: Clocks.Clock)
    {
      && Clocks.Sound(c) && c.initialized && c.frames == doc.frames == |FramesFrom(doc, 0)|
      && c.animated == doc.animated && c.plays == doc.plays
    }

    /** How many frames of the current play the canvas and the cursor stand behind. */
    ghost function Drawn(c: Clocks.Clock): nat
    {
      if c.awaitingFrame then c.index else c.index + 1
    }

    /** Unless a new play is about to start, the saved cursor and the composed layers match the
        clock's index. */
    ghost predicate InStep(c: Clocks.Clock, cursor: nat, layers: seq<Layer>)
      requires Running(c)
    {
      Drawn(c) > 0 ==>
        && cursor == CursorOf(doc, Drawn(c))
        && SamePictures(layers, IdealLayers(crc, decode, doc, Drawn(c)))
    }

    ghost predicate Valid()
      reads Storage()
    {
      && Fitted() && canvas.Valid() && Running(clock.clock)
      && (!fault ==> InStep(clock.clock, cursor, canvas.layers))
    }

    /** The canvas shows exactly the first n frames of a play. */
    ghost predicate ShowsFrames(n: nat)
      requires n <= |FramesFrom(doc, 0)|
      reads Storage()
    {
      forall x: nat, y: nat :: x < doc.width && y < doc.height ==>
        PixelAt(canvas.pixels[..], canvas.stride, x, y) == Shown(IdealLayers(crc, decode, doc, n), x, y)
    }

    lemma InStepShows(n: nat)
      requires Fitted() && canvas.Valid() && n <= |FramesFrom(doc, 0)|
      requires SamePictures(canvas.layers, IdealLayers(crc, decode, doc, n))
      ensures ShowsFrames(n)
    {
      forall x: nat, y: nat | x < doc.width && y < doc.height
        ensures PixelAt(canvas.pixels[..], canvas.stride, x, y) == Shown(IdealLayers(crc, decode, doc, n), x, y)
      {
        SameShown(canvas.layers, IdealLayers(crc, decode, doc, n), x, y);
      }
    }

    constructor (crc: Checksum, decode: Decoder, doc: Doc, canvas: Canvas, clock: Clocks.Timeline,
                 png: array<byte>, rectangle: array<byte>, ghost limits: Limits)
      ensures this.crc == crc && this.decode == decode && this.doc == doc && this.limits == limits
      ensures this.canvas == canvas && this.clock == clock && this.png == png && this.rectangle == rectangle
      ensures cursor == 0 && sequence == 0 && !fault
    {
      this.crc, this.decode, this.doc, this.limits := crc, decode, doc, limits;
      this.canvas, this.clock, this.png, this.rectangle := canvas, clock, png, rectangle;
      cursor, sequence, fault := 0, 0, false;
    }

    /** The decoder either fills the rectangle with the picture or leaves something undefined. */
    method DecodePicture(bytes: nat, n: nat, succeeds: bool)
      requires bytes <= png.Length && n <= rectangle.Length && png != rectangle
      modifies rectangle
      ensures succeeds ==> Packed(decode(png[..bytes]), n) <= rectangle[..]
    {
      if succeeds {
        var source := png[..bytes];
        var picture := Packed(decode(source), n);
        forall k | 0 <= k < n {
          rectangle[k] := picture[k];
        }
        assert picture <= rectangle[..];
        assert png[..bytes] == source;
      } else {
        for k := 0 to rectangle.Length {
          rectangle[k] := *;
        }
      }
    }

    /** Enumerate, extract, decode and compose frame n. Only the decoder can fail. */
    method Render(n: nat, reset: bool, decoderOk: bool) returns (ok: bool, f: Frame, next: nat)
      requires Fitted() && canvas.Valid() && n < |FramesFrom(doc, 0)| && (reset <==> n == 0)
      requires n > 0 ==> cursor == CursorOf(doc, n) && SamePictures(canvas.layers, IdealLayers(crc, decode, doc, n))
      modifies canvas, canvas.pixels, canvas.scratch, png, rectangle
      ensures canvas.Valid() && ok == decoderOk
      ensures ok ==>
                && f == FramesFrom(doc, 0)[n] && next == CursorOf(doc, n + 1)
                && SamePictures(canvas.layers, IdealLayers(crc, decode, doc, n + 1))
      ensures !ok ==> canvas.layers == old(canvas.layers)
    {
      hide Open, FramesFrom, Next, Extracted, PixelAt, Shown, Before;
      NextFrameIs(doc, n);
      var from := if reset then 0 else cursor;
      ok, f, next := Reader.NextFrame(doc, from);
      ExtractionIsPng(crc, doc, limits, f, png.Length);
      FrameIsComposable(crc, doc, limits, f, rectangle.Length);
      ghost var was := png[..];
      var extracted := Reader.Extract(crc, doc, f, png, limits);
      if !ok || !extracted { return false, f, next; }
      WrittenFirst(was, PngOf(crc, doc, f), png[..]);
      DecodePicture(f.pngBytes, PictureSize(f), decoderOk);
      if !decoderOk { return false, f, next; }
      if reset { canvas.Reset(); }
      ok := canvas.Compose(f, rectangle[..], f.width * 4);
    }

    /** Polling never gets the saved position out of step, and asks for the frame it points at. */
    lemma PollStaysInStep(c: Clocks.Clock, now: u64, cursor: nat, layers: seq<Layer>)
      requires Running(c) && Clocks.Polled(c, now).Some?
      ensures var (t, step) := Clocks.Polled(c, now).value;
              && Running(t) && step.frameIndex == t.index && t.index < t.frames
              && (InStep(c, cursor, layers) ==> InStep(t, cursor, layers))
              && (step.action == Clocks.Frame ==> t.awaitingFrame && (step.resetCanvas <==> t.index == 0))
    {
      hide Clocks.WaitFor, Clocks.RemainingUs, Clocks.DueExactly, Clocks.MediaTicks, SamePictures, CursorOf, FramesFrom, IdealLayers;
    }

    /** A committed frame counts as drawn. */
    lemma CommitDraws(c: Clocks.Clock, later: u64, num: u16, den: u16)
      requires Running(c) && c.awaitingFrame && Clocks.Committed(c, later, num, den).Some?
      ensures var u := Clocks.Committed(c, later, num, den).value;
              Running(u) && Drawn(u) == c.index + 1
    {
      hide Clocks.DelayQ, Clocks.BaseQ, FramesFrom;
    }

    /** A frame that the clock asks for is shown exactly when the sequence is not exhausted, the decoder
        succeeds and the clock accepts the commit. */
    ghost predicate FrameSucceeds(c: Clocks.Clock, sequence: u64, later: u64, decoderOk: bool)
      requires Running(c)
    {
      && sequence < U64_MAX && decoderOk
      && var f := FramesFrom(doc, 0)[c.index];
         Clocks.Committed(c, later, f.delayNum, f.delayDen).Some?
    }

    /** A tick succeeds exactly when the clock answers and a frame, if it asks for one, is shown. */
    ghost predicate TickSucceeds(c: Clocks.Clock, sequence: u64, now: u64, later: u64, decoderOk: bool)
      requires Running(c)
    {
      && Clocks.Polled(c, now).Some?
      && var (t, step) := Clocks.Polled(c, now).value;
      (step.action == Clocks.Frame ==> Running(t) && FrameSucceeds(t, sequence, later, decoderOk))
    }

    /** Render the frame that the clock asks for and commit it. */
    method ShowFrame(step: Clocks.Step, later: u64, decoderOk: bool) returns (ok: bool)
      requires Valid() && !fault && clock.clock.awaitingFrame
      requires step.frameIndex == clock.clock.index && (step.resetCanvas <==> clock.clock.index == 0)
      modifies this`cursor, this`sequence, canvas, canvas.pixels, canvas.scratch, clock, png, rectangle
      ensures Fitted() && canvas.Valid() && Running(clock.clock)
      ensures ok == FrameSucceeds(old(clock.clock), old(sequence), later, decoderOk)
      ensures ok ==>
                && Valid() && sequence == old(sequence) + 1
                && old(clock.clock.index) < |FramesFrom(doc, 0)| && ShowsFrames(old(clock.clock.index) + 1)
    {
      hide Open, FramesFrom, CursorOf, Clocks.Committed, Clocks.Sound, SamePictures, Holds, PixelAt, IdealLayers, Shown, ShowsFrames;
      ok := false;
      if sequence == U64_MAX { return; }
      ghost var asked := clock.clock;
      RunningTells(asked);
      var rendered, f, next := Render(step.frameIndex, step.resetCanvas, decoderOk);
      if !rendered { return; }
      ok := clock.Commit(later, f.delayNum, f.delayDen);
      if !ok { return; }
      CommitDraws(asked, later, f.delayNum, f.delayDen);
      cursor, sequence := next, sequence + 1;
      InStepShows(asked.index + 1);
    }

    lemma RunningTells(c: Clocks.Clock)
      requires Running(c)
      ensures Clocks.Sound(c) && c.index < |FramesFrom(doc, 0)|
    {
    }

    method Tick(now: u64, later: u64, decoderOk: bool) returns (ok: bool, view: View)
      requires Valid()
      modifies this, canvas, canvas.pixels, canvas.scratch, clock, png, rectangle
      ensures Valid()
      ensures ok == (!old(fault) && TickSucceeds(old(clock.clock), old(sequence), now, later, decoderOk))
      ensures fault == !ok
      ensures ok ==> view.step == Clocks.Polled(old(clock.clock), now).value.1 && view.sequence == sequence
      ensures ok ==> (view.visible <==> sequence > 0)
      ensures ok && view.step.action == Clocks.Frame ==>
                && view.step.frameIndex < |FramesFrom(doc, 0)|
                && ShowsFrames(view.step.frameIndex + 1)
                && sequence == old(sequence) + 1
      ensures ok && view.step.action != Clocks.Frame ==>
                && sequence == old(sequence) && cursor == old(cursor)
                && canvas.pixels[..] == old(canvas.pixels[..]) && canvas.layers == old(canvas.layers)
    {
      hide Fitted, Running, InStep, FrameSucceeds, ShowsFrames, Clocks.Polled, FramesFrom;
      ok, view := false, NO_VIEW;
      if fault { return; }
      ghost var before := clock.clock;
      RunningTells(before);
      var step;
      ok, step := clock.Poll(now);
      if ok {
        PollStaysInStep(before, now, cursor, canvas.layers);
        if step.action == Clocks.Frame { ok := ShowFrame(step, later, decoderOk); }
      }
      fault := !ok;
      if ok { view := View(step, sequence > 0, sequence); }
    }

    /** Replay from frame zero, keeping pause and rate. Refused only by a fault or a clock that
        runs backwards; the next frame then starts a fresh canvas. */
    method Restart(now: u64) returns (ok: bool)
      requires Valid()
      modifies this, clock
      ensures Valid()
      ensures ok == (!old(fault) && now >= old(clock.clock).lastUs)
      ensures fault == old(fault) && sequence == old(sequence)
      ensures !ok ==> clock.clock == old(clock.clock) && cursor == old(cursor)
      ensures ok ==>
                var c, was := clock.clock, old(clock.clock);
                && cursor == 0
                && c == Clocks.Initial(doc.frames, doc.plays, doc.animated, was.minimumDelayUs, now)
                        .(rateNum := was.rateNum, rateDen := was.rateDen, paused := was.paused)
    {
      hide Open, FramesFrom, CursorOf, SamePictures, Holds, PixelAt, IdealLayers, Clocks.Rated, Clocks.PausedAs;
      ok := false;
      if fault { return; }
      if now < clock.clock.lastUs { return; }
      var fresh' := new Clocks.Timeline();
      var c := clock.clock;
      RestartSucceeds(c, now);
      var ready := fresh'.Init(doc.frames, doc.plays, doc.animated, c.minimumDelayUs, now);
      if !ready { return; }
      var rated := fresh'.Rate(now, c.rateNum, c.rateDen);
      if !rated { return; }
      var paused := fresh'.Pause(now, c.paused);
      if !paused { return; }
      clock.clock := fresh'.clock;
      cursor := 0;
      ok := true;
    }

    lemma RestartSucceeds(c: Clocks.Clock, now: u64)
      requires Running(c)
      ensures Clocks.InitAllowed(c.frames, c.animated, c.minimumDelayUs)
      ensures var i := Clocks.Initial(c.frames, c.plays, c.animated, c.minimumDelayUs, now);
              && Clocks.Rated(i, now, c.rateNum, c.rateDen).Some?
              && var r := Clocks.Rated(i, now, c.rateNum, c.rateDen).value;
              && Clocks.Sound(r) && Clocks.PausedAs(r, now, c.paused).Some?
              && Clocks.PausedAs(r, now, c.paused).value == r.(paused := c.paused)
              && r == i.(rateNum := c.rateNum, rateDen := c.rateDen)
    {
      hide Clocks.Advanced;
      var i := Clocks.Initial(c.frames, c.plays, c.animated, c.minimumDelayUs, now);
      Unmoved(i);
      Unmoved(i.(rateNum := c.rateNum, rateDen := c.rateDen));
    }

    lemma Unmoved(c: Clocks.Clock)
      requires Clocks.Sound(c) && c.initialized && c.mediaUs == 0 && c.mediaFraction == 0
      ensures Clocks.Advanced(c, c.lastUs) == Some(c)
    {
      assert Clocks.MediaTicks(c) == 0;
    }

    /** Pausing and changing the rate only touch the clock. */
    method Pause(now: u64, paused: bool) returns (ok: bool)
      requires Valid()
      modifies clock
      ensures Valid()
      ensures ok == (!fault && Clocks.PausedAs(old(clock.clock), now, paused).Some?)
      ensures clock.clock == if ok then Clocks.PausedAs(old(clock.clock), now, paused).value else old(clock.clock)
    {
      hide Open, FramesFrom, CursorOf, SamePictures, Holds, PixelAt;
      ok := false;
      if !fault {
        ok := clock.Pause(now, paused);
      }
    }

    method Rate(now: u64, num: u32, den: u32) returns (ok: bool)
      requires Valid()
      modifies clock
      ensures Valid()
      ensures ok == (!fault && Clocks.Rated(old(clock.clock), now, num, den).Some?)
      ensures clock.clock == if ok then Clocks.Rated(old(clock.clock), now, num, den).value else old(clock.clock)
    {
      hide Open, FramesFrom, CursorOf, SamePictures, Holds, PixelAt;
      ok := false;
      if !fault {
        ok := clock.Rate(now, num, den);
      }
    }
  }

  // ----- opening -----

  datatype Config = Config(limits: Limits, cpuBudget: u64, packetLimit: u64, minimumDelayUs: u32, contextBytes: u64)

  /** The largest PNG and the largest rectangle among the first n frames. */
  function LargestPng(fs: seq<Frame>): (m: nat)
    ensures forall f :: f in fs ==> f.pngBytes <= m
  {
    if fs == [] then 0 else Max(LargestPng(fs[..|fs| - 1]), fs[|fs| - 1].pngBytes)
  }

  function LargestRectangle(fs: seq<Frame>): (m: nat)
    ensures forall f :: f in fs ==> PictureSize(f) <= m
  {
    if fs == [] then 0 else Max(LargestRectangle(fs[..|fs| - 1]), PictureSize(fs[|fs| - 1]))
  }

  function CanvasSize(d: Doc): nat
  {
    d.width * d.height * 4
  }

  /** Everything the stream keeps in memory: context, file, one PNG, one rectangle, two canvases. */
  function Footprint(d: Doc, c: Config): nat
  {
    var fs := FramesFrom(d, 0);
    c.contextBytes + |d.data| + LargestPng(fs) + LargestRectangle(fs) + CanvasSize(d) + CanvasSize(d)
  }

  predicate PacketFits(bytes: nat, limit: nat)
  {
    bytes <= SIZE_MAX - 255 && (bytes + 255) / 256 * 256 <= limit
  }

  ghost predicate OpenAllowed(crc: Checksum, data: seq<byte>, c: Config)
  {
    && Open(crc, data, c.limits).Some?
    && var d := Open(crc, data, c.limits).value;
    && PacketFits(LargestPng(FramesFrom(d, 0)), c.packetLimit)
    && Footprint(d, c) <= c.cpuBudget
    && Clocks.InitAllowed(d.frames, d.animated, c.minimumDelayUs)
  }

  /** The enumeration that sizes the buffers. */
  method Measure(d: Doc) returns (ok: bool, png: nat, rectangle: nat)
    requires |FramesFrom(d, 0)| == d.frames
    ensures ok && png == LargestPng(FramesFrom(d, 0)) && rectangle == LargestRectangle(FramesFrom(d, 0))
  {
    hide Next, FramesFrom, PictureSize;
    ghost var all := FramesFrom(d, 0);
    png, rectangle := 0, 0;
    var cursor, i := 0, 0;
    while i < d.frames
      invariant 0 <= i <= d.frames && cursor == CursorOf(d, i)
      invariant png == LargestPng(all[..i]) && rectangle == LargestRectangle(all[..i])
    {
      NextFrameIs(d, i);
      var more, f, next := Reader.NextFrame(d, cursor);
      if !more { return false, png, rectangle; }
      assert all[..i + 1][..i] == all[..i];
      if PictureSize(f) > rectangle { rectangle := PictureSize(f); }
      if f.pngBytes > png { png := f.pngBytes; }
      cursor, i := next, i + 1;
    }
    assert all[..i] == all;
    ok := true;
  }

  /** A document's canvas is at most 4096 square, and no frame is larger than it. */
  lemma DocumentSizes(crc: Checksum, data: seq<byte>, limits: Limits, d: Doc)
    requires Open(crc, data, limits) == Some(d)
    ensures d.data == data && 0 < d.width <= 4096 && 0 < d.height <= 4096 && |FramesFrom(d, 0)| == d.frames > 0
    ensures !d.animated ==> d.plays == 1
    ensures CanvasSize(d) <= SIZE_MAX && SpanAllowed(d.width, d.height, d.width * 4, CanvasSize(d))
    ensures forall f :: f in FramesFrom(d, 0) ==> PictureSize(f) <= CanvasSize(d)
  {
    hide Open, FramesFrom, LastCursor, Prefixes, Pieces, Next, Scan, ChunkAt, HeaderAllowed, LimitsAllow, Start;
    DocumentCanvas(crc, data, limits, d);
    OpenFacts(crc, data, limits);
    StaticPlaysOnce(crc, data, limits);
    SomeFrames(d);
    MulMonotone(d.width, 4096, d.height);
    MulMonotone(d.height, 4096, 4096);
    assert (d.height - 1) * (d.width * 4) + d.width * 4 == d.width * d.height * 4;
    forall f | f in FramesFrom(d, 0)
      ensures PictureSize(f) <= CanvasSize(d)
    {
      assert FrameFacts(d, f);
      MulMonotone(f.width, d.width, f.height);
      MulMonotone(f.height, d.height, d.width);
    }
  }

  lemma DocumentCanvas(crc: Checksum, data: seq<byte>, limits: Limits, d: Doc)
    requires Open(crc, data, limits) == Some(d)
    ensures d.data == data && 0 < d.width <= 4096 && 0 < d.height <= 4096
  {
    hide Open, ChunkAt, HeaderAllowed, Scan, Start, LimitsAllow;
    var v, final := OpenReads(crc, data, limits);
  }

  /** Enumeration reaches the end of a nonempty file, so there is at least one frame. */
  lemma SomeFrames(d: Doc)
    requires LastCursor(d, 0) == |d.data| > 0
    ensures |FramesFrom(d, 0)| > 0
  {
    hide Next;
  }

  lemma {:induction false} LargestWithin(fs: seq<Frame>, bound: nat)
    requires forall f :: f in fs ==> PictureSize(f) <= bound
    ensures LargestRectangle(fs) <= bound
  {
    if fs != [] {
      LargestWithin(fs[..|fs| - 1], bound);
    }
  }

  /** Opens a stream over its own copy of the file. It succeeds exactly when the document is
      accepted, every budget holds and memory is available. */
  method OpenStream(crc: Checksum, decode: Decoder, data: seq<byte>, config: Config, now: u64, memory: bool)
    returns (s: Stream?)
    ensures s != null <==> memory && OpenAllowed(crc, data, config)
    ensures s != null ==>
              && fresh(s) && s.Valid() && !s.fault && s.sequence == 0 && Open(crc, data, config.limits) == Some(s.doc)
              && s.crc == crc && s.decode == decode
              && s.clock.clock
                 == Clocks.Initial(s.doc.frames, s.doc.plays, s.doc.animated, config.minimumDelayUs, now)
  {
    hide Open, FramesFrom, CursorOf, PixelAt, Clocks.Sound, LargestPng, LargestRectangle, PictureSize;
    s := null;
    var accepted, doc := Reader.OpenDocument(crc, data, config.limits);
    if !accepted { return; }
    DocumentSizes(crc, data, config.limits, doc);
    LargestWithin(FramesFrom(doc, 0), CanvasSize(doc));
    var measured, png, rectangle := Measure(doc);
    if !measured || !PacketFits(png, config.packetLimit) { return; }
    var canvas := CanvasSize(doc);
    var fits := BudgetAllows(config.contextBytes, |data|, png, rectangle, canvas, config.cpuBudget);
    if !fits { return; }
    var clock := new Clocks.Timeline();
    var started := clock.Init(doc.frames, doc.plays, doc.animated, config.minimumDelayUs, now);
    if !started || !memory { return; }
    s := Assemble(crc, decode, doc, clock, png, rectangle, config.limits);
  }

  /** The buffers, the canvas and the stream over them. */
  method Assemble(crc: Checksum, decode: Decoder, doc: Doc, clock: Clocks.Timeline, png: nat, rectangle: nat, ghost limits: Limits)
    returns (s: Stream?)
    requires Open(crc, doc.data, limits) == Some(doc) && |FramesFrom(doc, 0)| == doc.frames
    requires forall f :: f in FramesFrom(doc, 0) ==> f.pngBytes <= png && PictureSize(f) <= rectangle
    requires rectangle <= SIZE_MAX && SpanAllowed(doc.width, doc.height, doc.width * 4, CanvasSize(doc)) && CanvasSize(doc) <= SIZE_MAX
    requires clock.Valid() && clock.clock.initialized && clock.clock.awaitingFrame && clock.clock.index == 0
    requires clock.clock.frames == doc.frames && clock.clock.animated == doc.animated && clock.clock.plays == doc.plays
    ensures s != null && fresh(s) && s.Valid() && !s.fault && s.sequence == 0
    ensures s.crc == crc && s.decode == decode && s.doc == doc && s.clock == clock
  {
    hide Open, FramesFrom, CursorOf, PixelAt, Clocks.Sound, SpanAllowed;
    s := null;
    var canvas := CanvasSize(doc);
    var pixels, scratch := new byte[canvas], new byte[canvas];
    var pngBuffer, pictures := new byte[png], new byte[rectangle];
    var drawn := Canvas.Init(doc.width, doc.height, pixels, doc.width * 4, scratch);
    if drawn != null {
      s := new Stream(crc, decode, doc, drawn, clock, pngBuffer, pictures, limits);
    }
  }

  /** Adds the parts one by one, never past the budget. */
  method BudgetAllows(context: nat, file: nat, png: nat, rectangle: nat, canvas: nat, budget: nat) returns (ok: bool)
    ensures ok == (context + file + png + rectangle + canvas + canvas <= budget)
  {
    var parts := [file, png, rectangle, canvas, canvas];
    var total, i := context, 0;
    ok := true;
    while i < 5
      invariant 0 <= i <= 5
      invariant i > 0 ==> total <= budget
      invariant total == context + (if i > 0 then file else 0) + (if i > 1 then png else 0)
                         + (if i > 2 then rectangle else 0) + (if i > 3 then canvas else 0) + (if i > 4 then canvas else 0)
    {
      match Sum(total, parts[i], budget) {
        case None => return false;
        case Some(more) => total := more;
      }
      i := i + 1;
    }
  }
}
