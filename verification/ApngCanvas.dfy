/** The in-place canvas: disposal, the single scratch rectangle, and SOURCE/OVER drawing. */
module ApngCanvas {
  import opened Prelude
  import opened ApngContainer
  import opened ApngCompose

  predicate SpanAllowed(width: nat, height: nat, stride: nat, capacity: nat)
  {
    && 0 < width <= 4096 && 0 < height <= 4096 && width * 4 <= stride
    && (height - 1) * stride + width * 4 <= Min(capacity, SIZE_MAX)
  }

  /** The span check, without forming a product that could wrap. */
  method Span(width: u32, height: u32, stride: u64, capacity: u64) returns (ok: bool)
    ensures ok == SpanAllowed(width, height, stride, capacity)
  {
    if width == 0 || height == 0 || width > 4096 || height > 4096 || stride < width * 4 { return false; }
    var row := width * 4;
    if height > 1 {
      DivExceeds(SIZE_MAX - row, height - 1, stride);
      if stride > (SIZE_MAX - row) / (height - 1) { return false; }
    }
    ok := (height - 1) * stride + row <= capacity;
  }

  ghost predicate FitsCanvas(width: nat, height: nat, f: Frame)
  {
    0 < f.width && 0 < f.height && f.x + f.width <= width && f.y + f.height <= height
  }

  /** A fitting rectangle lies in the canvas buffer and in the packed scratch. */
  lemma RectangleLies(width: nat, height: nat, stride: nat, size: nat, scratchSize: nat, f: Frame)
    requires SpanAllowed(width, height, stride, size) && width * height * 4 <= scratchSize && FitsCanvas(width, height, f)
    ensures Lies(stride, size, RectOf(f)) && Lies(f.width * 4, scratchSize, Rect(0, 0, f.width, f.height))
  {
    MulMonotone(f.y + f.height - 1, height - 1, stride);
    MulMonotone(f.height, height, f.width);
    MulMonotone(f.width, width, height);
    assert (f.height - 1) * (f.width * 4) + f.width * 4 == f.width * f.height * 4;
  }

  class Canvas {
    const pixels: array<byte>
    const scratch: array<byte>
    const stride: u64
    const width: u32
    const height: u32
    var previous: Frame
    var havePrevious: bool
    ghost var layers: seq<Layer>

    /** The canvas shows its history; a PREVIOUS rectangle is backed up in the scratch. */
    ghost predicate Valid()
      reads this, pixels, scratch
    {
      && pixels != scratch
      && SpanAllowed(width, height, stride, pixels.Length) && width * height * 4 <= scratch.Length
      && Shows(pixels[..], layers)
      && (havePrevious <==> layers != [])
      && (havePrevious ==>
          && previous == layers[|layers| - 1].frame && previous.dispose <= 2
          && FitsCanvas(width, height, previous)
          && (previous.dispose == 2 ==> BackedUp(scratch[..], previous, layers[..|layers| - 1])))
    }

    ghost predicate Shows(s: seq<byte>, ls: seq<Layer>)
    {
      forall x: nat, y: nat :: x < width && y < height ==> PixelAt(s, stride, x, y) == Shown(ls, x, y)
    }

    ghost predicate ShowsBefore(s: seq<byte>, ls: seq<Layer>)
    {
      forall x: nat, y: nat :: x < width && y < height ==> PixelAt(s, stride, x, y) == Before(ls, x, y)
    }

    ghost predicate BackedUp(s: seq<byte>, f: Frame, ls: seq<Layer>)
    {
      forall x: nat, y: nat :: x < f.width && y < f.height ==>
        PixelAt(s, f.width * 4, x, y) == Before(ls, f.x + x, f.y + y)
    }

    /** Bytes of the buffer that belong to no canvas pixel. */
    ghost predicate Padding(i: nat)
      requires 0 < stride
    {
      !(i / stride < height && i % stride < width * 4)
    }

    ghost predicate SamePadding(now: seq<byte>, was: seq<byte>)
      requires 0 < stride
    {
      |now| == |was| && forall i :: 0 <= i < |was| && Padding(i) ==> now[i] == was[i]
    }

    static method WriteBytes(a: array<byte>, at: nat, bytes: seq<byte>)
      requires at + |bytes| <= a.Length
      modifies a
      ensures a[..] == Overwritten(old(a[..]), at, bytes)
    {
      forall k | 0 <= k < |bytes| {
        a[at + k] := bytes[k];
      }
    }

    /** One row of zeros. */
    static method WipeRow(a: array<byte>, stride: nat, r: Rect, y: nat, ghost was: seq<byte>)
      requires 0 < stride && Lies(stride, |was|, r) && y < r.height
      requires Applied(a[..], was, stride, r, Wipe, y, 0)
      modifies a
      ensures Applied(a[..], was, stride, r, Wipe, y + 1, 0)
    {
      hide Done, Applied, Lies;
      var zeros := seq(r.width * 4, _ => 0);
      WritesRow(a[..], was, stride, r, Wipe, y, zeros);
      WriteBytes(a, Offset(stride, r.x, r.y + y), zeros);
    }

    /** One row of another buffer. */
    static method CopyRow(a: array<byte>, stride: nat, r: Rect, y: nat,
                          src: seq<byte>, from: nat, sx: nat, sy: nat, ghost was: seq<byte>)
      requires 0 < stride && Lies(stride, |was|, r) && y < r.height
      requires Offset(from, sx, sy + y) + 4 * r.width <= |src|
      requires Applied(a[..], was, stride, r, Copy(src, from, sx, sy), y, 0)
      modifies a
      ensures Applied(a[..], was, stride, r, Copy(src, from, sx, sy), y + 1, 0)
    {
      hide Done, Applied, Lies;
      var o := Offset(from, sx, sy + y);
      var row := src[o..o + 4 * r.width];
      SliceHolds(src, from, sx, sy + y, r.width, row);
      WritesRow(a[..], was, stride, r, Copy(src, from, sx, sy), y, row);
      WriteBytes(a, Offset(stride, r.x, r.y + y), row);
    }

    static lemma WritesRow(now: seq<byte>, was: seq<byte>, stride: nat, r: Rect, op: Op, y: nat, bytes: seq<byte>)
      requires 0 < stride && Lies(stride, |was|, r) && y < r.height && |bytes| == 4 * r.width
      requires Applied(now, was, stride, r, op, y, 0)
      requires forall k: nat :: k < r.width ==>
                 PixelAt(bytes, 0, k, 0) == NewPixel(op, PixelAt(was, stride, r.x + k, r.y + y), k, y)
      ensures Offset(stride, r.x, r.y + y) + 4 * r.width <= |now|
      ensures Applied(Overwritten(now, Offset(stride, r.x, r.y + y), bytes), was, stride, r, op, y + 1, 0)
    {
      hide Done, Applied, Lies, PixelAt, NewPixel;
      RunWritten(now, was, stride, r, op, y, 0, r.width, bytes);
      RowDone(Overwritten(now, Offset(stride, r.x, r.y + y), bytes), was, stride, r, op, y);
    }

    /** Clear (0), restore (1) or save (2) one rectangle, row by row. */
    method Rectangle(f: Frame, op: nat)
      requires pixels != scratch && op <= 2 && 0 < stride && 0 < f.width
      requires Lies(stride, pixels.Length, RectOf(f))
      requires Lies(f.width * 4, scratch.Length, Rect(0, 0, f.width, f.height))
      modifies if op == 2 then scratch else pixels
      ensures op == 0 ==> Applied(pixels[..], old(pixels[..]), stride, RectOf(f), Wipe, f.height, 0)
      ensures op == 1 ==>
                Applied(pixels[..], old(pixels[..]), stride, RectOf(f), Copy(scratch[..], f.width * 4, 0, 0), f.height, 0)
      ensures op == 2 ==>
                Applied(scratch[..], old(scratch[..]), f.width * 4, Rect(0, 0, f.width, f.height),
                        Copy(pixels[..], stride, f.x, f.y), f.height, 0)
    {
      hide Done, Applied, Lies, PixelAt, NewPixel;
      var y := 0;
      var r, packed := RectOf(f), Rect(0, 0, f.width, f.height);
      ghost var canvas, backup := pixels[..], scratch[..];
      NothingApplied(canvas, stride, r, Wipe);
      NothingApplied(canvas, stride, r, Copy(backup, f.width * 4, 0, 0));
      NothingApplied(backup, f.width * 4, packed, Copy(canvas, stride, f.x, f.y));
      while y < f.height
        invariant 0 <= y <= f.height
        invariant op == 2 ==> pixels[..] == canvas
        invariant op != 2 ==> scratch[..] == backup
        invariant op == 0 ==> Applied(pixels[..], canvas, stride, r, Wipe, y, 0)
        invariant op == 1 ==> Applied(pixels[..], canvas, stride, r, Copy(backup, f.width * 4, 0, 0), y, 0)
        invariant op == 2 ==> Applied(scratch[..], backup, f.width * 4, packed, Copy(canvas, stride, f.x, f.y), y, 0)
      {
        RunFits(stride, pixels.Length, r, y, 0, f.width);
        RunFits(f.width * 4, scratch.Length, packed, y, 0, f.width);
        if op == 0 {
          WipeRow(pixels, stride, r, y, canvas);
        } else if op == 1 {
          CopyRow(pixels, stride, r, y, scratch[..], f.width * 4, 0, 0, canvas);
        } else {
          CopyRow(scratch, f.width * 4, packed, y, pixels[..], stride, f.x, f.y, backup);
        }
        y := y + 1;
      }
    }

    /** One pixel of OVER, exactly as the integer code computes it. */
    static method BlendPixel(a: array<byte>, o: nat, s: Pixel)
      requires o + 4 <= a.Length
      modifies a
      ensures var d := Pixel(old(a[o]), old(a[o + 1]), old(a[o + 2]), old(a[o + 3]));
              var p := Over(s, d);
              a[..] == Overwritten(old(a[..]), o, [p.r, p.g, p.b, p.a])
    {
      ghost var was := a[..];
      ghost var d := Pixel(a[o], a[o + 1], a[o + 2], a[o + 3]);
      var sa, da := s.a, a[o + 3];
      var inverse := 255 - sa;
      if sa == 0 {
        assert Overwritten(was, o, [d.r, d.g, d.b, d.a]) == was;
        return;
      }
      if sa == 255 {
        a[o], a[o + 1], a[o + 2], a[o + 3] := s.r, s.g, s.b, s.a;
        assert a[..] == Overwritten(was, o, [s.r, s.g, s.b, s.a]);
        return;
      }
      OverChannelBounds(s.r, sa, d.r, da);
      OverChannelBounds(s.g, sa, d.g, da);
      OverChannelBounds(s.b, sa, d.b, da);
      OverAlphaGrows(sa, da);
      var alpha := sa as int * 255 + da as int * inverse;
      assert alpha == Weight(sa, da);
      hide Weight;
      a[o] := (s.r as int * sa * 255 + a[o] as int * da * inverse + alpha / 2) / alpha;
      a[o + 1] := (s.g as int * sa * 255 + a[o + 1] as int * da * inverse + alpha / 2) / alpha;
      a[o + 2] := (s.b as int * sa * 255 + a[o + 2] as int * da * inverse + alpha / 2) / alpha;
      a[o + 3] := (alpha + 127) / 255;
      ghost var p := Over(s, d);
      assert a[..] == Overwritten(was, o, [p.r, p.g, p.b, p.a]);
    }

    static method BlendRow(a: array<byte>, stride: nat, r: Rect, y: nat, rgba: seq<byte>, from: nat, ghost was: seq<byte>)
      requires 0 < stride && Lies(stride, |was|, r) && y < r.height
      requires Offset(from, 0, y) + 4 * r.width <= |rgba|
      requires Applied(a[..], was, stride, r, Blend(rgba, from), y, 0)
      modifies a
      ensures Applied(a[..], was, stride, r, Blend(rgba, from), y + 1, 0)
    {
      hide Done, Applied, Lies, PixelAt, Offset, Over;
      var x := 0;
      while x < r.width
        invariant 0 <= x <= r.width && Applied(a[..], was, stride, r, Blend(rgba, from), y, x)
      {
        ghost var p := BlendStep(a[..], was, stride, r, y, x, rgba, from);
        var o, i := Offset(stride, r.x + x, r.y + y), Offset(from, x, y);
        BlendPixel(a, o, Pixel(rgba[i], rgba[i + 1], rgba[i + 2], rgba[i + 3]));
        x := x + 1;
      }
      RowDone(a[..], was, stride, r, Blend(rgba, from), y);
    }

    /** Blending the next pixel in place extends the rewritten part by that pixel. */
    static lemma BlendStep(now: seq<byte>, was: seq<byte>, stride: nat, r: Rect, y: nat, x: nat, rgba: seq<byte>, from: nat)
      returns (p: Pixel)
      requires 0 < stride && Lies(stride, |was|, r) && y < r.height && x < r.width
      requires Offset(from, 0, y) + 4 * r.width <= |rgba|
      requires Applied(now, was, stride, r, Blend(rgba, from), y, x)
      ensures Offset(stride, r.x + x, r.y + y) + 4 <= |now| && Offset(from, x, y) + 4 <= |rgba|
      ensures var o, i := Offset(stride, r.x + x, r.y + y), Offset(from, x, y);
              && p == Over(Pixel(rgba[i], rgba[i + 1], rgba[i + 2], rgba[i + 3]),
                           Pixel(now[o], now[o + 1], now[o + 2], now[o + 3]))
              && Applied(Overwritten(now, o, [p.r, p.g, p.b, p.a]), was, stride, r, Blend(rgba, from), y, x + 1)
    {
      hide Done, Applied, Lies, Over, Overwritten;
      NextPixelUntouched(now, was, stride, r, Blend(rgba, from), y, x);
      p := NewPixel(Blend(rgba, from), PixelAt(was, stride, r.x + x, r.y + y), x, y);
      PixelWritten(now, was, stride, r, Blend(rgba, from), y, x, p);
    }

    static function DrawOp(blend: byte, rgba: seq<byte>, from: nat): Op
    {
      if blend == 0 then Copy(rgba, from, 0, 0) else Blend(rgba, from)
    }

    /** SOURCE copies rows; OVER blends pixel by pixel. */
    method Draw(f: Frame, rgba: seq<byte>, from: nat)
      requires 0 < stride && Lies(stride, pixels.Length, RectOf(f)) && Lies(from, |rgba|, Rect(0, 0, f.width, f.height))
      modifies pixels
      ensures Applied(pixels[..], old(pixels[..]), stride, RectOf(f), DrawOp(f.blend, rgba, from), f.height, 0)
    {
      hide Done, Applied, Lies, PixelAt, NewPixel;
      var y := 0;
      var r := RectOf(f);
      ghost var canvas := pixels[..];
      NothingApplied(canvas, stride, r, DrawOp(f.blend, rgba, from));
      while y < f.height
        invariant 0 <= y <= f.height
        invariant Applied(pixels[..], canvas, stride, r, DrawOp(f.blend, rgba, from), y, 0)
      {
        RunFits(from, |rgba|, Rect(0, 0, f.width, f.height), y, 0, f.width);
        if f.blend == 0 {
          CopyRow(pixels, stride, r, y, rgba, from, 0, 0, canvas);
        } else {
          BlendRow(pixels, stride, r, y, rgba, from, canvas);
        }
        y := y + 1;
      }
    }

    // ----- what rectangle operations mean for the history -----

    /** Only canvas pixels are ever rewritten. */
    lemma PaddingKept(now: seq<byte>, was: seq<byte>, r: Rect, op: Op)
      requires 0 < stride && r.x + r.width <= width && r.y + r.height <= height
      requires Applied(now, was, stride, r, op, r.height, 0)
      ensures SamePadding(now, was)
    {
      hide PixelAt, NewPixel;
      forall i | 0 <= i < |was| && Padding(i)
        ensures now[i] == was[i]
      {
        assert !Done(stride, r, r.height, 0, i);
      }
    }

    lemma WipedShowsBefore(now: seq<byte>, was: seq<byte>, ls: seq<Layer>)
      requires ls != [] && Shows(was, ls) && width * 4 <= stride && 0 < stride
      requires var f := ls[|ls| - 1].frame; f.dispose == 1 && Applied(now, was, stride, RectOf(f), Wipe, f.height, 0)
      ensures ShowsBefore(now, ls)
    {
      hide Applied, PixelAt;
      var f := ls[|ls| - 1].frame;
      forall x: nat, y: nat | x < width && y < height
        ensures PixelAt(now, stride, x, y) == Before(ls, x, y)
      {
        AppliedEverywhere(now, was, stride, RectOf(f), Wipe, x, y);
      }
    }

    lemma RestoredShowsBefore(now: seq<byte>, was: seq<byte>, backup: seq<byte>, ls: seq<Layer>)
      requires ls != [] && Shows(was, ls) && width * 4 <= stride && 0 < stride
      requires var f := ls[|ls| - 1].frame;
               && f.dispose == 2 && BackedUp(backup, f, ls[..|ls| - 1])
               && Applied(now, was, stride, RectOf(f), Copy(backup, f.width * 4, 0, 0), f.height, 0)
      ensures ShowsBefore(now, ls)
    {
      hide Applied, PixelAt;
      var f := ls[|ls| - 1].frame;
      forall x: nat, y: nat | x < width && y < height
        ensures PixelAt(now, stride, x, y) == Before(ls, x, y)
      {
        AppliedEverywhere(now, was, stride, RectOf(f), Copy(backup, f.width * 4, 0, 0), x, y);
        if Inside(f, x, y) {
          assert PixelAt(backup, f.width * 4, x - f.x, y - f.y) == Before(ls[..|ls| - 1], x, y);
        }
      }
    }

    lemma KeptShowsBefore(s: seq<byte>, ls: seq<Layer>)
      requires Shows(s, ls) && (ls != [] ==> ls[|ls| - 1].frame.dispose == 0)
      ensures ShowsBefore(s, ls)
    {
      hide PixelAt;
    }

    lemma SavedBacksUp(now: seq<byte>, was: seq<byte>, canvas: seq<byte>, f: Frame, ls: seq<Layer>)
      requires ShowsBefore(canvas, ls) && FitsCanvas(width, height, f)
      requires Applied(now, was, f.width * 4, Rect(0, 0, f.width, f.height), Copy(canvas, stride, f.x, f.y), f.height, 0)
      ensures BackedUp(now, f, ls)
    {
      hide Applied, PixelAt;
      var packed := Rect(0, 0, f.width, f.height);
      forall x: nat, y: nat | x < f.width && y < f.height
        ensures PixelAt(now, f.width * 4, x, y) == Before(ls, f.x + x, f.y + y)
      {
        AppliedEverywhere(now, was, f.width * 4, packed, Copy(canvas, stride, f.x, f.y), x, y);
        assert PixelAt(canvas, stride, f.x + x, f.y + y) == Before(ls, f.x + x, f.y + y);
      }
    }

    lemma DrawnShows(now: seq<byte>, was: seq<byte>, l: Layer, ls: seq<Layer>)
      requires ShowsBefore(was, ls) && width * 4 <= stride && 0 < stride && l.frame.blend <= 1
      requires Applied(now, was, stride, RectOf(l.frame), DrawOp(l.frame.blend, l.rgba, l.stride), l.frame.height, 0)
      ensures Shows(now, ls + [l])
    {
      hide Applied, PixelAt;
      var f, all := l.frame, ls + [l];
      assert all[..|all| - 1] == ls;
      forall x: nat, y: nat | x < width && y < height
        ensures PixelAt(now, stride, x, y) == Shown(all, x, y)
      {
        AppliedEverywhere(now, was, stride, RectOf(f), DrawOp(f.blend, l.rgba, l.stride), x, y);
      }
    }

    // ----- the operations -----

    /** Transparent pixels, no history; padding stays. */
    method Reset()
      requires pixels != scratch && SpanAllowed(width, height, stride, pixels.Length)
      requires width * height * 4 <= scratch.Length
      modifies this, pixels
      ensures Valid() && layers == [] && SamePadding(pixels[..], old(pixels[..]))
    {
      hide Applied, Lies, PixelAt;
      var y := 0;
      var r := Rect(0, 0, width, height);
      ghost var was := pixels[..];
      WholeLies();
      NothingApplied(was, stride, r, Wipe);
      while y < height
        invariant 0 <= y <= height && Applied(pixels[..], was, stride, r, Wipe, y, 0)
      {
        WipeRow(pixels, stride, r, y, was);
        y := y + 1;
      }
      PaddingKept(pixels[..], was, r, Wipe);
      WipedShowsNothing(pixels[..], was);
      havePrevious := false;
      layers := [];
    }

    lemma WholeLies()
      requires SpanAllowed(width, height, stride, pixels.Length)
      ensures Lies(stride, pixels.Length, Rect(0, 0, width, height))
    {
    }

    lemma WipedShowsNothing(now: seq<byte>, was: seq<byte>)
      requires width * 4 <= stride && 0 < stride
      requires Applied(now, was, stride, Rect(0, 0, width, height), Wipe, height, 0)
      ensures Shows(now, [])
    {
      hide Applied, PixelAt;
      forall x: nat, y: nat | x < width && y < height
        ensures PixelAt(now, stride, x, y) == Shown([], x, y)
      {
        AppliedEverywhere(now, was, stride, Rect(0, 0, width, height), Wipe, x, y);
      }
    }

    constructor OnStorage(width: u32, height: u32, pixels: array<byte>, stride: u64, scratch: array<byte>)
      ensures this.width == width && this.height == height && this.stride == stride
      ensures this.pixels == pixels && this.scratch == scratch
    {
      this.width, this.height, this.stride := width, height, stride;
      this.pixels, this.scratch := pixels, scratch;
      havePrevious, layers := false, [];
      previous := Frame(0, 0, 0, 0, 0, 100, 0, 0, 0, 0, 0);
    }

    /** A canvas over caller storage, cleared; null if the storage cannot hold it. */
    static method Init(width: u32, height: u32, pixels: array<byte>, stride: u64, scratch: array<byte>) returns (c: Canvas?)
      requires pixels != scratch && pixels.Length <= SIZE_MAX
      modifies pixels
      ensures c != null <==> SpanAllowed(width, height, stride, pixels.Length) && width * height * 4 <= scratch.Length
      ensures c != null ==>
                && fresh(c) && c.Valid() && c.layers == [] && c.pixels == pixels && c.scratch == scratch
                && c.width == width && c.height == height && c.stride == stride
      ensures c == null ==> pixels[..] == old(pixels[..])
    {
      var spans := Span(width, height, stride, pixels.Length);
      if !spans || scratch.Length < width * height * 4 { return null; }
      c := new Canvas.OnStorage(width, height, pixels, stride, scratch);
      c.Reset();
    }

    /** Dispose of the last frame, back up what a PREVIOUS frame will need, draw. */
    method Compose(f: Frame, rgba: seq<byte>, from: u64) returns (ok: bool)
      requires Valid() && pixels.Length <= SIZE_MAX && |rgba| <= SIZE_MAX
      modifies this, pixels, scratch
      ensures Valid() && SamePadding(pixels[..], old(pixels[..]))
      ensures ok == (SpanAllowed(f.width, f.height, from, |rgba|) && FitsCanvas(width, height, f)
                     && f.dispose <= 2 && f.blend <= 1)
      ensures layers == if ok then old(layers) + [Layer(f, rgba, from)] else old(layers)
      ensures !ok ==> pixels[..] == old(pixels[..]) && scratch[..] == old(scratch[..]) && previous == old(previous)
    {
      var spans := Span(f.width, f.height, from, |rgba|);
      if !spans || f.x > width || f.y > height || f.width > width - f.x || f.height > height - f.y
         || f.dispose > 2 || f.blend > 1 {
        return false;
      }
      DisposeLast();
      label disposed:
      if f.dispose == 2 {
        RectangleLies(width, height, stride, pixels.Length, scratch.Length, f);
        Rectangle(f, 2);
        SavedBacksUp(scratch[..], old@disposed(scratch[..]), pixels[..], f, layers);
      }
      RectangleLies(width, height, stride, pixels.Length, scratch.Length, f);
      Draw(f, rgba, from);
      PaddingKept(pixels[..], old@disposed(pixels[..]), RectOf(f), DrawOp(f.blend, rgba, from));
      DrawnShows(pixels[..], old@disposed(pixels[..]), Layer(f, rgba, from), layers);
      previous, havePrevious := f, true;
      layers := layers + [Layer(f, rgba, from)];
      ok := true;
    }

    /** The disposal of the frame on display, which is only done when the next one arrives. */
    method DisposeLast()
      requires Valid()
      modifies pixels
      ensures ShowsBefore(pixels[..], layers) && SamePadding(pixels[..], old(pixels[..]))
    {
      if havePrevious {
        RectangleLies(width, height, stride, pixels.Length, scratch.Length, previous);
        if previous.dispose == 1 {
          Rectangle(previous, 0);
          PaddingKept(pixels[..], old(pixels[..]), RectOf(previous), Wipe);
          WipedShowsBefore(pixels[..], old(pixels[..]), layers);
          return;
        } else if previous.dispose == 2 {
          Rectangle(previous, 1);
          PaddingKept(pixels[..], old(pixels[..]), RectOf(previous), Copy(scratch[..], previous.width * 4, 0, 0));
          RestoredShowsBefore(pixels[..], old(pixels[..]), scratch[..], layers);
          return;
        }
      }
      KeptShowsBefore(pixels[..], layers);
    }
  }
}
