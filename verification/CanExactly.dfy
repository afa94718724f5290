/** Which streams of frames the receiver accepts as a capture, and what picture they then are. */
module CanExactly {
  import opened Prelude
  import opened CanCapture

  /** The frames of the capture protocol among all that arrive. */
  function Own(frames: seq<Frame>): (r: seq<Frame>)
    ensures forall f :: f in r ==> f.id == CAP_ID && |f.payload| == 8
  {
    if frames == [] then []
    else
      var rest := Own(frames[1..]);
      if frames[0].id == CAP_ID && |frames[0].payload| == 8 then [frames[0]] + rest else rest
  }

  /** A little-endian number of four bytes. */
  function Number(a: byte, b: byte, c: byte, d: byte): nat
  {
    a as int + 0x100 * b as int + 0x1_0000 * c as int + 0x100_0000 * d as int
  }

  /** A frame that opens a capture of a picture of this size and format. */
  predicate Opens(f: Frame, h: Header)
    requires |f.payload| == 8
  {
    var p := f.payload;
    p[7] == 1 && h == Header(Number(p[2], p[3], 0, 0), Number(p[4], p[5], 0, 0), p[6])
  }

  /** A picture that the receiver takes: known format, not empty, at most 64 MiB. */
  predicate Allowed(h: Header)
  {
    h.format <= 3 && h.width > 0 && h.height > 0 && h.width * h.height * BytesOf(h.format) <= 0x400_0000
  }

  /** Bytes of a pixel: RGB565, RGB888, and two formats of four bytes. */
  function BytesOf(format: nat): nat
  {
    if format == 0 then 2 else if format == 1 then 3 else 4
  }

  /** A run of pixels with the number that is due. */
  predicate Runs(f: Frame, number: nat)
    requires |f.payload| == 8
  {
    var p := f.payload;
    p[7] == 0 && Number(p[0], p[1], 0, 0) == number % 65536 && Number(p[2], p[3], 0, 0) > 0
  }

  /** Runs numbered without a gap. */
  predicate Numbered(runs: seq<Frame>, first: nat)
    requires forall f :: f in runs ==> |f.payload| == 8
  {
    forall k :: 0 <= k < |runs| ==> Runs(runs[k], first + k)
  }

  /** A frame that closes a capture of so many runs with a checksum. */
  predicate Closes(f: Frame, runs: nat, sum: u32)
    requires |f.payload| == 8
  {
    var p := f.payload;
    p[7] == 2 && Number(p[0], p[1], 0, 0) == runs % 65536 && Number(p[2], p[3], p[4], p[5]) == sum
  }

  /** The pixels of runs, one after the other. */
  function Pixels(runs: seq<Frame>, depth: nat): seq<byte>
    requires depth <= 4 && forall f :: f in runs ==> |f.payload| == 8
  {
    if runs == [] then []
    else
      var p := runs[0].payload;
      assert runs[0] in runs;
      Repeat(p[4..4 + depth], Number(p[2], p[3], 0, 0)) + Pixels(runs[1..], depth)
  }

  /** A whole capture with m runs: an opening frame, runs numbered from one without a gap, and a closing frame
      with their count and the checksum of the pixels, which fill the picture. */
  predicate Sent(g: seq<Frame>, m: nat, h: Header, raw: seq<byte>, crc: Checksum)
    requires forall f :: f in g ==> |f.payload| == 8
  {
    && m + 2 <= |g| && Opens(g[0], h) && Allowed(h)
    && Numbered(g[1..1 + m], 1)
    && raw == Pixels(g[1..1 + m], BytesOf(h.format)) && |raw| == h.width * h.height * BytesOf(h.format)
    && Closes(g[1 + m], m, crc(raw))
  }

  // ----- the proof -----

  /** Foreign frames make no difference. */
  lemma {:induction false} OwnDecides(s: State, frames: seq<Frame>, crc: Checksum)
    ensures DecodeFrom(s, frames, crc) == DecodeFrom(s, Own(frames), crc)
    decreases |frames|
  {
    hide OnBegin, OnData, OnEnd;
    if frames != [] {
      var f, rest := frames[0], Own(frames[1..]);
      if f.id == CAP_ID && |f.payload| == 8 {
        assert ([f] + rest)[1..] == rest;
        match Receive(s, f, crc)
        case Continue(t) => OwnDecides(t, frames[1..], crc);
        case Stop(_) =>
      } else {
        OwnDecides(s, frames[1..], crc);
      }
    }
  }

  /** What remains to arrive after the state s. */
  predicate Rest(s: State, h: Header, g: seq<Frame>, m: nat, raw: seq<byte>, crc: Checksum)
    requires forall f :: f in g ==> |f.payload| == 8
  {
    && m < |g| && h.format <= 3 && Numbered(g[..m], s.count + 1)
    && raw == s.raw + Pixels(g[..m], BytesOf(h.format)) && |raw| == Size(h)
    && Closes(g[m], s.count + m, crc(raw))
  }

  /** A state amid the runs. */
  predicate Amid(s: State, h: Header)
  {
    s.header == Some(h) && h.format <= 3 && s.want == (s.count + 1) % 65536 && |s.raw| <= Size(h)
  }

  lemma DepthIs(format: nat)
    ensures Depth(format) > 0 <==> format <= 3
    ensures format <= 3 ==> Depth(format) == BytesOf(format)
  {
  }

  lemma WordIs(a: byte, b: byte, c: byte, d: byte)
    ensures Word(a, b) == Number(a, b, 0, 0) && Word(a, b) + 65536 * Word(c, d) == Number(a, b, c, d)
  {
  }

  /** A run that is due is taken when it fits. */
  lemma RunTaken(s: State, h: Header, f: Frame, crc: Checksum)
    requires Amid(s, h) && f.id == CAP_ID && |f.payload| == 8
    ensures Runs(f, s.count + 1) && |s.raw| + Number(f.payload[2], f.payload[3], 0, 0) * BytesOf(h.format) <= Size(h) ==>
              var t := State(Some(h), s.raw + Repeat(f.payload[4..4 + BytesOf(h.format)], Number(f.payload[2], f.payload[3], 0, 0)),
                             (s.count + 2) % 65536, s.count + 1);
              Receive(s, f, crc) == Continue(t) && Amid(t, h)
    ensures f.payload[7] == 0 && !(Runs(f, s.count + 1) && |s.raw| + Number(f.payload[2], f.payload[3], 0, 0) * BytesOf(h.format) <= Size(h)) ==>
              Receive(s, f, crc).Stop? && Receive(s, f, crc).result.Error?
  {
    hide Size, Repeat, OnBegin, OnEnd, Word, Number;
    var p := f.payload;
    DepthIs(h.format);
    WordIs(p[0], p[1], 0, 0);
    WordIs(p[2], p[3], 0, 0);
    NextNumber(s.count + 1);
  }

  /** The other frames. */
  lemma OtherTaken(s: State, h: Header, f: Frame, crc: Checksum)
    requires Amid(s, h) && f.id == CAP_ID && |f.payload| == 8 && f.payload[7] != 0
    ensures var r := Receive(s, f, crc);
            r.Stop? && (r.result.Image? <==> |s.raw| == Size(h) && Closes(f, s.count, crc(s.raw)))
            && (r.result.Image? ==> r.result == Image(h, s.raw))
  {
    hide Size, OnData, Word, Number;
    var p := f.payload;
    WordIs(p[0], p[1], 0, 0);
    WordIs(p[2], p[3], p[4], p[5]);
  }

  lemma RepeatSize(s: State, h: Header, f: Frame, g: seq<Frame>, m: nat, raw: seq<byte>, crc: Checksum)
    requires g != [] && g[0] == f && forall x :: x in g ==> |x.payload| == 8
    requires Rest(s, h, g, m, raw, crc) && m > 0
    ensures |f.payload| == 8 && |s.raw| + Number(f.payload[2], f.payload[3], 0, 0) * BytesOf(h.format) <= Size(h)
  {
    hide Number, Size;
    assert f in g && g[..m][0] == f;
  }

  /** One run more stands before the rest. */
  lemma RestStep(s: State, h: Header, g: seq<Frame>, m: nat, raw: seq<byte>, crc: Checksum, t: State)
    requires g != [] && |g[0].payload| == 8 && (forall x :: x in g ==> |x.payload| == 8) && h.format <= 3 && Runs(g[0], s.count + 1)
    requires t.count == s.count + 1
    requires t.raw == s.raw + Repeat(g[0].payload[4..4 + BytesOf(h.format)], Number(g[0].payload[2], g[0].payload[3], 0, 0))
    ensures Rest(s, h, g, m + 1, raw, crc) <==> Rest(t, h, g[1..], m, raw, crc)
  {
    hide Number, Size, Repeat, Runs, Closes, Numbered, Pixels;
    if m + 1 <= |g| {
      var d, runs := BytesOf(h.format), g[1..][..m];
      assert g[..m + 1] == [g[0]] + runs;
      PixelsStep(g[0], runs, d);
      NumberedStep(g[0], runs, s.count + 1);
      var first := Repeat(g[0].payload[4..4 + d], Number(g[0].payload[2], g[0].payload[3], 0, 0));
      assert s.raw + (first + Pixels(runs, d)) == t.raw + Pixels(runs, d);
    }
  }

  lemma PixelsStep(f: Frame, runs: seq<Frame>, d: nat)
    requires d <= 4 && |f.payload| == 8 && forall x :: x in runs ==> |x.payload| == 8
    ensures Pixels([f] + runs, d) == Repeat(f.payload[4..4 + d], Number(f.payload[2], f.payload[3], 0, 0)) + Pixels(runs, d)
  {
    hide Number, Repeat;
    assert ([f] + runs)[1..] == runs;
  }

  lemma NumberedStep(f: Frame, runs: seq<Frame>, n: nat)
    requires |f.payload| == 8 && forall x :: x in runs ==> |x.payload| == 8
    ensures Numbered([f] + runs, n) <==> Runs(f, n) && Numbered(runs, n + 1)
  {
    hide Runs;
    var all := [f] + runs;
    if Numbered(all, n) {
      assert all[0] == f;
      forall k | 0 <= k < |runs| ensures Runs(runs[k], n + 1 + k) { assert all[k + 1] == runs[k]; }
    }
  }

  /** Amid the runs: accepted exactly when the rest is as it should be. */
  lemma {:induction false} RestExactly(s: State, h: Header, g: seq<Frame>, raw: seq<byte>, crc: Checksum)
    requires Amid(s, h) && forall f :: f in g ==> f.id == CAP_ID && |f.payload| == 8
    ensures DecodeFrom(s, g, crc) == Image(h, raw) <==> exists m: nat :: Rest(s, h, g, m, raw, crc)
    ensures DecodeFrom(s, g, crc).Image? ==> DecodeFrom(s, g, crc).header == h
    decreases |g|
  {
    hide Receive, Rest, Amid, Runs, Closes, Number, Size, Repeat, Pixels, Numbered;
    if g == [] {
      NothingRests(s, h, raw, crc);
    } else {
      var f, rest := g[0], g[1..];
      assert f in g;
      RunTaken(s, h, f, crc);
      if f.payload[7] == 0 {
        NotYet(s, h, g, raw, crc);
        forall m: nat | Rest(s, h, g, m, raw, crc) ensures Receive(s, f, crc).Continue? {
          FirstRuns(s, h, g, m, raw, crc);
          RepeatSize(s, h, f, g, m, raw, crc);
        }
        if Receive(s, f, crc).Continue? {
          AmidFormat(s, h);
          var t := Receive(s, f, crc).state;
          RestExactly(t, h, rest, raw, crc);
          forall m: nat ensures Rest(s, h, g, m + 1, raw, crc) <==> Rest(t, h, rest, m, raw, crc) { RestStep(s, h, g, m, raw, crc, t); }
          if exists m: nat :: Rest(s, h, g, m, raw, crc) {
            var m: nat :| Rest(s, h, g, m, raw, crc);
            assert m > 0;
            assert Rest(t, h, rest, m - 1, raw, crc);
          }
          if exists m: nat :: Rest(t, h, rest, m, raw, crc) {
            var m: nat :| Rest(t, h, rest, m, raw, crc);
            assert Rest(s, h, g, m + 1, raw, crc);
          }
        }
      } else {
        OtherTaken(s, h, f, crc);
        OnlyEnd(s, h, g, raw, crc);
      }
    }
  }

  lemma AmidFormat(s: State, h: Header)
    requires Amid(s, h)
    ensures h.format <= 3
  {
  }

  lemma NothingRests(s: State, h: Header, raw: seq<byte>, crc: Checksum)
    ensures forall m: nat :: !Rest(s, h, [], m, raw, crc)
  {
  }

  /** A run is not an end. */
  lemma NotYet(s: State, h: Header, g: seq<Frame>, raw: seq<byte>, crc: Checksum)
    requires g != [] && (forall f :: f in g ==> |f.payload| == 8) && |g[0].payload| == 8 && g[0].payload[7] == 0
    ensures !Rest(s, h, g, 0, raw, crc)
  {
  }

  lemma FirstRuns(s: State, h: Header, g: seq<Frame>, m: nat, raw: seq<byte>, crc: Checksum)
    requires g != [] && (forall f :: f in g ==> |f.payload| == 8) && |g[0].payload| == 8 && g[0].payload[7] == 0 && Rest(s, h, g, m, raw, crc)
    ensures m > 0 && Runs(g[0], s.count + 1)
  {
    hide Number, Pixels, Size;
    if m > 0 { assert g[..m][0] == g[0]; }
  }

  lemma FirstOf(g: seq<Frame>, m: nat)
    ensures 0 < m <= |g| ==> g[..m][0] == g[0]
  {
  }

  /** Any other frame can only be the end. */
  lemma OnlyEnd(s: State, h: Header, g: seq<Frame>, raw: seq<byte>, crc: Checksum)
    requires Amid(s, h) && g != [] && (forall f :: f in g ==> |f.payload| == 8) && |g[0].payload| == 8 && g[0].payload[7] != 0
    ensures (exists m: nat :: Rest(s, h, g, m, raw, crc)) <==> raw == s.raw && |s.raw| == Size(h) && Closes(g[0], s.count, crc(s.raw))
  {
    hide Number, Size;
    assert g[..0] == [];
    if exists m: nat :: Rest(s, h, g, m, raw, crc) {
      var m: nat :| Rest(s, h, g, m, raw, crc);
      FirstOf(g, m);
    }
    if raw == s.raw && |s.raw| == Size(h) && Closes(g[0], s.count, crc(s.raw)) { assert Rest(s, h, g, 0, raw, crc); }
  }

  /** The receiver accepts a stream as this picture exactly when its capture frames are a whole capture of it;
      foreign frames between them, and anything after the closing frame, make no difference. */
  lemma DecodeExactly(frames: seq<Frame>, h: Header, raw: seq<byte>, crc: Checksum)
    ensures Decode(frames, crc) == Image(h, raw) <==> exists m: nat :: Sent(Own(frames), m, h, raw, crc)
  {
    hide Receive, Sent, Own;
    var g := Own(frames);
    OwnDecides(START, frames, crc);
    if g == [] {
      NothingSent(h, raw, crc);
    } else {
      assert g[0] in g;
      FirstTaken(g[0], crc);
      var o := HeaderOf(g[0]);
      if g[0].payload[7] == 1 && Allowed(o) {
        RestExactly(State(Some(o), [], 1, 0), o, g[1..], raw, crc);
        SentRests(g, o, h, raw, crc);
      } else {
        NeverSent(g, h, raw, crc);
      }
    }
  }

  lemma NothingSent(h: Header, raw: seq<byte>, crc: Checksum)
    ensures forall m: nat :: !Sent([], m, h, raw, crc)
  {
  }

  function HeaderOf(f: Frame): Header
    requires |f.payload| == 8
  {
    Header(Number(f.payload[2], f.payload[3], 0, 0), Number(f.payload[4], f.payload[5], 0, 0), f.payload[6])
  }

  lemma FirstTaken(f: Frame, crc: Checksum)
    requires f.id == CAP_ID && |f.payload| == 8
    ensures var h := HeaderOf(f);
            if f.payload[7] == 1 && Allowed(h) then Receive(START, f, crc) == Continue(State(Some(h), [], 1, 0)) && Amid(State(Some(h), [], 1, 0), h)
            else Receive(START, f, crc).Stop? && Receive(START, f, crc).result.Error?
  {
    hide Number, Word;
    var p := f.payload;
    WordIs(p[2], p[3], 0, 0);
    WordIs(p[4], p[5], 0, 0);
    DepthIs(p[6]);
  }

  lemma NeverSent(g: seq<Frame>, h: Header, raw: seq<byte>, crc: Checksum)
    requires g != [] && (forall f :: f in g ==> |f.payload| == 8) && |g[0].payload| == 8
    requires !(g[0].payload[7] == 1 && Allowed(HeaderOf(g[0])))
    ensures forall m: nat :: !Sent(g, m, h, raw, crc)
  {
    hide Number;
  }

  lemma SentRests(g: seq<Frame>, o: Header, h: Header, raw: seq<byte>, crc: Checksum)
    requires g != [] && (forall f :: f in g ==> |f.payload| == 8) && |g[0].payload| == 8
    requires g[0].payload[7] == 1 && Allowed(o) && o == HeaderOf(g[0])
    ensures forall m: nat :: Sent(g, m, h, raw, crc) <==> h == o && Rest(State(Some(o), [], 1, 0), o, g[1..], m, raw, crc)
  {
    forall m: nat ensures Sent(g, m, h, raw, crc) <==> h == o && Rest(State(Some(o), [], 1, 0), o, g[1..], m, raw, crc) {
      SentRest(g, m, o, h, raw, crc);
    }
  }

  lemma SentRest(g: seq<Frame>, m: nat, o: Header, h: Header, raw: seq<byte>, crc: Checksum)
    requires g != [] && (forall f :: f in g ==> |f.payload| == 8) && |g[0].payload| == 8
    requires g[0].payload[7] == 1 && Allowed(o) && o == HeaderOf(g[0])
    ensures Sent(g, m, h, raw, crc) <==> h == o && Rest(State(Some(o), [], 1, 0), o, g[1..], m, raw, crc)
  {
    hide Number, Pixels, Runs, Closes, Numbered;
    DepthIs(o.format);
    if m + 2 <= |g| {
      assert g[1..][..m] == g[1..1 + m];
      assert [] + Pixels(g[1..1 + m], BytesOf(o.format)) == Pixels(g[1..1 + m], BytesOf(o.format));
    }
  }

  /** The encoder's runs are as long as they can be: a run ends where the pixels end, at the largest count, or
      before a different pixel. */
  lemma {:induction false} RunIsLongest(pixels: seq<byte>, depth: nat, n: nat, i: nat, run: nat)
    requires i < n && 0 < run <= n - i && run <= 65535 && n * depth <= |pixels|
    ensures var r := RunFrom(pixels, depth, n, i, run);
            r == n - i || r == 65535 || (i + r < n && !Same(pixels, depth, n, i, i + r))
    decreases n - i - run
  {
    hide Same;
    if i + run < n && run < 65535 && Same(pixels, depth, n, i, i + run) { RunIsLongest(pixels, depth, n, i, run + 1); }
  }
}
