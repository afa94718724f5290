/**
 Print/parse round trip of the container: a frame written as a standalone PNG is accepted again
 as a one-frame document with the same colour chunks and payload, and writing that frame again
 reproduces the same bytes.
 */
module ApngRoundTrip {
  import opened Prelude
  import opened ApngContainer
  import opened ApngAccepted

  // ----- the copied prefix -----

  /** The validator's state on the copy: what the colour chunks set, and nothing else. */
  ghost function AsPlain(v: Check, start: Check): Check
  {
    start.(doc := start.doc.(prefixBytes := v.doc.prefixBytes), plte := v.plte, trns := v.trns, palette := v.palette)
  }

  ghost predicate PlainStart(start: Check, v: Check)
  {
    && start.color == v.color && start.depth == v.depth
    && !start.idat && !start.idatEnd && !start.active && !start.ended && !start.doc.animated
    && start.defaultPayload == 0 && start.doc.frames == 1
  }

  /** A colour chunk acts on the copy's state as it did on the original's; others leave no trace. */
  lemma PlainStep(crc: Checksum, limits: Limits, size: nat, pos: nat, c: Chunk, v: Check, start: Check, copySize: nat, q: nat)
    requires |c.name| == 4 && 33 <= pos && 33 <= q && !v.idat && PlainStart(start, v)
    requires Inspect(crc, limits, size, pos, c, v).Some? && c.kind != Idat && c.kind != Fdat && c.kind != Iend
    ensures var u := Inspect(crc, limits, size, pos, c, v).value;
            if IsPrefix(c) then Inspect(crc, limits, copySize, q, c, AsPlain(v, start)) == Some(AsPlain(u, start))
            else AsPlain(u, start) == AsPlain(v, start)
  {
    hide NamedAndSummed, OnKind, AsPlain;
    if IsPrefix(c) {
      PlainKind(limits, size, pos, c, v, start, copySize, q);
    } else {
      UnmarkedKind(limits, size, pos, c, v, start);
    }
    PlainPrefix(OnKind(limits, size, pos, c, v).value, start);
    PlainPrefix(v, start);
  }

  lemma PlainKind(limits: Limits, size: nat, pos: nat, c: Chunk, v: Check, start: Check, copySize: nat, q: nat)
    requires |c.name| == 4 && 33 <= pos && 33 <= q && !v.idat && PlainStart(start, v) && IsPrefix(c)
    requires OnKind(limits, size, pos, c, v).Some? && c.kind != Idat && c.kind != Fdat && c.kind != Iend
    ensures var w := OnKind(limits, size, pos, c, v).value;
            && OnKind(limits, copySize, q, c, AsPlain(v, start)) == Some(AsPlain(w, start))
            && !w.idat && w.doc.prefixBytes == v.doc.prefixBytes
  {
    hide Ancillary, OnAnimation, OnControl, OnImage, OnFrameData, OnEnd, OnPalette, OnTransparency, AsPlain;
    match c.kind
    case Plte => PlainPalette(c, v, start);
    case Trns => PlainTransparency(c, v, start);
    case _ =>
  }

  lemma PlainPalette(c: Chunk, v: Check, start: Check)
    requires !v.idat && PlainStart(start, v) && OnPalette(c, v).Some?
    ensures var w := OnPalette(c, v).value;
            OnPalette(c, AsPlain(v, start)) == Some(AsPlain(w, start))
            && !w.idat && w.doc.prefixBytes == v.doc.prefixBytes
  {
  }

  lemma PlainTransparency(c: Chunk, v: Check, start: Check)
    requires !v.idat && PlainStart(start, v) && OnTransparency(c, v).Some?
    ensures var w := OnTransparency(c, v).value;
            OnTransparency(c, AsPlain(v, start)) == Some(AsPlain(w, start))
            && !w.idat && w.doc.prefixBytes == v.doc.prefixBytes
  {
  }

  lemma UnmarkedKind(limits: Limits, size: nat, pos: nat, c: Chunk, v: Check, start: Check)
    requires |c.name| == 4 && !v.idat && !IsPrefix(c) && OnKind(limits, size, pos, c, v).Some?
    ensures var w := OnKind(limits, size, pos, c, v).value;
            AsPlain(w, start) == AsPlain(v, start) && !w.idat && w.doc.prefixBytes == v.doc.prefixBytes
  {
    hide OnAnimation, OnControl, OnImage, OnFrameData, OnPalette, OnTransparency, OnEnd, AsPlain, Ancillary;
    if c.kind == Actl {
      UnmarkedAnimation(limits, c, v, start);
    } else if c.kind == Fctl {
      UnmarkedControl(c, v, start);
    }
  }

  lemma UnmarkedAnimation(limits: Limits, c: Chunk, v: Check, start: Check)
    requires !v.idat && OnAnimation(limits, c, v).Some?
    ensures var w := OnAnimation(limits, c, v).value;
            AsPlain(w, start) == AsPlain(v, start) && !w.idat && w.doc.prefixBytes == v.doc.prefixBytes
  {
  }

  lemma UnmarkedControl(c: Chunk, v: Check, start: Check)
    requires !v.idat && OnControl(c, v).Some?
    ensures var w := OnControl(c, v).value;
            AsPlain(w, start) == AsPlain(v, start) && !w.idat && w.doc.prefixBytes == v.doc.prefixBytes
  {
  }

  lemma PlainPrefix(v: Check, start: Check)
    ensures AsPlain(v, start).doc.prefixBytes == v.doc.prefixBytes && AsPlain(v, start).idat == start.idat
    ensures forall bytes: nat ::
              AsPlain(v.(doc := v.doc.(prefixBytes := bytes)), start)
              == AsPlain(v, start).(doc := AsPlain(v, start).doc.(prefixBytes := bytes))
  {
  }

  ghost predicate At(data: seq<byte>, pos: nat, part: seq<byte>)
  {
    pos + |part| <= |data| && data[pos..pos + |part|] == part
  }

  lemma SplitAt(data: seq<byte>, pos: nat, a: seq<byte>, b: seq<byte>)
    requires At(data, pos, a + b)
    ensures At(data, pos, a) && At(data, pos + |a|, b)
  {
    var s := a + b;
    assert s[0..|s|] == s;
    Window(data, pos, s, 0, |s|, 0, |a|);
    Window(data, pos, s, 0, |s|, |a|, |s|);
    assert s[0..|a|] == a && s[|a|..|s|] == b;
  }

  /** The next copied chunk, if this one belongs to the prefix at all. */
  lemma CopiedChunk(data: seq<byte>, pos: nat, end: nat, c: Chunk, p: seq<byte>, copy: seq<byte>, q: nat)
    returns (rest: seq<byte>)
    requires ChunkAt(data, pos) == Some(c) && pos < end && Prefixes(data, pos, end) == Some(p)
    requires At(copy, q, p)
    ensures Prefixes(data, pos + Size(c), end) == Some(rest)
    ensures !IsPrefix(c) ==> rest == p
    ensures IsPrefix(c) ==>
              && |p| == Size(c) + |rest| && ChunkAt(copy, q) == Some(c)
              && p == copy[q..q + Size(c)] + rest && At(copy, q + Size(c), rest)
  {
    hide *;
    rest := PrefixesUnfold(data, pos, end, c, p);
    if IsPrefix(c) {
      var chunk := data[pos..pos + Size(c)];
      SplitAt(copy, q, chunk, rest);
      Located(copy, q, chunk);
      SameChunk(data, pos, copy, q);
    }
  }

  lemma PrefixesUnfold(data: seq<byte>, pos: nat, end: nat, c: Chunk, p: seq<byte>) returns (rest: seq<byte>)
    requires ChunkAt(data, pos) == Some(c) && pos < end && Prefixes(data, pos, end) == Some(p)
    ensures pos + Size(c) <= |data| && Prefixes(data, pos + Size(c), end) == Some(rest)
    ensures p == if IsPrefix(c) then data[pos..pos + Size(c)] + rest else rest
  {
    hide ChunkAt;
    rest := Prefixes(data, pos + Size(c), end).value;
  }

  /** The scan and the enumerator, both reading the copy, get from one position to another. */
  ghost predicate Passed(crc: Checksum, limits: Limits, e: Doc, q: nat, v: Check, g: Gather, stop: nat, u: Check, h: Gather)
  {
    && Scan(crc, limits, e.data, q, v) == Scan(crc, limits, e.data, stop, u)
    && Collect(e, q, g) == Collect(e, stop, h)
  }

  lemma PassOne(crc: Checksum, limits: Limits, e: Doc, q: nat, c: Chunk, v: Check, g: Gather, w: Check, h: Gather,
                stop: nat, u: Check, k: Gather)
    requires ChunkAt(e.data, q) == Some(c) && Inspect(crc, limits, |e.data|, q, c, v) == Some(w)
    requires GatherOne(e, q, c, g) == Some(h) && !(g.haveData && (c.kind == Fctl || c.kind == Iend))
    requires Passed(crc, limits, e, q + Size(c), w, h, stop, u, k)
    ensures Passed(crc, limits, e, q, v, g, stop, u, k)
  {
    hide Inspect, GatherOne, ChunkAt;
    ScanOne(crc, limits, e.data, q, c, v, w);
    CollectOne(e, q, c, g, h);
    hide Scan, Collect;
  }

  lemma ScanOne(crc: Checksum, limits: Limits, data: seq<byte>, pos: nat, c: Chunk, v: Check, w: Check)
    requires ChunkAt(data, pos) == Some(c) && Inspect(crc, limits, |data|, pos, c, v) == Some(w)
    ensures Scan(crc, limits, data, pos, v) == Scan(crc, limits, data, pos + Size(c), w)
  {
    hide ChunkAt, Inspect;
  }

  lemma CollectOne(d: Doc, pos: nat, c: Chunk, g: Gather, h: Gather)
    requires ChunkAt(d.data, pos) == Some(c) && GatherOne(d, pos, c, g) == Some(h)
    requires !(g.haveData && (c.kind == Fctl || c.kind == Iend))
    ensures Collect(d, pos, g) == Collect(d, pos + Size(c), h)
  {
    hide ChunkAt, GatherOne;
  }

  lemma PrefixesOne(data: seq<byte>, pos: nat, end: nat, c: Chunk, rest: seq<byte>)
    requires pos < end && ChunkAt(data, pos) == Some(c) && IsPrefix(c) && Prefixes(data, pos + Size(c), end) == Some(rest)
    ensures Prefixes(data, pos, end) == Some(data[pos..pos + Size(c)] + rest)
  {
    hide ChunkAt;
  }

  lemma PrefixGoesOn(crc: Checksum, limits: Limits, data: seq<byte>, pos: nat, v: Check, final: Check) returns (c: Chunk)
    requires Reading(crc, limits, data, pos, v, final) && 33 <= pos && !v.idat && !v.ended
    ensures pos <= final.doc.prefixEnd && pos < |data| && ChunkAt(data, pos) == Some(c) && |c.name| == 4 && Size(c) > 0
    ensures pos == final.doc.prefixEnd ==> c.kind == Idat && v.doc.prefixBytes == final.doc.prefixBytes
    ensures Prefixes(data, pos, final.doc.prefixEnd).Some?
  {
    var _ := PrefixFacts(crc, limits, data, pos, v);
    c := ChunkAt(data, pos).value;
  }

  lemma PassesBy(e: Doc, q: nat, c: Chunk, g: Gather)
    requires IsPrefix(c) && c.kind != Idat && c.kind != Fdat
    ensures GatherOne(e, q, c, g) == Some(g) && c.kind != Fctl
  {
    hide Control;
  }

  lemma NothingLeft(crc: Checksum, limits: Limits, data: seq<byte>, end: nat, p: seq<byte>, e: Doc, q: nat, v: Check, g: Gather)
    requires Prefixes(data, end, end) == Some(p)
    ensures p == [] && Prefixes(e.data, q, q) == Some(p) && Passed(crc, limits, e, q, v, g, q, v, g)
  {
    hide Scan, Collect;
  }

  lemma StillPlain(crc: Checksum, limits: Limits, data: seq<byte>, pos: nat, c: Chunk, v: Check, w: Check, final: Check,
                   start: Check)
    requires |c.name| == 4 && Reading(crc, limits, data, pos, v, final) && 33 <= pos && PlainStart(start, v)
    requires Inspect(crc, limits, |data|, pos, c, v) == Some(w)
    ensures PlainStart(start, w)
  {
    hide Inspect, Scan;
    InspectKeeps(crc, limits, data, pos, c, v);
  }

  /** Reading the copied prefix: the scan arrives at the state it had before the first image
      chunk, the enumerator passes over it, and its own prefix is the same bytes. */
  lemma {:induction false} PrefixCopied(
    crc: Checksum, limits: Limits, data: seq<byte>, pos: nat, v: Check, final: Check, p: seq<byte>,
    e: Doc, q: nat, stop: nat, start: Check, g: Gather)
    returns (u: Check)
    requires stop == q + |p|
    requires Reading(crc, limits, data, pos, v, final) && 33 <= pos && 33 <= q
    requires !v.idat && !v.ended && PlainStart(start, v)
    requires Prefixes(data, pos, final.doc.prefixEnd) == Some(p) && At(e.data, q, p)
    requires !e.animated && !g.haveData && !g.haveControl
    ensures PlainStart(start, u) && (u.color == 3 ==> u.plte) && u.doc.prefixBytes == final.doc.prefixBytes
    ensures Passed(crc, limits, e, q, AsPlain(v, start), g, stop, AsPlain(u, start), g)
    ensures Prefixes(e.data, q, stop) == Some(p)
    decreases |data| - pos
  {
    hide *;
    var end := final.doc.prefixEnd;
    var c := PrefixGoesOn(crc, limits, data, pos, v, final);
    var w := ScanStep(crc, limits, data, pos, c, v, final);
    if w.idat {
      u := v;
      NothingLeft(crc, limits, data, pos, p, e, q, AsPlain(v, start), g);
    } else {
      PlainStep(crc, limits, |data|, pos, c, v, start, |e.data|, q);
      var n := Size(c);
      StillPlain(crc, limits, data, pos, c, v, w, final, start);
      var _ := PrefixGoesOn(crc, limits, data, pos + n, w, final);
      var rest := CopiedChunk(data, pos, end, c, p, e.data, q);
      if IsPrefix(c) {
        u := PrefixCopied(crc, limits, data, pos + n, w, final, rest, e, q + n, stop, start, g);
        PassesBy(e, q, c, g);
        PassOne(crc, limits, e, q, c, AsPlain(v, start), g, AsPlain(w, start), g, stop, AsPlain(u, start), g);
        PrefixesOne(e.data, q, stop, c, rest);
      } else {
        u := PrefixCopied(crc, limits, data, pos + n, w, final, rest, e, q, stop, start, g);
      }
    }
  }

  // ----- the written images and the end -----

  lemma WrittenKinds()
    ensures KindOf(IHDR) == Ihdr && KindOf(IDAT) == Idat && KindOf(IEND) == Iend
  {
    assert IHDR[1] == 72 && IDAT[1] == 68 && IEND[1] == 69;
    assert PLTE[0] == 80 && TRNS[0] == 116 && IEND[0] == 73;
  }

  function ImageChunk(crc: Checksum, body: seq<byte>): Chunk
  {
    Chunk(IDAT, Idat, body, crc(IDAT + body))
  }

  ghost function AfterImages(v: Check, q: nat, payload: nat): Check
  {
    v.(idat := true, defaultPayload := v.defaultPayload + payload,
       doc := if v.idat then v.doc else v.doc.(prefixEnd := q),
       includedDefault := if v.idat then v.includedDefault else v.active)
  }

  ghost function GatherImages(g: Gather, q: nat, size: nat): Gather
  {
    Gather(g.frame.(dataStart := if g.haveData then g.frame.dataStart else q, dataEnd := q + size),
           g.haveControl, true, g.bytes + size)
  }

  ghost predicate ImageReady(v: Check, q: nat)
  {
    !v.active && !v.idatEnd && (v.color == 3 ==> v.plte) && v.defaultPayload <= q
  }

  lemma ImageStep(crc: Checksum, limits: Limits, e: Doc, q: nat, c: Chunk, body: seq<byte>, v: Check, g: Gather)
    requires c == ImageChunk(crc, body) && 33 <= q && q + |body| <= SIZE_MAX && ImageReady(v, q)
    requires !e.animated && g.bytes + |body| + 12 <= e.maxFramePngBytes
    ensures c.kind == Idat && Size(c) == |body| + 12
    ensures Inspect(crc, limits, |e.data|, q, c, v) == Some(AfterImages(v, q, |body|))
    ensures GatherOne(e, q, c, g) == Some(GatherImages(g, q, |body| + 12))
  {
    assert NamedAndSummed(crc, c);
    hide NamedAndSummed;
  }

  lemma PiecesOne(data: seq<byte>, pos: nat, end: nat, c: Chunk, rest: seq<seq<byte>>)
    requires pos + Size(c) <= end && ChunkAt(data, pos) == Some(c) && c.kind == Idat
    requires Pieces(data, pos + Size(c), end) == Some(rest)
    ensures Pieces(data, pos, end) == Some([c.body] + rest)
  {
    hide ChunkAt;
    assert c.body[0..] == c.body;
  }

  /** The first of several written images. */
  lemma FirstImage(crc: Checksum, data: seq<byte>, q: nat, pieces: seq<seq<byte>>) returns (c: Chunk)
    requires pieces != [] && Writable(pieces) && At(data, q, Images(crc, pieces))
    ensures var n := |pieces[0]| + 12;
            && Writable(pieces[1..]) && q + n + WireSize(pieces[1..]) == q + WireSize(pieces) <= |data|
            && At(data, q + n, Images(crc, pieces[1..]))
            && c == ImageChunk(crc, pieces[0]) && ChunkAt(data, q) == Some(c)
            && Total(pieces) == |pieces[0]| + Total(pieces[1..])
  {
    hide ChunkAt, KindOf, Wire, At;
    var wire, rest := Wire(crc, IDAT, pieces[0]), Images(crc, pieces[1..]);
    assert Images(crc, pieces) == wire + rest;
    SplitAt(data, q, wire, rest);
    Located(data, q, wire);
    Located(data, q + |wire|, rest);
    WrittenChunk(crc, IDAT, pieces[0], data, q);
    WrittenKinds();
    c := ImageChunk(crc, pieces[0]);
  }

  lemma Located(data: seq<byte>, pos: nat, part: seq<byte>)
    requires At(data, pos, part)
    ensures pos + |part| <= |data| && data[pos..pos + |part|] == part
  {
  }

  ghost predicate ImagesPassed(
    crc: Checksum, limits: Limits, e: Doc, q: nat, stop: nat, pieces: seq<seq<byte>>, v: Check, g: Gather)
  {
    && Passed(crc, limits, e, q, v, g, stop, AfterImages(v, q, Total(pieces)), GatherImages(g, q, WireSize(pieces)))
    && Pieces(e.data, q, stop) == Some(pieces)
  }

  ghost predicate ImagesWritten(crc: Checksum, e: Doc, q: nat, stop: nat, pieces: seq<seq<byte>>)
  {
    pieces != [] && Writable(pieces) && At(e.data, q, Images(crc, pieces)) && stop == q + WireSize(pieces)
  }

  /** One image, then the others if there are any. */
  lemma FirstThenRest(
    crc: Checksum, limits: Limits, e: Doc, q: nat, stop: nat, pieces: seq<seq<byte>>, v: Check, g: Gather)
    requires ImagesWritten(crc, e, q, stop, pieces)
    requires |e.data| <= SIZE_MAX && 33 <= q && !e.animated && ImageReady(v, q)
    requires g.bytes + |pieces[0]| + 12 <= e.maxFramePngBytes
    requires var n, s := |pieces[0]|, |pieces[0]| + 12;
             if |pieces| == 1 then q + s == stop
             else ImagesPassed(crc, limits, e, q + s, stop, pieces[1..], AfterImages(v, q, n), GatherImages(g, q, s))
    ensures ImagesPassed(crc, limits, e, q, stop, pieces, v, g)
  {
    var c := FirstImage(crc, e.data, q, pieces);
    FirstPasses(crc, limits, e, q, stop, c, pieces, v, g);
    FirstPiece(crc, limits, e, q, stop, c, pieces, v, g);
  }

  lemma FirstPasses(
    crc: Checksum, limits: Limits, e: Doc, q: nat, stop: nat, c: Chunk, pieces: seq<seq<byte>>, v: Check, g: Gather)
    requires pieces != [] && c == ImageChunk(crc, pieces[0]) && ChunkAt(e.data, q) == Some(c)
    requires q + |pieces[0]| <= SIZE_MAX && 33 <= q && !e.animated && ImageReady(v, q)
    requires g.bytes + |pieces[0]| + 12 <= e.maxFramePngBytes
    requires var s, rest := |pieces[0]| + 12, pieces[1..];
             var w, h := AfterImages(v, q, |pieces[0]|), GatherImages(g, q, s);
             if |pieces| == 1 then q + s == stop
             else Passed(crc, limits, e, q + s, w, h, stop,
                         AfterImages(w, q + s, Total(rest)), GatherImages(h, q + s, WireSize(rest)))
    ensures Passed(crc, limits, e, q, v, g, stop, AfterImages(v, q, Total(pieces)), GatherImages(g, q, WireSize(pieces)))
  {
    hide *;
    var n, s, rest := |pieces[0]|, |pieces[0]| + 12, pieces[1..];
    var w, h := AfterImages(v, q, n), GatherImages(g, q, s);
    ImageStep(crc, limits, e, q, c, pieces[0], v, g);
    if |pieces| == 1 {
      NoPieces(crc, limits, e, stop, w, h);
    }
    ImagesCompose(v, g, q, pieces);
    PassOne(crc, limits, e, q, c, v, g, w, h, stop, AfterImages(v, q, Total(pieces)), GatherImages(g, q, WireSize(pieces)));
  }

  lemma ImagesCompose(v: Check, g: Gather, q: nat, pieces: seq<seq<byte>>)
    requires pieces != []
    ensures var n, s, rest := |pieces[0]|, |pieces[0]| + 12, pieces[1..];
            var w, h := AfterImages(v, q, n), GatherImages(g, q, s);
            var u, k := AfterImages(v, q, Total(pieces)), GatherImages(g, q, WireSize(pieces));
            if |pieces| == 1 then u == w && k == h
            else u == AfterImages(w, q + s, Total(rest)) && k == GatherImages(h, q + s, WireSize(rest))
  {
    assert |pieces| == 1 ==> pieces[1..] == [];
  }

  lemma FirstPiece(
    crc: Checksum, limits: Limits, e: Doc, q: nat, stop: nat, c: Chunk, pieces: seq<seq<byte>>, v: Check, g: Gather)
    requires pieces != [] && c == ImageChunk(crc, pieces[0]) && ChunkAt(e.data, q) == Some(c)
    requires var n, s := |pieces[0]|, |pieces[0]| + 12;
             if |pieces| == 1 then q + s == stop
             else q + s <= stop && ImagesPassed(crc, limits, e, q + s, stop, pieces[1..], AfterImages(v, q, n), GatherImages(g, q, s))
    ensures Pieces(e.data, q, stop) == Some(pieces)
  {
    hide ChunkAt, Passed, AfterImages, GatherImages, Pieces;
    var rest := pieces[1..];
    if |pieces| == 1 {
      NoPieces(crc, limits, e, stop, v, g);
      assert rest == [];
    }
    PiecesOne(e.data, q, stop, c, rest);
    assert [pieces[0]] + rest == pieces;
  }

  /** Reading the written images back. */
  lemma {:induction false} ImagesRead(
    crc: Checksum, limits: Limits, e: Doc, q: nat, stop: nat, pieces: seq<seq<byte>>, v: Check, g: Gather)
    requires ImagesWritten(crc, e, q, stop, pieces)
    requires |e.data| <= SIZE_MAX && 33 <= q && !e.animated && ImageReady(v, q)
    requires g.bytes + WireSize(pieces) <= e.maxFramePngBytes
    ensures ImagesPassed(crc, limits, e, q, stop, pieces, v, g)
    decreases |pieces|
  {
    hide ImagesPassed, Images, At, ChunkAt;
    var _ := FirstImage(crc, e.data, q, pieces);
    var n, s := |pieces[0]|, |pieces[0]| + 12;
    if |pieces| > 1 {
      ImagesRead(crc, limits, e, q + s, stop, pieces[1..], AfterImages(v, q, n), GatherImages(g, q, s));
    }
    FirstThenRest(crc, limits, e, q, stop, pieces, v, g);
  }

  lemma NoPieces(crc: Checksum, limits: Limits, e: Doc, pos: nat, v: Check, g: Gather)
    ensures Pieces(e.data, pos, pos) == Some([]) && Passed(crc, limits, e, pos, v, g, pos, v, g)
  {
    hide Scan, Collect;
  }

  /** The end chunk is accepted as the last one and closes the frame. */
  lemma EndRead(crc: Checksum, limits: Limits, e: Doc, q: nat, v: Check, g: Gather)
    requires At(e.data, q, Wire(crc, IEND, [])) && q + 12 == |e.data| && 33 <= q
    requires v.idat && v.defaultPayload > 0 && !v.doc.animated && g.haveData
    ensures Scan(crc, limits, e.data, q, v) == Some(v.(idatEnd := true, ended := true))
    ensures Collect(e, q, g) == Some((g.frame.(pngBytes := g.bytes), |e.data|))
  {
    hide NamedAndSummed, ChunkAt, KindOf, Inspect, Wire, Scan, Collect;
    WrittenChunk(crc, IEND, [], e.data, q);
    WrittenKinds();
    EndInspected(crc, limits, |e.data|, q, v);
    EndOfScan(crc, limits, e.data, q, v);
    EndOfCollect(e, q, g);
  }

  lemma EndInspected(crc: Checksum, limits: Limits, size: nat, q: nat, v: Check)
    requires 33 <= q && q + 12 == size && v.idat && v.defaultPayload > 0 && !v.doc.animated
    ensures |IEND| == 4 && Inspect(crc, limits, size, q, Chunk(IEND, Iend, [], crc(IEND + [])), v) == Some(v.(idatEnd := true, ended := true))
  {
    hide KindOf;
    WrittenKinds();
    assert NamedAndSummed(crc, Chunk(IEND, Iend, [], crc(IEND + [])));
  }

  lemma EndOfScan(crc: Checksum, limits: Limits, data: seq<byte>, q: nat, v: Check)
    requires q + 12 == |data| && ChunkAt(data, q).Some? && Size(ChunkAt(data, q).value) == 12
    requires Inspect(crc, limits, |data|, q, ChunkAt(data, q).value, v) == Some(v.(idatEnd := true, ended := true))
    ensures Scan(crc, limits, data, q, v) == Some(v.(idatEnd := true, ended := true))
  {
    hide ChunkAt, Inspect;
  }

  lemma EndOfCollect(e: Doc, q: nat, g: Gather)
    requires q + 12 == |e.data| && ChunkAt(e.data, q).Some? && ChunkAt(e.data, q).value.kind == Iend
    requires |ChunkAt(e.data, q).value.body| == 0 && g.haveData
    ensures Collect(e, q, g) == Some((g.frame.(pngBytes := g.bytes), |e.data|))
  {
    hide ChunkAt;
  }

  // ----- sizes -----

  lemma {:induction false} PiecesFit(data: seq<byte>, pos: nat, end: nat)
    requires pos <= end && Pieces(data, pos, end).Some?
    ensures WireSize(Pieces(data, pos, end).value) <= end - pos
    decreases |data| - pos
  {
    hide ChunkAt;
    if pos < end {
      var c := ChunkAt(data, pos).value;
      var rest := Pieces(data, pos + Size(c), end).value;
      PiecesFit(data, pos + Size(c), end);
      assert ([c.body[Skip(c)..]] + rest)[1..] == rest;
    }
  }

  // ----- the whole file -----

  /** Where the five parts of a standalone file lie. */
  lemma Layout(crc: Checksum, d: Doc, f: Frame, p: seq<byte>, pieces: seq<seq<byte>>, out: seq<byte>)
    requires 29 <= |d.data| && Writable(pieces) && out == Standalone(crc, d, f, p, pieces)
    ensures |out| == 45 + |p| + WireSize(pieces) && out[..8] == SIGNATURE
    ensures At(out, 8, Wire(crc, IHDR, FrameHeader(d, f))) && At(out, 33, p)
    ensures At(out, 33 + |p|, Images(crc, pieces)) && At(out, |out| - 12, Wire(crc, IEND, []))
  {
    var h, i, e := Wire(crc, IHDR, FrameHeader(d, f)), Images(crc, pieces), Wire(crc, IEND, []);
    hide Wire, Images, WireSize, FrameHeader;
    assert At(out, 0, SIGNATURE + h + p + i + e);
    hide At, Standalone;
    SplitAt(out, 0, SIGNATURE + h + p + i, e);
    SplitAt(out, 0, SIGNATURE + h + p, i);
    SplitAt(out, 0, SIGNATURE + h, p);
    SplitAt(out, 0, SIGNATURE, h);
    Located(out, 0, SIGNATURE);
    assert out[..8] == out[0..8];
  }

  /** The document a standalone file opens as, and its only frame. */
  function Reopened(limits: Limits, f: Frame, out: seq<byte>, prefixBytes: nat): Doc
  {
    Doc(out, 33 + prefixBytes, prefixBytes, limits.framePngBytes, f.width, f.height, 1, 1, false)
  }

  function OnlyFrame(e: Doc): Frame
    requires 12 <= |e.data|
  {
    Frame(e.width, e.height, 0, 0, 0, 100, 0, 0, e.prefixEnd, |e.data| - 12, |e.data|)
  }

  /** The header of the copy: new size, the original's colour type and depth. */
  lemma HeaderCopied(crc: Checksum, data: seq<byte>, limits: Limits, v: Check, d: Doc, f: Frame, out: seq<byte>)
    returns (start: Check)
    requires ChunkAt(data, 8).Some? && HeaderAllowed(ChunkAt(data, 8).value) && d.data == data && 45 <= |data|
    requires v == Start(data, limits, ChunkAt(data, 8).value)
    requires At(out, 8, Wire(crc, IHDR, FrameHeader(d, f))) && 45 <= |out|
    ensures ChunkAt(out, 8).Some?
    ensures var c := ChunkAt(out, 8).value;
            && c.kind == Ihdr && Size(c) == 25 && HeaderAllowed(c) && |c.name| == 4 && start == Start(out, limits, c)
            && Inspect(crc, limits, |out|, 8, c, start) == Some(start)
    ensures start.doc == Doc(out, 0, 0, limits.framePngBytes, f.width, f.height, 1, 1, false)
    ensures PlainStart(start, v) && AsPlain(v, start) == start
  {
    hide *;
    var header := ChunkAt(data, 8).value;
    var c := HeaderChunk(crc, d, f, out);
    start := HeaderStart(data, limits, header, v, d, f, out, c);
    HeaderPasses(crc, limits, out, c, start);
  }

  lemma HeaderChunk(crc: Checksum, d: Doc, f: Frame, out: seq<byte>) returns (c: Chunk)
    requires 45 <= |d.data| && 45 <= |out| && At(out, 8, Wire(crc, IHDR, FrameHeader(d, f)))
    ensures ChunkAt(out, 8) == Some(c) && c.kind == Ihdr && c.body == FrameHeader(d, f) && Size(c) == 25
    ensures |c.name| == 4 && NamedAndSummed(crc, c)
  {
    var body := FrameHeader(d, f);
    c := Chunk(IHDR, Ihdr, body, crc(IHDR + body));
    WrittenKinds();
    assert NamedAndSummed(crc, c);
    hide Wire, ChunkAt, NamedAndSummed, KindOf, FrameHeader;
    WrittenChunk(crc, IHDR, body, out, 8);
  }

  lemma HeaderStart(data: seq<byte>, limits: Limits, header: Chunk, v: Check, d: Doc, f: Frame, out: seq<byte>, c: Chunk)
    returns (start: Check)
    requires ChunkAt(data, 8) == Some(header) && HeaderAllowed(header) && v == Start(data, limits, header)
    requires d.data == data && 45 <= |data| && c.body == FrameHeader(d, f)
    ensures HeaderAllowed(c) && start == Start(out, limits, c)
    ensures start.doc == Doc(out, 0, 0, limits.framePngBytes, f.width, f.height, 1, 1, false)
    ensures PlainStart(start, v) && AsPlain(v, start) == start && !start.idat
  {
    HeaderBody(data, header, d, f);
    hide ChunkAt, FrameHeader, Be32;
    start := Start(out, limits, c);
  }

  lemma HeaderBody(data: seq<byte>, header: Chunk, d: Doc, f: Frame)
    requires ChunkAt(data, 8) == Some(header) && |header.body| == 13 && d.data == data
    ensures var body := FrameHeader(d, f);
            && Be32(body[..4]) == f.width && Be32(body[4..8]) == f.height
            && forall k :: 8 <= k < 13 ==> body[k] == header.body[k]
  {
    var body := FrameHeader(d, f);
    assert body[..4] == Put32(f.width) && body[4..8] == Put32(f.height);
    Be32OfPut32(f.width);
    Be32OfPut32(f.height);
    hide Put32, Be32;
  }

  /** An enumerated frame with the colour chunks and payload pieces that go into its copy. */
  ghost predicate Copies(crc: Checksum, d: Doc, f: Frame, p: seq<byte>, pieces: seq<seq<byte>>, out: seq<byte>)
  {
    && 45 <= |d.data| && Fits(d, f)
    && Prefixes(d.data, 33, d.prefixEnd) == Some(p) && |p| == d.prefixBytes
    && Pieces(d.data, f.dataStart, f.dataEnd) == Some(pieces)
    && pieces != [] && Total(pieces) > 0 && Writable(pieces)
    && out == Standalone(crc, d, f, p, pieces)
    && |out| == f.pngBytes == 45 + |p| + WireSize(pieces) <= d.maxFramePngBytes
    && |out| <= |d.data|
  }

  /** Extraction succeeds for every enumerated frame and fills exactly pngBytes. */
  lemma FrameIsExtracted(crc: Checksum, data: seq<byte>, limits: Limits, d: Doc, f: Frame, capacity: nat)
    returns (p: seq<byte>, pieces: seq<seq<byte>>, out: seq<byte>)
    requires Open(crc, data, limits) == Some(d) && f in FramesFrom(d, 0) && f.pngBytes <= capacity
    ensures Extracted(crc, d, f, capacity) == Some(out) && Copies(crc, d, f, p, pieces, out)
  {
    OpenFacts(crc, data, limits);
    hide Open, FramesFrom, LastCursor, Prefixes, Pieces;
    assert FrameFacts(d, f);
    p, pieces := Prefixes(data, 33, d.prefixEnd).value, Pieces(data, f.dataStart, f.dataEnd).value;
    PiecesAreWritable(data, f.dataStart, f.dataEnd);
    PiecesFit(data, f.dataStart, f.dataEnd);
    out := Standalone(crc, d, f, p, pieces);
    Layout(crc, d, f, p, pieces, out);
    hide Standalone;
  }

  lemma HeaderPassed(crc: Checksum, limits: Limits, e: Doc, c: Chunk, start: Check, g: Gather)
    requires ChunkAt(e.data, 8) == Some(c) && c.kind == Ihdr && Size(c) == 25 && !g.haveData
    requires Inspect(crc, limits, |e.data|, 8, c, start) == Some(start)
    ensures Passed(crc, limits, e, 8, start, g, 33, start, g)
  {
    assert IsPrefix(c);
    hide Inspect, ChunkAt;
    PassesBy(e, 8, c, g);
    NoPieces(crc, limits, e, 33, start, g);
    PassOne(crc, limits, e, 8, c, start, g, start, g, 33, start, g);
  }

  /** The state before the images fits them; the state after them is the reopened document. */
  lemma ImagesSettle(limits: Limits, e: Doc, f: Frame, p: seq<byte>, payload: nat, size: nat, u: Check, start: Check, g: Gather)
    requires PlainStart(start, u) && (u.color == 3 ==> u.plte) && u.doc.prefixBytes == |p|
    requires start.doc == Doc(e.data, 0, 0, limits.framePngBytes, f.width, f.height, 1, 1, false)
    requires e == Reopened(limits, f, e.data, |p|) && |e.data| == 45 + |p| + size && payload > 0
    requires g == Gather(WholeCanvas(e), false, false, 45 + |p|)
    ensures ImageReady(AsPlain(u, start), 33 + |p|)
    ensures var w, h := AfterImages(AsPlain(u, start), 33 + |p|, payload), GatherImages(g, 33 + |p|, size);
            && w.idat && w.defaultPayload > 0 && !w.doc.animated && w.doc == e && h.haveData
            && h.frame.(pngBytes := h.bytes) == OnlyFrame(e)
  {
  }

  /** Prefix, images and end, read one after the other. */
  lemma BodyReads(crc: Checksum, limits: Limits, v: Check, final: Check, d: Doc, f: Frame,
                  p: seq<byte>, pieces: seq<seq<byte>>, e: Doc, start: Check, g: Gather)
    returns (last: Check)
    requires final.doc == d && Reading(crc, limits, d.data, 33, v, final) && !v.idat && !v.ended && PlainStart(start, v)
    requires AsPlain(v, start) == start && Copies(crc, d, f, p, pieces, e.data)
    requires start.doc == Doc(e.data, 0, 0, limits.framePngBytes, f.width, f.height, 1, 1, false)
    requires e == Reopened(limits, f, e.data, |p|) && g == Gather(WholeCanvas(e), false, false, 45 + |p|)
    requires d.maxFramePngBytes == limits.framePngBytes
    ensures last.ended && last.doc == e
    ensures Scan(crc, limits, e.data, 33, start) == Some(last)
    ensures Collect(e, 33, g) == Some((OnlyFrame(e), |e.data|))
    ensures Prefixes(e.data, 33, e.prefixEnd) == Some(p)
    ensures Pieces(e.data, OnlyFrame(e).dataStart, OnlyFrame(e).dataEnd) == Some(pieces)
  {
    hide *;
    var q, stop := 33 + |p|, |e.data| - 12;
    CopiedParts(crc, limits, d, f, p, pieces, e, q, g);
    var u := PrefixCopied(crc, limits, d.data, 33, v, final, p, e, 33, q, start, g);
    ImagesSettle(limits, e, f, p, Total(pieces), WireSize(pieces), u, start, g);
    ImagesRead(crc, limits, e, q, stop, pieces, AsPlain(u, start), g);
    var w, h := AfterImages(AsPlain(u, start), q, Total(pieces)), GatherImages(g, q, WireSize(pieces));
    EndRead(crc, limits, e, stop, w, h);
    last := w.(idatEnd := true, ended := true);
    PassedToEnd(crc, limits, e, q, stop, pieces, start, AsPlain(u, start), g, last, p);
  }

  lemma CopiedParts(crc: Checksum, limits: Limits, d: Doc, f: Frame, p: seq<byte>, pieces: seq<seq<byte>>, e: Doc, q: nat, g: Gather)
    requires Copies(crc, d, f, p, pieces, e.data) && e == Reopened(limits, f, e.data, |p|) && q == 33 + |p|
    requires g == Gather(WholeCanvas(e), false, false, 45 + |p|) && d.maxFramePngBytes == limits.framePngBytes
    ensures Prefixes(d.data, 33, d.prefixEnd) == Some(p) && At(e.data, 33, p) && |p| == d.prefixBytes
    ensures |e.data| >= 45 && ImagesWritten(crc, e, q, |e.data| - 12, pieces) && At(e.data, |e.data| - 12, Wire(crc, IEND, []))
    ensures |e.data| == 45 + |p| + WireSize(pieces) <= SIZE_MAX && Total(pieces) > 0
    ensures g.bytes == 45 + |p| && g.bytes + WireSize(pieces) <= e.maxFramePngBytes
    ensures !e.animated && !g.haveData && !g.haveControl && e.prefixEnd == q
  {
    Layout(crc, d, f, p, pieces, e.data);
    hide Standalone, At, Prefixes, Pieces, Images, Wire, WireSize, Total, Fits;
  }

  lemma PassedToEnd(crc: Checksum, limits: Limits, e: Doc, q: nat, stop: nat, pieces: seq<seq<byte>>,
                    start: Check, v: Check, g: Gather, last: Check, p: seq<byte>)
    requires Passed(crc, limits, e, 33, start, g, q, v, g) && ImagesPassed(crc, limits, e, q, stop, pieces, v, g)
    requires var w, h := AfterImages(v, q, Total(pieces)), GatherImages(g, q, WireSize(pieces));
             && Scan(crc, limits, e.data, stop, w) == Some(last) && |e.data| >= 12
             && h.frame.(pngBytes := h.bytes) == OnlyFrame(e)
             && Collect(e, stop, h) == Some((h.frame.(pngBytes := h.bytes), |e.data|))
    requires e.prefixEnd == q && stop == |e.data| - 12
    ensures Scan(crc, limits, e.data, 33, start) == Some(last)
    ensures Collect(e, 33, g) == Some((OnlyFrame(e), |e.data|))
    ensures Pieces(e.data, OnlyFrame(e).dataStart, OnlyFrame(e).dataEnd) == Some(pieces)
  {
    hide Scan, Collect, Pieces, Total, WireSize, AfterImages, GatherImages;
  }

  /** Reading the copy from its header to its end. */
  lemma CopyReads(crc: Checksum, data: seq<byte>, limits: Limits, d: Doc, f: Frame,
                  p: seq<byte>, pieces: seq<seq<byte>>, out: seq<byte>)
    returns (start: Check, last: Check)
    requires Open(crc, data, limits) == Some(d) && Copies(crc, d, f, p, pieces, out)
    ensures ChunkAt(out, 8).Some?
    ensures var c := ChunkAt(out, 8).value;
            c.kind == Ihdr && HeaderAllowed(c) && start == Start(out, limits, c)
    ensures start.doc.width == f.width && start.doc.height == f.height
    ensures var e := Reopened(limits, f, out, |p|);
            && Scan(crc, limits, out, 8, start) == Some(last) && last.ended && last.doc == e
            && Collect(e, 8, Gather(WholeCanvas(e), false, false, 45 + |p|)) == Some((OnlyFrame(e), |out|))
            && Prefixes(out, 33, e.prefixEnd) == Some(p)
            && Pieces(out, OnlyFrame(e).dataStart, OnlyFrame(e).dataEnd) == Some(pieces)
  {
    var e := Reopened(limits, f, out, |p|);
    var g := Gather(WholeCanvas(e), false, false, 45 + |p|);
    var v, final := OpenReads(crc, data, limits);
    Layout(crc, d, f, p, pieces, out);
    assert !v.idat && !v.ended && d.maxFramePngBytes == limits.framePngBytes;
    hide *;
    start := HeaderCopied(crc, data, limits, v, d, f, out);
    HeaderPassed(crc, limits, e, ChunkAt(out, 8).value, start, g);
    last := BodyReads(crc, limits, v, final, d, f, p, pieces, e, start, g);
  }

  lemma CanvasShrinks(limits: Limits, d: Doc, f: Frame)
    requires CanvasAllowed(limits, d.width, d.height) && Fits(d, f)
    ensures CanvasAllowed(limits, f.width, f.height)
  {
    MulMonotone(f.width, d.width, f.height);
    MulMonotone(f.height, d.height, d.width);
  }

  /** The copy opens as a static document with exactly one frame. */
  lemma CopyReopens(crc: Checksum, data: seq<byte>, limits: Limits, d: Doc, f: Frame,
                    p: seq<byte>, pieces: seq<seq<byte>>, out: seq<byte>)
    requires Open(crc, data, limits) == Some(d) && Copies(crc, d, f, p, pieces, out)
    ensures var e := Reopened(limits, f, out, |p|);
            && Open(crc, out, limits) == Some(e) && FramesFrom(e, 0) == [OnlyFrame(e)]
            && Prefixes(out, 33, e.prefixEnd) == Some(p)
            && |out| >= 45 && Pieces(out, OnlyFrame(e).dataStart, OnlyFrame(e).dataEnd) == Some(pieces)
  {
    hide *;
    var e := Reopened(limits, f, out, |p|);
    var start, last := CopyReads(crc, data, limits, d, f, p, pieces, out);
    CopyAllowed(crc, data, limits, d, f, p, pieces, out);
    OneFrame(limits, e, f, |p|, out);
    OpensAs(crc, out, limits, ChunkAt(out, 8).value, start, last);
  }

  lemma CopyAllowed(crc: Checksum, data: seq<byte>, limits: Limits, d: Doc, f: Frame,
                    p: seq<byte>, pieces: seq<seq<byte>>, out: seq<byte>)
    requires Open(crc, data, limits) == Some(d) && Copies(crc, d, f, p, pieces, out)
    ensures LimitsAllow(limits, out) && CanvasAllowed(limits, f.width, f.height) && 45 + |p| <= |out| <= limits.framePngBytes
  {
    var _, final := OpenReads(crc, data, limits);
    Layout(crc, d, f, p, pieces, out);
    hide Open, ChunkAt, HeaderAllowed, Prefixes, Pieces, Standalone, At, WireSize, Total, Start, CanvasAllowed, Reading;
    SameLimit(crc, data, limits, d);
    CanvasShrinks(limits, d, f);
  }

  lemma OneFrame(limits: Limits, e: Doc, f: Frame, prefixBytes: nat, out: seq<byte>)
    requires e == Reopened(limits, f, out, prefixBytes) && 45 + prefixBytes <= |out| <= limits.framePngBytes
    requires e.data == out ==>
      Collect(e, 8, Gather(WholeCanvas(e), false, false, 45 + prefixBytes)) == Some((OnlyFrame(e), |out|))
    ensures e.data == out && |out| >= 12 && FramesFrom(e, 0) == [OnlyFrame(e)] && LastCursor(e, 0) == |out|
    ensures |FramesFrom(e, 0)| == e.frames
  {
    hide Collect, WholeCanvas;
    assert Next(e, 0) == Some((OnlyFrame(e), |out|));
    assert FramesFrom(e, |out|) == [] && LastCursor(e, |out|) == |out|;
  }

  lemma OpensAs(crc: Checksum, data: seq<byte>, limits: Limits, header: Chunk, start: Check, last: Check)
    requires LimitsAllow(limits, data) && ChunkAt(data, 8) == Some(header) && header.kind == Ihdr && HeaderAllowed(header)
    requires start == Start(data, limits, header) && CanvasAllowed(limits, start.doc.width, start.doc.height)
    requires Scan(crc, limits, data, 8, start) == Some(last) && last.ended
    requires LastCursor(last.doc, 0) == |data| && |FramesFrom(last.doc, 0)| == last.doc.frames
    ensures Open(crc, data, limits) == Some(last.doc)
  {
    hide LimitsAllow, ChunkAt, HeaderAllowed, CanvasAllowed, Scan, LastCursor, FramesFrom, Start;
  }

  /** Both headers carry the frame's size and the original's colour bytes. */
  lemma SameHeader(crc: Checksum, d: Doc, f: Frame, e: Doc)
    requires 45 <= |d.data| && 45 <= |e.data| && At(e.data, 8, Wire(crc, IHDR, FrameHeader(d, f)))
    requires e.width == f.width && e.height == f.height
    ensures FrameHeader(e, OnlyFrame(e)) == FrameHeader(d, f)
  {
    var body := FrameHeader(d, f);
    var c := HeaderChunk(crc, d, f, e.data);
    assert e.data[16..29] == c.body == body;
    assert forall k :: 8 <= k < 13 ==> e.data[16..29][k] == e.data[16 + k];
    assert e.data[24..29] == body[8..13] == d.data[24..29];
  }

  /** Extracting the copy's only frame writes the same bytes again. */
  lemma CopyExtractsItself(crc: Checksum, limits: Limits, d: Doc, f: Frame, p: seq<byte>, pieces: seq<seq<byte>>,
                           e: Doc, capacity: nat)
    requires Copies(crc, d, f, p, pieces, e.data) && e == Reopened(limits, f, e.data, |p|)
    requires f.pngBytes <= capacity && d.maxFramePngBytes == limits.framePngBytes
    requires Prefixes(e.data, 33, e.prefixEnd) == Some(p)
    requires |e.data| >= 45 && Pieces(e.data, OnlyFrame(e).dataStart, OnlyFrame(e).dataEnd) == Some(pieces)
    ensures Extracted(crc, e, OnlyFrame(e), capacity) == Some(e.data)
  {
    Layout(crc, d, f, p, pieces, e.data);
    SameHeader(crc, d, f, e);
    hide At, Prefixes, Pieces, Images, Wire, Total, FrameHeader;
    assert Preflight(e, OnlyFrame(e), capacity);
    hide Preflight;
  }

  /** Main result. Every enumerated frame of an accepted document is extracted, given enough room
      and only then, into exactly pngBytes bytes; the result opens under the same limits as a static
      one-frame PNG of the frame's size, with the same colour chunks and the same payload pieces;
      and extracting that frame again reproduces the bytes. */
  lemma StandaloneRoundTrip(crc: Checksum, data: seq<byte>, limits: Limits, d: Doc, f: Frame, capacity: nat)
    requires Open(crc, data, limits) == Some(d) && f in FramesFrom(d, 0)
    ensures Extracted(crc, d, f, capacity).Some? <==> f.pngBytes <= capacity
    ensures f.pngBytes <= capacity ==>
              var out := Extracted(crc, d, f, capacity).value;
              var e := Reopened(limits, f, out, d.prefixBytes);
              && |out| == f.pngBytes
              && Open(crc, out, limits) == Some(e) && FramesFrom(e, 0) == [OnlyFrame(e)]
              && Prefixes(out, 33, e.prefixEnd) == Prefixes(data, 33, d.prefixEnd)
              && Pieces(out, e.prefixEnd, |out| - 12) == Pieces(data, f.dataStart, f.dataEnd)
              && Extracted(crc, e, OnlyFrame(e), capacity) == Some(out)
  {
    hide *;
    if f.pngBytes <= capacity {
      var p, pieces, out := FrameIsExtracted(crc, data, limits, d, f, capacity);
      var e := Reopened(limits, f, out, |p|);
      SameLimit(crc, data, limits, d);
      CopiesMeans(crc, d, f, p, pieces, out, limits);
      CopyReopens(crc, data, limits, d, f, p, pieces, out);
      CopyExtractsItself(crc, limits, d, f, p, pieces, e, capacity);
      OnlyFrameSpan(e);
    } else {
      NotEnoughRoom(crc, d, f, capacity);
    }
  }

  lemma OnlyFrameSpan(e: Doc)
    requires |e.data| >= 12
    ensures OnlyFrame(e).dataStart == e.prefixEnd && OnlyFrame(e).dataEnd == |e.data| - 12
  {
  }

  lemma CopiesMeans(crc: Checksum, d: Doc, f: Frame, p: seq<byte>, pieces: seq<seq<byte>>, out: seq<byte>, limits: Limits)
    requires Copies(crc, d, f, p, pieces, out)
    ensures |p| == d.prefixBytes && |out| == f.pngBytes && |out| >= 45
    ensures Prefixes(d.data, 33, d.prefixEnd) == Some(p) && Pieces(d.data, f.dataStart, f.dataEnd) == Some(pieces)
    ensures Reopened(limits, f, out, |p|).data == out
  {
    hide Prefixes, Pieces, Standalone, Total, Writable, Fits;
  }

  lemma NotEnoughRoom(crc: Checksum, d: Doc, f: Frame, capacity: nat)
    requires capacity < f.pngBytes
    ensures Extracted(crc, d, f, capacity) == None
  {
    hide Pieces, Prefixes, Standalone;
  }

  lemma SameLimit(crc: Checksum, data: seq<byte>, limits: Limits, d: Doc)
    requires Open(crc, data, limits) == Some(d)
    ensures d.maxFramePngBytes == limits.framePngBytes && d.data == data
  {
    var v, final := OpenReads(crc, data, limits);
    hide Open, ChunkAt, HeaderAllowed, Scan;
  }
}
