/** What acceptance by the validator guarantees about the chunk prefix and every enumerated frame. */
module ApngAccepted {
  import opened Prelude
  import opened ApngContainer

  // ----- what the validation loop keeps -----

  ghost predicate Good(limits: Limits, data: seq<byte>, pos: nat, v: Check)
  {
    && v.doc.data == data && v.doc.maxFramePngBytes == limits.framePngBytes
    && 0 < v.doc.width && 0 < v.doc.height
    && v.payload <= pos && v.defaultPayload <= pos
    && (v.active ==> v.doc.animated)
    && (!v.doc.animated ==> v.doc.frames == 1)
    && (v.idat ==> 33 <= v.doc.prefixEnd < pos && (v.color == 3 ==> v.plte))
    && (!v.idat ==> !v.idatEnd && v.defaultPayload == 0 && v.payload == 0)
    && v.doc.prefixBytes <= limits.framePngBytes
  }

  /** Nothing about the document changes after the first image chunk; before it, only the
      animation header and the prefix size are still open. */
  ghost predicate Later(v: Check, w: Check)
  {
    && v.color == w.color && v.depth == w.depth
    && v.doc.data == w.doc.data && v.doc.width == w.doc.width && v.doc.height == w.doc.height
    && v.doc.maxFramePngBytes == w.doc.maxFramePngBytes
    && (v.doc.animated ==> w.doc.animated)
    && (!w.doc.animated ==> w.doc.frames == v.doc.frames && w.doc.plays == v.doc.plays)
    && (v.idat ==> w.idat && w.doc == v.doc)
  }

  ghost predicate Kept(limits: Limits, data: seq<byte>, pos: nat, c: Chunk, v: Check, w: Check)
  {
    && Good(limits, data, pos + Size(c), w) && Later(v, w)
    && (w.ended ==> v.ended || pos + Size(c) == |data|)
  }

  /** What a chunk seen before any image chunk can do, before the prefix is summed. */
  ghost predicate BeforeImages(pos: nat, c: Chunk, v: Check, w: Check)
  {
    && (w.idat <==> c.kind == Idat)
    && (w.idat ==> w.doc == v.doc.(prefixEnd := pos) && (v.color == 3 ==> v.plte))
    && (!w.idat ==>
        c.kind != Iend && c.kind != Fdat && (c.kind == Ihdr ==> pos == 8)
        && w.ended == v.ended && w.doc.prefixBytes == v.doc.prefixBytes)
  }

  /** How a chunk moves the payload counters of the current frame. */
  ghost predicate Moves(c: Chunk, v: Check, w: Check)
  {
    match c.kind
    case Fctl =>
      && v.doc.animated && w.active && w.payload == 0 && w.defaultPayload == v.defaultPayload
      && Control(c).Some? && Fits(v.doc, Control(c).value) && (v.active ==> v.payload > 0)
    case Idat =>
      && w.active == v.active && w.defaultPayload == v.defaultPayload + |c.body|
      && w.payload == v.payload + (if v.active then |c.body| else 0)
    case Fdat =>
      && v.doc.animated && v.active && w.active && |c.body| >= 4
      && w.defaultPayload == v.defaultPayload && w.payload == v.payload + |c.body| - 4
    case Iend =>
      && w.ended && v.idat && v.defaultPayload > 0 && (v.doc.animated ==> v.active && v.payload > 0)
    case _ =>
      w.active == v.active && w.payload == v.payload && w.defaultPayload == v.defaultPayload
  }

  lemma AnimationKeeps(limits: Limits, data: seq<byte>, pos: nat, c: Chunk, v: Check)
    requires Good(limits, data, pos, v) && c.kind == Actl && OnAnimation(limits, c, v).Some?
    ensures Kept(limits, data, pos, c, v, OnAnimation(limits, c, v).value)
    ensures Moves(c, v, OnAnimation(limits, c, v).value)
    ensures !v.idat ==> BeforeImages(pos, c, v, OnAnimation(limits, c, v).value)
  {
  }

  lemma ControlKeeps(limits: Limits, data: seq<byte>, pos: nat, c: Chunk, v: Check)
    requires Good(limits, data, pos, v) && c.kind == Fctl && OnControl(c, v).Some?
    ensures Kept(limits, data, pos, c, v, OnControl(c, v).value)
    ensures Moves(c, v, OnControl(c, v).value)
    ensures !v.idat ==> BeforeImages(pos, c, v, OnControl(c, v).value)
  {
  }

  lemma ImageKeeps(limits: Limits, data: seq<byte>, pos: nat, c: Chunk, v: Check)
    requires Good(limits, data, pos, v) && 33 <= pos && c.kind == Idat && OnImage(pos, c, v).Some?
    ensures Kept(limits, data, pos, c, v, OnImage(pos, c, v).value)
    ensures Moves(c, v, OnImage(pos, c, v).value)
    ensures !v.idat ==> BeforeImages(pos, c, v, OnImage(pos, c, v).value)
  {
  }

  lemma FrameDataKeeps(limits: Limits, data: seq<byte>, pos: nat, c: Chunk, v: Check)
    requires Good(limits, data, pos, v) && c.kind == Fdat && OnFrameData(c, v).Some?
    ensures Kept(limits, data, pos, c, v, OnFrameData(c, v).value)
    ensures Moves(c, v, OnFrameData(c, v).value)
    ensures !v.idat ==> BeforeImages(pos, c, v, OnFrameData(c, v).value)
  {
  }

  lemma PaletteKeeps(limits: Limits, data: seq<byte>, pos: nat, c: Chunk, v: Check)
    requires Good(limits, data, pos, v) && c.kind == Plte && OnPalette(c, v).Some?
    ensures Kept(limits, data, pos, c, v, OnPalette(c, v).value)
    ensures Moves(c, v, OnPalette(c, v).value)
    ensures !v.idat ==> BeforeImages(pos, c, v, OnPalette(c, v).value)
  {
  }

  lemma TransparencyKeeps(limits: Limits, data: seq<byte>, pos: nat, c: Chunk, v: Check)
    requires Good(limits, data, pos, v) && c.kind == Trns && OnTransparency(c, v).Some?
    ensures Kept(limits, data, pos, c, v, OnTransparency(c, v).value)
    ensures Moves(c, v, OnTransparency(c, v).value)
    ensures !v.idat ==> BeforeImages(pos, c, v, OnTransparency(c, v).value)
  {
  }

  lemma EndKeeps(limits: Limits, data: seq<byte>, pos: nat, c: Chunk, v: Check)
    requires Good(limits, data, pos, v) && c.kind == Iend && OnEnd(|data|, pos, c, v).Some?
    ensures Kept(limits, data, pos, c, v, OnEnd(|data|, pos, c, v).value)
    ensures Moves(c, v, OnEnd(|data|, pos, c, v).value)
    ensures !v.idat ==> BeforeImages(pos, c, v, OnEnd(|data|, pos, c, v).value)
  {
  }

  lemma KindKeeps(limits: Limits, data: seq<byte>, pos: nat, c: Chunk, v: Check)
    requires |c.name| == 4 && Good(limits, data, pos, v) && (33 <= pos || c.kind == Ihdr)
    requires OnKind(limits, |data|, pos, c, v).Some?
    ensures Kept(limits, data, pos, c, v, OnKind(limits, |data|, pos, c, v).value)
    ensures Moves(c, v, OnKind(limits, |data|, pos, c, v).value)
    ensures !v.idat ==> BeforeImages(pos, c, v, OnKind(limits, |data|, pos, c, v).value)
  {
    hide OnAnimation, OnControl, OnImage, OnFrameData, OnPalette, OnTransparency, OnEnd;
    match c.kind
    case Actl => AnimationKeeps(limits, data, pos, c, v);
    case Fctl => ControlKeeps(limits, data, pos, c, v);
    case Idat => ImageKeeps(limits, data, pos, c, v);
    case Fdat => FrameDataKeeps(limits, data, pos, c, v);
    case Plte => PaletteKeeps(limits, data, pos, c, v);
    case Trns => TransparencyKeeps(limits, data, pos, c, v);
    case Iend => EndKeeps(limits, data, pos, c, v);
    case _ =>
  }

  lemma InspectKeeps(crc: Checksum, limits: Limits, data: seq<byte>, pos: nat, c: Chunk, v: Check)
    requires |c.name| == 4 && Good(limits, data, pos, v) && (33 <= pos || c.kind == Ihdr)
    requires Inspect(crc, limits, |data|, pos, c, v).Some?
    ensures NamedAndSummed(crc, c)
    ensures var w := Inspect(crc, limits, |data|, pos, c, v).value;
            && Kept(limits, data, pos, c, v, w) && Moves(c, v, w)
            && (!v.idat ==>
                var added := if !w.idat && pos > 8 && IsPrefix(c) then Size(c) else 0;
                && w.doc.prefixBytes == v.doc.prefixBytes + added
                && BeforeImages(pos, c, v, w.(doc := w.doc.(prefixBytes := v.doc.prefixBytes))))
  {
    hide OnKind, NamedAndSummed;
    KindKeeps(limits, data, pos, c, if v.idat && c.kind != Idat then v.(idatEnd := true) else v);
  }

  lemma {:induction false} ScanKeeps(crc: Checksum, limits: Limits, data: seq<byte>, pos: nat, v: Check)
    requires Scan(crc, limits, data, pos, v).Some? && 33 <= pos && Good(limits, data, pos, v)
    ensures Later(v, Scan(crc, limits, data, pos, v).value)
    decreases |data| - pos
  {
    hide Inspect, ChunkAt, Good;
    if pos < |data| {
      var c := ChunkAt(data, pos).value;
      var w := Inspect(crc, limits, |data|, pos, c, v).value;
      InspectKeeps(crc, limits, data, pos, c, v);
      ScanKeeps(crc, limits, data, pos + Size(c), w);
    }
  }

  // ----- the prefix -----

  /** The loop state just before the first image chunk, and what has been summed up to there. */
  lemma {:induction false} PrefixFacts(crc: Checksum, limits: Limits, data: seq<byte>, pos: nat, v: Check)
    returns (u: Check)
    requires Scan(crc, limits, data, pos, v).Some? && 33 <= pos && Good(limits, data, pos, v)
    requires Scan(crc, limits, data, pos, v).value.ended && !v.ended && !v.idat
    ensures var d := Scan(crc, limits, data, pos, v).value.doc;
            && pos <= d.prefixEnd < |data|
            && Scan(crc, limits, data, d.prefixEnd, u) == Scan(crc, limits, data, pos, v)
            && Good(limits, data, d.prefixEnd, u) && !u.idat && !u.ended && Later(v, u)
            && ChunkAt(data, d.prefixEnd).Some? && ChunkAt(data, d.prefixEnd).value.kind == Idat
            && Prefixes(data, pos, d.prefixEnd).Some?
            && u.doc.prefixBytes == d.prefixBytes
            && |Prefixes(data, pos, d.prefixEnd).value| == d.prefixBytes - v.doc.prefixBytes
            && (u.color == 3 ==> u.plte)
            && d.prefixBytes - v.doc.prefixBytes <= d.prefixEnd - pos
    decreases |data| - pos
  {
    hide Inspect, ChunkAt, NamedAndSummed, IsPrefix, Moves;
    var c := ChunkAt(data, pos).value;
    var w := Inspect(crc, limits, |data|, pos, c, v).value;
    InspectKeeps(crc, limits, data, pos, c, v);
    if w.idat {
      ScanKeeps(crc, limits, data, pos + Size(c), w);
      u := v;
    } else {
      u := PrefixFacts(crc, limits, data, pos + Size(c), w);
    }
  }

  // ----- frames -----

  function Total(pieces: seq<seq<byte>>): nat
  {
    if pieces == [] then 0 else |pieces[0]| + Total(pieces[1..])
  }

  ghost predicate Shaped(d: Doc, f: Frame)
  {
    Fits(d, f) && f.dispose <= 2 && f.blend <= 1 && f.delayDen != 0
  }

  /** Everything extraction and composition rely on about an enumerated frame. */
  ghost predicate FrameFacts(d: Doc, f: Frame)
  {
    && Shaped(d, f)
    && d.prefixEnd <= f.dataStart < f.dataEnd && f.dataEnd + 12 <= |d.data|
    && Pieces(d.data, f.dataStart, f.dataEnd).Some?
    && var pieces := Pieces(d.data, f.dataStart, f.dataEnd).value;
    && pieces != [] && Total(pieces) > 0
    && f.pngBytes == 45 + d.prefixBytes + WireSize(pieces) <= d.maxFramePngBytes
  }

  /** Payload bytes of the current frame as the validator counts them. */
  ghost function Live(d: Doc, v: Check): nat
  {
    if d.animated then v.payload else v.defaultPayload
  }

  /** The validator and the enumerator, reading the same chunk, agree about the current frame. */
  ghost predicate Tracks(d: Doc, pos: nat, v: Check, g: Gather)
  {
    && Shaped(d, g.frame) && g.bytes <= d.maxFramePngBytes
    && (g.haveControl ==> v.active)
    && (g.haveData ==> v.idat && (d.animated ==> g.haveControl)
                       && d.prefixEnd <= g.frame.dataStart < g.frame.dataEnd <= pos)
    && (!g.haveData && g.haveControl ==> v.payload == 0)
    && (!g.haveData && !d.animated ==> v.defaultPayload == 0)
  }

  /** The document at the end of the scan, as far as the state in the middle determines it. */
  ghost predicate Settles(v: Check, d: Doc)
  {
    && d.data == v.doc.data && d.width == v.doc.width && d.height == v.doc.height
    && d.maxFramePngBytes == v.doc.maxFramePngBytes
    && (v.doc.animated ==> d.animated) && (v.idat ==> d == v.doc)
  }

  lemma GatherTracks(pos: nat, c: Chunk, v: Check, w: Check, d: Doc, g: Gather)
    requires Tracks(d, pos, v, g) && Moves(c, v, w) && Settles(v, d) && Settles(w, d) && (v.idat ==> w.idat)
    requires v.active ==> v.doc.animated
    requires IsData(c) ==> w.idat && d.prefixEnd <= pos
    requires !(g.haveData && (c.kind == Fctl || c.kind == Iend)) && GatherOne(d, pos, c, g).Some?
    ensures var h := GatherOne(d, pos, c, g).value;
            && Tracks(d, pos + Size(c), w, h)
            && (h.haveData && IsData(c) ==>
                && |c.body| >= Skip(c) && h.frame.dataEnd == pos + Size(c)
                && Live(d, w) == Live(d, v) + |c.body| - Skip(c)
                && h.bytes == g.bytes + |c.body| - Skip(c) + 12
                && h.frame.dataStart == if g.haveData then g.frame.dataStart else pos)
            && (h.haveData && !IsData(c) ==>
                g.haveData && h.frame == g.frame && h.bytes == g.bytes && Live(d, w) == Live(d, v))
            && (!h.haveData ==> !g.haveData && h.bytes == g.bytes)
            && (h.haveData && !g.haveData ==> Live(d, v) == 0)
  {
  }

  /** The rest of a frame, from a position inside it: either no more payload follows, or the
      pieces up to the frame's end account for every byte still to be counted. */
  ghost predicate RestOfFrame(d: Doc, pos: nat, live: nat, g: Gather, f: Frame)
  {
    && Shaped(d, f) && f.pngBytes <= d.maxFramePngBytes
    && d.prefixEnd <= f.dataStart < f.dataEnd && f.dataEnd + 12 <= |d.data|
    && (g.haveData ==>
        && f.dataStart == g.frame.dataStart
        && ((f.dataEnd == g.frame.dataEnd && f.pngBytes == g.bytes && live > 0)
            || (pos < f.dataEnd && Counted(d.data, pos, f.dataEnd, live, g.bytes, f.pngBytes))))
    && (!g.haveData ==>
        pos <= f.dataStart && Counted(d.data, f.dataStart, f.dataEnd, 0, g.bytes, f.pngBytes))
  }

  /** The pieces of a span are readable and account for the bytes and payload counted over it. */
  ghost predicate Counted(data: seq<byte>, pos: nat, end: nat, live: nat, before: nat, after: nat)
  {
    && Pieces(data, pos, end).Some?
    && var pieces := Pieces(data, pos, end).value;
    pieces != [] && after == before + WireSize(pieces) && live + Total(pieces) > 0
  }

  lemma CountOne(data: seq<byte>, pos: nat, end: nat, live: nat, before: nat, after: nat)
    requires pos < end && ChunkAt(data, pos).Some?
    requires var c := ChunkAt(data, pos).value;
             IsData(c) && |c.body| >= Skip(c) && pos + Size(c) <= end
             && var n := |c.body| - Skip(c);
             if end == pos + Size(c) then after == before + n + 12 && live + n > 0
             else Counted(data, pos + Size(c), end, live + n, before + n + 12, after)
    ensures Counted(data, pos, end, live, before, after)
  {
    var c := ChunkAt(data, pos).value;
    var rest := Pieces(data, pos + Size(c), end).value;
    var all := Pieces(data, pos, end).value;
    assert all[1..] == rest;
  }

  lemma CountSkip(data: seq<byte>, pos: nat, end: nat, live: nat, before: nat, after: nat)
    requires pos < end && ChunkAt(data, pos).Some? && !IsData(ChunkAt(data, pos).value)
    requires pos + Size(ChunkAt(data, pos).value) < end
    requires Counted(data, pos + Size(ChunkAt(data, pos).value), end, live, before, after)
    ensures Counted(data, pos, end, live, before, after)
  {
  }

  /** The end of a frame: the validator has made sure that payload was seen. */
  lemma FrameEnds(pos: nat, c: Chunk, v: Check, w: Check, d: Doc, g: Gather)
    requires Tracks(d, pos, v, g) && Moves(c, v, w) && Settles(v, d) && (v.active ==> v.doc.animated)
    requires pos + Size(c) <= |d.data|
    requires g.haveData && (c.kind == Fctl || c.kind == Iend)
    ensures RestOfFrame(d, pos, Live(d, v), g, g.frame.(pngBytes := g.bytes))
    ensures c.kind == Fctl ==> d.animated
    ensures c.kind == Iend ==> w.ended
  {
  }

  /** One more chunk in front of a frame's rest. */
  lemma FrameGoesOn(pos: nat, c: Chunk, v: Check, w: Check, d: Doc, g: Gather, h: Gather, f: Frame)
    requires ChunkAt(d.data, pos) == Some(c)
    requires RestOfFrame(d, pos + Size(c), Live(d, w), h, f)
    requires h.haveData && IsData(c) ==>
               && |c.body| >= Skip(c) && h.frame.dataEnd == pos + Size(c)
               && Live(d, w) == Live(d, v) + |c.body| - Skip(c)
               && h.bytes == g.bytes + |c.body| - Skip(c) + 12
               && h.frame.dataStart == if g.haveData then g.frame.dataStart else pos
    requires h.haveData && !IsData(c) ==>
               g.haveData && h.frame == g.frame && h.bytes == g.bytes && Live(d, w) == Live(d, v)
    requires !h.haveData ==> !g.haveData && h.bytes == g.bytes
    requires h.haveData && !g.haveData ==> Live(d, v) == 0
    ensures RestOfFrame(d, pos, Live(d, v), g, f)
  {
    hide ChunkAt, Counted, Shaped;
    var live := Live(d, v);
    if h.haveData && IsData(c) {
      CountOne(d.data, pos, f.dataEnd, live, g.bytes, f.pngBytes) by {
        assert f.dataEnd == pos + Size(c) || pos + Size(c) < f.dataEnd;
      }
    } else if h.haveData && pos + Size(c) < f.dataEnd
              && Counted(d.data, pos + Size(c), f.dataEnd, live, g.bytes, f.pngBytes) {
      CountSkip(d.data, pos, f.dataEnd, live, g.bytes, f.pngBytes);
    }
  }

  /** The validation loop stands at a chunk boundary of an accepted file. */
  ghost predicate Reading(crc: Checksum, limits: Limits, data: seq<byte>, pos: nat, v: Check, final: Check)
  {
    && (33 <= pos || (pos == 8 && AtHeader(data)))
    && Good(limits, data, pos, v) && Settles(v, final.doc)
    && Scan(crc, limits, data, pos, v) == Some(final) && final.ended
    && (v.ended ==> pos >= |data|)
  }

  ghost predicate AtHeader(data: seq<byte>)
  {
    match ChunkAt(data, 8)
    case None => false
    case Some(c) => c.kind == Ihdr && |c.body| == 13
  }

  /** One step of the validation loop, as the enumerator needs it. */
  lemma ScanStep(crc: Checksum, limits: Limits, data: seq<byte>, pos: nat, c: Chunk, v: Check, final: Check)
    returns (w: Check)
    requires Reading(crc, limits, data, pos, v, final) && pos < |data| && ChunkAt(data, pos) == Some(c)
    ensures Reading(crc, limits, data, pos + Size(c), w, final)
    ensures Moves(c, v, w) && (v.idat ==> w.idat) && Settles(v, final.doc) && Settles(w, final.doc)
    ensures v.active ==> v.doc.animated
    ensures IsData(c) ==> w.idat && final.doc.prefixEnd <= pos
    ensures w.ended ==> pos + Size(c) == |data|
    ensures Inspect(crc, limits, |data|, pos, c, v) == Some(w)
    ensures !v.idat && w.idat ==>
              c.kind == Idat && final.doc.prefixEnd == pos && final.doc.prefixBytes == v.doc.prefixBytes
              && (v.color == 3 ==> v.plte)
    ensures !v.idat && !w.idat ==> c.kind != Idat && c.kind != Fdat && c.kind != Iend && !w.ended
  {
    hide Inspect, ChunkAt;
    w := Inspect(crc, limits, |data|, pos, c, v).value;
    InspectKeeps(crc, limits, data, pos, c, v);
    ScanKeeps(crc, limits, data, pos + Size(c), w);
  }

  lemma {:induction false} CollectFacts(crc: Checksum, limits: Limits, data: seq<byte>, pos: nat, v: Check, final: Check,
                                        g: Gather, f: Frame, next: nat)
    returns (u: Check)
    requires Reading(crc, limits, data, pos, v, final)
    requires Tracks(final.doc, pos, v, g) && final.doc.data == data && Collect(final.doc, pos, g) == Some((f, next))
    ensures Reading(crc, limits, data, next, u, final)
    ensures next < |data| ==> final.doc.animated
    ensures RestOfFrame(final.doc, pos, Live(final.doc, v), g, f)
    decreases |data| - pos
  {
    hide *;
    var d := final.doc;
    var c, h := CollectUnfolds(d, pos, g, f, next);
    var w := ScanStep(crc, limits, data, pos, c, v, final);
    if (c.kind == Fctl || c.kind == Iend) && g.haveData {
      FrameEnds(pos, c, v, w, d, g);
      u := if c.kind == Fctl then v else w;
    } else {
      GatherTracks(pos, c, v, w, d, g);
      u := CollectFacts(crc, limits, data, pos + Size(c), w, final, h, f, next);
      FrameGoesOn(pos, c, v, w, d, g, h, f);
    }
  }

  lemma CollectUnfolds(d: Doc, pos: nat, g: Gather, f: Frame, next: nat) returns (c: Chunk, h: Gather)
    requires Collect(d, pos, g) == Some((f, next))
    ensures pos < |d.data| && ChunkAt(d.data, pos) == Some(c) && Size(c) > 0 && |c.name| == 4
    ensures if (c.kind == Fctl || c.kind == Iend) && g.haveData
            then f == g.frame.(pngBytes := g.bytes) && next == (if c.kind == Iend then |d.data| else pos)
            else GatherOne(d, pos, c, g) == Some(h) && Collect(d, pos + Size(c), h) == Some((f, next))
  {
    hide ChunkAt, GatherOne;
    c := ChunkAt(d.data, pos).value;
    h := if GatherOne(d, pos, c, g).Some? then GatherOne(d, pos, c, g).value else g;
  }

  /** Every frame enumerated from a cursor the enumeration itself produces. */
  lemma {:induction false} EnumerationFacts(crc: Checksum, limits: Limits, data: seq<byte>, cursor: nat, v: Check, final: Check)
    requires Reading(crc, limits, data, if cursor != 0 then cursor else 8, v, final) && final.doc.data == data
    requires cursor == 0 ==> v.defaultPayload == 0
    requires cursor != 0 && cursor < |data| ==> final.doc.animated
    ensures forall f :: f in FramesFrom(final.doc, cursor) ==> FrameFacts(final.doc, f)
    decreases |data| - cursor
  {
    hide Collect, ChunkAt, Scan;
    var d := final.doc;
    if Next(d, cursor).Some? {
      var pos := if cursor != 0 then cursor else 8;
      var (f, next) := Next(d, cursor).value;
      var g := Gather(WholeCanvas(d), false, false, 45 + d.prefixBytes);
      var u := CollectFacts(crc, limits, data, pos, v, final, g, f, next);
      assert FrameFacts(d, f);
      EnumerationFacts(crc, limits, data, next, u, final);
    }
  }

  /** The states of a successful open: just after the header, and at the end. */
  lemma OpenReads(crc: Checksum, data: seq<byte>, limits: Limits) returns (v: Check, final: Check)
    requires Open(crc, data, limits).Some?
    ensures LimitsAllow(limits, data) && ChunkAt(data, 8).Some?
    ensures var header := ChunkAt(data, 8).value;
            && header.kind == Ihdr && HeaderAllowed(header) && v == Start(data, limits, header)
            && CanvasAllowed(limits, v.doc.width, v.doc.height)
    ensures Open(crc, data, limits) == Some(final.doc) && final.doc.data == data
    ensures Reading(crc, limits, data, 8, v, final) && Reading(crc, limits, data, 33, v, final)
  {
    hide FramesFrom, LastCursor, Inspect, ChunkAt;
    var header := ChunkAt(data, 8).value;
    v := Start(data, limits, header);
    final := Scan(crc, limits, data, 8, v).value;
    assert Good(limits, data, 8, v);
    HeaderPasses(crc, limits, data, header, v);
    ScanKeeps(crc, limits, data, 33, v);
  }

  lemma HeaderPasses(crc: Checksum, limits: Limits, data: seq<byte>, header: Chunk, v: Check)
    requires |header.name| == 4 && header.kind == Ihdr && !v.idat
    ensures Inspect(crc, limits, |data|, 8, header, v) == if NamedAndSummed(crc, header) then Some(v) else None
  {
    hide NamedAndSummed;
  }

  /** A successfully opened document: its prefix is readable and sums to prefixBytes, its frames
      number exactly frames, enumeration ends at the end of the file, and every enumerated frame
      lies on the canvas with a nonempty, fully counted payload. */
  lemma OpenFacts(crc: Checksum, data: seq<byte>, limits: Limits)
    requires Open(crc, data, limits).Some?
    ensures var d := Open(crc, data, limits).value;
            && d.data == data && 45 <= |data| && 33 <= d.prefixEnd < |data|
            && Prefixes(data, 33, d.prefixEnd).Some?
            && |Prefixes(data, 33, d.prefixEnd).value| == d.prefixBytes <= d.prefixEnd - 33
            && |FramesFrom(d, 0)| == d.frames && LastCursor(d, 0) == |data|
            && (forall f :: f in FramesFrom(d, 0) ==> FrameFacts(d, f))
  {
    var v, final := OpenReads(crc, data, limits);
    EnumerationFacts(crc, limits, data, 0, v, final);
    var u := PrefixFacts(crc, limits, data, 33, v);
  }

  /** A static document is one frame, played once. */
  lemma StaticPlaysOnce(crc: Checksum, data: seq<byte>, limits: Limits)
    requires Open(crc, data, limits).Some?
    ensures var d := Open(crc, data, limits).value; !d.animated ==> d.frames == d.plays == 1
  {
    hide Open, FramesFrom, LastCursor, ChunkAt, Scan;
    var v, final := OpenReads(crc, data, limits);
    ScanKeeps(crc, limits, data, 33, v);
  }
}
