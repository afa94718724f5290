/** A file opens exactly when its chunks keep the rules and its frames fit, and the document and the frames
    are then what the chunks say. */
module ApngOpens {
  import opened Prelude
  import opened ApngContainer
  import opened ApngRules
  import opened ApngRuled
  import opened ApngFramed

  /** Every frame's PNG fits the limit. */
  ghost predicate FramesFit(cs: seq<Chunk>, limit: nat)
    requires 0 < |cs|
  {
    if Seen(cs, |cs|, Actl) then AllFit(cs, 0, limit) else Whole(cs, 0) <= limit
  }

  predicate CanvasRule(cs: seq<Chunk>, limits: Limits)
    requires 0 < |cs| && |cs[0].body| == 13
  {
    1 <= Width(cs) <= 4096 && 1 <= Height(cs) <= 4096 && Width(cs) * Height(cs) <= limits.canvasPixels
  }

  predicate SizesAllowed(data: seq<byte>, limits: Limits)
  {
    && 0 < limits.fileBytes && 0 < limits.framePngBytes && 0 < limits.canvasPixels && 0 < limits.frames
    && 45 <= |data| <= limits.fileBytes
  }

  /** Which files open: a signature, and chunks that fill the file, keep their rules and have frames that fit. */
  ghost predicate Acceptable(crc: Checksum, data: seq<byte>, limits: Limits)
  {
    && SizesAllowed(data, limits) && data[..8] == SIGNATURE && Cut(data, 8).Some?
    && var cs := Cut(data, 8).value;
    && Kept(crc, limits, cs) && CanvasRule(cs, limits) && FramesFit(cs, limits.framePngBytes)
  }

  /** The document of a file with these chunks. */
  ghost predicate DocumentOf(data: seq<byte>, limits: Limits, cs: seq<Chunk>, d: Doc)
    requires 0 < |cs| && |cs[0].body| == 13
  {
    && d.data == data && d.maxFramePngBytes == limits.framePngBytes && d.width == Width(cs) && d.height == Height(cs)
    && d.animated == Seen(cs, |cs|, Actl) && (d.frames, d.plays) == Announced(cs, |cs|) && d.prefixBytes == Prefix(cs, |cs|)
    && exists b: nat :: FirstImage(cs, |cs|, b) && d.prefixEnd == Place(cs, b)
  }

  /** The frames of a file with these chunks: one for each fcTL, or the whole picture. */
  ghost predicate FramesOf(cs: seq<Chunk>, fs: seq<Frame>)
    requires 0 < |cs| && |cs[0].body| == 13
  {
    if Seen(cs, |cs|, Actl) then Listed(cs, 0, fs) else |fs| == 1 && IsFrame(cs, 0, fs[0])
  }

  // ----- cutting -----

  lemma {:induction false} ScanCuts(crc: Checksum, limits: Limits, data: seq<byte>, pos: nat, v: Check)
    ensures Scan(crc, limits, data, pos, v).Some? ==> Cut(data, pos).Some?
    decreases |data| - pos
  {
    hide ChunkAt, Inspect;
    if pos < |data| && ChunkAt(data, pos).Some? {
      var c := ChunkAt(data, pos).value;
      var w := Inspect(crc, limits, |data|, pos, c, v);
      if w.Some? { ScanCuts(crc, limits, data, pos + Size(c), w.value); }
    }
  }

  /** The chunks fill the file. */
  lemma CutFills(data: seq<byte>, cs: seq<Chunk>)
    requires 8 < |data| && Cut(data, 8) == Some(cs)
    ensures 0 < |cs| && Place(cs, |cs|) == |data| && ChunkAt(data, 8) == Some(cs[0])
  {
    hide ChunkAt, Place, Cut;
    CutSome(data, cs);
    Stands(data, cs, |cs|);
    Stands(data, cs, |cs| - 1);
    CutNone(data, Place(cs, |cs|), cs[|cs|..]);
    LastEnds(data, Place(cs, |cs| - 1), cs[|cs| - 1]);
  }

  lemma LastEnds(data: seq<byte>, pos: nat, c: Chunk)
    requires ChunkAt(data, pos) == Some(c)
    ensures pos + Size(c) <= |data|
  {
  }

  lemma CutSome(data: seq<byte>, cs: seq<Chunk>)
    requires 8 < |data| && Cut(data, 8) == Some(cs)
    ensures 0 < |cs| && ChunkAt(data, 8) == Some(cs[0])
  {
    hide ChunkAt;
  }

  lemma CutNone(data: seq<byte>, pos: nat, none: seq<Chunk>)
    requires Cut(data, pos) == Some(none) && |none| == 0
    ensures pos >= |data|
  {
    hide ChunkAt;
  }

  lemma HeaderForms(c: Chunk)
    ensures HeaderRule(c) <==> c.kind == Ihdr && HeaderAllowed(c)
  {
  }

  lemma Starts(data: seq<byte>, limits: Limits, cs: seq<Chunk>)
    requires 0 < |cs| && |cs[0].body| == 13
    ensures Describes(data, limits, cs, 0, Start(data, limits, cs[0]))
    ensures CanvasRule(cs, limits) <==> CanvasAllowed(limits, Start(data, limits, cs[0]).doc.width, Start(data, limits, cs[0]).doc.height)
  {
    NumberIsBe32(cs[0].body[..4]);
    NumberIsBe32(cs[0].body[4..8]);
  }

  // ----- the end of the scan -----

  lemma {:induction false} AnnouncedOnce(cs: seq<Chunk>, i: nat)
    requires i <= |cs| && !Seen(cs, i, Actl)
    ensures Announced(cs, i) == (1, 1)
  {
    hide Number;
    if i > 0 { AnnouncedOnce(cs, i - 1); }
  }

  /** As many fcTL as acTL announces. */
  lemma AsAnnounced(crc: Checksum, limits: Limits, cs: seq<Chunk>)
    requires Kept(crc, limits, cs)
    ensures Seen(cs, |cs|, Actl) ==> Announced(cs, |cs|).0 == Controls(cs, |cs|)
    ensures !Seen(cs, |cs|, Actl) ==> Announced(cs, |cs|) == (1, 1)
  {
    hide Kept, ControlRule, FrameDataRule, Number, Controls, Announced, Payload, Default, Seen;
    AtLeastOne(crc, limits, cs);
    var last := |cs| - 1;
    RuleHolds(crc, limits, cs, last);
    CountsNext(cs, last);
    if !Seen(cs, |cs|, Actl) { AnnouncedOnce(cs, |cs|); }
  }

  /** IEND is the last chunk, so it was seen exactly when it is there. */
  lemma EndIsLast(crc: Checksum, limits: Limits, cs: seq<Chunk>)
    requires 0 < |cs| && |cs[0].body| == 13 && Rules(crc, cs, limits, 0)
    ensures Seen(cs, |cs|, Iend) <==> cs[|cs| - 1].kind == Iend
  {
    hide Formed, Default, Controls, Announced, Payload;
    if Seen(cs, |cs|, Iend) {
      var j :| 0 <= j < |cs| && cs[j].kind == Iend;
      assert Rule(crc, cs, j, limits);
    }
  }

  lemma PrefixFits(crc: Checksum, limits: Limits, cs: seq<Chunk>)
    requires Kept(crc, limits, cs) && FramesFit(cs, limits.framePngBytes)
    ensures Prefix(cs, |cs|) <= limits.framePngBytes
  {
    hide Kept, Whole, EndOf, Prefix, Seen;
    assert 0 < |cs| by { AtLeastOne(crc, limits, cs); }
    if Seen(cs, |cs|, Actl) {
      AnimatedHasControl(crc, limits, cs);
      var i := EndOf(cs, 0);
      WholeIs(cs, i, EndOf(cs, i + 1));
    } else {
      WholeIs(cs, 0, EndOf(cs, 1));
    }
  }

  lemma AtLeastOne(crc: Checksum, limits: Limits, cs: seq<Chunk>)
    requires Kept(crc, limits, cs)
    ensures 0 < |cs| && |cs[0].body| == 13 && HeaderRule(cs[0]) && Rules(crc, cs, limits, 0) && cs[|cs| - 1].kind == Iend
  {
  }

  /** What the scan leaves is the document. */
  lemma ScanDocument(data: seq<byte>, limits: Limits, cs: seq<Chunk>, v: Check)
    requires 0 < |cs| && |cs[0].body| == 13 && Describes(data, limits, cs, |cs|, v)
    ensures v.ended <==> Seen(cs, |cs|, Iend)
    ensures Seen(cs, |cs|, Idat) ==> DocumentOf(data, limits, cs, v.doc)
  {
    hide Seen, Place, Width, Height, Announced, Prefix, Controls, Numbered, Payload, Default, DefaultIncluded, FirstImage;
  }

  lemma HasImage(crc: Checksum, limits: Limits, cs: seq<Chunk>)
    requires Kept(crc, limits, cs)
    ensures Seen(cs, |cs|, Idat)
  {
    hide Kept, ControlRule, FrameDataRule, Controls, Announced, Payload, Default;
    AtLeastOne(crc, limits, cs);
    RuleHolds(crc, limits, cs, |cs| - 1);
  }

  /** The frames of a document whose chunks kept the rules. */
  lemma DocumentFrames(crc: Checksum, data: seq<byte>, limits: Limits, cs: seq<Chunk>, d: Doc)
    requires Kept(crc, limits, cs) && |cs[0].body| == 13 && Cut(data, 8) == Some(cs) && DocumentOf(data, limits, cs, d)
    ensures LastCursor(d, 0) == |data| <==> FramesFit(cs, limits.framePngBytes)
    ensures FramesFit(cs, limits.framePngBytes) ==> FramesOf(cs, FramesFrom(d, 0)) && |FramesFrom(d, 0)| == d.frames
  {
    hide Kept, Cut, LastCursor, FramesFrom, IsFrame, Whole, AllFit, Seen, Announced, Place, Prefix, FirstImage, Width, Height;
    assert Passed(crc, data, limits, cs, d);
    AsAnnounced(crc, limits, cs);
    if d.animated {
      AnimatedFrames(crc, data, limits, cs, d);
    } else {
      StillFrames(crc, data, limits, cs, d);
    }
  }

  // ----- opening -----

  /** The scan of a file with these chunks, from its start. */
  lemma ScanIs(crc: Checksum, data: seq<byte>, limits: Limits, cs: seq<Chunk>)
    requires 8 < |data| <= SIZE_MAX && Cut(data, 8) == Some(cs) && 0 < |cs| && HeaderRule(cs[0]) && |cs[0].body| == 13
    ensures var s := Scan(crc, limits, data, 8, Start(data, limits, cs[0]));
            && (s.Some? && s.value.ended <==> Kept(crc, limits, cs) && Prefix(cs, |cs|) <= limits.framePngBytes)
            && (s.Some? && s.value.ended ==> DocumentOf(data, limits, cs, s.value.doc))
  {
    hide Describes, Scan, Place, HeaderRule, Prefix, Rules, Cut, DocumentOf, Seen;
    CutFills(data, cs);
    FirstPlace(cs, 0);
    Stands(data, cs, 0);
    Starts(data, limits, cs);
    NoPrefix(cs);
    ScanExactly(data, limits, crc, cs, 0, Start(data, limits, cs[0]));
    var s := Scan(crc, limits, data, 8, Start(data, limits, cs[0]));
    if s.Some? {
      ScanDocument(data, limits, cs, s.value);
      EndIsLast(crc, limits, cs);
      if s.value.ended { HasImage(crc, limits, cs); }
    }
  }

  lemma NoPrefix(cs: seq<Chunk>)
    ensures Prefix(cs, 0) == 0
  {
  }

  /** Open accepts exactly the acceptable files, with the document and the frames that the chunks say. */
  lemma OpenExactly(crc: Checksum, data: seq<byte>, limits: Limits)
    ensures Open(crc, data, limits).Some? <==> Acceptable(crc, data, limits)
    ensures Open(crc, data, limits).Some? ==>
              var d, cs := Open(crc, data, limits).value, Cut(data, 8).value;
              && 0 < |cs| && |cs[0].body| == 13 && DocumentOf(data, limits, cs, d) && FramesOf(cs, FramesFrom(d, 0)) && |FramesFrom(d, 0)| == d.frames
  {
    hide Cut, Scan, HeaderRule, HeaderAllowed, CanvasRule, CanvasAllowed, FramesFit, FramesOf, DocumentOf, LastCursor, FramesFrom, Kept, Start, ChunkAt, Prefix;
    if LimitsAllow(limits, data) {
      if Cut(data, 8).Some? {
        var cs := Cut(data, 8).value;
        CutFills(data, cs);
        HeaderForms(cs[0]);
        if HeaderAllowed(cs[0]) { HeaderSize(cs[0]); }
        if Kept(crc, limits, cs) { AtLeastOne(crc, limits, cs); }
        if HeaderRule(cs[0]) { OpenCut(crc, data, limits, cs); }
      } else if ChunkAt(data, 8).Some? {
        NotCut(crc, data, limits);
      }
    }
  }

  lemma NotCut(crc: Checksum, data: seq<byte>, limits: Limits)
    requires LimitsAllow(limits, data) && Cut(data, 8).None?
    ensures Open(crc, data, limits).None?
  {
    hide Cut, Scan, HeaderAllowed, LastCursor, FramesFrom, ChunkAt;
    var c := ChunkAt(data, 8);
    if c.Some? && HeaderAllowed(c.value) {
      assert |c.value.body| == 13 by { HeaderSize(c.value); }
      ScanCuts(crc, limits, data, 8, Start(data, limits, c.value));
    }
  }

  lemma HeaderSize(c: Chunk)
    requires HeaderAllowed(c)
    ensures |c.body| == 13
  {
  }

  lemma OpenCut(crc: Checksum, data: seq<byte>, limits: Limits, cs: seq<Chunk>)
    requires LimitsAllow(limits, data) && Cut(data, 8) == Some(cs) && 0 < |cs| && HeaderRule(cs[0]) && |cs[0].body| == 13
    requires ChunkAt(data, 8) == Some(cs[0])
    ensures Open(crc, data, limits).Some?
       <==> Kept(crc, limits, cs) && CanvasRule(cs, limits) && FramesFit(cs, limits.framePngBytes)
    ensures Open(crc, data, limits).Some? ==>
              var d := Open(crc, data, limits).value;
              DocumentOf(data, limits, cs, d) && FramesOf(cs, FramesFrom(d, 0)) && |FramesFrom(d, 0)| == d.frames
  {
    hide Cut, Scan, HeaderRule, HeaderAllowed, CanvasRule, CanvasAllowed, FramesFit, FramesOf, DocumentOf, LastCursor, FramesFrom, Kept, Start, ChunkAt, Prefix;
    HeaderForms(cs[0]);
    HeaderSize(cs[0]);
    Starts(data, limits, cs);
    ScanIs(crc, data, limits, cs);
    var s := Scan(crc, limits, data, 8, Start(data, limits, cs[0]));
    if s.Some? && s.value.ended { DocumentFrames(crc, data, limits, cs, s.value.doc); }
    if Kept(crc, limits, cs) && FramesFit(cs, limits.framePngBytes) { PrefixFits(crc, limits, cs); }
  }
}
