/** Which documents a stream opens, in terms of the sizes that its frames need. */
module ApngStreamExactly {
  import opened Prelude
  import opened ApngContainer
  import opened ApngStream
  import Clocks = ApngTimeline
  import ApngRules
  import ApngOpens

  lemma {:induction false} LargestPngIs(fs: seq<Frame>)
    ensures fs != [] ==> exists f :: f in fs && f.pngBytes == LargestPng(fs)
  {
    if fs != [] {
      var n := |fs| - 1;
      LargestPngIs(fs[..n]);
      assert fs[n] in fs;
      if n > 0 {
        var f :| f in fs[..n] && f.pngBytes == LargestPng(fs[..n]);
        assert f in fs;
      } else {
        assert fs[..n] == [] && LargestPng([]) == 0 && LargestPng(fs) == fs[n].pngBytes;
      }
    }
  }

  lemma {:induction false} LargestRectangleIs(fs: seq<Frame>)
    ensures fs != [] ==> exists f :: f in fs && f.width * f.height * 4 == LargestRectangle(fs)
  {
    if fs != [] {
      var n := |fs| - 1;
      LargestRectangleIs(fs[..n]);
      assert fs[n] in fs;
      if n > 0 {
        var f :| f in fs[..n] && f.width * f.height * 4 == LargestRectangle(fs[..n]);
        assert f in fs;
      } else {
        assert fs[..n] == [] && LargestRectangle([]) == 0 && LargestRectangle(fs) == PictureSize(fs[n]);
      }
    }
  }

  /** A number of whole packets of 256 bytes that hold so many bytes and fit the limit. */
  predicate Holds(packets: nat, bytes: nat, limit: nat)
  {
    bytes <= 256 * packets <= limit
  }

  lemma PacketExactly(bytes: nat, limit: nat)
    ensures PacketFits(bytes, limit) <==> bytes + 255 <= 0xffff_ffff_ffff_ffff && exists packets: nat :: Holds(packets, bytes, limit)
  {
    if PacketFits(bytes, limit) { assert Holds((bytes + 255) / 256, bytes, limit); }
  }

  /** The frame p needs the largest PNG and the frame r the largest rectangle of all. */
  predicate Largest(fs: seq<Frame>, p: Frame, r: Frame)
  {
    p in fs && r in fs && forall f :: f in fs ==> f.pngBytes <= p.pngBytes && f.width * f.height * 4 <= r.width * r.height * 4
  }

  /** A stream may be opened exactly for an accepted document whose largest PNG fits the packet limit, and which fits
      the budget together with that PNG, the largest rectangle and two canvases, for a minimum delay of at most a
      second. */
  lemma StreamOpensExactly(crc: Checksum, data: seq<byte>, c: Config) returns (p: Frame, r: Frame)
    ensures Open(crc, data, c.limits).Some? ==> Largest(FramesFrom(Open(crc, data, c.limits).value, 0), p, r)
    ensures OpenAllowed(crc, data, c) <==>
              && Open(crc, data, c.limits).Some?
              && var d := Open(crc, data, c.limits).value;
                 && p.pngBytes + 255 <= 0xffff_ffff_ffff_ffff && (exists packets: nat :: Holds(packets, p.pngBytes, c.packetLimit))
                 && c.contextBytes + |data| + p.pngBytes + r.width * r.height * 4 + 2 * (d.width * d.height * 4) <= c.cpuBudget
                 && 1 <= c.minimumDelayUs <= 1_000_000
  {
    hide Open, FramesFrom, LargestPng, LargestRectangle, PacketFits;
    p := Frame(0, 0, 0, 0, 0, 0, 0, 0, 0, 0, 0);
    r := p;
    if Open(crc, data, c.limits).Some? {
      var d := Open(crc, data, c.limits).value;
      var fs := FramesFrom(d, 0);
      Opened(crc, data, c.limits, d);
      LargestPngIs(fs);
      LargestRectangleIs(fs);
      p :| p in fs && p.pngBytes == LargestPng(fs);
      r :| r in fs && r.width * r.height * 4 == LargestRectangle(fs);
      forall f | f in fs ensures f.width * f.height * 4 <= LargestRectangle(fs) { assert PictureSize(f) <= LargestRectangle(fs); }
      PacketExactly(p.pngBytes, c.packetLimit);
    }
  }

  lemma Opened(crc: Checksum, data: seq<byte>, limits: Limits, d: Doc)
    requires Open(crc, data, limits) == Some(d)
    ensures d.data == data && |FramesFrom(d, 0)| == d.frames > 0 && (d.animated || d.frames == 1)
  {
    hide Open, FramesFrom;
    DocumentSizes(crc, data, limits, d);
    StillIsOne(crc, data, limits, d);
  }

  lemma StillIsOne(crc: Checksum, data: seq<byte>, limits: Limits, d: Doc)
    requires Open(crc, data, limits) == Some(d)
    ensures d.animated || d.frames == 1
  {
    hide Open, FramesFrom;
    ApngOpens.OpenExactly(crc, data, limits);
    var cs := ApngRules.Cut(data, 8).value;
    if !d.animated { ApngOpens.AnnouncedOnce(cs, |cs|); }
  }
}
