/** What an extracted frame holds, chunk by chunk: the header with the frame's size, the chunks that every frame
    shares, the picture bytes of the frame's own data chunks, and the end. */
module ApngCopied {
  import opened Prelude
  import opened ApngContainer
  import opened ApngRules
  import opened ApngRuled
  import opened ApngFramed
  import opened ApngOpens
  import opened ApngPrinted
  import opened ApngEncoded
  import Trips = ApngRoundTrip

  // ----- the chunks of the copy -----

  /** The picture bytes of a data chunk: all of an IDAT, an fdAT without its number. */
  function PictureOf(c: Chunk): seq<byte>
  {
    if c.kind == Fdat && |c.body| >= 4 then c.body[4..] else c.body
  }

  /** The data chunks among i..e, each as an IDAT. */
  function Pictures(crc: Checksum, cs: seq<Chunk>, i: nat, e: nat): seq<Chunk>
    requires i <= e <= |cs|
    decreases e - i
  {
    if i == e then []
    else if Carries(cs[i]) then [Sealed(crc, IDAT, PictureOf(cs[i]))] + Pictures(crc, cs, i + 1, e)
    else Pictures(crc, cs, i + 1, e)
  }

  /** The chunks among i..e that every frame shares. */
  function Shared(cs: seq<Chunk>, i: nat, e: nat): seq<Chunk>
    requires i <= e <= |cs|
    decreases e - i
  {
    if i == e then []
    else if cs[i].kind != Actl && cs[i].kind != Fctl && cs[i].kind != Dctl then [cs[i]] + Shared(cs, i + 1, e)
    else Shared(cs, i + 1, e)
  }

  /** The header of a copy: the frame's size, and the file's depth, colour type and methods. */
  function HeaderOf(crc: Checksum, cs: seq<Chunk>, f: Frame): Chunk
    requires 0 < |cs| && |cs[0].body| == 13
  {
    Sealed(crc, IHDR, Put32(f.width) + Put32(f.height) + cs[0].body[8..])
  }

  /** The chunks of the standalone PNG of the frame begun by chunk i, in a file whose first IDAT is chunk b. */
  function CopyOf(crc: Checksum, cs: seq<Chunk>, i: nat, b: nat, f: Frame): seq<Chunk>
    requires i < |cs| && 1 <= b <= |cs| && |cs[0].body| == 13
  {
    [HeaderOf(crc, cs, f)] + Shared(cs, 1, b) + Pictures(crc, cs, i + 1, EndOf(cs, i + 1)) + [Sealed(crc, IEND, [])]
  }

  // ----- their bytes -----

  /** A chunk that can be written. */
  predicate Good(crc: Checksum, c: Chunk)
  {
    |c.name| == 4 && |c.body| <= INT32_MAX && c == Sealed(crc, c.name, c.body)
  }

  predicate AllGood(crc: Checksum, cs: seq<Chunk>)
  {
    forall c :: c in cs ==> Good(crc, c)
  }

  lemma {:induction false} BytesConcat(crc: Checksum, a: seq<Chunk>, b: seq<Chunk>)
    requires AllGood(crc, a) && AllGood(crc, b)
    ensures AllGood(crc, a + b) && Bytes(crc, a + b) == Bytes(crc, a) + Bytes(crc, b)
  {
    hide Wire, Good;
    GoodIs(crc, a);
    GoodIs(crc, b);
    if a == [] {
      assert a + b == b;
    } else {
      assert (a + b)[1..] == a[1..] + b;
      BytesConcat(crc, a[1..], b);
    }
  }

  lemma GoodIs(crc: Checksum, cs: seq<Chunk>)
    requires AllGood(crc, cs)
    ensures forall c :: c in cs ==> |c.name| == 4 && |c.body| <= INT32_MAX && c == Sealed(crc, c.name, c.body)
  {
  }

  lemma BytesOne(crc: Checksum, c: Chunk)
    requires Good(crc, c)
    ensures AllGood(crc, [c]) && Bytes(crc, [c]) == Wire(crc, c.name, c.body)
  {
    hide Wire;
    assert [c][1..] == [];
    assert Wire(crc, c.name, c.body) + [] == Wire(crc, c.name, c.body);
  }

  /** A chunk of an accepted file is sealed, and its bytes are those of the file. */
  lemma ChunkBytes(crc: Checksum, data: seq<byte>, limits: Limits, cs: seq<Chunk>, i: nat)
    requires Kept(crc, limits, cs) && Cut(data, 8) == Some(cs) && i < |cs|
    ensures Good(crc, cs[i]) && Place(cs, i) + Size(cs[i]) <= |data|
    ensures Wire(crc, cs[i].name, cs[i].body) == data[Place(cs, i)..Place(cs, i) + Size(cs[i])]
  {
    hide Kept, ChunkAt, Place, Wire, Cut, Formed;
    Stands(data, cs, i);
    LastEnds(data, Place(cs, i), cs[i]);
    IsFormed(crc, limits, cs, i);
    ReadIs(data, Place(cs, i), cs[i]);
    RewrittenChunk(crc, data, Place(cs, i));
  }

  lemma ReadIs(data: seq<byte>, pos: nat, c: Chunk)
    requires ChunkAt(data, pos) == Some(c)
    ensures |c.name| == 4 && c.kind == KindOf(c.name) && |c.body| <= INT32_MAX
  {
    hide KindOf, Be32;
  }

  lemma IsFormed(crc: Checksum, limits: Limits, cs: seq<Chunk>, i: nat)
    requires Kept(crc, limits, cs) && i < |cs|
    ensures Formed(crc, cs[i]) && |cs[i].name| == 4 && crc(cs[i].name + cs[i].body) == cs[i].check
  {
    hide HeaderRule;
    assert |cs[0].body| == 13 by { AtLeastOne(crc, limits, cs); }
    assert Rule(crc, cs, i, limits);
  }

  lemma PrefixesOn(data: seq<byte>, pos: nat, end: nat, c: Chunk, rest: seq<byte>)
    requires pos < end && ChunkAt(data, pos) == Some(c) && pos + Size(c) <= |data| && Prefixes(data, pos + Size(c), end) == Some(rest)
    ensures Prefixes(data, pos, end) == Some(if IsPrefix(c) then data[pos..pos + Size(c)] + rest else rest)
  {
    hide ChunkAt;
  }

  lemma PrefixesEnd(data: seq<byte>, pos: nat)
    ensures Prefixes(data, pos, pos) == Some([])
  {
  }

  /** The shared chunks are copied byte for byte. */
  lemma {:induction false} SharedBytes(crc: Checksum, data: seq<byte>, limits: Limits, cs: seq<Chunk>, i: nat, e: nat)
    requires Kept(crc, limits, cs) && Cut(data, 8) == Some(cs) && i <= e <= |cs|
    ensures AllGood(crc, Shared(cs, i, e)) && Prefixes(data, Place(cs, i), Place(cs, e)) == Some(Bytes(crc, Shared(cs, i, e)))
    decreases e - i
  {
    hide Kept, Cut, ChunkAt, Place, Wire, Good, Prefixes, Bytes, AllGood;
    NoneGood(crc);
    PrefixesEnd(data, Place(cs, e));
    if i < e {
      Stands(data, cs, i);
      ChunkBytes(crc, data, limits, cs, i);
      SharedBytes(crc, data, limits, cs, i + 1, e);
      PlacesGrow(cs, i, e);
      GoodIs(crc, Shared(cs, i + 1, e));
      PrefixesOn(data, Place(cs, i), Place(cs, e), cs[i], Bytes(crc, Shared(cs, i + 1, e)));
      BytesOne(crc, cs[i]);
      BytesConcat(crc, [cs[i]], Shared(cs, i + 1, e));
    }
  }

  lemma NoneGood(crc: Checksum)
    ensures AllGood(crc, []) && Bytes(crc, []) == []
  {
  }

  /** The picture bytes of the data chunks, in pieces. */
  function PieceOf(cs: seq<Chunk>, i: nat, e: nat): seq<seq<byte>>
    requires i <= e <= |cs|
    decreases e - i
  {
    if i == e then [] else if Carries(cs[i]) then [PictureOf(cs[i])] + PieceOf(cs, i + 1, e) else PieceOf(cs, i + 1, e)
  }

  lemma PiecesOn(data: seq<byte>, pos: nat, end: nat, c: Chunk, rest: seq<seq<byte>>)
    requires pos < end && ChunkAt(data, pos) == Some(c) && pos + Size(c) <= end && Pieces(data, pos + Size(c), end) == Some(rest)
    requires c.kind == Fdat ==> |c.body| >= 4
    ensures Pieces(data, pos, end) == Some(if Carries(c) then [PictureOf(c)] + rest else rest)
  {
    hide ChunkAt;
    assert c.body[0..] == c.body;
  }

  lemma PiecesEnd(data: seq<byte>, pos: nat)
    ensures Pieces(data, pos, pos) == Some([])
  {
  }

  lemma {:induction false} PiecesAre(crc: Checksum, data: seq<byte>, limits: Limits, cs: seq<Chunk>, i: nat, e: nat)
    requires Kept(crc, limits, cs) && Cut(data, 8) == Some(cs) && i <= e <= |cs|
    ensures Pieces(data, Place(cs, i), Place(cs, e)) == Some(PieceOf(cs, i, e))
    decreases e - i
  {
    hide Kept, Cut, ChunkAt, Place, Pieces, PictureOf, Carries;
    PiecesEnd(data, Place(cs, e));
    if i < e {
      Stands(data, cs, i);
      PlacesGrow(cs, i, e);
      PlacesGrow(cs, i + 1, e);
      DataIsLong(crc, limits, cs, i);
      PiecesAre(crc, data, limits, cs, i + 1, e);
      PiecesOn(data, Place(cs, i), Place(cs, e), cs[i], PieceOf(cs, i + 1, e));
    }
  }

  lemma DataIsLong(crc: Checksum, limits: Limits, cs: seq<Chunk>, i: nat)
    requires Kept(crc, limits, cs) && i < |cs|
    ensures cs[i].kind == Fdat ==> |cs[i].body| >= 4
  {
    hide Kept, ControlRule, EndRule;
    RuleHolds(crc, limits, cs, i);
  }

  lemma {:induction false} PictureBytes(crc: Checksum, data: seq<byte>, limits: Limits, cs: seq<Chunk>, i: nat, e: nat)
    requires Kept(crc, limits, cs) && Cut(data, 8) == Some(cs) && i <= e <= |cs|
    ensures AllGood(crc, Pictures(crc, cs, i, e)) && Writable(PieceOf(cs, i, e))
    ensures Bytes(crc, Pictures(crc, cs, i, e)) == Images(crc, PieceOf(cs, i, e))
    decreases e - i
  {
    hide Kept, Cut, Wire, Good, AllGood, Bytes, Images, Writable, PictureOf, Carries, Place, Sealed;
    NoneGood(crc);
    NoImages(crc);
    if i < e {
      ChunkBytes(crc, data, limits, cs, i);
      PictureBytes(crc, data, limits, cs, i + 1, e);
      if Carries(cs[i]) {
        PictureGood(crc, cs[i]);
        var c := Sealed(crc, IDAT, PictureOf(cs[i]));
        SealedIs(crc, PictureOf(cs[i]));
        BytesOne(crc, c);
        BytesConcat(crc, [c], Pictures(crc, cs, i + 1, e));
        ImagesOne(crc, PictureOf(cs[i]), PieceOf(cs, i + 1, e));
      }
    }
  }

  lemma SealedIs(crc: Checksum, p: seq<byte>)
    ensures var c := Sealed(crc, IDAT, p); c.name == IDAT && c.body == p
  {
  }

  lemma NoImages(crc: Checksum)
    ensures Writable([]) && Images(crc, []) == []
  {
  }

  lemma PictureGood(crc: Checksum, c: Chunk)
    requires Good(crc, c)
    ensures Good(crc, Sealed(crc, IDAT, PictureOf(c))) && |PictureOf(c)| <= INT32_MAX
  {
  }

  lemma ImagesOne(crc: Checksum, p: seq<byte>, rest: seq<seq<byte>>)
    requires |p| <= INT32_MAX && Writable(rest)
    ensures Writable([p] + rest) && Images(crc, [p] + rest) == Wire(crc, IDAT, p) + Images(crc, rest)
  {
    hide Wire;
    assert ([p] + rest)[1..] == rest;
  }

  /** No picture lies outside the span of a frame. */
  lemma {:induction false} NoPictures(crc: Checksum, cs: seq<Chunk>, i: nat, e: nat)
    requires i <= e <= |cs| && forall k :: i <= k < e ==> !Carries(cs[k])
    ensures Pictures(crc, cs, i, e) == []
    decreases e - i
  {
    if i < e { NoPictures(crc, cs, i + 1, e); }
  }

  lemma {:induction false} PicturesJoin(crc: Checksum, cs: seq<Chunk>, i: nat, m: nat, e: nat)
    requires i <= m <= e <= |cs|
    ensures Pictures(crc, cs, i, e) == Pictures(crc, cs, i, m) + Pictures(crc, cs, m, e)
    decreases m - i
  {
    if i < m {
      PicturesJoin(crc, cs, i + 1, m, e);
      var one := [Sealed(crc, IDAT, PictureOf(cs[i]))];
      assert one + (Pictures(crc, cs, i + 1, m) + Pictures(crc, cs, m, e)) == (one + Pictures(crc, cs, i + 1, m)) + Pictures(crc, cs, m, e);
    }
  }

  lemma SpanPictures(crc: Checksum, cs: seq<Chunk>, i: nat, e: nat, a: nat, b: nat)
    requires i <= e <= |cs| && Span(cs, i, e, a, b)
    ensures i <= a <= b < e && Pictures(crc, cs, i, e) == Pictures(crc, cs, a, b + 1)
  {
    hide Pictures;
    PicturesJoin(crc, cs, i, a, e);
    PicturesJoin(crc, cs, a, b + 1, e);
    NoPictures(crc, cs, i, a);
    NoPictures(crc, cs, b + 1, e);
  }

  // ----- the copy -----

  /** The bytes of the standalone PNG are those of the chunks of the copy. */
  lemma StandaloneBytes(crc: Checksum, d: Doc, f: Frame, h: Chunk, shared: seq<Chunk>, pictures: seq<Chunk>, p: seq<byte>, pieces: seq<seq<byte>>)
    requires 29 <= |d.data| && Writable(pieces) && h == Sealed(crc, IHDR, FrameHeader(d, f))
    requires AllGood(crc, shared) && AllGood(crc, pictures) && Bytes(crc, shared) == p && Bytes(crc, pictures) == Images(crc, pieces)
    ensures AllGood(crc, [h] + shared + pictures + [Sealed(crc, IEND, [])])
    ensures Standalone(crc, d, f, p, pieces) == SIGNATURE + Bytes(crc, [h] + shared + pictures + [Sealed(crc, IEND, [])])
  {
    hide Wire, AllGood, Bytes, Images, Writable, FrameHeader, KindOf, Good;
    var end := Sealed(crc, IEND, []);
    assert Good(crc, h) && Good(crc, end) by { EndsGood(crc, FrameHeader(d, f)); }
    BytesOne(crc, h);
    BytesOne(crc, end);
    BytesConcat(crc, [h], shared);
    BytesConcat(crc, [h] + shared, pictures);
    BytesConcat(crc, [h] + shared + pictures, [end]);
    var a, b := Wire(crc, IHDR, FrameHeader(d, f)), Wire(crc, IEND, []);
    assert SIGNATURE + a + p + Images(crc, pieces) + b == SIGNATURE + (a + p + Images(crc, pieces) + b);
  }

  lemma EndsGood(crc: Checksum, body: seq<byte>)
    requires |body| == 13
    ensures Good(crc, Sealed(crc, IHDR, body)) && Good(crc, Sealed(crc, IEND, []))
  {
  }

  /** The first IDAT of an accepted file is no header, and what stands before it starts at byte 33. */
  lemma HeaderPlace(data: seq<byte>, cs: seq<Chunk>)
    requires Cut(data, 8) == Some(cs) && 0 < |cs| && |cs[0].body| == 13
    ensures Place(cs, 1) == 33 <= |data| && cs[0].body == data[16..29]
  {
    hide Cut, ChunkAt;
    Stands(data, cs, 0);
    LastEnds(data, 8, cs[0]);
    ReadBody(data, cs[0]);
  }

  lemma ReadBody(data: seq<byte>, c: Chunk)
    requires ChunkAt(data, 8) == Some(c) && |c.body| == 13
    ensures 29 <= |data| && c.body == data[16..29]
  {
    hide KindOf, Be32;
  }

  lemma HeaderIs(crc: Checksum, data: seq<byte>, cs: seq<Chunk>, d: Doc, f: Frame)
    requires Cut(data, 8) == Some(cs) && 0 < |cs| && |cs[0].body| == 13 && d.data == data
    ensures 29 <= |data| && HeaderOf(crc, cs, f) == Sealed(crc, IHDR, FrameHeader(d, f))
  {
    hide Cut, Put32, Place;
    HeaderPlace(data, cs);
    assert cs[0].body[8..] == data[24..29];
  }

  /** Every frame of an accepted file is extracted, given room, as the chunks of its copy: the header with its size,
      the shared chunks, its own picture bytes, and the end. */
  lemma CopyChunks(crc: Checksum, data: seq<byte>, limits: Limits, d: Doc, cs: seq<Chunk>, i: nat, f: Frame, capacity: nat) returns (b: nat)
    requires Open(crc, data, limits) == Some(d) && Cut(data, 8) == Some(cs) && f in FramesFrom(d, 0) && f.pngBytes <= capacity
    requires i < |cs| && |cs[0].body| == 13 && IsFrame(cs, i, f)
    ensures 1 <= b <= |cs| && FirstImage(cs, |cs|, b) && Extracted(crc, d, f, capacity).Some?
    ensures var out := Extracted(crc, d, f, capacity).value;
            8 <= |out| && out[..8] == SIGNATURE && Cut(out, 8) == Some(CopyOf(crc, cs, i, b, f))
  {
    hide Open, Cut, FramesFrom, Extracted, FirstImage, IsFrame, CopyOf, Bytes, Place, Kept, DocumentOf, FramesOf, AllGood, Standalone;
    OpenExactly(crc, data, limits);
    AcceptableKeeps(crc, data, limits, cs);
    b := ImageOf(crc, data, limits, cs, d);
    var p, pieces, out := Trips.FrameIsExtracted(crc, data, limits, d, f, capacity);
    CopyBytes(crc, data, limits, d, cs, i, b, f, p, pieces);
    var copy := CopyOf(crc, cs, i, b, f);
    GoodIs(crc, copy);
    assert out == SIGNATURE + Bytes(crc, copy) && out[8..] == Bytes(crc, copy);
    CutPrinted(crc, out, 8, copy);
  }

  lemma CopyBytes(crc: Checksum, data: seq<byte>, limits: Limits, d: Doc, cs: seq<Chunk>, i: nat, b: nat, f: Frame,
                  p: seq<byte>, pieces: seq<seq<byte>>)
    requires Kept(crc, limits, cs) && Cut(data, 8) == Some(cs) && d.data == data && 45 <= |data|
    requires i < |cs| && |cs[0].body| == 13 && IsFrame(cs, i, f) && 1 <= b <= |cs| && d.prefixEnd == Place(cs, b)
    requires Prefixes(data, 33, d.prefixEnd) == Some(p) && Pieces(data, f.dataStart, f.dataEnd) == Some(pieces)
    ensures AllGood(crc, CopyOf(crc, cs, i, b, f)) && Writable(pieces)
    ensures (forall c :: c in CopyOf(crc, cs, i, b, f) ==> |c.name| == 4 && |c.body| <= INT32_MAX)
            && Standalone(crc, d, f, p, pieces) == SIGNATURE + Bytes(crc, CopyOf(crc, cs, i, b, f))
  {
    hide Cut, Pieces, Prefixes, Place, Kept, Bytes, AllGood, Standalone, IsFrame, Pictures, Shared, Images, Writable, FrameHeader, HeaderOf, EndOf, CopyOf,
         Span, Good, PieceOf;
    var x, y := SpanOf(cs, i, f);
    SpanPictures(crc, cs, i + 1, EndOf(cs, i + 1), x, y);
    HeaderPlace(data, cs);
    SharedBytes(crc, data, limits, cs, 1, b);
    PiecesAre(crc, data, limits, cs, x, y + 1);
    PictureBytes(crc, data, limits, cs, x, y + 1);
    HeaderIs(crc, data, cs, d, f);
    CopyIs(crc, cs, i, b, f);
    StandaloneBytes(crc, d, f, HeaderOf(crc, cs, f), Shared(cs, 1, b), Pictures(crc, cs, x, y + 1), p, pieces);
    GoodIs(crc, CopyOf(crc, cs, i, b, f));
  }

  lemma CopyIs(crc: Checksum, cs: seq<Chunk>, i: nat, b: nat, f: Frame)
    requires i < |cs| && 1 <= b <= |cs| && |cs[0].body| == 13
    ensures CopyOf(crc, cs, i, b, f) == [HeaderOf(crc, cs, f)] + Shared(cs, 1, b) + Pictures(crc, cs, i + 1, EndOf(cs, i + 1)) + [Sealed(crc, IEND, [])]
  {
  }

  lemma AcceptableKeeps(crc: Checksum, data: seq<byte>, limits: Limits, cs: seq<Chunk>)
    requires Acceptable(crc, data, limits) && Cut(data, 8) == Some(cs)
    ensures Kept(crc, limits, cs) && 0 < |cs|
  {
  }

  lemma ImageOf(crc: Checksum, data: seq<byte>, limits: Limits, cs: seq<Chunk>, d: Doc) returns (b: nat)
    requires Kept(crc, limits, cs) && 0 < |cs| && |cs[0].body| == 13 && DocumentOf(data, limits, cs, d)
    ensures 1 <= b <= |cs| && FirstImage(cs, |cs|, b) && d.prefixEnd == Place(cs, b) && d.data == data
  {
    hide Place;
    b :| FirstImage(cs, |cs|, b) && d.prefixEnd == Place(cs, b);
    AtLeastOne(crc, limits, cs);
    HeaderKind(cs[0]);
  }

  lemma HeaderKind(c: Chunk)
    requires HeaderRule(c)
    ensures c.kind == Ihdr
  {
  }

  lemma SpanOf(cs: seq<Chunk>, i: nat, f: Frame) returns (a: nat, b: nat)
    requires i < |cs| && |cs[0].body| == 13 && IsFrame(cs, i, f)
    ensures Span(cs, i + 1, EndOf(cs, i + 1), a, b) && f.dataStart == Place(cs, a) && f.dataEnd == Place(cs, b + 1)
  {
    hide Place, EndOf, Written, Still, Whole, Carries;
    a, b :| Span(cs, i + 1, EndOf(cs, i + 1), a, b) && f.dataStart == Place(cs, a) && f.dataEnd == Place(cs, b + 1);
  }
}
