/** An animation as an encoder writes it, one data chunk for each frame, opens with the size, the number of
    frames and plays, and the frames that were written, whatever the number of plays. */
module ApngEncoded {
  import opened Prelude
  import opened ApngContainer
  import opened ApngRules
  import opened ApngRuled
  import opened ApngFramed
  import opened ApngOpens
  import opened ApngPrinted

  /** The bytes of an IHDR body. */
  datatype Header = Header(width: u32, height: u32, depth: byte, color: byte, interlace: byte)

  function HeaderBody(h: Header): (b: seq<byte>)
    ensures |b| == 13
  {
    Put32(h.width) + Put32(h.height) + [h.depth, h.color, 0, 0, h.interlace]
  }

  /** A chunk with its checksum. */
  function Sealed(crc: Checksum, name: seq<byte>, body: seq<byte>): Chunk
  {
    Chunk(name, KindOf(name), body, crc(name + body))
  }

  /** What is animated: a header, a number of plays and the frames. */
  datatype Animation = Animation(header: Header, plays: u32, shots: seq<Shot>)

  /** Frames that may be shown on the canvas, the first one all over it. */
  predicate Showable(a: Animation)
  {
    var h, n := a.header, |a.shots|;
    && 1 <= n <= 0x4000_0000 && 1 <= h.width <= 4096 && 1 <= h.height <= 4096 && h.interlace <= 1
    && (h.color as int, h.depth as int) in {(0, 8), (0, 16), (2, 8), (2, 16), (4, 8), (4, 16), (6, 8), (6, 16)}
    && a.shots[0].width == h.width && a.shots[0].height == h.height && a.shots[0].x == a.shots[0].y == 0
    && forall s :: s in a.shots ==>
         && 0 < s.width && 0 < s.height && s.x + s.width <= h.width && s.y + s.height <= h.height
         && s.dispose <= 2 && s.blend <= 1 && 0 < |s.picture| <= INT32_MAX - 4
  }

  /** Chunk i of the file: IHDR, acTL, then fcTL and IDAT or fdAT for each frame, then IEND. */
  function ChunkNo(crc: Checksum, a: Animation, i: nat): Chunk
    requires Showable(a) && i < 3 + 2 * |a.shots|
  {
    if i == 0 then Sealed(crc, IHDR, HeaderBody(a.header))
    else if i == 1 then Sealed(crc, ACTL, Put32(|a.shots|) + Put32(a.plays))
    else if i == 2 + 2 * |a.shots| then Sealed(crc, IEND, [])
    else if i % 2 == 0 then Sealed(crc, FCTL, ControlBody(if i == 2 then 0 else i - 3, a.shots[i / 2 - 1]))
    else if i == 3 then Sealed(crc, IDAT, a.shots[0].picture)
    else Sealed(crc, FDAT, Put32(i - 3) + a.shots[i / 2 - 1].picture)
  }

  function ChunksOf(crc: Checksum, a: Animation): (cs: seq<Chunk>)
    requires Showable(a)
    ensures |cs| == 3 + 2 * |a.shots|
  {
    seq(3 + 2 * |a.shots|, i requires 0 <= i < 3 + 2 * |a.shots| => ChunkNo(crc, a, i))
  }

  /** The bytes of chunks. */
  function Bytes(crc: Checksum, cs: seq<Chunk>): seq<byte>
    requires forall c :: c in cs ==> |c.name| == 4 && |c.body| <= INT32_MAX
  {
    if cs == [] then [] else Wire(crc, cs[0].name, cs[0].body) + Bytes(crc, cs[1..])
  }

  /** Printed chunks are cut as they were printed. */
  lemma {:induction false} CutPrinted(crc: Checksum, data: seq<byte>, pos: nat, cs: seq<Chunk>)
    requires forall c :: c in cs ==> |c.name| == 4 && |c.body| <= INT32_MAX && c == Sealed(crc, c.name, c.body)
    requires pos <= |data| && data[pos..] == Bytes(crc, cs)
    ensures Cut(data, pos) == Some(cs)
    decreases |cs|
  {
    hide ChunkAt, KindOf, Wire;
    if cs != [] {
      var c, rest := cs[0], Bytes(crc, cs[1..]);
      var w := Wire(crc, c.name, c.body);
      assert data[pos..][..|w|] == w && data[pos..][|w|..] == rest;
      assert data[pos..pos + |w|] == w && data[pos + |w|..] == rest;
      WrittenChunk(crc, c.name, c.body, data, pos);
      CutPrinted(crc, data, pos + |w|, cs[1..]);
      assert cs == [c] + cs[1..];
    }
  }

  // ----- the numbers before each chunk -----

  lemma ChunkIs(crc: Checksum, a: Animation, i: nat)
    requires Showable(a) && i < 3 + 2 * |a.shots|
    ensures var c, n := ChunksOf(crc, a)[i], |a.shots|;
            && c == ChunkNo(crc, a, i) == Sealed(crc, c.name, c.body) && Formed(crc, c) && |c.body| <= INT32_MAX
            && c.kind == (if i == 0 then Ihdr else if i == 1 then Actl else if i == 2 + 2 * n then Iend
                          else if i % 2 == 0 then Fctl else if i == 3 then Idat else Fdat)
  {
    hide ControlBody, HeaderBody, Put32;
  }

  /** What stands before chunk i, from the first fcTL on. */
  predicate Before(a: Animation, cs: seq<Chunk>, i: nat)
    requires Showable(a) && 2 <= i <= |cs| && |cs| == 3 + 2 * |a.shots|
  {
    && Seen(cs, i, Actl) && (Seen(cs, i, Idat) <==> i >= 4) && Announced(cs, i) == (|a.shots|, a.plays as nat)
    && Controls(cs, i) == (i - 1) / 2 && Numbered(cs, i) == (if i <= 3 then i - 2 else i - 3) && Prefix(cs, i) == 0
    && (i % 2 == 0 && i >= 4 ==> Payload(cs, i) == |a.shots[i / 2 - 2].picture|)
    && (i % 2 == 1 ==> Payload(cs, i) == 0)
    && (i >= 4 ==> Default(cs, i) == |a.shots[0].picture|)
    && (i <= 3 ==> Default(cs, i) == 0)
  }

  lemma AnimationNumbers(a: Animation)
    requires Showable(a)
    ensures var b := Put32(|a.shots|) + Put32(a.plays);
            |b| == 8 && Number(b[..4]) == |a.shots| && Number(b[4..]) == a.plays
  {
    hide Put32, Number;
    var b := Put32(|a.shots|) + Put32(a.plays);
    assert b[..4] == Put32(|a.shots|) && b[4..] == Put32(a.plays);
    NumberOfPut32(|a.shots|);
    NumberOfPut32(a.plays);
  }

  lemma FrameDataNumber(n: u32, picture: seq<byte>)
    ensures var b := Put32(n) + picture; |b| == 4 + |picture| && Number(b[..4]) == n
  {
    hide Number;
    var b := Put32(n) + picture;
    assert b[..4] == Put32(n);
    NumberOfPut32(n);
  }

  /** What one more chunk adds to the prefix. */
  lemma PrefixNext(cs: seq<Chunk>, i: nat)
    requires 0 < i < |cs|
    ensures Prefix(cs, i + 1) == Prefix(cs, i)
                               + if !Seen(cs, i, Idat) && cs[i].kind !in {Idat, Actl, Fctl, Dctl} then Size(cs[i]) else 0
  {
    hide Seen;
    SeenNext(cs, i, Idat);
    assert Prefix(cs, i + 1) == Prefix(cs, i)
        + if !Seen(cs, i + 1, Idat) && cs[i].kind != Actl && cs[i].kind != Fctl && cs[i].kind != Dctl then Size(cs[i]) else 0;
  }

  lemma FirstTwo(crc: Checksum, a: Animation, cs: seq<Chunk>)
    requires Showable(a) && cs == ChunksOf(crc, a)
    ensures Before(a, cs, 2)
  {
    hide Seen, Number, ChunkNo, Sealed, Put32, Formed;
    ChunkIs(crc, a, 0);
    ChunkIs(crc, a, 1);
    AnimationNumbers(a);
    CountsNext(cs, 0);
    CountsNext(cs, 1);
    PrefixNext(cs, 1);
    assert forall k :: !Seen(cs, 0, k) by { NoneSeen(cs); }
    BodyOf(crc, a, 1);
    SeenNext(cs, 0, Actl);
    SeenNext(cs, 1, Actl);
    SeenNext(cs, 0, Idat);
    SeenNext(cs, 1, Idat);
  }

  lemma NoneSeen(cs: seq<Chunk>)
    ensures forall k :: !Seen(cs, 0, k)
  {
  }

  /** The body of chunk i. */
  lemma BodyOf(crc: Checksum, a: Animation, i: nat)
    requires Showable(a) && i < 3 + 2 * |a.shots|
    ensures var b, n := ChunksOf(crc, a)[i].body, |a.shots|;
            b == if i == 0 then HeaderBody(a.header) else if i == 1 then Put32(n) + Put32(a.plays) else if i == 2 + 2 * n then []
                 else if i % 2 == 0 then ControlBody(if i == 2 then 0 else i - 3, a.shots[i / 2 - 1])
                 else if i == 3 then a.shots[0].picture else Put32(i - 3) + a.shots[i / 2 - 1].picture
  {
    hide ControlBody, HeaderBody, Put32;
  }

  lemma {:induction false} AllBefore(crc: Checksum, a: Animation, cs: seq<Chunk>, i: nat)
    requires Showable(a) && cs == ChunksOf(crc, a) && 2 <= i <= 2 + 2 * |a.shots|
    ensures Before(a, cs, i)
  {
    hide ChunksOf, Before, Showable;
    if i == 2 {
      FirstTwo(crc, a, cs);
    } else {
      AllBefore(crc, a, cs, i - 1);
      OneMore(crc, a, cs, i - 1);
    }
  }

  lemma OneMore(crc: Checksum, a: Animation, cs: seq<Chunk>, i: nat)
    requires Showable(a) && cs == ChunksOf(crc, a) && 2 <= i < 2 + 2 * |a.shots| && Before(a, cs, i)
    ensures Before(a, cs, i + 1)
  {
    hide Seen, Number, ChunkNo, Sealed, Put32, Formed, ChunksOf, Controls, Numbered, Payload, Default, Prefix, Announced, DefaultIncluded,
         ControlBody;
    ChunkIs(crc, a, i);
    BodyOf(crc, a, i);
    CountsNext(cs, i);
    PrefixNext(cs, i);
    if i % 2 == 1 && i > 3 { FrameDataNumber(i - 3, a.shots[i / 2 - 1].picture); }
  }

  // ----- every rule is kept -----

  lemma HeaderKept(crc: Checksum, a: Animation, limits: Limits)
    requires Showable(a) && a.header.width * a.header.height <= limits.canvasPixels
    ensures var cs := ChunksOf(crc, a); HeaderRule(cs[0]) && CanvasRule(cs, limits)
    ensures var cs := ChunksOf(crc, a); Width(cs) == a.header.width && Height(cs) == a.header.height && Color(cs) != 3
  {
    hide Number, Put32, ChunksOf, ChunkNo, Formed, Sealed;
    var h, b := a.header, HeaderBody(a.header);
    assert b[..4] == Put32(h.width) && b[4..8] == Put32(h.height) && b[8] == h.depth && b[9] == h.color && b[10] == b[11] == 0 && b[12] == h.interlace;
    NumberOfPut32(h.width);
    NumberOfPut32(h.height);
    ChunkIs(crc, a, 0);
    BodyOf(crc, a, 0);
  }

  lemma ControlKept(crc: Checksum, a: Animation, cs: seq<Chunk>, i: nat)
    requires Showable(a) && cs == ChunksOf(crc, a) && 2 <= i < 2 + 2 * |a.shots| && i % 2 == 0 && Before(a, cs, i)
    requires |cs[0].body| == 13 && Width(cs) == a.header.width && Height(cs) == a.header.height
    ensures ControlRule(cs, i)
  {
    hide Seen, Number, ChunkNo, Sealed, Put32, Formed, ChunksOf, Controls, Numbered, Payload, Default, Prefix, Announced, ControlBody, Width, Height;
    BodyOf(crc, a, i);
    ControlNumbers(if i == 2 then 0 else i - 3, a.shots[i / 2 - 1]);
  }

  lemma FrameDataKept(crc: Checksum, a: Animation, cs: seq<Chunk>, i: nat)
    requires Showable(a) && cs == ChunksOf(crc, a) && 4 <= i < 2 + 2 * |a.shots| && i % 2 == 1 && Before(a, cs, i)
    ensures FrameDataRule(cs, i)
  {
    hide Seen, Number, ChunkNo, Sealed, Put32, Formed, ChunksOf, Controls, Numbered, Payload, Default, Prefix, Announced, DefaultIncluded;
    BodyOf(crc, a, i);
    FrameDataNumber(i - 3, a.shots[i / 2 - 1].picture);
  }

  lemma OtherKept(crc: Checksum, a: Animation, cs: seq<Chunk>, limits: Limits)
    requires Showable(a) && cs == ChunksOf(crc, a) && |a.shots| <= limits.frames && |cs[0].body| == 13 && Color(cs) != 3
    ensures AnimationRule(cs, 1, limits) && ImageRule(cs, 3) && EndRule(cs, |cs| - 1)
  {
    hide Number, ChunkNo, Sealed, Put32, Formed, ChunksOf, Controls, Numbered, Payload, Default, Prefix, Announced, DefaultIncluded, Color;
    var last := |cs| - 1;
    BodyOf(crc, a, 1);
    BodyOf(crc, a, last);
    ChunkIs(crc, a, 0);
    AnimationNumbers(a);
    AllBefore(crc, a, cs, 3);
    AllBefore(crc, a, cs, last);
  }

  lemma RuleKept(crc: Checksum, a: Animation, cs: seq<Chunk>, limits: Limits, i: nat)
    requires Showable(a) && cs == ChunksOf(crc, a) && |a.shots| <= limits.frames && i < |cs|
    requires |cs[0].body| == 13 && Width(cs) == a.header.width && Height(cs) == a.header.height && Color(cs) != 3
    ensures Rule(crc, cs, i, limits)
  {
    hide ChunkNo, Sealed, Formed, ChunksOf, Before, AnimationRule, ControlRule, ImageRule, FrameDataRule, EndRule, Width, Height, Color;
    ChunkIs(crc, a, i);
    OtherKept(crc, a, cs, limits);
    if 2 <= i < |cs| - 1 {
      AllBefore(crc, a, cs, i);
      if i % 2 == 0 { ControlKept(crc, a, cs, i); } else if i > 3 { FrameDataKept(crc, a, cs, i); }
    }
  }

  lemma KeptAll(crc: Checksum, a: Animation, cs: seq<Chunk>, limits: Limits)
    requires Showable(a) && cs == ChunksOf(crc, a) && |a.shots| <= limits.frames && a.header.width * a.header.height <= limits.canvasPixels
    ensures Kept(crc, limits, cs) && CanvasRule(cs, limits) && cs[|cs| - 1].kind == Iend
    ensures Width(cs) == a.header.width && Height(cs) == a.header.height
  {
    hide Showable, ChunksOf, Rule, Width, Height, Color, Formed;
    HeaderKept(crc, a, limits);
    ChunkIs(crc, a, |cs| - 1);
    forall i | 0 <= i < |cs| ensures Rule(crc, cs, i, limits) { RuleKept(crc, a, cs, limits, i); }
  }

  /** Each frame has one data chunk. */
  lemma OneData(crc: Checksum, a: Animation, cs: seq<Chunk>, i: nat)
    requires Showable(a) && cs == ChunksOf(crc, a) && 2 <= i < |cs| - 1 && i % 2 == 0 && Prefix(cs, |cs|) == 0
    ensures Whole(cs, i) == 57 + |a.shots[i / 2 - 1].picture|
  {
    hide ChunkNo, Sealed, Formed, ChunksOf, Prefix, Put32, EndOf, Cost, ControlBody, HeaderBody, KindOf, Carries;
    assert Carries(cs[i + 1]) && Picture(cs[i + 1]) == |a.shots[i / 2 - 1].picture| by { DataOf(crc, a, cs, i); }

    ChunkIs(crc, a, i + 2);
    EndsNext(cs, i + 1);
  }

  lemma DataOf(crc: Checksum, a: Animation, cs: seq<Chunk>, i: nat)
    requires Showable(a) && cs == ChunksOf(crc, a) && 2 <= i < |cs| - 1 && i % 2 == 0
    ensures Carries(cs[i + 1]) && Picture(cs[i + 1]) == |a.shots[i / 2 - 1].picture|
  {
    hide ChunkNo, Sealed, Formed, ChunksOf, ControlBody, HeaderBody, Put32, KindOf;
    assert (i + 1) % 2 == 1 && (i + 1) / 2 == i / 2;
    ChunkIs(crc, a, i + 1);
    BodyOf(crc, a, i + 1);
  }

  /** A data chunk and then the end of the frame. */
  lemma EndsNext(cs: seq<Chunk>, j: nat)
    requires j + 1 < |cs| && Carries(cs[j]) && (cs[j + 1].kind == Fctl || cs[j + 1].kind == Iend)
    ensures EndOf(cs, j) == j + 1 && Cost(cs, j, j + 1) == Picture(cs[j]) + 12
  {
    assert EndOf(cs, j + 1) == j + 1;
    assert Cost(cs, j, j) == 0;
  }

  lemma AllFits(crc: Checksum, a: Animation, cs: seq<Chunk>, limits: Limits)
    requires Showable(a) && cs == ChunksOf(crc, a) && forall s :: s in a.shots ==> 57 + |s.picture| <= limits.framePngBytes
    ensures FramesFit(cs, limits.framePngBytes) && Seen(cs, |cs|, Actl) && Announced(cs, |cs|) == (|a.shots|, a.plays as nat)
  {
    hide ChunkNo, Sealed, Formed, ChunksOf, Whole, Prefix, Showable, Announced;
    var last := |cs| - 1;
    AllBefore(crc, a, cs, last);
    ChunkIs(crc, a, last);
    CountsNext(cs, last);
    PrefixNext(cs, last);
    assert Prefix(cs, |cs|) == 0 by { EndAfterImage(crc, a, cs); }
    forall j | 0 <= j < |cs| && cs[j].kind == Fctl ensures Whole(cs, j) <= limits.framePngBytes {
      ChunkIs(crc, a, j);
      OneData(crc, a, cs, j);
      assert a.shots[j / 2 - 1] in a.shots;
    }
  }

  lemma EndAfterImage(crc: Checksum, a: Animation, cs: seq<Chunk>)
    requires Showable(a) && cs == ChunksOf(crc, a)
    ensures Prefix(cs, |cs|) == 0
  {
    hide ChunkNo, Sealed, Formed, ChunksOf, Seen, Prefix;
    var last := |cs| - 1;
    AllBefore(crc, a, cs, last);
    PrefixNext(cs, last);
  }

  // ----- opening what was written -----

  /** The file. */
  function File(crc: Checksum, a: Animation): seq<byte>
    requires Showable(a)
  {
    var cs := ChunksOf(crc, a);
    AllNamed(crc, a);
    SIGNATURE + Bytes(crc, cs)
  }

  lemma AllNamed(crc: Checksum, a: Animation)
    requires Showable(a)
    ensures forall c :: c in ChunksOf(crc, a) ==> |c.name| == 4 && |c.body| <= INT32_MAX && c == Sealed(crc, c.name, c.body)
  {
    hide ChunkNo, Sealed, ChunksOf, Showable;
    var cs := ChunksOf(crc, a);
    forall c | c in cs ensures |c.name| == 4 && |c.body| <= INT32_MAX && c == Sealed(crc, c.name, c.body) {
      var i :| 0 <= i < |cs| && cs[i] == c;
      ChunkIs(crc, a, i);
    }
  }

  /** A written animation opens, for every number of plays, with its size, frames and plays, and frame k shows
      what was written for it. */
  lemma WrittenOpens(crc: Checksum, a: Animation, limits: Limits)
    requires Showable(a) && |a.shots| <= limits.frames && a.header.width * a.header.height <= limits.canvasPixels
    requires |File(crc, a)| <= limits.fileBytes && forall s :: s in a.shots ==> 57 + |s.picture| <= limits.framePngBytes
    ensures Open(crc, File(crc, a), limits).Some?
    ensures var d := Open(crc, File(crc, a), limits).value; var fs := FramesFrom(d, 0);
            && d.width == a.header.width && d.height == a.header.height && d.frames == |a.shots| && d.plays == a.plays && d.animated
            && |fs| == |a.shots| && forall k :: 0 <= k < |fs| ==> Shows(fs[k], a.shots[k]) && fs[k].pngBytes == 57 + |a.shots[k].picture|
  {
    hide ChunksOf, Seen, Announced, Width, Height, Prefix, Kept, CanvasRule, FramesFit, Open, Cut, FramesFrom, Bytes, Shows, FirstImage, Place,
         Listed, IsFrame, Showable, Whole;
    var data, cs := File(crc, a), ChunksOf(crc, a);
    AllNamed(crc, a);
    CutPrinted(crc, data, 8, cs);
    KeptAll(crc, a, cs, limits);
    AllFits(crc, a, cs, limits);
    LongEnough(crc, a, limits);
    OpenExactly(crc, data, limits);
    var d := Open(crc, data, limits).value;
    FramesShow(crc, a, cs, FramesFrom(d, 0));
  }

  lemma LongEnough(crc: Checksum, a: Animation, limits: Limits)
    requires Showable(a) && |File(crc, a)| <= limits.fileBytes && |a.shots| <= limits.frames
    requires a.header.width * a.header.height <= limits.canvasPixels && forall s :: s in a.shots ==> 57 + |s.picture| <= limits.framePngBytes
    ensures SizesAllowed(File(crc, a), limits)
  {
    hide Bytes, ChunksOf;
    AllNamed(crc, a);
    FirstBytes(crc, a, ChunksOf(crc, a));
    assert a.shots[0] in a.shots;
  }

  lemma FirstBytes(crc: Checksum, a: Animation, cs: seq<Chunk>)
    requires Showable(a) && cs == ChunksOf(crc, a) && forall c :: c in cs ==> |c.name| == 4 && |c.body| <= INT32_MAX
    ensures |Bytes(crc, cs)| >= 37
  {
    hide ChunkNo, ChunksOf, Bytes, Sealed, Formed, ControlBody, Put32, HeaderBody;
    ChunkIs(crc, a, 0);
    BodyOf(crc, a, 0);
    BytesLong(crc, cs);
    assert cs[1..][0] == cs[1];
    BytesLong(crc, cs[1..]);
  }

  lemma BytesLong(crc: Checksum, cs: seq<Chunk>)
    requires cs != [] && forall c :: c in cs ==> |c.name| == 4 && |c.body| <= INT32_MAX
    ensures |Bytes(crc, cs)| == Size(cs[0]) + |Bytes(crc, cs[1..])|
  {
    hide Wire;
  }

  lemma FramesShow(crc: Checksum, a: Animation, cs: seq<Chunk>, fs: seq<Frame>)
    requires Showable(a) && cs == ChunksOf(crc, a) && |cs[0].body| == 13 && Listed(cs, 0, fs) && |fs| == |a.shots|
    ensures forall k :: 0 <= k < |fs| ==> Shows(fs[k], a.shots[k]) && fs[k].pngBytes == 57 + |a.shots[k].picture|
  {
    hide ChunkNo, Sealed, ChunksOf, Number, ControlBody, Put32, Shows, Whole, Covers, Controls, Formed, Seen, Prefix, Numbered, Payload, Default, Announced;
    forall k | 0 <= k < |fs|
      ensures Shows(fs[k], a.shots[k]) && fs[k].pngBytes == 57 + |a.shots[k].picture|
    {
      var i := 2 + 2 * k;
      AllBefore(crc, a, cs, i);
      ChunkIs(crc, a, i);
      BodyOf(crc, a, i);
      EndAfterImage(crc, a, cs);
      OneData(crc, a, cs, i);
      assert Controls(cs, 0) == 0 by { NoControls(cs); }
      WrittenShows(if i == 2 then 0 else i - 3, a.shots[k], fs[k]);
    }
  }

  lemma NoControls(cs: seq<Chunk>)
    ensures Controls(cs, 0) == 0
  {
  }
}
