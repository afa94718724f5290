/**
 The PNG/APNG container: a strict validator, the frame enumerator and the writer that turns one
 frame into a standalone PNG. File layout and chunk order follow the PNG Specification (Third
 Edition), sections 5.3 and 11.3.6.

 Every function takes the chunk checksum as a parameter, so all results hold for CRC-32 and for
 any other function of the bytes. The recursive functions are the specification; the loops of the
 reader and the writer, in ApngReader, are proved against them.
 */
module ApngContainer {
  import opened Prelude

  type Checksum = seq<byte> -> u32

  const INT32_MAX: int := 0x7fff_ffff
  const SIZE_MAX: int := U64_MAX

  const SIGNATURE: seq<byte> := [137, 80, 78, 71, 13, 10, 26, 10]
  const IHDR: seq<byte> := [73, 72, 68, 82]
  const PLTE: seq<byte> := [80, 76, 84, 69]
  const TRNS: seq<byte> := [116, 82, 78, 83]
  const IDAT: seq<byte> := [73, 68, 65, 84]
  const IEND: seq<byte> := [73, 69, 78, 68]
  const ACTL: seq<byte> := [97, 99, 84, 76]
  const FCTL: seq<byte> := [102, 99, 84, 76]
  const FDAT: seq<byte> := [102, 100, 65, 84]
  const DCTL: seq<byte> := [100, 99, 84, 76]

  // ----- big-endian integers and chunks -----

  function Be32(s: seq<byte>): u32
    requires |s| == 4
  {
    s[0] as int * 0x100_0000 + s[1] as int * 0x1_0000 + s[2] as int * 0x100 + s[3]
  }

  function Be16(s: seq<byte>): u16
    requires |s| == 2
  {
    s[0] as int * 0x100 + s[1]
  }

  function Put32(v: u32): (s: seq<byte>)
    ensures |s| == 4
  {
    [v / 0x100_0000, v / 0x1_0000 % 0x100, v / 0x100 % 0x100, v % 0x100]
  }

  lemma Be32OfPut32(v: u32)
    ensures Be32(Put32(v)) == v
  {
    var q1: int, q2: int := v / 0x100, v / 0x1_0000;
    assert q1 / 0x100 == q2 && q2 / 0x100 == v / 0x100_0000;
  }

  lemma Put32OfBe32(s: seq<byte>)
    requires |s| == 4
    ensures Put32(Be32(s)) == s
  {
    var a: int, b: int, c: int, d: int := s[0], s[1], s[2], s[3];
    DivModUnique(a, b * 0x1_0000 + c * 0x100 + d, 0x100_0000);
    DivModUnique(a * 0x100 + b, c * 0x100 + d, 0x1_0000);
    DivModUnique(a * 0x1_0000 + b * 0x100 + c, d, 0x100);
    DivModUnique(a, b, 0x100);
    DivModUnique(a * 0x100 + b, c, 0x100);
  }

  /** The chunk types the code compares with; every other type is Other. */
  datatype Kind = Ihdr | Plte | Trns | Idat | Iend | Actl | Fctl | Fdat | Dctl | Other

  function KindOf(name: seq<byte>): Kind
  {
    if name == IHDR then Ihdr
    else if name == PLTE then Plte
    else if name == TRNS then Trns
    else if name == IDAT then Idat
    else if name == IEND then Iend
    else if name == ACTL then Actl
    else if name == FCTL then Fctl
    else if name == FDAT then Fdat
    else if name == DCTL then Dctl
    else Other
  }

  datatype Chunk = Chunk(name: seq<byte>, kind: Kind, body: seq<byte>, check: u32)

  function Size(c: Chunk): nat
  {
    |c.body| + 12
  }

  /** The chunk at a position, if the length field and the bytes left allow one. */
  function ChunkAt(data: seq<byte>, pos: nat): (r: Option<Chunk>)
    ensures r.Some? ==> |r.value.name| == 4 && r.value.kind == KindOf(r.value.name)
    ensures r.Some? ==> pos + Size(r.value) <= |data| && |r.value.body| <= INT32_MAX
  {
    if pos > |data| || |data| - pos < 12 then None
    else
      var n := Be32(data[pos..pos + 4]);
      if n > INT32_MAX || n > |data| - pos - 12 then None
      else
        var name := data[pos + 4..pos + 8];
        Some(Chunk(name, KindOf(name), data[pos + 8..pos + 8 + n], Be32(data[pos + 8 + n..pos + 12 + n])))
  }

  /** The bytes write_chunk produces. */
  function Wire(crc: Checksum, name: seq<byte>, body: seq<byte>): (s: seq<byte>)
    requires |name| == 4 && |body| <= U32_MAX
    ensures |s| == |body| + 12
  {
    Put32(|body|) + name + body + Put32(crc(name + body))
  }

  lemma Window(a: seq<byte>, p: nat, b: seq<byte>, q: nat, n: nat, lo: nat, hi: nat)
    requires p + n <= |a| && q + n <= |b| && lo <= hi <= n && a[p..p + n] == b[q..q + n]
    ensures a[p + lo..p + hi] == b[q + lo..q + hi]
  {
    var s, t := a[p + lo..p + hi], b[q + lo..q + hi];
    forall k | 0 <= k < hi - lo
      ensures s[k] == t[k]
    {
      assert a[p..p + n][lo + k] == b[q..q + n][lo + k];
    }
  }

  lemma FourParts(a: seq<byte>, b: seq<byte>, c: seq<byte>, d: seq<byte>)
    requires |a| == |b| == |d| == 4
    ensures var s := a + b + c + d; var n := |c|;
            s[0..4] == a && s[4..8] == b && s[8..8 + n] == c && s[8 + n..12 + n] == d
  {
  }

  /** Reading back a written chunk. */
  lemma WrittenChunk(crc: Checksum, name: seq<byte>, body: seq<byte>, data: seq<byte>, pos: nat)
    requires |name| == 4 && |body| <= INT32_MAX
    requires pos + |body| + 12 <= |data| && data[pos..pos + |body| + 12] == Wire(crc, name, body)
    ensures ChunkAt(data, pos) == Some(Chunk(name, KindOf(name), body, crc(name + body)))
  {
    hide KindOf;
    var n, w := |body|, Wire(crc, name, body);
    Be32OfPut32(n);
    Be32OfPut32(crc(name + body));
    FourParts(Put32(n), name, body, Put32(crc(name + body)));
    assert w[0..n + 12] == w;
    Window(data, pos, w, 0, n + 12, 0, 4);
    Window(data, pos, w, 0, n + 12, 4, 8);
    Window(data, pos, w, 0, n + 12, 8, 8 + n);
    Window(data, pos, w, 0, n + 12, 8 + n, 12 + n);
  }

  /** Writing back a chunk that was read with a correct checksum. */
  lemma RewrittenChunk(crc: Checksum, data: seq<byte>, pos: nat)
    requires ChunkAt(data, pos).Some?
    requires var c := ChunkAt(data, pos).value; crc(c.name + c.body) == c.check
    ensures var c := ChunkAt(data, pos).value; Wire(crc, c.name, c.body) == data[pos..pos + Size(c)]
  {
    var c := ChunkAt(data, pos).value;
    var n := |c.body|;
    Put32OfBe32(data[pos..pos + 4]);
    Put32OfBe32(data[pos + 8 + n..pos + 12 + n]);
    assert data[pos..pos + Size(c)]
        == data[pos..pos + 4] + data[pos + 4..pos + 8] + data[pos + 8..pos + 8 + n] + data[pos + 8 + n..pos + 12 + n];
  }

  /** Equal bytes hold equal chunks. */
  lemma SameChunk(a: seq<byte>, p: nat, b: seq<byte>, q: nat)
    requires ChunkAt(a, p).Some?
    requires var n := Size(ChunkAt(a, p).value); q + n <= |b| && a[p..p + n] == b[q..q + n]
    ensures ChunkAt(b, q) == ChunkAt(a, p)
  {
    hide KindOf, Be32;
    var c := ChunkAt(a, p).value;
    var n := |c.body|;
    Window(a, p, b, q, n + 12, 0, 4);
    Window(a, p, b, q, n + 12, 4, 8);
    Window(a, p, b, q, n + 12, 8, 8 + n);
    Window(a, p, b, q, n + 12, 8 + n, 12 + n);
  }

  // ----- documents and frames -----

  datatype Limits = Limits(fileBytes: u64, framePngBytes: u64, canvasPixels: u32, frames: u32)

  datatype Doc = Doc(
    data: seq<byte>, prefixEnd: nat, prefixBytes: nat, maxFramePngBytes: nat,
    width: u32, height: u32, frames: u32, plays: u32, animated: bool)

  datatype Frame = Frame(
    width: u32, height: u32, x: u32, y: u32, delayNum: u16, delayDen: u16,
    dispose: byte, blend: byte, dataStart: nat, dataEnd: nat, pngBytes: nat)

  /** A sum that may not pass a limit. */
  function Sum(value: nat, add: nat, limit: int): Option<nat>
  {
    if value > limit || add > limit - value then None else Some(value + add)
  }

  predicate Bit5(b: byte)
  {
    b / 32 % 2 == 1
  }

  predicate Ancillary(c: Chunk)
    requires |c.name| == 4
  {
    Bit5(c.name[0])
  }

  predicate IsPrefix(c: Chunk)
  {
    c.kind != Actl && c.kind != Fctl && c.kind != Dctl
  }

  predicate IsData(c: Chunk)
  {
    c.kind == Idat || c.kind == Fdat
  }

  /** Bytes of a data chunk that are not picture payload: the sequence number of fdAT. */
  function Skip(c: Chunk): nat
  {
    if c.kind == Fdat then 4 else 0
  }

  predicate Letter(b: byte)
  {
    65 <= b <= 90 || 97 <= b <= 122
  }

  function Control(c: Chunk): Option<Frame>
  {
    if |c.body| != 26 then None
    else
      var p := c.body;
      var den := Be16(p[22..24]);
      if p[24] > 2 || p[25] > 1 then None
      else Some(Frame(Be32(p[4..8]), Be32(p[8..12]), Be32(p[12..16]), Be32(p[16..20]),
                      Be16(p[20..22]), if den == 0 then 100 else den, p[24], p[25], 0, 0, 0))
  }

  predicate HeaderAllowed(c: Chunk)
  {
    && |c.body| == 13
    && var p := c.body;
    && p[10] == 0 && p[11] == 0 && p[12] <= 1
    && match p[9] {
         case 0 => p[8] == 1 || p[8] == 2 || p[8] == 4 || p[8] == 8 || p[8] == 16
         case 2 => p[8] == 8 || p[8] == 16
         case 4 => p[8] == 8 || p[8] == 16
         case 6 => p[8] == 8 || p[8] == 16
         case 3 => p[8] == 1 || p[8] == 2 || p[8] == 4 || p[8] == 8
         case _ => false
       }
  }

  // ----- enumeration -----

  datatype Gather = Gather(frame: Frame, haveControl: bool, haveData: bool, bytes: nat)

  predicate Counts(d: Doc, c: Chunk, g: Gather)
  {
    (c.kind == Idat && (!d.animated || g.haveControl)) || (c.kind == Fdat && g.haveControl)
  }

  /** One chunk seen while looking for the end of a frame. */
  function GatherOne(d: Doc, pos: nat, c: Chunk, g: Gather): Option<Gather>
  {
    if c.kind == Fctl then
      match Control(c)
      case None => None
      case Some(f) => Some(g.(frame := f, haveControl := true))
    else if Counts(d, c, g) then
      if |c.body| < Skip(c) then None
      else
        match Sum(g.bytes, |c.body| - Skip(c) + 12, d.maxFramePngBytes)
        case None => None
        case Some(bytes) =>
          var start := if g.haveData then g.frame.dataStart else pos;
          Some(Gather(g.frame.(dataStart := start, dataEnd := pos + Size(c)), g.haveControl, true, bytes))
    else Some(g)
  }

  function Collect(d: Doc, pos: nat, g: Gather): (r: Option<(Frame, nat)>)
    ensures r.Some? ==> pos <= r.value.1 <= |d.data| && (!g.haveData ==> pos < r.value.1)
    decreases |d.data| - pos
  {
    if pos >= |d.data| then None
    else
      match ChunkAt(d.data, pos)
      case None => None
      case Some(c) =>
        if (c.kind == Fctl || c.kind == Iend) && g.haveData then
          Some((g.frame.(pngBytes := g.bytes), if c.kind == Iend then |d.data| else pos))
        else
          match GatherOne(d, pos, c, g)
          case None => None
          case Some(h) => Collect(d, pos + Size(c), h)
  }

  function WholeCanvas(d: Doc): Frame
  {
    Frame(d.width, d.height, 0, 0, 0, 100, 0, 0, 0, 0, 0)
  }

  /** The next frame and cursor; cursor zero is the start of the file. */
  function Next(d: Doc, cursor: nat): (r: Option<(Frame, nat)>)
    ensures r.Some? ==> cursor < r.value.1 <= |d.data|
  {
    if cursor >= |d.data| then None
    else
      match Sum(45, d.prefixBytes, d.maxFramePngBytes)
      case None => None
      case Some(bytes) =>
        Collect(d, if cursor != 0 then cursor else 8, Gather(WholeCanvas(d), false, false, bytes))
  }

  /** All frames from a cursor on. */
  function FramesFrom(d: Doc, cursor: nat): seq<Frame>
    decreases |d.data| - cursor
  {
    match Next(d, cursor)
    case None => []
    case Some((f, next)) => [f] + FramesFrom(d, next)
  }

  /** Where enumeration stops. */
  function LastCursor(d: Doc, cursor: nat): nat
    decreases |d.data| - cursor
  {
    match Next(d, cursor)
    case None => cursor
    case Some((_, next)) => LastCursor(d, next)
  }

  // ----- validation -----

  datatype Check = Check(
    doc: Doc, color: byte, depth: byte,
    idat: bool, idatEnd: bool, active: bool, frameData: bool, plte: bool, trns: bool, ended: bool,
    includedDefault: bool, controls: nat, palette: nat, sequence: nat, payload: nat, defaultPayload: nat)

  function PaletteRoom(depth: byte): nat
  {
    if depth == 1 then 2 else if depth == 2 then 4 else if depth == 4 then 16 else 256
  }

  predicate Fits(d: Doc, f: Frame)
  {
    0 < f.width && 0 < f.height && f.x + f.width <= d.width && f.y + f.height <= d.height
  }

  function OnAnimation(limits: Limits, c: Chunk, v: Check): Option<Check>
  {
    if v.doc.animated || v.idat || |c.body| != 8 then None
    else
      var frames, plays := Be32(c.body[..4]), Be32(c.body[4..8]);
      if frames == 0 || frames > limits.frames then None
      else Some(v.(doc := v.doc.(animated := true, frames := frames, plays := plays)))
  }

  function OnControl(c: Chunk, v: Check): Option<Check>
  {
    if !v.doc.animated || v.controls >= v.doc.frames || (v.active && (!v.frameData || v.payload == 0)) then None
    else
      match Control(c)
      case None => None
      case Some(f) =>
        if v.sequence > U32_MAX || Be32(c.body[..4]) != v.sequence || !Fits(v.doc, f) then None
        else if !v.idat && (f.width != v.doc.width || f.height != v.doc.height || f.x != 0 || f.y != 0) then None
        else Some(v.(sequence := v.sequence + 1, controls := v.controls + 1, active := true,
                     frameData := false, payload := 0))
  }

  function OnImage(pos: nat, c: Chunk, v: Check): Option<Check>
  {
    if v.idatEnd || (v.color == 3 && !v.plte) then None
    else
      match Sum(v.defaultPayload, |c.body|, SIZE_MAX)
      case None => None
      case Some(total) =>
        var w := if v.idat then v else v.(doc := v.doc.(prefixEnd := pos), includedDefault := v.active);
        var x := w.(idat := true, defaultPayload := total);
        if !v.active then Some(x)
        else
          match Sum(v.payload, |c.body|, SIZE_MAX)
          case None => None
          case Some(payload) => Some(x.(frameData := true, payload := payload))
  }

  function OnFrameData(c: Chunk, v: Check): Option<Check>
  {
    if !v.doc.animated || !v.idat || !v.active || |c.body| < 4 then None
    else if v.sequence > U32_MAX || Be32(c.body[..4]) != v.sequence then None
    else if v.controls == 1 && v.includedDefault then None
    else
      match Sum(v.payload, |c.body| - 4, SIZE_MAX)
      case None => None
      case Some(payload) => Some(v.(sequence := v.sequence + 1, frameData := true, payload := payload))
  }

  function OnPalette(c: Chunk, v: Check): Option<Check>
  {
    if v.plte || v.idat || v.trns || v.color == 0 || v.color == 4 || |c.body| == 0 || |c.body| > 768 || |c.body| % 3 != 0
    then None
    else if v.color == 3 && |c.body| / 3 > PaletteRoom(v.depth) then None
    else Some(v.(palette := |c.body| / 3, plte := true))
  }

  function OnTransparency(c: Chunk, v: Check): Option<Check>
  {
    if v.trns || v.idat || (v.color == 0 && |c.body| != 2) || (v.color == 2 && |c.body| != 6)
       || (v.color == 3 && (!v.plte || |c.body| == 0 || |c.body| > v.palette))
       || (v.color != 0 && v.color != 2 && v.color != 3)
    then None
    else Some(v.(trns := true))
  }

  function OnEnd(size: nat, pos: nat, c: Chunk, v: Check): Option<Check>
  {
    if |c.body| != 0 || pos + Size(c) != size || !v.idat || v.defaultPayload == 0
       || (v.doc.animated && (v.controls != v.doc.frames || !v.active || !v.frameData || v.payload == 0))
    then None
    else Some(v.(ended := true))
  }

  function OnKind(limits: Limits, size: nat, pos: nat, c: Chunk, v: Check): Option<Check>
    requires |c.name| == 4
  {
    if c.kind == Ihdr then (if pos != 8 then None else Some(v))
    else if c.kind == Actl then OnAnimation(limits, c, v)
    else if c.kind == Fctl then OnControl(c, v)
    else if c.kind == Idat then OnImage(pos, c, v)
    else if c.kind == Fdat then OnFrameData(c, v)
    else if c.kind == Plte then OnPalette(c, v)
    else if c.kind == Trns then OnTransparency(c, v)
    else if c.kind == Iend then OnEnd(size, pos, c, v)
    else if !Ancillary(c) then None
    else Some(v)
  }

  predicate NamedAndSummed(crc: Checksum, c: Chunk)
    requires |c.name| == 4
  {
    && crc(c.name + c.body) == c.check
    && Letter(c.name[0]) && Letter(c.name[1]) && Letter(c.name[2]) && Letter(c.name[3])
    && !Bit5(c.name[2])
  }

  /** One chunk of the validation loop. */
  function Inspect(crc: Checksum, limits: Limits, size: nat, pos: nat, c: Chunk, v: Check): Option<Check>
    requires |c.name| == 4
  {
    if !NamedAndSummed(crc, c) then None
    else
      match OnKind(limits, size, pos, c, if v.idat && c.kind != Idat then v.(idatEnd := true) else v)
      case None => None
      case Some(w) =>
        if pos > 8 && !w.idat && IsPrefix(c) then
          match Sum(w.doc.prefixBytes, Size(c), limits.framePngBytes)
          case None => None
          case Some(bytes) => Some(w.(doc := w.doc.(prefixBytes := bytes)))
        else Some(w)
  }

  function Scan(crc: Checksum, limits: Limits, data: seq<byte>, pos: nat, v: Check): Option<Check>
    decreases |data| - pos
  {
    if pos >= |data| then Some(v)
    else
      match ChunkAt(data, pos)
      case None => None
      case Some(c) =>
        match Inspect(crc, limits, |data|, pos, c, v)
        case None => None
        case Some(w) => Scan(crc, limits, data, pos + Size(c), w)
  }

  predicate CanvasAllowed(limits: Limits, width: u32, height: u32)
  {
    0 < width <= 4096 && 0 < height <= 4096 && width * height <= limits.canvasPixels
  }

  predicate LimitsAllow(limits: Limits, data: seq<byte>)
  {
    && limits.fileBytes != 0 && limits.framePngBytes != 0 && limits.canvasPixels != 0 && limits.frames != 0
    && 45 <= |data| <= limits.fileBytes && data[..8] == SIGNATURE
  }

  function Start(data: seq<byte>, limits: Limits, header: Chunk): Check
    requires |header.body| == 13
  {
    var p := header.body;
    Check(Doc(data, 0, 0, limits.framePngBytes, Be32(p[..4]), Be32(p[4..8]), 1, 1, false), p[9], p[8],
          false, false, false, false, false, false, false, false, 0, 0, 0, 0, 0)
  }

  function Open(crc: Checksum, data: seq<byte>, limits: Limits): Option<Doc>
  {
    if !LimitsAllow(limits, data) then None
    else
      match ChunkAt(data, 8)
      case None => None
      case Some(c) =>
        if c.kind != Ihdr || !HeaderAllowed(c) then None
        else
          var v := Start(data, limits, c);
          if !CanvasAllowed(limits, v.doc.width, v.doc.height) then None
          else
            match Scan(crc, limits, data, 8, v)
            case None => None
            case Some(w) =>
              if w.ended && LastCursor(w.doc, 0) == |data| && |FramesFrom(w.doc, 0)| == w.doc.frames
              then Some(w.doc) else None
  }

  // ----- extraction -----

  /** The picture payload of the data chunks in a span, one piece for each chunk. */
  function Pieces(data: seq<byte>, pos: nat, end: nat): Option<seq<seq<byte>>>
    decreases |data| - pos
  {
    if pos >= end then Some([])
    else
      match ChunkAt(data, pos)
      case None => None
      case Some(c) =>
        if pos + Size(c) > end || (IsData(c) && |c.body| < Skip(c)) then None
        else
          match Pieces(data, pos + Size(c), end)
          case None => None
          case Some(rest) => Some(if IsData(c) then [c.body[Skip(c)..]] + rest else rest)
  }

  function WireSize(pieces: seq<seq<byte>>): nat
  {
    if pieces == [] then 0 else |pieces[0]| + 12 + WireSize(pieces[1..])
  }

  predicate Writable(pieces: seq<seq<byte>>)
  {
    forall p :: p in pieces ==> |p| <= INT32_MAX
  }

  function Images(crc: Checksum, pieces: seq<seq<byte>>): (s: seq<byte>)
    requires Writable(pieces)
    ensures |s| == WireSize(pieces)
  {
    if pieces == [] then [] else Wire(crc, IDAT, pieces[0]) + Images(crc, pieces[1..])
  }

  lemma {:induction false} PiecesAreWritable(data: seq<byte>, pos: nat, end: nat)
    requires Pieces(data, pos, end).Some?
    ensures Writable(Pieces(data, pos, end).value)
    decreases |data| - pos
  {
    hide ChunkAt;
    if pos < end {
      PiecesAreWritable(data, pos + Size(ChunkAt(data, pos).value), end);
    }
  }

  /** The chunks before the first image chunk that belong to every frame, byte for byte. */
  function Prefixes(data: seq<byte>, pos: nat, end: nat): Option<seq<byte>>
    decreases |data| - pos
  {
    if pos >= end then Some([])
    else
      match ChunkAt(data, pos)
      case None => None
      case Some(c) =>
        match Prefixes(data, pos + Size(c), end)
        case None => None
        case Some(rest) => Some(if IsPrefix(c) then data[pos..pos + Size(c)] + rest else rest)
  }

  function FrameHeader(d: Doc, f: Frame): (s: seq<byte>)
    requires 29 <= |d.data|
    ensures |s| == 13
  {
    Put32(f.width) + Put32(f.height) + d.data[24..29]
  }

  function Standalone(crc: Checksum, d: Doc, f: Frame, prefixes: seq<byte>, pieces: seq<seq<byte>>): seq<byte>
    requires 29 <= |d.data| && Writable(pieces)
  {
    SIGNATURE + Wire(crc, IHDR, FrameHeader(d, f)) + prefixes + Images(crc, pieces) + Wire(crc, IEND, [])
  }

  /** What is checked before the first output byte is written. */
  predicate Preflight(d: Doc, f: Frame, capacity: nat)
  {
    && 0 < f.width <= d.width && 0 < f.height <= d.height
    && d.prefixEnd <= f.dataStart < f.dataEnd <= |d.data|
    && f.pngBytes <= capacity
    && Sum(45, d.prefixBytes, d.maxFramePngBytes).Some?
    && Pieces(d.data, f.dataStart, f.dataEnd).Some?
    && var total := 45 + d.prefixBytes + WireSize(Pieces(d.data, f.dataStart, f.dataEnd).value);
    && total <= d.maxFramePngBytes && total == f.pngBytes
  }

  function Extracted(crc: Checksum, d: Doc, f: Frame, capacity: nat): Option<seq<byte>>
  {
    if 45 <= |d.data| && Preflight(d, f, capacity) && Prefixes(d.data, 33, d.prefixEnd).Some? then
      var pieces := Pieces(d.data, f.dataStart, f.dataEnd).value;
      PiecesAreWritable(d.data, f.dataStart, f.dataEnd);
      Some(Standalone(crc, d, f, Prefixes(d.data, 33, d.prefixEnd).value, pieces))
    else None
  }
}
