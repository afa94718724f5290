/** The container's loops: enumeration, validation and extraction into a caller's buffer. */
module ApngReader {
  import opened Prelude
  import opened ApngContainer
  import opened ApngAccepted

  const NO_FRAME: Frame := Frame(0, 0, 0, 0, 0, 100, 0, 0, 0, 0, 0)
  const NO_DOC: Doc := Doc([], 0, 0, 0, 0, 0, 0, 0, false)

  /** The next frame; frame and cursor are only updated on success. */
  method NextFrame(d: Doc, cursor: nat) returns (ok: bool, f: Frame, next: nat)
    ensures ok == Next(d, cursor).Some?
    ensures ok ==> (f, next) == Next(d, cursor).value
    ensures !ok ==> next == cursor
  {
    hide ChunkAt, GatherOne;
    ok, f, next := false, NO_FRAME, cursor;
    if cursor >= |d.data| { return; }
    var pos := if cursor != 0 then cursor else 8;
    match Sum(45, d.prefixBytes, d.maxFramePngBytes) {
      case None => return;
      case Some(bytes) =>
        var g := Gather(WholeCanvas(d), false, false, bytes);
        while pos < |d.data|
          invariant Next(d, cursor) == Collect(d, pos, g)
          decreases |d.data| - pos
        {
          match ChunkAt(d.data, pos) {
            case None => return;
            case Some(c) =>
              if (c.kind == Fctl || c.kind == Iend) && g.haveData {
                return true, g.frame.(pngBytes := g.bytes), if c.kind == Iend then |d.data| else pos;
              }
              match GatherOne(d, pos, c, g) {
                case None => return;
                case Some(h) => g := h;
              }
              pos := pos + Size(c);
          }
        }
    }
  }

  /** Enumerates every frame once and counts them. */
  method CountFrames(d: Doc) returns (count: nat, cursor: nat)
    ensures count == |FramesFrom(d, 0)| && cursor == LastCursor(d, 0)
  {
    hide Next;
    cursor, count := 0, 0;
    var more, f, next := NextFrame(d, cursor);
    while more
      invariant more == Next(d, cursor).Some?
      invariant more ==> next == Next(d, cursor).value.1
      invariant LastCursor(d, 0) == LastCursor(d, cursor)
      invariant |FramesFrom(d, 0)| == count + |FramesFrom(d, cursor)|
      decreases |d.data| - cursor
    {
      cursor, count := next, count + 1;
      more, f, next := NextFrame(d, cursor);
    }
  }

  /** Validate a whole file: every chunk once, then the enumeration once. */
  method OpenDocument(crc: Checksum, data: seq<byte>, limits: Limits) returns (ok: bool, d: Doc)
    ensures ok == Open(crc, data, limits).Some?
    ensures ok ==> d == Open(crc, data, limits).value
  {
    hide Inspect, HeaderAllowed, LimitsAllow, ChunkAt, FramesFrom, LastCursor, CanvasAllowed, Start;
    ok, d := false, NO_DOC;
    if !LimitsAllow(limits, data) { return; }
    var first := ChunkAt(data, 8);
    if first == None || first.value.kind != Ihdr || !HeaderAllowed(first.value) { return; }
    HeaderLength(first.value);
    var v := Start(data, limits, first.value);
    if !CanvasAllowed(limits, v.doc.width, v.doc.height) { return; }
    ghost var start := v;
    var pos := 8;
    while pos < |data|
      invariant Scan(crc, limits, data, 8, start) == Scan(crc, limits, data, pos, v)
      decreases |data| - pos
    {
      match ChunkAt(data, pos) {
        case None => return;
        case Some(c) =>
          match Inspect(crc, limits, |data|, pos, c, v) {
            case None => return;
            case Some(w) => v := w;
          }
          pos := pos + Size(c);
      }
    }
    if !v.ended { return; }
    var count, cursor := CountFrames(v.doc);
    if cursor != |data| || count != v.doc.frames { return; }
    return true, v.doc;
  }

  lemma HeaderLength(c: Chunk)
    requires HeaderAllowed(c)
    ensures |c.body| == 13
  {
  }

  // ----- extraction -----

  /** Overwrites part of a buffer. */
  function Patched(was: seq<byte>, at: nat, part: seq<byte>): (s: seq<byte>)
    requires at + |part| <= |was|
    ensures |s| == |was|
  {
    was[..at] + part + was[at + |part|..]
  }

  method WriteBytes(out: array<byte>, at: nat, part: seq<byte>)
    requires at + |part| <= out.Length
    modifies out
    ensures out[..] == Patched(old(out[..]), at, part)
  {
    forall k | 0 <= k < |part| {
      out[at + k] := part[k];
    }
  }

  lemma NothingPatched(was: seq<byte>, at: nat)
    requires at <= |was|
    ensures Patched(was, at, []) == was
  {
  }

  lemma PatchedTwice(was: seq<byte>, at: nat, a: seq<byte>, b: seq<byte>)
    requires at + |a| + |b| <= |was|
    ensures Patched(Patched(was, at, a), at + |a|, b) == Patched(was, at, a + b)
  {
  }

  /** Length, type, payload and checksum, one after the other. */
  method WriteChunk(crc: Checksum, out: array<byte>, at: nat, name: seq<byte>, body: seq<byte>) returns (end: nat)
    requires |name| == 4 && |body| <= U32_MAX && at + |body| + 12 <= out.Length
    modifies out
    ensures end == at + |body| + 12
    ensures out[..] == Patched(old(out[..]), at, Wire(crc, name, body))
  {
    ghost var was := out[..];
    WriteBytes(out, at, Put32(|body|));
    WriteBytes(out, at + 4, name);
    WriteBytes(out, at + 8, body);
    WriteBytes(out, at + 8 + |body|, Put32(crc(name + body)));
    PatchedTwice(was, at, Put32(|body|), name);
    PatchedTwice(was, at, Put32(|body|) + name, body);
    PatchedTwice(was, at, Put32(|body|) + name + body, Put32(crc(name + body)));
    end := at + |body| + 12;
  }

  /** The size the measuring pass computes over a span, if the span is readable and within limits. */
  function Measured(d: Doc, pos: nat, end: nat, bytes: nat): Option<nat>
    decreases |d.data| - pos
  {
    if pos >= end then Some(bytes)
    else
      match ChunkAt(d.data, pos)
      case None => None
      case Some(c) =>
        if pos + Size(c) > end || (IsData(c) && |c.body| < Skip(c)) then None
        else if !IsData(c) then Measured(d, pos + Size(c), end, bytes)
        else
          match Sum(bytes, |c.body| - Skip(c) + 12, d.maxFramePngBytes)
          case None => None
          case Some(more) => Measured(d, pos + Size(c), end, more)
  }

  /** The bytes so far and the wire size of the pieces, if they stay within the limit. */
  function Within(pieces: Option<seq<seq<byte>>>, bytes: nat, limit: nat): Option<nat>
  {
    match pieces
    case None => None
    case Some(all) => if bytes + WireSize(all) <= limit then Some(bytes + WireSize(all)) else None
  }

  lemma WithinMore(piece: seq<byte>, rest: Option<seq<seq<byte>>>, bytes: nat, limit: nat)
    ensures var more := bytes + |piece| + 12;
            (match rest case None => None case Some(all) => Within(Some([piece] + all), bytes, limit))
            == if more <= limit then Within(rest, more, limit) else None
  {
    if rest.Some? { assert ([piece] + rest.value)[1..] == rest.value; }
  }

  lemma WithinNone(bytes: nat, limit: nat)
    ensures Within(None, bytes, limit) == None
    ensures bytes <= limit ==> Within(Some([]), bytes, limit) == Some(bytes)
  {
  }

  lemma {:induction false} MeasuredIsSize(d: Doc, pos: nat, end: nat, bytes: nat)
    requires bytes <= d.maxFramePngBytes
    ensures Measured(d, pos, end, bytes) == Within(Pieces(d.data, pos, end), bytes, d.maxFramePngBytes)
    decreases |d.data| - pos
  {
    hide ChunkAt, IsData, Skip, Within;
    WithinNone(bytes, d.maxFramePngBytes);
    if pos < end && ChunkAt(d.data, pos).Some? {
      var c := ChunkAt(d.data, pos).value;
      if pos + Size(c) <= end && !(IsData(c) && |c.body| < Skip(c)) {
        if !IsData(c) {
          MeasuredIsSize(d, pos + Size(c), end, bytes);
        } else {
          var piece := c.body[Skip(c)..];
          WithinMore(piece, Pieces(d.data, pos + Size(c), end), bytes, d.maxFramePngBytes);
          if bytes + |piece| + 12 <= d.maxFramePngBytes {
            MeasuredIsSize(d, pos + Size(c), end, bytes + |piece| + 12);
          }
        }
      }
    }
  }

  method Measure(d: Doc, f: Frame, bytes: nat) returns (ok: bool, total: nat)
    requires bytes <= d.maxFramePngBytes && f.dataEnd <= |d.data|
    ensures ok == Measured(d, f.dataStart, f.dataEnd, bytes).Some?
    ensures ok ==> total == Measured(d, f.dataStart, f.dataEnd, bytes).value
  {
    hide ChunkAt;
    var pos := f.dataStart;
    ok, total := false, bytes;
    while pos < f.dataEnd
      invariant Measured(d, f.dataStart, f.dataEnd, bytes) == Measured(d, pos, f.dataEnd, total)
      decreases |d.data| - pos
    {
      match ChunkAt(d.data, pos) {
        case None => return;
        case Some(c) =>
          if pos + Size(c) > f.dataEnd { return; }
          if IsData(c) {
            if |c.body| < Skip(c) { return; }
            match Sum(total, |c.body| - Skip(c) + 12, d.maxFramePngBytes) {
              case None => return;
              case Some(more) => total := more;
            }
          }
          pos := pos + Size(c);
      }
    }
    ok := true;
  }

  lemma {:induction false} ImagesAppend(crc: Checksum, pieces: seq<seq<byte>>, last: seq<byte>)
    requires Writable(pieces) && |last| <= INT32_MAX
    ensures Writable(pieces + [last])
    ensures Images(crc, pieces + [last]) == Images(crc, pieces) + Wire(crc, IDAT, last)
  {
    if pieces == [] {
      assert pieces + [last] == [last];
    } else {
      ImagesAppend(crc, pieces[1..], last);
      assert (pieces + [last])[1..] == pieces[1..] + [last];
    }
  }

  lemma {:induction false} WireSizeAppend(a: seq<seq<byte>>, b: seq<seq<byte>>)
    ensures WireSize(a + b) == WireSize(a) + WireSize(b)
  {
    if a == [] {
      assert a + b == b;
    } else {
      WireSizeAppend(a[1..], b);
      assert (a + b)[1..] == a[1..] + b;
    }
  }

  /** Copies the colour chunks behind what has been written already. */
  method CopyPrefixes(d: Doc, out: array<byte>, at: nat) returns (end: nat)
    requires d.prefixEnd <= |d.data| && Prefixes(d.data, 33, d.prefixEnd).Some?
    requires at + |Prefixes(d.data, 33, d.prefixEnd).value| <= out.Length
    modifies out
    ensures var p := Prefixes(d.data, 33, d.prefixEnd).value;
            end == at + |p| && out[..] == Patched(old(out[..]), at, p)
  {
    hide ChunkAt, Patched, IsPrefix;
    NothingPatched(out[..], at);
    var pos := 33;
    end := at;
    ghost var done: seq<byte> := [];
    while pos < d.prefixEnd
      invariant Prefixes(d.data, pos, d.prefixEnd).Some?
      invariant Prefixes(d.data, 33, d.prefixEnd).value == done + Prefixes(d.data, pos, d.prefixEnd).value
      invariant end == at + |done| && out[..] == Patched(old(out[..]), at, done)
      decreases |d.data| - pos
    {
      var c := ChunkAt(d.data, pos).value;
      if IsPrefix(c) {
        var chunk := d.data[pos..pos + Size(c)];
        WriteBytes(out, end, chunk);
        PatchedTwice(old(out[..]), at, done, chunk);
        end, done := end + Size(c), done + chunk;
      }
      pos := pos + Size(c);
    }
    assert Prefixes(d.data, pos, d.prefixEnd) == Some([]) && done + [] == done;
  }

  /** Writes one image chunk for each data chunk of the frame. */
  method CopyImages(crc: Checksum, d: Doc, f: Frame, out: array<byte>, at: nat) returns (end: nat)
    requires Pieces(d.data, f.dataStart, f.dataEnd).Some?
    requires at + WireSize(Pieces(d.data, f.dataStart, f.dataEnd).value) <= out.Length
    modifies out
    ensures var pieces := Pieces(d.data, f.dataStart, f.dataEnd).value;
            Writable(pieces) && end == at + WireSize(pieces) && out[..] == Patched(old(out[..]), at, Images(crc, pieces))
  {
    hide *;
    PiecesAreWritable(d.data, f.dataStart, f.dataEnd);
    ghost var was := out[..];
    ghost var all := Pieces(d.data, f.dataStart, f.dataEnd).value;
    var pos := f.dataStart;
    end := at;
    ghost var done: seq<seq<byte>>, left := [], all;
    Begins(crc, was, at, all);
    while pos < f.dataEnd
      invariant Pieces(d.data, pos, f.dataEnd) == Some(left) && Divides(all, done, left)
      invariant Imaged(crc, was, at, done, end, out[..])
      decreases |d.data| - pos
    {
      ghost var c', rest := PiecesUnfold(d.data, pos, f.dataEnd);
      var c := ChunkAt(d.data, pos).value;
      if IsData(c) {
        var piece := c.body[Skip(c)..];
        OneMoreImage(crc, all, done, left, piece, rest, was, at, end, out[..]);
        end := WriteChunk(crc, out, end, IDAT, piece);
        done := done + [piece];
      }
      left := rest;
      pos := pos + Size(c);
    }
    NoPiecesLeft(d.data, pos, f.dataEnd);
    Ends(crc, was, at, all, done, end, out[..]);
  }

  /** The buffer after some of the images. */
  ghost predicate Imaged(crc: Checksum, was: seq<byte>, at: nat, done: seq<seq<byte>>, end: nat, now: seq<byte>)
  {
    && Writable(done) && end == at + WireSize(done) <= |was| && now == Patched(was, at, Images(crc, done))
  }

  lemma Begins(crc: Checksum, was: seq<byte>, at: nat, all: seq<seq<byte>>)
    requires at <= |was|
    ensures Divides(all, [], all) && Imaged(crc, was, at, [], at, was)
  {
    NothingPatched(was, at);
  }

  lemma Ends(crc: Checksum, was: seq<byte>, at: nat, all: seq<seq<byte>>, done: seq<seq<byte>>, end: nat, now: seq<byte>)
    requires Divides(all, done, []) && Imaged(crc, was, at, done, end, now)
    ensures Writable(all) && end == at + WireSize(all) <= |was| && now == Patched(was, at, Images(crc, all))
  {
    assert all == done;
    hide *;
  }

  ghost predicate Divides(all: seq<seq<byte>>, done: seq<seq<byte>>, left: seq<seq<byte>>)
  {
    all == done + left
  }

  lemma DivideMore(all: seq<seq<byte>>, done: seq<seq<byte>>, piece: seq<byte>, rest: seq<seq<byte>>)
    requires Divides(all, done, [piece] + rest)
    ensures Divides(all, done + [piece], rest) && WireSize(done + [piece]) == WireSize(done) + |piece| + 12 <= WireSize(all)
  {
    assert done + ([piece] + rest) == (done + [piece]) + rest;
    WireSizeAppend(done + [piece], rest);
    WireSizeAppend(done, [piece]);
    assert [piece][1..] == [];
  }

  lemma NoPiecesLeft(data: seq<byte>, pos: nat, end: nat)
    requires pos >= end
    ensures Pieces(data, pos, end) == Some([])
  {
  }

  lemma PiecesUnfold(data: seq<byte>, pos: nat, end: nat) returns (c: Chunk, rest: seq<seq<byte>>)
    requires pos < end && Pieces(data, pos, end).Some?
    ensures ChunkAt(data, pos) == Some(c) && Size(c) > 0 && pos + Size(c) <= |data| && pos + Size(c) <= end
    ensures Pieces(data, pos + Size(c), end) == Some(rest)
    ensures IsData(c) ==> Skip(c) <= |c.body| <= INT32_MAX
    ensures Pieces(data, pos, end).value == if IsData(c) then [c.body[Skip(c)..]] + rest else rest
  {
    hide ChunkAt;
    c := ChunkAt(data, pos).value;
    rest := Pieces(data, pos + Size(c), end).value;
  }

  /** What writing one more image does to a buffer that already holds some. */
  lemma OneMoreImage(crc: Checksum, all: seq<seq<byte>>, done: seq<seq<byte>>, left: seq<seq<byte>>,
                     piece: seq<byte>, rest: seq<seq<byte>>, was: seq<byte>, at: nat, end: nat, now: seq<byte>)
    requires |piece| <= INT32_MAX && Divides(all, done, left) && left == [piece] + rest
    requires at + WireSize(all) <= |was| && Imaged(crc, was, at, done, end, now)
    ensures |IDAT| == 4 && |piece| <= U32_MAX && end + |piece| + 12 <= |now| && Divides(all, done + [piece], rest)
    ensures Imaged(crc, was, at, done + [piece], end + |piece| + 12, Patched(now, end, Wire(crc, IDAT, piece)))
  {
    hide Patched, Wire, Images, WireSize;
    ImagesAppend(crc, done, piece);
    DivideMore(all, done, piece, rest);
    PatchedTwice(was, at, Images(crc, done), Wire(crc, IDAT, piece));
  }

  /** The buffer starts with exactly these bytes; what lies behind them is untouched. */
  ghost predicate Written(was: seq<byte>, bytes: seq<byte>, now: seq<byte>)
  {
    |bytes| <= |was| && now == Patched(was, 0, bytes)
  }

  /** Signature, header, colour chunks, images and end, one behind the other. */
  method WriteStandalone(crc: Checksum, d: Doc, f: Frame, out: array<byte>)
    requires 45 <= |d.data| && d.prefixEnd <= |d.data|
    requires Prefixes(d.data, 33, d.prefixEnd).Some? && Pieces(d.data, f.dataStart, f.dataEnd).Some?
    requires 45 + |Prefixes(d.data, 33, d.prefixEnd).value|
             + WireSize(Pieces(d.data, f.dataStart, f.dataEnd).value) <= out.Length
    modifies out
    ensures var p, pieces := Prefixes(d.data, 33, d.prefixEnd).value, Pieces(d.data, f.dataStart, f.dataEnd).value;
            Writable(pieces) && Written(old(out[..]), Standalone(crc, d, f, p, pieces), out[..])
  {
    hide Prefixes, Pieces, Wire, Images, Put32, WireSize, Patched, FrameHeader;
    PiecesAreWritable(d.data, f.dataStart, f.dataEnd);
    ghost var was := out[..];
    ghost var p, pieces := Prefixes(d.data, 33, d.prefixEnd).value, Pieces(d.data, f.dataStart, f.dataEnd).value;
    ghost var header, images := Wire(crc, IHDR, FrameHeader(d, f)), Images(crc, pieces);
    WriteBytes(out, 0, SIGNATURE);
    var at := WriteChunk(crc, out, 8, IHDR, FrameHeader(d, f));
    PatchedTwice(was, 0, SIGNATURE, header);
    at := CopyPrefixes(d, out, at);
    PatchedTwice(was, 0, SIGNATURE + header, p);
    at := CopyImages(crc, d, f, out, at);
    PatchedTwice(was, 0, SIGNATURE + header + p, images);
    at := WriteChunk(crc, out, at, IEND, []);
    PatchedTwice(was, 0, SIGNATURE + header + p + images, Wire(crc, IEND, []));
  }

  /** Writes one frame as a standalone PNG at the start of the buffer: exactly pngBytes bytes on
      success, nothing at all otherwise. */
  method Extract(crc: Checksum, d: Doc, f: Frame, out: array<byte>, ghost limits: Limits) returns (ok: bool)
    requires Open(crc, d.data, limits) == Some(d)
    modifies out
    ensures ok == Extracted(crc, d, f, out.Length).Some?
    ensures ok ==> Written(old(out[..]), Extracted(crc, d, f, out.Length).value, out[..])
    ensures !ok ==> out[..] == old(out[..])
  {
    hide Open, FramesFrom, LastCursor, Prefixes, Pieces, WireSize, Patched, Standalone, Preflight, Written;
    OpenFacts(crc, d.data, limits);
    ok := MayExtract(d, f, out.Length);
    if ok {
      PreflightFits(d, f, out.Length);
      WriteStandalone(crc, d, f, out);
    }
  }

  /** Every check that precedes the first write. */
  method MayExtract(d: Doc, f: Frame, capacity: nat) returns (ok: bool)
    ensures ok == Preflight(d, f, capacity)
  {
    hide Pieces, WireSize, Measured;
    ok := false;
    if f.width == 0 || f.height == 0 || f.width > d.width || f.height > d.height { return; }
    if f.dataStart < d.prefixEnd || f.dataEnd > |d.data| || f.dataStart >= f.dataEnd || capacity < f.pngBytes { return; }
    match Sum(45, d.prefixBytes, d.maxFramePngBytes) {
      case None => return;
      case Some(bytes) =>
        MeasuredIsSize(d, f.dataStart, f.dataEnd, bytes);
        var fits, total := Measure(d, f, bytes);
        ok := fits && total == f.pngBytes;
    }
  }

  lemma PreflightFits(d: Doc, f: Frame, capacity: nat)
    requires Preflight(d, f, capacity)
    ensures d.prefixEnd <= |d.data| && Pieces(d.data, f.dataStart, f.dataEnd).Some?
    ensures 45 + d.prefixBytes + WireSize(Pieces(d.data, f.dataStart, f.dataEnd).value) <= capacity
  {
  }
}
