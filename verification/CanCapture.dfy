/** Screen captures over CAN: run-length coding into 8-byte frames with a wrapping sequence number.

    The checksum is a parameter: everything holds for any function of the bytes. */
module CanCapture {
  import opened Prelude

  datatype Frame = Frame(id: nat, payload: seq<byte>)

  const CAP_ID: nat := 0x1CA
  const BEGIN: int := 1
  const DATA: int := 0
  const END: int := 2
  const LIMIT: nat := 64 * 1024 * 1024

  type Checksum = seq<byte> -> u32

  datatype Header = Header(width: nat, height: nat, format: nat)

  datatype Problem =
    | RepeatedBegin | BadBegin | TooLarge | DataBeforeBegin | LostFrame | BadRun | EndBeforeBegin
    | CountMismatch | Incomplete | BadChecksum | UnknownFlags | MissingEnd

  datatype Result = Image(header: Header, raw: seq<byte>) | Error(problem: Problem)

  /** Bytes of a pixel; zero for an unknown format. */
  function Depth(format: nat): (r: nat)
    ensures r <= 4
  {
    if format == 0 then 2 else if format == 1 then 3 else if format == 2 || format == 3 then 4 else 0
  }

  function Size(h: Header): nat
  {
    h.width * h.height * Depth(h.format)
  }

  function Word(lo: byte, hi: byte): nat
  {
    lo as int + 256 * hi as int
  }

  // ----- decoding -----

  /** What the receiver has seen so far. */
  datatype State = State(header: Option<Header>, raw: seq<byte>, want: nat, count: nat)

  datatype Step = Continue(state: State) | Stop(result: Result)

  function Repeat(bytes: seq<byte>, n: nat): (r: seq<byte>)
    ensures |r| == n * |bytes|
    decreases n
  {
    if n == 0 then [] else Repeat(bytes, n - 1) + bytes
  }

  function OnBegin(s: State, p: seq<byte>): Step
    requires |p| == 8
  {
    var h := Header(Word(p[2], p[3]), Word(p[4], p[5]), p[6]);
    if s.header.Some? then Stop(Error(RepeatedBegin))
    else if Depth(h.format) == 0 || h.width == 0 || h.height == 0 then Stop(Error(BadBegin))
    else if Size(h) > LIMIT then Stop(Error(TooLarge))
    else Continue(s.(header := Some(h)))
  }

  function OnData(s: State, p: seq<byte>): Step
    requires |p| == 8
  {
    if s.header.None? then Stop(Error(DataBeforeBegin))
    else if Word(p[0], p[1]) != s.want then Stop(Error(LostFrame))
    else
      var depth, run := Depth(s.header.value.format), Word(p[2], p[3]);
      if run == 0 || |s.raw| + run * depth > Size(s.header.value) then Stop(Error(BadRun))
      else Continue(s.(raw := s.raw + Repeat(p[4..4 + depth], run), want := (s.want + 1) % 65536, count := s.count + 1))
  }

  function OnEnd(s: State, p: seq<byte>, crc: Checksum): Step
    requires |p| == 8
  {
    if s.header.None? then Stop(Error(EndBeforeBegin))
    else if Word(p[0], p[1]) != s.count % 65536 then Stop(Error(CountMismatch))
    else if |s.raw| != Size(s.header.value) then Stop(Error(Incomplete))
    else if crc(s.raw) != Word(p[2], p[3]) + 65536 * Word(p[4], p[5]) then Stop(Error(BadChecksum))
    else Stop(Image(s.header.value, s.raw))
  }

  /** One received frame; foreign frames are skipped. */
  function Receive(s: State, f: Frame, crc: Checksum): Step
  {
    if f.id != CAP_ID || |f.payload| != 8 then Continue(s)
    else if f.payload[7] == BEGIN then OnBegin(s, f.payload)
    else if f.payload[7] == DATA then OnData(s, f.payload)
    else if f.payload[7] == END then OnEnd(s, f.payload, crc)
    else Stop(Error(UnknownFlags))
  }

  function DecodeFrom(s: State, frames: seq<Frame>, crc: Checksum): Result
    decreases |frames|
  {
    if frames == [] then Error(MissingEnd)
    else
      match Receive(s, frames[0], crc)
      case Continue(t) => DecodeFrom(t, frames[1..], crc)
      case Stop(r) => r
  }

  const START: State := State(None, [], 1, 0)

  function Decode(frames: seq<Frame>, crc: Checksum): Result
  {
    DecodeFrom(START, frames, crc)
  }

  /** The receiving loop. */
  method Receiver(frames: seq<Frame>, crc: Checksum) returns (r: Result)
    ensures r == Decode(frames, crc)
  {
    hide Receive;
    var s, i := START, 0;
    while i < |frames|
      invariant i <= |frames| && DecodeFrom(s, frames[i..], crc) == Decode(frames, crc)
      decreases |frames| - i
    {
      assert frames[i..][0] == frames[i] && frames[i..][1..] == frames[i + 1..];
      match Receive(s, frames[i], crc) {
        case Continue(t) => s := t;
        case Stop(result) => return result;
      }
      i := i + 1;
    }
    r := Error(MissingEnd);
  }

  // ----- encoding -----

  function Low(v: nat): byte
  {
    v % 256
  }

  function High(v: nat): byte
  {
    v / 256 % 256
  }

  function BeginFrame(h: Header): Frame
  {
    Frame(CAP_ID, [0, 0, Low(h.width), High(h.width), Low(h.height), High(h.height), Low(h.format), BEGIN])
  }

  /** A run of one pixel, two or three bytes wide. */
  function DataFrame(number: nat, run: nat, pixel: seq<byte>): Frame
  {
    var wire := number % 65536;
    Frame(CAP_ID, [Low(wire), High(wire), Low(run), High(run)] + pixel + (if |pixel| == 2 then [0] else []) + [DATA])
  }

  function EndFrame(count: nat, sum: u32): Frame
  {
    var wire := count % 65536;
    Frame(CAP_ID, [Low(wire), High(wire), Low(sum), High(sum), Low(sum / 65536), High(sum / 65536), 0, END])
  }

  function PixelAt(pixels: seq<byte>, depth: nat, i: nat): (p: seq<byte>)
    requires (i + 1) * depth <= |pixels|
    ensures |p| == depth
  {
    assert (i + 1) * depth == i * depth + depth;
    pixels[i * depth..i * depth + depth]
  }

  /** Whether pixels i and k are the same. */
  predicate Same(pixels: seq<byte>, depth: nat, n: nat, i: nat, k: nat)
    requires i < n && k < n && n * depth <= |pixels|
  {
    MulMonotone(i + 1, n, depth);
    MulMonotone(k + 1, n, depth);
    PixelAt(pixels, depth, i) == PixelAt(pixels, depth, k)
  }

  /** The run of pixel i, extended from a known length. */
  function RunFrom(pixels: seq<byte>, depth: nat, n: nat, i: nat, run: nat): (r: nat)
    requires i < n && 0 < run <= n - i && run <= 65535 && n * depth <= |pixels|
    ensures run <= r <= n - i && r <= 65535
    ensures forall k :: i + run <= k < i + r ==> Same(pixels, depth, n, i, k)
    decreases n - i - run
  {
    if i + run < n && run < 65535 && Same(pixels, depth, n, i, i + run) then RunFrom(pixels, depth, n, i, run + 1) else run
  }

  /** The data frames of the pixels from i on, numbered from a start. */
  function DataFrames(pixels: seq<byte>, depth: nat, n: nat, i: nat, number: nat): seq<Frame>
    requires i <= n && n * depth <= |pixels|
    decreases n - i
  {
    if i == n then []
    else
      var run := RunFrom(pixels, depth, n, i, 1);
      MulMonotone(i + 1, n, depth);
      [DataFrame(number, run, PixelAt(pixels, depth, i))] + DataFrames(pixels, depth, n, i + run, number + 1)
  }

  /** A capture as the firmware sends it; only two- and three-byte pixels in 16-bit dimensions can be sent. */
  predicate Encodable(h: Header, pixels: seq<byte>)
  {
    (h.format == 0 || h.format == 1) && h.width < 65536 && h.height < 65536 && |pixels| == Size(h)
  }

  function Encode(h: Header, pixels: seq<byte>, crc: Checksum): seq<Frame>
    requires Encodable(h, pixels)
  {
    var data := DataFrames(pixels, Depth(h.format), h.width * h.height, 0, 1);
    [BeginFrame(h)] + data + [EndFrame(|data|, crc(pixels))]
  }

  /** The inner loop: how far the run of pixel i goes. */
  method RunLength(pixels: seq<byte>, depth: nat, n: nat, i: nat) returns (run: nat)
    requires i < n && n * depth <= |pixels|
    ensures run == RunFrom(pixels, depth, n, i, 1)
  {
    hide Same;
    run := 1;
    while i + run < n && run < 65535 && Same(pixels, depth, n, i, i + run)
      invariant 0 < run <= n - i && run <= 65535
      invariant RunFrom(pixels, depth, n, i, run) == RunFrom(pixels, depth, n, i, 1)
      decreases n - run
    {
      run := run + 1;
    }
  }

  method Encoder(h: Header, pixels: seq<byte>, crc: Checksum) returns (frames: seq<Frame>)
    requires Encodable(h, pixels)
    ensures frames == Encode(h, pixels, crc)
  {
    hide DataFrame, BeginFrame, EndFrame, PixelAt;
    var depth, n := Depth(h.format), h.width * h.height;
    var data := DataRuns(pixels, depth, n);
    frames := [BeginFrame(h)] + data + [EndFrame(|data|, crc(pixels))];
  }

  /** The loop over the runs. */
  method DataRuns(pixels: seq<byte>, depth: nat, n: nat) returns (data: seq<Frame>)
    requires n * depth <= |pixels|
    ensures data == DataFrames(pixels, depth, n, 0, 1)
  {
    hide DataFrame, RunFrom, PixelAt;
    data := [];
    var number, i := 1, 0;
    while i < n
      invariant i <= n && number == |data| + 1
      invariant data + DataFrames(pixels, depth, n, i, number) == DataFrames(pixels, depth, n, 0, 1)
      decreases n - i
    {
      var run := RunLength(pixels, depth, n, i);
      MulMonotone(i + 1, n, depth);
      ghost var rest := DataFrames(pixels, depth, n, i + run, number + 1);
      var f := DataFrame(number, run, PixelAt(pixels, depth, i));
      assert data + ([f] + rest) == (data + [f]) + rest;
      data := data + [f];
      number := number + 1;
      i := i + run;
    }
  }

  // ----- the round trip -----

  lemma WordOf(v: nat)
    requires v < 65536
    ensures Word(Low(v), High(v)) == v
  {
  }

  /** What the receiver reads in a data frame. */
  lemma DataPayload(number: nat, run: nat, pixel: seq<byte>)
    requires run < 65536 && 2 <= |pixel| <= 3
    ensures var f := DataFrame(number, run, pixel);
            f.id == CAP_ID && |f.payload| == 8 && f.payload[7] == DATA && f.payload[4..4 + |pixel|] == pixel
            && Word(f.payload[0], f.payload[1]) == number % 65536 && Word(f.payload[2], f.payload[3]) == run
  {
    hide Low, High, Word;
    WordOf(number % 65536);
    WordOf(run);
  }

  /** A data frame that is due adds its run. */
  lemma DataReceived(s: State, h: Header, number: nat, run: nat, pixel: seq<byte>, crc: Checksum)
    requires s.header == Some(h) && s.want == number % 65536 && (h.format == 0 || h.format == 1) && |pixel| == Depth(h.format)
    requires 0 < run <= 65535 && |s.raw| + run * |pixel| <= Size(h)
    ensures Receive(s, DataFrame(number, run, pixel), crc)
            == Continue(State(Some(h), s.raw + Repeat(pixel, run), (number + 1) % 65536, s.count + 1))
  {
    hide Low, High, Size, DataFrame, Repeat, Word, OnBegin, OnEnd;
    DataPayload(number, run, pixel);
    NextNumber(number);
  }

  lemma NextNumber(number: nat)
    ensures (number % 65536 + 1) % 65536 == (number + 1) % 65536
  {
    DivModShift(number / 65536, number % 65536 + 1, 65536);
  }

  /** Equal pixels in a row are one pixel repeated. */
  lemma {:induction false} RunRepeats(pixels: seq<byte>, depth: nat, n: nat, i: nat, run: nat)
    requires i < n && run <= n - i && n * depth <= |pixels|
    requires forall k :: i <= k < i + run ==> Same(pixels, depth, n, i, k)
    ensures 0 <= i * depth <= (i + run) * depth <= |pixels| && (i + 1) * depth <= |pixels|
    ensures Repeat(PixelAt(pixels, depth, i), run) == pixels[i * depth..(i + run) * depth]
    decreases run
  {
    hide Same, PixelAt;
    MulMonotone(i + run, n, depth);
    MulMonotone(i, i + run, depth);
    MulMonotone(i + 1, n, depth);
    if run > 0 {
      RunRepeats(pixels, depth, n, i, run - 1);
      LastOfRun(pixels, depth, n, i, run);
    }
  }

  lemma LastOfRun(pixels: seq<byte>, depth: nat, n: nat, i: nat, run: nat)
    requires i < n && 0 < run <= n - i && n * depth <= |pixels| && Same(pixels, depth, n, i, i + run - 1)
    ensures 0 <= i * depth <= (i + run - 1) * depth <= (i + run) * depth <= |pixels| && (i + 1) * depth <= |pixels|
    ensures pixels[i * depth..(i + run - 1) * depth] + PixelAt(pixels, depth, i) == pixels[i * depth..(i + run) * depth]
  {
    MulMonotone(i + run, n, depth);
    MulMonotone(i, i + run - 1, depth);
    MulMonotone(i + 1, n, depth);
    assert (i + run - 1 + 1) * depth == (i + run - 1) * depth + depth;
  }

  /** Receiving the data frames from pixel i on, and then the rest. */
  lemma {:induction false} DataDecodes(s: State, h: Header, pixels: seq<byte>, i: nat, number: nat, rest: seq<Frame>, crc: Checksum)
    requires Encodable(h, pixels) && i <= h.width * h.height && number > 0
    requires 0 <= i * Depth(h.format) <= |pixels|
    requires s == State(Some(h), pixels[..i * Depth(h.format)], number % 65536, number - 1)
    ensures var data := DataFrames(pixels, Depth(h.format), h.width * h.height, i, number);
            DecodeFrom(s, data + rest, crc)
            == DecodeFrom(State(Some(h), pixels, (number + |data|) % 65536, number - 1 + |data|), rest, crc)
    decreases h.width * h.height - i
  {
    hide Receive, DataFrame, Same, PixelAt, Repeat, RunFrom;
    var depth, n := Depth(h.format), h.width * h.height;
    var data := DataFrames(pixels, depth, n, i, number);
    if i == n {
      assert data + rest == rest && pixels[..n * depth] == pixels;
    } else {
      var run := RunFrom(pixels, depth, n, i, 1);
      RunIsSame(pixels, depth, n, i, run);
      RunRepeats(pixels, depth, n, i, run);
      var pixel := PixelAt(pixels, depth, i);
      NextRaw(pixels, depth, n, i, run);
      DataReceived(s, h, number, run, pixel, crc);
      var tail := DataFrames(pixels, depth, n, i + run, number + 1);
      assert data + rest == [DataFrame(number, run, pixel)] + (tail + rest);
      DataDecodes(State(Some(h), pixels[..(i + run) * depth], (number + 1) % 65536, number), h, pixels, i + run, number + 1, rest, crc);
    }
  }

  lemma RunIsSame(pixels: seq<byte>, depth: nat, n: nat, i: nat, run: nat)
    requires i < n && n * depth <= |pixels| && run == RunFrom(pixels, depth, n, i, 1)
    ensures forall k :: i <= k < i + run ==> Same(pixels, depth, n, i, k)
  {
    hide PixelAt;
    MulMonotone(i + 1, n, depth);
  }

  lemma NextRaw(pixels: seq<byte>, depth: nat, n: nat, i: nat, run: nat)
    requires i + run <= n && n * depth == |pixels|
    ensures 0 <= i * depth <= (i + run) * depth <= |pixels|
    ensures pixels[..i * depth] + pixels[i * depth..(i + run) * depth] == pixels[..(i + run) * depth]
    ensures i * depth + run * depth == (i + run) * depth
  {
    MulMonotone(i, i + run, depth);
    MulMonotone(i + run, n, depth);
  }

  lemma WordsOf(v: u32)
    ensures Word(Low(v), High(v)) + 65536 * Word(Low(v / 65536), High(v / 65536)) == v
  {
    hide Low, High, Word;
    WordOf(v / 65536);
    WordOf(v % 65536);
    LowWord(v / 65536, v % 65536);
  }

  /** The two low bytes ignore everything above them. */
  lemma LowWord(q: nat, r: nat)
    ensures Low(q * 65536 + r) == Low(r) && High(q * 65536 + r) == High(r)
  {
    var v := q * 65536 + r;
    assert v == (q * 256) * 256 + r;
    DivModShift(q * 256, r, 256);
    DivModShift(q, r / 256, 256);
  }

  /** The receiver accepts exactly the captures with a size it allows, and gives back the pixels; the
      number of runs may be far beyond the sequence number's range. */
  lemma RoundTrip(h: Header, pixels: seq<byte>, crc: Checksum)
    requires Encodable(h, pixels)
    ensures Decode(Encode(h, pixels, crc), crc).Image? <==> h.width > 0 && h.height > 0 && Size(h) <= LIMIT
    ensures Decode(Encode(h, pixels, crc), crc).Image? ==> Decode(Encode(h, pixels, crc), crc) == Image(h, pixels)
  {
    hide DataFrames, DecodeFrom, BeginFrame, EndFrame, Receive;
    var data := DataFrames(pixels, Depth(h.format), h.width * h.height, 0, 1);
    var end := [EndFrame(|data|, crc(pixels))];
    AfterBegin(h, data + end, crc);
    assert Encode(h, pixels, crc) == [BeginFrame(h)] + (data + end);
    if h.width > 0 && h.height > 0 && Size(h) <= LIMIT {
      assert pixels[..0] == [];
      DataDecodes(Begun(h), h, pixels, 0, 1, end, crc);
      AtEnd(State(Some(h), pixels, (1 + |data|) % 65536, |data|), h, crc);
    }
  }

  function Begun(h: Header): State
  {
    State(Some(h), [], 1, 0)
  }

  /** What follows the opening frame of a capture. */
  lemma AfterBegin(h: Header, rest: seq<Frame>, crc: Checksum)
    requires (h.format == 0 || h.format == 1) && h.width < 65536 && h.height < 65536
    ensures Decode([BeginFrame(h)] + rest, crc)
            == if h.width == 0 || h.height == 0 then Error(BadBegin)
               else if Size(h) > LIMIT then Error(TooLarge) else DecodeFrom(Begun(h), rest, crc)
  {
    hide Size, Receive, BeginFrame;
    BeginReceived(h, crc);
    assert ([BeginFrame(h)] + rest)[1..] == rest;
  }

  lemma BeginReceived(h: Header, crc: Checksum)
    requires (h.format == 0 || h.format == 1) && h.width < 65536 && h.height < 65536
    ensures Receive(START, BeginFrame(h), crc)
            == if h.width == 0 || h.height == 0 then Stop(Error(BadBegin))
               else if Size(h) > LIMIT then Stop(Error(TooLarge)) else Continue(Begun(h))
  {
    hide Size, High, Word, OnData, OnEnd;
    WordOf(h.width);
    WordOf(h.height);
  }

  lemma AtEnd(s: State, h: Header, crc: Checksum)
    requires s.header == Some(h) && |s.raw| == Size(h)
    ensures DecodeFrom(s, [EndFrame(s.count, crc(s.raw))], crc) == Image(h, s.raw)
  {
    hide Size, Low, High, Word, OnBegin, OnData;
    WordOf(s.count % 65536);
    WordsOf(crc(s.raw));
  }

  // ----- lost frames -----

  /** The frames that arrive when some are lost. */
  function Arriving(frames: seq<Frame>, kept: seq<bool>): seq<Frame>
    requires |kept| == |frames|
  {
    if frames == [] then [] else (if kept[0] then [frames[0]] else []) + Arriving(frames[1..], kept[1..])
  }

  /** A well-formed data frame of a run. */
  predicate IsData(f: Frame)
  {
    f.id == CAP_ID && |f.payload| == 8 && f.payload[7] == DATA && Word(f.payload[2], f.payload[3]) > 0
  }

  /** The pixels that the frames carry. */
  function Carried(frames: seq<Frame>): (r: nat)
    requires forall k :: 0 <= k < |frames| ==> IsData(frames[k])
  {
    if frames == [] then 0 else
      assert IsData(frames[0]);
      Word(frames[0].payload[2], frames[0].payload[3]) + Carried(frames[1..])
  }

  lemma {:induction false} LossIsLess(frames: seq<Frame>, kept: seq<bool>)
    requires |kept| == |frames| && forall k :: 0 <= k < |frames| ==> IsData(frames[k])
    ensures forall k :: 0 <= k < |Arriving(frames, kept)| ==> IsData(Arriving(frames, kept)[k])
    ensures Carried(Arriving(frames, kept)) <= Carried(frames)
    ensures false in kept ==> Carried(Arriving(frames, kept)) < Carried(frames)
  {
    hide IsData, Word;
    if frames != [] {
      LossIsLess(frames[1..], kept[1..]);
      assert IsData(frames[0]);
      RunsCount(frames[0]);
      var rest := Arriving(frames[1..], kept[1..]);
      assert kept == [kept[0]] + kept[1..];
      if kept[0] {
        assert Arriving(frames, kept) == [frames[0]] + rest;
        assert ([frames[0]] + rest)[1..] == rest;
      } else {
        assert Arriving(frames, kept) == rest;
      }
    }
  }

  lemma RunsCount(f: Frame)
    requires IsData(f)
    ensures |f.payload| == 8 && Word(f.payload[2], f.payload[3]) > 0
  {
  }

  /** The encoder's frames carry every pixel from i on once. */
  lemma {:induction false} CarriesAll(pixels: seq<byte>, depth: nat, n: nat, i: nat, number: nat)
    requires i <= n && n * depth <= |pixels| && 2 <= depth <= 3
    ensures var data := DataFrames(pixels, depth, n, i, number);
            (forall k :: 0 <= k < |data| ==> IsData(data[k])) && Carried(data) == n - i
    decreases n - i
  {
    hide DataFrame, RunFrom, PixelAt, IsData, Word;
    if i < n {
      var run := RunFrom(pixels, depth, n, i, 1);
      MulMonotone(i + 1, n, depth);
      var f := DataFrame(number, run, PixelAt(pixels, depth, i));
      EncodedIsData(number, run, PixelAt(pixels, depth, i));
      CarriesAll(pixels, depth, n, i + run, number + 1);
      var rest := DataFrames(pixels, depth, n, i + run, number + 1);
      assert DataFrames(pixels, depth, n, i, number) == [f] + rest && ([f] + rest)[1..] == rest;
    }
  }

  lemma EncodedIsData(number: nat, run: nat, pixel: seq<byte>)
    requires 0 < run < 65536 && 2 <= |pixel| <= 3
    ensures var f := DataFrame(number, run, pixel); IsData(f) && Word(f.payload[2], f.payload[3]) == run
  {
    hide DataFrame, Word;
    DataPayload(number, run, pixel);
  }

  /** A capture of data frames and an end is accepted only when the data carries every pixel. */
  lemma {:induction false} AcceptedIsFull(s: State, h: Header, data: seq<Frame>, end: Frame, crc: Checksum)
    requires s.header == Some(h) && forall k :: 0 <= k < |data| ==> IsData(data[k])
    requires end.id == CAP_ID && |end.payload| == 8 && end.payload[7] == END
    requires DecodeFrom(s, data + [end], crc).Image?
    ensures |s.raw| + Carried(data) * Depth(h.format) == Size(h)
    decreases |data|
  {
    hide IsData, Word, Size, Depth, Receive, Carried;
    if data == [] {
      EndIsFull(s, h, end, crc);
      assert data + [end] == [end];
    } else {
      var f := data[0];
      assert IsData(f) && (data + [end])[0] == f && (data + [end])[1..] == data[1..] + [end];
      DataAdds(s, h, f, crc);
      var t := Receive(s, f, crc).state;
      AcceptedIsFull(t, h, data[1..], end, crc);
      CarriedStep(data);
      Distribute(Word(f.payload[2], f.payload[3]), Carried(data[1..]), Depth(h.format));
    }
  }

  lemma CarriedStep(data: seq<Frame>)
    requires data != [] && forall k :: 0 <= k < |data| ==> IsData(data[k])
    ensures IsData(data[0]) && |data[0].payload| == 8
    ensures Carried(data) == Word(data[0].payload[2], data[0].payload[3]) + Carried(data[1..])
  {
    hide Word;
    assert IsData(data[0]);
  }

  lemma Distribute(a: nat, b: nat, c: nat)
    ensures (a + b) * c == a * c + b * c
  {
  }

  lemma EndIsFull(s: State, h: Header, end: Frame, crc: Checksum)
    requires s.header == Some(h) && end.id == CAP_ID && |end.payload| == 8 && end.payload[7] == END
    requires DecodeFrom(s, [end], crc).Image?
    ensures |s.raw| + Carried([]) * Depth(h.format) == Size(h)
  {
    hide Word, Size, OnBegin, OnData;
  }

  lemma DataAdds(s: State, h: Header, f: Frame, crc: Checksum)
    requires s.header == Some(h) && IsData(f)
    ensures var t := Receive(s, f, crc);
            (t.Stop? && t.result.Error?)
            || (t.Continue? && t.state.header == Some(h)
                && |t.state.raw| == |s.raw| + Word(f.payload[2], f.payload[3]) * Depth(h.format))
  {
    hide Word, Size, OnBegin, OnEnd;
  }

  /** The loss of any set of data frames is noticed, however many are lost and wherever they were:
      also when a multiple of 65536 go in a row and no sequence number is out of place. */
  lemma LossIsNoticed(h: Header, pixels: seq<byte>, kept: seq<bool>, crc: Checksum)
    requires Encodable(h, pixels)
    requires |kept| == |DataFrames(pixels, Depth(h.format), h.width * h.height, 0, 1)| && false in kept
    ensures var data := DataFrames(pixels, Depth(h.format), h.width * h.height, 0, 1);
            Decode([BeginFrame(h)] + Arriving(data, kept) + [EndFrame(|data|, crc(pixels))], crc).Error?
  {
    hide DataFrames, DecodeFrom, BeginFrame, Receive, Carried, IsData, Arriving, Low, High;
    var depth, n := Depth(h.format), h.width * h.height;
    var data := DataFrames(pixels, depth, n, 0, 1);
    var end := EndFrame(|data|, crc(pixels));
    var arriving := Arriving(data, kept);
    CarriesAll(pixels, depth, n, 0, 1);
    LossIsLess(data, kept);
    AfterBegin(h, arriving + [end], crc);
    assert [BeginFrame(h)] + arriving + [end] == [BeginFrame(h)] + (arriving + [end]);
    FewerPixels(Carried(arriving), n, depth);
    ShortIsRefused(h, arriving, end, crc);
  }

  lemma ShortIsRefused(h: Header, data: seq<Frame>, end: Frame, crc: Checksum)
    requires forall k :: 0 <= k < |data| ==> IsData(data[k])
    requires end.id == CAP_ID && |end.payload| == 8 && end.payload[7] == END
    requires Carried(data) * Depth(h.format) < Size(h)
    ensures DecodeFrom(Begun(h), data + [end], crc).Error?
  {
    hide DecodeFrom, Carried, IsData, Size, Depth;
    if DecodeFrom(Begun(h), data + [end], crc).Image? {
      AcceptedIsFull(Begun(h), h, data, end, crc);
    }
  }

  lemma FewerPixels(a: nat, b: nat, depth: nat)
    requires a < b && depth > 0
    ensures a * depth < b * depth
  {
    MulMonotone(a + 1, b, depth);
  }

  // ----- every stream -----

  /** Whatever arrives, an accepted capture is complete and within the limit. */
  lemma {:induction false} AcceptedIsComplete(s: State, frames: seq<Frame>, crc: Checksum)
    requires s.header.Some? ==> 0 < s.header.value.width && 0 < s.header.value.height && |s.raw| <= Size(s.header.value) <= LIMIT
    requires s.header.None? ==> s.raw == []
    ensures DecodeFrom(s, frames, crc).Image? ==>
              var r := DecodeFrom(s, frames, crc);
              |r.raw| == Size(r.header) <= LIMIT && 0 < r.header.width && 0 < r.header.height && s.raw <= r.raw
    decreases |frames|
  {
    hide Size, Word;
    if frames != [] && Receive(s, frames[0], crc).Continue? {
      AcceptedIsComplete(Receive(s, frames[0], crc).state, frames[1..], crc);
    }
  }
}
