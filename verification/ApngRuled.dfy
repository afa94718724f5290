/** The validator accepts exactly the files whose chunks keep the rules. */
module ApngRuled {
  import opened Prelude
  import opened ApngContainer
  import opened ApngRules

  /** The chunks of a file, with a header that the loop has looked at already. */
  predicate Chunks(data: seq<byte>, cs: seq<Chunk>)
  {
    && 0 < |cs| && HeaderRule(cs[0]) && Place(cs, |cs|) == |data| <= SIZE_MAX
    && (forall c :: c in cs ==> |c.name| == 4 && c.kind == KindOf(c.name) && |c.body| <= INT32_MAX)
  }

  /** The palette of a depth has as many entries as its bits allow. */
  lemma RoomIsColors(depth: byte)
    requires depth == 1 || depth == 2 || depth == 4 || depth == 8
    ensures PaletteRoom(depth) == Colors(depth)
  {
    assert Colors(1) == 2 && Colors(2) == 4 && Colors(4) == 16;
    assert Colors(5) == 32 && Colors(6) == 64 && Colors(7) == 128;
    assert Colors(8) == 256;
  }

  /** What the counts are after one more chunk. */
  lemma CountsNext(cs: seq<Chunk>, i: nat)
    requires i < |cs|
    ensures forall k :: Seen(cs, i + 1, k) <==> Seen(cs, i, k) || cs[i].kind == k
    ensures Controls(cs, i + 1) == Controls(cs, i) + (if cs[i].kind == Fctl then 1 else 0)
    ensures Numbered(cs, i + 1) == Numbered(cs, i) + (if cs[i].kind == Fctl || cs[i].kind == Fdat then 1 else 0)
    ensures Payload(cs, i + 1) == (if cs[i].kind == Fctl then 0 else Payload(cs, i) + Picture(cs[i]))
    ensures Default(cs, i + 1) == Default(cs, i) + (if cs[i].kind == Idat then |cs[i].body| else 0)
    ensures Announced(cs, i + 1)
            == if cs[i].kind == Actl && |cs[i].body| == 8 then (Number(cs[i].body[..4]), Number(cs[i].body[4..])) else Announced(cs, i)
    ensures DefaultIncluded(cs, i + 1) <==> DefaultIncluded(cs, i) || (cs[i].kind == Idat && Controls(cs, i) > 0)
  {
    hide Seen;
    forall k ensures Seen(cs, i + 1, k) <==> Seen(cs, i, k) || cs[i].kind == k { SeenNext(cs, i, k); }
  }

  /** Everything but the prefix size, which is summed after the chunk's own rule. */
  ghost predicate Nearly(data: seq<byte>, limits: Limits, cs: seq<Chunk>, i: nat, v: Check)
    requires i < |cs| && 0 < |cs| && |cs[0].body| == 13
  {
    Describes(data, limits, cs, i + 1, v.(doc := v.doc.(prefixBytes := Prefix(cs, i + 1)))) && v.doc.prefixBytes == Prefix(cs, i)
  }

  /** The state that chunk i meets: a chunk other than IDAT ends the image. */
  function Met(v: Check, c: Chunk): Check
  {
    if v.idat && c.kind != Idat then v.(idatEnd := true) else v
  }

  lemma PaletteEntry(cs: seq<Chunk>, i: nat, n: nat, palette: nat)
    requires i <= |cs| && forall j :: 0 <= j < i && cs[j].kind == Plte ==> palette == |cs[j].body| / 3
    ensures (exists j :: 0 <= j < i && cs[j].kind == Plte && n <= |cs[j].body| / 3) <==> Seen(cs, i, Plte) && n <= palette
  {
  }

  /** Chunk i of a file whose header was looked at. */
  predicate Here(cs: seq<Chunk>, i: nat)
  {
    i < |cs| && |cs[0].body| == 13 && |cs[i].name| == 4
  }

  lemma PlainStep(data: seq<byte>, limits: Limits, cs: seq<Chunk>, i: nat, v: Check)
    requires Here(cs, i) && Describes(data, limits, cs, i, v)
    requires cs[i].kind == Ihdr || cs[i].kind == Dctl || cs[i].kind == Other
    ensures Nearly(data, limits, cs, i, Met(v, cs[i]))
  {
    hide Seen, Controls, Numbered, Payload, Default, Announced, DefaultIncluded, Prefix, Place, Width, Height, Color, Depth, FirstImage;
    CountsNext(cs, i);
    ImagePlace(cs, i, v);
  }

  /** The place of the first IDAT stays. */
  lemma ImagePlace(cs: seq<Chunk>, i: nat, v: Check)
    requires i < |cs| && (v.idat ==> exists b :: FirstImage(cs, i, b) && v.doc.prefixEnd == Place(cs, b))
    ensures v.idat ==> exists b :: FirstImage(cs, i + 1, b) && v.doc.prefixEnd == Place(cs, b)
  {
    hide Seen, Place;
    if v.idat {
      var b :| FirstImage(cs, i, b) && v.doc.prefixEnd == Place(cs, b);
      assert FirstImage(cs, i + 1, b);
    }
  }

  lemma AnimationStep(data: seq<byte>, limits: Limits, cs: seq<Chunk>, i: nat, v: Check)
    requires Here(cs, i) && Describes(data, limits, cs, i, v) && cs[i].kind == Actl
    ensures OnAnimation(limits, cs[i], Met(v, cs[i])).Some? <==> AnimationRule(cs, i, limits)
    ensures AnimationRule(cs, i, limits) ==> Nearly(data, limits, cs, i, OnAnimation(limits, cs[i], Met(v, cs[i])).value)
  {
    hide Seen, Controls, Numbered, Payload, Default, Announced, DefaultIncluded, Prefix, Place, Width, Height, Color, Depth, FirstImage, Number;
    CountsNext(cs, i);
    ImagePlace(cs, i, v);
    if |cs[i].body| == 8 {
      NumberIsBe32(cs[i].body[..4]);
      NumberIsBe32(cs[i].body[4..]);
      assert cs[i].body[4..8] == cs[i].body[4..];
    }
  }

  lemma ControlStep(data: seq<byte>, limits: Limits, cs: seq<Chunk>, i: nat, v: Check)
    requires Here(cs, i) && Describes(data, limits, cs, i, v) && cs[i].kind == Fctl
    ensures OnControl(cs[i], Met(v, cs[i])).Some? <==> ControlRule(cs, i)
    ensures ControlRule(cs, i) ==> Nearly(data, limits, cs, i, OnControl(cs[i], Met(v, cs[i])).value)
  {
    hide Describes, Nearly, ControlRule, OnControl;
    ControlTaken(data, limits, cs, i, v);
    if ControlRule(cs, i) { ControlCounted(data, limits, cs, i, v); }
  }

  lemma ControlTaken(data: seq<byte>, limits: Limits, cs: seq<Chunk>, i: nat, v: Check)
    requires Here(cs, i) && Describes(data, limits, cs, i, v) && cs[i].kind == Fctl
    ensures OnControl(cs[i], Met(v, cs[i])).Some? <==> ControlRule(cs, i)
    ensures ControlRule(cs, i) ==>
              var m := Met(v, cs[i]);
              OnControl(cs[i], m).value == m.(sequence := v.sequence + 1, controls := v.controls + 1, active := true, frameData := false, payload := 0)
  {
    hide Seen, Controls, Numbered, Payload, Default, Announced, DefaultIncluded, Prefix, Place, Width, Height, Color, Depth, FirstImage, Number,
         Control;
    ControlReads(cs[i]);
    if |cs[i].body| == 26 {
      NumberIsBe32(cs[i].body[..4]);
      SequenceRoom(cs, i);
    }
  }

  lemma ControlCounted(data: seq<byte>, limits: Limits, cs: seq<Chunk>, i: nat, v: Check)
    requires Here(cs, i) && Describes(data, limits, cs, i, v) && cs[i].kind == Fctl
    ensures Nearly(data, limits, cs, i,
              Met(v, cs[i]).(sequence := v.sequence + 1, controls := v.controls + 1, active := true, frameData := false, payload := 0))
  {
    hide Seen, Controls, Numbered, Payload, Default, Announced, DefaultIncluded, Prefix, Place, Width, Height, Color, Depth, FirstImage;
    CountsNext(cs, i);
    ImagePlace(cs, i, v);
  }

  lemma SequenceRoom(cs: seq<Chunk>, i: nat)
    requires i < |cs| && |cs[i].body| >= 4
    ensures Number(cs[i].body[..4]) <= U32_MAX
  {
    NumberIsBe32(cs[i].body[..4]);
  }

  lemma ImageStep(data: seq<byte>, limits: Limits, cs: seq<Chunk>, i: nat, v: Check)
    requires Here(cs, i) && Describes(data, limits, cs, i, v) && cs[i].kind == Idat && SumsFit(cs, i)
    ensures OnImage(Place(cs, i), cs[i], Met(v, cs[i])).Some? <==> ImageRule(cs, i)
    ensures ImageRule(cs, i) ==> Nearly(data, limits, cs, i, OnImage(Place(cs, i), cs[i], Met(v, cs[i])).value)
  {
    hide Seen, Controls, Numbered, Payload, Default, Announced, Prefix, Place, Width, Height, Color, Depth, FirstImage, DefaultIncluded;
    CountsNext(cs, i);
    ImagePlace(cs, i, v);
    if ImageRule(cs, i) { FirstOrNext(cs, i); }
  }

  /** IDAT chunks are neighbours, so a later one includes the default image no more than the first did. */
  lemma FirstOrNext(cs: seq<Chunk>, i: nat)
    requires i < |cs| && |cs[0].body| == 13 && cs[i].kind == Idat && ImageRule(cs, i)
    ensures Seen(cs, i, Idat) ==> (DefaultIncluded(cs, i + 1) <==> DefaultIncluded(cs, i))
    ensures !Seen(cs, i, Idat) ==> (DefaultIncluded(cs, i + 1) <==> Controls(cs, i) > 0) && FirstImage(cs, i + 1, i)
  {
    CountsNext(cs, i);
    if Seen(cs, i, Idat) { assert Controls(cs, i) == Controls(cs, i - 1); }
  }

  /** No sum of sizes overflows. */
  predicate SumsFit(cs: seq<Chunk>, i: nat)
    requires i < |cs|
  {
    Payload(cs, i) + |cs[i].body| <= SIZE_MAX && Default(cs, i) + |cs[i].body| <= SIZE_MAX
  }

  lemma NoOverflow(cs: seq<Chunk>, i: nat, size: nat)
    requires i < |cs| && Place(cs, |cs|) == size <= SIZE_MAX
    ensures SumsFit(cs, i) && Prefix(cs, i) + Size(cs[i]) <= SIZE_MAX && Place(cs, i) + Size(cs[i]) <= size
    ensures Place(cs, i) + Size(cs[i]) == size <==> i == |cs| - 1
  {
    hide Payload, Default, Prefix, Place;
    SumsWithin(cs, i);
    NextPlace(cs, i);
    PlacesGrow(cs, i + 1, |cs|);
  }

  lemma NextPlace(cs: seq<Chunk>, i: nat)
    requires i < |cs|
    ensures Place(cs, i + 1) == Place(cs, i) + Size(cs[i])
  {
  }

  lemma {:induction false} PlacesGrow(cs: seq<Chunk>, i: nat, k: nat)
    requires i <= k <= |cs|
    ensures Place(cs, i) <= Place(cs, k) && (i < k ==> Place(cs, i) < Place(cs, k))
    decreases k - i
  {
    if i < k { PlacesGrow(cs, i, k - 1); }
  }

  lemma FrameDataStep(data: seq<byte>, limits: Limits, cs: seq<Chunk>, i: nat, v: Check)
    requires Here(cs, i) && Describes(data, limits, cs, i, v) && cs[i].kind == Fdat && SumsFit(cs, i)
    ensures OnFrameData(cs[i], Met(v, cs[i])).Some? <==> FrameDataRule(cs, i)
    ensures FrameDataRule(cs, i) ==> Nearly(data, limits, cs, i, OnFrameData(cs[i], Met(v, cs[i])).value)
  {
    hide Seen, Controls, Numbered, Payload, Default, Announced, DefaultIncluded, Prefix, Place, Width, Height, Color, Depth, FirstImage, Number;
    CountsNext(cs, i);
    ImagePlace(cs, i, v);
    if |cs[i].body| >= 4 {
      NumberIsBe32(cs[i].body[..4]);
      SequenceRoom(cs, i);
    }
  }

  lemma PaletteStep(data: seq<byte>, limits: Limits, cs: seq<Chunk>, i: nat, v: Check)
    requires Here(cs, i) && Describes(data, limits, cs, i, v) && cs[i].kind == Plte && HeaderRule(cs[0])
    ensures OnPalette(cs[i], Met(v, cs[i])).Some? <==> PaletteRule(cs, i)
    ensures PaletteRule(cs, i) ==> Nearly(data, limits, cs, i, OnPalette(cs[i], Met(v, cs[i])).value)
  {
    hide Controls, Numbered, Payload, Default, Announced, DefaultIncluded, Prefix, Place, Width, Height, Number, Colors, PaletteRoom, FirstImage, HeaderRule;
    CountsNext(cs, i);
    ImagePlace(cs, i, v);
    if Color(cs) == 3 {
      PaletteDepth(cs);
      RoomIsColors(Depth(cs));
    }
  }

  lemma TransparencyStep(data: seq<byte>, limits: Limits, cs: seq<Chunk>, i: nat, v: Check)
    requires Here(cs, i) && Describes(data, limits, cs, i, v) && cs[i].kind == Trns
    ensures OnTransparency(cs[i], Met(v, cs[i])).Some? <==> TransparencyRule(cs, i)
    ensures TransparencyRule(cs, i) ==> Nearly(data, limits, cs, i, OnTransparency(cs[i], Met(v, cs[i])).value)
  {
    hide Seen, Controls, Numbered, Payload, Default, Announced, DefaultIncluded, Prefix, Place, Width, Height, Number, FirstImage, Color, Depth;
    CountsNext(cs, i);
    ImagePlace(cs, i, v);
    PaletteEntry(cs, i, |cs[i].body|, v.palette);
  }

  lemma EndStep(data: seq<byte>, limits: Limits, cs: seq<Chunk>, i: nat, v: Check)
    requires Here(cs, i) && Describes(data, limits, cs, i, v) && cs[i].kind == Iend
    requires Place(cs, i) + Size(cs[i]) == |data| <==> i == |cs| - 1
    ensures OnEnd(|data|, Place(cs, i), cs[i], Met(v, cs[i])).Some? <==> EndRule(cs, i)
    ensures EndRule(cs, i) ==> Nearly(data, limits, cs, i, OnEnd(|data|, Place(cs, i), cs[i], Met(v, cs[i])).value)
  {
    hide Seen, Controls, Numbered, Payload, Default, Announced, DefaultIncluded, Prefix, Place, Width, Height, Number, FirstImage, Color, Depth;
    CountsNext(cs, i);
    ImagePlace(cs, i, v);
  }

  lemma PaletteDepth(cs: seq<Chunk>)
    requires 0 < |cs| && HeaderRule(cs[0]) && Color(cs) == 3
    ensures Depth(cs) == 1 || Depth(cs) == 2 || Depth(cs) == 4 || Depth(cs) == 8
  {
  }

  // ----- one chunk -----

  lemma KindStep(data: seq<byte>, limits: Limits, crc: Checksum, cs: seq<Chunk>, i: nat, v: Check)
    requires Here(cs, i) && HeaderRule(cs[0]) && Describes(data, limits, cs, i, v) && SumsFit(cs, i) && Formed(crc, cs[i])
    requires (Place(cs, i) + Size(cs[i]) == |data| <==> i == |cs| - 1) && (Place(cs, i) == 8 <==> i == 0)
    requires LowerCase(cs[i].name[0]) <==> Ancillary(cs[i])
    ensures OnKind(limits, |data|, Place(cs, i), cs[i], Met(v, cs[i])).Some? <==> Rule(crc, cs, i, limits)
    ensures Rule(crc, cs, i, limits) ==> Nearly(data, limits, cs, i, OnKind(limits, |data|, Place(cs, i), cs[i], Met(v, cs[i])).value)
  {
    hide Describes, Nearly, Met, HeaderRule, Formed, Ancillary, LowerCase, Place, SumsFit, OnAnimation, OnControl, OnImage, OnFrameData, OnPalette,
         OnTransparency, OnEnd, AnimationRule, ControlRule, ImageRule, FrameDataRule, PaletteRule, TransparencyRule, EndRule;
    match cs[i].kind
    case Actl => AnimationStep(data, limits, cs, i, v);
    case Fctl => ControlStep(data, limits, cs, i, v);
    case Idat => ImageStep(data, limits, cs, i, v);
    case Fdat => FrameDataStep(data, limits, cs, i, v);
    case Plte => PaletteStep(data, limits, cs, i, v);
    case Trns => TransparencyStep(data, limits, cs, i, v);
    case Iend => EndStep(data, limits, cs, i, v);
    case _ => PlainStep(data, limits, cs, i, v);
  }

  /** A chunk passes exactly when it keeps its rule and the prefix stays within the limit. */
  lemma InspectStep(data: seq<byte>, limits: Limits, crc: Checksum, cs: seq<Chunk>, i: nat, v: Check)
    requires Chunks(data, cs) && Here(cs, i) && Describes(data, limits, cs, i, v) && Prefix(cs, i) <= limits.framePngBytes
    ensures Inspect(crc, limits, |data|, Place(cs, i), cs[i], v).Some? <==> Rule(crc, cs, i, limits) && Prefix(cs, i + 1) <= limits.framePngBytes
    ensures Rule(crc, cs, i, limits) && Prefix(cs, i + 1) <= limits.framePngBytes ==>
              Describes(data, limits, cs, i + 1, Inspect(crc, limits, |data|, Place(cs, i), cs[i], v).value)
  {
    hide Describes, HeaderRule, Formed, Rule, Place, OnKind, SumsFit, NamedAndSummed, Prefix, LowerCase, Ancillary, IsPrefix, KindOf;
    NoOverflow(cs, i, |data|);
    FirstPlace(cs, i);
    FormedIs(crc, cs[i]);
    RuleForms(crc, cs, i, limits);
    if Formed(crc, cs[i]) {
      KindStep(data, limits, crc, cs, i, v);
      if Rule(crc, cs, i, limits) { PrefixStep(data, limits, cs, i, OnKind(limits, |data|, Place(cs, i), cs[i], Met(v, cs[i])).value); }
    }
  }

  /** Every chunk of the file is looked at. */
  lemma AllHere(data: seq<byte>, cs: seq<Chunk>)
    requires Chunks(data, cs)
    ensures |cs[0].body| == 13 && forall i :: 0 <= i < |cs| ==> Here(cs, i)
  {
  }

  lemma RuleForms(crc: Checksum, cs: seq<Chunk>, i: nat, limits: Limits)
    requires i < |cs| && |cs[0].body| == 13
    ensures Rule(crc, cs, i, limits) ==> Formed(crc, cs[i])
  {
  }

  lemma FirstPlace(cs: seq<Chunk>, i: nat)
    requires i <= |cs|
    ensures Place(cs, i) >= 8 && (Place(cs, i) == 8 <==> i == 0)
  {
    PlacesGrow(cs, 0, i);
  }

  lemma PrefixStep(data: seq<byte>, limits: Limits, cs: seq<Chunk>, i: nat, w: Check)
    requires Here(cs, i) && Nearly(data, limits, cs, i, w) && Prefix(cs, i) <= limits.framePngBytes
    ensures Prefix(cs, i + 1) == Prefix(cs, i) + if i > 0 && !w.idat && IsPrefix(cs[i]) then Size(cs[i]) else 0
    ensures Describes(data, limits, cs, i + 1, w.(doc := w.doc.(prefixBytes := Prefix(cs, i + 1))))
    ensures w.doc.prefixBytes == Prefix(cs, i)
  {
    hide Seen, Place, Controls, Numbered, Payload, Default, Announced, DefaultIncluded, Width, Height, Color, FirstImage;
  }

  // ----- the whole scan -----

  predicate Rules(crc: Checksum, cs: seq<Chunk>, limits: Limits, from: nat)
    requires 0 < |cs| && |cs[0].body| == 13
  {
    forall i :: from <= i < |cs| ==> Rule(crc, cs, i, limits)
  }

  lemma {:induction false} PrefixGrows(cs: seq<Chunk>, i: nat, k: nat)
    requires i <= k <= |cs|
    ensures Prefix(cs, i) <= Prefix(cs, k)
    decreases k - i
  {
    hide Seen;
    if i < k { PrefixGrows(cs, i, k - 1); }
  }

  /** One round of the scan. */
  lemma ScanOn(crc: Checksum, limits: Limits, data: seq<byte>, pos: nat, c: Chunk, v: Check)
    requires pos < |data| && ChunkAt(data, pos) == Some(c)
    ensures |c.name| == 4
    ensures Scan(crc, limits, data, pos, v)
         == match Inspect(crc, limits, |data|, pos, c, v) { case None => None case Some(w) => Scan(crc, limits, data, pos + Size(c), w) }
  {
    hide ChunkAt, Inspect;
  }

  lemma ScanEnd(crc: Checksum, limits: Limits, data: seq<byte>, pos: nat, v: Check)
    requires pos >= |data|
    ensures Scan(crc, limits, data, pos, v) == Some(v)
  {
  }

  /** From chunk i on the scan passes exactly when every chunk keeps its rule and the prefix fits. */
  lemma {:induction false} ScanExactly(data: seq<byte>, limits: Limits, crc: Checksum, cs: seq<Chunk>, i: nat, v: Check)
    requires Chunks(data, cs) && |cs[0].body| == 13 && i <= |cs| && Describes(data, limits, cs, i, v)
    requires Prefix(cs, i) <= limits.framePngBytes && Cut(data, Place(cs, i)) == Some(cs[i..])
    ensures Scan(crc, limits, data, Place(cs, i), v).Some? <==> Rules(crc, cs, limits, i) && Prefix(cs, |cs|) <= limits.framePngBytes
    ensures Scan(crc, limits, data, Place(cs, i), v).Some? ==> Describes(data, limits, cs, |cs|, Scan(crc, limits, data, Place(cs, i), v).value)
    decreases |cs| - i
  {
    hide Describes, HeaderRule, Rule, Place, Inspect, ChunkAt, Prefix, Here, Cut, Size, Scan;
    if i < |cs| {
      AllHere(data, cs);
      CutHere(data, cs, i);
      ScanOn(crc, limits, data, Place(cs, i), cs[i], v);
      InspectStep(data, limits, crc, cs, i, v);
      PrefixGrows(cs, i + 1, |cs|);
      if Rule(crc, cs, i, limits) && Prefix(cs, i + 1) <= limits.framePngBytes {
        ScanExactly(data, limits, crc, cs, i + 1, Inspect(crc, limits, |data|, Place(cs, i), cs[i], v).value);
      }
    } else {
      ScanEnd(crc, limits, data, Place(cs, i), v);
    }
  }

  /** Chunk i stands at its place, and the others after it. */
  lemma CutHere(data: seq<byte>, cs: seq<Chunk>, i: nat)
    requires i < |cs| && Cut(data, Place(cs, i)) == Some(cs[i..])
    ensures Place(cs, i) < |data| && ChunkAt(data, Place(cs, i)) == Some(cs[i])
    ensures Place(cs, i + 1) == Place(cs, i) + Size(cs[i]) && Cut(data, Place(cs, i + 1)) == Some(cs[i + 1..])
  {
    hide ChunkAt;
    assert cs[i..][0] == cs[i] && cs[i..][1..] == cs[i + 1..];
    var c := ChunkAt(data, Place(cs, i)).value;
    var rest := Cut(data, Place(cs, i) + Size(c)).value;
    assert cs[i..] == [c] + rest;
    assert ([c] + rest)[1..] == rest;
  }
}
