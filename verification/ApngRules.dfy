/** Which files are accepted, stated on the sequence of chunks alone: each chunk's rule in terms of the
    chunks before it, and the frames that the file then has, in terms of the fcTL chunks. */
module ApngRules {
  import opened Prelude
  import opened ApngContainer

  // ----- numbers and chunks -----

  /** A big-endian number of any length. */
  function Number(s: seq<byte>): nat
  {
    if s == [] then 0 else Number(s[..|s| - 1]) * 256 + s[|s| - 1] as int
  }

  lemma NumberIsBe32(s: seq<byte>)
    requires |s| == 4
    ensures Number(s) == Be32(s)
  {
    assert s[..3][..2] == s[..2] && s[..2][..1] == s[..1] && s[..1][..0] == [];
    assert Number(s[..1]) == s[0] as int;
    assert Number(s[..2]) == Number(s[..1]) * 256 + s[1] as int;
    assert Number(s[..3]) == Number(s[..2]) * 256 + s[2] as int;
  }

  lemma NumberIsBe16(s: seq<byte>)
    requires |s| == 2
    ensures Number(s) == Be16(s)
  {
    assert s[..1][..0] == [];
    assert Number(s[..1]) == s[0] as int;
  }

  /** The chunks of a file from a position on, if they fill it exactly. */
  function Cut(data: seq<byte>, pos: nat): (r: Option<seq<Chunk>>)
    ensures r.Some? ==> forall c :: c in r.value ==> |c.name| == 4 && c.kind == KindOf(c.name) && |c.body| <= INT32_MAX
    decreases |data| - pos
  {
    if pos >= |data| then Some([])
    else
      match ChunkAt(data, pos)
      case None => None
      case Some(c) =>
        match Cut(data, pos + Size(c))
        case None => None
        case Some(rest) => Some([c] + rest)
  }

  /** Where chunk i starts. */
  function Place(cs: seq<Chunk>, i: nat): nat
    requires i <= |cs|
  {
    if i == 0 then 8 else Place(cs, i - 1) + Size(cs[i - 1])
  }

  // ----- what stands before a chunk -----

  predicate Seen(cs: seq<Chunk>, i: nat, k: Kind)
    requires i <= |cs|
  {
    exists j :: 0 <= j < i && cs[j].kind == k
  }

  /** The number of fcTL chunks before chunk i. */
  function Controls(cs: seq<Chunk>, i: nat): nat
    requires i <= |cs|
  {
    if i == 0 then 0 else Controls(cs, i - 1) + if cs[i - 1].kind == Fctl then 1 else 0
  }

  /** The number of chunks with a sequence number before chunk i. */
  function Numbered(cs: seq<Chunk>, i: nat): nat
    requires i <= |cs|
  {
    if i == 0 then 0 else Numbered(cs, i - 1) + if cs[i - 1].kind == Fctl || cs[i - 1].kind == Fdat then 1 else 0
  }

  /** The picture bytes of a chunk. */
  function Picture(c: Chunk): nat
  {
    if c.kind == Idat then |c.body| else if c.kind == Fdat && |c.body| >= 4 then |c.body| - 4 else 0
  }

  /** The picture bytes since the last fcTL before chunk i. */
  function Payload(cs: seq<Chunk>, i: nat): nat
    requires i <= |cs|
  {
    if i == 0 || cs[i - 1].kind == Fctl then 0 else Payload(cs, i - 1) + Picture(cs[i - 1])
  }

  /** The bytes of the IDAT chunks before chunk i. */
  function Default(cs: seq<Chunk>, i: nat): nat
    requires i <= |cs|
  {
    if i == 0 then 0 else Default(cs, i - 1) + if cs[i - 1].kind == Idat then |cs[i - 1].body| else 0
  }

  /** The bytes of the chunks before chunk i that every extracted frame repeats. */
  function Prefix(cs: seq<Chunk>, i: nat): nat
    requires i <= |cs|
  {
    if i <= 1 then 0
    else
      Prefix(cs, i - 1)
      + if !Seen(cs, i, Idat) && cs[i - 1].kind != Actl && cs[i - 1].kind != Fctl && cs[i - 1].kind != Dctl then Size(cs[i - 1]) else 0
  }

  /** Frames and plays announced before chunk i: one each without acTL. */
  function Announced(cs: seq<Chunk>, i: nat): (nat, nat)
    requires i <= |cs|
  {
    if i == 0 then (1, 1)
    else if cs[i - 1].kind == Actl && |cs[i - 1].body| == 8 then (Number(cs[i - 1].body[..4]), Number(cs[i - 1].body[4..]))
    else Announced(cs, i - 1)
  }

  // ----- the rules -----

  predicate UpperCase(b: byte)
  {
    65 <= b <= 90
  }

  predicate LowerCase(b: byte)
  {
    97 <= b <= 122
  }

  /** Any chunk: four letters, the third in upper case, and the right checksum. */
  predicate Formed(crc: Checksum, c: Chunk)
  {
    && |c.name| == 4 && (forall k :: 0 <= k < 4 ==> UpperCase(c.name[k]) || LowerCase(c.name[k]))
    && UpperCase(c.name[2]) && crc(c.name + c.body) == c.check
  }

  /** The header: a colour type with one of its depths, no other compression or filter, known interlacing. */
  predicate HeaderRule(c: Chunk)
  {
    && c.kind == Ihdr && |c.body| == 13
    && (c.body[9] as int, c.body[8] as int) in {(0, 1), (0, 2), (0, 4), (0, 8), (0, 16), (2, 8), (2, 16), (3, 1), (3, 2), (3, 4), (3, 8),
                                  (4, 8), (4, 16), (6, 8), (6, 16)}
    && c.body[10] == 0 && c.body[11] == 0 && c.body[12] <= 1
  }

  function Width(cs: seq<Chunk>): nat
    requires |cs| > 0 && |cs[0].body| == 13
  {
    Number(cs[0].body[..4])
  }

  function Height(cs: seq<Chunk>): nat
    requires |cs| > 0 && |cs[0].body| == 13
  {
    Number(cs[0].body[4..8])
  }

  function Color(cs: seq<Chunk>): byte
    requires |cs| > 0 && |cs[0].body| == 13
  {
    cs[0].body[9]
  }

  function Depth(cs: seq<Chunk>): byte
    requires |cs| > 0 && |cs[0].body| == 13
  {
    cs[0].body[8]
  }

  function Colors(depth: nat): nat
  {
    if depth == 0 then 1 else 2 * Colors(depth - 1)
  }

  predicate AnimationRule(cs: seq<Chunk>, i: nat, limits: Limits)
    requires i < |cs|
  {
    && !Seen(cs, i, Actl) && !Seen(cs, i, Idat) && |cs[i].body| == 8
    && 1 <= Number(cs[i].body[..4]) <= limits.frames
  }

  /** The rectangle of an fcTL body lies on the canvas. */
  predicate OnCanvas(b: seq<byte>, width: nat, height: nat)
    requires |b| == 26
  {
    && 0 < Number(b[4..8]) && 0 < Number(b[8..12])
    && Number(b[12..16]) + Number(b[4..8]) <= width && Number(b[16..20]) + Number(b[8..12]) <= height
  }

  predicate ControlRule(cs: seq<Chunk>, i: nat)
    requires i < |cs| && |cs[0].body| == 13
  {
    var b := cs[i].body;
    && Seen(cs, i, Actl) && Controls(cs, i) < Announced(cs, i).0
    && (Controls(cs, i) > 0 ==> Payload(cs, i) > 0)
    && |b| == 26 && b[24] <= 2 && b[25] <= 1 && Number(b[..4]) == Numbered(cs, i)
    && OnCanvas(b, Width(cs), Height(cs))
    && (!Seen(cs, i, Idat) ==> Number(b[4..8]) == Width(cs) && Number(b[8..12]) == Height(cs) && Number(b[12..16]) == Number(b[16..20]) == 0)
  }

  predicate ImageRule(cs: seq<Chunk>, i: nat)
    requires i < |cs| && |cs[0].body| == 13
  {
    && (Seen(cs, i, Idat) ==> cs[i - 1].kind == Idat) && (Color(cs) == 3 ==> Seen(cs, i, Plte))
  }

  /** An fcTL stands before an IDAT: the default image is the first frame. */
  predicate DefaultIncluded(cs: seq<Chunk>, i: nat)
    requires i <= |cs|
  {
    exists b :: 0 <= b < i && cs[b].kind == Idat && Controls(cs, b) > 0
  }

  predicate FrameDataRule(cs: seq<Chunk>, i: nat)
    requires i < |cs|
  {
    && Seen(cs, i, Actl) && Seen(cs, i, Idat) && Controls(cs, i) > 0
    && |cs[i].body| >= 4 && Number(cs[i].body[..4]) == Numbered(cs, i)
    && !(Controls(cs, i) == 1 && DefaultIncluded(cs, i))
  }

  predicate PaletteRule(cs: seq<Chunk>, i: nat)
    requires i < |cs| && |cs[0].body| == 13
  {
    var n := |cs[i].body|;
    && !Seen(cs, i, Plte) && !Seen(cs, i, Idat) && !Seen(cs, i, Trns) && Color(cs) != 0 && Color(cs) != 4
    && 0 < n <= 768 && n % 3 == 0 && (Color(cs) == 3 ==> n / 3 <= Colors(Depth(cs)))
  }

  predicate TransparencyRule(cs: seq<Chunk>, i: nat)
    requires i < |cs| && |cs[0].body| == 13
  {
    var n := |cs[i].body|;
    && !Seen(cs, i, Trns) && !Seen(cs, i, Idat)
    && match Color(cs) {
         case 0 => n == 2
         case 2 => n == 6
         case 3 => 0 < n && exists j :: 0 <= j < i && cs[j].kind == Plte && n <= |cs[j].body| / 3
         case _ => false
       }
  }

  predicate EndRule(cs: seq<Chunk>, i: nat)
    requires i < |cs|
  {
    && cs[i].body == [] && i == |cs| - 1 && Seen(cs, i, Idat) && Default(cs, i) > 0
    && (Seen(cs, i, Actl) ==> 0 < Controls(cs, i) == Announced(cs, i).0 && Payload(cs, i) > 0)
  }

  /** What chunk i must be, after those before it. */
  predicate Rule(crc: Checksum, cs: seq<Chunk>, i: nat, limits: Limits)
    requires i < |cs| && |cs[0].body| == 13
  {
    && Formed(crc, cs[i])
    && match cs[i].kind
       case Ihdr => i == 0
       case Actl => AnimationRule(cs, i, limits)
       case Fctl => ControlRule(cs, i)
       case Idat => ImageRule(cs, i)
       case Fdat => FrameDataRule(cs, i)
       case Plte => PaletteRule(cs, i)
       case Trns => TransparencyRule(cs, i)
       case Iend => EndRule(cs, i)
       case _ => LowerCase(cs[i].name[0])
  }

  // ----- the state of the validation loop -----

  /** What the loop knows before chunk i. */
  ghost predicate Describes(data: seq<byte>, limits: Limits, cs: seq<Chunk>, i: nat, v: Check)
    requires i <= |cs| && 0 < |cs| && |cs[0].body| == 13
  {
    var d := v.doc;
    && d.data == data && d.maxFramePngBytes == limits.framePngBytes
    && d.width == Width(cs) && d.height == Height(cs) && v.color == Color(cs) && v.depth == Depth(cs)
    && d.animated == Seen(cs, i, Actl) && d.frames == Announced(cs, i).0 && d.plays == Announced(cs, i).1
    && d.prefixBytes == Prefix(cs, i)
    && v.idat == Seen(cs, i, Idat) && v.idatEnd == (Seen(cs, i, Idat) && cs[i - 1].kind != Idat)
    && v.active == (Controls(cs, i) > 0) && v.controls == Controls(cs, i) && v.sequence == Numbered(cs, i)
    && v.payload == (if Controls(cs, i) > 0 then Payload(cs, i) else 0) && (v.payload > 0 ==> v.frameData)
    && v.defaultPayload == Default(cs, i) && v.includedDefault == DefaultIncluded(cs, i)
    && v.plte == Seen(cs, i, Plte) && v.trns == Seen(cs, i, Trns) && v.ended == Seen(cs, i, Iend)
    && (forall j :: 0 <= j < i && cs[j].kind == Plte ==> v.palette == |cs[j].body| / 3)
    && (v.idat ==> exists b :: FirstImage(cs, i, b) && d.prefixEnd == Place(cs, b))
  }

  /** b is the first IDAT, and stands before chunk i. */
  predicate FirstImage(cs: seq<Chunk>, i: nat, b: nat)
    requires i <= |cs|
  {
    b < i && cs[b].kind == Idat && !Seen(cs, b, Idat)
  }

  lemma SeenNext(cs: seq<Chunk>, i: nat, k: Kind)
    requires i < |cs|
    ensures Seen(cs, i + 1, k) <==> Seen(cs, i, k) || cs[i].kind == k
  {
  }

  /** No sum of bytes before chunk i exceeds its place. */
  lemma {:induction false} SumsWithin(cs: seq<Chunk>, i: nat)
    requires i <= |cs|
    ensures Payload(cs, i) <= Place(cs, i) && Default(cs, i) <= Place(cs, i) && Prefix(cs, i) <= Place(cs, i) && 8 + 12 * i <= Place(cs, i)
    ensures Controls(cs, i) <= Numbered(cs, i) <= i
  {
    hide Seen;
    if i > 0 { SumsWithin(cs, i - 1); }
  }

  lemma FormedIs(crc: Checksum, c: Chunk)
    requires |c.name| == 4
    ensures Formed(crc, c) <==> NamedAndSummed(crc, c)
    ensures Formed(crc, c) ==> (LowerCase(c.name[0]) <==> Ancillary(c))
  {
    LetterIs(c.name[0]);
    LetterIs(c.name[1]);
    LetterIs(c.name[2]);
    LetterIs(c.name[3]);
  }

  lemma LetterIs(b: byte)
    ensures Letter(b) <==> UpperCase(b) || LowerCase(b)
    ensures Letter(b) ==> (Bit5(b) <==> LowerCase(b))
  {
    if UpperCase(b) { assert b / 32 == 2; }
    if LowerCase(b) { assert b / 32 == 3; }
  }

  /** The fields of an fcTL body as the parser reads them. */
  lemma ControlReads(c: Chunk)
    ensures Control(c).Some? <==> |c.body| == 26 && c.body[24] <= 2 && c.body[25] <= 1
    ensures Control(c).Some? ==>
              var f, b := Control(c).value, c.body;
              && f.width == Number(b[4..8]) && f.height == Number(b[8..12]) && f.x == Number(b[12..16]) && f.y == Number(b[16..20])
              && f.delayNum == Number(b[20..22]) && f.delayDen == (if Number(b[22..24]) == 0 then 100 else Number(b[22..24]))
              && f.dispose == b[24] && f.blend == b[25]
  {
    if |c.body| == 26 {
      NumberIsBe32(c.body[4..8]);
      NumberIsBe32(c.body[8..12]);
      NumberIsBe32(c.body[12..16]);
      NumberIsBe32(c.body[16..20]);
      NumberIsBe16(c.body[20..22]);
      NumberIsBe16(c.body[22..24]);
    }
  }
}
