/** Files as an encoder writes them: chunks printed from their names and numbers are read as written, and
    an animation printed with right sequence numbers opens with the frames and plays it was given. */
module ApngPrinted {
  import opened Prelude
  import opened ApngContainer
  import opened ApngRules
  import opened ApngRuled
  import opened ApngFramed
  import opened ApngOpens

  // ----- names and numbers -----

  /** The name is the ASCII code of a word. */
  predicate Spelled(name: seq<byte>, word: string)
  {
    |name| == |word| && forall k :: 0 <= k < |word| ==> name[k] as int == word[k] as int
  }

  predicate Spells(name: seq<byte>, kind: Kind)
  {
    match kind
    case Ihdr => Spelled(name, "IHDR")
    case Plte => Spelled(name, "PLTE")
    case Trns => Spelled(name, "tRNS")
    case Idat => Spelled(name, "IDAT")
    case Iend => Spelled(name, "IEND")
    case Actl => Spelled(name, "acTL")
    case Fctl => Spelled(name, "fcTL")
    case Fdat => Spelled(name, "fdAT")
    case Dctl => Spelled(name, "dcTL")
    case Other => false
  }

  lemma SpellsOneWord(name: seq<byte>, kind: Kind)
    requires kind != Other
    ensures Spells(name, kind) <==> KindOf(name) == kind
  {
    assert "IHDR"[0] as int == 73 && "PLTE"[0] as int == 80 && "tRNS"[0] as int == 116 && "acTL"[0] as int == 97;
    if Spells(name, kind) {
      match kind
      case Ihdr => assert name == IHDR;
      case Plte => assert name == PLTE;
      case Trns => assert name == TRNS;
      case Idat => assert name == IDAT;
      case Iend => assert name == IEND;
      case Actl => assert name == ACTL;
      case Fctl => assert name == FCTL;
      case Fdat => assert name == FDAT;
      case Dctl => assert name == DCTL;
    }
  }

  function Put16(v: u16): (s: seq<byte>)
    ensures |s| == 2
  {
    [v / 0x100, v % 0x100]
  }

  /** The body of an fcTL chunk. */
  datatype Shot = Shot(
    width: u32, height: u32, x: u32, y: u32, delayNum: u16, delayDen: u16, dispose: byte, blend: byte, picture: seq<byte>)

  function ControlBody(sequence: u32, s: Shot): (b: seq<byte>)
    ensures |b| == 26
  {
    Put32(sequence) + Put32(s.width) + Put32(s.height) + Put32(s.x) + Put32(s.y) + Put16(s.delayNum) + Put16(s.delayDen) + [s.dispose, s.blend]
  }

  lemma NumberOfPut32(v: u32)
    ensures Number(Put32(v)) == v
  {
    Be32OfPut32(v);
    NumberIsBe32(Put32(v));
  }

  lemma NumberOfPut16(v: u16)
    ensures Number(Put16(v)) == v
  {
    NumberIsBe16(Put16(v));
  }

  lemma ControlParts(n: u32, s: Shot)
    ensures var b := ControlBody(n, s);
            && b[..4] == Put32(n) && b[4..8] == Put32(s.width) && b[8..12] == Put32(s.height) && b[12..16] == Put32(s.x)
            && b[16..20] == Put32(s.y) && b[20..22] == Put16(s.delayNum) && b[22..24] == Put16(s.delayDen)
            && b[24] == s.dispose && b[25] == s.blend
  {
    hide Put32, Put16;
  }

  /** The frame of an fcTL printed for a shot. */
  predicate Shows(f: Frame, s: Shot)
  {
    && f.width == s.width && f.height == s.height && f.x == s.x && f.y == s.y && f.dispose == s.dispose && f.blend == s.blend
    && f.delayNum == s.delayNum && f.delayDen == if s.delayDen == 0 then 100 else s.delayDen
  }

  lemma ControlNumbers(n: u32, s: Shot)
    ensures var b := ControlBody(n, s);
            && Number(b[..4]) == n && Number(b[4..8]) == s.width && Number(b[8..12]) == s.height && Number(b[12..16]) == s.x
            && Number(b[16..20]) == s.y && Number(b[20..22]) == s.delayNum && Number(b[22..24]) == s.delayDen
            && b[24] == s.dispose && b[25] == s.blend
  {
    hide Put32, Put16, Number, ControlBody;
    ControlParts(n, s);
    NumberOfPut32(n);
    NumberOfPut32(s.width);
    NumberOfPut32(s.height);
    NumberOfPut32(s.x);
    NumberOfPut32(s.y);
    NumberOfPut16(s.delayNum);
    NumberOfPut16(s.delayDen);
  }

  lemma WrittenShows(n: u32, s: Shot, f: Frame)
    requires Written(ControlBody(n, s), f)
    ensures Shows(f, s)
  {
    hide Number, ControlBody;
    ControlNumbers(n, s);
  }

  /** A frame that has data keeps its numbers. */
  lemma {:induction false} CollectKeeps(d: Doc, pos: nat, g: Gather)
    requires g.haveData && Collect(d, pos, g).Some?
    ensures var f := Collect(d, pos, g).value.0;
            f == g.frame.(dataStart := f.dataStart, dataEnd := f.dataEnd, pngBytes := f.pngBytes)
    decreases |d.data| - pos
  {
    hide ChunkAt, Control;
    var c := ChunkAt(d.data, pos).value;
    if c.kind != Fctl && c.kind != Iend { CollectKeeps(d, pos + Size(c), GatherOne(d, pos, c, g).value); }
  }

  /** The enumerator's answer at a printed fcTL followed by a chunk of its data, in any document: the numbers
      that were printed, or a refusal when the dispose or blend operation is unknown. */
  lemma NextAsPrinted(d: Doc, cursor: nat, n: u32, s: Shot, check: u32, data: Chunk)
    requires 8 <= cursor && ChunkAt(d.data, cursor) == Some(Chunk(FCTL, Fctl, ControlBody(n, s), check))
    requires ChunkAt(d.data, cursor + 38) == Some(data) && Carries(data)
    ensures Next(d, cursor).Some? ==> s.dispose <= 2 && s.blend <= 1 && Shows(Next(d, cursor).value.0, s)
  {
    hide Collect, ChunkAt, Control, Shows, ControlBody, Number;
    var c := Chunk(FCTL, Fctl, ControlBody(n, s), check);
    NextIs(d, cursor);
    if Next(d, cursor).Some? {
      ChunkInside(d.data, cursor);
      ChunkInside(d.data, cursor + 38);
      ControlShows(c, n, s);
      var g := Gather(WholeCanvas(d), false, false, 45 + d.prefixBytes);
      CollectOn(d, cursor, c, g);
      var h := Gather(Control(c).value, true, false, g.bytes);
      CollectOn(d, cursor + 38, data, h);
      CollectKeeps(d, cursor + 38 + Size(data), GatherOne(d, cursor + 38, data, h).value);
      SameShows(Control(c).value, Next(d, cursor).value.0, s);
    }
  }

  lemma ControlShows(c: Chunk, n: u32, s: Shot)
    requires c.body == ControlBody(n, s)
    ensures Control(c).Some? <==> s.dispose <= 2 && s.blend <= 1
    ensures Control(c).Some? ==> Shows(Control(c).value, s)
  {
    hide Control, ControlBody, Number;
    ControlReads(c);
    ControlNumbers(n, s);
  }

  lemma SameShows(f: Frame, g: Frame, s: Shot)
    requires Shows(f, s) && g == f.(dataStart := g.dataStart, dataEnd := g.dataEnd, pngBytes := g.pngBytes)
    ensures Shows(g, s)
  {
  }

  lemma ChunkInside(data: seq<byte>, pos: nat)
    requires ChunkAt(data, pos).Some?
    ensures pos < |data|
  {
  }
}
