/** What the YUV conversion computes: the colour of the standards' matrices, of the sample that the format's byte
    order puts at the pixel. */
module YuvColour {
  import opened Prelude
  import opened Yuv

  // ----- colours -----

  /** The red and blue weights of luma, in parts of n: ITU-R BT.601, section 2.5.1, and BT.709, section 3.2. */
  function Weights(space: Space): (int, int, int)
  {
    if space == Bt601Limited || space == Bt601Full then (299, 114, 1000) else (2126, 722, 10000)
  }

  predicate Limited(space: Space)
  {
    space == Bt601Limited || space == Bt709Limited
  }

  /** The steps of luma and chroma from none to full: 219 and 224 in the limited range, else 255. */
  function Steps(space: Space): (int, int)
  {
    if Limited(space) then (219, 224) else (255, 255)
  }

  /** A byte is the rounded and clipped value of e / d, but for less than one part in 128. */
  predicate Near(c: byte, e: int, d: int)
  {
    && (0 <= e <= 255 * d ==> -65 * d <= 128 * (c * d - e) <= 65 * d)
    && (e < 0 ==> c == 0) && (e > 255 * d ==> c == 255)
  }

  lemma ChannelIsNear(fixed: int, e: int, d: int)
    requires 0 < d && -500 * d <= fixed * d - e * 65536 <= 500 * d
    ensures Near(Channel(fixed), e, d)
  {
    var r := Channel(fixed);
    if 0 < fixed < 255 * 65536 {
      MulMonotone(-32768, r * 65536 - fixed, d);
      MulMonotone(r * 65536 - fixed, 32768, d);
      assert (r * 65536 - fixed) * d == r * d * 65536 - fixed * d;
    }
    if fixed >= 500 { MulMonotone(500, fixed, d); }
    if fixed <= 0 { MulMonotone(fixed, 0, d); }
    if fixed >= 255 * 65536 { MulMonotone(255 * 65536, fixed, d); }
    if fixed <= 255 * 65536 - 500 { MulMonotone(fixed, 255 * 65536 - 500, d); }
  }

  /** An error of half a unit in a factor, as often as the other factor says. */
  lemma Times(k: int, t: int, d: int)
    requires -256 <= k <= 256 && 0 < d && -d <= 2 * t <= d
    ensures -128 * d <= k * t <= 128 * d
  {
    if t >= 0 { MulMonotone(-256, k, t); MulMonotone(k, 256, t); } else { MulMonotone(-256, k, -t); MulMonotone(k, 256, -t); }
  }

  /** A factor in 16.16 fixed point is the rounded p / d. */
  predicate Rounded(c: int, p: int, d: int)
  {
    -d <= 2 * (c * d - p * 65536) <= d
  }

  lemma Mixed(y: int, u: int, v: int, cy: int, cu: int, cv: int, py: int, pu: int, pv: int, d: int)
    requires -16 <= y <= 255 && -128 <= u <= 127 && -128 <= v <= 127 && 0 < d && Rounded(cy, py, d) && Rounded(cu, pu, d) && Rounded(cv, pv, d)
    ensures Near(Channel(y * cy + u * cu + v * cv), y * py + u * pu + v * pv, d)
  {
    hide Near;
    Times(y, cy * d - py * 65536, d);
    Times(u, cu * d - pu * 65536, d);
    Times(v, cv * d - pv * 65536, d);
    Regroup(y, u, v, cy, cu, cv, py, pu, pv, d);
    ChannelIsNear(y * cy + u * cu + v * cv, y * py + u * pu + v * pv, d);
  }

  lemma Regroup(y: int, u: int, v: int, cy: int, cu: int, cv: int, py: int, pu: int, pv: int, d: int)
    ensures (y * cy + u * cu + v * cv) * d - (y * py + u * pu + v * pv) * 65536
         == y * (cy * d - py * 65536) + u * (cu * d - pu * 65536) + v * (cv * d - pv * 65536)
  {
  }

  /** The factors of a channel, of luma and the two chroma differences, in parts of d. */
  datatype Mix = Mix(luma: int, u: int, v: int, d: int)

  /** Red is luma and the red difference in full, blue likewise, and green is what is left of luma. */
  function RedMix(space: Space): Mix
  {
    var (kr, kb, n) := Weights(space);
    var (a, c) := Steps(space);
    Mix(255 * n * c, 0, 255 * 2 * (n - kr) * a, n * a * c)
  }

  function BlueMix(space: Space): Mix
  {
    var (kr, kb, n) := Weights(space);
    var (a, c) := Steps(space);
    Mix(255 * n * c, 255 * 2 * (n - kb) * a, 0, n * a * c)
  }

  function GreenMix(space: Space): Mix
  {
    var (kr, kb, n) := Weights(space);
    var (a, c) := Steps(space);
    Mix(255 * n * (n - kr - kb) * c, -(255 * 2 * kb * (n - kb) * a), -(255 * 2 * kr * (n - kr) * a), n * (n - kr - kb) * a * c)
  }

  /** The byte is the colour of a mix, for luma above black and chroma differences. */
  predicate IsMix(b: byte, m: Mix, space: Space, y: byte, u: byte, v: byte)
  {
    Near(b, Above(space, y) * m.luma + (u - 128) * m.u + (v - 128) * m.v, m.d)
  }

  /** Luma above black. */
  function Above(space: Space, y: byte): int
  {
    y - if Limited(space) then 16 else 0
  }

  lemma RgbIs(space: Space, y: byte, u: byte, v: byte)
    ensures var c, luma := Coefficients(space), Above(space, y);
            Rgb(space, (y, u, v)) == (Channel(luma * c.0 + (u - 128) * c.4 + (v - 128) * 0),
                                      Channel(luma * c.0 + (u - 128) * -c.2 + (v - 128) * -c.3),
                                      Channel(luma * c.0 + (u - 128) * 0 + (v - 128) * c.1))
  {
    hide Channel, Coefficients;
    var c := Coefficients(space);
    var base := Above(space, y) * c.0;
    assert base == (y - if space == Bt601Limited || space == Bt709Limited then 16 else 0) * c.0;
    Negated(u - 128, c.2);
    Negated(v - 128, c.3);
    assert base + (u - 128) * c.4 + (v - 128) * 0 == base + (u - 128) * c.4;
    assert base + (u - 128) * 0 + (v - 128) * c.1 == base + (v - 128) * c.1;
    assert base + (u - 128) * -c.2 + (v - 128) * -c.3 == base - (u - 128) * c.2 - (v - 128) * c.3;
  }

  lemma Negated(x: int, c: int)
    ensures x * -c == -(x * c)
  {
  }

  lemma RedFactors(space: Space)
    ensures var c, m := Coefficients(space), RedMix(space);
            0 < m.d && Rounded(c.0, m.luma, m.d) && Rounded(0, m.u, m.d) && Rounded(c.1, m.v, m.d)
  {
  }

  lemma RedIsNear(space: Space, y: byte, u: byte, v: byte)
    ensures IsMix(Rgb(space, (y, u, v)).2, RedMix(space), space, y, u, v)
  {
    hide Near, Channel, Coefficients, RedMix, Rounded, Rgb;
    var c, m := Coefficients(space), RedMix(space);
    RedFactors(space);
    RgbIs(space, y, u, v);
    Mixed(Above(space, y), u - 128, v - 128, c.0, 0, c.1, m.luma, m.u, m.v, m.d);
  }

  lemma BlueFactors(space: Space)
    ensures var c, m := Coefficients(space), BlueMix(space);
            0 < m.d && Rounded(c.0, m.luma, m.d) && Rounded(c.4, m.u, m.d) && Rounded(0, m.v, m.d)
  {
  }

  lemma BlueIsNear(space: Space, y: byte, u: byte, v: byte)
    ensures IsMix(Rgb(space, (y, u, v)).0, BlueMix(space), space, y, u, v)
  {
    hide Near, Channel, Coefficients, BlueMix, Rounded, Rgb;
    var c, m := Coefficients(space), BlueMix(space);
    BlueFactors(space);
    RgbIs(space, y, u, v);
    Mixed(Above(space, y), u - 128, v - 128, c.0, c.4, 0, m.luma, m.u, m.v, m.d);
  }

  lemma GreenFactors(space: Space)
    ensures var c, m := Coefficients(space), GreenMix(space);
            0 < m.d && Rounded(c.0, m.luma, m.d) && Rounded(-c.2, m.u, m.d) && Rounded(-c.3, m.v, m.d)
  {
    hide Coefficients, GreenMix, Rounded;
    if Limited(space) { GreenLimited(space); } else { GreenFull(space); }
  }

  lemma GreenLimited(space: Space)
    requires Limited(space)
    ensures var c, m := Coefficients(space), GreenMix(space);
            0 < m.d && Rounded(c.0, m.luma, m.d) && Rounded(-c.2, m.u, m.d) && Rounded(-c.3, m.v, m.d)
  {
  }

  lemma GreenFull(space: Space)
    requires !Limited(space)
    ensures var c, m := Coefficients(space), GreenMix(space);
            0 < m.d && Rounded(c.0, m.luma, m.d) && Rounded(-c.2, m.u, m.d) && Rounded(-c.3, m.v, m.d)
  {
  }

  lemma GreenIsNear(space: Space, y: byte, u: byte, v: byte)
    ensures IsMix(Rgb(space, (y, u, v)).1, GreenMix(space), space, y, u, v)
  {
    hide Near, Channel, Coefficients, GreenMix, Rounded, Rgb;
    var c, m := Coefficients(space), GreenMix(space);
    GreenFactors(space);
    RgbIs(space, y, u, v);
    Mixed(Above(space, y), u - 128, v - 128, c.0, -c.2, -c.3, m.luma, m.u, m.v, m.d);
  }

  /** Every channel of every sample is the colour that the standard's matrix gives it, rounded and clipped. */
  lemma ColourIsNear(space: Space, y: byte, u: byte, v: byte)
    ensures var (b, g, r) := Rgb(space, (y, u, v));
            IsMix(b, BlueMix(space), space, y, u, v) && IsMix(g, GreenMix(space), space, y, u, v) && IsMix(r, RedMix(space), space, y, u, v)
  {
    hide IsMix, Rgb;
    RedIsNear(space, y, u, v);
    BlueIsNear(space, y, u, v);
    GreenIsNear(space, y, u, v);
  }

  /** Without chroma all channels are equal, and they run from black to white over the range of luma. */
  lemma Greys(space: Space, y: byte)
    ensures var (b, g, r) := Rgb(space, (y, 128, 128)); b == g == r
    ensures Limited(space) ==> (y <= 16 ==> Rgb(space, (y, 128, 128)).0 == 0) && (y >= 235 ==> Rgb(space, (y, 128, 128)).0 == 255)
    ensures !Limited(space) ==> Rgb(space, (y, 128, 128)).0 == y
  {
  }

  // ----- byte order -----

  /** A picture: luma of each pixel, and two chroma values of each chroma sample. */
  datatype Picture = Picture(luma: (nat, nat) -> byte, u: (nat, nat) -> byte, v: (nat, nat) -> byte)

  /** The byte at a place of a plane. */
  function At(m: Memory, f: Frame, plane: nat, row: nat, column: nat): byte
    requires plane < 3
  {
    m(f.planes[plane].data + row * f.planes[plane].stride + column)
  }

  /** The four bytes of two neighbouring pixels, in the order that the format's name spells. */
  predicate Quad(f: Format, b: seq<byte>, y0: byte, y1: byte, u: byte, v: byte)
  {
    match f
    case Yuy2 => b == [y0, u, y1, v]
    case Yvyu => b == [y0, v, y1, u]
    case Uyvy => b == [u, y0, v, y1]
    case Vyuy => b == [v, y0, u, y1]
    case _ => true
  }

  /** The chroma of a planar or semiplanar format at a sample: a plane each, or both in turn. */
  predicate ChromaAt(m: Memory, f: Frame, cx: nat, cy: nat, u: byte, v: byte)
  {
    match f.format
    case Nv12 => At(m, f, 1, cy, 2 * cx) == u && At(m, f, 1, cy, 2 * cx + 1) == v
    case Nv16 => At(m, f, 1, cy, 2 * cx) == u && At(m, f, 1, cy, 2 * cx + 1) == v
    case Nv21 => At(m, f, 1, cy, 2 * cx) == v && At(m, f, 1, cy, 2 * cx + 1) == u
    case Nv61 => At(m, f, 1, cy, 2 * cx) == v && At(m, f, 1, cy, 2 * cx + 1) == u
    case _ => At(m, f, 1, cy, cx) == u && At(m, f, 2, cy, cx) == v
  }

  /** The chroma sample of a pixel: one for each pixel, for two in a row, or for two by two. */
  function ChromaOf(f: Format, x: nat, y: nat): (nat, nat)
  {
    if f == I444 then (x, y) else if f == I420 || f == Nv12 || f == Nv21 then (x / 2, y / 2) else (x / 2, y)
  }

  /** Memory holds the picture around a pixel. */
  predicate Stored(m: Memory, f: Frame, p: Picture, x: nat, y: nat)
  {
    if f.format == I400 then At(m, f, 0, y, x) == p.luma(x, y)
    else if Packed(f.format) then
      var g := x / 2;
      Quad(f.format, [At(m, f, 0, y, 4 * g), At(m, f, 0, y, 4 * g + 1), At(m, f, 0, y, 4 * g + 2), At(m, f, 0, y, 4 * g + 3)],
           p.luma(2 * g, y), p.luma(2 * g + 1, y), p.u(g, y), p.v(g, y))
    else
      && At(m, f, 0, y, x) == p.luma(x, y)
      && var (cx, cy) := ChromaOf(f.format, x, y); ChromaAt(m, f, cx, cy, p.u(cx, cy), p.v(cx, cy))
  }

  /** Sampling reads the picture that memory holds in the format's byte order. */
  lemma SampleReads(m: Memory, f: Frame, p: Picture, x: nat, y: nat)
    requires f.format != OtherFormat && Stored(m, f, p, x, y)
    ensures var (cx, cy) := ChromaOf(f.format, x, y);
            Sample(m, f, x, y) == if f.format == I400 then (p.luma(x, y) as int, 128, 128)
                                  else (p.luma(x, y) as int, p.u(cx, cy) as int, p.v(cx, cy) as int)
  {
    hide At, ByteAt;
    forall plane: nat, row: nat, column: nat | plane < 3
      ensures ByteAt(m, f, Spot(plane, row, column)) == At(m, f, plane, row, column)
    {
      ByteIs(m, f, plane, row, column);
    }
    if Packed(f.format) { PackedReads(m, f, p, x, y); } else { PlanarReads(m, f, p, x, y); }
  }

  lemma ByteIs(m: Memory, f: Frame, plane: nat, row: nat, column: nat)
    requires plane < 3
    ensures ByteAt(m, f, Spot(plane, row, column)) == At(m, f, plane, row, column)
  {
  }

  lemma PackedReads(m: Memory, f: Frame, p: Picture, x: nat, y: nat)
    requires Packed(f.format) && Stored(m, f, p, x, y)
    requires forall plane: nat, row: nat, column: nat :: plane < 3 ==> ByteAt(m, f, Spot(plane, row, column)) == At(m, f, plane, row, column)
    ensures Sample(m, f, x, y) == (p.luma(x, y) as int, p.u(x / 2, y) as int, p.v(x / 2, y) as int)
  {
    hide At, ByteAt;
    var g := x / 2;
    assert x == 2 * g || x == 2 * g + 1;
    var b := [At(m, f, 0, y, 4 * g), At(m, f, 0, y, 4 * g + 1), At(m, f, 0, y, 4 * g + 2), At(m, f, 0, y, 4 * g + 3)];
    assert Quad(f.format, b, p.luma(2 * g, y), p.luma(2 * g + 1, y), p.u(g, y), p.v(g, y));
    assert b[0] == At(m, f, 0, y, 4 * g) && b[1] == At(m, f, 0, y, 4 * g + 1) && b[2] == At(m, f, 0, y, 4 * g + 2) && b[3] == At(m, f, 0, y, 4 * g + 3);
  }

  lemma PlanarReads(m: Memory, f: Frame, p: Picture, x: nat, y: nat)
    requires f.format != OtherFormat && !Packed(f.format) && Stored(m, f, p, x, y)
    requires forall plane: nat, row: nat, column: nat :: plane < 3 ==> ByteAt(m, f, Spot(plane, row, column)) == At(m, f, plane, row, column)
    ensures var (cx, cy) := ChromaOf(f.format, x, y);
            Sample(m, f, x, y) == if f.format == I400 then (p.luma(x, y) as int, 128, 128)
                                  else (p.luma(x, y) as int, p.u(cx, cy) as int, p.v(cx, cy) as int)
  {
    hide At, ByteAt;
  }
}
