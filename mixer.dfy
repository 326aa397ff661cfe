/** Flux solvers: the fluxes of three light sources that mix to a target
    luminance and chromaticity (color3mixer), and the N-source solver that
    merges sources pairwise down to three (colormixer). */
module Mixer {
  import opened Numeric

  /** The denominator of m1 and m2: twice the signed area of the source triangle
      in the chromaticity plane. */
  function Det(a: Yxy, b: Yxy, c: Yxy): real
  {
    (c.x - b.x) * a.y + (b.x - a.x) * c.y + (a.x - c.x) * b.y
  }

  /** The denominator of m3, as written. */
  function Det3(a: Yxy, b: Yxy, c: Yxy): real
  {
    (b.x - a.x) * c.y - (b.y - a.y) * c.x + a.x * b.y - b.x * a.y
  }

  /** The numerators of m1, m2 and m3: signed areas of the triangles with the
      target in place of one source. */
  function N1(t: Yxy, b: Yxy, c: Yxy): real
  {
    (t.x - c.x) * b.y - (t.y - c.y) * b.x + c.x * t.y - t.x * c.y
  }

  function N2(t: Yxy, a: Yxy, c: Yxy): real
  {
    (t.x - c.x) * a.y - (t.y - c.y) * a.x + c.x * t.y - t.x * c.y
  }

  function N3(t: Yxy, a: Yxy, b: Yxy): real
  {
    (b.x - a.x) * t.y - (b.y - a.y) * t.x + a.x * b.y - b.x * a.y
  }

  /** One flux Yt·((num/den)/Y); a zero divisor leaves numpy's inf or NaN. */
  function Flux(yt: real, num: real, den: real, y: real): (f: Num)
    ensures f.NaN? <==> den == 0.0 || y == 0.0
  {
    if den == 0.0 || y == 0.0 then NaN else Val(yt * Quot(Quot(num, den), y))
  }

  /** color3mixer for one target: the fluxes of the three sources.  Each is
      NaN exactly where numpy divides by zero. */
  function Color3Mixer(t: Yxy, a: Yxy, b: Yxy, c: Yxy): (m: seq<Num>)
    ensures |m| == 3
    ensures m[0].NaN? <==> t.y * Det(a, b, c) == 0.0 || a.Y == 0.0
    ensures m[1].NaN? <==> t.y * Det(a, b, c) == 0.0 || b.Y == 0.0
    ensures m[2].NaN? <==> t.y * Det3(a, b, c) == 0.0 || c.Y == 0.0
  {
    Fluxes(t, a, b, c, N1(t, b, c), N2(t, a, c), N3(t, a, b), Det(a, b, c), Det3(a, b, c))
  }

  function Fluxes(t: Yxy, a: Yxy, b: Yxy, c: Yxy, n1: real, n2: real, n3: real, d: real, d3: real): (m: seq<Num>)
    ensures |m| == 3
    ensures m[0].NaN? <==> t.y * d == 0.0 || a.Y == 0.0
    ensures m[1].NaN? <==> t.y * d == 0.0 || b.Y == 0.0
    ensures m[2].NaN? <==> t.y * d3 == 0.0 || c.Y == 0.0
  {
    [Flux(t.Y, a.y * n1, t.y * d, a.Y),
     Flux(t.Y, b.y * -n2, t.y * d, b.Y),
     Flux(t.Y, c.y * n3, t.y * d3, c.Y)]
  }

  /** The two denominators are the same polynomial, so the three fluxes are
      valid together: exactly when the target's y, the triangle's area and
      every source luminance are non-zero. */
  lemma SameDenominator(t: Yxy, a: Yxy, b: Yxy, c: Yxy)
    ensures Det3(a, b, c) == Det(a, b, c)
    ensures var m := Color3Mixer(t, a, b, c);
      (m[0].Val? && m[1].Val? && m[2].Val?) <==>
      (t.y != 0.0 && Det(a, b, c) != 0.0 && a.Y != 0.0 && b.Y != 0.0 && c.Y != 0.0)
  {
    var d := Det(a, b, c);
    assert Det3(a, b, c) == d;
    ZeroProduct(t.y, d);
  }

  /** The barycentric weights N1/D, -N2/D, N3/D sum to one and reproduce the
      target chromaticity. */
  lemma Barycentric(t: Yxy, a: Yxy, b: Yxy, c: Yxy)
    ensures N1(t, b, c) - N2(t, a, c) + N3(t, a, b) == Det(a, b, c)
    ensures N1(t, b, c) * a.x - N2(t, a, c) * b.x + N3(t, a, b) * c.x == t.x * Det(a, b, c)
    ensures N1(t, b, c) * a.y - N2(t, a, c) * b.y + N3(t, a, b) * c.y == t.y * Det(a, b, c)
  {
  }

  lemma Cancel(u: real, v: real, w: real)
    requires w != 0.0 && u * w == v * w
    ensures u == v
  {
    assert (u - v) * w == 0.0;
  }

  /** A flux times its source's Y/y is k·n, with k = Yt/den. */
  lemma FluxScale(yt: real, den: real, sY: real, sy: real, n: real)
    requires den != 0.0 && sY != 0.0 && sy != 0.0
    ensures (yt * Quot(Quot(sy * n, den), sY)) * Quot(sY, sy) == Quot(yt, den) * n
  {
    var a := Quot(sy * n, den);
    var b := Quot(a, sY);
    var q := Quot(sY, sy);
    var k := Quot(yt, den);
    assert b * q * sy == b * sY == a;
    assert (yt * b * q) * (sy * den) == yt * (a * den);
    assert (k * n) * (sy * den) == (k * den) * n * sy;
    Cancel(yt * b * q, k * n, sy * den);
  }

  /** Σ fluxᵢ·XYZᵢ of three tristimulus vectors. */
  function Mix3(m1: real, m2: real, m3: real, a: Xyz, b: Xyz, c: Xyz): Xyz
  {
    Xyz(Comb(m1, m2, m3, a.X, b.X, c.X), Comb(m1, m2, m3, a.Y, b.Y, c.Y), Comb(m1, m2, m3, a.Z, b.Z, c.Z))
  }

  /** m₁·u₁ + m₂·u₂ + m₃·u₃ */
  function Comb(m1: real, m2: real, m3: real, u1: real, u2: real, u3: real): real
  {
    m1 * u1 + m2 * u2 + m3 * u3
  }

  /** The point of color3mixer: mixing the three sources at the returned fluxes
      gives exactly the target's tristimulus values. */
  lemma Color3MixerMatchesTarget(t: Yxy, a: Yxy, b: Yxy, c: Yxy)
    requires t.y != 0.0 && Det(a, b, c) != 0.0
    requires a.Y != 0.0 && b.Y != 0.0 && c.Y != 0.0 && a.y != 0.0 && b.y != 0.0 && c.y != 0.0
    ensures var m := Color3Mixer(t, a, b, c);
      m[0].Val? && m[1].Val? && m[2].Val? &&
      Mix3(m[0].v, m[1].v, m[2].v, ToXyz(a), ToXyz(b), ToXyz(c)) == ToXyz(t)
  {
    var d := Det(a, b, c);
    SameDenominator(t, a, b, c);
    ZeroProduct(t.y, d);
    Barycentric(t, a, b, c);
    var n1, n2, n3 := N1(t, b, c), -N2(t, a, c), N3(t, a, b);
    FluxesWeighted(t, a, b, c, N1(t, b, c), N2(t, a, c), N3(t, a, b), d);
    MixMatches(t, d, a, b, c, n1, n2, n3);
  }

  lemma FluxesWeighted(t: Yxy, a: Yxy, b: Yxy, c: Yxy, n1: real, n2: real, n3: real, d: real)
    requires t.y * d != 0.0 && a.Y != 0.0 && b.Y != 0.0 && c.Y != 0.0
    ensures var m := Fluxes(t, a, b, c, n1, n2, n3, d, d);
      m[0] == Val(Weighted(t, d, a, n1)) && m[1] == Val(Weighted(t, d, b, -n2)) && m[2] == Val(Weighted(t, d, c, n3))
  {
  }

  /** A flux as color3mixer computes it, from the signed-area numerator n and
      determinant d. */
  function Weighted(t: Yxy, d: real, s: Yxy, n: real): real
    requires t.y * d != 0.0 && s.Y != 0.0
  {
    t.Y * Quot(Quot(s.y * n, t.y * d), s.Y)
  }

  lemma MixMatches(t: Yxy, d: real, a: Yxy, b: Yxy, c: Yxy, n1: real, n2: real, n3: real)
    requires t.y != 0.0 && d != 0.0
    requires a.Y != 0.0 && b.Y != 0.0 && c.Y != 0.0 && a.y != 0.0 && b.y != 0.0 && c.y != 0.0
    requires n1 + n2 + n3 == d
    requires n1 * a.x + n2 * b.x + n3 * c.x == t.x * d
    requires n1 * a.y + n2 * b.y + n3 * c.y == t.y * d
    ensures t.y * d != 0.0
    ensures Mix3(Weighted(t, d, a, n1), Weighted(t, d, b, n2), Weighted(t, d, c, n3), ToXyz(a), ToXyz(b), ToXyz(c)) == ToXyz(t)
  {
    ZeroProduct(t.y, d);
    WeightedScale(t, d, a, n1);
    WeightedScale(t, d, b, n2);
    WeightedScale(t, d, c, n3);
    MixAt(t, d, a, b, c, n1, n2, n3, Weighted(t, d, a, n1), Weighted(t, d, b, n2), Weighted(t, d, c, n3),
          Quot(t.Y, t.y * d));
  }

  /** MixMatches with the fluxes m₁, m₂, m₃ and the common factor k left abstract. */
  lemma MixAt(t: Yxy, d: real, a: Yxy, b: Yxy, c: Yxy, n1: real, n2: real, n3: real, m1: real, m2: real, m3: real, k: real)
    requires t.y != 0.0 && d != 0.0
    requires a.y != 0.0 && b.y != 0.0 && c.y != 0.0
    requires m1 * Quot(a.Y, a.y) == k * n1 && m2 * Quot(b.Y, b.y) == k * n2 && m3 * Quot(c.Y, c.y) == k * n3
    requires k * (t.y * d) == t.Y
    requires n1 + n2 + n3 == d
    requires n1 * a.x + n2 * b.x + n3 * c.x == t.x * d
    requires n1 * a.y + n2 * b.y + n3 * c.y == t.y * d
    ensures Mix3(m1, m2, m3, ToXyz(a), ToXyz(b), ToXyz(c)) == ToXyz(t)
  {
    TargetScale(t.Y, t.y, d, k);
    MixOfThree(m1, m2, m3, Quot(a.Y, a.y), Quot(b.Y, b.y), Quot(c.Y, c.y), k, n1, n2, n3, a, b, c, t.x, t.y, d, Quot(t.Y, t.y));
  }

  lemma WeightedScale(t: Yxy, d: real, s: Yxy, n: real)
    requires t.y * d != 0.0 && s.Y != 0.0 && s.y != 0.0
    ensures Weighted(t, d, s, n) * Quot(s.Y, s.y) == Quot(t.Y, t.y * d) * n
  {
    FluxScale(t.Y, t.y * d, s.Y, s.y, n);
  }

  /** Three scaled directions with mᵢ·qᵢ = k·nᵢ, where the nᵢ are barycentric
      numerators of the point (tx, ty), mix to qt times that point's direction. */
  lemma MixOfThree(m1: real, m2: real, m3: real, q1: real, q2: real, q3: real, k: real, n1: real, n2: real, n3: real,
                   a: Yxy, b: Yxy, c: Yxy, tx: real, ty: real, d: real, qt: real)
    requires m1 * q1 == k * n1 && m2 * q2 == k * n2 && m3 * q3 == k * n3
    requires n1 + n2 + n3 == d && k * d == qt
    requires n1 * a.x + n2 * b.x + n3 * c.x == tx * d
    requires n1 * a.y + n2 * b.y + n3 * c.y == ty * d
    ensures Mix3(m1, m2, m3, Scale(q1, Direction(a)), Scale(q2, Direction(b)), Scale(q3, Direction(c))) ==
            Scale(qt, Xyz(tx, ty, 1.0 - tx - ty))
  {
    MixCoordinate(m1, m2, m3, q1, q2, q3, k, n1, n2, n3, a.x, b.x, c.x, tx, d, qt);
    MixCoordinate(m1, m2, m3, q1, q2, q3, k, n1, n2, n3, a.y, b.y, c.y, ty, d, qt);
    Remainder(n1, n2, n3, a.x, b.x, c.x, a.y, b.y, c.y, d, tx, ty);
    MixCoordinate(m1, m2, m3, q1, q2, q3, k, n1, n2, n3, 1.0 - a.x - a.y, 1.0 - b.x - b.y, 1.0 - c.x - c.y,
                  1.0 - tx - ty, d, qt);
  }

  /** One coordinate of the mixture: Σ mᵢ·(qᵢ·uᵢ) = k·Σ nᵢ·uᵢ = k·(v·d) = qt·v. */
  lemma MixCoordinate(m1: real, m2: real, m3: real, q1: real, q2: real, q3: real,
                      k: real, n1: real, n2: real, n3: real, u1: real, u2: real, u3: real, v: real, d: real, qt: real)
    requires m1 * q1 == k * n1 && m2 * q2 == k * n2 && m3 * q3 == k * n3
    requires n1 * u1 + n2 * u2 + n3 * u3 == v * d && k * d == qt
    ensures Comb(m1, m2, m3, q1 * u1, q2 * u2, q3 * u3) == qt * v
  {
    assert m1 * (q1 * u1) == k * n1 * u1;
    assert m2 * (q2 * u2) == k * n2 * u2;
    assert m3 * (q3 * u3) == k * n3 * u3;
    assert k * (n1 * u1 + n2 * u2 + n3 * u3) == (k * d) * v;
  }

  /** Σ nᵢ·(1 - xᵢ - yᵢ) from the three sums. */
  lemma Remainder(n1: real, n2: real, n3: real, x1: real, x2: real, x3: real, y1: real, y2: real, y3: real,
                  d: real, tx: real, ty: real)
    requires n1 + n2 + n3 == d && n1 * x1 + n2 * x2 + n3 * x3 == tx * d && n1 * y1 + n2 * y2 + n3 * y3 == ty * d
    ensures n1 * (1.0 - x1 - y1) + n2 * (1.0 - x2 - y2) + n3 * (1.0 - x3 - y3) == (1.0 - tx - ty) * d
  {
  }

  /** k·d = Yt/yt when k·(yt·d) = Yt. */
  lemma TargetScale(tY: real, ty: real, d: real, k: real)
    requires ty != 0.0 && d != 0.0 && k * (ty * d) == tY
    ensures k * d == Quot(tY, ty)
  {
    assert (k * d) * ty == tY;
    Cancel(k * d, Quot(tY, ty), ty);
  }

  /** The target lies in the closed triangle of the three sources: every
      signed-area numerator has the sign of the triangle's own area. */
  predicate InTriangle(t: Yxy, a: Yxy, b: Yxy, c: Yxy)
  {
    var d := Det(a, b, c);
    d * N1(t, b, c) >= 0.0 && d * -N2(t, a, c) >= 0.0 && d * N3(t, a, b) >= 0.0
  }

  /** For physical colours (positive luminances and y), color3mixer returns
      three non-negative fluxes exactly when the target is inside the triangle
      of the sources. */
  lemma Color3MixerInGamut(t: Yxy, a: Yxy, b: Yxy, c: Yxy)
    requires t.Y > 0.0 && t.y > 0.0 && Det(a, b, c) != 0.0
    requires a.Y > 0.0 && b.Y > 0.0 && c.Y > 0.0 && a.y > 0.0 && b.y > 0.0 && c.y > 0.0
    ensures var m := Color3Mixer(t, a, b, c);
      (m[0].IsNonNeg() && m[1].IsNonNeg() && m[2].IsNonNeg()) <==> InTriangle(t, a, b, c)
  {
    var d := Det(a, b, c);
    SameDenominator(t, a, b, c);
    ZeroProduct(t.y, d);
    FluxesWeighted(t, a, b, c, N1(t, b, c), N2(t, a, c), N3(t, a, b), d);
    var k := Quot(t.Y, t.y * d);
    TargetSign(t.Y, t.y, d, k);
    FluxSign(t, d, a, N1(t, b, c), k);
    FluxSign(t, d, b, -N2(t, a, c), k);
    FluxSign(t, d, c, N3(t, a, b), k);
  }

  /** k·(yt·d) = Yt > 0 with yt > 0 makes k·d positive. */
  lemma TargetSign(tY: real, ty: real, d: real, k: real)
    requires tY > 0.0 && ty > 0.0 && d != 0.0 && k * (ty * d) == tY
    ensures k * d > 0.0
  {
    assert (k * d) * ty == tY;
  }

  /** A flux is non-negative exactly when its numerator has the sign of d. */
  lemma FluxSign(t: Yxy, d: real, s: Yxy, n: real, k: real)
    requires t.y * d != 0.0 && s.Y > 0.0 && s.y > 0.0
    requires k == Quot(t.Y, t.y * d) && k * d > 0.0
    ensures Weighted(t, d, s, n) >= 0.0 <==> d * n >= 0.0
  {
    WeightedScale(t, d, s, n);
    SameSign(Weighted(t, d, s, n), Quot(s.Y, s.y), k, n, d);
  }

  lemma SameSign(f: real, q: real, k: real, n: real, d: real)
    requires q > 0.0 && f * q == k * n && k * d > 0.0
    ensures f >= 0.0 <==> d * n >= 0.0
  {
    if k > 0.0 {
      assert d > 0.0;
    } else {
      assert d < 0.0;
    }
  }
}
