/** Emission-curve models over a wavelength grid: Gaussian lobes, the
    monochromatic LED with shoulder (Ohno) and the phosphor LED (Smet). */
module Emitter {
  import opened Numeric

  /** numpy broadcasting of two 1-D parameter lists: equal lengths, or one of them a scalar. */
  predicate Broadcastable(a: nat, b: nat) { a == b || a == 1 || b == 1 }

  function Broadcast(a: nat, b: nat): nat { if a == 1 then b else a }

  /** Element i of a parameter list broadcast to a longer axis (a one-element list is a scalar). */
  function At(v: seq<real>, i: nat): real
    requires |v| == 1 || i < |v|
  {
    if |v| == 1 then v[0] else v[i]
  }

  /** Peak wavelengths and widths of a family of lobes, one row per broadcast entry. */
  datatype Lobes = Lobes(peaks: seq<real>, fwhms: seq<real>) {
    predicate Shaped() { Broadcastable(|peaks|, |fwhms|) }
    function Rows(): nat { Broadcast(|peaks|, |fwhms|) }
    /** numpy divides by the width: a zero width is outside the model. */
    predicate NonZeroWidths() { forall k :: 0 <= k < |fwhms| ==> fwhms[k] != 0.0 }
    function Peak(i: nat): real requires Shaped() && i < Rows() { At(peaks, i) }
    function Width(i: nat): real requires Shaped() && i < Rows() { At(fwhms, i) }
  }

  /** exp(-0.5·((w - peak)/fwhm)²) */
  function Gaussian(exp: ExpFn, w: real, peak: real, fwhm: real): real
    requires fwhm != 0.0
  {
    exp(-0.5 * Sq(Quot(w - peak, fwhm)))
  }

  lemma GaussianBounds(exp: ExpFn, w: real, peak: real, fwhm: real)
    requires fwhm != 0.0
    ensures 0.0 < Gaussian(exp, w, peak, fwhm) <= 1.0
    ensures Gaussian(exp, w, peak, fwhm) == 1.0 <==> w == peak
  {
    var q := Quot(w - peak, fwhm);
    assert Sq(q) >= 0.0;
    assert Sq(q) == 0.0 <==> q == 0.0;
    assert q == 0.0 <==> w == peak;
  }

  function GaussianRow(exp: ExpFn, wl: Grid, peak: real, fwhm: real): (r: seq<real>)
    requires fwhm != 0.0
    ensures |r| == |wl| && forall j :: 0 <= j < |wl| ==> r[j] == Gaussian(exp, wl[j], peak, fwhm)
  {
    seq(|wl|, j requires 0 <= j < |wl| => Gaussian(exp, wl[j], peak, fwhm))
  }

  /** One Gaussian row per broadcast lobe. */
  function GaussianRows(exp: ExpFn, wl: Grid, l: Lobes): (rows: seq<seq<real>>)
    requires l.Shaped() && l.NonZeroWidths()
    ensures |rows| == l.Rows()
    ensures forall i :: 0 <= i < |rows| ==> rows[i] == GaussianRow(exp, wl, l.Peak(i), l.Width(i))
  {
    seq(l.Rows(), i requires 0 <= i < l.Rows() => GaussianRow(exp, wl, l.Peak(i), l.Width(i)))
  }

  /** gaussian_spd as written.  Without wavelengths: one row per lobe.  With
      wavelengths the grid column is stacked on top of the (W, R) column block
      before transposing, which only has a shape when R = 1 and then yields a
      single row of length 2W. */
  function GaussianSpd(exp: ExpFn, wl: Grid, l: Lobes, withWl: bool): Result<seq<seq<real>>>
    requires l.NonZeroWidths()
  {
    if !l.Shaped() then Err(ShapeMismatch)
    else
      var rows := GaussianRows(exp, wl, l);
      if !withWl then Ok(rows)
      else if l.Rows() == 1 then Ok([wl + rows[0]])
      else Err(ShapeMismatch)
  }

  /** Every row of gaussian_spd lies in (0,1] and reaches 1 exactly at its peak. */
  lemma GaussianSpdBounds(exp: ExpFn, wl: Grid, l: Lobes)
    requires l.Shaped() && l.NonZeroWidths()
    ensures GaussianSpd(exp, wl, l, false).Ok?
    ensures var rows := GaussianSpd(exp, wl, l, false).value;
      |rows| == l.Rows() &&
      forall i, j :: 0 <= i < |rows| && 0 <= j < |wl| ==>
        |rows[i]| == |wl| && 0.0 < rows[i][j] <= 1.0 && (rows[i][j] == 1.0 <==> wl[j] == l.Peak(i))
  {
    var rows := GaussianSpd(exp, wl, l, false).value;
    forall i, j | 0 <= i < |rows| && 0 <= j < |wl|
      ensures |rows[i]| == |wl| && 0.0 < rows[i][j] <= 1.0 && (rows[i][j] == 1.0 <==> wl[j] == l.Peak(i))
    {
      GaussianBounds(exp, wl[j], l.Peak(i), l.Width(i));
    }
  }

  /** With wavelengths, gaussian_spd as written does not return the grid above
      the spectra: one lobe gives a single row twice the grid's length that
      begins with the grid, and several lobes raise. */
  lemma GaussianSpdWithWlAsWritten(exp: ExpFn, wl: Grid, l: Lobes)
    requires l.Shaped() && l.NonZeroWidths()
    ensures l.Rows() == 1 ==>
      (GaussianSpd(exp, wl, l, true).Ok? &&
       |GaussianSpd(exp, wl, l, true).value| == 1 &&
       |GaussianSpd(exp, wl, l, true).value[0]| == 2 * |wl| &&
       GaussianSpd(exp, wl, l, true).value[0][..|wl|] == wl)
    ensures l.Rows() != 1 ==> GaussianSpd(exp, wl, l, true) == Err(ShapeMismatch)
  {
    if l.Rows() == 1 {
      var r := GaussianSpd(exp, wl, l, true).value[0];
      assert r == wl + GaussianRow(exp, wl, l.Peak(0), l.Width(0));
      assert r[..|wl|] == wl;
    }
  }

  /** The evidently intended with-wavelength output: the grid as the first row,
      followed by one row per lobe (the layout mono_led_spd produces). */
  function GaussianSpdWithWl(exp: ExpFn, wl: Grid, l: Lobes): Result<seq<seq<real>>>
    requires l.NonZeroWidths()
  {
    if !l.Shaped() then Err(ShapeMismatch)
    else Ok([wl] + GaussianRows(exp, wl, l))
  }

  lemma GaussianSpdWithWlLayout(exp: ExpFn, wl: Grid, l: Lobes)
    requires l.Shaped() && l.NonZeroWidths()
    ensures GaussianSpdWithWl(exp, wl, l).Ok?
    ensures var t := GaussianSpdWithWl(exp, wl, l).value;
      |t| == l.Rows() + 1 && t[0] == wl &&
      t[1..] == GaussianSpd(exp, wl, l, false).value &&
      forall i :: 0 <= i < |t| ==> |t[i]| == |wl|
  {
    var t := GaussianSpdWithWl(exp, wl, l).value;
    assert t[1..] == GaussianRows(exp, wl, l);
  }

  function Pow5(g: real): real { g * g * g * g * g }

  /** Ohno's monochromatic LED: (g + s·g⁵)/(1 + s). */
  function MonoLed(g: real, s: real): real
    requires 1.0 + s != 0.0
  {
    Quot(g + s * Pow5(g), 1.0 + s)
  }

  lemma Pow5Bounds(g: real)
    requires 0.0 <= g <= 1.0
    ensures 0.0 <= Pow5(g) <= g
    ensures g > 0.0 ==> Pow5(g) > 0.0
  {
    var g2 := g * g;
    MulBelow(g, g);
    var g4 := g2 * g2;
    MulBelow(g2, g2);
    assert Pow5(g) == g4 * g;
    assert g4 * g <= g2 * g <= g;
    assert g > 0.0 ==> g2 > 0.0 && g4 > 0.0 && g4 * g > 0.0;
  }

  /** For a Gaussian value in [0,1] and a non-negative shoulder, the LED value
      stays in [0,1] and is 1 exactly where the Gaussian is 1. */
  lemma MonoLedBounds(g: real, s: real)
    requires 0.0 <= g <= 1.0 && s >= 0.0
    ensures 0.0 <= MonoLed(g, s) <= 1.0
    ensures MonoLed(g, s) == 1.0 <==> g == 1.0
    ensures g > 0.0 ==> MonoLed(g, s) > 0.0
  {
    Pow5Bounds(g);
    var p := Pow5(g);
    var num := g + s * p;
    var q := MonoLed(g, s);
    assert q * (1.0 + s) == num;
    assert 0.0 <= s * p <= s * g <= s;
    assert 0.0 <= num <= 1.0 + s;
    QuotientRange(q, num, 1.0 + s);
    if g == 1.0 {
      assert p == 1.0;
      assert num == 1.0 + s;
    } else {
      assert g < 1.0;
      assert s * p <= s;
      assert num < 1.0 + s;
    }
    if g > 0.0 {
      assert num > 0.0;
    }
  }

  /** 0 <= a, b <= 1 gives 0 <= a·b <= a. */
  lemma MulBelow(a: real, b: real)
    requires 0.0 <= a && 0.0 <= b <= 1.0
    ensures 0.0 <= a * b <= a
  {
  }

  function MonoLedRow(exp: ExpFn, wl: Grid, peak: real, fwhm: real, s: real): (r: seq<real>)
    requires fwhm != 0.0 && 1.0 + s != 0.0
    ensures |r| == |wl| && forall j :: 0 <= j < |wl| ==> r[j] == MonoLed(Gaussian(exp, wl[j], peak, fwhm), s)
  {
    seq(|wl|, j requires 0 <= j < |wl| => MonoLed(Gaussian(exp, wl[j], peak, fwhm), s))
  }

  /** One LED row per broadcast lobe, all with the same shoulder strength. */
  function MonoLedRows(exp: ExpFn, wl: Grid, l: Lobes, s: real): (rows: seq<seq<real>>)
    requires l.Shaped() && l.NonZeroWidths() && 1.0 + s != 0.0
    ensures |rows| == l.Rows()
    ensures forall i :: 0 <= i < |rows| ==> rows[i] == MonoLedRow(exp, wl, l.Peak(i), l.Width(i), s)
  {
    seq(l.Rows(), i requires 0 <= i < l.Rows() => MonoLedRow(exp, wl, l.Peak(i), l.Width(i), s))
  }

  /** mono_led_spd: the LED rows, below the wavelength row when asked for. */
  function MonoLedSpd(exp: ExpFn, wl: Grid, l: Lobes, s: real, withWl: bool): Result<seq<seq<real>>>
    requires l.NonZeroWidths() && 1.0 + s != 0.0
  {
    if !l.Shaped() then Err(ShapeMismatch)
    else Ok((if withWl then [wl] else []) + MonoLedRows(exp, wl, l, s))
  }

  /** Every LED row lies in (0,1] and reaches 1 exactly at its peak wavelength;
      with wavelengths the grid is the first row. */
  lemma MonoLedSpdBounds(exp: ExpFn, wl: Grid, l: Lobes, s: real, withWl: bool)
    requires l.Shaped() && l.NonZeroWidths() && s >= 0.0
    ensures MonoLedSpd(exp, wl, l, s, withWl).Ok?
    ensures var t := MonoLedSpd(exp, wl, l, s, withWl).value;
      var d := if withWl then 1 else 0;
      |t| == l.Rows() + d && (withWl ==> t[0] == wl) && t[d..] == MonoLedRows(exp, wl, l, s)
    ensures RowsInUnit(MonoLedRows(exp, wl, l, s), wl, l)
  {
    var rows := MonoLedRows(exp, wl, l, s);
    assert (if withWl then [wl] else []) + rows == MonoLedSpd(exp, wl, l, s, withWl).value;
    forall i, j | 0 <= i < |rows| && 0 <= j < |wl|
      ensures |rows[i]| == |wl| && 0.0 < rows[i][j] <= 1.0 && (rows[i][j] == 1.0 <==> wl[j] == l.Peak(i))
    {
      MonoLedRowBounds(exp, wl, l.Peak(i), l.Width(i), s, j);
    }
  }

  /** Each row has the grid's width, lies in (0,1] and is 1 exactly at its own peak. */
  ghost predicate RowsInUnit(rows: seq<seq<real>>, wl: Grid, l: Lobes)
    requires l.Shaped() && |rows| <= l.Rows()
  {
    forall i, j :: 0 <= i < |rows| && 0 <= j < |wl| ==>
      |rows[i]| == |wl| && 0.0 < rows[i][j] <= 1.0 && (rows[i][j] == 1.0 <==> wl[j] == l.Peak(i))
  }

  lemma MonoLedRowBounds(exp: ExpFn, wl: Grid, peak: real, fwhm: real, s: real, j: nat)
    requires fwhm != 0.0 && s >= 0.0 && j < |wl|
    ensures var v := MonoLedRow(exp, wl, peak, fwhm, s)[j];
      0.0 < v <= 1.0 && (v == 1.0 <==> wl[j] == peak)
  {
    GaussianBounds(exp, wl[j], peak, fwhm);
    MonoLedBounds(Gaussian(exp, wl[j], peak, fwhm), s);
  }

  /** The outputs phophor_led_spd is asked for: 'spd', 'component_spds' or both. */
  datatype OutMode = SpdOut | ComponentsOut | SpdAndComponents {
    predicate WantsSpd() { !ComponentsOut? }
    predicate WantsComponents() { !SpdOut? }
  }

  /** Parameters of phophor_led_spd: the pump LEDs with their shoulder, the
      total phosphor strength per row, the two phosphor lobes with their
      strengths (no second strength: 1 - strength_ph1), and whether the
      piecewise clamp is applied. */
  datatype LedParams = LedParams(
    pump: Lobes, shoulder: real, strengthPh: Option<seq<real>>,
    ph1: Lobes, s1: seq<real>, ph2: Lobes, s2: Option<seq<real>>,
    piecewise: bool)
  {
    /** No width and no shoulder that numpy would divide by zero; the phosphor
        widths matter only in phosphor mode, the only one that builds them. */
    predicate Admissible() {
      pump.NonZeroWidths() && (PhosphorMode() ==> ph1.NonZeroWidths() && ph2.NonZeroWidths()) &&
      1.0 + shoulder != 0.0
    }
    /** Phosphor LEDs are built exactly when some phosphor strength is positive. */
    predicate PhosphorMode() {
      strengthPh.Some? && exists k :: 0 <= k < |strengthPh.value| && strengthPh.value[k] > 0.0
    }
  }

  /** The normalised spectra (one per pump row) and the normalised component
      curves, grouped as numpy's third axis: in phosphor mode one group of
      [pump, phosphor 1, phosphor 2] per row, otherwise a single group holding
      every pump row. */
  datatype LedSpectra = LedSpectra(spd: seq<Curve>, components: seq<seq<Curve>>)

  /** A list that broadcasts against an axis of n: one element, or n. */
  predicate Fits(v: seq<real>, n: nat) { |v| == 1 || |v| == n }

  /** Row i of an array broadcast along the row axis (a one-row array repeats). */
  function RowAt(rows: seq<seq<real>>, i: nat): seq<real>
    requires |rows| == 1 || i < |rows|
  {
    if |rows| == 1 then rows[0] else rows[i]
  }

  /** The rows of phosphor mode's spectrum block for r pump rows, as numpy's
      broadcasting gives them: strength_ph1 (and strength_ph2) against the
      phosphor rows, strength_ph against the mixture, and the pump rows
      against the phosphor term. */
  function PhosphorCount(p: LedParams, r: nat): nat
    requires p.strengthPh.Some?
  {
    var a := Broadcast(|p.s1|, r);
    var m := if p.s2.Some? then Broadcast(a, Broadcast(|p.s2.value|, r)) else a;
    Broadcast(r, Broadcast(|p.strengthPh.value|, m))
  }

  /** Every broadcast of that chain has a shape; with a second strength the
      s1+s1 denominator is a row that also divides along the wavelength axis. */
  predicate PhosphorBroadcasts(p: LedParams, r: nat, width: nat)
    requires p.strengthPh.Some?
  {
    var a := Broadcast(|p.s1|, r);
    var m := if p.s2.Some? then Broadcast(a, Broadcast(|p.s2.value|, r)) else a;
    Broadcastable(|p.s1|, r) &&
    (p.s2.Some? ==> Broadcastable(|p.s2.value|, r) && Broadcastable(a, Broadcast(|p.s2.value|, r)) && Fits(p.s1, width)) &&
    Broadcastable(|p.strengthPh.value|, m) && Broadcastable(r, Broadcast(|p.strengthPh.value|, m))
  }

  /** The number of spectra phophor_led_spd builds from r pump rows. */
  function SpectrumRows(p: LedParams, r: nat): nat
  {
    if p.PhosphorMode() then PhosphorCount(p, r) else r
  }

  /** Once the chain has a shape, every strength list and the pump block
      either has one entry or one per spectrum. */
  lemma BroadcastSizes(p: LedParams, r: nat, width: nat)
    requires p.strengthPh.Some? && PhosphorBroadcasts(p, r, width)
    ensures var n := PhosphorCount(p, r);
      Fits(p.s1, n) && Fits(p.strengthPh.value, n) && (r == 1 || r == n) &&
      (p.s2.Some? ==> Fits(p.s2.value, n))
  {
  }

  function Lift(rows: seq<seq<real>>): (cs: seq<Curve>)
    ensures |cs| == |rows| && forall i :: 0 <= i < |rows| ==> cs[i] == Some(rows[i])
  {
    seq(|rows|, i requires 0 <= i < |rows| => Some(rows[i]))
  }

  /** Row i of the phosphor mixture before normalisation.  With a second
      strength the denominator is strength_ph1 + strength_ph1, broadcast along
      the wavelength axis (numpy divides the (R, W) block by a (1, L) row); a
      zero denominator leaves numpy's inf/NaN, modelled as a NaN row. */
  function Blend(a: seq<real>, b: seq<real>, s1: seq<real>, s2: Option<seq<real>>, i: nat): (c: Curve)
    requires |a| == |b| && (|s1| == 1 || i < |s1|)
    requires s2.Some? ==> (|s2.value| == 1 || i < |s2.value|) && (|s1| == 1 || |s1| == |a|)
    ensures s2.None? ==> (c.Some? && |c.value| == |a| &&
      forall j :: 0 <= j < |a| ==> c.value[j] == Weigh(At(s1, i), a[j], 1.0 - At(s1, i), b[j]))
    ensures s2.Some? ==> (c.None? <==> exists j :: 0 <= j < |a| && Twice(s1, j) == 0.0)
    ensures s2.Some? && c.Some? ==> (|c.value| == |a| &&
      forall j :: 0 <= j < |a| ==> c.value[j] == Quot(Weigh(At(s1, i), a[j], At(s2.value, i), b[j]), Twice(s1, j)))
  {
    var w := At(s1, i);
    if s2.None? then Some(seq(|a|, j requires 0 <= j < |a| => Weigh(w, a[j], 1.0 - w, b[j])))
    else if exists j :: 0 <= j < |a| && Twice(s1, j) == 0.0 then None
    else Some(seq(|a|, j requires 0 <= j < |a| => Quot(Weigh(w, a[j], At(s2.value, i), b[j]), Twice(s1, j))))
  }

  /** Without a second strength the mixture is a convex combination: with
      strength_ph1 in [0,1] every sample lies between the two phosphor
      samples, and the end points give one phosphor alone. */
  lemma BlendBetween(a: seq<real>, b: seq<real>, s1: seq<real>, i: nat)
    requires |a| == |b| && (|s1| == 1 || i < |s1|) && 0.0 <= At(s1, i) <= 1.0
    ensures var c := Blend(a, b, s1, None, i);
      c.Some? && |c.value| == |a| &&
      (forall j :: 0 <= j < |a| ==> (a[j] <= c.value[j] <= b[j]) || (b[j] <= c.value[j] <= a[j])) &&
      (At(s1, i) == 1.0 ==> c.value == a) && (At(s1, i) == 0.0 ==> c.value == b)
  {
    var w := At(s1, i);
    var c := Blend(a, b, s1, None, i).value;
    forall j | 0 <= j < |a| ensures (a[j] <= c[j] <= b[j]) || (b[j] <= c[j] <= a[j]) {
      WeighBetween(w, a[j], b[j]);
    }
    if w == 1.0 {
      forall j | 0 <= j < |a| ensures c[j] == a[j] { assert c[j] == 1.0 * a[j] + 0.0 * b[j]; }
    }
    if w == 0.0 {
      forall j | 0 <= j < |a| ensures c[j] == b[j] { assert c[j] == 0.0 * a[j] + 1.0 * b[j]; }
    }
  }

  lemma WeighBetween(w: real, x: real, y: real)
    requires 0.0 <= w <= 1.0
    ensures var v := Weigh(w, x, 1.0 - w, y); (x <= v <= y) || (y <= v <= x)
  {
    var v := Weigh(w, x, 1.0 - w, y);
    assert v - y == w * (x - y);
    assert v - x == (1.0 - w) * (y - x);
    if x <= y {
      NonNegProduct(w, y - x);
      NonNegProduct(1.0 - w, y - x);
    } else {
      NonNegProduct(w, x - y);
      NonNegProduct(1.0 - w, x - y);
    }
  }

  lemma NonNegProduct(a: real, b: real)
    requires a >= 0.0 && b >= 0.0
    ensures a * b >= 0.0
  {
  }

  /** w1·x + w2·y */
  function Weigh(w1: real, x: real, w2: real, y: real): real { w1 * x + w2 * y }

  /** The denominator as written, strength_ph1 + strength_ph1, at wavelength column j. */
  function Twice(s1: seq<real>, j: nat): real
    requires |s1| == 1 || j < |s1|
  {
    At(s1, j) + At(s1, j)
  }

  /** mono + strength·(mixture / max mixture) for one row. */
  function Boost(mono: seq<real>, sph: real, mix: Curve): (c: Curve)
    requires |mono| > 0 && (mix.Some? ==> |mix.value| == |mono|)
    ensures c.Some? ==> |c.value| == |mono|
  {
    if mix.None? then None
    else match Normalize(mix.value)
      case None => None
      case Some(n) => Some(seq(|mono|, j requires 0 <= j < |mono| => mono[j] + sph * n[j]))
  }

  /** The spectra of phosphor mode before the clamp, with numpy's broadcasting errors. */
  function PhosphorRows(p: LedParams, mono: seq<seq<real>>, ph1: seq<seq<real>>, ph2: seq<seq<real>>, wl: Grid): (r: Result<seq<Curve>>)
    requires |ph1| == |mono| && |ph2| == |mono| && p.strengthPh.Some?
    requires forall i :: 0 <= i < |mono| ==> |mono[i]| == |wl| && |ph1[i]| == |wl| && |ph2[i]| == |wl|
    ensures r.Ok? <==> PhosphorBroadcasts(p, |mono|, |wl|)
    ensures r.Ok? ==> |r.value| == PhosphorCount(p, |mono|) && Widths(r.value, |wl|)
  {
    var sph := p.strengthPh.value;
    if !PhosphorBroadcasts(p, |mono|, |wl|) then Err(ShapeMismatch)
    else
      var n := PhosphorCount(p, |mono|);
      BroadcastSizes(p, |mono|, |wl|);
      Ok(seq(n, i requires 0 <= i < n =>
        Boost(RowAt(mono, i), At(sph, i), Blend(RowAt(ph1, i), RowAt(ph2, i), p.s1, p.s2, i))))
  }

  /** What phophor_led_spd holds before the clamp: the spectra (None when phosphor
      mode is on but 'spd' was not asked for, so the name is never bound) and the
      component groups. */
  datatype LedStage = LedStage(spd: Option<seq<Curve>>, components: seq<seq<Curve>>)

  function Stage(exp: ExpFn, wl: Grid, p: LedParams, mono: seq<seq<real>>, out: OutMode): (r: Result<LedStage>)
    requires p.Admissible()
    requires forall i :: 0 <= i < |mono| ==> |mono[i]| == |wl|
    ensures r.Ok? ==> StageShaped(r.value, p, |mono|, |wl|)
    ensures r.Ok? && out.WantsSpd() ==> r.value.spd.Some?
  {
    if !p.PhosphorMode() then Ok(LedStage(Some(Lift(mono)), [Lift(mono)]))
    else if !p.ph1.Shaped() || !p.ph2.Shaped() then Err(ShapeMismatch)
    else
      var ph1 := MonoLedRows(exp, wl, p.ph1, 1.0);
      var ph2 := MonoLedRows(exp, wl, p.ph2, 1.0);
      if |ph1| != |mono| || |ph2| != |mono| then Err(ShapeMismatch)
      else
        var groups := seq(|mono|, i requires 0 <= i < |mono| => [Some(mono[i]), Some(ph1[i]), Some(ph2[i])]);
        if !out.WantsSpd() then Ok(LedStage(None, groups))
        else match PhosphorRows(p, mono, ph1, ph2, wl)
          case Err(e) => Err(e)
          case Ok(rows) => Ok(LedStage(Some(rows), groups))
  }

  /** Number of components per group: pump and two phosphors, or every pump row. */
  function ComponentCount(p: LedParams, rows: nat): nat { if p.PhosphorMode() then 3 else rows }

  ghost predicate StageShaped(st: LedStage, p: LedParams, rows: nat, width: nat)
  {
    (st.spd.Some? ==> |st.spd.value| == SpectrumRows(p, rows) && Widths(st.spd.value, width)) &&
    (forall g :: 0 <= g < |st.components| ==>
       |st.components[g]| == ComponentCount(p, rows) && Widths(st.components[g], width))
  }

  /** The clamp: below the peak a sample is multiplied by the factor row, at and
      above it the sample is kept. */
  function Clamp(c: Curve, f: seq<real>, wl: Grid, peak: real): (r: Curve)
    requires c.Some? ==> |c.value| == |wl| && |f| == |wl|
    ensures r.Some? <==> c.Some?
    ensures r.Some? ==> (|r.value| == |wl| &&
      forall j :: 0 <= j < |wl| ==> r.value[j] == (if wl[j] < peak then c.value[j] * f[j] else c.value[j]))
  {
    match c
    case None => None
    case Some(s) => Some(seq(|wl|, j requires 0 <= j < |wl| => if wl[j] < peak then s[j] * f[j] else s[j]))
  }

  /** The clamp only lowers a spectrum: with a factor row in [0,1] (a pump
      row is one) no non-negative sample grows, and every sample at and
      above the peak is kept. */
  lemma ClampShrinks(c: Curve, f: seq<real>, wl: Grid, peak: real)
    requires c.Some? && |c.value| == |wl| && |f| == |wl|
    requires forall j :: 0 <= j < |wl| ==> c.value[j] >= 0.0 && 0.0 <= f[j] <= 1.0
    ensures var r := Clamp(c, f, wl, peak).value;
      forall j :: 0 <= j < |wl| ==> 0.0 <= r[j] <= c.value[j] && (wl[j] >= peak ==> r[j] == c.value[j])
  {
    var r := Clamp(c, f, wl, peak).value;
    forall j | 0 <= j < |wl| ensures 0.0 <= r[j] <= c.value[j] {
      if wl[j] < peak {
        assert r[j] == c.value[j] * f[j];
        assert c.value[j] - r[j] == c.value[j] * (1.0 - f[j]);
        NonNegProduct(c.value[j], 1.0 - f[j]);
        NonNegProduct(c.value[j], f[j]);
      }
    }
  }

  /** A component curve clamped with itself: squared below the peak. */
  function ClampSelf(c: Curve, wl: Grid, peak: real): (r: Curve)
    requires c.Some? ==> |c.value| == |wl|
    ensures r.Some? <==> c.Some?
    ensures r.Some? ==> |r.value| == |wl|
  {
    match c
    case None => None
    case Some(s) => Clamp(c, s, wl, peak)
  }

  /** The component groups after clamping components 0 .. upto-1, component c
      with the c-th pump peak. */
  function ClampedComponents(groups: seq<seq<Curve>>, upto: nat, wl: Grid, peaks: seq<real>): (r: seq<seq<Curve>>)
    requires upto <= |peaks|
    requires forall g :: 0 <= g < |groups| ==> upto <= |groups[g]| && Widths(groups[g], |wl|)
    ensures |r| == |groups| && forall g :: 0 <= g < |groups| ==> |r[g]| == |groups[g]| && Widths(r[g], |wl|)
  {
    seq(|groups|, g requires 0 <= g < |groups| => ClampedGroup(groups[g], upto, wl, peaks))
  }

  function ClampedGroup(group: seq<Curve>, upto: nat, wl: Grid, peaks: seq<real>): (r: seq<Curve>)
    requires upto <= |peaks| && upto <= |group| && Widths(group, |wl|)
    ensures |r| == |group| && Widths(r, |wl|)
  {
    seq(|group|, c requires 0 <= c < |group| => if c < upto then ClampSelf(group[c], wl, peaks[c]) else group[c])
  }

  /** The spectra after clamping rows 0 .. upto-1, row i with the i-th pump
      row and peak; rows beyond the pump rows are left alone. */
  function ClampedRows(spd: seq<Curve>, mono: seq<seq<real>>, upto: nat, wl: Grid, peaks: seq<real>): (r: seq<Curve>)
    requires upto <= |peaks| && upto <= |spd| && upto <= |mono|
    requires Widths(spd, |wl|) && forall i :: 0 <= i < |mono| ==> |mono[i]| == |wl|
    ensures |r| == |spd| && Widths(r, |wl|)
  {
    seq(|spd|, i requires 0 <= i < |spd| => if i < upto then Clamp(spd[i], mono[i], wl, peaks[i]) else spd[i])
  }

  function NormalizeCurve(c: Curve): (r: Curve)
    requires c.Some? ==> |c.value| > 0
    ensures r.Some? ==> c.Some? && |r.value| == |c.value|
  {
    if c.None? then None else Normalize(c.value)
  }

  function NormalizeAll(cs: seq<Curve>, width: nat): (r: seq<Curve>)
    requires width > 0 && Widths(cs, width)
    ensures |r| == |cs| && Widths(r, width)
  {
    seq(|cs|, i requires 0 <= i < |cs| => NormalizeCurve(cs[i]))
  }

  /** phophor_led_spd as written.  Errors, in the order the code meets them:
      lists that do not broadcast; a clamp that reads a pump peak beyond the
      list or a spectrum row beyond the block (the component clamp indexes
      peaks by component, the spectrum clamp runs over the pump rows, which
      a broadcast block can outnumber); 'spd' not asked for in phosphor mode (the spectra are never
      bound); and any request with wavelengths, since stacking the grid on the
      three-dimensional component array has no shape. */
  function PhosphorLed(exp: ExpFn, wl: Grid, p: LedParams, out: OutMode, withWl: bool): (r: Result<LedSpectra>)
    requires p.Admissible()
    ensures withWl ==> r.Err?
    ensures r.Ok? ==> p.pump.Shaped() && |r.value.spd| == SpectrumRows(p, p.pump.Rows()) && Widths(r.value.spd, |wl|)
    ensures r.Ok? && p.piecewise && out.WantsSpd() ==> p.pump.Rows() <= |p.pump.peaks| && p.pump.Rows() <= |r.value.spd|
    ensures r.Ok? ==> forall g :: 0 <= g < |r.value.components| ==>
      |r.value.components[g]| == ComponentCount(p, p.pump.Rows()) && Widths(r.value.components[g], |wl|)
  {
    if !p.pump.Shaped() then Err(ShapeMismatch)
    else
      var mono := MonoLedRows(exp, wl, p.pump, p.shoulder);
      match Stage(exp, wl, p, mono, out)
      case Err(e) => Err(e)
      case Ok(st) =>
        var cc := ComponentCount(p, |mono|);
        var peaks := p.pump.peaks;
        if p.piecewise && out.WantsComponents() && cc > |peaks| then Err(IndexOutOfRange)
        else if p.piecewise && out.WantsSpd() && (|mono| > |peaks| || (st.spd.Some? && |mono| > |st.spd.value|)) then Err(IndexOutOfRange)
        else if st.spd.None? then Err(UndefinedName)
        else if withWl then Err(ShapeMismatch)
        else
          var comps := if p.piecewise && out.WantsComponents() then ClampedComponents(st.components, cc, wl, peaks) else st.components;
          var spd := if p.piecewise && out.WantsSpd() then ClampedRows(st.spd.value, mono, |mono|, wl, peaks) else st.spd.value;
          Ok(LedSpectra(NormalizeAll(spd, |wl|), seq(|comps|, g requires 0 <= g < |comps| => NormalizeAll(comps[g], |wl|))))
  }

  /** numpy's piecewise factor: a copy of f set to 1 at and above the peak. */
  function Piecewise(f: seq<real>, wl: Grid, peak: real): (r: seq<real>)
    requires |f| == |wl|
    ensures |r| == |wl| && forall j :: 0 <= j < |wl| ==> r[j] == (if wl[j] >= peak then 1.0 else f[j])
  {
    seq(|wl|, j requires 0 <= j < |wl| => if wl[j] >= peak then 1.0 else f[j])
  }

  /** Element-wise product of a curve with a factor row. */
  function Times(c: Curve, f: seq<real>): (r: Curve)
    requires c.Some? ==> |c.value| == |f|
    ensures r.Some? <==> c.Some?
    ensures r.Some? ==> |r.value| == |f| && forall j :: 0 <= j < |f| ==> r.value[j] == c.value[j] * f[j]
  {
    match c
    case None => None
    case Some(s) => Some(seq(|f|, j requires 0 <= j < |f| => s[j] * f[j]))
  }

  /** Multiplying by the piecewise factor is the clamp. */
  lemma TimesPiecewise(c: Curve, f: seq<real>, wl: Grid, peak: real)
    requires |f| == |wl| && (c.Some? ==> |c.value| == |wl|)
    ensures Times(c, Piecewise(f, wl, peak)) == Clamp(c, f, wl, peak)
  {
    if c.Some? {
      var l := Times(c, Piecewise(f, wl, peak)).value;
      var r := Clamp(c, f, wl, peak).value;
      forall j | 0 <= j < |wl| ensures l[j] == r[j] {
        if wl[j] >= peak { assert l[j] == c.value[j] * 1.0; }
      }
      assert l == r;
    }
  }

  /** phophor_led_spd, step by step as the code runs, with its clamp loops. */
  method PhosphorLedSpd(exp: ExpFn, wl: Grid, p: LedParams, out: OutMode, withWl: bool) returns (r: Result<LedSpectra>)
    requires p.Admissible()
    ensures r == PhosphorLed(exp, wl, p, out, withWl)
  {
    if !p.pump.Shaped() { return Err(ShapeMismatch); }
    var mono := MonoLedRows(exp, wl, p.pump, p.shoulder);
    var staged := Stage(exp, wl, p, mono, out);
    if staged.Err? { return Err(staged.error); }
    var st := staged.value;
    var peaks := p.pump.peaks;
    var comps := st.components;
    if p.piecewise && out.WantsComponents() {
      var clamped := ClampComponentsLoop(st.components, ComponentCount(p, |mono|), wl, peaks);
      if clamped.Err? { return Err(clamped.error); }
      comps := clamped.value;
    }
    var spd := if st.spd.Some? then st.spd.value else [];
    if p.piecewise && out.WantsSpd() {
      var clamped := ClampRowsLoop(spd, mono, wl, peaks);
      if clamped.Err? { return Err(clamped.error); }
      spd := clamped.value;
    }
    if st.spd.None? { return Err(UndefinedName); }
    if withWl { return Err(ShapeMismatch); }
    var normComps := seq(|comps|, g requires 0 <= g < |comps| => NormalizeAll(comps[g], |wl|));
    r := Ok(LedSpectra(NormalizeAll(spd, |wl|), normComps));
  }

  /** The component loop: for i < cc, component i of every group is multiplied
      by its own piecewise factor for the i-th pump peak; a peak list shorter
      than cc raises IndexError. */
  method ClampComponentsLoop(groups: seq<seq<Curve>>, cc: nat, wl: Grid, peaks: seq<real>) returns (r: Result<seq<seq<Curve>>>)
    requires forall g :: 0 <= g < |groups| ==> |groups[g]| == cc && Widths(groups[g], |wl|)
    ensures cc > |peaks| ==> r == Err(IndexOutOfRange)
    ensures cc <= |peaks| ==> r == Ok(ClampedComponents(groups, cc, wl, peaks))
  {
    var comps := groups;
    ClampedComponentsZero(groups, wl, peaks);
    var i := 0;
    while i < cc
      invariant 0 <= i <= cc && i <= |peaks|
      invariant comps == ClampedComponents(groups, i, wl, peaks)
    {
      if i >= |peaks| { return Err(IndexOutOfRange); }
      comps := ClampComponent(comps, i, wl, peaks[i]);
      ClampComponentStep(groups, i, wl, peaks);
      i := i + 1;
    }
    r := Ok(comps);
  }

  /** The spectrum loop: for each pump row i, spectrum row i is multiplied by
      the piecewise factor of pump row i for the i-th pump peak; a peak list or
      a spectrum block shorter than the pump rows raises IndexError. */
  method ClampRowsLoop(spd: seq<Curve>, mono: seq<seq<real>>, wl: Grid, peaks: seq<real>) returns (r: Result<seq<Curve>>)
    requires Widths(spd, |wl|) && forall i :: 0 <= i < |mono| ==> |mono[i]| == |wl|
    ensures |mono| > |peaks| || |mono| > |spd| ==> r == Err(IndexOutOfRange)
    ensures |mono| <= |peaks| && |mono| <= |spd| ==> r == Ok(ClampedRows(spd, mono, |mono|, wl, peaks))
  {
    var rows := spd;
    var i := 0;
    assert rows == ClampedRows(spd, mono, 0, wl, peaks);
    while i < |mono|
      invariant 0 <= i <= |mono| && i <= |peaks| && i <= |spd| && |rows| == |spd|
      invariant rows == ClampedRows(spd, mono, i, wl, peaks)
    {
      if i >= |peaks| || i >= |spd| { return Err(IndexOutOfRange); }
      var fp := Piecewise(mono[i], wl, peaks[i]);
      TimesPiecewise(rows[i], mono[i], wl, peaks[i]);
      rows := rows[i := Times(rows[i], fp)];
      assert rows == ClampedRows(spd, mono, i + 1, wl, peaks);
      i := i + 1;
    }
    r := Ok(rows);
  }

  /** Component i of a group times its own piecewise factor. */
  function ClampOne(group: seq<Curve>, i: nat, wl: Grid, peak: real): (r: seq<Curve>)
    requires i < |group| && Widths(group, |wl|)
    ensures |r| == |group| && Widths(r, |wl|)
  {
    var c := group[i];
    group[i := if c.None? then None else Times(c, Piecewise(c.value, wl, peak))]
  }

  /** One pass of the component loop over every group. */
  function ClampComponent(groups: seq<seq<Curve>>, i: nat, wl: Grid, peak: real): (r: seq<seq<Curve>>)
    requires forall g :: 0 <= g < |groups| ==> i < |groups[g]| && Widths(groups[g], |wl|)
    ensures |r| == |groups|
  {
    seq(|groups|, g requires 0 <= g < |groups| => ClampOne(groups[g], i, wl, peak))
  }

  lemma ClampedComponentsZero(groups: seq<seq<Curve>>, wl: Grid, peaks: seq<real>)
    requires forall g :: 0 <= g < |groups| ==> Widths(groups[g], |wl|)
    ensures ClampedComponents(groups, 0, wl, peaks) == groups
  {
    var a := ClampedComponents(groups, 0, wl, peaks);
    forall g | 0 <= g < |groups| ensures a[g] == groups[g] {
      assert a[g] == ClampedGroup(groups[g], 0, wl, peaks);
    }
  }

  lemma ClampComponentStep(groups: seq<seq<Curve>>, i: nat, wl: Grid, peaks: seq<real>)
    requires i < |peaks|
    requires forall g :: 0 <= g < |groups| ==> i < |groups[g]| && Widths(groups[g], |wl|)
    ensures ClampComponent(ClampedComponents(groups, i, wl, peaks), i, wl, peaks[i]) ==
            ClampedComponents(groups, i + 1, wl, peaks)
  {
    var a := ClampComponent(ClampedComponents(groups, i, wl, peaks), i, wl, peaks[i]);
    var b := ClampedComponents(groups, i + 1, wl, peaks);
    forall g | 0 <= g < |groups| ensures a[g] == b[g] {
      var c := groups[g][i];
      if c.Some? { TimesPiecewise(c, c.value, wl, peaks[i]); }
      var x := ClampedGroup(groups[g], i, wl, peaks);
      assert a[g] == ClampOne(x, i, wl, peaks[i]);
      assert b[g] == ClampedGroup(groups[g], i + 1, wl, peaks);
    }
  }

  /** Strengths as the documentation describes them: a non-negative shoulder and
      phosphor strength; strength_ph1 a fraction when strength_ph2 is None, and
      otherwise a single positive strength_ph1 with non-negative strength_ph2. */
  ghost predicate Physical(p: LedParams)
  {
    p.shoulder >= 0.0 &&
    (p.strengthPh.Some? ==> forall k :: 0 <= k < |p.strengthPh.value| ==> p.strengthPh.value[k] >= 0.0) &&
    (p.s2.None? ==> forall k :: 0 <= k < |p.s1| ==> 0.0 <= p.s1[k] <= 1.0) &&
    (p.s2.Some? ==> |p.s1| == 1 && p.s1[0] > 0.0 && forall k :: 0 <= k < |p.s2.value| ==> p.s2.value[k] >= 0.0)
  }

  /** A curve of the given width whose samples are all positive. */
  ghost predicate Positive(c: Curve, width: nat)
  {
    c.Some? && |c.value| == width && forall j :: 0 <= j < width ==> c.value[j] > 0.0
  }

  /** A normalised curve: samples in (0,1] with maximum 1. */
  ghost predicate UnitCurve(c: Curve, width: nat)
  {
    c.Some? && |c.value| == width && width > 0 &&
    (forall j :: 0 <= j < width ==> 0.0 < c.value[j] <= 1.0) && Max(c.value) == 1.0
  }

  lemma PositiveLedRows(exp: ExpFn, wl: Grid, l: Lobes, s: real)
    requires l.Shaped() && l.NonZeroWidths() && s >= 0.0
    ensures forall i :: 0 <= i < l.Rows() ==> Positive(Some(MonoLedRows(exp, wl, l, s)[i]), |wl|)
  {
    var rows := MonoLedRows(exp, wl, l, s);
    forall i, j | 0 <= i < |rows| && 0 <= j < |wl| ensures rows[i][j] > 0.0 {
      MonoLedRowBounds(exp, wl, l.Peak(i), l.Width(i), s, j);
    }
  }

  lemma PositiveProduct(a: real, b: real)
    requires a > 0.0 && b > 0.0
    ensures a * b > 0.0
  {
  }

  lemma PositiveQuotient(q: real, a: real, m: real)
    requires m > 0.0 && a > 0.0 && q * m == a
    ensures q > 0.0
  {
  }

  /** A mixture of two positive phosphor rows with physical strengths is positive. */
  lemma BlendPositive(a: seq<real>, b: seq<real>, s1: seq<real>, s2: Option<seq<real>>, i: nat)
    requires |a| == |b| && (|s1| == 1 || i < |s1|)
    requires s2.Some? ==> (|s2.value| == 1 || i < |s2.value|) && |s1| == 1 && s1[0] > 0.0 && At(s2.value, i) >= 0.0
    requires s2.None? ==> 0.0 <= At(s1, i) <= 1.0
    requires forall j :: 0 <= j < |a| ==> a[j] > 0.0 && b[j] > 0.0
    ensures Positive(Blend(a, b, s1, s2, i), |a|)
  {
    var w := At(s1, i);
    var c := Blend(a, b, s1, s2, i);
    if s2.None? {
      forall j | 0 <= j < |a| ensures c.value[j] > 0.0 {
        WeighPositive(w, a[j], 1.0 - w, b[j]);
      }
    } else {
      var d := s1[0] + s1[0];
      assert forall j :: 0 <= j < |a| ==> Twice(s1, j) == d;
      forall j | 0 <= j < |a| ensures c.value[j] > 0.0 {
        var num := Weigh(w, a[j], At(s2.value, i), b[j]);
        WeighPositive(w, a[j], At(s2.value, i), b[j]);
        PositiveQuotient(Quot(num, d), num, d);
      }
    }
  }

  /** Non-negative weights, not both zero, of positive values give a positive sum. */
  lemma WeighPositive(w1: real, x: real, w2: real, y: real)
    requires w1 >= 0.0 && w2 >= 0.0 && (w1 > 0.0 || w2 > 0.0) && x > 0.0 && y > 0.0
    ensures Weigh(w1, x, w2, y) > 0.0
  {
    if w1 > 0.0 {
      PositiveProduct(w1, x);
      assert w2 * y >= 0.0;
    } else {
      PositiveProduct(w2, y);
      assert w1 * x >= 0.0;
    }
  }

  lemma BoostPositive(mono: seq<real>, sph: real, mix: Curve)
    requires |mono| > 0 && sph >= 0.0 && Positive(mix, |mono|)
    requires forall j :: 0 <= j < |mono| ==> mono[j] > 0.0
    ensures Positive(Boost(mono, sph, mix), |mono|)
  {
    NormalizeInUnit(mix.value);
    var n := Normalize(mix.value).value;
    forall j | 0 <= j < |mono| ensures mono[j] + sph * n[j] >= mono[j] {
      assert sph * n[j] >= 0.0;
    }
  }

  lemma ClampPositive(c: Curve, f: seq<real>, wl: Grid, peak: real)
    requires Positive(c, |wl|) && |f| == |wl| && forall j :: 0 <= j < |f| ==> f[j] > 0.0
    ensures Positive(Clamp(c, f, wl, peak), |wl|)
  {
    forall j | 0 <= j < |wl| ensures Clamp(c, f, wl, peak).value[j] > 0.0 {
      PositiveProduct(c.value[j], f[j]);
    }
  }

  /** Before the clamp, every spectrum and every component is positive. */
  lemma StagePositive(exp: ExpFn, wl: Grid, p: LedParams, out: OutMode)
    requires p.Admissible() && Physical(p) && p.pump.Shaped()
    requires Stage(exp, wl, p, MonoLedRows(exp, wl, p.pump, p.shoulder), out).Ok?
    ensures var st := Stage(exp, wl, p, MonoLedRows(exp, wl, p.pump, p.shoulder), out).value;
      (st.spd.Some? ==> forall i :: 0 <= i < |st.spd.value| ==> Positive(st.spd.value[i], |wl|)) &&
      forall g, c :: 0 <= g < |st.components| && 0 <= c < |st.components[g]| ==> Positive(st.components[g][c], |wl|)
  {
    var mono := MonoLedRows(exp, wl, p.pump, p.shoulder);
    PositiveLedRows(exp, wl, p.pump, p.shoulder);
    if p.PhosphorMode() {
      var ph1 := MonoLedRows(exp, wl, p.ph1, 1.0);
      var ph2 := MonoLedRows(exp, wl, p.ph2, 1.0);
      PositiveLedRows(exp, wl, p.ph1, 1.0);
      PositiveLedRows(exp, wl, p.ph2, 1.0);
      if out.WantsSpd() {
        var rows := PhosphorRows(p, mono, ph1, ph2, wl).value;
        var sph := p.strengthPh.value;
        BroadcastSizes(p, |mono|, |wl|);
        forall i | 0 <= i < |rows| ensures Positive(rows[i], |wl|) {
          var a, b, m := RowAt(ph1, i), RowAt(ph2, i), RowAt(mono, i);
          BlendPositive(a, b, p.s1, p.s2, i);
          BoostPositive(m, At(sph, i), Blend(a, b, p.s1, p.s2, i));
          assert rows[i] == Boost(m, At(sph, i), Blend(a, b, p.s1, p.s2, i));
        }
      }
    }
  }

  lemma ClampedPositive(exp: ExpFn, wl: Grid, p: LedParams, st: LedStage)
    requires p.Admissible() && Physical(p) && p.pump.Shaped()
    requires StageShaped(st, p, p.pump.Rows(), |wl|) && st.spd.Some?
    requires forall i :: 0 <= i < |st.spd.value| ==> Positive(st.spd.value[i], |wl|)
    requires forall g, c :: 0 <= g < |st.components| && 0 <= c < |st.components[g]| ==> Positive(st.components[g][c], |wl|)
    ensures ComponentCount(p, p.pump.Rows()) <= |p.pump.peaks| ==>
      var comps := ClampedComponents(st.components, ComponentCount(p, p.pump.Rows()), wl, p.pump.peaks);
      forall g, c :: 0 <= g < |comps| && 0 <= c < |comps[g]| ==> Positive(comps[g][c], |wl|)
    ensures p.pump.Rows() <= |p.pump.peaks| && p.pump.Rows() <= |st.spd.value| ==>
      var mono := MonoLedRows(exp, wl, p.pump, p.shoulder);
      var spd := ClampedRows(st.spd.value, mono, |mono|, wl, p.pump.peaks);
      forall i :: 0 <= i < |spd| ==> Positive(spd[i], |wl|)
  {
    var cc := ComponentCount(p, p.pump.Rows());
    var peaks := p.pump.peaks;
    if cc <= |peaks| {
      var comps := ClampedComponents(st.components, cc, wl, peaks);
      forall g, c | 0 <= g < |comps| && 0 <= c < |comps[g]| ensures Positive(comps[g][c], |wl|) {
        assert comps[g] == ClampedGroup(st.components[g], cc, wl, peaks);
        var x := st.components[g][c];
        if c < cc { ClampPositive(x, x.value, wl, peaks[c]); }
      }
    }
    var mono := MonoLedRows(exp, wl, p.pump, p.shoulder);
    PositiveLedRows(exp, wl, p.pump, p.shoulder);
    if |mono| <= |peaks| && |mono| <= |st.spd.value| {
      var spd := ClampedRows(st.spd.value, mono, |mono|, wl, peaks);
      forall i | 0 <= i < |spd| ensures Positive(spd[i], |wl|) {
        if i < |mono| { ClampPositive(st.spd.value[i], mono[i], wl, peaks[i]); }
      }
    }
  }

  lemma NormalizeAllUnit(cs: seq<Curve>, width: nat)
    requires width > 0 && Widths(cs, width)
    requires forall i :: 0 <= i < |cs| ==> Positive(cs[i], width)
    ensures forall i :: 0 <= i < |cs| ==> UnitCurve(NormalizeAll(cs, width)[i], width)
  {
    forall i | 0 <= i < |cs| ensures UnitCurve(NormalizeAll(cs, width)[i], width) {
      NormalizePositive(cs[i].value);
    }
  }

  /** With physical strengths, every spectrum and every component curve that
      phophor_led_spd returns is a proper normalised curve: no NaN row, samples
      in (0,1], maximum 1. */
  lemma PhosphorLedNormalized(exp: ExpFn, wl: Grid, p: LedParams, out: OutMode)
    requires p.Admissible() && Physical(p)
    requires PhosphorLed(exp, wl, p, out, false).Ok?
    ensures var r := PhosphorLed(exp, wl, p, out, false).value;
      |r.spd| == SpectrumRows(p, p.pump.Rows()) &&
      (forall i :: 0 <= i < |r.spd| ==> UnitCurve(r.spd[i], |wl|)) &&
      forall g, c :: 0 <= g < |r.components| && 0 <= c < |r.components[g]| ==> UnitCurve(r.components[g][c], |wl|)
  {
    var mono := MonoLedRows(exp, wl, p.pump, p.shoulder);
    var st := Stage(exp, wl, p, mono, out).value;
    StagePositive(exp, wl, p, out);
    ClampedPositive(exp, wl, p, st);
    var cc := ComponentCount(p, |mono|);
    var peaks := p.pump.peaks;
    var comps := if p.piecewise && out.WantsComponents() then ClampedComponents(st.components, cc, wl, peaks) else st.components;
    var spd := if p.piecewise && out.WantsSpd() then ClampedRows(st.spd.value, mono, |mono|, wl, peaks) else st.spd.value;
    NormalizeAllUnit(spd, |wl|);
    var r := PhosphorLed(exp, wl, p, out, false).value;
    assert r.spd == NormalizeAll(spd, |wl|);
    forall g, c | 0 <= g < |r.components| && 0 <= c < |r.components[g]| ensures UnitCurve(r.components[g][c], |wl|) {
      assert r.components[g] == NormalizeAll(comps[g], |wl|);
      NormalizeAllUnit(comps[g], |wl|);
    }
  }

  /** Without phosphors the spectra are the mono-LED rows, clamped at their
      own peaks when piecewise is on and then normalised, and the single
      component group is the list of spectra itself. */
  lemma MonoModeComponents(exp: ExpFn, wl: Grid, p: LedParams)
    requires p.Admissible() && !p.PhosphorMode()
    requires PhosphorLed(exp, wl, p, SpdAndComponents, false).Ok?
    ensures var r := PhosphorLed(exp, wl, p, SpdAndComponents, false).value;
      r.components == [r.spd] && |r.spd| == p.pump.Rows()
    ensures var r := PhosphorLed(exp, wl, p, SpdAndComponents, false).value;
      var mono := MonoLedRows(exp, wl, p.pump, p.shoulder);
      |r.spd| == |mono| && (p.piecewise ==> |mono| <= |p.pump.peaks|) &&
      forall i :: 0 <= i < |mono| ==> r.spd[i] == NormalizeCurve(
        if p.piecewise then Clamp(Some(mono[i]), mono[i], wl, p.pump.peaks[i]) else Some(mono[i]))
  {
    var mono := MonoLedRows(exp, wl, p.pump, p.shoulder);
    var rows := Lift(mono);
    if p.piecewise {
      var peaks := p.pump.peaks;
      var x := ClampedComponents([rows], |mono|, wl, peaks);
      var y := ClampedRows(rows, mono, |mono|, wl, peaks);
      assert x[0] == ClampedGroup(rows, |mono|, wl, peaks);
      forall i | 0 <= i < |rows| ensures x[0][i] == y[i] {
      }
      assert |x[0]| == |y|;
      assert x[0] == y;
      assert |x| == 1;
      assert x == [y];
    }
  }

  /** Asking for the wavelength row always raises (the grid cannot be stacked on
      the three-dimensional component array), and phosphor mode raises when the
      spectrum is not among the outputs (the name is never bound). */
  lemma PhosphorLedRaises(exp: ExpFn, wl: Grid, p: LedParams, out: OutMode)
    requires p.Admissible()
    ensures PhosphorLed(exp, wl, p, out, true).Err?
    ensures p.PhosphorMode() && out == ComponentsOut ==> PhosphorLed(exp, wl, p, out, false).Err?
  {
  }

  /** The denominator as written: with strength_ph2 given and strength_ph1 = 0,
      every spectrum is a NaN row, whatever strength_ph2 is. */
  lemma ZeroStrengthPh1NanRows(exp: ExpFn, wl: Grid, p: LedParams, out: OutMode)
    requires p.Admissible() && p.PhosphorMode() && p.s2.Some? && |p.s1| == 1 && p.s1[0] == 0.0
    requires PhosphorLed(exp, wl, p, out, false).Ok?
    ensures forall i :: 0 <= i < |PhosphorLed(exp, wl, p, out, false).value.spd| ==>
      PhosphorLed(exp, wl, p, out, false).value.spd[i].None?
  {
    var mono := MonoLedRows(exp, wl, p.pump, p.shoulder);
    var ph1 := MonoLedRows(exp, wl, p.ph1, 1.0);
    var ph2 := MonoLedRows(exp, wl, p.ph2, 1.0);
    var rows := PhosphorRows(p, mono, ph1, ph2, wl).value;
    ZeroStrengthBlends(p, mono, ph1, ph2, wl);
    var peaks := p.pump.peaks;
    var spd := if p.piecewise then ClampedRows(rows, mono, |mono|, wl, peaks) else rows;
    assert forall i :: 0 <= i < |spd| ==> spd[i].None?;
  }

  /** The mixture step of ZeroStrengthPh1NanRows: a zero first strength makes
      every divided mixture, and so every spectrum before the clamp, NaN. */
  lemma ZeroStrengthBlends(p: LedParams, mono: seq<seq<real>>, ph1: seq<seq<real>>, ph2: seq<seq<real>>, wl: Grid)
    requires |ph1| == |mono| && |ph2| == |mono| && p.strengthPh.Some?
    requires forall i :: 0 <= i < |mono| ==> |mono[i]| == |wl| && |ph1[i]| == |wl| && |ph2[i]| == |wl|
    requires p.s2.Some? && |p.s1| == 1 && p.s1[0] == 0.0
    requires PhosphorRows(p, mono, ph1, ph2, wl).Ok?
    ensures forall i :: 0 <= i < |PhosphorRows(p, mono, ph1, ph2, wl).value| ==>
      PhosphorRows(p, mono, ph1, ph2, wl).value[i].None?
  {
    var rows := PhosphorRows(p, mono, ph1, ph2, wl).value;
    BroadcastSizes(p, |mono|, |wl|);
    forall i | 0 <= i < |rows| ensures rows[i].None? {
      assert Twice(p.s1, 0) == 0.0;
      assert Blend(RowAt(ph1, i), RowAt(ph2, i), p.s1, p.s2, i).None?;
    }
  }

  /** One pump row against a longer strength list: numpy broadcasts the
      spectrum block to one row per strength, but the clamp loop runs over
      the single pump row, so only the first spectrum is clamped and the
      others are normalised as the mixture left them. */
  lemma OnePumpRowClampsFirst(exp: ExpFn, wl: Grid, p: LedParams)
    requires p.Admissible() && p.PhosphorMode() && p.pump.Shaped() && p.pump.Rows() == 1 && p.piecewise
    requires PhosphorLed(exp, wl, p, SpdOut, false).Ok?
    ensures var mono := MonoLedRows(exp, wl, p.pump, p.shoulder);
      var pre := Stage(exp, wl, p, mono, SpdOut).value.spd.value;
      var r := PhosphorLed(exp, wl, p, SpdOut, false).value.spd;
      1 <= |p.pump.peaks| && |r| == |pre| == PhosphorCount(p, 1) >= 1 &&
      r[0] == NormalizeCurve(Clamp(pre[0], mono[0], wl, p.pump.peaks[0])) &&
      forall i :: 1 <= i < |r| ==> r[i] == NormalizeCurve(pre[i])
  {
    var mono := MonoLedRows(exp, wl, p.pump, p.shoulder);
    var pre := Stage(exp, wl, p, mono, SpdOut).value.spd.value;
    var spd := ClampedRows(pre, mono, 1, wl, p.pump.peaks);
    assert PhosphorLed(exp, wl, p, SpdOut, false).value.spd == NormalizeAll(spd, |wl|);
  }

  /** With one positive strength_ph1 the s1+s1 denominator is a positive
      constant that the normalisation inside the spectrum cancels, so the row
      equals the one built with the documented denominator
      strength_ph1 + strength_ph2 (when that is positive) and the one built
      from the undivided mixture. */
  lemma DenominatorCancels(mono: seq<real>, sph: real, a: seq<real>, b: seq<real>, w: real, s2: seq<real>, i: nat)
    requires |a| == |b| == |mono| > 0 && w > 0.0 && (|s2| == 1 || i < |s2|)
    ensures var num := seq(|a|, j requires 0 <= j < |a| => Weigh(w, a[j], At(s2, i), b[j]));
      Boost(mono, sph, Blend(a, b, [w], Some(s2), i)) == Boost(mono, sph, Some(num)) &&
      (w + At(s2, i) > 0.0 ==> Boost(mono, sph, Blend(a, b, [w], Some(s2), i)) == Boost(mono, sph, Some(Divide(num, w + At(s2, i)))))
  {
    var num := seq(|a|, j requires 0 <= j < |a| => Weigh(w, a[j], At(s2, i), b[j]));
    var d := w + w;
    assert Twice([w], 0) == d;
    var c := Blend(a, b, [w], Some(s2), i);
    assert c.value == Divide(num, d);
    NormalizeScaleInvariant(num, d);
    if w + At(s2, i) > 0.0 {
      NormalizeScaleInvariant(num, w + At(s2, i));
    }
  }
}
