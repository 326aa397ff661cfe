/** spd_builder: the LED spectra of phophor_led_spd, optionally re-mixed from
    their components so that each reaches a target chromaticity, optionally
    combined by a flux matrix, normalised to a maximum of 1, with the
    wavelength row on top when asked for. */
module Builder {
  import opened Numeric
  import opened Mixer
  import Emitter
  import ColorMixing

  /** spd_to_xyz followed by xyz_to_Yxy on one component curve. */
  type Chroma = seq<real> -> Yxy

  /** numpy's component array: groups of perGroup curves over the grid. */
  ghost predicate Block(comps: seq<seq<Curve>>, perGroup: nat, width: nat)
  {
    forall g :: 0 <= g < |comps| ==> |comps[g]| == perGroup && Widths(comps[g], width)
  }

  /** The chromaticity of a component; a NaN curve has NaN coordinates. */
  function ChromaOf(chroma: Chroma, c: Curve): (y: Option<Yxy>)
    ensures y.Some? <==> c.Some?
    ensures c.Some? ==> y.value == chroma(c.value)
  {
    if c.None? then None else Some(chroma(c.value))
  }

  function Chromas(chroma: Chroma, group: seq<Curve>): (ys: seq<Option<Yxy>>)
    ensures |ys| == |group| && forall l :: 0 <= l < |group| ==> ys[l] == ChromaOf(chroma, group[l])
  {
    seq(|group|, l requires 0 <= l < |group| => ChromaOf(chroma, group[l]))
  }

  function Present(ys: seq<Option<Yxy>>): (cs: seq<Yxy>)
    requires forall l :: 0 <= l < |ys| ==> ys[l].Some?
    ensures |cs| == |ys| && forall l :: 0 <= l < |ys| ==> cs[l] == ys[l].value
  {
    seq(|ys|, l requires 0 <= l < |ys| => ys[l].value)
  }

  // ---------------------------------------------------------------------
  // Fluxes for the target

  /** A single component group goes to colormixer.  A NaN chromaticity
      reaches one of the three final virtual sources, whose color3mixer
      fluxes are then NaN, so every flux is NaN; the ratios must still
      cover the n - 3 merges. */
  function MixGroup(t: Yxy, ys: seq<Option<Yxy>>, ratios: seq<real>): (r: Result<seq<Num>>)
    ensures r.Err? <==> |ys| < 3 || (|ys| > 3 && |ratios| < |ys| - 3)
    ensures r.Ok? ==> |r.value| == |ys|
    ensures r.Ok? && (exists l :: 0 <= l < |ys| && ys[l].None?) ==> forall l :: 0 <= l < |ys| ==> r.value[l].NaN?
  {
    if forall l :: 0 <= l < |ys| ==> ys[l].Some? then ColorMixing.ColorMixerSpec(t, Present(ys), ratios)
    else if |ys| < 3 || (|ys| > 3 && |ratios| < |ys| - 3) then Err(IndexOutOfRange)
    else Ok(seq(|ys|, l => NaN))
  }

  /** The chromaticities of a group none of whose spectra is NaN. */
  function Sources(chroma: Chroma, group: seq<Curve>): (src: seq<Yxy>)
    requires forall l :: 0 <= l < |group| ==> group[l].Some?
    ensures |src| == |group|
  {
    Present(Chromas(chroma, group))
  }

  /** Several groups (pump, phosphor 1, phosphor 2 each) go to color3mixer,
      one row of fluxes per group. */
  function Triple(t: Yxy, chroma: Chroma, group: seq<Curve>): (m: seq<Num>)
    requires |group| == 3
    ensures |m| == 3
  {
    ColorMixing.Color3MixerOpt(t, ChromaOf(chroma, group[0]), ChromaOf(chroma, group[1]), ChromaOf(chroma, group[2]))
  }

  /** One re-mixed spectrum: Σ_l M3[l]·component l, divided by its maximum.
      A row whose fluxes hold a negative value is out of gamut and set to
      NaN; a NaN flux leaves a NaN row by itself. */
  function TargetRow(m: seq<Num>, group: seq<Curve>, width: nat): (c: Curve)
    requires |m| == |group| && Widths(group, width) && width > 0
    ensures c.Some? ==> |c.value| == width
    ensures c.Some? <==> (forall l :: 0 <= l < |m| ==> m[l].IsNonNeg()) && (forall l :: 0 <= l < |group| ==> group[l].Some?)
                         && Normalize(WeightedSumNum(m, group, width).value).Some?
    ensures c.Some? ==> c == Normalize(WeightedSum(Values(m), group, width).value)
  {
    if exists l :: 0 <= l < |m| && m[l].IsNeg() then None
    else match WeightedSumNum(m, group, width)
      case None => None
      case Some(s) => Normalize(s)
  }

  /** The target branch: too few components raises before anything else; a
      single group is re-mixed by colormixer, several by color3mixer. */
  function Targeted(t: Yxy, comps: seq<seq<Curve>>, perGroup: nat, width: nat, chroma: Chroma, ratios: seq<real>): (r: Result<seq<Curve>>)
    requires width > 0 && Block(comps, perGroup, width) && (|comps| == 1 || perGroup == 3)
    ensures perGroup < 3 ==> r == Err(TooFewComponents)
    ensures perGroup >= 3 && |comps| != 1 ==> r.Ok?
    ensures r.Ok? ==> |r.value| == |comps| && Widths(r.value, width)
  {
    if perGroup < 3 then Err(TooFewComponents)
    else if |comps| == 1 then
      match MixGroup(t, Chromas(chroma, comps[0]), ratios)
      case Err(e) => Err(e)
      case Ok(m) => Ok([TargetRow(m, comps[0], width)])
    else
      Ok(seq(|comps|, g requires 0 <= g < |comps| => TargetRow(Triple(t, chroma, comps[g]), comps[g], width)))
  }

  // ---------------------------------------------------------------------
  // The flux-weighted sum

  /** A flux matrix with one row of weights per output spectrum (a 1-D flux
      is a single row). */
  ghost predicate Rect(flux: seq<seq<real>>)
  {
    |flux| > 0 && forall f :: 0 <= f < |flux| ==> |flux[f]| == |flux[0]|
  }

  /** The weights of the spectra that are not NaN. */
  function KeptWeights(w: seq<real>, cs: seq<Curve>): (k: seq<real>)
    requires |w| == |cs|
    ensures |k| == |KeptRows(cs)|
  {
    if |cs| == 0 then []
    else (if cs[0].Some? then [w[0]] else []) + KeptWeights(w[1..], cs[1..])
  }

  /** The spectra that are not NaN, in order. */
  function KeptRows(cs: seq<Curve>): (k: seq<Curve>)
    ensures |k| <= |cs|
    ensures forall i :: 0 <= i < |k| ==> k[i].Some? && k[i] in cs
  {
    if |cs| == 0 then []
    else (if cs[0].Some? then [cs[0]] else []) + KeptRows(cs[1..])
  }

  /** `flux[:, keep] · spd[keep, :]` when the flux has one column per
      spectrum; otherwise the spectra are left as they are. */
  function FluxMix(flux: Option<seq<seq<real>>>, spd: seq<Curve>, width: nat): (r: seq<Curve>)
    requires flux.Some? ==> Rect(flux.value)
    requires Widths(spd, width)
    ensures Widths(r, width)
    ensures flux.None? || |flux.value[0]| != |spd| ==> r == spd
    ensures flux.Some? && |flux.value[0]| == |spd| ==>
      |r| == |flux.value| && forall f :: 0 <= f < |r| ==> r[f].Some?
  {
    if flux.None? || |flux.value[0]| != |spd| then spd
    else
      var fl := flux.value;
      seq(|fl|, f requires 0 <= f < |fl| => WeightedSum(KeptWeights(fl[f], spd), KeptRows(spd), width))
  }

  // ---------------------------------------------------------------------
  // spd_builder

  /** Everything after phophor_led_spd.  Errors, in the order the code meets
      them: the target branch's; then, with verbosity > 0, the plot loop's
      reference to the undefined name M as soon as there is a spectrum. */
  function Compose(led: Emitter.LedSpectra, perGroup: nat, wl: Grid, target: Option<Yxy>, chroma: Chroma,
                   ratios: seq<real>, flux: Option<seq<seq<real>>>, verbosity: int, withWl: bool): (r: Result<seq<Curve>>)
    requires Widths(led.spd, |wl|) && Block(led.components, perGroup, |wl|) && (|led.components| == 1 || perGroup == 3)
    requires flux.Some? ==> Rect(flux.value)
    ensures r.Ok? && withWl ==> |r.value| > 0 && r.value[0].Some? && r.value[0].value == wl
    ensures r.Ok? ==> Widths(r.value, |wl|)
    ensures r.Ok? ==> forall i :: (if withWl then 1 else 0) <= i < |r.value| ==>
      r.value[i].None? || MaxNormalized(r.value[i].value)
  {
    var staged := if target.None? then Ok(led.spd) else Targeted(target.value, led.components, perGroup, |wl|, chroma, ratios);
    match staged
    case Err(e) => Err(e)
    case Ok(spd) =>
      if verbosity > 0 && |spd| > 0 then Err(UndefinedName)
      else
        var rows := Emitter.NormalizeAll(FluxMix(flux, spd, |wl|), |wl|);
        NormalizedRows(FluxMix(flux, spd, |wl|), |wl|);
        Ok(Head(wl, withWl) + rows)
  }

  /** The final division: every row is NaN or holds 1 as its maximum (or,
      for a row whose maximum is negative, as its minimum). */
  lemma NormalizedRows(cs: seq<Curve>, width: nat)
    requires width > 0 && Widths(cs, width)
    ensures forall i :: 0 <= i < |cs| ==>
      Emitter.NormalizeAll(cs, width)[i].None? || MaxNormalized(Emitter.NormalizeAll(cs, width)[i].value)
  {
    var n := Emitter.NormalizeAll(cs, width);
    forall i | 0 <= i < |cs| ensures n[i].None? || MaxNormalized(n[i].value) {
      if n[i].Some? { NormalizeHitsOne(cs[i].value); }
    }
  }

  /** The wavelength row, when asked for. */
  function Head(wl: Grid, withWl: bool): (h: seq<Curve>)
    ensures |h| == (if withWl then 1 else 0) && (withWl ==> h[0].Some? && h[0].value == wl)
  {
    if withWl then [Some(wl)] else []
  }

  /** spd_builder: phophor_led_spd asked for the spectra and the components,
      without wavelengths and without plots, then Compose. */
  function SpdBuilder(exp: ExpFn, wl: Grid, p: Emitter.LedParams, target: Option<Yxy>, chroma: Chroma,
                      ratios: seq<real>, flux: Option<seq<seq<real>>>, verbosity: int, withWl: bool): (r: Result<seq<Curve>>)
    requires p.Admissible() && (flux.Some? ==> Rect(flux.value))
    ensures Emitter.PhosphorLed(exp, wl, p, Emitter.SpdAndComponents, false).Err? ==>
      r == Err(Emitter.PhosphorLed(exp, wl, p, Emitter.SpdAndComponents, false).error)
    ensures r.Ok? && withWl ==> |r.value| > 0 && r.value[0].Some? && r.value[0].value == wl
    ensures r.Ok? ==> Widths(r.value, |wl|)
    ensures r.Ok? ==> forall i :: (if withWl then 1 else 0) <= i < |r.value| ==>
      r.value[i].None? || MaxNormalized(r.value[i].value)
  {
    match Emitter.PhosphorLed(exp, wl, p, Emitter.SpdAndComponents, false)
    case Err(e) => Err(e)
    case Ok(led) =>
      LedShape(exp, wl, p);
      Compose(led, Emitter.ComponentCount(p, p.pump.Rows()), wl, target, chroma, ratios, flux, verbosity, withWl)
  }

  /** The arrays phophor_led_spd returns have numpy's shapes: as many
      spectra as the broadcast of the pump rows and the strength lists
      gives, and either one group of all pump rows or groups of three. */
  lemma LedShape(exp: ExpFn, wl: Grid, p: Emitter.LedParams)
    requires p.Admissible()
    requires Emitter.PhosphorLed(exp, wl, p, Emitter.SpdAndComponents, false).Ok?
    ensures var led, cc := Emitter.PhosphorLed(exp, wl, p, Emitter.SpdAndComponents, false).value, Emitter.ComponentCount(p, p.pump.Rows());
      |led.spd| == Emitter.SpectrumRows(p, p.pump.Rows()) && Widths(led.spd, |wl|) &&
      Block(led.components, cc, |wl|) && (|led.components| == 1 || cc == 3)
  {
    var out := Emitter.SpdAndComponents;
    var mono := Emitter.MonoLedRows(exp, wl, p.pump, p.shoulder);
    var st := Emitter.Stage(exp, wl, p, mono, out).value;
    var cc := Emitter.ComponentCount(p, |mono|);
    var peaks := p.pump.peaks;
    assert Emitter.StageShaped(st, p, |mono|, |wl|) && st.spd.Some?;
    StageGroups(exp, wl, p, mono);
    var comps := if p.piecewise then Emitter.ClampedComponents(st.components, cc, wl, peaks) else st.components;
    var spd := if p.piecewise then Emitter.ClampedRows(st.spd.value, mono, |mono|, wl, peaks) else st.spd.value;
    var led := Emitter.PhosphorLed(exp, wl, p, out, false).value;
    assert led == Emitter.LedSpectra(Emitter.NormalizeAll(spd, |wl|),
                                     seq(|comps|, g requires 0 <= g < |comps| => Emitter.NormalizeAll(comps[g], |wl|)));
  }

  /** Without phosphors there is one group; with them, groups of three. */
  lemma StageGroups(exp: ExpFn, wl: Grid, p: Emitter.LedParams, mono: seq<seq<real>>)
    requires p.Admissible() && forall i :: 0 <= i < |mono| ==> |mono[i]| == |wl|
    requires Emitter.Stage(exp, wl, p, mono, Emitter.SpdAndComponents).Ok?
    ensures var st := Emitter.Stage(exp, wl, p, mono, Emitter.SpdAndComponents).value;
      |st.components| == 1 || Emitter.ComponentCount(p, |mono|) == 3
  {
  }

  // ---------------------------------------------------------------------
  // Properties

  /** With a target, fewer than three component spectra raise before any
      mixing (three are always there in phosphor mode). */
  lemma TargetNeedsThree(exp: ExpFn, wl: Grid, p: Emitter.LedParams, t: Yxy, chroma: Chroma,
                         ratios: seq<real>, flux: Option<seq<seq<real>>>, verbosity: int, withWl: bool)
    requires p.Admissible() && (flux.Some? ==> Rect(flux.value))
    requires !p.PhosphorMode() && p.pump.Rows() < 3
    requires Emitter.PhosphorLed(exp, wl, p, Emitter.SpdAndComponents, false).Ok?
    ensures SpdBuilder(exp, wl, p, Some(t), chroma, ratios, flux, verbosity, withWl) == Err(TooFewComponents)
  {
  }

  /** A phosphor LED's spectrum survives the target branch only when the
      target lies in the triangle of its pump and phosphor chromaticities;
      otherwise color3mixer gives a negative flux and the row is NaN. */
  lemma PhosphorRowInGamut(t: Yxy, comps: seq<seq<Curve>>, width: nat, chroma: Chroma, ratios: seq<real>, g: nat)
    requires width > 0 && Block(comps, 3, width) && |comps| != 1 && g < |comps|
    requires comps[g][0].Some? && comps[g][1].Some? && comps[g][2].Some?
    requires var a, b, c := chroma(comps[g][0].value), chroma(comps[g][1].value), chroma(comps[g][2].value);
      t.Y > 0.0 && t.y > 0.0 && Det(a, b, c) != 0.0 &&
      a.Y > 0.0 && b.Y > 0.0 && c.Y > 0.0 && a.y > 0.0 && b.y > 0.0 && c.y > 0.0
    ensures var r := Targeted(t, comps, 3, width, chroma, ratios);
      var a, b, c := chroma(comps[g][0].value), chroma(comps[g][1].value), chroma(comps[g][2].value);
      r.Ok? && (r.value[g].Some? ==> InTriangle(t, a, b, c))
  {
    var a, b, c := chroma(comps[g][0].value), chroma(comps[g][1].value), chroma(comps[g][2].value);
    var m := Triple(t, chroma, comps[g]);
    assert m == Color3Mixer(t, a, b, c);
    Color3MixerInGamut(t, a, b, c);
    var r := Targeted(t, comps, 3, width, chroma, ratios);
    assert r.value[g] == TargetRow(m, comps[g], width);
  }

  /** A lone group of more than three LEDs survives the target branch only
      when the target lies in the triangle of colormixer's three final
      virtual sources. */
  lemma LoneGroupInGamut(t: Yxy, group: seq<Curve>, width: nat, chroma: Chroma, ratios: seq<real>)
    requires width > 0 && Widths(group, width) && |group| > 3
    requires forall l :: 0 <= l < |group| ==> group[l].Some?
    requires t.Y > 0.0 && t.y > 0.0 && ColorMixing.Physical(Sources(chroma, group), ratios)
    ensures var r := Targeted(t, [group], |group|, width, chroma, ratios);
      r.Ok? && (r.value[0].Some? ==> ColorMixing.InFinalTriangle(t, Sources(chroma, group), ratios))
  {
    LoneGroupRow(t, group, width, chroma, ratios);
    ColorMixing.ColorMixerInGamut(t, Sources(chroma, group), ratios);
  }

  /** A lone group without NaN spectra is re-mixed at colormixer's fluxes. */
  lemma LoneGroupRow(t: Yxy, group: seq<Curve>, width: nat, chroma: Chroma, ratios: seq<real>)
    requires width > 0 && Widths(group, width) && |group| > 3 && |group| - 3 <= |ratios|
    requires forall l :: 0 <= l < |group| ==> group[l].Some?
    ensures var m := ColorMixing.ColorMixerSpec(t, Sources(chroma, group), ratios);
      m.Ok? && Targeted(t, [group], |group|, width, chroma, ratios) == Ok([TargetRow(m.value, group, width)])
  {
    var ys := Chromas(chroma, group);
    assert forall l :: 0 <= l < |ys| ==> ys[l].Some?;
    assert MixGroup(t, ys, ratios) == ColorMixing.ColorMixerSpec(t, Sources(chroma, group), ratios);
  }

  /** The flux weights of dropped rows are never read. */
  lemma {:induction false} KeptWeightsAgree(w: seq<real>, v: seq<real>, cs: seq<Curve>)
    requires |w| == |v| == |cs|
    requires forall k :: 0 <= k < |cs| && cs[k].Some? ==> w[k] == v[k]
    ensures KeptWeights(w, cs) == KeptWeights(v, cs)
    decreases |cs|
  {
    if |cs| > 0 {
      KeptWeightsAgree(w[1..], v[1..], cs[1..]);
    }
  }

  /** Without NaN rows nothing is dropped. */
  lemma {:induction false} KeptAll(w: seq<real>, cs: seq<Curve>)
    requires |w| == |cs| && forall k :: 0 <= k < |cs| ==> cs[k].Some?
    ensures KeptWeights(w, cs) == w && KeptRows(cs) == cs
    decreases |cs|
  {
    if |cs| > 0 {
      KeptAll(w[1..], cs[1..]);
      assert [w[0]] + w[1..] == w;
      assert [cs[0]] + cs[1..] == cs;
    }
  }

  /** The flux-weighted sum skips NaN spectra: it is never NaN itself, it
      does not depend on the fluxes given to NaN spectra, and without NaN
      spectra it is the plain weighted sum. */
  lemma FluxMixSkipsNaN(fl: seq<seq<real>>, gl: seq<seq<real>>, spd: seq<Curve>, width: nat)
    requires Rect(fl) && |fl[0]| == |spd| && Widths(spd, width)
    requires |gl| == |fl| && forall f :: 0 <= f < |gl| ==> |gl[f]| == |spd|
    requires forall f, k :: 0 <= f < |fl| && 0 <= k < |spd| && spd[k].Some? ==> gl[f][k] == fl[f][k]
    ensures var r := FluxMix(Some(fl), spd, width);
      |r| == |fl| && (forall f :: 0 <= f < |fl| ==> r[f].Some?) && FluxMix(Some(gl), spd, width) == r
    ensures (forall k :: 0 <= k < |spd| ==> spd[k].Some?) ==>
      forall f :: 0 <= f < |fl| ==> FluxMix(Some(fl), spd, width)[f] == WeightedSum(fl[f], spd, width)
  {
    var r, q := FluxMix(Some(fl), spd, width), FluxMix(Some(gl), spd, width);
    assert Rect(gl);
    forall f | 0 <= f < |fl| ensures r[f].Some? && q[f] == r[f] {
      KeptWeightsAgree(fl[f], gl[f], spd);
    }
    assert q == r;
    if forall k :: 0 <= k < |spd| ==> spd[k].Some? {
      forall f | 0 <= f < |fl| ensures r[f] == WeightedSum(fl[f], spd, width) {
        KeptAll(fl[f], spd);
      }
    }
  }

  /** A flux with the wrong number of columns is ignored. */
  lemma FluxMixMismatch(fl: seq<seq<real>>, spd: seq<Curve>, width: nat)
    requires Rect(fl) && |fl[0]| != |spd| && Widths(spd, width)
    ensures FluxMix(Some(fl), spd, width) == spd
  {
  }

  /** Normalising a curve that is already normalised changes nothing. */
  lemma UnitFixed(c: Curve, width: nat)
    requires Emitter.UnitCurve(c, width)
    ensures Emitter.NormalizeCurve(c) == c
  {
    var s := c.value;
    var d := Normalize(s).value;
    forall j | 0 <= j < |s| ensures d[j] == s[j] {
      assert d[j] * 1.0 == s[j];
    }
    assert d == s;
  }

  /** Without a target, a flux or plots, spd_builder returns the spectra of
      phophor_led_spd unchanged (the second normalisation is idle), under
      the wavelength row when asked for. */
  lemma PlainBuilder(exp: ExpFn, wl: Grid, p: Emitter.LedParams, chroma: Chroma, ratios: seq<real>, verbosity: int, withWl: bool)
    requires p.Admissible() && Emitter.Physical(p) && verbosity <= 0
    requires Emitter.PhosphorLed(exp, wl, p, Emitter.SpdAndComponents, false).Ok?
    ensures var led := Emitter.PhosphorLed(exp, wl, p, Emitter.SpdAndComponents, false).value;
      var r := SpdBuilder(exp, wl, p, None, chroma, ratios, None, verbosity, withWl);
      r.Ok? && r.value == Head(wl, withWl) + led.spd
  {
    var led := Emitter.PhosphorLed(exp, wl, p, Emitter.SpdAndComponents, false).value;
    Emitter.PhosphorLedNormalized(exp, wl, p, Emitter.SpdAndComponents);
    LedShape(exp, wl, p);
    var n := Emitter.NormalizeAll(led.spd, |wl|);
    forall i | 0 <= i < |led.spd| ensures n[i] == led.spd[i] {
      UnitFixed(led.spd[i], |wl|);
    }
    assert n == led.spd;
  }

  /** With verbosity > 0 the plot loop reads the undefined M as soon as
      there is a spectrum, so the default call raises. */
  lemma VerboseRaises(exp: ExpFn, wl: Grid, p: Emitter.LedParams, chroma: Chroma, ratios: seq<real>,
                      flux: Option<seq<seq<real>>>, verbosity: int, withWl: bool)
    requires p.Admissible() && (flux.Some? ==> Rect(flux.value)) && verbosity > 0
    requires Emitter.PhosphorLed(exp, wl, p, Emitter.SpdAndComponents, false).Ok?
    requires Emitter.SpectrumRows(p, p.pump.Rows()) > 0
    ensures SpdBuilder(exp, wl, p, None, chroma, ratios, flux, verbosity, withWl) == Err(UndefinedName)
  {
    LedShape(exp, wl, p);
  }
}
