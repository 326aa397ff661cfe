/** spd_optimizer: fluxes for a set of component spectra that reach a target
    chromaticity (three components) or that also minimise the objectives
    (more than three, via the triangle optimizer), and the spectrum they mix. */
module Optimizer {
  import opened Numeric
  import opened Mixer
  import Emitter
  import Builder
  import Fitness
  import Triangle

  /** An optimizer_type string other than the three the code compares against. */
  type OtherName = s: string | s != "3mixer" && s != "mixer" && s != "search" witness ""

  /** optimizer_type: '3mixer', 'mixer', 'search', or any other string. */
  datatype Kind = ThreeMixer | NMixer | Search | Other(name: OtherName)

  /** The string comparisons of spd_optimizer's dispatch: each name selects its
      own branch, and every other string falls through to the last one. */
  function KindOf(name: string): (k: Kind)
    ensures k == ThreeMixer <==> name == "3mixer"
    ensures k == NMixer <==> name == "mixer"
    ensures k == Search <==> name == "search"
    ensures k.Other? ==> k.name == name
  {
    if name == "3mixer" then ThreeMixer
    else if name == "mixer" then NMixer
    else if name == "search" then Search
    else Other(name)
  }

  /** Where the component spectra come from: given as an array (wavelength
      row first), built by spd_builder from LED parameters, or only counted
      (N_components with no spectra, for model-parameter optimisation). */
  datatype Components =
    | Given(s: Spectra)
    | Built(pump: Emitter.Lobes, strengthPh: Option<seq<real>>, ph1: Emitter.Lobes, s1: seq<real>,
            ph2: Emitter.Lobes, s2: Option<seq<real>>)
    | Counted(n: int)

  /** The fluxes M and the mixed spectrum, under the wavelength row when asked for. */
  datatype Optimized = Optimized(spd: seq<Curve>, fluxes: seq<Num>)

  /** The LED parameters spd_builder is called with: the strength of the
      shoulder and the piecewise clamp are not passed on, so they keep their
      defaults (2 and on). */
  function BuildParams(c: Components): (p: Emitter.LedParams)
    requires c.Built?
    ensures p.shoulder == 2.0 && p.piecewise
  {
    Emitter.LedParams(c.pump, 2.0, c.strengthPh, c.ph1, c.s1, c.ph2, c.s2, true)
  }

  /** No width spd_builder would divide by zero with. */
  predicate Buildable(c: Components)
  {
    c.Built? ==> BuildParams(c).Admissible()
  }

  /** The component spectra: the given ones, or spd_builder's output with
      its wavelength row (over the package's default grid, since spd_optimizer
      does not pass its own wl on); None when only a count is given. */
  function ComponentSpectra(c: Components, exp: ExpFn, defaultWl: Grid, chroma: Builder.Chroma): (r: Result<Option<Spectra>>)
    requires Buildable(c) && (c.Given? ==> c.s.Shaped())
    ensures r.Ok? && r.value.Some? ==> r.value.value.Shaped()
    ensures c.Given? ==> r == Ok(Some(c.s))
    ensures (r.Ok? && r.value.None?) <==> c.Counted?
  {
    match c
    case Given(s) => Ok(Some(s))
    case Counted(_) => Ok(None)
    case Built(_, _, _, _, _, _) =>
      match Builder.SpdBuilder(exp, defaultWl, BuildParams(c), None, chroma, [], None, 0, true)
      case Err(e) => Err(e)
      case Ok(rows) => Ok(Some(Spectra(defaultWl, rows[1..])))
  }

  /** The fluxes for the component spectra.  Only '3mixer' is implemented;
      any other name leaves M unbound. */
  function Fluxes(kind: Kind, t: Yxy, s: Spectra, chroma: Builder.Chroma, o: Fitness.Objectives,
                  round: RoundFn, sqrt: SqrtFn, minimize: Triangle.Minimizer): (r: Result<seq<Num>>)
    requires s.Shaped() && Triangle.AllRows(s) && |s.rows| >= 3
    ensures r.Ok? ==> kind == ThreeMixer && |r.value| == |s.rows|
  {
    match kind
    case ThreeMixer => MixerFluxes(t, s, chroma, o, round, sqrt, minimize)
    case NMixer => Err(NotImplemented)
    case Search => Err(NotImplemented)
    case Other(_) => Err(UndefinedName)
  }

  /** '3mixer': color3mixer for exactly three components, the triangle
      optimizer for more. */
  function MixerFluxes(t: Yxy, s: Spectra, chroma: Builder.Chroma, o: Fitness.Objectives,
                       round: RoundFn, sqrt: SqrtFn, minimize: Triangle.Minimizer): (r: Result<seq<Num>>)
    requires s.Shaped() && Triangle.AllRows(s) && |s.rows| >= 3
    ensures r.Ok? ==> |r.value| == |s.rows|
  {
    var ys := Builder.Present(Builder.Chromas(chroma, s.rows));
    if |s.rows| == 3 then Ok(Color3Mixer(t, ys[0], ys[1], ys[2]))
    else
      match Triangle.TriangleSpec(s, Some(ys), t, o, round, sqrt, minimize)
      case Err(e) => Err(e)
      case Ok(out) => Ok(Vals(out.fluxes))
  }

  function Vals(w: seq<real>): (m: seq<Num>)
    ensures |m| == |w| && forall k :: 0 <= k < |w| ==> m[k] == Val(w[k])
  {
    seq(|w|, k requires 0 <= k < |w| => Val(w[k]))
  }

  /** Component spectra without NaN rows: given ones are required to be,
      built ones are for physical LED parameters (BuiltRows). */
  ghost predicate Physical(c: Components)
  {
    (c.Given? ==> c.s.Shaped() && Triangle.AllRows(c.s)) &&
    (c.Built? ==> BuildParams(c).Admissible() && Emitter.Physical(BuildParams(c)))
  }

  /** spd_optimizer as written.  Errors, in the order the code meets them:
      spd_builder's; '3mixer' with only a component count; fewer than three
      component spectra; the unimplemented 'mixer' and 'search'; the fluxes'
      own errors; any other optimizer type, which leaves M undefined; and a
      wavelength row of another width than the spectra. */
  function SpdOptimizer(t: Yxy, kind: Kind, c: Components, o: Fitness.Objectives, round: RoundFn, sqrt: SqrtFn,
                        minimize: Triangle.Minimizer, chroma: Builder.Chroma, exp: ExpFn, defaultWl: Grid,
                        wl: Grid, withWl: bool): (r: Result<Optimized>)
    requires Physical(c)
    ensures r.Ok? ==> |r.value.spd| == (if withWl then 2 else 1)
  {
    BuiltRows(c, exp, defaultWl, chroma);
    match ComponentSpectra(c, exp, defaultWl, chroma)
    case Err(e) => Err(e)
    case Ok(None) =>
      if kind == ThreeMixer then Err(ModeNotSupported)
      else if c.n < 3 then Err(TooFewComponents)
      else if kind.NMixer? || kind.Search? then Err(NotImplemented)
      else Err(UndefinedName)
    case Ok(Some(s)) =>
      if |s.rows| < 3 then Err(TooFewComponents)
      else
        match Fluxes(kind, t, s, chroma, o, round, sqrt, minimize)
        case Err(e) => Err(e)
        case Ok(m) =>
          if withWl && |wl| != |s.wl| then Err(ShapeMismatch)
          else Ok(Optimized(Builder.Head(wl, withWl) + [WeightedSumNum(m, s.rows, |s.wl|)], m))
  }

  /** spd_builder's spectra have no NaN row for physical LED parameters. */
  lemma BuiltRows(c: Components, exp: ExpFn, defaultWl: Grid, chroma: Builder.Chroma)
    requires Physical(c)
    ensures var r := ComponentSpectra(c, exp, defaultWl, chroma);
      r.Ok? && r.value.Some? ==> Triangle.AllRows(r.value.value)
  {
    if c.Built? {
      var p := BuildParams(c);
      var out := Emitter.SpdAndComponents;
      var b := Builder.SpdBuilder(exp, defaultWl, p, None, chroma, [], None, 0, true);
      if b.Ok? {
        assert Emitter.PhosphorLed(exp, defaultWl, p, out, false).Ok?;
        var led := Emitter.PhosphorLed(exp, defaultWl, p, out, false).value;
        Builder.PlainBuilder(exp, defaultWl, p, chroma, [], 0, true);
        Emitter.PhosphorLedNormalized(exp, defaultWl, p, out);
        assert b.value[1..] == led.spd;
      }
    }
  }

  // ---------------------------------------------------------------------
  // Dispatch and errors

  /** With only a component count, '3mixer' is refused, fewer than three
      components raise, and the other types are not implemented or leave M
      unbound. */
  lemma CountOnly(t: Yxy, kind: Kind, n: int, o: Fitness.Objectives, round: RoundFn, sqrt: SqrtFn,
                  minimize: Triangle.Minimizer, chroma: Builder.Chroma, exp: ExpFn, defaultWl: Grid, wl: Grid, withWl: bool)
    ensures var r := SpdOptimizer(t, kind, Counted(n), o, round, sqrt, minimize, chroma, exp, defaultWl, wl, withWl);
      r.Err? &&
      (kind == ThreeMixer ==> r.error == ModeNotSupported) &&
      (kind != ThreeMixer && n < 3 ==> r.error == TooFewComponents) &&
      (n >= 3 && (kind == NMixer || kind == Search) ==> r.error == NotImplemented) &&
      (n >= 3 && kind.Other? ==> r.error == UndefinedName)
  {
  }

  /** Spectra: fewer than three raise whatever the type; otherwise only
      '3mixer' can succeed. */
  lemma GivenDispatch(t: Yxy, kind: Kind, s: Spectra, o: Fitness.Objectives, round: RoundFn, sqrt: SqrtFn,
                      minimize: Triangle.Minimizer, chroma: Builder.Chroma, exp: ExpFn, defaultWl: Grid, wl: Grid, withWl: bool)
    requires s.Shaped() && Triangle.AllRows(s)
    ensures var r := SpdOptimizer(t, kind, Given(s), o, round, sqrt, minimize, chroma, exp, defaultWl, wl, withWl);
      (|s.rows| < 3 ==> r == Err(TooFewComponents)) &&
      (|s.rows| >= 3 && (kind == NMixer || kind == Search) ==> r == Err(NotImplemented)) &&
      (|s.rows| >= 3 && kind.Other? ==> r == Err(UndefinedName)) &&
      (r.Ok? ==> kind == ThreeMixer && |r.value.fluxes| == |s.rows|)
  {
  }

  /** Three components: M is color3mixer's (so, by Color3MixerInGamut, all
      non-negative exactly when the target lies in the triangle of physical
      chromaticities) and the spectrum is Σ M_i·spds[i+1], NaN when a flux is. */
  lemma ThreeComponents(t: Yxy, s: Spectra, o: Fitness.Objectives, round: RoundFn, sqrt: SqrtFn,
                        minimize: Triangle.Minimizer, chroma: Builder.Chroma, exp: ExpFn, defaultWl: Grid, wl: Grid, withWl: bool)
    requires s.Shaped() && Triangle.AllRows(s) && |s.rows| == 3 && (withWl ==> |wl| == |s.wl|)
    ensures var r := SpdOptimizer(t, ThreeMixer, Given(s), o, round, sqrt, minimize, chroma, exp, defaultWl, wl, withWl);
      var a, b, c := chroma(s.rows[0].value), chroma(s.rows[1].value), chroma(s.rows[2].value);
      r.Ok? && r.value.fluxes == Color3Mixer(t, a, b, c) &&
      r.value.spd[|r.value.spd| - 1] == WeightedSumNum(r.value.fluxes, s.rows, |s.wl|)
  {
    var a, b, c := chroma(s.rows[0].value), chroma(s.rows[1].value), chroma(s.rows[2].value);
    var ys := Builder.Present(Builder.Chromas(chroma, s.rows));
    assert ys[0] == a && ys[1] == b && ys[2] == c;
  }

  /** More than three components: M is the triangle optimizer's, every flux
      is non-negative, and the spectrum spd_optimizer mixes from M is the
      spectrum the triangle optimizer reported for its optimum. */
  lemma TriangleComponents(t: Yxy, s: Spectra, o: Fitness.Objectives, round: RoundFn, sqrt: SqrtFn,
                           minimize: Triangle.Minimizer, chroma: Builder.Chroma, exp: ExpFn, defaultWl: Grid, wl: Grid, withWl: bool)
    requires s.Shaped() && Triangle.AllRows(s) && |s.rows| > 3
    ensures var r := SpdOptimizer(t, ThreeMixer, Given(s), o, round, sqrt, minimize, chroma, exp, defaultWl, wl, withWl);
      var tr := Triangle.TriangleSpec(s, Some(Builder.Present(Builder.Chromas(chroma, s.rows))), t, o, round, sqrt, minimize);
      r.Ok? ==> (tr.Ok? && r.value.fluxes == Vals(tr.value.fluxes) &&
                 (forall i :: 0 <= i < |s.rows| ==> r.value.fluxes[i].IsNonNeg()) &&
                 tr.value.spd.rows == [r.value.spd[|r.value.spd| - 1]])
  {
    var ys := Builder.Present(Builder.Chromas(chroma, s.rows));
    Triangle.TriangleFluxes(s, Some(ys), t, o, round, sqrt, minimize);
    Triangle.TriangleSpectrum(s, Some(ys), t, o, round, sqrt, minimize);
    var tr := Triangle.TriangleSpec(s, Some(ys), t, o, round, sqrt, minimize);
    if tr.Ok? {
      var m := Vals(tr.value.fluxes);
      assert Values(m) == tr.value.fluxes;
      assert WeightedSumNum(m, s.rows, |s.wl|) == WeightedSum(tr.value.fluxes, s.rows, |s.wl|);
    }
  }
}
