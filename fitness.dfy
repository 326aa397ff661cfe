/** The weighted-sum spectrum constructor (get_w_summed_spd) and the
    objective aggregation (fitnessfcn) the triangle optimizer minimises. */
module Fitness {
  import opened Numeric

  // ---------------------------------------------------------------------
  // get_w_summed_spd

  /** np.abs, element-wise. */
  function AbsAll(w: seq<real>): (a: seq<real>)
    ensures |a| == |w| && forall i :: 0 <= i < |w| ==> a[i] == Abs(w[i])
  {
    seq(|w|, i requires 0 <= i < |w| => Abs(w[i]))
  }

  /** The wavelength row, then Σ |w[j]|·spds[j+1]; np.dot raises ValueError
      when the weights do not match the spectra. */
  function WSummedSpd(w: seq<real>, s: Spectra): (r: Result<Spectra>)
    requires s.Shaped()
    ensures r.Err? <==> |w| != |s.rows|
    ensures r.Err? ==> r.error == ShapeMismatch
    ensures r.Ok? ==> r.value.wl == s.wl && |r.value.rows| == 1 && r.value.Shaped()
  {
    if |w| != |s.rows| then Err(ShapeMismatch)
    else Ok(Spectra(s.wl, [WeightedSum(AbsAll(w), s.rows, |s.wl|)]))
  }

  /** The unit vector e_i of length n. */
  function Unit(n: nat, i: nat): (u: seq<real>)
    ensures |u| == n && forall j :: 0 <= j < n ==> u[j] == if j == i then 1.0 else 0.0
  {
    seq(n, j requires 0 <= j < n => if j == i then 1.0 else 0.0)
  }

  /** A dot product with a unit vector picks one entry (all zeros picks nothing). */
  lemma {:induction false} DotPick(u: seq<real>, a: seq<real>, i: int)
    requires |u| == |a| && forall j :: 0 <= j < |u| ==> u[j] == if j == i then 1.0 else 0.0
    ensures Dot(u, a) == if 0 <= i < |a| then a[i] else 0.0
    decreases |a|
  {
    if |a| > 0 {
      DotPick(u[1..], a[1..], i - 1);
    }
  }

  /** Weighting by e_i gives spectrum i alone. */
  lemma WSummedUnit(s: Spectra, i: nat)
    requires s.Shaped() && i < |s.rows| && forall k :: 0 <= k < |s.rows| ==> s.rows[k].Some?
    ensures WSummedSpd(Unit(|s.rows|, i), s) == Ok(Spectra(s.wl, [s.rows[i]]))
  {
    var u := Unit(|s.rows|, i);
    assert AbsAll(u) == u;
    var sum := WeightedSum(u, s.rows, |s.wl|);
    assert sum.Some?;
    var c := sum.value;
    forall j | 0 <= j < |s.wl| ensures c[j] == s.rows[i].value[j] {
      DotPick(u, Column(s.rows, |s.wl|, j), i);
    }
    assert c == s.rows[i].value;
  }

  /** Only the magnitudes of the weights matter. */
  lemma WSummedSignFree(w: seq<real>, s: Spectra)
    requires s.Shaped()
    ensures WSummedSpd(w, s) == WSummedSpd(AbsAll(w), s)
  {
    assert AbsAll(AbsAll(w)) == AbsAll(w);
  }

  /** Non-negative spectra give a non-negative weighted sum, whatever the
      signs of the weights. */
  lemma WSummedNonNeg(w: seq<real>, s: Spectra)
    requires s.Shaped() && |w| == |s.rows|
    requires forall k :: 0 <= k < |s.rows| ==> s.rows[k].Some? && forall j :: 0 <= j < |s.rows[k].value| ==> s.rows[k].value[j] >= 0.0
    ensures var r := WSummedSpd(w, s).value.rows[0];
      r.Some? && forall j :: 0 <= j < |s.wl| ==> r.value[j] >= 0.0
  {
    WeightedSumNonNeg(AbsAll(w), s.rows, |s.wl|);
  }

  // ---------------------------------------------------------------------
  // fitnessfcn

  /** The keyword parameters handed to one objective function. */
  type Pars = seq<real>

  /** An objective function: a value computed from a spectrum (colour
      rendering indices and the like; the colorimetry itself is not modelled). */
  type ObjFn = (Spectra, Pars) -> real

  /** The objective lists of fitnessfcn: a function per objective (None is
      skipped), their parameter dicts, weights, target values and rounding
      decimals, and whether the root of the sum of squares is taken. */
  datatype Objectives = Objectives(
    fns: seq<Option<ObjFn>>, pars: seq<Pars>, weights: seq<real>,
    targets: seq<real>, decimals: seq<real>, rss: bool)

  /** The closeness value: one number with F_rss, otherwise the vector of
      per-objective terms (NaN for a skipped objective). */
  datatype FValue = Total(total: real) | PerObjective(terms: seq<Num>)

  /** Everything fitnessfcn can return: 'F', 'obj_vals' and the spectrum
      ('spdi,obj_vals') are selections from it. */
  datatype FitResult = FitResult(F: FValue, objVals: seq<Num>, spd: Spectra)

  /** `v * np.ones((n))` for a list v: the list itself, a scalar repeated,
      or a ValueError when the lengths do not broadcast. */
  function Tiled(v: seq<real>, n: nat): (r: Result<seq<real>>)
    ensures r.Ok? <==> |v| == n || |v| == 1 || n == 1
    ensures r.Err? ==> r.error == ShapeMismatch
    ensures r.Ok? ==> forall i :: 0 <= i < |r.value| ==> r.value[i] in v
    ensures r.Ok? && n != 1 ==> |r.value| == n
    ensures |v| == n ==> r == Ok(v)
    ensures |v| == 1 ==> r.Ok? && |r.value| == n && forall i :: 0 <= i < n ==> r.value[i] == v[0]
    ensures n == 1 ==> r == Ok(v)
  {
    if |v| == n then Ok(v)
    else if |v| == 1 then Ok(seq(n, i => v[0]))
    else if n == 1 then Ok(v)
    else Err(ShapeMismatch)
  }

  /** The integer number of decimals, truncated toward zero as np.int does (:688). */
  function Trunc(d: real): (k: int)
    ensures d >= 0.0 ==> k == d.Floor
    ensures d < 0.0 ==> k == -((-d).Floor)
  {
    if d >= 0.0 then d.Floor else -((-d).Floor)
  }

  /** The normaliser of a target value: the target when positive, else 1. */
  function Scale(t: real): (f: real)
    ensures f > 0.0 && (t > 0.0 ==> f == t)
  {
    if t > 0.0 then t else 1.0
  }

  /** The squared weighted, normalised distance of a rounded value from its
      target. */
  function Term(round: RoundFn, w: real, v: real, d: real, t: real): real
  {
    w * Sq(Quot(round(v, Trunc(d)) - t, Scale(t)))
  }

  /** Objective i can be evaluated: it is skipped, or its parameters, target,
      weight and decimals exist (a missing one is an IndexError). */
  predicate Readable(o: Objectives, ws: seq<real>, ds: seq<real>, i: nat)
    requires i < |o.fns|
  {
    o.fns[i].None? || (|o.pars| > 0 && i < |o.targets| && i < |ws| && i < |ds|)
  }

  /** The value of objective i (NaN when it is skipped). */
  function ObjVal(o: Objectives, spd: Spectra, i: nat): (v: Num)
    requires i < |o.fns| && (o.fns[i].Some? ==> |o.pars| > 0)
    ensures v.NaN? <==> o.fns[i].None?
  {
    match o.fns[i]
    case None => NaN
    case Some(f) => Val(f(spd, o.pars[i % |o.pars|]))
  }

  /** F[i] of objective i. */
  function FTerm(o: Objectives, spd: Spectra, round: RoundFn, ws: seq<real>, ds: seq<real>, i: nat): (f: Num)
    requires i < |o.fns| && Readable(o, ws, ds, i)
    ensures f.NaN? <==> o.fns[i].None?
  {
    match ObjVal(o, spd, i)
    case NaN => NaN
    case Val(v) => Val(Term(round, ws[i], v, ds[i], o.targets[i]))
  }

  /** np.nansum: the sum of the entries that are not NaN. */
  function NanSum(s: seq<Num>): real
  {
    if |s| == 0 then 0.0
    else (if s[|s| - 1].Val? then s[|s| - 1].v else 0.0) + NanSum(s[..|s| - 1])
  }

  /** No objective raises an IndexError. */
  predicate AllReadable(o: Objectives, ws: seq<real>, ds: seq<real>)
  {
    forall i :: 0 <= i < |o.fns| ==> Readable(o, ws, ds, i)
  }

  /** The vector F before the root-sum-of-squares. */
  function Terms(o: Objectives, spd: Spectra, round: RoundFn, ws: seq<real>, ds: seq<real>): (f: seq<Num>)
    requires AllReadable(o, ws, ds)
    ensures |f| == |o.fns|
  {
    seq(|o.fns|, i requires 0 <= i < |o.fns| => FTerm(o, spd, round, ws, ds, i))
  }

  /** The vector obj_vals. */
  function ObjVals(o: Objectives, spd: Spectra, ws: seq<real>, ds: seq<real>): (v: seq<Num>)
    requires AllReadable(o, ws, ds)
    ensures |v| == |o.fns|
  {
    seq(|o.fns|, i requires 0 <= i < |o.fns| => assert Readable(o, ws, ds, i); ObjVal(o, spd, i))
  }

  /** fitnessfcn for the spectrum the constructor builds from x. */
  function Fitness(o: Objectives, build: seq<real> -> Result<Spectra>, round: RoundFn, sqrt: SqrtFn, x: seq<real>): (r: Result<FitResult>)
    ensures r.Ok? ==> |o.fns| > 0 && |r.value.objVals| == |o.fns|
    ensures r.Ok? ==> r.value.F.Total? == o.rss
    ensures r.Ok? && !o.rss ==> |r.value.F.terms| == |o.fns|
  {
    match build(x)
    case Err(e) => Err(e)
    case Ok(spd) => Evaluate(o, spd, round, sqrt)
  }

  /** fitnessfcn once the spectrum is built.  Errors, in the order the code
      meets them: decimals or weights that do not broadcast to the number of
      objectives; an empty decimals array (its maximum is taken for the
      message format, so an empty objective list always raises); an objective
      whose parameters, target, weight or decimals are missing. */
  function Evaluate(o: Objectives, spd: Spectra, round: RoundFn, sqrt: SqrtFn): (r: Result<FitResult>)
    ensures r.Ok? ==> |o.fns| > 0 && |r.value.objVals| == |o.fns| && r.value.spd == spd
    ensures r.Ok? ==> r.value.F.Total? == o.rss
    ensures r.Ok? && !o.rss ==> |r.value.F.terms| == |o.fns|
  {
    var n := |o.fns|;
    var decimals, weights := Tiled(o.decimals, n), Tiled(o.weights, n);
    if decimals.Err? then Err(decimals.error)
    else if weights.Err? then Err(weights.error)
    else
      var ds, ws := decimals.value, weights.value;
      if |ds| == 0 then Err(ShapeMismatch)
      else if !AllReadable(o, ws, ds) then Err(IndexOutOfRange)
      else
        var terms := Terms(o, spd, round, ws, ds);
        Ok(FitResult(if o.rss then Total(sqrt(NanSum(terms))) else PerObjective(terms), ObjVals(o, spd, ws, ds), spd))
  }

  /** fitnessfcn as the code runs: F and obj_vals start as NaN and the loop
      fills in every objective that is not None. */
  method FitnessFcn(o: Objectives, build: seq<real> -> Result<Spectra>, round: RoundFn, sqrt: SqrtFn, x: seq<real>) returns (r: Result<FitResult>)
    ensures r == Fitness(o, build, round, sqrt, x)
  {
    var n := |o.fns|;
    var built := build(x);
    if built.Err? { return Err(built.error); }
    var spd := built.value;
    var decimals := Tiled(o.decimals, n);
    if decimals.Err? { return Err(decimals.error); }
    var weights := Tiled(o.weights, n);
    if weights.Err? { return Err(weights.error); }
    var ds, ws := decimals.value, weights.value;
    if |ds| == 0 { return Err(ShapeMismatch); }
    var ok, F, objVals := FillTerms(o, spd, round, ws, ds);
    if !ok { return Err(IndexOutOfRange); }
    var value := if o.rss then Total(sqrt(NanSum(F))) else PerObjective(F);
    r := Ok(FitResult(value, objVals, spd));
  }

  /** The loop of fitnessfcn over the objectives: fills F and obj_vals, and
      stops (ok false) at the first objective that raises an IndexError. */
  method FillTerms(o: Objectives, spd: Spectra, round: RoundFn, ws: seq<real>, ds: seq<real>)
    returns (ok: bool, F: seq<Num>, objVals: seq<Num>)
    ensures ok <==> AllReadable(o, ws, ds)
    ensures ok ==> F == Terms(o, spd, round, ws, ds) && objVals == ObjVals(o, spd, ws, ds)
  {
    var n := |o.fns|;
    F := seq(n, i => NaN);
    objVals := F;
    var i := 0;
    while i < n
      invariant 0 <= i <= n && |F| == n && |objVals| == n
      invariant forall k :: 0 <= k < i ==>
        Readable(o, ws, ds, k) && F[k] == FTerm(o, spd, round, ws, ds, k) && objVals[k] == ObjVal(o, spd, k)
      invariant forall k :: i <= k < n ==> F[k] == NaN && objVals[k] == NaN
    {
      match o.fns[i] {
        case None =>
        case Some(f) =>
          if |o.pars| == 0 {
            assert !Readable(o, ws, ds, i);
            return false, F, objVals;
          }
          var v := f(spd, o.pars[i % |o.pars|]);
          objVals := objVals[i := Val(v)];
          if i >= |o.targets| || i >= |ws| || i >= |ds| {
            assert !Readable(o, ws, ds, i);
            return false, F, objVals;
          }
          F := F[i := Val(Term(round, ws[i], v, ds[i], o.targets[i]))];
      }
      i := i + 1;
    }
    ok := true;
  }

  // ---------------------------------------------------------------------
  // Properties

  lemma {:induction false} NanSumNonNeg(s: seq<Num>)
    requires forall k :: 0 <= k < |s| && s[k].Val? ==> s[k].v >= 0.0
    ensures NanSum(s) >= 0.0
    decreases |s|
  {
    if |s| > 0 {
      NanSumNonNeg(s[..|s| - 1]);
    }
  }

  /** A NaN-skipping sum of non-negative terms is zero exactly when every
      term that is not NaN is zero. */
  lemma {:induction false} NanSumZero(s: seq<Num>)
    requires forall k :: 0 <= k < |s| && s[k].Val? ==> s[k].v >= 0.0
    ensures NanSum(s) == 0.0 <==> forall k :: 0 <= k < |s| && s[k].Val? ==> s[k].v == 0.0
    decreases |s|
  {
    if |s| > 0 {
      var init := s[..|s| - 1];
      NanSumZero(init);
      NanSumNonNeg(init);
      assert forall k :: 0 <= k < |init| ==> init[k] == s[k];
    }
  }

  lemma TermNonNeg(round: RoundFn, w: real, v: real, d: real, t: real)
    requires w >= 0.0
    ensures Term(round, w, v, d, t) >= 0.0
  {
    var q := Quot(round(v, Trunc(d)) - t, Scale(t));
    SqZero(q);
  }

  /** With a positive weight, a term vanishes exactly when the rounded value
      hits the target. */
  lemma TermZero(round: RoundFn, w: real, v: real, d: real, t: real)
    requires w > 0.0
    ensures Term(round, w, v, d, t) == 0.0 <==> round(v, Trunc(d)) == t
  {
    var q := Quot(round(v, Trunc(d)) - t, Scale(t));
    SqZero(q);
    ZeroProduct(w, Sq(q));
  }

  lemma SqZero(q: real)
    ensures Sq(q) >= 0.0 && (Sq(q) == 0.0 <==> q == 0.0)
  {
    ZeroProduct(q, q);
    if q < 0.0 {
      MulNonNeg(-q, -q);
    } else {
      MulNonNeg(q, q);
    }
  }

  lemma MulNonNeg(u: real, v: real)
    requires u >= 0.0 && v >= 0.0
    ensures u * v >= 0.0
  {
  }

  /** Objective i, rounded to its decimals, equals its target. */
  predicate Hit(o: Objectives, spd: Spectra, round: RoundFn, ds: seq<real>, i: nat)
    requires i < |o.fns| && o.fns[i].Some? && |o.pars| > 0 && i < |o.targets| && i < |ds|
  {
    round(o.fns[i].value(spd, o.pars[i % |o.pars|]), Trunc(ds[i])) == o.targets[i]
  }

  /** Terms with non-negative weights are non-negative. */
  lemma TermsNonNeg(o: Objectives, spd: Spectra, round: RoundFn, ws: seq<real>, ds: seq<real>)
    requires AllReadable(o, ws, ds) && forall k :: 0 <= k < |ws| ==> ws[k] >= 0.0
    ensures var f := Terms(o, spd, round, ws, ds); forall i :: 0 <= i < |f| && f[i].Val? ==> f[i].v >= 0.0
  {
    var f := Terms(o, spd, round, ws, ds);
    forall i | 0 <= i < |f| && f[i].Val? ensures f[i].v >= 0.0 {
      assert Readable(o, ws, ds, i);
      TermNonNeg(round, ws[i], o.fns[i].value(spd, o.pars[i % |o.pars|]), ds[i], o.targets[i]);
    }
  }

  /** With positive weights the NaN-skipping sum of the terms is zero exactly
      when every objective that is not None hits its target. */
  lemma TermsZero(o: Objectives, spd: Spectra, round: RoundFn, ws: seq<real>, ds: seq<real>)
    requires AllReadable(o, ws, ds) && forall k :: 0 <= k < |ws| ==> ws[k] > 0.0
    ensures NanSum(Terms(o, spd, round, ws, ds)) == 0.0 <==>
      forall i :: 0 <= i < |o.fns| && o.fns[i].Some? ==> Readable(o, ws, ds, i) && Hit(o, spd, round, ds, i)
  {
    var f := Terms(o, spd, round, ws, ds);
    forall i | 0 <= i < |f| && f[i].Val? && Readable(o, ws, ds, i)
      ensures f[i].v >= 0.0 && (f[i].v == 0.0 <==> Hit(o, spd, round, ds, i))
    {
      var v := o.fns[i].value(spd, o.pars[i % |o.pars|]);
      TermNonNeg(round, ws[i], v, ds[i], o.targets[i]);
      TermZero(round, ws[i], v, ds[i], o.targets[i]);
    }
    NanSumZero(f);
  }

  /** With positive weights, the root-sum-of-squares fitness is zero exactly
      when every objective that is not None, rounded to its decimals, hits
      its target. */
  lemma FitnessZeroIff(o: Objectives, build: seq<real> -> Result<Spectra>, round: RoundFn, sqrt: SqrtFn, x: seq<real>)
    requires forall k :: 0 <= k < |o.weights| ==> o.weights[k] > 0.0
    ensures var r := Fitness(o, build, round, sqrt, x);
      r.Ok? && o.rss ==>
        var ds := Tiled(o.decimals, |o.fns|).value;
        (r.value.F.total == 0.0 <==>
          forall i :: 0 <= i < |o.fns| && o.fns[i].Some? ==>
            |o.pars| > 0 && i < |o.targets| && i < |ds| && Hit(o, r.value.spd, round, ds, i))
  {
    var r := Fitness(o, build, round, sqrt, x);
    if r.Ok? && o.rss {
      var n, spd := |o.fns|, r.value.spd;
      var ds, ws := Tiled(o.decimals, n).value, Tiled(o.weights, n).value;
      TermsNonNeg(o, spd, round, ws, ds);
      NanSumNonNeg(Terms(o, spd, round, ws, ds));
      TermsZero(o, spd, round, ws, ds);
    }
  }

  /** With non-negative weights every term, and so the fitness, is
      non-negative. */
  lemma FitnessNonNeg(o: Objectives, build: seq<real> -> Result<Spectra>, round: RoundFn, sqrt: SqrtFn, x: seq<real>)
    requires forall k :: 0 <= k < |o.weights| ==> o.weights[k] >= 0.0
    ensures var r := Fitness(o, build, round, sqrt, x);
      r.Ok? ==> match r.value.F
        case Total(t) => t >= 0.0
        case PerObjective(ts) => forall i :: 0 <= i < |ts| && ts[i].Val? ==> ts[i].v >= 0.0
  {
    var r := Fitness(o, build, round, sqrt, x);
    if r.Ok? {
      var n, spd := |o.fns|, r.value.spd;
      var ds, ws := Tiled(o.decimals, n).value, Tiled(o.weights, n).value;
      TermsNonNeg(o, spd, round, ws, ds);
      NanSumNonNeg(Terms(o, spd, round, ws, ds));
    }
  }

  /** Exactly the None objectives come out as NaN, in obj_vals and in the
      per-objective terms. */
  lemma SkippedObjectives(o: Objectives, build: seq<real> -> Result<Spectra>, round: RoundFn, sqrt: SqrtFn, x: seq<real>)
    ensures var r := Fitness(o, build, round, sqrt, x);
      r.Ok? ==>
        (forall i :: 0 <= i < |o.fns| ==> (r.value.objVals[i].NaN? <==> o.fns[i].None?)) &&
        (r.value.F.PerObjective? ==> forall i :: 0 <= i < |o.fns| ==> (r.value.F.terms[i].NaN? <==> o.fns[i].None?))
  {
  }
}
