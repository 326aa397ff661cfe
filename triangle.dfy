/** component_triangle_optimizer: every triangle of three primaries that can
    reach the target chromaticity gives one three-channel spectrum; a
    minimiser then weights those spectra against the objectives, and the
    fluxes of the individual components are read back from the weights. */
module Triangle {
  import opened Numeric
  import opened Mixer
  import opened Fitness

  // ---------------------------------------------------------------------
  // itertools.combinations(range(N), 3)

  /** Three component indices, as one row of `combos`. */
  datatype Combo = Combo(a: nat, b: nat, c: nat) {
    /** The component at position p of the row. */
    function At(p: nat): nat
    {
      if p == 0 then a else if p == 1 then b else c
    }

    predicate Increasing(n: nat) { a < b < c < n }

    predicate Has(i: nat) { a == i || b == i || c == i }
  }

  /** Lexicographic order of rows. */
  predicate Before(u: Combo, v: Combo)
  {
    u.a < v.a || (u.a == v.a && (u.b < v.b || (u.b == v.b && u.c < v.c)))
  }

  /** Rows in strictly increasing lexicographic order. */
  predicate Sorted(cs: seq<Combo>)
  {
    forall i, j :: 0 <= i < j < |cs| ==> Before(cs[i], cs[j])
  }

  /** (a, b, c), (a, b, c+1), … up to n-1. */
  function Thirds(a: nat, b: nat, c: nat, n: nat): (cs: seq<Combo>)
    decreases n - c
  {
    if c >= n then [] else [Combo(a, b, c)] + Thirds(a, b, c + 1, n)
  }

  /** Every row starting with a, whose second index is at least b. */
  function PairsFrom(a: nat, b: nat, n: nat): (cs: seq<Combo>)
    decreases n - b
  {
    if b >= n then [] else Thirds(a, b, b + 1, n) + PairsFrom(a, b + 1, n)
  }

  /** Every row whose first index is at least a. */
  function CombosFrom(a: nat, n: nat): (cs: seq<Combo>)
    decreases n - a
  {
    if a >= n then [] else PairsFrom(a, a + 1, n) + CombosFrom(a + 1, n)
  }

  /** The rows of itertools.combinations(range(n), 3), in its order. */
  function Combos(n: nat): seq<Combo>
  {
    CombosFrom(0, n)
  }

  lemma {:induction false} ThirdsShape(a: nat, b: nat, c: nat, n: nat)
    ensures forall u :: u in Thirds(a, b, c, n) <==> u.a == a && u.b == b && c <= u.c < n
    ensures Sorted(Thirds(a, b, c, n))
    decreases n - c
  {
    if c < n {
      ThirdsShape(a, b, c + 1, n);
    }
  }

  lemma {:induction false} PairsShape(a: nat, b: nat, n: nat)
    ensures forall u :: u in PairsFrom(a, b, n) <==> u.a == a && b <= u.b < u.c < n
    ensures Sorted(PairsFrom(a, b, n))
    decreases n - b
  {
    if b < n {
      ThirdsShape(a, b, b + 1, n);
      PairsShape(a, b + 1, n);
      SortedConcat(Thirds(a, b, b + 1, n), PairsFrom(a, b + 1, n));
    }
  }

  lemma {:induction false} CombosShape(a: nat, n: nat)
    ensures forall u :: u in CombosFrom(a, n) <==> a <= u.a && u.Increasing(n)
    ensures Sorted(CombosFrom(a, n))
    decreases n - a
  {
    if a < n {
      PairsShape(a, a + 1, n);
      CombosShape(a + 1, n);
      SortedConcat(PairsFrom(a, a + 1, n), CombosFrom(a + 1, n));
    }
  }

  /** Two sorted runs, every row of the first before every row of the
      second, concatenate to a sorted run. */
  lemma SortedConcat(s: seq<Combo>, t: seq<Combo>)
    requires Sorted(s) && Sorted(t)
    requires forall u, v :: u in s && v in t ==> Before(u, v)
    ensures Sorted(s + t)
  {
    var st := s + t;
    forall i, j | 0 <= i < j < |st| ensures Before(st[i], st[j]) {
      if j < |s| {
        assert st[i] == s[i] && st[j] == s[j];
      } else if i >= |s| {
        assert st[i] == t[i - |s|] && st[j] == t[j - |s|];
      } else {
        assert st[i] in s && st[j] in t;
      }
    }
  }

  /** The combinations are exactly the increasing index triples below n. */
  lemma CombosMembers(n: nat)
    ensures forall u :: u in Combos(n) <==> u.Increasing(n)
  {
    CombosShape(0, n);
  }

  /** …and they come in lexicographic order, each once. */
  lemma CombosSorted(n: nat)
    ensures Sorted(Combos(n))
  {
    CombosShape(0, n);
  }

  // ---------------------------------------------------------------------
  // color3mixer over every triangle, and the gamut filter

  /** A triangle that reaches the target, with its three non-negative fluxes
      (one row of the filtered `combos` and of `M3`). */
  datatype Mixture = Mixture(combo: Combo, m0: real, m1: real, m2: real) {
    /** The flux at position p of the row. */
    function At(p: nat): real
    {
      if p == 0 then m0 else if p == 1 then m1 else m2
    }
  }

  /** Every index of every row addresses a colour of the list. */
  predicate Addressable(cs: seq<Combo>, yxy: seq<Yxy>)
  {
    forall k :: 0 <= k < |cs| ==> cs[k].a < |yxy| && cs[k].b < |yxy| && cs[k].c < |yxy|
  }

  /** `M3`: the color3mixer fluxes of every triangle. */
  function AllFluxes(t: Yxy, yxy: seq<Yxy>, cs: seq<Combo>): (m3: seq<seq<Num>>)
    requires Addressable(cs, yxy)
    ensures |m3| == |cs|
    ensures forall k :: 0 <= k < |cs| ==> m3[k] == Color3Mixer(t, yxy[cs[k].a], yxy[cs[k].b], yxy[cs[k].c])
  {
    seq(|cs|, k requires 0 <= k < |cs| => Color3Mixer(t, yxy[cs[k].a], yxy[cs[k].b], yxy[cs[k].c]))
  }

  /** `(M3 >= 0).sum(axis=1) == 3`: all three fluxes are numbers and
      non-negative (a NaN flux fails the comparison). */
  predicate InGamut(m: seq<Num>)
  {
    |m| == 3 && m[0].IsNonNeg() && m[1].IsNonNeg() && m[2].IsNonNeg()
  }

  /** The row with its fluxes, as the mask keeps it. */
  function Keep(u: Combo, m: seq<Num>): Mixture
    requires InGamut(m)
  {
    Mixture(u, m[0].v, m[1].v, m[2].v)
  }

  /** The rows of `combos` and `M3` that survive the mask, in their order. */
  function Kept(cs: seq<Combo>, m3: seq<seq<Num>>): (ks: seq<Mixture>)
    requires |cs| == |m3|
    ensures |ks| <= |cs|
  {
    if |cs| == 0 then []
    else (if InGamut(m3[0]) then [Keep(cs[0], m3[0])] else []) + Kept(cs[1..], m3[1..])
  }

  /** A row is kept exactly when its fluxes are in gamut, and it carries
      those fluxes. */
  lemma {:induction false} KeptMembers(cs: seq<Combo>, m3: seq<seq<Num>>)
    requires |cs| == |m3|
    ensures forall k :: k in Kept(cs, m3) ==> exists i :: 0 <= i < |cs| && InGamut(m3[i]) && k == Keep(cs[i], m3[i])
    ensures forall i :: 0 <= i < |cs| && InGamut(m3[i]) ==> Keep(cs[i], m3[i]) in Kept(cs, m3)
  {
    if |cs| > 0 {
      KeptMembers(cs[1..], m3[1..]);
      forall k | k in Kept(cs, m3)
        ensures exists i :: 0 <= i < |cs| && InGamut(m3[i]) && k == Keep(cs[i], m3[i])
      {
        if k in Kept(cs[1..], m3[1..]) {
          var i :| 0 <= i < |cs[1..]| && InGamut(m3[1..][i]) && k == Keep(cs[1..][i], m3[1..][i]);
          assert cs[1..][i] == cs[i + 1] && m3[1..][i] == m3[i + 1];
        }
      }
      forall i | 0 <= i < |cs| && InGamut(m3[i]) ensures Keep(cs[i], m3[i]) in Kept(cs, m3) {
        if i > 0 {
          assert cs[1..][i - 1] == cs[i] && m3[1..][i - 1] == m3[i];
        }
      }
    }
  }

  /** Mixtures whose triangles are in strictly increasing order. */
  predicate SortedMixtures(ks: seq<Mixture>)
  {
    forall i, j :: 0 <= i < j < |ks| ==> Before(ks[i].combo, ks[j].combo)
  }

  /** The mask keeps the order of the rows: the kept triangles of sorted
      combinations are sorted. */
  lemma {:induction false} KeptSorted(cs: seq<Combo>, m3: seq<seq<Num>>)
    requires |cs| == |m3| && Sorted(cs)
    ensures SortedMixtures(Kept(cs, m3))
  {
    if |cs| > 0 {
      var rest := Kept(cs[1..], m3[1..]);
      KeptSorted(cs[1..], m3[1..]);
      assert SortedMixtures(rest);
      KeptMembers(cs[1..], m3[1..]);
      var ks := Kept(cs, m3);
      forall i, j | 0 <= i < j < |ks| ensures Before(ks[i].combo, ks[j].combo) {
        if InGamut(m3[0]) {
          assert ks == [Keep(cs[0], m3[0])] + rest;
          if i == 0 {
            assert ks[j] in rest;
            var q :| 0 <= q < |cs[1..]| && InGamut(m3[1..][q]) && ks[j] == Keep(cs[1..][q], m3[1..][q]);
            assert cs[1..][q] == cs[1 + q];
            assert ks[0].combo == cs[0] && ks[j].combo == cs[1 + q];
            assert Before(cs[0], cs[1 + q]);
          } else {
            assert ks[i] == rest[i - 1] && ks[j] == rest[j - 1];
            assert Before(rest[i - 1].combo, rest[j - 1].combo);
          }
        } else {
          assert ks == rest;
          assert Before(rest[i].combo, rest[j].combo);
        }
      }
    }
  }

  /** Each kept triangle mixes to the target: its three fluxes reproduce the
      target's tristimulus values (when the colours are physical and the
      triangle is not degenerate). */
  lemma KeptMatchesTarget(t: Yxy, yxy: seq<Yxy>, cs: seq<Combo>, k: Mixture)
    requires Addressable(cs, yxy) && k in Kept(cs, AllFluxes(t, yxy, cs))
    requires t.y != 0.0 && forall i :: 0 <= i < |yxy| ==> yxy[i].Y != 0.0 && yxy[i].y != 0.0
    requires k.combo.a < |yxy| && k.combo.b < |yxy| && k.combo.c < |yxy|
    requires Det(yxy[k.combo.a], yxy[k.combo.b], yxy[k.combo.c]) != 0.0
    ensures Mix3(k.m0, k.m1, k.m2, ToXyz(yxy[k.combo.a]), ToXyz(yxy[k.combo.b]), ToXyz(yxy[k.combo.c])) == ToXyz(t)
  {
    var m3 := AllFluxes(t, yxy, cs);
    KeptMembers(cs, m3);
    var i :| 0 <= i < |cs| && InGamut(m3[i]) && k == Keep(cs[i], m3[i]);
    Color3MixerMatchesTarget(t, yxy[k.combo.a], yxy[k.combo.b], yxy[k.combo.c]);
  }

  /** Every triangle is a combination of the n components. */
  predicate Within(ks: seq<Mixture>, n: nat)
  {
    forall k :: 0 <= k < |ks| ==> ks[k].combo.Increasing(n)
  }

  lemma CombosAddressable(n: nat, yxy: seq<Yxy>)
    requires n <= |yxy|
    ensures Addressable(Combos(n), yxy)
  {
    var cs := Combos(n);
    CombosMembers(n);
    forall k | 0 <= k < |cs| ensures cs[k].a < |yxy| && cs[k].b < |yxy| && cs[k].c < |yxy| {
      assert cs[k] in cs;
    }
  }

  /** The kept triangles index the n components. */
  lemma KeptWithin(n: nat, t: Yxy, yxy: seq<Yxy>)
    requires n <= |yxy|
    ensures Addressable(Combos(n), yxy)
    ensures Within(Kept(Combos(n), AllFluxes(t, yxy, Combos(n))), n)
  {
    CombosAddressable(n, yxy);
    var cs := Combos(n);
    var m3 := AllFluxes(t, yxy, cs);
    var ks := Kept(cs, m3);
    CombosMembers(n);
    KeptMembers(cs, m3);
    forall k | 0 <= k < |ks| ensures ks[k].combo.Increasing(n) {
      assert ks[k] in ks;
      var i :| 0 <= i < |cs| && InGamut(m3[i]) && ks[k] == Keep(cs[i], m3[i]);
      assert cs[i] in cs;
    }
  }

  // ---------------------------------------------------------------------
  // The three-channel spectra

  /** Triangle k's three component spectra weighted by its fluxes (:784). */
  function RgbRow(k: Mixture, s: Spectra): (c: Curve)
    requires s.Shaped() && k.combo.Increasing(|s.rows|)
    ensures c.Some? ==> |c.value| == |s.wl|
  {
    WeightedSum([k.m0, k.m1, k.m2], [s.rows[k.combo.a], s.rows[k.combo.b], s.rows[k.combo.c]], |s.wl|)
  }

  /** `spds_rgb`: the wavelength row, then one spectrum per kept triangle. */
  function RgbSpectra(ks: seq<Mixture>, s: Spectra): (rgb: Spectra)
    requires s.Shaped() && Within(ks, |s.rows|)
    ensures rgb.wl == s.wl && |rgb.rows| == |ks| && rgb.Shaped()
    ensures forall i :: 0 <= i < |ks| ==> rgb.rows[i] == RgbRow(ks[i], s)
  {
    Spectra(s.wl, seq(|ks|, i requires 0 <= i < |ks| => RgbRow(ks[i], s)))
  }

  /** The spectrum constructor: get_w_summed_spd over the three-channel spectra. */
  function Build(rgb: Spectra): seq<real> -> Result<Spectra>
    requires rgb.Shaped()
  {
    x => WSummedSpd(x, rgb)
  }

  /** fit_fcn: fitnessfcn for the weights x of the three-channel spectra. */
  function FitFor(o: Objectives, rgb: Spectra, round: RoundFn, sqrt: SqrtFn): seq<real> -> Result<FitResult>
    requires rgb.Shaped()
  {
    x => Fitness.Fitness(o, Build(rgb), round, sqrt, x)
  }

  // ---------------------------------------------------------------------
  // The starting point

  /** `Fs[i] = fit_fcn(X0[i], 'F', …)`: a single F (F_rss) fits the slot; a
      vector of objective terms only when it has one entry. */
  function Score(r: Result<FitResult>): (f: Result<Num>)
    ensures r.Err? ==> f == Err(r.error)
    ensures r.Ok? && r.value.F.Total? ==> f == Ok(Val(r.value.F.total))
  {
    match r
    case Err(e) => Err(e)
    case Ok(fr) =>
      match fr.F
      case Total(v) => Ok(Val(v))
      case PerObjective(ts) => if |ts| == 1 then Ok(ts[0]) else Err(ShapeMismatch)
  }

  /** The scores of the unit weight vectors e_i, …, e_(nc-1); the first
      failing evaluation stops the loop. */
  function Scores(fit: seq<real> -> Result<FitResult>, nc: nat, i: nat): (r: Result<seq<Num>>)
    requires i <= nc
    ensures r.Ok? ==> |r.value| == nc - i
    decreases nc - i
  {
    if i == nc then Ok([])
    else
      match Score(fit(Unit(nc, i)))
      case Err(e) => Err(e)
      case Ok(f) =>
        match Scores(fit, nc, i + 1)
        case Err(e) => Err(e)
        case Ok(rest) => Ok([f] + rest)
  }

  /** The first index holding NaN. */
  function FirstNaN(fs: seq<Num>): (k: nat)
    requires exists j :: 0 <= j < |fs| && fs[j].NaN?
    ensures k < |fs| && fs[k].NaN? && forall j :: 0 <= j < k ==> fs[j].Val?
  {
    if fs[0].NaN? then 0
    else
      assert exists j :: 0 <= j < |fs[1..]| && fs[1..][j].NaN? by {
        var j :| 0 <= j < |fs| && fs[j].NaN?;
        assert fs[1..][j - 1] == fs[j];
      }
      1 + FirstNaN(fs[1..])
  }

  /** The first index of the least value of a NaN-free list. */
  function FirstMin(fs: seq<Num>): (k: nat)
    requires |fs| > 0 && forall j :: 0 <= j < |fs| ==> fs[j].Val?
    ensures k < |fs|
    ensures forall j :: 0 <= j < |fs| ==> fs[k].v <= fs[j].v
    ensures forall j :: 0 <= j < k ==> fs[k].v < fs[j].v
  {
    if |fs| == 1 then 0
    else
      var k := FirstMin(fs[..|fs| - 1]);
      if fs[|fs| - 1].v < fs[k].v then |fs| - 1 else k
  }

  /** `Fs.argmin()`: numpy returns the first NaN if there is one, else the
      first minimum. */
  function ArgMin(fs: seq<Num>): (k: nat)
    requires |fs| > 0
    ensures k < |fs|
    ensures (exists j :: 0 <= j < |fs| && fs[j].NaN?) ==> fs[k].NaN? && forall j :: 0 <= j < k ==> fs[j].Val?
    ensures (forall j :: 0 <= j < |fs| ==> fs[j].Val?) ==>
      fs[k].Val? && (forall j :: 0 <= j < |fs| ==> fs[k].v <= fs[j].v) && (forall j :: 0 <= j < k ==> fs[k].v < fs[j].v)
  {
    if exists j :: 0 <= j < |fs| && fs[j].NaN? then FirstNaN(fs) else FirstMin(fs)
  }

  /** `gamma`, the offset added to the best unit vector. */
  const Gamma := 0.01

  /** The start point of the minimiser: unit vector k, the best-scoring one,
      with gamma added to every entry (:807). */
  function Seed(nc: nat, k: nat): (x0: seq<real>)
    ensures |x0| == nc
    ensures forall j :: 0 <= j < nc ==> x0[j] == (if j == k then 1.0 + Gamma else Gamma)
  {
    var u := Unit(nc, k);
    seq(nc, j requires 0 <= j < nc => u[j] + Gamma)
  }

  /** The minimiser (scipy.optimize.minimize with the configured method): a
      function of the objective and the start point that returns a point of
      the same dimension.  Which point it finds is not modelled. */
  type Minimizer = m: (seq<real> -> Result<FitResult>, seq<real>) -> seq<real> | forall f, x :: |m(f, x)| == |x|
    witness (f: seq<real> -> Result<FitResult>, x: seq<real>) => x

  // ---------------------------------------------------------------------
  // Fluxes of the components

  /** A row of `M_final = x_final[:, None] * M3`: the triangle's fluxes
      scaled by its weight. */
  function Scaled(k: Mixture, xc: real): Mixture
  {
    Mixture(k.combo, xc * k.m0, xc * k.m1, xc * k.m2)
  }

  /** Σ over the positions p of the row with combos[c][p] == i of its flux. */
  function Part(k: Mixture, i: nat): real
  {
    (if k.combo.a == i then k.m0 else 0.0)
      + (if k.combo.b == i then k.m1 else 0.0)
      + (if k.combo.c == i then k.m2 else 0.0)
  }

  /** The flux of component i: the sum, over the triangles that contain it,
      of the triangle's weight times its flux for i (:823). */
  function FluxOf(ks: seq<Mixture>, x: seq<real>, i: nat): real
    requires |x| == |ks|
  {
    if |ks| == 0 then 0.0 else Part(Scaled(ks[0], x[0]), i) + FluxOf(ks[1..], x[1..], i)
  }

  /** The flux vector M over the n components. */
  function FluxesOf(ks: seq<Mixture>, x: seq<real>, n: nat): (m: seq<real>)
    requires |x| == |ks|
    ensures |m| == n
  {
    seq(n, i requires 0 <= i < n => FluxOf(ks, x, i))
  }

  // ---------------------------------------------------------------------
  // The optimizer

  /** M, spd_opt and obj_vals. */
  datatype TriangleOut = TriangleOut(fluxes: seq<real>, spd: Spectra, objVals: seq<Num>)

  /** component_triangle_optimizer.  The component spectra come without
      their wavelength row (it is `s.wl`); `yxyi` None stands for the
      default, whose branch refers to an undefined name. */
  function TriangleSpec(s: Spectra, yxyi: Option<seq<Yxy>>, t: Yxy, o: Objectives,
                        round: RoundFn, sqrt: SqrtFn, minimize: Minimizer): (r: Result<TriangleOut>)
    requires s.Shaped()
    ensures yxyi.None? ==> r == Err(UndefinedName)
    ensures yxyi.Some? && (|s.rows| < 3 || |yxyi.value| < |s.rows|) ==> r == Err(IndexOutOfRange)
    ensures r.Ok? ==> |r.value.fluxes| == |s.rows|
  {
    if yxyi.None? then Err(UndefinedName)
    else
      var n, yxy := |s.rows|, yxyi.value;
      if n < 3 || |yxy| < n then Err(IndexOutOfRange)
      else
        Weigh(s, Triangles(n, t, yxy), o, round, sqrt, minimize)
  }

  /** The in-gamut triangles of the first n colours, with their fluxes. */
  function Triangles(n: nat, t: Yxy, yxy: seq<Yxy>): (ks: seq<Mixture>)
    requires n <= |yxy|
    ensures Within(ks, n)
  {
    KeptWithin(n, t, yxy);
    var cs := Combos(n);
    Kept(cs, AllFluxes(t, yxy, cs))
  }

  /** The optimizer once the triangles are known.  With fewer than two
      triangles the code skips the minimiser and then fails: the flux loop
      indexes past the single row of `x_final[:, None] * M3`, and with none
      at all `fit_fcn` was never defined. */
  function Weigh(s: Spectra, ks: seq<Mixture>, o: Objectives,
                 round: RoundFn, sqrt: SqrtFn, minimize: Minimizer): (r: Result<TriangleOut>)
    requires s.Shaped() && Within(ks, |s.rows|)
    ensures |ks| == 0 ==> r == Err(UndefinedName)
    ensures |ks| == 1 ==> r == Err(IndexOutOfRange)
    ensures r.Ok? ==> |ks| >= 2 && |r.value.fluxes| == |s.rows|
  {
    var nc := |ks|;
    if nc == 0 then Err(UndefinedName)
    else if nc == 1 then Err(IndexOutOfRange)
    else
      var fit := FitFor(o, RgbSpectra(ks, s), round, sqrt);
      match Scores(fit, nc, 0)
      case Err(e) => Err(e)
      case Ok(fs) =>
        var x := AbsAll(minimize(fit, Seed(nc, ArgMin(fs))));
        match fit(x)
        case Err(e) => Err(e)
        case Ok(fr) => Ok(TriangleOut(FluxesOf(ks, x, |s.rows|), fr.spd, fr.objVals))
  }

  /** Scores already computed, followed by the remaining ones. */
  function Glue(fs: seq<Num>, r: Result<seq<Num>>): Result<seq<Num>>
  {
    match r
    case Err(e) => Err(e)
    case Ok(rest) => Ok(fs + rest)
  }

  /** component_triangle_optimizer as the code runs it: the three loops
      fill `spds_rgb`, `Fs` and `M`. */
  method TriangleOptimizer(s: Spectra, yxyi: Option<seq<Yxy>>, t: Yxy, o: Objectives,
                           round: RoundFn, sqrt: SqrtFn, minimize: Minimizer) returns (r: Result<TriangleOut>)
    requires s.Shaped()
    ensures r == TriangleSpec(s, yxyi, t, o, round, sqrt, minimize)
  {
    if yxyi.None? { return Err(UndefinedName); }
    var n, yxy := |s.rows|, yxyi.value;
    if n < 3 || |yxy| < n { return Err(IndexOutOfRange); }
    var ks := Triangles(n, t, yxy);
    var nc := |ks|;
    var rgb := RgbLoop(ks, s);
    if nc == 0 { return Err(UndefinedName); }
    if nc == 1 { return Err(IndexOutOfRange); }
    var fs := ScoreLoop(o, rgb, round, sqrt, nc);
    if fs.Err? { return Err(fs.error); }
    var x := AbsAll(minimize(FitFor(o, rgb, round, sqrt), Seed(nc, ArgMin(fs.value))));
    var fluxes := FluxLoop(ks, x, n);
    var res := FitnessFcn(o, Build(rgb), round, sqrt, x);
    if res.Err? { return Err(res.error); }
    r := Ok(TriangleOut(fluxes, res.value.spd, res.value.objVals));
  }

  /** The loop that fills spds_rgb: row i is the spectrum of triangle i's three
      components mixed at its color3mixer fluxes (:782-784). */
  method RgbLoop(ks: seq<Mixture>, s: Spectra) returns (rgb: Spectra)
    requires s.Shaped() && Within(ks, |s.rows|)
    ensures rgb == RgbSpectra(ks, s)
  {
    var rows: seq<Curve> := [];
    var i := 0;
    while i < |ks|
      invariant 0 <= i <= |ks| && |rows| == i
      invariant forall k :: 0 <= k < i ==> rows[k] == RgbRow(ks[k], s)
    {
      rows := rows + [RgbRow(ks[i], s)];
      i := i + 1;
    }
    rgb := Spectra(s.wl, rows);
  }

  /** The scoring loop: each unit weight vector, one per kept triangle, is
      scored by the fitness function in turn, and the first error stops it (:805-806). */
  method ScoreLoop(o: Objectives, rgb: Spectra, round: RoundFn, sqrt: SqrtFn, nc: nat) returns (r: Result<seq<Num>>)
    requires rgb.Shaped()
    ensures r == Scores(FitFor(o, rgb, round, sqrt), nc, 0)
  {
    ghost var fit := FitFor(o, rgb, round, sqrt);
    var fs: seq<Num> := [];
    match Scores(fit, nc, 0) {
      case Err(_) =>
      case Ok(all) => assert [] + all == all;
    }
    var i := 0;
    while i < nc
      invariant 0 <= i <= nc
      invariant Scores(fit, nc, 0) == Glue(fs, Scores(fit, nc, i))
    {
      var res := FitnessFcn(o, Build(rgb), round, sqrt, Unit(nc, i));
      assert res == fit(Unit(nc, i));
      match Score(res) {
        case Err(e) =>
          return Err(e);
        case Ok(f) =>
          match Scores(fit, nc, i + 1) {
            case Err(_) =>
            case Ok(rest) => assert fs + ([f] + rest) == (fs + [f]) + rest;
          }
          fs := fs + [f];
      }
      i := i + 1;
    }
    assert fs + [] == fs;
    r := Ok(fs);
  }

  /** The loop that maps triangle weights back to components: component i
      gets the sum of weight times flux over the triangles that contain it (:820-823). */
  method FluxLoop(ks: seq<Mixture>, x: seq<real>, n: nat) returns (m: seq<real>)
    requires |x| == |ks|
    ensures m == FluxesOf(ks, x, n)
  {
    m := [];
    var i := 0;
    while i < n
      invariant 0 <= i <= n && |m| == i
      invariant forall k :: 0 <= k < i ==> m[k] == FluxOf(ks, x, k)
    {
      m := m + [FluxOf(ks, x, i)];
      i := i + 1;
    }
  }

  // ---------------------------------------------------------------------
  // Properties of the fluxes

  /** Every flux of every mixture is non-negative. */
  predicate NonNegMixtures(ks: seq<Mixture>)
  {
    forall k :: 0 <= k < |ks| ==> ks[k].m0 >= 0.0 && ks[k].m1 >= 0.0 && ks[k].m2 >= 0.0
  }

  /** The gamut mask leaves only non-negative fluxes. */
  lemma KeptNonNeg(cs: seq<Combo>, m3: seq<seq<Num>>)
    requires |cs| == |m3|
    ensures NonNegMixtures(Kept(cs, m3))
  {
    var ks := Kept(cs, m3);
    KeptMembers(cs, m3);
    forall k | 0 <= k < |ks| ensures ks[k].m0 >= 0.0 && ks[k].m1 >= 0.0 && ks[k].m2 >= 0.0 {
      assert ks[k] in ks;
    }
  }

  lemma {:induction false} FluxOfNonNeg(ks: seq<Mixture>, x: seq<real>, i: nat)
    requires |x| == |ks| && NonNegMixtures(ks) && forall c :: 0 <= c < |x| ==> x[c] >= 0.0
    ensures FluxOf(ks, x, i) >= 0.0
  {
    if |ks| > 0 {
      var k := ks[0];
      assert k.m0 >= 0.0 && k.m1 >= 0.0 && k.m2 >= 0.0;
      MulNonNeg(x[0], k.m0);
      MulNonNeg(x[0], k.m1);
      MulNonNeg(x[0], k.m2);
      FluxOfNonNeg(ks[1..], x[1..], i);
    }
  }

  /** A component that is in no triangle receives no flux. */
  lemma {:induction false} FluxOfUnused(ks: seq<Mixture>, x: seq<real>, i: nat)
    requires |x| == |ks| && forall c :: 0 <= c < |ks| ==> !ks[c].combo.Has(i)
    ensures FluxOf(ks, x, i) == 0.0
  {
    if |ks| > 0 {
      assert !ks[0].combo.Has(i);
      FluxOfUnused(ks[1..], x[1..], i);
    }
  }

  /** The optimiser's weights are magnitudes, so with non-negative triangle
      fluxes every component flux is non-negative, and a component outside
      every triangle gets none. */
  lemma WeighFluxes(s: Spectra, ks: seq<Mixture>, o: Objectives, round: RoundFn, sqrt: SqrtFn, minimize: Minimizer)
    requires s.Shaped() && Within(ks, |s.rows|) && NonNegMixtures(ks)
    ensures var r := Weigh(s, ks, o, round, sqrt, minimize);
      r.Ok? ==> forall i :: 0 <= i < |s.rows| ==>
        r.value.fluxes[i] >= 0.0 &&
        ((forall c :: 0 <= c < |ks| ==> !ks[c].combo.Has(i)) ==> r.value.fluxes[i] == 0.0)
  {
    var r := Weigh(s, ks, o, round, sqrt, minimize);
    if r.Ok? {
      var nc := |ks|;
      var fit := FitFor(o, RgbSpectra(ks, s), round, sqrt);
      var fs := Scores(fit, nc, 0).value;
      var x := AbsAll(minimize(fit, Seed(nc, ArgMin(fs))));
      assert r.value.fluxes == FluxesOf(ks, x, |s.rows|);
      forall i | 0 <= i < |s.rows|
        ensures r.value.fluxes[i] >= 0.0
        ensures (forall c :: 0 <= c < |ks| ==> !ks[c].combo.Has(i)) ==> r.value.fluxes[i] == 0.0
      {
        FluxOfNonNeg(ks, x, i);
        if forall c :: 0 <= c < |ks| ==> !ks[c].combo.Has(i) {
          FluxOfUnused(ks, x, i);
        }
      }
    }
  }

  /** Component i lies in no triangle whose color3mixer fluxes are all
      non-negative. */
  ghost predicate OutOfEveryTriangle(t: Yxy, yxy: seq<Yxy>, n: nat, i: nat)
  {
    forall u: Combo :: u.Increasing(n) && u.Has(i) && u.c < |yxy| ==> !InGamut(Color3Mixer(t, yxy[u.a], yxy[u.b], yxy[u.c]))
  }

  /** The returned fluxes M are non-negative, and a component that belongs
      to no in-gamut triangle has flux 0. */
  lemma TriangleFluxes(s: Spectra, yxyi: Option<seq<Yxy>>, t: Yxy, o: Objectives, round: RoundFn, sqrt: SqrtFn, minimize: Minimizer)
    requires s.Shaped()
    ensures var r := TriangleSpec(s, yxyi, t, o, round, sqrt, minimize);
      r.Ok? ==> |r.value.fluxes| == |s.rows| && forall i :: 0 <= i < |s.rows| ==>
        r.value.fluxes[i] >= 0.0 && (OutOfEveryTriangle(t, yxyi.value, |s.rows|, i) ==> r.value.fluxes[i] == 0.0)
  {
    if yxyi.Some? && 3 <= |s.rows| <= |yxyi.value| {
      var n, yxy := |s.rows|, yxyi.value;
      var ks := Triangles(n, t, yxy);
      TrianglesNonNeg(n, t, yxy);
      WeighFluxes(s, ks, o, round, sqrt, minimize);
      forall i | 0 <= i < n && OutOfEveryTriangle(t, yxy, n, i)
        ensures forall c :: 0 <= c < |ks| ==> !ks[c].combo.Has(i)
      {
        TrianglesAvoid(n, t, yxy, i);
      }
    }
  }

  lemma TrianglesNonNeg(n: nat, t: Yxy, yxy: seq<Yxy>)
    requires n <= |yxy|
    ensures NonNegMixtures(Triangles(n, t, yxy))
  {
    CombosAddressable(n, yxy);
    KeptNonNeg(Combos(n), AllFluxes(t, yxy, Combos(n)));
  }

  /** A component outside every in-gamut triangle is in none of the kept ones. */
  lemma TrianglesAvoid(n: nat, t: Yxy, yxy: seq<Yxy>, i: nat)
    requires n <= |yxy| && OutOfEveryTriangle(t, yxy, n, i)
    ensures var ks := Triangles(n, t, yxy); forall c :: 0 <= c < |ks| ==> !ks[c].combo.Has(i)
  {
    CombosAddressable(n, yxy);
    var cs := Combos(n);
    var m3 := AllFluxes(t, yxy, cs);
    var ks := Kept(cs, m3);
    KeptMembers(cs, m3);
    CombosMembers(n);
    forall c | 0 <= c < |ks| ensures !ks[c].combo.Has(i) {
      assert ks[c] in ks;
      var j :| 0 <= j < |cs| && InGamut(m3[j]) && ks[c] == Keep(cs[j], m3[j]);
      assert cs[j] in cs;
    }
  }

  /** With fewer than two in-gamut triangles the optimizer fails, whatever
      the minimiser: the minimisation branch is never entered. */
  lemma FewTriangles(s: Spectra, yxyi: Option<seq<Yxy>>, t: Yxy, o: Objectives, round: RoundFn, sqrt: SqrtFn, minimize: Minimizer)
    requires s.Shaped() && yxyi.Some? && |s.rows| <= |yxyi.value|
    requires |Triangles(|s.rows|, t, yxyi.value)| <= 1
    ensures TriangleSpec(s, yxyi, t, o, round, sqrt, minimize).Err?
  {
  }

  // ---------------------------------------------------------------------
  // The optimised spectrum is the mix of the components at the fluxes M

  /** Element-wise sum. */
  function Plus(u: seq<real>, v: seq<real>): (w: seq<real>)
    requires |u| == |v|
    ensures |w| == |u| && forall k :: 0 <= k < |u| ==> w[k] == u[k] + v[k]
  {
    seq(|u|, k requires 0 <= k < |u| => u[k] + v[k])
  }

  lemma {:induction false} DotPlus(u: seq<real>, v: seq<real>, a: seq<real>)
    requires |u| == |v| == |a|
    ensures Dot(Plus(u, v), a) == Dot(u, a) + Dot(v, a)
    decreases |a|
  {
    if |a| > 0 {
      assert Plus(u, v)[1..] == Plus(u[1..], v[1..]);
      DotPlus(u[1..], v[1..], a[1..]);
      assert (u[0] + v[0]) * a[0] == u[0] * a[0] + v[0] * a[0];
    }
  }

  /** A vector that is `w` at position i and zero elsewhere picks w·a[i]. */
  lemma {:induction false} DotSpike(u: seq<real>, a: seq<real>, i: int, w: real)
    requires |u| == |a| && forall k :: 0 <= k < |u| ==> u[k] == if k == i then w else 0.0
    ensures Dot(u, a) == if 0 <= i < |a| then w * a[i] else 0.0
    decreases |a|
  {
    if |a| > 0 {
      DotSpike(u[1..], a[1..], i - 1, w);
    }
  }

  /** w at position i of an n-vector. */
  function Spike(n: nat, i: nat, w: real): (u: seq<real>)
    ensures |u| == n && forall k :: 0 <= k < n ==> u[k] == if k == i then w else 0.0
  {
    seq(n, k requires 0 <= k < n => if k == i then w else 0.0)
  }

  /** The contribution of one row of `M_final` to every component. */
  function PartVec(k: Mixture, n: nat): (u: seq<real>)
    ensures |u| == n && forall i :: 0 <= i < n ==> u[i] == Part(k, i)
  {
    seq(n, i requires 0 <= i < n => Part(k, i))
  }

  /** One triangle's sample at a wavelength: m0·col[a] + m1·col[b] + m2·col[c]. */
  function Mixed(k: Mixture, col: seq<real>): real
    requires k.combo.a < |col| && k.combo.b < |col| && k.combo.c < |col|
  {
    k.m0 * col[k.combo.a] + k.m1 * col[k.combo.b] + k.m2 * col[k.combo.c]
  }

  lemma DotPart(k: Mixture, col: seq<real>)
    requires k.combo.Increasing(|col|)
    ensures Dot(PartVec(k, |col|), col) == Mixed(k, col)
  {
    var n := |col|;
    PartSpikes(k, n);
    DotSpikes(PartVec(k, n), Spike(n, k.combo.a, k.m0), Spike(n, k.combo.b, k.m1), Spike(n, k.combo.c, k.m2),
              col, k.combo.a, k.combo.b, k.combo.c, k.m0, k.m1, k.m2);
  }

  /** The dot product of a sum of three spikes. */
  lemma DotSpikes(s: seq<real>, u: seq<real>, v: seq<real>, w: seq<real>, col: seq<real>,
                  a: nat, b: nat, c: nat, wa: real, wb: real, wc: real)
    requires a < |col| && b < |col| && c < |col|
    requires u == Spike(|col|, a, wa) && v == Spike(|col|, b, wb) && w == Spike(|col|, c, wc)
    requires s == Plus(Plus(u, v), w)
    ensures Dot(s, col) == wa * col[a] + wb * col[b] + wc * col[c]
  {
    DotSpike(u, col, a, wa);
    DotSpike(v, col, b, wb);
    DotSpike(w, col, c, wc);
    DotPlus(Plus(u, v), w, col);
    DotPlus(u, v, col);
  }

  /** Scaling a row scales its sample. */
  lemma MixedScale(k: Mixture, xc: real, col: seq<real>)
    requires k.combo.Increasing(|col|)
    ensures Mixed(Scaled(k, xc), col) == xc * Mixed(k, col)
  {
    Distribute(xc, k.m0, col[k.combo.a], k.m1, col[k.combo.b], k.m2, col[k.combo.c]);
  }

  lemma Distribute(x: real, m0: real, p: real, m1: real, q: real, m2: real, r: real)
    ensures x * m0 * p + x * m1 * q + x * m2 * r == x * (m0 * p + m1 * q + m2 * r)
  {
  }

  /** One row's contribution is the sum of three spikes. */
  lemma PartSpikes(k: Mixture, n: nat)
    ensures PartVec(k, n) == Plus(Plus(Spike(n, k.combo.a, k.m0), Spike(n, k.combo.b, k.m1)), Spike(n, k.combo.c, k.m2))
  {
    var u, v, w := Spike(n, k.combo.a, k.m0), Spike(n, k.combo.b, k.m1), Spike(n, k.combo.c, k.m2);
    var sum := Plus(Plus(u, v), w);
    forall i | 0 <= i < n ensures PartVec(k, n)[i] == sum[i] {
      assert sum[i] == u[i] + v[i] + w[i];
    }
  }

  /** The samples of the three-channel spectra at one wavelength. */
  function MixedColumn(ks: seq<Mixture>, col: seq<real>): (r: seq<real>)
    requires Within(ks, |col|)
    ensures |r| == |ks| && forall c :: 0 <= c < |ks| ==> r[c] == Mixed(ks[c], col)
  {
    seq(|ks|, c requires 0 <= c < |ks| => Mixed(ks[c], col))
  }

  lemma {:induction false} DotZeros(u: seq<real>, a: seq<real>)
    requires |u| == |a| && forall k :: 0 <= k < |u| ==> u[k] == 0.0
    ensures Dot(u, a) == 0.0
    decreases |a|
  {
    if |a| > 0 {
      DotZeros(u[1..], a[1..]);
    }
  }

  /** Σ_c x[c]·(three-channel sample c) == Σ_i M[i]·(component sample i):
      weighting the triangles by x is weighting the components by M. */
  lemma {:induction false} DotFluxes(ks: seq<Mixture>, x: seq<real>, col: seq<real>)
    requires |x| == |ks| && Within(ks, |col|)
    ensures Dot(x, MixedColumn(ks, col)) == Dot(FluxesOf(ks, x, |col|), col)
    decreases |ks|
  {
    var n := |col|;
    if |ks| == 0 {
      DotZeros(FluxesOf(ks, x, n), col);
    } else {
      assert Within(ks[1..], n) by {
        forall c | 0 <= c < |ks[1..]| ensures ks[1..][c].combo.Increasing(n) {
          assert ks[1..][c] == ks[c + 1];
        }
      }
      var head := x[0] * Mixed(ks[0], col);
      assert Dot(x, MixedColumn(ks, col)) == head + Dot(x[1..], MixedColumn(ks[1..], col)) by {
        assert MixedColumn(ks, col)[1..] == MixedColumn(ks[1..], col);
      }
      assert Dot(FluxesOf(ks, x, n), col) == head + Dot(FluxesOf(ks[1..], x[1..], n), col) by {
        FluxesHead(ks, x, col, FluxesOf(ks, x, n), FluxesOf(ks[1..], x[1..], n));
      }
      DotFluxes(ks[1..], x[1..], col);
    }
  }

  lemma FluxesHead(ks: seq<Mixture>, x: seq<real>, col: seq<real>, m: seq<real>, r: seq<real>)
    requires |x| == |ks| > 0 && ks[0].combo.Increasing(|col|)
    requires m == FluxesOf(ks, x, |col|) && r == FluxesOf(ks[1..], x[1..], |col|)
    ensures Dot(m, col) == x[0] * Mixed(ks[0], col) + Dot(r, col)
  {
    FluxesSplit(ks, x, |col|, m, r);
    HeadOf(m, ks[0], x[0], r, col);
  }

  /** HeadStep for a vector already known to split into the head's part and the rest. */
  lemma HeadOf(m: seq<real>, k: Mixture, xc: real, r: seq<real>, col: seq<real>)
    requires |r| == |col| && k.combo.Increasing(|col|) && m == Plus(PartVec(Scaled(k, xc), |col|), r)
    ensures Dot(m, col) == xc * Mixed(k, col) + Dot(r, col)
  {
    HeadStep(k, xc, r, col);
  }

  lemma HeadStep(k: Mixture, xc: real, r: seq<real>, col: seq<real>)
    requires |r| == |col| && k.combo.Increasing(|col|)
    ensures Dot(Plus(PartVec(Scaled(k, xc), |col|), r), col) == xc * Mixed(k, col) + Dot(r, col)
  {
    var s := Scaled(k, xc);
    var p := PartVec(s, |col|);
    assert Dot(Plus(p, r), col) == Dot(p, col) + Dot(r, col) by { DotPlus(p, r, col); }
    assert Dot(p, col) == Mixed(s, col) by { DotPart(s, col); }
    assert Mixed(s, col) == xc * Mixed(k, col) by { MixedScale(k, xc, col); }
  }

  /** M is the first triangle's contribution plus the rest's. */
  lemma FluxesSplit(ks: seq<Mixture>, x: seq<real>, n: nat, m: seq<real>, r: seq<real>)
    requires |x| == |ks| > 0 && m == FluxesOf(ks, x, n) && r == FluxesOf(ks[1..], x[1..], n)
    ensures m == Plus(PartVec(Scaled(ks[0], x[0]), n), r)
  {
    var p := Plus(PartVec(Scaled(ks[0], x[0]), n), r);
    forall i | 0 <= i < n ensures m[i] == p[i] {
      assert m[i] == FluxOf(ks, x, i);
    }
  }

  /** Every component spectrum is present. */
  ghost predicate AllRows(s: Spectra)
  {
    forall k :: 0 <= k < |s.rows| ==> s.rows[k].Some?
  }

  /** A three-channel spectrum samples as m0·a + m1·b + m2·c of its components. */
  lemma RgbSample(k: Mixture, s: Spectra, j: nat)
    requires s.Shaped() && AllRows(s) && k.combo.Increasing(|s.rows|) && j < |s.wl|
    ensures RgbRow(k, s).Some? && RgbRow(k, s).value[j] == Mixed(k, Column(s.rows, |s.wl|, j))
  {
    var w := [k.m0, k.m1, k.m2];
    var cs := [s.rows[k.combo.a], s.rows[k.combo.b], s.rows[k.combo.c]];
    var col := Column(cs, |s.wl|, j);
    assert RgbRow(k, s).value[j] == Dot(w, col);
    Dot3(k.m0, k.m1, k.m2, col);
  }

  lemma Dot3(a: real, b: real, c: real, u: seq<real>)
    requires |u| == 3
    ensures Dot([a, b, c], u) == a * u[0] + b * u[1] + c * u[2]
  {
    assert [a, b, c][1..] == [b, c] && [b, c][1..] == [c] && [c][1..] == [];
    assert Dot([c], u[2..]) == c * u[2];
  }

  /** The samples of spds_rgb at one wavelength are the triangles' mixes. */
  lemma RgbColumn(ks: seq<Mixture>, s: Spectra, j: nat)
    requires s.Shaped() && AllRows(s) && Within(ks, |s.rows|) && j < |s.wl|
    ensures AllRows(RgbSpectra(ks, s))
    ensures Column(RgbSpectra(ks, s).rows, |s.wl|, j) == MixedColumn(ks, Column(s.rows, |s.wl|, j))
  {
    var rgb := RgbSpectra(ks, s);
    forall c | 0 <= c < |ks| ensures rgb.rows[c].Some? && rgb.rows[c].value[j] == Mixed(ks[c], Column(s.rows, |s.wl|, j)) {
      RgbSample(ks[c], s, j);
    }
  }

  /** Mixing the three-channel spectra with weights x is mixing the
      components with the fluxes M. */
  lemma RgbMix(ks: seq<Mixture>, s: Spectra, x: seq<real>)
    requires s.Shaped() && AllRows(s) && Within(ks, |s.rows|) && |x| == |ks|
    ensures WeightedSum(x, RgbSpectra(ks, s).rows, |s.wl|) == WeightedSum(FluxesOf(ks, x, |s.rows|), s.rows, |s.wl|)
  {
    var rgb := RgbSpectra(ks, s);
    var width := |s.wl|;
    RgbColumnsAll(ks, s);
    var m := FluxesOf(ks, x, |s.rows|);
    var l := WeightedSum(x, rgb.rows, width).value;
    var r := WeightedSum(m, s.rows, width).value;
    forall j | 0 <= j < width ensures l[j] == r[j] {
      var col := Column(s.rows, width, j);
      RgbColumn(ks, s, j);
      DotFluxes(ks, x, col);
      assert l[j] == Dot(x, Column(rgb.rows, width, j));
      assert r[j] == Dot(m, col);
    }
    assert l == r;
  }

  lemma RgbColumnsAll(ks: seq<Mixture>, s: Spectra)
    requires s.Shaped() && AllRows(s) && Within(ks, |s.rows|)
    ensures AllRows(RgbSpectra(ks, s))
  {
    var rgb := RgbSpectra(ks, s);
    forall c | 0 <= c < |ks| ensures rgb.rows[c].Some? {
      if |s.wl| > 0 {
        RgbSample(ks[c], s, 0);
      } else {
        assert rgb.rows[c] == RgbRow(ks[c], s);
      }
    }
  }

  /** The spectrum the triangle optimizer returns is Σ_i M[i]·spds[i+1]. */
  lemma WeighSpectrum(s: Spectra, ks: seq<Mixture>, o: Objectives, round: RoundFn, sqrt: SqrtFn, minimize: Minimizer)
    requires s.Shaped() && AllRows(s) && Within(ks, |s.rows|)
    ensures var r := Weigh(s, ks, o, round, sqrt, minimize);
      r.Ok? ==> r.value.spd == Spectra(s.wl, [WeightedSum(r.value.fluxes, s.rows, |s.wl|)])
  {
    var r := Weigh(s, ks, o, round, sqrt, minimize);
    if r.Ok? {
      var nc := |ks|;
      var rgb := RgbSpectra(ks, s);
      var fit := FitFor(o, rgb, round, sqrt);
      var fs := Scores(fit, nc, 0).value;
      var x := AbsAll(minimize(fit, Seed(nc, ArgMin(fs))));
      assert AbsAll(x) == x;
      var spd := WSummedSpd(x, rgb);
      assert spd == Ok(Spectra(s.wl, [WeightedSum(x, rgb.rows, |s.wl|)]));
      assert fit(x) == Evaluate(o, spd.value, round, sqrt);
      assert r.value.spd == spd.value;
      RgbMix(ks, s, x);
    }
  }

  lemma TriangleSpectrum(s: Spectra, yxyi: Option<seq<Yxy>>, t: Yxy, o: Objectives, round: RoundFn, sqrt: SqrtFn, minimize: Minimizer)
    requires s.Shaped() && AllRows(s)
    ensures var r := TriangleSpec(s, yxyi, t, o, round, sqrt, minimize);
      r.Ok? ==> r.value.spd == Spectra(s.wl, [WeightedSum(r.value.fluxes, s.rows, |s.wl|)])
  {
    if yxyi.Some? && 3 <= |s.rows| <= |yxyi.value| {
      WeighSpectrum(s, Triangles(|s.rows|, t, yxyi.value), o, round, sqrt, minimize);
    }
  }
}
