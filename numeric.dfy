/** Value types shared by the spectrum builder and the flux solvers: floats that
    may be NaN, chromaticities and tristimulus values, spectrum rows, and the
    numeric primitives (exp, sqrt, rounding) that numpy supplies. */
module Numeric {

  datatype Option<T> = None | Some(value: T)

  /** A float that may be numpy's NaN.  Comparisons follow numpy: every
      comparison with NaN is false. */
  datatype Num = Val(v: real) | NaN {
    /** numpy's `x < 0` */
    predicate IsNeg() { Val? && v < 0.0 }
    /** numpy's `x >= 0` */
    predicate IsNonNeg() { Val? && v >= 0.0 }
  }

  /** The exceptions the library raises (explicitly or through Python/numpy). */
  datatype Error =
    | TooFewComponents   // "Not enough component spectra" / "At least 3 component spds are required"
    | ModeNotSupported   // optimizer_type = '3mixer' with component-parameter optimisation
    | NotImplemented     // optimizer_type 'mixer' or 'search'
    | UndefinedName      // Python NameError
    | IndexOutOfRange    // Python/numpy IndexError
    | ShapeMismatch      // numpy ValueError: incompatible shapes, or a maximum of an empty array

  datatype Result<T> = Ok(value: T) | Err(error: Error)

  /** Luminance Y with chromaticity coordinates x, y. */
  datatype Yxy = Yxy(Y: real, x: real, y: real)

  /** CIE tristimulus values. */
  datatype Xyz = Xyz(X: real, Y: real, Z: real)

  /** Tristimulus values of a luminance/chromaticity triple: Y/y times the
      chromaticity direction, i.e. X = x·Y/y and Z = (1-x-y)·Y/y. */
  function ToXyz(c: Yxy): (t: Xyz)
    requires c.y != 0.0
    ensures t.Y == c.Y
  {
    Scale(Quot(c.Y, c.y), Direction(c))
  }

  /** The chromaticity direction (x, y, 1-x-y) of a colour. */
  function Direction(c: Yxy): Xyz { Xyz(c.x, c.y, 1.0 - c.x - c.y) }

  function Add(a: Xyz, b: Xyz): Xyz { Xyz(a.X + b.X, a.Y + b.Y, a.Z + b.Z) }

  function Scale(k: real, a: Xyz): Xyz { Xyz(k * a.X, k * a.Y, k * a.Z) }

  const Zero := Xyz(0.0, 0.0, 0.0)

  /** One spectrum row over the wavelength grid; None is a row numpy fills with NaN. */
  type Curve = Option<seq<real>>

  /** An spd array as luxpy stores it: the wavelength row followed by one row
      per spectrum. */
  datatype Spectra = Spectra(wl: seq<real>, rows: seq<Curve>) {
    ghost predicate Shaped() { Widths(rows, |wl|) }
  }

  /** A wavelength grid: numpy's row maxima are taken over it, so it is never empty. */
  type Grid = s: seq<real> | |s| > 0 witness [0.0]

  /** np.exp on the non-positive arguments the emitter models use:
      a value in (0,1], equal to 1 exactly at 0. */
  type ExpFn = f: real -> real | forall t :: t <= 0.0 ==> 0.0 < f(t) <= 1.0 && (f(t) == 1.0 <==> t == 0.0)
    witness (t: real) => if t == 0.0 then 1.0 else 0.5

  /** np.sqrt on non-negative arguments: non-negative and zero exactly at zero. */
  type SqrtFn = f: real -> real | forall x :: x >= 0.0 ==> f(x) >= 0.0 && (f(x) == 0.0 <==> x == 0.0)
    witness (x: real) => x

  /** np.round(value, decimals): left uninterpreted. */
  type RoundFn = (real, int) -> real

  function Sq(x: real): real { x * x }

  /** Real division, with the identity that characterises it. */
  function Quot(a: real, m: real): (q: real)
    requires m != 0.0
    ensures q * m == a
  {
    a / m
  }

  function Abs(x: real): (r: real)
    ensures r >= 0.0 && (r == x || r == -x)
  {
    if x < 0.0 then -x else x
  }

  /** numpy's `max` of a non-empty row. */
  function Max(s: seq<real>): (m: real)
    requires |s| > 0
    ensures m in s
    ensures forall j :: 0 <= j < |s| ==> s[j] <= m
  {
    if |s| == 1 then s[0]
    else
      var rest := Max(s[1..]);
      if s[0] >= rest then s[0] else rest
  }

  /** `row / row.max()`: a zero maximum makes numpy produce NaN/inf, modelled
      as a NaN row. */
  function Normalize(s: seq<real>): (c: Curve)
    requires |s| > 0
    ensures c.None? <==> Max(s) == 0.0
    ensures c.Some? ==> |c.value| == |s| && forall j :: 0 <= j < |s| ==> c.value[j] == Quot(s[j], Max(s))
  {
    var m := Max(s);
    if m == 0.0 then None else Some(Divide(s, m))
  }

  /** Every sample divided by m. */
  function Divide(s: seq<real>, m: real): (r: seq<real>)
    requires m != 0.0
    ensures |r| == |s| && forall j :: 0 <= j < |s| ==> r[j] == Quot(s[j], m)
  {
    seq(|s|, j requires 0 <= j < |s| => Quot(s[j], m))
  }

  /** 0 <= a <= m gives 0 <= q <= 1 for the quotient q with q·m = a, with
      q = 1 exactly when a = m and q > 0 when a > 0. */
  lemma QuotientRange(q: real, a: real, m: real)
    requires m > 0.0 && 0.0 <= a <= m && q * m == a
    ensures 0.0 <= q <= 1.0 && (q == 1.0 <==> a == m) && (a > 0.0 ==> q > 0.0)
  {
  }

  /** A row of positive samples normalises to values in (0,1] whose maximum is 1. */
  lemma NormalizePositive(s: seq<real>)
    requires |s| > 0
    requires forall j :: 0 <= j < |s| ==> s[j] > 0.0
    ensures Normalize(s).Some?
    ensures forall j :: 0 <= j < |s| ==> 0.0 < Normalize(s).value[j] <= 1.0
    ensures Max(Normalize(s).value) == 1.0
  {
    NormalizeInUnit(s);
    var m := Max(s);
    var k :| 0 <= k < |s| && s[k] == m;
    var qk := Quot(s[k], m);
    QuotientRange(qk, s[k], m);
    MaxIs(Normalize(s).value, k, 1.0);
  }

  lemma NormalizeInUnit(s: seq<real>)
    requires |s| > 0
    requires forall j :: 0 <= j < |s| ==> s[j] > 0.0
    ensures Normalize(s).Some?
    ensures forall j :: 0 <= j < |s| ==> 0.0 < Normalize(s).value[j] <= 1.0
  {
    var m := Max(s);
    assert m >= s[0] > 0.0;
    var c := Normalize(s).value;
    QuotientsInUnit(s, m, c);
  }

  /** Positive samples divided by a maximum m lie in (0,1]. */
  lemma QuotientsInUnit(s: seq<real>, m: real, c: seq<real>)
    requires m > 0.0 && |s| == |c|
    requires forall j :: 0 <= j < |s| ==> 0.0 < s[j] <= m && c[j] == Quot(s[j], m)
    ensures forall j :: 0 <= j < |c| ==> 0.0 < c[j] <= 1.0
  {
    forall j | 0 <= j < |s| ensures 0.0 < c[j] <= 1.0 {
      QuotientPositive(Quot(s[j], m), s[j], m);
    }
  }

  lemma QuotientPositive(q: real, a: real, m: real)
    requires m > 0.0 && 0.0 < a <= m && q * m == a
    ensures 0.0 < q <= 1.0
  {
    QuotientRange(q, a, m);
  }

  /** A sample that bounds all others is the maximum. */
  lemma MaxIs(s: seq<real>, k: nat, v: real)
    requires k < |s| && s[k] == v && forall j :: 0 <= j < |s| ==> s[j] <= v
    ensures Max(s) == v
  {
    var i :| 0 <= i < |s| && s[i] == Max(s);
  }

  /** What dividing a row by its maximum leaves: a 1 where the maximum was,
      and 1 as the largest sample (a positive maximum) or as the smallest
      (a negative one). */
  predicate MaxNormalized(c: seq<real>)
  {
    1.0 in c && ((forall j :: 0 <= j < |c| ==> c[j] <= 1.0) || (forall j :: 0 <= j < |c| ==> c[j] >= 1.0))
  }

  lemma NormalizeHitsOne(s: seq<real>)
    requires |s| > 0 && Normalize(s).Some?
    ensures MaxNormalized(Normalize(s).value)
    ensures Max(s) > 0.0 ==> Max(Normalize(s).value) == 1.0
  {
    DividedByMax(s, Max(s), Normalize(s).value);
  }

  /** The same for any row c holding the samples of s divided by m = Max(s). */
  lemma DividedByMax(s: seq<real>, m: real, c: seq<real>)
    requires |s| > 0 && m == Max(s) && m != 0.0 && |c| == |s|
    requires forall j :: 0 <= j < |s| ==> c[j] == Quot(s[j], m)
    ensures MaxNormalized(c)
    ensures m > 0.0 ==> Max(c) == 1.0
  {
    var k :| 0 <= k < |s| && s[k] == m;
    QuotientSides(s, m, c, k);
    if m > 0.0 {
      MaxIs(c, k, 1.0);
    }
  }

  /** The samples of s divided by its maximum m, against 1. */
  lemma QuotientSides(s: seq<real>, m: real, c: seq<real>, k: nat)
    requires m != 0.0 && k < |s| == |c| && s[k] == m
    requires forall j :: 0 <= j < |s| ==> s[j] <= m
    requires forall j :: 0 <= j < |s| ==> c[j] == Quot(s[j], m)
    ensures c[k] == 1.0
    ensures m > 0.0 ==> forall j :: 0 <= j < |c| ==> c[j] <= 1.0
    ensures m < 0.0 ==> forall j :: 0 <= j < |c| ==> c[j] >= 1.0
  {
    QuotientSelf(Quot(s[k], m), m);
    forall j | 0 <= j < |s| ensures m > 0.0 ==> c[j] <= 1.0 {
      if m > 0.0 { QuotientBelow(Quot(s[j], m), s[j], m); }
    }
    forall j | 0 <= j < |s| ensures m < 0.0 ==> c[j] >= 1.0 {
      if m < 0.0 { QuotientAbove(Quot(s[j], m), s[j], m); }
    }
  }

  lemma QuotientSelf(q: real, m: real)
    requires m != 0.0 && q * m == m
    ensures q == 1.0
  {
    ZeroProduct(q - 1.0, m);
  }

  lemma QuotientBelow(q: real, a: real, m: real)
    requires m > 0.0 && a <= m && q * m == a
    ensures q <= 1.0
  {
  }

  lemma QuotientAbove(q: real, a: real, m: real)
    requires m < 0.0 && a <= m && q * m == a
    ensures q >= 1.0
  {
  }

  /** Normalising an already normalised positive row changes nothing. */
  lemma NormalizeIdempotent(s: seq<real>)
    requires |s| > 0
    requires forall j :: 0 <= j < |s| ==> s[j] > 0.0
    ensures Normalize(Normalize(s).value) == Normalize(s)
  {
    NormalizePositive(s);
    var c := Normalize(s).value;
    var d := Normalize(c).value;
    assert |d| == |c|;
    forall j | 0 <= j < |c| ensures d[j] == c[j] {
      assert d[j] * 1.0 == c[j];
    }
    assert d == c;
  }

  /** Normalising by the row maximum cancels any positive scale of the row. */
  lemma NormalizeScaleInvariant(s: seq<real>, d: real)
    requires |s| > 0 && d > 0.0
    ensures Normalize(Divide(s, d)) == Normalize(s)
  {
    var m := Max(s);
    var t := Divide(s, d);
    MaxDivide(s, d);
    if m == 0.0 {
      QuotZero(d);
    } else {
      QuotCancel(0.0, m, d);
      var a := Normalize(t).value;
      var b := Normalize(s).value;
      forall j | 0 <= j < |s| ensures a[j] == b[j] {
        assert a[j] == Quot(t[j], Quot(m, d));
        assert t[j] == Quot(s[j], d);
        QuotCancel(s[j], m, d);
      }
      assert a == b;
    }
  }

  lemma QuotZero(d: real)
    requires d != 0.0
    ensures Quot(0.0, d) == 0.0
  {
  }

  lemma MaxDivide(s: seq<real>, d: real)
    requires |s| > 0 && d > 0.0
    ensures Max(Divide(s, d)) == Quot(Max(s), d)
  {
    var m := Max(s);
    var k :| 0 <= k < |s| && s[k] == m;
    var t := Divide(s, d);
    forall j | 0 <= j < |s| ensures t[j] <= Quot(m, d) {
      QuotMonotone(s[j], m, d);
    }
    MaxIs(t, k, Quot(m, d));
  }

  lemma QuotMonotone(a: real, b: real, d: real)
    requires d > 0.0 && a <= b
    ensures Quot(a, d) <= Quot(b, d)
  {
    var x := Quot(a, d);
    var y := Quot(b, d);
    assert (y - x) * d == b - a;
  }

  lemma QuotCancel(a: real, m: real, d: real)
    requires m != 0.0 && d > 0.0
    ensures Quot(m, d) != 0.0
    ensures Quot(Quot(a, d), Quot(m, d)) == Quot(a, m)
  {
    var md := Quot(m, d);
    var ad := Quot(a, d);
    var x := Quot(ad, md);
    assert x * md * d == a;
    assert x * m == a;
    assert (x - Quot(a, m)) * m == 0.0;
  }

  /** A product of reals is zero exactly when a factor is. */
  lemma ZeroProduct(u: real, v: real)
    ensures u * v == 0.0 <==> u == 0.0 || v == 0.0
  {
  }

  /** Σ a[i]·b[i]. */
  function Dot(a: seq<real>, b: seq<real>): real
    requires |a| == |b|
    decreases |a|
  {
    if |a| == 0 then 0.0 else a[0] * b[0] + Dot(a[1..], b[1..])
  }

  lemma {:induction false} DotNonNeg(a: seq<real>, b: seq<real>)
    requires |a| == |b|
    requires forall i :: 0 <= i < |a| ==> a[i] >= 0.0 && b[i] >= 0.0
    ensures Dot(a, b) >= 0.0
  {
    if |a| > 0 {
      DotNonNeg(a[1..], b[1..]);
      assert a[0] * b[0] >= 0.0;
    }
  }

  /** Every curve of the list has the given width (NaN rows aside). */
  ghost predicate Widths(cs: seq<Curve>, width: nat)
  {
    forall k :: 0 <= k < |cs| && cs[k].Some? ==> |cs[k].value| == width
  }

  /** numpy's `np.dot(w, rows)`: at each wavelength Σ w[k]·rows[k]; a NaN row
      makes the whole sum NaN (even with weight 0, as 0·NaN is NaN). */
  function WeightedSum(w: seq<real>, cs: seq<Curve>, width: nat): (c: Curve)
    requires |w| == |cs| && Widths(cs, width)
    ensures c.Some? <==> forall k :: 0 <= k < |cs| ==> cs[k].Some?
    ensures c.Some? ==> |c.value| == width
  {
    if exists k :: 0 <= k < |cs| && cs[k].None? then None
    else Some(seq(width, j requires 0 <= j < width => Dot(w, Column(cs, width, j))))
  }

  /** The samples of every curve at wavelength j. */
  function Column(cs: seq<Curve>, width: nat, j: nat): (col: seq<real>)
    requires j < width && Widths(cs, width) && forall k :: 0 <= k < |cs| ==> cs[k].Some?
    ensures |col| == |cs| && forall k :: 0 <= k < |cs| ==> col[k] == cs[k].value[j]
  {
    seq(|cs|, k requires 0 <= k < |cs| => cs[k].value[j])
  }

  /** Non-negative weights of non-negative rows give a non-negative sum. */
  lemma WeightedSumNonNeg(w: seq<real>, cs: seq<Curve>, width: nat)
    requires |w| == |cs| && Widths(cs, width)
    requires forall k :: 0 <= k < |w| ==> w[k] >= 0.0
    requires forall k :: 0 <= k < |cs| ==> cs[k].Some? && forall j :: 0 <= j < |cs[k].value| ==> cs[k].value[j] >= 0.0
    ensures WeightedSum(w, cs, width).Some?
    ensures forall j :: 0 <= j < width ==> WeightedSum(w, cs, width).value[j] >= 0.0
  {
    var c := WeightedSum(w, cs, width).value;
    forall j | 0 <= j < width ensures c[j] >= 0.0 {
      DotNonNeg(w, Column(cs, width, j));
    }
  }

  /** The same sum with weights that may be NaN: a NaN weight makes the sum NaN. */
  function WeightedSumNum(w: seq<Num>, cs: seq<Curve>, width: nat): (c: Curve)
    requires |w| == |cs| && Widths(cs, width)
    ensures c.Some? <==> (forall k :: 0 <= k < |w| ==> w[k].Val?) && (forall k :: 0 <= k < |cs| ==> cs[k].Some?)
    ensures c.Some? ==> |c.value| == width
  {
    if exists k :: 0 <= k < |w| && w[k].NaN? then None
    else WeightedSum(Values(w), cs, width)
  }

  /** The flux values of a result row, with 0 in place of NaN. */
  function Values(m: seq<Num>): (w: seq<real>)
    ensures |w| == |m| && forall i :: 0 <= i < |m| && m[i].Val? ==> w[i] == m[i].v
  {
    seq(|m|, i requires 0 <= i < |m| => if m[i].Val? then m[i].v else 0.0)
  }

}
