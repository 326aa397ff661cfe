/** colormixer: fluxes of N > 3 sources for one target.  Sources are merged
    pairwise, at the given ratios, into virtual sources until three remain;
    color3mixer solves those three, and the fluxes are propagated back down
    the merge tree to the original sources. */
module ColorMixing {
  import opened Numeric
  import opened Mixer

  // ---------------------------------------------------------------------
  // numpy helpers on index lists

  /** np.arange(lo, hi). */
  function Range(lo: int, hi: int): (s: seq<int>)
    requires lo <= hi
    ensures |s| == hi - lo && forall i :: 0 <= i < |s| ==> s[i] == lo + i
  {
    seq(hi - lo, i requires 0 <= i < hi - lo => lo + i)
  }

  predicate StrictlyIncreasing(s: seq<int>)
  {
    forall i, j :: 0 <= i < j < |s| ==> s[i] < s[j]
  }

  /** Inserts x into an ascending list of distinct values, keeping it so. */
  function Insert(x: int, s: seq<int>): seq<int>
  {
    if s == [] then [x]
    else if x < s[0] then [x] + s
    else if x == s[0] then s
    else [s[0]] + Insert(x, s[1..])
  }

  /** np.unique: the distinct values, ascending. */
  function Unique(s: seq<int>): seq<int>
  {
    if s == [] then [] else Insert(s[|s| - 1], Unique(s[..|s| - 1]))
  }

  /** The values of a that are not in b, in the order of a. */
  function Without(a: seq<int>, b: seq<int>): seq<int>
  {
    if a == [] then []
    else (if a[0] in b then [] else [a[0]]) + Without(a[1..], b)
  }

  /** np.setdiff1d(a, b): the distinct values of a not in b, ascending. */
  function SetDiff1d(a: seq<int>, b: seq<int>): seq<int>
  {
    Unique(Without(a, b))
  }

  lemma {:induction false} InsertSorted(x: int, s: seq<int>)
    requires StrictlyIncreasing(s)
    ensures StrictlyIncreasing(Insert(x, s))
    ensures forall y :: y in Insert(x, s) <==> y == x || y in s
  {
    if s == [] {
    } else if x < s[0] {
      forall y | y in s ensures x < y {
        AscendingHead(s, y);
      }
      ConsSorted(x, s);
    } else if x > s[0] {
      AscendingTail(s);
      InsertSorted(x, s[1..]);
      forall y | y in Insert(x, s[1..]) ensures s[0] < y {
        if y != x {
          AscendingHead(s, y);
        }
      }
      ConsSorted(s[0], Insert(x, s[1..]));
      assert s == [s[0]] + s[1..];
    }
  }

  /** A value below every member of an ascending list can go in front. */
  lemma ConsSorted(a: int, u: seq<int>)
    requires StrictlyIncreasing(u) && forall y :: y in u ==> a < y
    ensures StrictlyIncreasing([a] + u)
    ensures forall y :: y in [a] + u <==> y == a || y in u
  {
    var w := [a] + u;
    forall i, j | 0 <= i < j < |w| ensures w[i] < w[j] {
      assert w[j] == u[j - 1];
      if i == 0 {
        assert u[j - 1] in u;
      } else {
        assert w[i] == u[i - 1];
      }
    }
  }

  lemma {:induction false} UniqueSorted(s: seq<int>)
    ensures StrictlyIncreasing(Unique(s))
    ensures forall y :: y in Unique(s) <==> y in s
  {
    if s != [] {
      UniqueSorted(s[..|s| - 1]);
      InsertSorted(s[|s| - 1], Unique(s[..|s| - 1]));
      assert s == s[..|s| - 1] + [s[|s| - 1]];
    }
  }

  lemma {:induction false} WithoutMembers(a: seq<int>, b: seq<int>)
    ensures forall y :: y in Without(a, b) <==> y in a && y !in b
  {
    if a != [] {
      WithoutMembers(a[1..], b);
      assert a == [a[0]] + a[1..];
    }
  }

  lemma SetDiff1dSorted(a: seq<int>, b: seq<int>)
    ensures StrictlyIncreasing(SetDiff1d(a, b))
    ensures forall y :: y in SetDiff1d(a, b) <==> y in a && y !in b
  {
    WithoutMembers(a, b);
    UniqueSorted(Without(a, b));
  }

  lemma RangeMembers(lo: int, hi: int)
    requires lo <= hi
    ensures forall y :: y in Range(lo, hi) <==> lo <= y < hi
  {
    var s := Range(lo, hi);
    forall y | lo <= y < hi ensures y in s {
      assert s[y - lo] == y;
    }
  }

  /** Two ascending lists of distinct values with the same members are equal. */
  lemma {:induction false} SameAscending(u: seq<int>, v: seq<int>)
    requires StrictlyIncreasing(u) && StrictlyIncreasing(v)
    requires forall y :: y in u <==> y in v
    ensures u == v
  {
    HeadIn(u);
    HeadIn(v);
    if |u| > 0 {
      AscendingHead(u, v[0]);
      AscendingHead(v, u[0]);
      AscendingTail(u);
      AscendingTail(v);
      SameAscending(u[1..], v[1..]);
      assert u == [u[0]] + u[1..];
      assert v == [v[0]] + v[1..];
    }
  }

  /** A non-empty list holds its head. */
  lemma HeadIn(u: seq<int>)
    ensures |u| > 0 ==> u[0] in u
  {
  }

  /** The head of an ascending list is its least member. */
  lemma AscendingHead(u: seq<int>, y: int)
    requires StrictlyIncreasing(u) && y in u
    ensures u[0] <= y
  {
    var a :| 0 <= a < |u| && u[a] == y;
    if a > 0 {
      assert u[0] < u[a];
    }
  }

  /** The tail of an ascending list holds its members other than the head. */
  lemma AscendingTail(u: seq<int>)
    requires StrictlyIncreasing(u) && |u| > 0
    ensures StrictlyIncreasing(u[1..])
    ensures forall y :: y in u[1..] <==> y in u && y != u[0]
  {
    assert u == [u[0]] + u[1..];
    forall y | y in u[1..] ensures y != u[0] {
      var a :| 0 <= a < |u[1..]| && u[1..][a] == y;
      assert u[a + 1] == y;
    }
  }

  /** The set difference of two ranges with the same start, as colormixer
      forms it for its list of live sources. */
  lemma RangeDifference(lo: int, mid: int, hi: int)
    requires lo <= mid <= hi
    ensures SetDiff1d(Range(lo, hi), Unique(Range(lo, mid))) == Range(mid, hi)
  {
    RangeMembers(lo, hi);
    RangeMembers(lo, mid);
    RangeMembers(mid, hi);
    UniqueSorted(Range(lo, mid));
    SetDiff1dSorted(Range(lo, hi), Unique(Range(lo, mid)));
    SameAscending(SetDiff1d(Range(lo, hi), Unique(Range(lo, mid))), Range(mid, hi));
  }

  lemma RangeAppend(a: seq<int>, lo: int, hi: int)
    requires lo <= hi && a == Range(lo, hi)
    ensures a + [hi] == Range(lo, hi + 1)
  {
  }

  lemma RangeAppend2(a: seq<int>, lo: int, hi: int)
    requires lo <= hi && a == Range(lo, hi)
    ensures a + [hi, hi + 1] == Range(lo, hi + 2)
  {
  }

  /** Within a pass, the pair after pair k still fits in the list unless k
      was the last pair. */
  lemma NextPair(k: nat, len: nat)
    requires 2 * k + 2 <= len
    ensures k != len / 2 - 1 ==> 2 * (k + 1) + 2 <= len
  {
  }

  lemma ConcatRanges(a: seq<int>, lo: int, mid: int, hi: int)
    requires lo <= mid <= hi && a == Range(lo, mid)
    ensures a + Range(mid, hi) == Range(lo, hi)
  {
  }

  // ---------------------------------------------------------------------
  // The merge tree

  /** The tristimulus values as the merge step computes them:
      X = x·Y/y and Z = (1-x-y)·Y/y. */
  function Tristimulus(c: Yxy): Xyz
    requires c.y != 0.0
  {
    Xyz(Quot(c.x * c.Y, c.y), c.Y, Quot((1.0 - c.x - c.y) * c.Y, c.y))
  }

  /** A virtual source: the tristimulus mixture r·A + (1-r)·B, back in Yxy.
      A missing colour, a zero y or a zero X+Y+Z makes numpy produce NaN/inf,
      modelled as None. */
  function Merge(a: Option<Yxy>, b: Option<Yxy>, r: real): (m: Option<Yxy>)
    ensures m.Some? ==> a.Some? && b.Some?
  {
    if a.None? || b.None? || a.value.y == 0.0 || b.value.y == 0.0 then None
    else FromXyz(Add(Scale(r, Tristimulus(a.value)), Scale(1.0 - r, Tristimulus(b.value))))
  }

  /** Luminance and chromaticity of tristimulus values: Y, X/(X+Y+Z),
      Y/(X+Y+Z); a zero sum is numpy's NaN. */
  function FromXyz(mix: Xyz): (c: Option<Yxy>)
    ensures c.Some? <==> mix.X + mix.Y + mix.Z != 0.0
  {
    var sum := mix.X + mix.Y + mix.Z;
    if sum == 0.0 then None else Some(Yxy(mix.Y, Quot(mix.X, sum), Quot(mix.Y, sum)))
  }

  /** Row j of the lookup table: an original source for j < n, otherwise the
      virtual source of merge j-n, which combines rows 2(j-n) and 2(j-n)+1
      at ratio ratios[j-n]. */
  function Node(src: seq<Yxy>, ratios: seq<real>, j: nat): Option<Yxy>
    requires 3 < |src| && j <= 2 * |src| - 4 && j < |src| + |ratios|
    decreases j
  {
    var n := |src|;
    if j < n then Some(src[j])
    else Merge(Node(src, ratios, 2 * (j - n)), Node(src, ratios, 2 * (j - n) + 1), ratios[j - n])
  }

  /** A row of colormixer's lookup table `mlut`: the colour, the rows it was
      merged from (column 4, and column 5, NaN for an original source) and the
      two contributions (columns 6 and 7).  The row-number column 0 is never
      read and is not kept. */
  datatype LutRow = LutRow(c: Option<Yxy>, link: Link)

  /** Columns 4 to 7 of a table row. */
  datatype Link = Link(pA: nat, pB: Option<nat>, mA: real, mB: Num)

  /** Row j of the table once all merges are done. */
  function LutEntry(src: seq<Yxy>, ratios: seq<real>, j: nat): (e: LutRow)
    requires 3 < |src| && j <= 2 * |src| - 4 && j < |src| + |ratios|
    ensures e.c == Node(src, ratios, j) && e.link == LinkEntry(|src|, ratios, j)
  {
    LutRow(Node(src, ratios, j), LinkEntry(|src|, ratios, j))
  }

  /** Columns 4 to 7 of row j: an original source is its own parent with
      contributions 1 and NaN; virtual row j comes from rows 2(j-n) and
      2(j-n)+1 with contributions r and 1-r. */
  function LinkEntry(n: nat, ratios: seq<real>, j: nat): (e: Link)
    requires 3 < n && j <= 2 * n - 4 && j < n + |ratios|
    ensures e.pA <= j && (e.pB.Some? ==> e.pB.value < j)
  {
    if j < n then Link(j, None, 1.0, NaN)
    else Link(2 * (j - n), Some(2 * (j - n) + 1), ratios[j - n], Val(1.0 - ratios[j - n]))
  }

  // ---------------------------------------------------------------------
  // Fluxes

  /** color3mixer on colours that may be NaN: any NaN coordinate makes all
      three fluxes NaN. */
  function Color3MixerOpt(t: Yxy, a: Option<Yxy>, b: Option<Yxy>, c: Option<Yxy>): (m: seq<Num>)
    ensures |m| == 3
    ensures a.Some? && b.Some? && c.Some? ==> m == Color3Mixer(t, a.value, b.value, c.value)
    ensures a.None? || b.None? || c.None? ==> m[0].NaN? && m[1].NaN? && m[2].NaN?
  {
    if a.Some? && b.Some? && c.Some? then Color3Mixer(t, a.value, b.value, c.value) else [NaN, NaN, NaN]
  }

  /** Negative fluxes become NaN (:576). */
  function Masked(m: seq<Num>): (r: seq<Num>)
    ensures |r| == |m|
    ensures forall i :: 0 <= i < |m| ==> (r[i].Val? <==> m[i].IsNonNeg()) && (r[i].Val? ==> r[i] == m[i])
  {
    seq(|m|, i requires 0 <= i < |m| => if m[i].IsNeg() then NaN else m[i])
  }

  /** The share a merge gives to row j: the ratio for the first of its two
      rows, one minus the ratio for the second. */
  function Share(ratios: seq<real>, j: nat): real
    requires j / 2 < |ratios|
  {
    if j % 2 == 0 then ratios[j / 2] else 1.0 - ratios[j / 2]
  }

  /** The flux of row j: for the three final rows 2n-6, 2n-5, 2n-4 the
      fluxes f of color3mixer, for any other row its share of the flux of the
      virtual source n + j/2 it was merged into. */
  function Weight(n: nat, ratios: seq<real>, f: seq<real>, j: nat): real
    requires 3 < n && n - 3 <= |ratios| && |f| == 3 && j <= 2 * n - 4
    decreases 2 * n - j
  {
    if j >= 2 * n - 6 then f[j - (2 * n - 6)]
    else Share(ratios, j) * Weight(n, ratios, f, n + j / 2)
  }

  /** What colormixer returns for one target: an IndexError for fewer than
      three sources or fewer than n-3 ratios, the raw color3mixer fluxes for
      exactly three sources, and otherwise the propagated fluxes, or all NaN
      when a final flux is NaN or negative. */
  function ColorMixerSpec(t: Yxy, src: seq<Yxy>, ratios: seq<real>): (r: Result<seq<Num>>)
    ensures r.Err? <==> |src| < 3 || (|src| > 3 && |ratios| < |src| - 3)
    ensures r.Err? ==> r.error == IndexOutOfRange
    ensures r.Ok? ==> |r.value| == |src|
    ensures |src| == 3 ==> r == Ok(Color3Mixer(t, src[0], src[1], src[2]))
    ensures r.Ok? && |src| > 3 ==>
      (forall j :: 0 <= j < |src| ==> r.value[j].Val?) || (forall j :: 0 <= j < |src| ==> r.value[j].NaN?)
  {
    var n := |src|;
    if n < 3 then Err(IndexOutOfRange)
    else if n == 3 then Ok(Color3Mixer(t, src[0], src[1], src[2]))
    else if |ratios| < n - 3 then Err(IndexOutOfRange)
    else
      var f := FinalFluxes(t, src, ratios);
      if f[0].Val? && f[1].Val? && f[2].Val? then
        Ok(seq(n, j requires 0 <= j < n => Val(Weight(n, ratios, [f[0].v, f[1].v, f[2].v], j))))
      else Ok(seq(n, j => NaN))
  }

  /** The masked color3mixer fluxes of the three final rows. */
  function FinalFluxes(t: Yxy, src: seq<Yxy>, ratios: seq<real>): (f: seq<Num>)
    requires 3 < |src| && |src| - 3 <= |ratios|
    ensures |f| == 3
  {
    var n := |src|;
    Masked(Color3MixerOpt(t, Node(src, ratios, 2 * n - 6), Node(src, ratios, 2 * n - 5), Node(src, ratios, 2 * n - 4)))
  }

  // ---------------------------------------------------------------------
  // The algorithm

  /** colormixer for one target, with the source order left at its default. */
  method ColorMixer(t: Yxy, src: seq<Yxy>, ratios: seq<real>) returns (r: Result<seq<Num>>)
    ensures r == ColorMixerSpec(t, src, ratios)
  {
    var n := |src|;
    if n > 3 {
      var lut, r_so := MergeSources(src, ratios);
      if lut.Err? {
        return Err(lut.error);
      }
      var mlut := lut.value;
      var M3 := Masked(Color3MixerOpt(t, mlut[r_so[0]].c, mlut[r_so[1]].c, mlut[r_so[2]].c));
      FinalsFromTable(t, src, ratios, mlut, r_so, M3);
      if M3[0].Val? && M3[1].Val? && M3[2].Val? {
        TableLinks(src, ratios, mlut);
        var f := [M3[0].v, M3[1].v, M3[2].v];
        var M := BackPropagate(n, ratios, mlut, f);
        assert M == seq(n, j requires 0 <= j < n => Val(Weight(n, ratios, f, j)));
        return Ok(M);
      } else {
        return Ok(seq(n, j => NaN));
      }
    } else if n < 3 {
      return Err(IndexOutOfRange);
    } else {
      return Ok(Color3Mixer(t, src[0], src[1], src[2]));
    }
  }

  /** The last three rows of a full table are the final virtual sources. */
  lemma FinalsFromTable(t: Yxy, src: seq<Yxy>, ratios: seq<real>, mlut: seq<LutRow>, r_so: seq<int>, M3: seq<Num>)
    requires 3 < |src| && Table(src, ratios, mlut, 2 * |src| - 3) && r_so == Range(2 * |src| - 6, 2 * |src| - 3)
    requires M3 == Masked(Color3MixerOpt(t, mlut[r_so[0]].c, mlut[r_so[1]].c, mlut[r_so[2]].c))
    ensures M3 == FinalFluxes(t, src, ratios)
  {
    LastRows(src, ratios, mlut, r_so);
  }

  /** The rows a full table holds at the final three indices. */
  lemma LastRows(src: seq<Yxy>, ratios: seq<real>, mlut: seq<LutRow>, r_so: seq<int>)
    requires 3 < |src| && Table(src, ratios, mlut, 2 * |src| - 3) && r_so == Range(2 * |src| - 6, 2 * |src| - 3)
    ensures |r_so| == 3 && forall i :: 0 <= i < 3 ==> 0 <= r_so[i] < |mlut|
    ensures mlut[r_so[0]].c == Node(src, ratios, 2 * |src| - 6)
    ensures mlut[r_so[1]].c == Node(src, ratios, 2 * |src| - 5)
    ensures mlut[r_so[2]].c == Node(src, ratios, 2 * |src| - 4)
  {
    var n := |src|;
    assert r_so[0] == 2 * n - 6 && r_so[1] == 2 * n - 5 && r_so[2] == 2 * n - 4;
    assert mlut[2 * n - 6] == LutEntry(src, ratios, 2 * n - 6);
    assert mlut[2 * n - 5] == LutEntry(src, ratios, 2 * n - 5);
    assert mlut[2 * n - 4] == LutEntry(src, ratios, 2 * n - 4);
  }

  /** colormixer's merge loop: merges the live sources pairwise, in order,
      appending each virtual source to the table, until three are left. */
  method MergeSources(src: seq<Yxy>, ratios: seq<real>) returns (r: Result<seq<LutRow>>, r_so: seq<int>)
    requires |src| > 3
    ensures r.Err? <==> |ratios| < |src| - 3
    ensures r.Err? ==> r.error == IndexOutOfRange
    ensures r.Ok? ==> Table(src, ratios, r.value, 2 * |src| - 3)
    ensures r.Ok? ==> r_so == Range(2 * |src| - 6, 2 * |src| - 3)
  {
    var n := |src|;
    var m_so := Range(0, n);
    var m_ro := ratios;
    var N_sources := |m_so|;
    var mlut := seq(n, j requires 0 <= j < n => LutRow(Some(src[j]), Link(j, None, 1.0, NaN)));
    var k, kk := 0, 0;
    var m_s_k: seq<int> := [];
    var m_su_k: seq<int> := [];
    r_so := m_so;
    ghost var g := 0;  // kk at the start of the current pass over m_so
    while N_sources > 3 || kk > n - 3
      invariant 0 <= g <= kk <= n - 3 && kk <= |ratios|
      invariant k == kk - g
      invariant m_so == Range(2 * g, n + g)
      invariant k > 0 ==> m_s_k == Range(n + g, n + kk) && m_su_k == Range(2 * g, 2 * kk)
      invariant r_so == Range(2 * kk, n + kk) && N_sources == n - kk
      invariant N_sources > 3 ==> 2 * k + 2 <= |m_so|
      invariant Table(src, ratios, mlut, n + kk)
      decreases n - kk
    {
      if kk >= |m_ro| {
        return Err(IndexOutOfRange), r_so;
      }
      mlut, m_so, k, m_s_k, m_su_k, r_so, g := MergeTurn(src, ratios, mlut, m_so, k, kk, m_s_k, m_su_k, g);
      N_sources := |r_so|;
      kk := kk + 1;
    }
    return Ok(mlut), r_so;
  }

  /** One turn of the merging loop: merge kk, then the move to the next pair,
      or to a new pass over the live sources once this pass's pairs are used. */
  method MergeTurn(src: seq<Yxy>, ratios: seq<real>, mlut: seq<LutRow>, m_so: seq<int>, k: nat, kk: nat,
                   m_s_k: seq<int>, m_su_k: seq<int>, ghost g: nat)
    returns (mlut': seq<LutRow>, m_so': seq<int>, k': nat, m_s_k': seq<int>, m_su_k': seq<int>, r_so: seq<int>, ghost g': nat)
    requires 3 < |src| && g <= kk < |src| - 3 && kk < |ratios| && k == kk - g
    requires m_so == Range(2 * g, |src| + g) && 2 * k + 2 <= |m_so|
    requires k > 0 ==> m_s_k == Range(|src| + g, |src| + kk) && m_su_k == Range(2 * g, 2 * kk)
    requires Table(src, ratios, mlut, |src| + kk)
    ensures g' <= kk + 1 && k' == kk + 1 - g'
    ensures m_so' == Range(2 * g', |src| + g')
    ensures k' > 0 ==> m_s_k' == Range(|src| + g', |src| + kk + 1) && m_su_k' == Range(2 * g', 2 * kk + 2)
    ensures r_so == Range(2 * kk + 2, |src| + kk + 1)
    ensures |src| - kk - 1 > 3 ==> 2 * k' + 2 <= |m_so'|
    ensures Table(src, ratios, mlut', |src| + kk + 1)
  {
    var n := |src|;
    var pA, pB;
    mlut', pA, pB := CombinePair(src, ratios, mlut, m_so, k, kk, g);
    m_s_k', m_su_k', r_so := UpdateLive(n, m_so, k, kk, pA, pB, m_s_k, m_su_k, g);
    NextPair(k, |m_so|);
    if k == |m_so| / 2 - 1 {
      m_so' := r_so;
      k' := 0;
      g' := kk + 1;
    } else {
      m_so' := m_so;
      k' := k + 1;
      g' := g;
    }
  }

  /** One merge: the k-th pair of live sources, at ratio kk, becomes row
      n + kk of the table. */
  method CombinePair(src: seq<Yxy>, ratios: seq<real>, mlut: seq<LutRow>, m_so: seq<int>, k: nat, kk: nat, ghost g: nat)
    returns (mlut': seq<LutRow>, pA: int, pB: int)
    requires 3 < |src| && kk < |src| - 3 && kk < |ratios| && k == kk - g
    requires m_so == Range(2 * g, |src| + g) && 2 * k + 2 <= |m_so|
    requires Table(src, ratios, mlut, |src| + kk)
    ensures pA == 2 * kk && pB == 2 * kk + 1
    ensures Table(src, ratios, mlut', |src| + kk + 1)
  {
    var ratioAB := ratios[kk];
    pA := m_so[2 * k];
    pB := m_so[2 * k + 1];
    var YxyM := Merge(mlut[pA].c, mlut[pB].c, ratioAB);
    var MA, MB := ratioAB, 1.0 - ratioAB;
    TableGrows(src, ratios, mlut, kk);
    mlut' := mlut + [LutRow(YxyM, Link(pA, Some(pB), MA, Val(MB)))];
  }

  /** The bookkeeping after merge kk: the new row joins this pass's new
      sources, its two parents this pass's used ones, and the live list
      becomes the unused sources followed by the new ones. */
  method UpdateLive(n: nat, m_so: seq<int>, k: nat, kk: nat, pA: int, pB: int, m_s_k: seq<int>, m_su_k: seq<int>, ghost g: nat)
    returns (m_s_k': seq<int>, m_su_k': seq<int>, r_so: seq<int>)
    requires g <= kk && k == kk - g && 2 * k + 2 <= n - g
    requires m_so == Range(2 * g, n + g) && pA == 2 * kk && pB == 2 * kk + 1
    requires k > 0 ==> m_s_k == Range(n + g, n + kk) && m_su_k == Range(2 * g, 2 * kk)
    ensures m_s_k' == Range(n + g, n + kk + 1) && m_su_k' == Range(2 * g, 2 * kk + 2)
    ensures r_so == Range(2 * kk + 2, n + kk + 1)
  {
    if k == 0 {
      m_s_k' := [n + kk];
      m_su_k' := [pA, pB];
      RangeAppend([], n + kk, n + kk);
      RangeAppend2([], 2 * kk, 2 * kk);
    } else {
      RangeAppend(m_s_k, n + g, n + kk);
      RangeAppend2(m_su_k, 2 * g, 2 * kk);
      m_s_k' := m_s_k + [n + kk];
      m_su_k' := m_su_k + [pA, pB];
    }
    LiveAfterMerge(g, kk, n);
    r_so := SetDiff1d(m_so, Unique(m_su_k')) + m_s_k';
  }

  /** The first m rows of the table are in place. */
  ghost predicate Table(src: seq<Yxy>, ratios: seq<real>, mlut: seq<LutRow>, m: nat)
    requires 3 < |src|
  {
    |mlut| == m && m <= 2 * |src| - 3 && m <= |src| + |ratios| &&
    forall j :: 0 <= j < m ==> mlut[j] == LutEntry(src, ratios, j)
  }

  /** Merge kk of rows 2kk and 2kk+1 appends row n+kk of the table. */
  lemma TableGrows(src: seq<Yxy>, ratios: seq<real>, mlut: seq<LutRow>, kk: nat)
    requires 3 < |src| && kk < |src| - 3 && kk < |ratios|
    requires Table(src, ratios, mlut, |src| + kk)
    ensures Table(src, ratios, mlut + [LutRow(Merge(mlut[2 * kk].c, mlut[2 * kk + 1].c, ratios[kk]),
                                              Link(2 * kk, Some(2 * kk + 1), ratios[kk], Val(1.0 - ratios[kk])))],
                  |src| + kk + 1)
  {
    var n := |src|;
    assert mlut[2 * kk].c == Node(src, ratios, 2 * kk);
    assert mlut[2 * kk + 1].c == Node(src, ratios, 2 * kk + 1);
  }

  /** After merge kk the live sources are rows 2kk+2 .. n+kk. */
  lemma LiveAfterMerge(g: nat, kk: nat, n: nat)
    requires g <= kk && 2 * kk + 2 <= n + g
    ensures SetDiff1d(Range(2 * g, n + g), Unique(Range(2 * g, 2 * kk + 2))) + Range(n + g, n + kk + 1) ==
            Range(2 * kk + 2, n + kk + 1)
  {
    RangeDifference(2 * g, 2 * kk + 2, n + g);
    ConcatRanges(SetDiff1d(Range(2 * g, n + g), Unique(Range(2 * g, 2 * kk + 2))), 2 * kk + 2, n + g, n + kk + 1);
  }

  /** numpy's product of a table entry that may be NaN with a float. */
  function Times(a: Num, b: real): (p: Num)
    ensures p.Val? <==> a.Val?
  {
    if a.NaN? then NaN else Val(a.v * b)
  }

  /** The lowest row the back-propagation visits: n - max(6-n, 0). */
  function NMin(n: nat): int
  {
    n - (if n < 6 then 6 - n else 0)
  }

  /** The flux color3mixer hands to row i: its final flux for the three final
      rows, 1 for the others. */
  function FinalShare(n: nat, f: seq<real>, i: nat): real
    requires |f| == 3 && 3 < n && i <= 2 * n - 4
  {
    if i >= 2 * n - 6 then f[i - (2 * n - 6)] else 1.0
  }

  /** Whether row j has been scaled once the rows from lo up are processed:
      the merge that consumed it is among them, or it is an original source
      among the final rows and was processed itself. */
  predicate Touched(n: nat, j: nat, lo: int)
  {
    (j <= 2 * n - 7 && n + j / 2 >= lo) || (j < n && 2 * n - 6 <= j && lo <= j)
  }

  /** The contributions of a row multiplied by a factor. */
  function Rescaled(e: Link, a: real): Link
  {
    e.(mA := e.mA * a, mB := Times(e.mB, a))
  }

  /** Columns 4 to 7 of row j after the rows from lo up have been processed:
      the contributions are multiplied by the row's flux once it is touched. */
  function Scaled(n: nat, ratios: seq<real>, f: seq<real>, j: nat, lo: int): Link
    requires 3 < n && n - 3 <= |ratios| && |f| == 3 && j <= 2 * n - 4
  {
    var e := LinkEntry(n, ratios, j);
    if Touched(n, j, lo) then Rescaled(e, Weight(n, ratios, f, j)) else e
  }

  /** The table's links are in place. */
  ghost predicate Links(n: nat, ratios: seq<real>, mlut: seq<LutRow>)
    requires 3 < n && n - 3 <= |ratios|
  {
    |mlut| == 2 * n - 3 && forall j :: 0 <= j < 2 * n - 3 ==> mlut[j].link == LinkEntry(n, ratios, j)
  }

  lemma TableLinks(src: seq<Yxy>, ratios: seq<real>, mlut: seq<LutRow>)
    requires 3 < |src| && |src| - 3 <= |ratios| && Table(src, ratios, mlut, 2 * |src| - 3)
    ensures Links(|src|, ratios, mlut)
  {
  }

  /** colormixer's back-propagation: from the last row down to NMin, each row
      passes its contributions, times its flux, to the rows it was merged
      from; the fluxes of the sources are then column 6 of their rows. */
  method BackPropagate(n: nat, ratios: seq<real>, mlut: seq<LutRow>, M3: seq<real>) returns (M: seq<Num>)
    requires 3 < n && n - 3 <= |ratios| && |M3| == 3
    requires Links(n, ratios, mlut)
    ensures |M| == n && forall j :: 0 <= j < n ==> M[j] == Val(Weight(n, ratios, M3, j))
  {
    var lut := mlut;
    var n_min: int := 3 - (|lut| - n);
    n_min := n - (n_min + (if n_min < 0 then -n_min else n_min)) / 2;
    assert n_min == NMin(n);
    var k := 0;
    var i: int := |lut| - 1;
    while i >= n_min
      invariant n_min - 1 <= i <= |lut| - 1 && k == |lut| - 1 - i && |lut| == 2 * n - 3
      invariant forall j :: 0 <= j < 2 * n - 3 ==> lut[j].link == Scaled(n, ratios, M3, j, i + 1)
      decreases i
    {
      var m3 := if k < 3 then M3[2 - k] else 1.0;
      assert m3 == FinalShare(n, M3, i);
      lut := PassDown(n, ratios, M3, lut, i, m3);
      k := k + 1;
      i := i - 1;
    }
    forall j | 0 <= j < n ensures lut[j].link.mA == Weight(n, ratios, M3, j) {
      assert Touched(n, j, n_min);
    }
    M := seq(n, j requires 0 <= j < n => Val(lut[j].link.mA));
  }

  /** One step of the back-propagation: row i multiplies the rows it was
      merged from by its contributions times its flux m3. */
  method PassDown(n: nat, ratios: seq<real>, M3: seq<real>, lut: seq<LutRow>, i: int, m3: real)
    returns (lut': seq<LutRow>)
    requires 3 < n && n - 3 <= |ratios| && |M3| == 3 && NMin(n) <= i <= 2 * n - 4
    requires m3 == FinalShare(n, M3, i) && |lut| == 2 * n - 3
    requires forall j :: 0 <= j < 2 * n - 3 ==> lut[j].link == Scaled(n, ratios, M3, j, i + 1)
    ensures |lut'| == |lut|
    ensures forall j :: 0 <= j < 2 * n - 3 ==> lut'[j].link == Scaled(n, ratios, M3, j, i)
  {
    RowParents(n, ratios, M3, lut[i].link, i);
    var pA := lut[i].link.pA;
    var pB := lut[i].link.pB;
    var mA := lut[i].link.mA * m3;
    var mB := Times(lut[i].link.mB, m3);
    lut' := lut[pA := lut[pA].(link := Rescaled(lut[pA].link, mA))];
    ghost var e, yA := lut[i].link, lut'[pA].link;
    assert yA == Rescaled(lut[pA].link, e.mA * FinalShare(n, M3, i));
    if pB.Some? {
      lut' := lut'[pB.value := lut'[pB.value].(link := Rescaled(lut'[pB.value].link, mB.v))];
      assert lut'[pB.value].link == Rescaled(lut[pB.value].link, Times(e.mB, FinalShare(n, M3, i)).v);
    }
    assert lut'[pA].link == yA;
    forall j | 0 <= j < 2 * n - 3 ensures lut'[j].link == Scaled(n, ratios, M3, j, i) {
      if j == pA {
        FirstParent(n, ratios, M3, i, e, lut[j].link, yA);
      } else if pB.Some? && j == pB.value {
        SecondParent(n, ratios, M3, i, e, lut[j].link, lut'[j].link);
      } else {
        ProcessOther(n, ratios, M3, i, j);
        assert lut'[j] == lut[j];
      }
    }
  }

  /** The rows row i was merged from come before it, and its second
      contribution is a number when it has a second parent. */
  lemma RowParents(n: nat, ratios: seq<real>, f: seq<real>, e: Link, i: int)
    requires 3 < n && n - 3 <= |ratios| && |f| == 3 && NMin(n) <= i <= 2 * n - 4
    requires e == Scaled(n, ratios, f, i, i + 1)
    ensures e.pA <= i && (e.pB.Some? ==> e.pB.value < i && e.pB.value != e.pA && Times(e.mB, FinalShare(n, f, i)).Val?)
  {
    ProcessRow(n, ratios, f, i);
  }

  /** The first parent of row i, rescaled by row i's first contribution times
      its flux, is in its processed state. */
  lemma FirstParent(n: nat, ratios: seq<real>, f: seq<real>, i: int, e: Link, x: Link, y: Link)
    requires 3 < n && n - 3 <= |ratios| && |f| == 3 && NMin(n) <= i <= 2 * n - 4
    requires e == Scaled(n, ratios, f, i, i + 1) && e.pA <= 2 * n - 4
    requires x == Scaled(n, ratios, f, e.pA, i + 1) && y == Rescaled(x, e.mA * FinalShare(n, f, i))
    ensures y == Scaled(n, ratios, f, e.pA, i)
  {
    var a := e.mA * FinalShare(n, f, i);
    if i < n {
      ProcessSource(n, ratios, f, i);
      assert e.pA == i && x == e;
      assert Scaled(n, ratios, f, i, i) == Rescaled(e, a);
    } else {
      MergedContributions(n, ratios, f, i);
      RescaleOnTouch(n, ratios, f, 2 * (i - n), i + 1, i, a);
    }
  }

  /** The second parent of row i, rescaled by row i's second contribution
      times its flux, is in its processed state. */
  lemma SecondParent(n: nat, ratios: seq<real>, f: seq<real>, i: int, e: Link, x: Link, y: Link)
    requires 3 < n && n - 3 <= |ratios| && |f| == 3 && NMin(n) <= i <= 2 * n - 4
    requires e == Scaled(n, ratios, f, i, i + 1) && e.pB.Some? && e.pB.value <= 2 * n - 4
    requires x == Scaled(n, ratios, f, e.pB.value, i + 1) && y == Rescaled(x, Times(e.mB, FinalShare(n, f, i)).v)
    ensures y == Scaled(n, ratios, f, e.pB.value, i)
  {
    ProcessRow(n, ratios, f, i);
  }

  /** Processing row i scales exactly the rows it was merged from, by its
      contributions times its flux. */
  lemma ProcessRow(n: nat, ratios: seq<real>, f: seq<real>, i: int)
    requires 3 < n && n - 3 <= |ratios| && |f| == 3 && NMin(n) <= i <= 2 * n - 4
    ensures var s := Scaled(n, ratios, f, i, i + 1);
      var m3 := FinalShare(n, f, i);
      var a := s.mA * m3;
      var b := Times(s.mB, m3);
      s.pA <= i && (s.pB.Some? ==> s.pB.value < i && s.pB.value != s.pA && b.Val?) &&
      Scaled(n, ratios, f, s.pA, i) == Rescaled(Scaled(n, ratios, f, s.pA, i + 1), a) &&
      (s.pB.Some? ==> Scaled(n, ratios, f, s.pB.value, i) == Rescaled(Scaled(n, ratios, f, s.pB.value, i + 1), b.v))
  {
    if i < n {
      ProcessSource(n, ratios, f, i);
    } else {
      ProcessMerged(n, ratios, f, i);
    }
  }

  /** Processing row i leaves every other row than its parents as it was. */
  lemma ProcessOther(n: nat, ratios: seq<real>, f: seq<real>, i: int, j: nat)
    requires 3 < n && n - 3 <= |ratios| && |f| == 3 && NMin(n) <= i <= 2 * n - 4 && j <= 2 * n - 4
    requires var s := Scaled(n, ratios, f, i, i + 1); j != s.pA && (s.pB.None? || j != s.pB.value)
    ensures Scaled(n, ratios, f, j, i) == Scaled(n, ratios, f, j, i + 1)
  {
    if i < n {
      ProcessSource(n, ratios, f, i);
    } else {
      MergedContributions(n, ratios, f, i);
    }
    assert Touched(n, j, i) == Touched(n, j, i + 1);
  }

  /** An original source among the final rows scales itself by its flux. */
  lemma ProcessSource(n: nat, ratios: seq<real>, f: seq<real>, i: int)
    requires 3 < n && n - 3 <= |ratios| && |f| == 3 && NMin(n) <= i < n
    ensures var s := Scaled(n, ratios, f, i, i + 1);
      s.pA == i && s.pB.None? &&
      Scaled(n, ratios, f, i, i) == Rescaled(s, s.mA * FinalShare(n, f, i))
  {
    assert 2 * n - 6 <= i;
    var s := Scaled(n, ratios, f, i, i + 1);
    assert s.mA == 1.0;
    RescaleOnTouch(n, ratios, f, i, i + 1, i, s.mA * FinalShare(n, f, i));
  }

  /** The two rows merged into virtual row i get its flux times their shares. */
  lemma ChildWeights(n: nat, ratios: seq<real>, f: seq<real>, i: int)
    requires 3 < n && n - 3 <= |ratios| && |f| == 3 && n <= i <= 2 * n - 4
    ensures Weight(n, ratios, f, 2 * (i - n)) == ratios[i - n] * Weight(n, ratios, f, i)
    ensures Weight(n, ratios, f, 2 * (i - n) + 1) == (1.0 - ratios[i - n]) * Weight(n, ratios, f, i)
  {
    assert 2 * (i - n) / 2 == i - n;
    assert (2 * (i - n) + 1) / 2 == i - n;
  }

  /** A row that becomes touched is multiplied by its flux. */
  lemma RescaleOnTouch(n: nat, ratios: seq<real>, f: seq<real>, j: nat, before: int, after: int, a: real)
    requires 3 < n && n - 3 <= |ratios| && |f| == 3 && j <= 2 * n - 4
    requires !Touched(n, j, before) && Touched(n, j, after) && a == Weight(n, ratios, f, j)
    ensures Scaled(n, ratios, f, j, after) == Rescaled(Scaled(n, ratios, f, j, before), a)
  {
  }

  /** A virtual source passes its contributions, times its flux, to the two
      rows it was merged from. */
  lemma ProcessMerged(n: nat, ratios: seq<real>, f: seq<real>, i: int)
    requires 3 < n && n - 3 <= |ratios| && |f| == 3 && n <= i <= 2 * n - 4
    ensures var s := Scaled(n, ratios, f, i, i + 1);
      var m3 := FinalShare(n, f, i);
      var a := s.mA * m3;
      var b := Times(s.mB, m3);
      s.pA == 2 * (i - n) && s.pB == Some(s.pA + 1) && b.Val? &&
      Scaled(n, ratios, f, s.pA, i) == Rescaled(Scaled(n, ratios, f, s.pA, i + 1), a) &&
      Scaled(n, ratios, f, s.pA + 1, i) == Rescaled(Scaled(n, ratios, f, s.pA + 1, i + 1), b.v)
  {
    var s := Scaled(n, ratios, f, i, i + 1);
    var m3 := FinalShare(n, f, i);
    MergedContributions(n, ratios, f, i);
    RescaleOnTouch(n, ratios, f, 2 * (i - n), i + 1, i, s.mA * m3);
    RescaleOnTouch(n, ratios, f, 2 * (i - n) + 1, i + 1, i, Times(s.mB, m3).v);
  }

  /** Row i's contributions times its flux are the fluxes of its two parents. */
  lemma MergedContributions(n: nat, ratios: seq<real>, f: seq<real>, i: int)
    requires 3 < n && n - 3 <= |ratios| && |f| == 3 && n <= i <= 2 * n - 4
    ensures var s := Scaled(n, ratios, f, i, i + 1);
      var m3 := FinalShare(n, f, i);
      s.pA == 2 * (i - n) && s.pB == Some(s.pA + 1) &&
      s.mA * m3 == Weight(n, ratios, f, 2 * (i - n)) &&
      Times(s.mB, m3) == Val(Weight(n, ratios, f, 2 * (i - n) + 1))
    ensures !Touched(n, 2 * (i - n), i + 1) && Touched(n, 2 * (i - n), i)
    ensures !Touched(n, 2 * (i - n) + 1, i + 1) && Touched(n, 2 * (i - n) + 1, i)
  {
    var r := ratios[i - n];
    var w := Weight(n, ratios, f, i);
    var s := Scaled(n, ratios, f, i, i + 1);
    ChildWeights(n, ratios, f, i);
    if i <= 2 * n - 7 {
      assert Touched(n, i, i + 1);
      assert s.mA == r * w && s.mB == Val((1.0 - r) * w);
    } else {
      assert !Touched(n, i, i + 1);
      assert s.mA == r && s.mB == Val(1.0 - r) && FinalShare(n, f, i) == w;
    }
  }

  // ---------------------------------------------------------------------
  // Properties

  /** Sources with positive luminance and y, and ratios in [0, 1]. */
  ghost predicate Physical(src: seq<Yxy>, ratios: seq<real>)
  {
    3 < |src| && |src| - 3 <= |ratios| &&
    (forall j :: 0 <= j < |src| ==> src[j].Y > 0.0 && src[j].y > 0.0) &&
    (forall k :: 0 <= k < |src| - 3 ==> 0.0 <= ratios[k] <= 1.0)
  }

  /** Ratios in [0, 1] and non-negative final fluxes give every row a
      non-negative flux. */
  lemma {:induction false} WeightNonNeg(n: nat, ratios: seq<real>, f: seq<real>, j: nat)
    requires 3 < n && n - 3 <= |ratios| && |f| == 3 && j <= 2 * n - 4
    requires forall k :: 0 <= k < n - 3 ==> 0.0 <= ratios[k] <= 1.0
    requires f[0] >= 0.0 && f[1] >= 0.0 && f[2] >= 0.0
    ensures Weight(n, ratios, f, j) >= 0.0
    decreases 2 * n - j
  {
    if j < 2 * n - 6 {
      WeightNonNeg(n, ratios, f, n + j / 2);
      assert Share(ratios, j) >= 0.0;
    }
  }

  /** With ratios in [0, 1], colormixer never returns a negative flux. */
  lemma ColorMixerNonNegative(t: Yxy, src: seq<Yxy>, ratios: seq<real>)
    requires |src| > 3 && forall k :: 0 <= k < |src| - 3 && k < |ratios| ==> 0.0 <= ratios[k] <= 1.0
    ensures var r := ColorMixerSpec(t, src, ratios);
      r.Ok? ==> forall j :: 0 <= j < |src| && r.value[j].Val? ==> r.value[j].v >= 0.0
  {
    var n := |src|;
    if |ratios| >= n - 3 {
      var f := FinalFluxes(t, src, ratios);
      if f[0].Val? && f[1].Val? && f[2].Val? {
        forall j | 0 <= j < n ensures Weight(n, ratios, [f[0].v, f[1].v, f[2].v], j) >= 0.0 {
          WeightNonNeg(n, ratios, [f[0].v, f[1].v, f[2].v], j);
        }
      }
    }
  }

  /** X + Y + Z of a colour is Y/y. */
  lemma TristimulusSum(c: Yxy)
    requires c.y != 0.0
    ensures Tristimulus(c).X + Tristimulus(c).Y + Tristimulus(c).Z == Quot(c.Y, c.y)
  {
    var t := Tristimulus(c);
    assert (t.X + t.Y + t.Z) * c.y == c.x * c.Y + c.Y * c.y + (1.0 - c.x - c.y) * c.Y;
    Cancel(t.X + t.Y + t.Z, Quot(c.Y, c.y), c.y);
  }

  /** The merge step's tristimulus values are those of ToXyz. */
  lemma TristimulusIsXyz(c: Yxy)
    requires c.y != 0.0
    ensures Tristimulus(c) == ToXyz(c)
  {
    var q := Quot(c.Y, c.y);
    Cancel(Quot(c.x * c.Y, c.y), q * c.x, c.y);
    Cancel(Quot((1.0 - c.x - c.y) * c.Y, c.y), q * (1.0 - c.x - c.y), c.y);
  }

  lemma ConvexPositive(r: real, a: real, b: real)
    requires 0.0 <= r <= 1.0 && a > 0.0 && b > 0.0
    ensures r * a + (1.0 - r) * b > 0.0
  {
    if r > 0.0 {
      assert r * a > 0.0;
    } else {
      assert (1.0 - r) * b > 0.0;
    }
  }

  /** Merging two physical colours at a ratio in [0, 1] gives a physical colour. */
  lemma MergePositive(a: Yxy, b: Yxy, r: real)
    requires a.Y > 0.0 && a.y > 0.0 && b.Y > 0.0 && b.y > 0.0 && 0.0 <= r <= 1.0
    ensures Merge(Some(a), Some(b), r).Some?
    ensures Merge(Some(a), Some(b), r).value.Y > 0.0 && Merge(Some(a), Some(b), r).value.y > 0.0
  {
    var ta, tb := Tristimulus(a), Tristimulus(b);
    TristimulusSum(a);
    TristimulusSum(b);
    PositiveQuot(a.Y, a.y);
    PositiveQuot(b.Y, b.y);
    ConvexSum(r, ta, tb, Quot(a.Y, a.y), Quot(b.Y, b.y));
    FromXyzPositive(Add(Scale(r, ta), Scale(1.0 - r, tb)));
  }

  /** A mixture of two colours with positive Y and X+Y+Z at a ratio in
      [0, 1] has positive Y and X+Y+Z. */
  lemma ConvexSum(r: real, ta: Xyz, tb: Xyz, sa: real, sb: real)
    requires 0.0 <= r <= 1.0 && ta.Y > 0.0 && tb.Y > 0.0
    requires ta.X + ta.Y + ta.Z == sa && tb.X + tb.Y + tb.Z == sb && sa > 0.0 && sb > 0.0
    ensures var mix := Add(Scale(r, ta), Scale(1.0 - r, tb));
      mix.Y > 0.0 && mix.X + mix.Y + mix.Z > 0.0
  {
    var mix := Add(Scale(r, ta), Scale(1.0 - r, tb));
    Distribute3(r, ta.X, ta.Y, ta.Z);
    Distribute3(1.0 - r, tb.X, tb.Y, tb.Z);
    assert mix.X + mix.Y + mix.Z == r * sa + (1.0 - r) * sb;
    ConvexPositive(r, sa, sb);
    ConvexPositive(r, ta.Y, tb.Y);
  }

  lemma FromXyzPositive(mix: Xyz)
    requires mix.Y > 0.0 && mix.X + mix.Y + mix.Z > 0.0
    ensures FromXyz(mix).Some? && FromXyz(mix).value.Y > 0.0 && FromXyz(mix).value.y > 0.0
  {
    PositiveQuot(mix.Y, mix.X + mix.Y + mix.Z);
  }

  lemma PositiveQuot(a: real, m: real)
    requires a > 0.0 && m > 0.0
    ensures Quot(a, m) > 0.0
  {
  }

  lemma Distribute3(r: real, u: real, v: real, w: real)
    ensures r * u + r * v + r * w == r * (u + v + w)
  {
  }

  /** Physical sources and ratios make every row of the table a physical
      colour. */
  lemma {:induction false} NodePhysical(src: seq<Yxy>, ratios: seq<real>, j: nat)
    requires Physical(src, ratios) && j <= 2 * |src| - 4
    ensures Node(src, ratios, j).Some?
    ensures Node(src, ratios, j).value.Y > 0.0 && Node(src, ratios, j).value.y > 0.0
    decreases j
  {
    var n := |src|;
    if j >= n {
      NodePhysical(src, ratios, 2 * (j - n));
      NodePhysical(src, ratios, 2 * (j - n) + 1);
      MergePositive(Node(src, ratios, 2 * (j - n)).value, Node(src, ratios, 2 * (j - n) + 1).value, ratios[j - n]);
    }
  }

  /** Chromaticity and luminance taken from tristimulus values give those
      values back. */
  lemma FromXyzInverse(mix: Xyz)
    requires mix.X + mix.Y + mix.Z != 0.0 && mix.Y != 0.0
    ensures FromXyz(mix).Some? && FromXyz(mix).value.y != 0.0 && ToXyz(FromXyz(mix).value) == mix
  {
    var sum := mix.X + mix.Y + mix.Z;
    var c := FromXyz(mix).value;
    assert c.y * sum == mix.Y;
    var q := Quot(c.Y, c.y);
    assert q * c.y == mix.Y;
    Cancel(q, sum, c.y);
    assert q * c.x == mix.X;
    assert q * (1.0 - c.x - c.y) == sum - mix.X - mix.Y;
  }

  /** A virtual source has the tristimulus values r·A + (1-r)·B of the two
      rows it was merged from. */
  lemma MergeTristimulus(a: Yxy, b: Yxy, r: real)
    requires a.Y > 0.0 && a.y > 0.0 && b.Y > 0.0 && b.y > 0.0 && 0.0 <= r <= 1.0
    ensures Merge(Some(a), Some(b), r).Some? && Merge(Some(a), Some(b), r).value.y != 0.0
    ensures ToXyz(Merge(Some(a), Some(b), r).value) == Add(Scale(r, ToXyz(a)), Scale(1.0 - r, ToXyz(b)))
  {
    TristimulusIsXyz(a);
    TristimulusIsXyz(b);
    var mix := Add(Scale(r, Tristimulus(a)), Scale(1.0 - r, Tristimulus(b)));
    TristimulusSum(a);
    TristimulusSum(b);
    PositiveQuot(a.Y, a.y);
    PositiveQuot(b.Y, b.y);
    ConvexSum(r, Tristimulus(a), Tristimulus(b), Quot(a.Y, a.y), Quot(b.Y, b.y));
    FromXyzInverse(mix);
  }

  /** The tristimulus values of row j (zero for a row that is not a colour). */
  ghost function NodeXyz(src: seq<Yxy>, ratios: seq<real>, j: nat): Xyz
    requires 3 < |src| && j <= 2 * |src| - 4 && j < |src| + |ratios|
  {
    var c := Node(src, ratios, j);
    if c.Some? && c.value.y != 0.0 then ToXyz(c.value) else Zero
  }

  /** Merge k in tristimulus terms. */
  lemma NodeMerge(src: seq<Yxy>, ratios: seq<real>, k: nat)
    requires Physical(src, ratios) && k < |src| - 3
    ensures NodeXyz(src, ratios, |src| + k) ==
      Add(Scale(ratios[k], NodeXyz(src, ratios, 2 * k)), Scale(1.0 - ratios[k], NodeXyz(src, ratios, 2 * k + 1)))
  {
    NodePhysical(src, ratios, 2 * k);
    NodePhysical(src, ratios, 2 * k + 1);
    MergeTristimulus(Node(src, ratios, 2 * k).value, Node(src, ratios, 2 * k + 1).value, ratios[k]);
  }

  /** The tristimulus values of the table's rows. */
  ghost function TableXyz(src: seq<Yxy>, ratios: seq<real>): (T: seq<Xyz>)
    requires 3 < |src| && |src| - 3 <= |ratios|
    ensures |T| == 2 * |src| - 3
  {
    seq(2 * |src| - 3, j requires 0 <= j < 2 * |src| - 3 => NodeXyz(src, ratios, j))
  }

  /** T holds tristimulus values in which every virtual row n+k is the
      mixture of rows 2k and 2k+1 at ratio ratios[k]. */
  ghost predicate Merged(n: nat, ratios: seq<real>, T: seq<Xyz>)
  {
    3 < n && n - 3 <= |ratios| && |T| == 2 * n - 3 &&
    forall k :: 0 <= k < n - 3 ==>
      T[n + k] == Add(Scale(ratios[k], T[2 * k]), Scale(1.0 - ratios[k], T[2 * k + 1]))
  }

  /** The first |src| entries of T are the sources' tristimulus values. */
  ghost predicate SourcesIn(T: seq<Xyz>, src: seq<Yxy>)
  {
    |src| <= |T| && forall j :: 0 <= j < |src| ==> src[j].y != 0.0 && T[j] == ToXyz(src[j])
  }

  lemma TableMerged(src: seq<Yxy>, ratios: seq<real>)
    requires Physical(src, ratios)
    ensures Merged(|src|, ratios, TableXyz(src, ratios))
    ensures SourcesIn(TableXyz(src, ratios), src)
  {
    var T := TableXyz(src, ratios);
    forall k | 0 <= k < |src| - 3
      ensures T[|src| + k] == Add(Scale(ratios[k], T[2 * k]), Scale(1.0 - ratios[k], T[2 * k + 1]))
    {
      NodeMerge(src, ratios, k);
    }
  }

  /** Row j of the table is a physical colour with the tristimulus values
      TableXyz holds for it. */
  lemma TableAt(src: seq<Yxy>, ratios: seq<real>, j: nat)
    requires Physical(src, ratios) && j <= 2 * |src| - 4
    ensures Node(src, ratios, j).Some? && Node(src, ratios, j).value.Y > 0.0 && Node(src, ratios, j).value.y > 0.0
    ensures TableXyz(src, ratios)[j] == ToXyz(Node(src, ratios, j).value)
  {
    NodePhysical(src, ratios, j);
  }

  /** Row j's flux times its tristimulus values. */
  function Contribution(n: nat, ratios: seq<real>, f: seq<real>, T: seq<Xyz>, j: nat): Xyz
    requires 3 < n && n - 3 <= |ratios| && |f| == 3 && j < |T| == 2 * n - 3
  {
    Scale(Weight(n, ratios, f, j), T[j])
  }

  /** The contributions of rows lo to hi-1. */
  function Frontier(n: nat, ratios: seq<real>, f: seq<real>, T: seq<Xyz>, lo: nat, hi: nat): Xyz
    requires 3 < n && n - 3 <= |ratios| && |f| == 3 && |T| == 2 * n - 3 && lo <= hi <= |T|
    decreases hi - lo
  {
    if lo == hi then Zero else Add(Contribution(n, ratios, f, T, lo), Frontier(n, ratios, f, T, lo + 1, hi))
  }

  lemma {:induction false} FrontierSnoc(n: nat, ratios: seq<real>, f: seq<real>, T: seq<Xyz>, lo: nat, hi: nat)
    requires 3 < n && n - 3 <= |ratios| && |f| == 3 && |T| == 2 * n - 3 && lo <= hi < |T|
    ensures Frontier(n, ratios, f, T, lo, hi + 1) == Add(Frontier(n, ratios, f, T, lo, hi), Contribution(n, ratios, f, T, hi))
    decreases hi - lo
  {
    if lo < hi {
      FrontierSnoc(n, ratios, f, T, lo + 1, hi);
    }
  }

  /** w·(r·a + (1-r)·b) == (r·w)·a + ((1-r)·w)·b */
  lemma SplitShare(w: real, r: real, a: real, b: real)
    ensures w * (r * a + (1.0 - r) * b) == (r * w) * a + ((1.0 - r) * w) * b
  {
  }

  /** The two rows of merge k contribute what the virtual source does. */
  lemma MergeStep(n: nat, ratios: seq<real>, f: seq<real>, T: seq<Xyz>, k: nat)
    requires Merged(n, ratios, T) && |f| == 3 && k < n - 3
    ensures Add(Contribution(n, ratios, f, T, 2 * k), Contribution(n, ratios, f, T, 2 * k + 1)) ==
      Contribution(n, ratios, f, T, n + k)
  {
    var r := ratios[k];
    var w := Weight(n, ratios, f, n + k);
    assert (2 * k) / 2 == k && (2 * k + 1) / 2 == k;
    assert Weight(n, ratios, f, 2 * k) == r * w;
    assert Weight(n, ratios, f, 2 * k + 1) == (1.0 - r) * w;
    var a, b := T[2 * k], T[2 * k + 1];
    assert T[n + k] == Add(Scale(r, a), Scale(1.0 - r, b));
    SplitScale(w, r, a, b);
  }

  /** Scaling a mixture r·a + (1-r)·b by w gives a at r·w plus b at (1-r)·w. */
  lemma SplitScale(w: real, r: real, a: Xyz, b: Xyz)
    ensures Add(Scale(r * w, a), Scale((1.0 - r) * w, b)) == Scale(w, Add(Scale(r, a), Scale(1.0 - r, b)))
  {
    SplitShare(w, r, a.X, b.X);
    SplitShare(w, r, a.Y, b.Y);
    SplitShare(w, r, a.Z, b.Z);
  }

  /** Merge k replaces its two rows by the virtual source without changing
      the total contribution of the live rows. */
  lemma FrontierStep(n: nat, ratios: seq<real>, f: seq<real>, T: seq<Xyz>, k: nat)
    requires Merged(n, ratios, T) && |f| == 3 && k < n - 3
    ensures Frontier(n, ratios, f, T, 2 * k, n + k) == Frontier(n, ratios, f, T, 2 * k + 2, n + k + 1)
  {
    FrontierSnoc(n, ratios, f, T, 2 * k + 2, n + k);
    MergeStep(n, ratios, f, T, k);
  }

  /** The live rows after k merges contribute what the original sources do. */
  lemma {:induction false} FrontierInvariant(n: nat, ratios: seq<real>, f: seq<real>, T: seq<Xyz>, k: nat)
    requires Merged(n, ratios, T) && |f| == 3 && k <= n - 3
    ensures Frontier(n, ratios, f, T, 0, n) == Frontier(n, ratios, f, T, 2 * k, n + k)
  {
    if k > 0 {
      FrontierInvariant(n, ratios, f, T, k - 1);
      FrontierStep(n, ratios, f, T, k - 1);
    }
  }

  /** Σ w[j]·XYZ(src[j]) for j >= lo. */
  function MixtureFrom(w: seq<real>, src: seq<Yxy>, lo: nat): Xyz
    requires |w| == |src| && lo <= |src| && forall j :: 0 <= j < |src| ==> src[j].y != 0.0
    decreases |src| - lo
  {
    if lo == |src| then Zero else Add(Scale(w[lo], ToXyz(src[lo])), MixtureFrom(w, src, lo + 1))
  }

  /** The tristimulus values of the sources mixed at fluxes w. */
  function Mixture(w: seq<real>, src: seq<Yxy>): Xyz
    requires |w| == |src| && forall j :: 0 <= j < |src| ==> src[j].y != 0.0
  {
    MixtureFrom(w, src, 0)
  }

  lemma {:induction false} FrontierIsMixture(n: nat, ratios: seq<real>, f: seq<real>, T: seq<Xyz>, src: seq<Yxy>, w: seq<real>, lo: nat)
    requires Merged(n, ratios, T) && |f| == 3 && |src| == |w| == n && lo <= n
    requires forall j :: 0 <= j < n ==> src[j].y != 0.0 && T[j] == ToXyz(src[j]) && w[j] == Weight(n, ratios, f, j)
    ensures Frontier(n, ratios, f, T, lo, n) == MixtureFrom(w, src, lo)
    decreases n - lo
  {
    if lo < n {
      FrontierIsMixture(n, ratios, f, T, src, w, lo + 1);
    }
  }

  /** Mixing the sources at the propagated fluxes gives the mixture of the
      three final rows at the final fluxes. */
  lemma PropagatedMixture(n: nat, ratios: seq<real>, f: seq<real>, T: seq<Xyz>, src: seq<Yxy>)
    requires Merged(n, ratios, T) && |f| == 3 && |src| == n && SourcesIn(T, src)
    ensures Mixture(Weights(n, ratios, f), src) == Mix3(f[0], f[1], f[2], T[2 * n - 6], T[2 * n - 5], T[2 * n - 4])
  {
    var w := Weights(n, ratios, f);
    FrontierInvariant(n, ratios, f, T, n - 3);
    assert 2 * (n - 3) == 2 * n - 6 && n + (n - 3) == 2 * n - 3;
    var total := Frontier(n, ratios, f, T, 0, n);
    assert total == Frontier(n, ratios, f, T, 2 * n - 6, 2 * n - 3);
    FrontierIsMixture(n, ratios, f, T, src, w, 0);
    FinalFrontier(n, ratios, f, T);
    assert Mixture(w, src) == total;
  }

  /** The three final rows contribute their color3mixer mixture. */
  lemma FinalFrontier(n: nat, ratios: seq<real>, f: seq<real>, T: seq<Xyz>)
    requires 3 < n && n - 3 <= |ratios| && |f| == 3 && |T| == 2 * n - 3
    ensures Frontier(n, ratios, f, T, 2 * n - 6, 2 * n - 3) == Mix3(f[0], f[1], f[2], T[2 * n - 6], T[2 * n - 5], T[2 * n - 4])
  {
    var c0, c1, c2 := Contribution(n, ratios, f, T, 2 * n - 6), Contribution(n, ratios, f, T, 2 * n - 5), Contribution(n, ratios, f, T, 2 * n - 4);
    assert c0 == Scale(f[0], T[2 * n - 6]) && c1 == Scale(f[1], T[2 * n - 5]) && c2 == Scale(f[2], T[2 * n - 4]);
    assert Frontier(n, ratios, f, T, 2 * n - 4, 2 * n - 3) == Add(c2, Zero);
    assert Frontier(n, ratios, f, T, 2 * n - 5, 2 * n - 3) == Add(c1, Add(c2, Zero));
    assert Frontier(n, ratios, f, T, 2 * n - 6, 2 * n - 3) == Add(c0, Add(c1, Add(c2, Zero)));
  }

  /** The point of colormixer: whenever it returns fluxes, mixing the
      original sources at those fluxes reproduces the target's tristimulus
      values, and the target's y was non-zero. */
  lemma ColorMixerMatchesTarget(t: Yxy, src: seq<Yxy>, ratios: seq<real>)
    requires Physical(src, ratios)
    ensures var r := ColorMixerSpec(t, src, ratios);
      r.Ok? && r.value[0].Val? ==> t.y != 0.0 && Mixture(Values(r.value), src) == ToXyz(t)
  {
    var n := |src|;
    var r := ColorMixerSpec(t, src, ratios);
    var f := FinalFluxes(t, src, ratios);
    if f[0].Val? && f[1].Val? && f[2].Val? {
      PropagatedValues(t, src, ratios);
      PropagatedMatches(t, src, ratios);
    }
  }

  /** The fluxes of rows 0 to n-1. */
  function Weights(n: nat, ratios: seq<real>, f: seq<real>): (w: seq<real>)
    requires 3 < n && n - 3 <= |ratios| && |f| == 3
    ensures |w| == n
  {
    seq(n, j requires 0 <= j < n => Weight(n, ratios, f, j))
  }

  /** The final fluxes as reals. */
  function FinalValues(t: Yxy, src: seq<Yxy>, ratios: seq<real>): (f: seq<real>)
    requires 3 < |src| && |src| - 3 <= |ratios|
    ensures |f| == 3
  {
    var m := FinalFluxes(t, src, ratios);
    Values(m)
  }

  /** With valid final fluxes, colormixer returns every row's weight. */
  lemma PropagatedValues(t: Yxy, src: seq<Yxy>, ratios: seq<real>)
    requires Physical(src, ratios)
    requires var f := FinalFluxes(t, src, ratios); f[0].Val? && f[1].Val? && f[2].Val?
    ensures var r := ColorMixerSpec(t, src, ratios);
      r.Ok? && r.value[0].Val? && Values(r.value) == Weights(|src|, ratios, FinalValues(t, src, ratios))
  {
    var f := FinalFluxes(t, src, ratios);
    assert FinalValues(t, src, ratios) == [f[0].v, f[1].v, f[2].v];
  }

  /** Mixing the sources at the propagated weights gives the target. */
  lemma PropagatedMatches(t: Yxy, src: seq<Yxy>, ratios: seq<real>)
    requires Physical(src, ratios)
    requires var f := FinalFluxes(t, src, ratios); f[0].Val? && f[1].Val? && f[2].Val?
    ensures t.y != 0.0 && Mixture(Weights(|src|, ratios, FinalValues(t, src, ratios)), src) == ToXyz(t)
  {
    FinalRows(t, src, ratios);
    TableMerged(src, ratios);
    PropagatedMixture(|src|, ratios, FinalValues(t, src, ratios), TableXyz(src, ratios), src);
  }

  /** Valid final fluxes mix the three final rows to the target. */
  lemma FinalRows(t: Yxy, src: seq<Yxy>, ratios: seq<real>)
    requires Physical(src, ratios)
    requires var f := FinalFluxes(t, src, ratios); f[0].Val? && f[1].Val? && f[2].Val?
    ensures var f, T, n := FinalValues(t, src, ratios), TableXyz(src, ratios), |src|;
      t.y != 0.0 && Mix3(f[0], f[1], f[2], T[2 * n - 6], T[2 * n - 5], T[2 * n - 4]) == ToXyz(t)
  {
    var n := |src|;
    TableAt(src, ratios, 2 * n - 6);
    TableAt(src, ratios, 2 * n - 5);
    TableAt(src, ratios, 2 * n - 4);
    FinalsMatch(t, Node(src, ratios, 2 * n - 6), Node(src, ratios, 2 * n - 5), Node(src, ratios, 2 * n - 4), FinalFluxes(t, src, ratios));
  }

  /** Valid masked fluxes of three physical colours solve the target. */
  lemma FinalsMatch(t: Yxy, a: Option<Yxy>, b: Option<Yxy>, c: Option<Yxy>, f: seq<Num>)
    requires a.Some? && b.Some? && c.Some?
    requires a.value.Y > 0.0 && a.value.y > 0.0 && b.value.Y > 0.0 && b.value.y > 0.0 && c.value.Y > 0.0 && c.value.y > 0.0
    requires f == Masked(Color3MixerOpt(t, a, b, c)) && f[0].Val? && f[1].Val? && f[2].Val?
    ensures t.y != 0.0 && Mix3(f[0].v, f[1].v, f[2].v, ToXyz(a.value), ToXyz(b.value), ToXyz(c.value)) == ToXyz(t)
  {
    SameDenominator(t, a.value, b.value, c.value);
    Color3MixerMatchesTarget(t, a.value, b.value, c.value);
  }

  /** The three final rows are colours spanning a proper triangle that
      contains the target's chromaticity. */
  ghost predicate FinalsInGamut(t: Yxy, a: Option<Yxy>, b: Option<Yxy>, c: Option<Yxy>)
  {
    a.Some? && b.Some? && c.Some? && Det(a.value, b.value, c.value) != 0.0 &&
    InTriangle(t, a.value, b.value, c.value)
  }

  /** The target lies in the triangle of the three final virtual sources. */
  ghost predicate InFinalTriangle(t: Yxy, src: seq<Yxy>, ratios: seq<real>)
    requires 3 < |src| && |src| - 3 <= |ratios|
  {
    var n := |src|;
    FinalsInGamut(t, Node(src, ratios, 2 * n - 6), Node(src, ratios, 2 * n - 5), Node(src, ratios, 2 * n - 4))
  }

  /** colormixer returns fluxes, rather than NaN, exactly when the target lies
      in the triangle of the three final virtual sources. */
  lemma ColorMixerInGamut(t: Yxy, src: seq<Yxy>, ratios: seq<real>)
    requires Physical(src, ratios) && t.Y > 0.0 && t.y > 0.0
    ensures var r, n := ColorMixerSpec(t, src, ratios), |src|;
      r.Ok? && (r.value[0].Val? <==>
        FinalsInGamut(t, Node(src, ratios, 2 * n - 6), Node(src, ratios, 2 * n - 5), Node(src, ratios, 2 * n - 4)))
  {
    FinalsValid(t, src, ratios);
  }

  /** The final fluxes are all valid exactly when the finals are in gamut. */
  lemma FinalsValid(t: Yxy, src: seq<Yxy>, ratios: seq<real>)
    requires Physical(src, ratios) && t.Y > 0.0 && t.y > 0.0
    ensures var f, n := FinalFluxes(t, src, ratios), |src|;
      (f[0].Val? && f[1].Val? && f[2].Val?) <==>
        FinalsInGamut(t, Node(src, ratios, 2 * n - 6), Node(src, ratios, 2 * n - 5), Node(src, ratios, 2 * n - 4))
  {
    var n := |src|;
    TableAt(src, ratios, 2 * n - 6);
    TableAt(src, ratios, 2 * n - 5);
    TableAt(src, ratios, 2 * n - 4);
    ThreeInGamut(t, Node(src, ratios, 2 * n - 6), Node(src, ratios, 2 * n - 5), Node(src, ratios, 2 * n - 4));
  }

  lemma ThreeInGamut(t: Yxy, a: Option<Yxy>, b: Option<Yxy>, c: Option<Yxy>)
    requires t.Y > 0.0 && t.y > 0.0 && a.Some? && b.Some? && c.Some?
    requires a.value.Y > 0.0 && a.value.y > 0.0 && b.value.Y > 0.0 && b.value.y > 0.0 && c.value.Y > 0.0 && c.value.y > 0.0
    ensures var f := Masked(Color3MixerOpt(t, a, b, c));
      (f[0].Val? && f[1].Val? && f[2].Val?) <==> FinalsInGamut(t, a, b, c)
  {
    SameDenominator(t, a.value, b.value, c.value);
    if Det(a.value, b.value, c.value) != 0.0 {
      Color3MixerInGamut(t, a.value, b.value, c.value);
    }
  }
}
