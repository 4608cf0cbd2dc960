/** Advanced GEX analytics (gex_tracker/core/advanced_gex.py). Every function works
    on a copy of its table. The per-row GEX is the scenario form
    `ScenarioGexWith` (spot²·gamma·open_interest·size·0.01, puts negated), not the
    calculator's notional gamma. */
module AdvancedGex {
  import opened Wrappers
  import opened PyErrors
  import opened Tables
  import opened OptionRows
  import opened Calculator

  // ---------------------------------------------------------------------------
  // compute_call_put_gex

  datatype CallPut = CallPut(callGex: real, putGex: real, totalGex: real)

  /** `compute_call_put_gex`: the scenario GEX of the "C" rows, of the "P" rows,
      and their sum; rows of any other type count in neither. */
  function ComputeCallPutGex(rows: seq<OptionRow>, spot: real, size: real := 100.0): (res: CallPut)
    ensures res.totalGex == res.callGex + res.putGex
    ensures res.totalGex + Sum(Filter(rows, KindOther()), ScenarioGexAt(spot, size)) == Sum(rows, ScenarioGexAt(spot, size))
  {
    var gex := ScenarioGexAt(spot, size);
    SumSplit3(rows, KindIs("C"), KindIs("P"), KindOther(), gex);
    var calls := Sum(Filter(rows, KindIs("C")), gex);
    var puts := Sum(Filter(rows, KindIs("P")), gex);
    CallPut(calls, puts, calls + puts)
  }

  lemma NonNegScenarioProduct(spot: real, gamma: real, oi: real, size: real)
    requires gamma >= 0.0 && oi >= 0.0 && size >= 0.0
    ensures spot * gamma * oi * size * spot * 0.01 >= 0.0
  {
    assert spot * gamma * oi * size * spot * 0.01 == (spot * spot) * (gamma * oi * size) * 0.01;
    assert spot * spot >= 0.0;
    assert gamma * oi >= 0.0;
    assert gamma * oi * size >= 0.0;
  }

  /** With non-negative gammas, open interest and contract size, the call GEX is
      non-negative and the put GEX non-positive, whatever the sign of the spot. */
  lemma CallPutSigns(rows: seq<OptionRow>, spot: real, size: real)
    requires size >= 0.0
    requires forall i :: 0 <= i < |rows| ==> rows[i].gamma >= 0.0 && rows[i].openInterest >= 0.0
    ensures ComputeCallPutGex(rows, spot, size).callGex >= 0.0
    ensures ComputeCallPutGex(rows, spot, size).putGex <= 0.0
  {
    var gex := ScenarioGexAt(spot, size);
    forall r | r in rows ensures (r.kind == "P" ==> gex(r) <= 0.0) && (r.kind != "P" ==> gex(r) >= 0.0) {
      var i :| 0 <= i < |rows| && rows[i] == r;
      NonNegScenarioProduct(spot, r.gamma, r.openInterest, size);
    }
    var c := Filter(rows, KindIs("C"));
    var p := Filter(rows, KindIs("P"));
    FilterMembers(rows, KindIs("C"));
    FilterMembers(rows, KindIs("P"));
    forall i | 0 <= i < |c| ensures gex(c[i]) >= 0.0 { assert c[i] in c; }
    forall i | 0 <= i < |p| ensures gex(p[i]) <= 0.0 { assert p[i] in p; }
    SumSign(c, gex);
    SumSign(p, gex);
  }

  /** The two GEX conventions differ by a factor `0.01·spot`: with the standard
      contract size, the call/put total plus the rows of other types is `0.01·spot`
      times the calculator's total notional gamma. */
  lemma CallPutVersusNotional(rows: seq<OptionRow>, spot: real)
    ensures ComputeCallPutGex(rows, spot, ContractSize).totalGex + Sum(Filter(rows, KindOther()), ScenarioGexAt(spot, ContractSize))
         == 0.01 * spot * TotalGex(WithNotionalGamma(rows, spot))
  {
    var cp := ComputeCallPutGex(rows, spot, ContractSize);
    ScenarioVersusNotional(rows, spot, Sum(rows, ScenarioGexAt(spot, ContractSize)));
  }

  lemma ScenarioVersusNotional(rows: seq<OptionRow>, spot: real, total: real)
    requires total == Sum(rows, ScenarioGexAt(spot, ContractSize))
    ensures total == 0.01 * spot * TotalGex(WithNotionalGamma(rows, spot))
  {
    var w := WithNotionalGamma(rows, spot);
    ScaledColumns(rows, spot, w);
    SumScale(rows, ScenarioGexAt(spot, ContractSize), w, NotionalOf, 0.01 * spot);
    MulCongruence(0.01 * spot, Sum(w, NotionalOf), TotalGex(w));
  }

  lemma MulCongruence(c: real, x: real, y: real)
    requires x == y
    ensures c * x == c * y
  {
  }

  lemma ScaledColumns(rows: seq<OptionRow>, spot: real, w: seq<OptionRow>)
    requires w == WithNotionalGamma(rows, spot)
    ensures |w| == |rows|
    ensures forall i :: 0 <= i < |rows| ==> ScenarioGexAt(spot, ContractSize)(rows[i]) == 0.01 * spot * NotionalOf(w[i])
  {
    forall i | 0 <= i < |rows| ensures ScenarioGexAt(spot, ContractSize)(rows[i]) == 0.01 * spot * NotionalOf(w[i]) {
      RowScale(rows[i], spot, w[i].notionalGamma);
    }
  }

  lemma RowScale(r: OptionRow, spot: real, n: real)
    requires n == (if r.kind == "P" then -1.0 else 1.0) * (r.gamma * ContractSize * r.openInterest * spot)
    ensures ScenarioGexWith(r, r.gamma, spot, ContractSize) == 0.01 * spot * n
  {
    var x := r.gamma * ContractSize * r.openInterest * spot;
    assert spot * r.gamma * r.openInterest * ContractSize * spot * 0.01 == 0.01 * spot * x;
  }

  // ---------------------------------------------------------------------------
  // compute_gex_by_moneyness

  const DefaultMoneynessBins: seq<real> := [0.8, 0.9, 1.0, 1.1, 1.2]

  /** `pd.cut` membership of a row's moneyness `strike / spot` in the right-closed
      interval `(lo, hi]`. A zero spot makes the moneyness infinite or NaN, which
      falls in no interval. */
  function InBin(spot: real, lo: real, hi: real): OptionRow -> bool
  {
    (r: OptionRow) => spot != 0.0 && lo < r.strike / spot <= hi
  }

  predicate NonDecreasingEdges(bins: seq<real>)
  {
    forall i :: 0 < i < |bins| ==> bins[i - 1] <= bins[i]
  }

  predicate UniqueEdges(bins: seq<real>)
  {
    forall i :: 0 < i < |bins| ==> bins[i - 1] != bins[i]
  }

  /** One entry per interval between consecutive edges, in order, with the GEX sum
      of the rows in it (0 for an empty interval: every category is kept). */
  function MoneynessGroups(rows: seq<OptionRow>, spot: real, bins: seq<real>): (g: seq<((real, real), real)>)
    ensures |g| == if |bins| < 2 then 0 else |bins| - 1
    ensures forall i :: 0 <= i < |g| ==> g[i] == ((bins[i], bins[i + 1]), Sum(Filter(rows, InBin(spot, bins[i], bins[i + 1])), GexOf))
  {
    var n := if |bins| < 2 then 0 else |bins| - 1;
    seq(n, i requires 0 <= i < n => ((bins[i], bins[i + 1]), Sum(Filter(rows, InBin(spot, bins[i], bins[i + 1])), GexOf)))
  }

  /** `compute_gex_by_moneyness`: the default edges when none are given; edges
      that decrease raise `ValueError` in `pd.cut`, and so do repeated edges,
      except that `pd.cut` skips its uniqueness check for exactly two edges, so
      `[a, a]` gives the one empty interval `(a, a]` with sum 0. */
  function GexByMoneyness(rows: seq<OptionRow>, spot: real, bins: Option<seq<real>>): (res: Result<seq<((real, real), real)>, Error>)
    ensures var edges := if bins.None? then DefaultMoneynessBins else bins.value;
      res.Ok? <==> StrictlyIncreasing(edges) || (|edges| == 2 && edges[0] == edges[1])
    ensures var edges := if bins.None? then DefaultMoneynessBins else bins.value;
      |edges| == 2 && edges[0] == edges[1] ==> res == Ok([((edges[0], edges[0]), 0.0)])
  {
    var edges := if bins.None? then DefaultMoneynessBins else bins.value;
    AdjacentEdges(edges);
    if !NonDecreasingEdges(edges) then Err(ValueError("bins must increase monotonically."))
    else if |edges| != 2 && !UniqueEdges(edges) then Err(ValueError("Bin edges must be unique"))
    else
      MoneynessEmptyBin(rows, spot, edges);
      Ok(MoneynessGroups(rows, spot, edges))
  }

  /** Two equal edges make one interval `(a, a]`, which no row lies in. */
  lemma MoneynessEmptyBin(rows: seq<OptionRow>, spot: real, bins: seq<real>)
    ensures |bins| == 2 && bins[0] == bins[1] ==> MoneynessGroups(rows, spot, bins) == [((bins[0], bins[0]), 0.0)]
  {
    if |bins| == 2 && bins[0] == bins[1] {
      FilterNone(rows, InBin(spot, bins[0], bins[1]));
    }
  }

  /** Strictly increasing edges are exactly the non-decreasing, non-repeating ones. */
  lemma AdjacentEdges(bins: seq<real>)
    ensures StrictlyIncreasing(bins) <==> NonDecreasingEdges(bins) && UniqueEdges(bins)
  {
    if NonDecreasingEdges(bins) && UniqueEdges(bins) {
      AdjacentIncreasing(bins, |bins|);
    }
  }

  lemma {:induction false} AdjacentIncreasing(bins: seq<real>, n: nat)
    requires n <= |bins|
    requires forall i :: 0 < i < |bins| ==> bins[i - 1] < bins[i]
    ensures forall i, j :: 0 <= i < j < n ==> bins[i] < bins[j]
  {
    if n > 1 {
      AdjacentIncreasing(bins, n - 1);
      forall i | 0 <= i < n - 1 ensures bins[i] < bins[n - 1] {
        assert bins[n - 2] < bins[n - 1];
      }
    }
  }

  /** With valid edges a row lies in at most one interval, and in none when its
      moneyness is outside `(first edge, last edge]`. */
  lemma MoneynessBinsDisjoint(r: OptionRow, spot: real, bins: seq<real>, i: nat, j: nat)
    requires StrictlyIncreasing(bins)
    requires i + 1 < |bins| && j + 1 < |bins|
    requires InBin(spot, bins[i], bins[i + 1])(r) && InBin(spot, bins[j], bins[j + 1])(r)
    ensures i == j
    ensures InBin(spot, bins[0], bins[|bins| - 1])(r)
  {
  }

  /** With valid edges the interval sums add up to the GEX of the rows whose
      moneyness lies in `(first edge, last edge]`. */
  lemma {:induction false} MoneynessTotal(rows: seq<OptionRow>, spot: real, bins: seq<real>)
    requires |bins| >= 2 && StrictlyIncreasing(bins)
    ensures Total(Values(MoneynessGroups(rows, spot, bins))) == Sum(Filter(rows, InBin(spot, bins[0], bins[|bins| - 1])), GexOf)
    decreases |bins|
  {
    var n := |bins|;
    var g := MoneynessGroups(rows, spot, bins);
    var last := Sum(Filter(rows, InBin(spot, bins[n - 2], bins[n - 1])), GexOf);
    if n == 2 {
      assert Values(g) == [last];
      assert Total([last]) == Total([]) + last;
    } else {
      var p := bins[..n - 1];
      assert StrictlyIncreasing(p) && p[0] == bins[0] && p[|p| - 1] == bins[n - 2];
      MoneynessTotal(rows, spot, p);
      MoneynessStep(rows, spot, bins);
    }
  }

  /** The step of the induction: adding the last edge adds the last interval's sum,
      which joins the interval below it. */
  lemma MoneynessStep(rows: seq<OptionRow>, spot: real, bins: seq<real>)
    requires |bins| >= 3 && bins[0] < bins[|bins| - 2] < bins[|bins| - 1]
    requires Total(Values(MoneynessGroups(rows, spot, bins[..|bins| - 1]))) ==
      Sum(Filter(rows, InBin(spot, bins[0], bins[|bins| - 2])), GexOf)
    ensures Total(Values(MoneynessGroups(rows, spot, bins))) == Sum(Filter(rows, InBin(spot, bins[0], bins[|bins| - 1])), GexOf)
  {
    var n := |bins|;
    var last := Sum(Filter(rows, InBin(spot, bins[n - 2], bins[n - 1])), GexOf);
    MoneynessGroupsSnoc(rows, spot, bins);
    TotalConcat(Values(MoneynessGroups(rows, spot, bins[..n - 1])), [last]);
    assert Total([last]) == Total([]) + last;
    AdjacentBins(rows, spot, bins[0], bins[n - 2], bins[n - 1]);
  }

  /** One more edge adds one interval at the end. */
  lemma MoneynessGroupsSnoc(rows: seq<OptionRow>, spot: real, bins: seq<real>)
    requires |bins| >= 3
    ensures var n := |bins|;
      Values(MoneynessGroups(rows, spot, bins)) ==
      Values(MoneynessGroups(rows, spot, bins[..n - 1])) + [Sum(Filter(rows, InBin(spot, bins[n - 2], bins[n - 1])), GexOf)]
  {
  }

  /** Two adjacent intervals make up the interval from the first's lower edge to the
      second's upper edge. */
  lemma AdjacentBins(rows: seq<OptionRow>, spot: real, a: real, b: real, c: real)
    requires a < b < c
    ensures Sum(Filter(rows, InBin(spot, a, b)), GexOf) + Sum(Filter(rows, InBin(spot, b, c)), GexOf) ==
      Sum(Filter(rows, InBin(spot, a, c)), GexOf)
  {
    SumPartition(rows, InBin(spot, a, b), InBin(spot, b, c), InBin(spot, a, c), GexOf);
  }

  /** A zero spot puts every row in no interval: every sum is 0. */
  lemma MoneynessZeroSpot(rows: seq<OptionRow>, bins: seq<real>)
    ensures forall i :: 0 <= i < |MoneynessGroups(rows, 0.0, bins)| ==> MoneynessGroups(rows, 0.0, bins)[i].1 == 0.0
  {
    forall i | 0 <= i < |MoneynessGroups(rows, 0.0, bins)| ensures MoneynessGroups(rows, 0.0, bins)[i].1 == 0.0 {
      FilterNone(rows, InBin(0.0, bins[i], bins[i + 1]));
    }
  }

  // ---------------------------------------------------------------------------
  // compute_cumulative_gex

  datatype CumulativeRow = CumulativeRow(strike: real, gex: real, cumGex: real)

  function CumulativeRows(g: seq<(real, real)>, cum: seq<(real, real)>): (c: seq<CumulativeRow>)
    requires |cum| == |g|
    ensures |c| == |g|
    ensures forall i :: 0 <= i < |g| ==> c[i] == CumulativeRow(g[i].0, g[i].1, cum[i].1)
  {
    seq(|g|, i requires 0 <= i < |g| => CumulativeRow(g[i].0, g[i].1, cum[i].1))
  }

  /** `compute_cumulative_gex`: one row per distinct strike with the strike's GEX
      and the running total, over the whole table (no band). */
  function ComputeCumulativeGex(rows: seq<OptionRow>): (c: seq<CumulativeRow>)
    ensures |c| == |GroupByStrike(rows, GexOf)|
  {
    var g := GroupByStrike(rows, GexOf);
    CumulativeRows(g, Cumulate(g))
  }

  /** The strikes are the table's distinct strikes in ascending order, each with
      the sum of its rows' GEX. */
  lemma CumulativeGexStrikes(rows: seq<OptionRow>)
    ensures var c := ComputeCumulativeGex(rows);
      (forall i, j :: 0 <= i < j < |c| ==> c[i].strike < c[j].strike) &&
      (forall k :: (exists i :: 0 <= i < |c| && c[i].strike == k) <==> k in Column(rows, StrikeOf)) &&
      (forall i :: 0 <= i < |c| ==> c[i].gex == SumAt(rows, StrikeOf, GexOf, c[i].strike)) &&
      (|rows| > 0 ==> |c| > 0)
  {
    var g := GroupByStrike(rows, GexOf);
    var c := ComputeCumulativeGex(rows);
    assert forall i :: 0 <= i < |g| ==> Keys(g)[i] == c[i].strike;
    forall k ensures (exists i :: 0 <= i < |c| && c[i].strike == k) <==> k in Keys(g) {
      if k in Keys(g) {
        var i :| 0 <= i < |g| && Keys(g)[i] == k;
        assert c[i].strike == k;
      }
    }
    if |rows| > 0 {
      assert Column(rows, StrikeOf)[0] in Keys(g);
    }
  }

  /** The running total starts at the first strike's GEX, adds each strike's GEX in
      turn and ends at the GEX of the whole table. */
  lemma CumulativeGexRunningTotal(rows: seq<OptionRow>)
    ensures var c := ComputeCumulativeGex(rows);
      (|c| > 0 ==> c[0].cumGex == c[0].gex) &&
      (forall i :: 0 < i < |c| ==> c[i].cumGex == c[i - 1].cumGex + c[i].gex) &&
      (|c| > 0 ==> c[|c| - 1].cumGex == Sum(rows, GexOf))
  {
  }

  // ---------------------------------------------------------------------------
  // find_zero_gamma

  /** `net_gamma_at_spot`: the table's scenario GEX re-evaluated at `spot`, with the
      gammas held fixed and a contract size of 100 written into the closure. */
  function NetGammaAt(rows: seq<OptionRow>, spot: real): real
  {
    Sum(rows, ScenarioGexAt(spot, 100.0))
  }

  function SignedGammaOi(r: OptionRow): real { Signed(r.kind, r.gamma * r.openInterest) }

  /** The net gamma is the square of the spot times the signed gamma·OI sum. */
  lemma NetGammaQuadratic(rows: seq<OptionRow>, spot: real)
    ensures NetGammaAt(rows, spot) == spot * (spot * Sum(rows, SignedGammaOi))
  {
    forall i | 0 <= i < |rows| ensures ScenarioGexAt(spot, 100.0)(rows[i]) == (spot * spot) * SignedGammaOi(rows[i]) {
      var r := rows[i];
      assert spot * r.gamma * r.openInterest * 100.0 * spot * 0.01 == (spot * spot) * (r.gamma * r.openInterest);
    }
    SumScale(rows, ScenarioGexAt(spot, 100.0), rows, SignedGammaOi, spot * spot);
    assert (spot * spot) * Sum(rows, SignedGammaOi) == spot * (spot * Sum(rows, SignedGammaOi));
  }

  const BisectXtol: real := 0.000000000002
  /** Four times the double-precision machine epsilon. */
  const BisectRtol: real := 0.0000000000000008881784197001252
  const BisectMaxIter: nat := 100

  /** `x * y > 0`, the bracket test both `find_zero_gamma` and the bisection make,
      written by cases on the signs. */
  predicate SameStrictSign(x: real, y: real)
  {
    (x > 0.0 && y > 0.0) || (x < 0.0 && y < 0.0)
  }

  /** `x * y >= 0`, the bisection's test for moving the left end. */
  predicate ProductNonNegative(x: real, y: real)
  {
    (x >= 0.0 && y >= 0.0) || (x <= 0.0 && y <= 0.0)
  }

  /** Both sign tests are the product tests they stand for. */
  lemma SignTests(x: real, y: real)
    ensures SameStrictSign(x, y) <==> x * y > 0.0
    ensures ProductNonNegative(x, y) <==> x * y >= 0.0
  {
    if x > 0.0 && y < 0.0 { assert x * y < 0.0; }
    if x < 0.0 && y > 0.0 { assert x * y < 0.0; }
    if x > 0.0 && y > 0.0 { assert x * y > 0.0; }
    if x < 0.0 && y < 0.0 { assert x * y > 0.0; }
  }

  /** The iteration of `scipy.optimize.bisect` after the bracket checks: halve the
      step, move the left end when `f` has its sign there, stop on an exact zero
      or once the step is within tolerance; out of iterations is an error. */
  function BisectSteps(f: real -> real, xa: real, fa: real, dm: real, iter: nat): Result<real, Error>
    decreases iter
  {
    if iter == 0 then Err(RuntimeError("Failed to converge"))
    else
      var dm' := dm * 0.5;
      var xm := xa + dm';
      var fm := f(xm);
      var xa' := if ProductNonNegative(fm, fa) then xm else xa;
      if fm == 0.0 || Abs(dm') < BisectXtol + BisectRtol * Abs(xm) then Ok(xm)
      else BisectSteps(f, xa', fa, dm', iter - 1)
  }

  /** `scipy.optimize.bisect(f, a, b)` with its default tolerances and 100
      iterations. */
  function Bisect(f: real -> real, a: real, b: real): Result<real, Error>
  {
    var fa := f(a);
    var fb := f(b);
    if SameStrictSign(fa, fb) then Err(ValueError("f(a) and f(b) must have different signs"))
    else if fa == 0.0 then Ok(a)
    else if fb == 0.0 then Ok(b)
    else BisectSteps(f, a, fa, b - a, BisectMaxIter)
  }

  /** The iteration never returns a point outside the bracket it was given: for a
      right-going step every returned point lies in `[xa, xa + dm]`. */
  lemma {:induction false} BisectStepsInBracket(f: real -> real, xa: real, fa: real, dm: real, iter: nat)
    requires dm >= 0.0
    ensures BisectSteps(f, xa, fa, dm, iter).Ok? ==>
      xa <= BisectSteps(f, xa, fa, dm, iter).value <= xa + dm
    decreases iter
  {
    if iter > 0 {
      var dm' := dm * 0.5;
      var xm := xa + dm';
      var xa' := if ProductNonNegative(f(xm), fa) then xm else xa;
      BisectStepsInBracket(f, xa', fa, dm', iter - 1);
    }
  }

  function NetGammaFn(rows: seq<OptionRow>): real -> real
  {
    (s: real) => NetGammaAt(rows, s)
  }

  /** The search interval `[spot·lo, spot·hi]`. */
  function Bracket(spot: real, boundsPct: (real, real)): (real, real)
  {
    (spot * boundsPct.0, spot * boundsPct.1)
  }

  /** `find_zero_gamma`: no zero when the net gamma has the same strict sign at
      both ends of `[spot·lo, spot·hi]`, otherwise the bisection's root; any
      error inside also gives no zero. */
  function FindZeroGamma(rows: seq<OptionRow>, spot: real, boundsPct: (real, real) := (0.8, 1.2)): Option<real>
  {
    var (lower, upper) := Bracket(spot, boundsPct);
    if SameStrictSign(NetGammaAt(rows, lower), NetGammaAt(rows, upper)) then None
    else RootOrNone(Bisect(NetGammaFn(rows), lower, upper))
  }

  /** The `except (ValueError, RuntimeError): return None` around the bisection. */
  function RootOrNone(res: Result<real, Error>): (o: Option<real>)
    ensures o.Some? <==> res.Ok?
    ensures res.Ok? ==> o.value == res.value
  {
    match res
    case Ok(x) => Some(x)
    case Err(_) => None
  }

  /** `x·(x·c)` has the sign of `c` or is zero. */
  lemma SquareSign(x: real, c: real, fx: real)
    requires fx == x * (x * c)
    ensures c > 0.0 ==> fx >= 0.0
    ensures c < 0.0 ==> fx <= 0.0
  {
    assert fx == (x * x) * c;
    assert x * x >= 0.0;
  }

  /** Because the net gamma is `spot²` times a constant, both ends of the bracket
      share a sign unless one of them is zero: the search finds nothing exactly
      when the spot, both bound factors and the signed gamma·OI sum are non-zero;
      otherwise it returns an end of the bracket without ever bisecting. */
  lemma FindZeroGammaOutcome(rows: seq<OptionRow>, spot: real, bounds: (real, real))
    ensures var a, b, c := bounds.0, bounds.1, Sum(rows, SignedGammaOi);
      FindZeroGamma(rows, spot, bounds) ==
        if spot != 0.0 && a != 0.0 && b != 0.0 && c != 0.0 then None
        else if spot == 0.0 || a == 0.0 || c == 0.0 then Some(spot * a)
        else Some(spot * b)
  {
    var br := Bracket(spot, bounds);
    EndSigns(rows, spot, bounds.0, bounds.1, br.0, br.1);
    FindZeroGammaEnds(rows, spot, bounds);
  }

  /** The signs of the net gamma at the two ends `x = spot·a` and `y = spot·b` of
      the bracket. */
  lemma EndSigns(rows: seq<OptionRow>, spot: real, a: real, b: real, x: real, y: real)
    requires x == spot * a && y == spot * b
    ensures var c := Sum(rows, SignedGammaOi);
      (NetGammaAt(rows, x) == 0.0 <==> spot == 0.0 || a == 0.0 || c == 0.0) &&
      (NetGammaAt(rows, y) == 0.0 <==> spot == 0.0 || b == 0.0 || c == 0.0) &&
      (SameStrictSign(NetGammaAt(rows, x), NetGammaAt(rows, y)) <==> NetGammaAt(rows, x) != 0.0 && NetGammaAt(rows, y) != 0.0)
  {
    EndSign(rows, spot, a, x);
    EndSign(rows, spot, b, y);
  }

  /** The net gamma at `x = spot·a` is zero exactly when one factor is, and
      otherwise has the sign of the signed gamma·OI sum. */
  lemma EndSign(rows: seq<OptionRow>, spot: real, a: real, x: real)
    requires x == spot * a
    ensures var c := Sum(rows, SignedGammaOi);
      (NetGammaAt(rows, x) == 0.0 <==> spot == 0.0 || a == 0.0 || c == 0.0) &&
      (c > 0.0 ==> NetGammaAt(rows, x) >= 0.0) && (c < 0.0 ==> NetGammaAt(rows, x) <= 0.0)
  {
    var c := Sum(rows, SignedGammaOi);
    NetGammaQuadratic(rows, x);
    SquareSign(x, c, NetGammaAt(rows, x));
    NonZeroSquare(spot, a, c, x, NetGammaAt(rows, x));
  }

  /** `find_zero_gamma` in terms of the net gamma at the two ends of the bracket. */
  lemma FindZeroGammaEnds(rows: seq<OptionRow>, spot: real, bounds: (real, real))
    requires var br := Bracket(spot, bounds);
      SameStrictSign(NetGammaAt(rows, br.0), NetGammaAt(rows, br.1)) <==> NetGammaAt(rows, br.0) != 0.0 && NetGammaAt(rows, br.1) != 0.0
    ensures var br := Bracket(spot, bounds);
      FindZeroGamma(rows, spot, bounds) ==
        if NetGammaAt(rows, br.0) != 0.0 && NetGammaAt(rows, br.1) != 0.0 then None
        else if NetGammaAt(rows, br.0) == 0.0 then Some(br.0)
        else Some(br.1)
  {
    var br := Bracket(spot, bounds);
    var f := NetGammaFn(rows);
    assert f(br.0) == NetGammaAt(rows, br.0) && f(br.1) == NetGammaAt(rows, br.1);
  }

  lemma MulNonZero(x: real, y: real)
    requires x != 0.0 && y != 0.0
    ensures x * y != 0.0
  {
  }

  lemma NonZeroSquare(spot: real, a: real, c: real, x: real, fx: real)
    requires x == spot * a && fx == x * (x * c)
    ensures fx == 0.0 <==> spot == 0.0 || a == 0.0 || c == 0.0
  {
    if spot != 0.0 && a != 0.0 && c != 0.0 {
      MulNonZero(spot, a);
      MulNonZero(x, c);
      MulNonZero(x, x * c);
    }
  }

  /** With the default bounds, a non-zero spot and a non-zero signed gamma·OI sum
      the zero-gamma point is never found. */
  lemma FindZeroGammaDefault(rows: seq<OptionRow>, spot: real)
    ensures FindZeroGamma(rows, spot).None? <==> spot != 0.0 && Sum(rows, SignedGammaOi) != 0.0
  {
    FindZeroGammaOutcome(rows, spot, (0.8, 1.2));
  }

  // ---------------------------------------------------------------------------
  // compute_weighted_metrics

  datatype WeightedMetrics = WeightedMetrics(weightedStrike: real, weightedExpiryDays: real)

  function AbsGex(r: OptionRow): real { Abs(r.gex) }

  /** `(expiration - now).dt.days` clipped below at 0. */
  function ClippedDays(r: OptionRow, now: int): (d: int)
    ensures d >= 0 && (r.expiration >= now ==> d == (r.expiration - now) / SecondsPerDay)
  {
    var d := (r.expiration - now) / SecondsPerDay;
    if d < 0 then 0 else d
  }

  function ClippedDaysColumn(rows: seq<OptionRow>, now: int): (c: seq<real>)
    ensures |c| == |rows| && forall i :: 0 <= i < |rows| ==> c[i] == ClippedDays(rows[i], now) as real
  {
    seq(|rows|, i requires 0 <= i < |rows| => ClippedDays(rows[i], now) as real)
  }

  /** `compute_weighted_metrics`: |GEX|-weighted averages of strike and of days to
      expiry (clipped at 0); both are 0 when every GEX is 0. */
  function ComputeWeightedMetrics(rows: seq<OptionRow>, now: int): (w: WeightedMetrics)
    ensures Sum(rows, AbsGex) == 0.0 ==> w == WeightedMetrics(0.0, 0.0)
  {
    var total := Sum(rows, AbsGex);
    if total == 0.0 then WeightedMetrics(0.0, 0.0)
    else
      WeightedMetrics(
        Dot(Column(rows, StrikeOf), Column(rows, AbsGex)) / total,
        Dot(ClippedDaysColumn(rows, now), Column(rows, AbsGex)) / total)
  }

  /** When some GEX is non-zero, the weighted strike lies between the smallest and
      the largest strike. */
  lemma WeightedStrikeBounds(rows: seq<OptionRow>, now: int, lo: real, hi: real)
    requires Sum(rows, AbsGex) != 0.0
    requires forall i :: 0 <= i < |rows| ==> lo <= rows[i].strike <= hi
    ensures lo <= ComputeWeightedMetrics(rows, now).weightedStrike <= hi
  {
    var ws := Column(rows, AbsGex);
    var xs := Column(rows, StrikeOf);
    assert Total(ws) > 0.0 by { SumSign(rows, AbsGex); }
    assert lo * Total(ws) <= Dot(xs, ws) <= hi * Total(ws) by { DotBounds(xs, ws, lo, hi); }
    DivBounds(Dot(xs, ws), Total(ws), lo, hi);
    assert ComputeWeightedMetrics(rows, now).weightedStrike == Dot(xs, ws) / Total(ws);
  }

  /** When some GEX is non-zero, the weighted expiry lies between the smallest and
      the largest clipped day count, so it is never negative. */
  lemma WeightedExpiryBounds(rows: seq<OptionRow>, now: int, lo: int, hi: int)
    requires Sum(rows, AbsGex) != 0.0
    requires forall i :: 0 <= i < |rows| ==> lo <= ClippedDays(rows[i], now) <= hi
    ensures lo as real <= ComputeWeightedMetrics(rows, now).weightedExpiryDays <= hi as real
    ensures ComputeWeightedMetrics(rows, now).weightedExpiryDays >= 0.0
  {
    WeightedExpiryWithin(rows, now, lo as real, hi as real);
    WeightedExpiryWithin(rows, now, 0.0, hi as real);
  }

  lemma WeightedExpiryWithin(rows: seq<OptionRow>, now: int, lo: real, hi: real)
    requires Sum(rows, AbsGex) != 0.0
    requires forall i :: 0 <= i < |rows| ==> lo <= ClippedDays(rows[i], now) as real <= hi
    ensures lo <= ComputeWeightedMetrics(rows, now).weightedExpiryDays <= hi
  {
    var ws := Column(rows, AbsGex);
    var xs := ClippedDaysColumn(rows, now);
    assert Total(ws) > 0.0 by { SumSign(rows, AbsGex); }
    assert lo * Total(ws) <= Dot(xs, ws) <= hi * Total(ws) by { DotBounds(xs, ws, lo, hi); }
    DivBounds(Dot(xs, ws), Total(ws), lo, hi);
    assert ComputeWeightedMetrics(rows, now).weightedExpiryDays == Dot(xs, ws) / Total(ws);
  }
}
