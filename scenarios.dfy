/** What-if scenarios on the GEX of an option chain (core/scenarios.py, identical
    in both packages). Every scenario works on a copy of the table; the tables are
    values here, so the input is never changed. The per-row GEX is
    `ScenarioGexWith` (spot²·gamma·open_interest·size·0.01, puts negated). */
module Scenarios {
  import opened Wrappers
  import opened PyErrors
  import opened Tables
  import opened OptionRows
  import opened BlackScholes
  import Formatting

  const DaysPerYear: real := 365.0

  /** The scaling step behind the spot shock: moving the spot by `shift` multiplies
      a row's scenario GEX by `(1 + shift)²`. */
  lemma ScaledSpot(r: OptionRow, spot: real, shift: real, size: real)
    ensures ScenarioGexWith(r, r.gamma, spot * (1.0 + shift), size)
         == (1.0 + shift) * (1.0 + shift) * ScenarioGexWith(r, r.gamma, spot, size)
  {
    var q := 1.0 + shift;
    var c := r.gamma * r.openInterest * size;
    assert spot * q * r.gamma * r.openInterest * size * (spot * q) * 0.01 == q * q * (spot * r.gamma * r.openInterest * size * spot * 0.01) by {
      assert spot * q * r.gamma * r.openInterest * size * (spot * q) * 0.01 == (spot * spot * c * 0.01) * (q * q);
      assert spot * r.gamma * r.openInterest * size * spot * 0.01 == spot * spot * c * 0.01;
    }
  }

  /** `scenario_spot_shock`: the new spot `spot·(1 + shift)` and the table's total
      GEX re-evaluated there. The total at shift `p` is `(1 + p)²` times the total
      at the current spot. */
  function SpotShock(rows: seq<OptionRow>, spot: real, shift: real, size: real := 100.0): (res: (real, real))
    ensures res.0 == spot * (1.0 + shift)
    ensures res.1 == (1.0 + shift) * (1.0 + shift) * Sum(rows, ScenarioGexAt(spot, size))
  {
    SpotShockScales(rows, spot, shift, size);
    (spot * (1.0 + shift), Sum(rows, ScenarioGexAt(spot * (1.0 + shift), size)))
  }

  lemma SpotShockScales(rows: seq<OptionRow>, spot: real, shift: real, size: real)
    ensures Sum(rows, ScenarioGexAt(spot * (1.0 + shift), size)) == (1.0 + shift) * (1.0 + shift) * Sum(rows, ScenarioGexAt(spot, size))
  {
    forall i | 0 <= i < |rows|
      ensures ScenarioGexAt(spot * (1.0 + shift), size)(rows[i]) == (1.0 + shift) * (1.0 + shift) * ScenarioGexAt(spot, size)(rows[i])
    {
      ScaledSpot(rows[i], spot, shift, size);
    }
    SumScale(rows, ScenarioGexAt(spot * (1.0 + shift), size), rows, ScenarioGexAt(spot, size), (1.0 + shift) * (1.0 + shift));
  }

  /** A zero shift leaves spot and total unchanged, and the shock is even in the
      direction of a symmetric move only through `(1 ± p)²`. */
  lemma SpotShockZero(rows: seq<OptionRow>, spot: real, size: real)
    ensures SpotShock(rows, spot, 0.0, size) == (spot, Sum(rows, ScenarioGexAt(spot, size)))
  {
  }

  /** `df['iv'] + vol_shift` on a copy. */
  function ShiftIv(rows: seq<OptionRow>, shift: real): (out: seq<OptionRow>)
    ensures |out| == |rows|
    ensures forall i :: 0 <= i < |rows| ==> out[i] == rows[i].(iv := rows[i].iv + shift)
  {
    seq(|rows|, i requires 0 <= i < |rows| => rows[i].(iv := rows[i].iv + shift))
  }

  /** The Black–Scholes gamma of one row (0 where it does not price). */
  function BsGamma(m: MathLib, row: OptionRow, spot: real, rate: real): real
  {
    match RowGreeks(m, row, spot, rate)
    case Ok(g) => g.gamma
    case Err(_) => 0.0
  }

  /** The scenario GEX of a row with its gamma recomputed by Black–Scholes. */
  function PricedGex(m: MathLib, spot: real, rate: real, size: real): OptionRow -> real
  {
    (r: OptionRow) => ScenarioGexWith(r, BsGamma(m, r, spot, rate), spot, size)
  }

  /** `spot * new_greeks['gamma'] * df['open_interest'] * size * spot * 0.01`
      with puts inverted, summed: the gamma array is combined position by position
      with the table. */
  function GexFromGammas(rows: seq<OptionRow>, gammas: seq<real>, spot: real, size: real): real
    requires |gammas| == |rows|
  {
    Total(seq(|rows|, j requires 0 <= j < |rows| => ScenarioGexWith(rows[j], gammas[j], spot, size)))
  }

  /** The GEX total from a batch result: a missing "gamma" entry raises
      `KeyError`, an array of the wrong length cannot be broadcast. */
  function GexFromBatch(res: map<string, seq<real>>, rows: seq<OptionRow>, spot: real, size: real): Result<real, Error>
  {
    if "gamma" !in res then Err(KeyError("gamma"))
    else if |res["gamma"]| != |rows| then Err(ValueError("operands could not be broadcast together"))
    else Ok(GexFromGammas(rows, res["gamma"], spot, size))
  }

  /** When every row prices, the corrected batch yields the sum of the rows'
      Black–Scholes scenario GEX. */
  lemma GexFromCorrectedBatch(m: MathLib, rows: seq<OptionRow>, spot: real, rate: real, size: real)
    requires forall j :: 0 <= j < |rows| ==> RowGreeks(m, rows[j], spot, rate).Ok?
    ensures GreeksBatch(m, rows, RangeIndex(|rows|), spot, rate, GreekNames).Ok?
    ensures GexFromBatch(GreeksBatch(m, rows, RangeIndex(|rows|), spot, rate, GreekNames).value, rows, spot, size)
         == Ok(Sum(rows, PricedGex(m, spot, rate, size)))
  {
    CorrectedBatchFills(m, rows, spot, rate);
    var res := GreeksBatch(m, rows, RangeIndex(|rows|), spot, rate, GreekNames).value;
    assert "gamma" in GreekNames;
    var gammas := res["gamma"];
    var a := seq(|rows|, j requires 0 <= j < |rows| => ScenarioGexWith(rows[j], gammas[j], spot, size));
    assert a == Column(rows, PricedGex(m, spot, rate, size));
  }

  /** `scenario_vol_shock`: implied volatilities shifted on a copy, Greeks
      recomputed by the batch at the original (unshocked) spot, on a fresh index.
      `prealloc` is the batch's preallocated key list. */
  function VolShock(m: MathLib, rows: seq<OptionRow>, spot: real, volShift: real, rate: real, size: real, prealloc: seq<string>): Result<real, Error>
  {
    var shocked := ShiftIv(rows, volShift);
    match GreeksBatch(m, shocked, RangeIndex(|shocked|), spot, rate, prealloc)
    case Err(e) => Err(e)
    case Ok(res) => GexFromBatch(res, shocked, spot, size)
  }

  /** As written, the vol shock raises on every non-empty table and gives 0 on an
      empty one. */
  lemma VolShockAsWritten(m: MathLib, rows: seq<OptionRow>, spot: real, volShift: real, rate: real, size: real)
    ensures |rows| > 0 ==> VolShock(m, rows, spot, volShift, rate, size, AllocatedAsWritten).Err?
    ensures |rows| == 0 ==> VolShock(m, rows, spot, volShift, rate, size, AllocatedAsWritten) == Ok(0.0)
  {
    var shocked := ShiftIv(rows, volShift);
    if |rows| > 0 {
      AsWrittenBatchRaises(m, shocked, RangeIndex(|shocked|), spot, rate);
    } else {
      assert shocked == [];
      assert "gamma" in AllocatedAsWritten;
    }
  }

  /** Corrected, the vol shock is the sum of the shocked rows' Black–Scholes
      scenario GEX at the current spot, whenever every shocked row prices. */
  lemma VolShockCorrected(m: MathLib, rows: seq<OptionRow>, spot: real, volShift: real, rate: real, size: real)
    requires forall j :: 0 <= j < |rows| ==> RowGreeks(m, ShiftIv(rows, volShift)[j], spot, rate).Ok?
    ensures VolShock(m, rows, spot, volShift, rate, size, GreekNames) == Ok(Sum(ShiftIv(rows, volShift), PricedGex(m, spot, rate, size)))
  {
    GexFromCorrectedBatch(m, ShiftIv(rows, volShift), spot, rate, size);
  }

  /** Every row prices when the math library is lawful and spot, strikes, times
      and shifted volatilities are positive. */
  lemma ShockedRowsPrice(m: MathLib, rows: seq<OptionRow>, spot: real, volShift: real, rate: real)
    requires Lawful(m) && spot > 0.0
    requires forall j :: 0 <= j < |rows| ==> rows[j].strike > 0.0 && rows[j].t > 0.0 && rows[j].iv + volShift > 0.0
    ensures forall j :: 0 <= j < |rows| ==> RowGreeks(m, ShiftIv(rows, volShift)[j], spot, rate).Ok?
  {
    forall j | 0 <= j < |rows| ensures RowGreeks(m, ShiftIv(rows, volShift)[j], spot, rate).Ok? {
      var r := ShiftIv(rows, volShift)[j];
      GammaVegaPositive(m, spot, r.strike, r.t, rate, r.iv, r.kind);
    }
  }

  function ClipAtZero(x: real): (y: real)
    ensures y >= 0.0 && (x >= 0.0 ==> y == x)
  {
    if x < 0.0 then 0.0 else x
  }

  /** `T - days_forward / 365`, clipped at 0, on a copy. */
  function Decay(rows: seq<OptionRow>, days: int): (out: seq<OptionRow>)
    ensures |out| == |rows|
    ensures forall i :: 0 <= i < |rows| ==> out[i] == rows[i].(t := ClipAtZero(rows[i].t - days as real / DaysPerYear))
  {
    seq(|rows|, i requires 0 <= i < |rows| => rows[i].(t := ClipAtZero(rows[i].t - days as real / DaysPerYear)))
  }

  /** The rows with their index labels (a fresh index). */
  function Indexed(rows: seq<OptionRow>): (out: seq<(nat, OptionRow)>)
    ensures |out| == |rows| && forall i :: 0 <= i < |rows| ==> out[i] == (i, rows[i])
  {
    seq(|rows|, i requires 0 <= i < |rows| => (i, rows[i]))
  }

  predicate Alive(p: (nat, OptionRow)) { p.1.t > 0.0 }

  function LabelOf(p: (nat, OptionRow)): nat { p.0 }
  function RowOf(p: (nat, OptionRow)): OptionRow { p.1 }

  /** The unexpired rows after decay, keeping their original index labels. */
  function Survivors(rows: seq<OptionRow>, days: int): seq<(nat, OptionRow)>
  {
    Filter(Indexed(Decay(rows, days)), Alive)
  }

  /** `scenario_time_decay`: times to expiry decayed and clipped, expired rows
      dropped (their labels go with them); exactly 0.0 when nothing survives,
      otherwise the batch on the survivors at the current spot. */
  function TimeDecay(m: MathLib, rows: seq<OptionRow>, spot: real, days: int, rate: real, size: real, prealloc: seq<string>): Result<real, Error>
  {
    var live := Survivors(rows, days);
    if |live| == 0 then Ok(0.0)
    else
      var survivors := Project(live, RowOf);
      match GreeksBatch(m, survivors, Project(live, LabelOf), spot, rate, prealloc)
      case Err(e) => Err(e)
      case Ok(res) => GexFromBatch(res, survivors, spot, size)
  }

  /** A row survives exactly when its time to expiry exceeds the decay. */
  lemma SurvivorsMembers(rows: seq<OptionRow>, days: int)
    ensures forall i :: 0 <= i < |rows| ==>
      ((i, Decay(rows, days)[i]) in Survivors(rows, days) <==> rows[i].t > days as real / DaysPerYear)
    ensures |Survivors(rows, days)| == 0 <==> forall i :: 0 <= i < |rows| ==> rows[i].t <= days as real / DaysPerYear
  {
    var d := Decay(rows, days);
    assert Survivors(rows, days) == Filter<(nat, OptionRow)>(Indexed(d), Alive);
    FilterMembers<(nat, OptionRow)>(Indexed(d), Alive);
    forall i | 0 <= i < |rows| ensures (i, d[i]) in Indexed(d) {
      assert Indexed(d)[i] == (i, d[i]);
    }
    if forall i :: 0 <= i < |rows| ==> rows[i].t <= days as real / DaysPerYear {
      FilterNone<(nat, OptionRow)>(Indexed(d), Alive);
    }
  }

  /** With nothing left unexpired the scenario is exactly 0.0, whatever the batch
      would do. */
  lemma TimeDecayNoneSurvive(m: MathLib, rows: seq<OptionRow>, spot: real, days: int, rate: real, size: real, prealloc: seq<string>)
    requires forall i :: 0 <= i < |rows| ==> rows[i].t <= days as real / DaysPerYear
    ensures TimeDecay(m, rows, spot, days, rate, size, prealloc) == Ok(0.0)
  {
    SurvivorsMembers(rows, days);
  }

  /** As written, one unexpired row is enough for the time-decay scenario to raise. */
  lemma TimeDecayAsWritten(m: MathLib, rows: seq<OptionRow>, spot: real, days: int, rate: real, size: real, k: nat)
    requires k < |rows| && rows[k].t > days as real / DaysPerYear
    ensures TimeDecay(m, rows, spot, days, rate, size, AllocatedAsWritten).Err?
  {
    SurvivorsMembers(rows, days);
    var live := Survivors(rows, days);
    AsWrittenBatchRaises(m, Project(live, RowOf), Project(live, LabelOf), spot, rate);
  }

  /** Corrected, when no row expires and every decayed row prices, the scenario is
      the sum of the decayed rows' Black–Scholes scenario GEX. */
  lemma TimeDecayCorrected(m: MathLib, rows: seq<OptionRow>, spot: real, days: int, rate: real, size: real)
    requires |rows| > 0
    requires forall i :: 0 <= i < |rows| ==> rows[i].t > days as real / DaysPerYear
    requires forall j :: 0 <= j < |rows| ==> RowGreeks(m, Decay(rows, days)[j], spot, rate).Ok?
    ensures TimeDecay(m, rows, spot, days, rate, size, GreekNames) == Ok(Sum(Decay(rows, days), PricedGex(m, spot, rate, size)))
  {
    var d := Decay(rows, days);
    AllSurvive(rows, days);
    GexFromCorrectedBatch(m, d, spot, rate, size);
  }

  /** When no row expires, the survivors are every decayed row, labelled 0, 1, 2, ... */
  lemma AllSurvive(rows: seq<OptionRow>, days: int)
    requires forall i :: 0 <= i < |rows| ==> rows[i].t > days as real / DaysPerYear
    ensures Project(Survivors(rows, days), RowOf) == Decay(rows, days)
    ensures Project(Survivors(rows, days), LabelOf) == RangeIndex(|rows|)
  {
    var d := Decay(rows, days);
    forall i | 0 <= i < |Indexed(d)| ensures Alive(Indexed(d)[i]) {
    }
    FilterAll(Indexed(d), Alive);
    var live := Survivors(rows, days);
    assert live == Indexed(d);
    assert Project(live, RowOf) == d;
    assert Project(live, LabelOf) == RangeIndex(|d|);
  }

  /** Even with all nine arrays preallocated, the survivors keep their original
      index labels while the arrays shrink to the number of survivors: an expired
      row ahead of an unexpired one sends the survivor's Greeks past the end of
      the arrays. */
  lemma TimeDecayLabelOverrun(m: MathLib, a: OptionRow, b: OptionRow, spot: real, days: int, rate: real, size: real)
    requires a.t <= days as real / DaysPerYear < b.t
    requires RowGreeks(m, Decay([a, b], days)[1], spot, rate).Ok?
    ensures TimeDecay(m, [a, b], spot, days, rate, size, GreekNames) == Err(IndexError)
  {
    var d := Decay([a, b], days);
    SecondSurvives(a, b, days);
    var g := RowGreeks(m, d[1], spot, rate).value;
    var acc := Zeros(GreekNames, 1);
    assert "delta" in acc && |acc["delta"]| == 1;
    assert Items(g)[0].0 == "delta";
    assert FillRow(acc, 1, Items(g)) == Err(IndexError);
  }

  /** Of an expired row followed by an unexpired one, only the second survives,
      under its original label 1. */
  lemma SecondSurvives(a: OptionRow, b: OptionRow, days: int)
    requires a.t <= days as real / DaysPerYear < b.t
    ensures var d := Decay([a, b], days);
      Survivors([a, b], days) == [(1, d[1])] &&
      Project(Survivors([a, b], days), RowOf) == [d[1]] &&
      Project(Survivors([a, b], days), LabelOf) == [1]
  {
    var d := Decay([a, b], days);
    var ix := Indexed(d);
    assert ix == [(0, d[0]), (1, d[1])];
    var first: seq<(nat, OptionRow)> := ix[..1];
    assert first == [(0, d[0])];
    assert first[..0] == [];
    assert !Alive(ix[0]) && Alive(ix[1]);
    assert Filter(first, Alive) == Filter(first[..0], Alive) == [];
    assert ix[..|ix| - 1] == first;
    assert Filter(ix, Alive) == [(1, d[1])];
  }

  /** `scenario_time_decay` with the survivors re-indexed (`reset_index(drop=True)`)
      before the batch and all nine arrays allocated. */
  function TimeDecayReindexed(m: MathLib, rows: seq<OptionRow>, spot: real, days: int, rate: real, size: real): Result<real, Error>
  {
    var survivors := Project(Survivors(rows, days), RowOf);
    if |survivors| == 0 then Ok(0.0)
    else
      match GreeksBatch(m, survivors, RangeIndex(|survivors|), spot, rate, GreekNames)
      case Err(e) => Err(e)
      case Ok(res) => GexFromBatch(res, survivors, spot, size)
  }

  /** Re-indexed, the scenario is the sum of the surviving rows' Black–Scholes
      scenario GEX whenever they all price, expired rows ahead of them or not. */
  lemma TimeDecayReindexedSum(m: MathLib, rows: seq<OptionRow>, spot: real, days: int, rate: real, size: real)
    requires var survivors := Project(Survivors(rows, days), RowOf);
      forall j :: 0 <= j < |survivors| ==> RowGreeks(m, survivors[j], spot, rate).Ok?
    ensures TimeDecayReindexed(m, rows, spot, days, rate, size)
         == Ok(Sum(Project(Survivors(rows, days), RowOf), PricedGex(m, spot, rate, size)))
  {
    var survivors := Project(Survivors(rows, days), RowOf);
    if |survivors| > 0 {
      GexFromCorrectedBatch(m, survivors, spot, rate, size);
    }
  }

  /** The input that overruns as written prices its one survivor once re-indexed. */
  lemma TimeDecayReindexedExample(m: MathLib, a: OptionRow, b: OptionRow, spot: real, days: int, rate: real, size: real)
    requires a.t <= days as real / DaysPerYear < b.t
    requires RowGreeks(m, Decay([a, b], days)[1], spot, rate).Ok?
    ensures TimeDecayReindexed(m, [a, b], spot, days, rate, size)
         == Ok(PricedGex(m, spot, rate, size)(Decay([a, b], days)[1]))
  {
    var d := Decay([a, b], days);
    SecondSurvives(a, b, days);
    TimeDecayReindexedSum(m, [a, b], spot, days, rate, size);
    SumSingle(d[1], PricedGex(m, spot, rate, size));
  }

  // ---------------------------------------------------------------------------
  // scenario_all

  /** `f'{shift:+.1%}'`: an explicit sign, the magnitude in percent at one
      decimal (rendered by `fixed`), and "%". */
  function ShiftLabel(fixed: (real, nat) -> string, shift: real): string
  {
    (if shift < 0.0 then "-" else "+") + fixed(Abs(shift) * 100.0, 1) + "%"
  }

  /** `f'{days}d'`. */
  function DaysLabel(days: int): string
  {
    Formatting.IntToDecimal(days) + "d"
  }

  /** Day labels never collide: distinct day counts get distinct entries. */
  lemma DaysLabelInjective(a: int, b: int)
    requires DaysLabel(a) == DaysLabel(b)
    ensures a == b
  {
    var sa, sb := Formatting.IntToDecimal(a), Formatting.IntToDecimal(b);
    assert sa == DaysLabel(a)[..|DaysLabel(a)| - 1];
    assert sb == DaysLabel(b)[..|DaysLabel(b)| - 1];
    Formatting.IntToDecimalRoundTrip(a);
    Formatting.IntToDecimalRoundTrip(b);
  }

  /** Shifts whose magnitudes render the same and have the same sign share a label:
      their entries collapse into one. */
  lemma ShiftLabelCollision(fixed: (real, nat) -> string, s1: real, s2: real)
    requires (s1 < 0.0 <==> s2 < 0.0) && fixed(Abs(s1) * 100.0, 1) == fixed(Abs(s2) * 100.0, 1)
    ensures ShiftLabel(fixed, s1) == ShiftLabel(fixed, s2)
  {
  }

  /** The dict one scenario loop builds: for each requested value in order, the
      entry under its label is (re)written with that value's result; the first
      failing run propagates its error. */
  function Fold<X, V>(xs: seq<X>, keyOf: X -> string, run: X -> Result<V, Error>): Result<map<string, V>, Error>
    decreases |xs|
  {
    if |xs| == 0 then Ok(map[])
    else
      var x := xs[|xs| - 1];
      match Fold(xs[..|xs| - 1], keyOf, run)
      case Err(e) => Err(e)
      case Ok(acc) =>
        match run(x)
        case Err(e) => Err(e)
        case Ok(v) => Ok(acc[keyOf(x) := v])
  }

  /** The loop succeeds exactly when every run succeeds, and then has one key per
      distinct keyOf. */
  lemma {:induction false} FoldOk<X, V>(xs: seq<X>, keyOf: X -> string, run: X -> Result<V, Error>)
    ensures Fold(xs, keyOf, run).Ok? <==> forall i :: 0 <= i < |xs| ==> run(xs[i]).Ok?
    ensures Fold(xs, keyOf, run).Ok? ==> Fold(xs, keyOf, run).value.Keys == set i | 0 <= i < |xs| :: keyOf(xs[i])
    decreases |xs|
  {
    if |xs| > 0 {
      var p := xs[..|xs| - 1];
      FoldOk(p, keyOf, run);
      assert forall i :: 0 <= i < |p| ==> p[i] == xs[i];
      if Fold(xs, keyOf, run).Ok? {
        var ks := set i | 0 <= i < |xs| :: keyOf(xs[i]);
        var kp := set i | 0 <= i < |p| :: keyOf(p[i]);
        assert ks == kp + {keyOf(xs[|xs| - 1])} by {
          forall k | k in ks ensures k in kp + {keyOf(xs[|xs| - 1])} {
            var i :| 0 <= i < |xs| && keyOf(xs[i]) == k;
            if i < |p| { assert keyOf(p[i]) == k; }
          }
        }
      }
    }
  }

  /** The first failing run decides the error. */
  lemma {:induction false} FoldFirstError<X, V>(xs: seq<X>, keyOf: X -> string, run: X -> Result<V, Error>, k: nat)
    requires k < |xs| && run(xs[k]).Err?
    requires forall i :: 0 <= i < k ==> run(xs[i]).Ok?
    ensures Fold(xs, keyOf, run) == Err(run(xs[k]).error)
    decreases |xs|
  {
    var p := xs[..|xs| - 1];
    if k < |p| {
      assert forall i :: 0 <= i <= k ==> p[i] == xs[i];
      FoldFirstError(p, keyOf, run, k);
    } else {
      assert forall i :: 0 <= i < |p| ==> p[i] == xs[i];
      FoldOk(p, keyOf, run);
    }
  }

  /** Last write wins: the entry under a label holds the result of the last
      requested value with that label, independently of every other value. */
  lemma {:induction false} FoldLastWins<X, V>(xs: seq<X>, keyOf: X -> string, run: X -> Result<V, Error>, i: nat)
    requires Fold(xs, keyOf, run).Ok? && i < |xs|
    requires forall j :: i < j < |xs| ==> keyOf(xs[j]) != keyOf(xs[i])
    ensures run(xs[i]).Ok?
    ensures keyOf(xs[i]) in Fold(xs, keyOf, run).value
    ensures Fold(xs, keyOf, run).value[keyOf(xs[i])] == run(xs[i]).value
    decreases |xs|
  {
    var p := xs[..|xs| - 1];
    if i < |p| {
      assert forall j :: i <= j < |p| ==> p[j] == xs[j];
      FoldLastWins(p, keyOf, run, i);
    }
  }

  /** `{'spot': new_spot, 'gex': new_gex}`. */
  datatype SpotScenario = SpotScenario(spot: real, gex: real)

  /** The dict `scenario_all` returns. */
  datatype ScenarioReport = ScenarioReport(
    baseGex: real,
    spotScenarios: map<string, SpotScenario>,
    volScenarios: map<string, real>,
    timeScenarios: map<string, real>)

  function SpotRun(rows: seq<OptionRow>, spot: real, size: real): real -> Result<SpotScenario, Error>
  {
    (shift: real) => var s := SpotShock(rows, spot, shift, size); Ok(SpotScenario(s.0, s.1))
  }

  function VolRun(m: MathLib, rows: seq<OptionRow>, spot: real, rate: real, size: real, prealloc: seq<string>): real -> Result<real, Error>
  {
    (shift: real) => VolShock(m, rows, spot, shift, rate, size, prealloc)
  }

  function TimeRun(m: MathLib, rows: seq<OptionRow>, spot: real, rate: real, size: real, prealloc: seq<string>): int -> Result<real, Error>
  {
    (days: int) => TimeDecay(m, rows, spot, days, rate, size, prealloc)
  }

  function ShiftLabeller(fixed: (real, nat) -> string): real -> string
  {
    (shift: real) => ShiftLabel(fixed, shift)
  }

  /** Everything `scenario_all` computes, in its order: base GEX (the `GEX`
      column's sum), then the spot, vol and time loops. */
  function AllScenarios(m: MathLib, fixed: (real, nat) -> string, rows: seq<OptionRow>, spot: real,
                        spotShifts: seq<real>, volShifts: seq<real>, timeDays: seq<int>,
                        rate: real, size: real, prealloc: seq<string>): Result<ScenarioReport, Error>
  {
    match Fold(spotShifts, ShiftLabeller(fixed), SpotRun(rows, spot, size))
    case Err(e) => Err(e)
    case Ok(spots) =>
      match Fold(volShifts, ShiftLabeller(fixed), VolRun(m, rows, spot, rate, size, prealloc))
      case Err(e) => Err(e)
      case Ok(vols) =>
        match Fold(timeDays, DaysLabel, TimeRun(m, rows, spot, rate, size, prealloc))
        case Err(e) => Err(e)
        case Ok(times) => Ok(ScenarioReport(Sum(rows, GexOf), spots, vols, times))
  }

  /** One scenario loop: `for x in xs: results[keyOf(x)] = run(x)`. */
  method RunScenarios<X, V>(xs: seq<X>, keyOf: X -> string, run: X -> Result<V, Error>) returns (res: Result<map<string, V>, Error>)
    ensures res == Fold(xs, keyOf, run)
  {
    var acc: map<string, V> := map[];
    for i := 0 to |xs|
      invariant Fold(xs[..i], keyOf, run) == Ok(acc)
    {
      assert xs[..i + 1][..i] == xs[..i];
      var r := run(xs[i]);
      if r.Err? {
        assert Fold(xs[..i + 1], keyOf, run) == Err(r.error);
        FoldOk(xs[..i], keyOf, run);
        FoldFirstError(xs, keyOf, run, i);
        return Err(r.error);
      }
      acc := acc[keyOf(xs[i]) := r.value];
    }
    assert xs[..|xs|] == xs;
    return Ok(acc);
  }

  /** `scenario_all`: the three loops in order, each independent of the others. */
  method ScenarioAll(m: MathLib, fixed: (real, nat) -> string, rows: seq<OptionRow>, spot: real,
                     spotShifts: seq<real>, volShifts: seq<real>, timeDays: seq<int>,
                     rate: real, size: real, prealloc: seq<string>) returns (res: Result<ScenarioReport, Error>)
    ensures res == AllScenarios(m, fixed, rows, spot, spotShifts, volShifts, timeDays, rate, size, prealloc)
  {
    var base := Sum(rows, GexOf);
    var spots := RunScenarios(spotShifts, ShiftLabeller(fixed), SpotRun(rows, spot, size));
    if spots.Err? {
      return Err(spots.error);
    }
    var vols := RunScenarios(volShifts, ShiftLabeller(fixed), VolRun(m, rows, spot, rate, size, prealloc));
    if vols.Err? {
      return Err(vols.error);
    }
    var times := RunScenarios(timeDays, DaysLabel, TimeRun(m, rows, spot, rate, size, prealloc));
    if times.Err? {
      return Err(times.error);
    }
    return Ok(ScenarioReport(base, spots.value, vols.value, times.value));
  }

  /** The spot loop never fails; each spot entry is the shock of the last shift
      with that label, scaled from the current total by `(1 + shift)²`. */
  lemma SpotScenariosEntries(rows: seq<OptionRow>, spot: real, fixed: (real, nat) -> string, shifts: seq<real>, size: real, i: nat)
    requires i < |shifts|
    requires forall j :: i < j < |shifts| ==> ShiftLabel(fixed, shifts[j]) != ShiftLabel(fixed, shifts[i])
    ensures Fold(shifts, ShiftLabeller(fixed), SpotRun(rows, spot, size)).Ok?
    ensures ShiftLabel(fixed, shifts[i]) in Fold(shifts, ShiftLabeller(fixed), SpotRun(rows, spot, size)).value
    ensures var e := Fold(shifts, ShiftLabeller(fixed), SpotRun(rows, spot, size)).value[ShiftLabel(fixed, shifts[i])];
      e.spot == spot * (1.0 + shifts[i]) &&
      e.gex == (1.0 + shifts[i]) * (1.0 + shifts[i]) * Sum(rows, ScenarioGexAt(spot, size))
  {
    FoldOk(shifts, ShiftLabeller(fixed), SpotRun(rows, spot, size));
    FoldLastWins(shifts, ShiftLabeller(fixed), SpotRun(rows, spot, size), i);
  }

  /** As written, `scenario_all` raises as soon as there is a vol shift and the
      table is not empty. */
  lemma ScenarioAllAsWrittenRaises(m: MathLib, fixed: (real, nat) -> string, rows: seq<OptionRow>, spot: real,
                                   spotShifts: seq<real>, volShifts: seq<real>, timeDays: seq<int>, rate: real, size: real)
    requires |rows| > 0 && |volShifts| > 0
    ensures AllScenarios(m, fixed, rows, spot, spotShifts, volShifts, timeDays, rate, size, AllocatedAsWritten).Err?
  {
    VolShockAsWritten(m, rows, spot, volShifts[0], rate, size);
    FoldFirstError(volShifts, ShiftLabeller(fixed), VolRun(m, rows, spot, rate, size, AllocatedAsWritten), 0);
  }

  /** Corrected, every requested day count has its own time entry: the entry for
      `days` is the time-decay scenario for `days`. */
  lemma TimeScenariosEntries(m: MathLib, rows: seq<OptionRow>, spot: real, rate: real, size: real, timeDays: seq<int>, i: nat)
    requires i < |timeDays|
    requires Fold(timeDays, DaysLabel, TimeRun(m, rows, spot, rate, size, GreekNames)).Ok?
    ensures DaysLabel(timeDays[i]) in Fold(timeDays, DaysLabel, TimeRun(m, rows, spot, rate, size, GreekNames)).value
    ensures TimeDecay(m, rows, spot, timeDays[i], rate, size, GreekNames).Ok?
    ensures TimeDecay(m, rows, spot, timeDays[i], rate, size, GreekNames).value ==
      Fold(timeDays, DaysLabel, TimeRun(m, rows, spot, rate, size, GreekNames)).value[DaysLabel(timeDays[i])]
  {
    var j := i;
    while j + 1 < |timeDays| && exists k :: j < k < |timeDays| && DaysLabel(timeDays[k]) == DaysLabel(timeDays[i])
      invariant i <= j < |timeDays| && timeDays[j] == timeDays[i]
      decreases |timeDays| - j
    {
      var k :| j < k < |timeDays| && DaysLabel(timeDays[k]) == DaysLabel(timeDays[i]);
      DaysLabelInjective(timeDays[k], timeDays[i]);
      j := k;
    }
    FoldLastWins(timeDays, DaysLabel, TimeRun(m, rows, spot, rate, size, GreekNames), j);
  }
}
