/** Black–Scholes Greeks (black_scholes.py). The normal density and distribution
    function, `log`, `exp` and `sqrt` are parameters (`MathLib`) constrained by the
    facts the proofs need (`Lawful`); the arithmetic around them is exact. */
module BlackScholes {
  import opened Wrappers
  import opened PyErrors
  import opened OptionRows

  /** `norm.pdf`, `norm.cdf`, `math.log`, `math.exp`, `math.sqrt`. */
  datatype MathLib = MathLib(pdf: real -> real, cdf: real -> real, log: real -> real, exp: real -> real, sqrt: real -> real)

  /** The properties of the standard normal distribution and of the elementary
      functions that the lemmas below rely on. */
  ghost predicate Lawful(m: MathLib)
  {
    (forall x :: m.pdf(x) > 0.0) &&
    (forall x :: 0.0 <= m.cdf(x) <= 1.0) &&
    (forall x :: m.cdf(-x) == 1.0 - m.cdf(x)) &&
    (forall x :: m.exp(x) > 0.0) &&
    (forall t :: t > 0.0 ==> m.sqrt(t) > 0.0 && m.sqrt(t) * m.sqrt(t) == t)
  }

  /** The nine Greeks, in the order of the returned dict. */
  datatype Greeks = Greeks(delta: real, gamma: real, theta: real, vega: real, rho: real,
                           charm: real, vanna: real, speed: real, color: real)

  const ZeroGreeks := Greeks(0.0, 0.0, 0.0, 0.0, 0.0, 0.0, 0.0, 0.0, 0.0)

  /** `black_scholes_greeks(S, K, T, r, sigma, option_type)`. A non-positive `T`
      returns zeros before anything is divided; otherwise `S / K` raises for `K = 0`,
      `log` raises for `S / K <= 0`, and the division by `sigma·sqrt(T)` raises when
      that is 0. Any type other than "C" is priced as a put. */
  function BlackScholesGreeks(m: MathLib, s: real, k: real, t: real, r: real, sigma: real, kind: string): (res: Result<Greeks, Error>)
    ensures t <= 0.0 ==> res == Ok(ZeroGreeks)
    ensures res.Err? <==> t > 0.0 && (k == 0.0 || s / k <= 0.0 || sigma * m.sqrt(t) == 0.0)
    ensures res.Err? ==> res.error == (if k == 0.0 || s / k > 0.0 then ZeroDivisionError else MathDomainError)
  {
    if t <= 0.0 then Ok(ZeroGreeks)
    else if k == 0.0 then Err(ZeroDivisionError)
    else if s / k <= 0.0 then Err(MathDomainError)
    else
      var sqrtT := m.sqrt(t);
      var volT := sigma * sqrtT;
      if volT == 0.0 then Err(ZeroDivisionError)
      else
        var d1 := (m.log(s / k) + (r + 0.5 * (sigma * sigma)) * t) / volT;
        var d2 := d1 - volT;
        var nd1 := m.pdf(d1);
        var cd1 := m.cdf(d1);
        var cd2 := m.cdf(d2);
        var disc := k * m.exp(-r * t);
        var isCall := kind == "C";
        var delta := if isCall then cd1 else cd1 - 1.0;
        var rho := if isCall then k * t * m.exp(-r * t) * cd2 else -k * t * m.exp(-r * t) * m.cdf(-d2);
        var theta := if isCall then -(s * nd1 * sigma) / (2.0 * sqrtT) - r * disc * cd2
                     else -(s * nd1 * sigma) / (2.0 * sqrtT) + r * disc * m.cdf(-d2);
        var gamma := nd1 / (s * volT);
        var vega := s * nd1 * sqrtT;
        var charm0 := -nd1 * (d2 / (2.0 * volT));
        var charm := if isCall then charm0 - r * disc * cd2 / (s * volT)
                     else charm0 + r * disc * m.cdf(-d2) / (s * volT);
        var vanna := -nd1 * d2 / sigma;
        var speed := -gamma * (d1 / volT + 1.0) / s;
        var color := -gamma * (r + (d1 * sigma) / (2.0 * sqrtT) + (2.0 * r + sigma * sigma) / (2.0 * sigma)) / (2.0 * t);
        Ok(Greeks(delta, gamma, theta, vega, rho, charm, vanna, speed, color))
  }

  /** Gamma and vega are positive for positive spot, strike, volatility and time. */
  lemma GammaVegaPositive(m: MathLib, s: real, k: real, t: real, r: real, sigma: real, kind: string)
    requires Lawful(m)
    requires s > 0.0 && k > 0.0 && t > 0.0 && sigma > 0.0
    ensures BlackScholesGreeks(m, s, k, t, r, sigma, kind).Ok?
    ensures BlackScholesGreeks(m, s, k, t, r, sigma, kind).value.gamma > 0.0
    ensures BlackScholesGreeks(m, s, k, t, r, sigma, kind).value.vega > 0.0
  {
    var sqrtT := m.sqrt(t);
    assert sqrtT > 0.0;
    assert s / k > 0.0;
    var volT := sigma * sqrtT;
    assert volT > 0.0;
    var d1 := (m.log(s / k) + (r + 0.5 * (sigma * sigma)) * t) / volT;
    assert m.pdf(d1) > 0.0;
    assert s * volT > 0.0;
    assert s * m.pdf(d1) > 0.0;
  }

  /** Only the delta, theta, rho and charm branches depend on the option type:
      gamma, vega, vanna, speed and color do not, and neither does failure. */
  lemma TypeIndependentGreeks(m: MathLib, s: real, k: real, t: real, r: real, sigma: real, kind1: string, kind2: string)
    ensures BlackScholesGreeks(m, s, k, t, r, sigma, kind1).Ok? == BlackScholesGreeks(m, s, k, t, r, sigma, kind2).Ok?
    ensures BlackScholesGreeks(m, s, k, t, r, sigma, kind1).Ok? ==>
      var g1 := BlackScholesGreeks(m, s, k, t, r, sigma, kind1).value;
      var g2 := BlackScholesGreeks(m, s, k, t, r, sigma, kind2).value;
      g1.gamma == g2.gamma && g1.vega == g2.vega && g1.vanna == g2.vanna && g1.speed == g2.speed && g1.color == g2.color
  {
  }

  /** Any type other than "C" is priced exactly as "P". */
  lemma NonCallIsPut(m: MathLib, s: real, k: real, t: real, r: real, sigma: real, kind: string)
    requires kind != "C"
    ensures BlackScholesGreeks(m, s, k, t, r, sigma, kind) == BlackScholesGreeks(m, s, k, t, r, sigma, "P")
  {
  }

  /** Put–call parity of the Greeks: call delta exceeds put delta by exactly 1, and
      call rho exceeds put rho by `K·T·exp(−rT)`. */
  lemma DeltaRhoParity(m: MathLib, s: real, k: real, t: real, r: real, sigma: real)
    requires Lawful(m)
    requires BlackScholesGreeks(m, s, k, t, r, sigma, "C").Ok? && t > 0.0
    ensures BlackScholesGreeks(m, s, k, t, r, sigma, "P").Ok?
    ensures BlackScholesGreeks(m, s, k, t, r, sigma, "C").value.delta
          - BlackScholesGreeks(m, s, k, t, r, sigma, "P").value.delta == 1.0
    ensures BlackScholesGreeks(m, s, k, t, r, sigma, "C").value.rho
          - BlackScholesGreeks(m, s, k, t, r, sigma, "P").value.rho == k * t * m.exp(-r * t)
  {
    TypeIndependentGreeks(m, s, k, t, r, sigma, "C", "P");
    var volT := sigma * m.sqrt(t);
    var d1 := (m.log(s / k) + (r + 0.5 * (sigma * sigma)) * t) / volT;
    var d2 := d1 - volT;
    var c := k * t * m.exp(-r * t);
    assert m.cdf(-d2) == 1.0 - m.cdf(d2);
    assert c * m.cdf(d2) - (-c * m.cdf(-d2)) == c * (m.cdf(d2) + m.cdf(-d2));
  }

  /** A zero volatility with positive time and a valid log argument raises
      `ZeroDivisionError`; nothing checks `sigma` beforehand. */
  lemma ZeroVolatilityRaises(m: MathLib, s: real, k: real, t: real, r: real, kind: string)
    requires t > 0.0 && k != 0.0 && s / k > 0.0
    ensures BlackScholesGreeks(m, s, k, t, r, 0.0, kind) == Err(ZeroDivisionError)
  {
  }

  // ---------------------------------------------------------------------------
  // The batch loop (compute_option_greeks)

  /** The keys of the returned dict, in order. */
  const GreekNames: seq<string> := ["delta", "gamma", "theta", "vega", "rho", "charm", "vanna", "speed", "color"]

  /** The keys `compute_option_greeks` preallocates: every Greek but "rho". */
  const AllocatedAsWritten: seq<string> := ["delta", "gamma", "theta", "vega", "charm", "vanna", "speed", "color"]

  /** `greeks.items()`. */
  function Items(g: Greeks): (items: seq<(string, real)>)
    ensures |items| == |GreekNames| && forall j :: 0 <= j < |items| ==> items[j].0 == GreekNames[j]
  {
    [("delta", g.delta), ("gamma", g.gamma), ("theta", g.theta), ("vega", g.vega), ("rho", g.rho),
     ("charm", g.charm), ("vanna", g.vanna), ("speed", g.speed), ("color", g.color)]
  }

  /** The named Greek of `g`. */
  function Get(g: Greeks, name: string): real
  {
    if name == "delta" then g.delta else if name == "gamma" then g.gamma
    else if name == "theta" then g.theta else if name == "vega" then g.vega
    else if name == "rho" then g.rho else if name == "charm" then g.charm
    else if name == "vanna" then g.vanna else if name == "speed" then g.speed
    else g.color
  }

  function ZeroArray(n: nat): (a: seq<real>)
    ensures |a| == n && forall j :: 0 <= j < n ==> a[j] == 0.0
  {
    seq(n, j => 0.0)
  }

  /** `{name: np.zeros(n) for name in names}`. */
  function Zeros(names: seq<string>, n: nat): (res: map<string, seq<real>>)
    ensures res.Keys == set name | name in names
    ensures forall name :: name in res ==> res[name] == ZeroArray(n)
  {
    map name | name in names :: ZeroArray(n)
  }

  /** The inner loop `for greek, value in greeks.items(): results[greek][i] = value`,
      from the item list `items` on; `i` is the row's index label, used as an
      array position. */
  function FillRow(acc: map<string, seq<real>>, i: nat, items: seq<(string, real)>): Result<map<string, seq<real>>, Error>
    decreases |items|
  {
    if |items| == 0 then Ok(acc)
    else
      var name := items[0].0;
      if name !in acc then Err(KeyError(name))
      else if i >= |acc[name]| then Err(IndexError)
      else FillRow(acc[name := acc[name][i := items[0].1]], i, items[1..])
  }

  /** The Greeks of one table row at spot `s` and rate `r`. */
  function RowGreeks(m: MathLib, row: OptionRow, s: real, r: real): Result<Greeks, Error>
  {
    BlackScholesGreeks(m, s, row.strike, row.t, r, row.iv, row.kind)
  }

  /** The index of a freshly built table: labels 0, 1, ..., n − 1. */
  function RangeIndex(n: nat): (labels: seq<nat>)
    ensures |labels| == n && forall j :: 0 <= j < n ==> labels[j] == j
  {
    seq(n, j => j)
  }

  /** The outer loop `for i, row in df.iterrows()` over the rows (with their index
      labels), from row `i` on, with the arrays `acc`. */
  function FillRows(m: MathLib, rows: seq<OptionRow>, labels: seq<nat>, s: real, r: real, acc: map<string, seq<real>>, i: nat): Result<map<string, seq<real>>, Error>
    requires |labels| == |rows|
    decreases |rows| - i
  {
    if i >= |rows| then Ok(acc)
    else
      match RowGreeks(m, rows[i], s, r)
      case Err(e) => Err(e)
      case Ok(g) =>
        match FillRow(acc, labels[i], Items(g))
        case Err(e) => Err(e)
        case Ok(acc') => FillRows(m, rows, labels, s, r, acc', i + 1)
  }

  /** What `compute_option_greeks` returns or raises on a table with index `labels`
      when it preallocates the arrays `prealloc`. */
  function GreeksBatch(m: MathLib, rows: seq<OptionRow>, labels: seq<nat>, s: real, r: real, prealloc: seq<string>): Result<map<string, seq<real>>, Error>
    requires |labels| == |rows|
  {
    FillRows(m, rows, labels, s, r, Zeros(prealloc, |rows|), 0)
  }

  /** `compute_option_greeks`, with the preallocated key list as a parameter: as
      written it is `AllocatedAsWritten`, corrected it is `GreekNames`. */
  method ComputeOptionGreeks(m: MathLib, rows: seq<OptionRow>, labels: seq<nat>, spot: real, riskFreeRate: real, prealloc: seq<string>)
    returns (res: Result<map<string, seq<real>>, Error>)
    requires |labels| == |rows|
    ensures res == GreeksBatch(m, rows, labels, spot, riskFreeRate, prealloc)
  {
    var results := Zeros(prealloc, |rows|);
    var i := 0;
    while i < |rows|
      invariant 0 <= i <= |rows|
      invariant FillRows(m, rows, labels, spot, riskFreeRate, results, i) == GreeksBatch(m, rows, labels, spot, riskFreeRate, prealloc)
    {
      var greeks := RowGreeks(m, rows[i], spot, riskFreeRate);
      if greeks.Err? {
        return Err(greeks.error);
      }
      var items := Items(greeks.value);
      var acc := results;
      var j := 0;
      while j < |items|
        invariant 0 <= j <= |items|
        invariant FillRow(acc, labels[i], items[j..]) == FillRow(results, labels[i], items)
      {
        var name := items[j].0;
        if name !in acc {
          return Err(KeyError(name));
        }
        if labels[i] >= |acc[name]| {
          return Err(IndexError);
        }
        assert items[j..][1..] == items[j + 1..];
        acc := acc[name := acc[name][labels[i] := items[j].1]];
        j := j + 1;
      }
      assert items[j..] == [];
      results := acc;
      i := i + 1;
    }
    return Ok(results);
  }

  /** The item list fails at the first name missing from the arrays. */
  lemma {:induction false} FillRowMissing(acc: map<string, seq<real>>, i: nat, items: seq<(string, real)>, k: nat)
    requires k < |items| && items[k].0 !in acc
    requires forall j :: 0 <= j < k ==> items[j].0 in acc && i < |acc[items[j].0]|
    ensures FillRow(acc, i, items) == Err(KeyError(items[k].0))
    decreases k
  {
    if k > 0 {
      var name := items[0].0;
      var acc' := acc[name := acc[name][i := items[0].1]];
      FillRowMissing(acc', i, items[1..], k - 1);
    }
  }

  /** As written, a non-empty table never gets its Greeks: on a fresh index the
      first row that prices at all raises `KeyError('rho')`, after delta, gamma,
      theta and vega have been written. */
  lemma AsWrittenBatchRaises(m: MathLib, rows: seq<OptionRow>, labels: seq<nat>, s: real, r: real)
    requires |rows| > 0 && |labels| == |rows|
    ensures GreeksBatch(m, rows, labels, s, r, AllocatedAsWritten).Err?
    ensures RowGreeks(m, rows[0], s, r).Ok? && labels[0] < |rows| ==>
      GreeksBatch(m, rows, labels, s, r, AllocatedAsWritten) == Err(KeyError("rho"))
  {
    var acc := Zeros(AllocatedAsWritten, |rows|);
    if RowGreeks(m, rows[0], s, r).Ok? {
      var items := Items(RowGreeks(m, rows[0], s, r).value);
      assert items[4].0 == "rho";
      assert "rho" !in acc;
      if labels[0] < |rows| {
        forall j | 0 <= j < 4 ensures items[j].0 in acc && labels[0] < |acc[items[j].0]| {
          assert items[j].0 == AllocatedAsWritten[j];
        }
        FillRowMissing(acc, labels[0], items, 4);
      } else {
        assert items[0].0 == AllocatedAsWritten[0];
      }
    }
  }

  /** As written, an empty table gets eight empty arrays and no "rho". */
  lemma AsWrittenEmptyBatch(m: MathLib, s: real, r: real)
    ensures GreeksBatch(m, [], [], s, r, AllocatedAsWritten).Ok?
    ensures GreeksBatch(m, [], [], s, r, AllocatedAsWritten).value.Keys == set name | name in AllocatedAsWritten
    ensures "rho" !in GreeksBatch(m, [], [], s, r, AllocatedAsWritten).value
  {
  }

  /** The arrays after the first `i` rows of a freshly indexed table have been
      filled: every Greek has one entry per row, and the first `i` entries hold
      the Greeks of the first `i` rows. */
  ghost predicate FilledUpTo(m: MathLib, rows: seq<OptionRow>, s: real, r: real, acc: map<string, seq<real>>, i: nat)
  {
    i <= |rows| &&
    acc.Keys == (set name | name in GreekNames) &&
    (forall name :: name in acc ==> |acc[name]| == |rows|) &&
    (forall j :: 0 <= j < i ==> RowGreeks(m, rows[j], s, r).Ok?) &&
    (forall name, j :: name in acc && 0 <= j < i ==> acc[name][j] == Get(RowGreeks(m, rows[j], s, r).value, name))
  }

  /** The names an item list writes to. */
  function Names(items: seq<(string, real)>): set<string>
  {
    set j | 0 <= j < |items| :: items[j].0
  }

  /** Writing a list of items with distinct names, all present and long enough,
      sets entry `i` of each named array to its item and leaves the rest alone. */
  lemma {:induction false} FillRowDistinct(acc: map<string, seq<real>>, i: nat, items: seq<(string, real)>)
    requires forall a, b :: 0 <= a < b < |items| ==> items[a].0 != items[b].0
    requires forall j :: 0 <= j < |items| ==> items[j].0 in acc && i < |acc[items[j].0]|
    ensures FillRow(acc, i, items).Ok?
    ensures FillRow(acc, i, items).value.Keys == acc.Keys
    ensures forall j :: 0 <= j < |items| ==>
      FillRow(acc, i, items).value[items[j].0] == acc[items[j].0][i := items[j].1]
    ensures forall name :: name in acc && name !in Names(items) ==> FillRow(acc, i, items).value[name] == acc[name]
    decreases |items|
  {
    if |items| > 0 {
      var name := items[0].0;
      var acc' := acc[name := acc[name][i := items[0].1]];
      var rest := items[1..];
      forall j | 0 <= j < |rest| ensures rest[j].0 in acc' && i < |acc'[rest[j].0]| {
        assert rest[j] == items[j + 1];
      }
      FillRowDistinct(acc', i, rest);
      var out := FillRow(acc', i, rest).value;
      assert name !in Names(rest);
      forall j | 0 <= j < |items| ensures out[items[j].0] == acc[items[j].0][i := items[j].1] {
        if j > 0 {
          assert items[j] == rest[j - 1];
          assert items[j].0 != name;
        }
      }
      forall n | n in acc && n !in Names(items) ensures out[n] == acc[n] {
        assert n != name by { assert items[0].0 in Names(items); }
      }
    }
  }

  /** The nine items of a row name the nine Greeks, each once. */
  lemma ItemsFacts(g: Greeks)
    ensures forall a, b :: 0 <= a < b < |Items(g)| ==> Items(g)[a].0 != Items(g)[b].0
    ensures forall j :: 0 <= j < |Items(g)| ==> Items(g)[j].1 == Get(g, Items(g)[j].0)
    ensures forall name :: name in GreekNames ==> exists j :: 0 <= j < |Items(g)| && Items(g)[j].0 == name
  {
    var items := Items(g);
    forall name | name in GreekNames ensures exists j :: 0 <= j < |items| && items[j].0 == name {
      var j :| 0 <= j < |GreekNames| && GreekNames[j] == name;
      assert items[j].0 == name;
    }
  }

  lemma {:induction false} FillRowsAll(m: MathLib, rows: seq<OptionRow>, s: real, r: real, acc: map<string, seq<real>>, i: nat)
    requires FilledUpTo(m, rows, s, r, acc, i)
    requires forall j :: i <= j < |rows| ==> RowGreeks(m, rows[j], s, r).Ok?
    ensures FillRows(m, rows, RangeIndex(|rows|), s, r, acc, i).Ok?
    ensures FilledUpTo(m, rows, s, r, FillRows(m, rows, RangeIndex(|rows|), s, r, acc, i).value, |rows|)
    decreases |rows| - i
  {
    if i < |rows| {
      var g := RowGreeks(m, rows[i], s, r).value;
      FillStep(m, rows, s, r, acc, i);
      assert RangeIndex(|rows|)[i] == i;
      FillRowsAll(m, rows, s, r, FillRow(acc, i, Items(g)).value, i + 1);
    }
  }

  /** Writing row `i`'s nine Greeks into arrays filled up to `i` fills them up to `i + 1`. */
  lemma FillStep(m: MathLib, rows: seq<OptionRow>, s: real, r: real, acc: map<string, seq<real>>, i: nat)
    requires FilledUpTo(m, rows, s, r, acc, i) && i < |rows|
    requires RowGreeks(m, rows[i], s, r).Ok?
    ensures FillRow(acc, i, Items(RowGreeks(m, rows[i], s, r).value)).Ok?
    ensures FilledUpTo(m, rows, s, r, FillRow(acc, i, Items(RowGreeks(m, rows[i], s, r).value)).value, i + 1)
  {
    var g := RowGreeks(m, rows[i], s, r).value;
    var items := Items(g);
    ItemsFacts(g);
    forall j | 0 <= j < |items| ensures items[j].0 in acc && i < |acc[items[j].0]| {
      assert items[j].0 in GreekNames;
    }
    FillRowDistinct(acc, i, items);
    var acc' := FillRow(acc, i, items).value;
    forall name | name in acc' ensures acc'[name] == acc[name][i := Get(g, name)] {
      assert name in GreekNames;
      var j :| 0 <= j < |items| && items[j].0 == name;
    }
    forall name, j | name in acc' && 0 <= j < i + 1
      ensures acc'[name][j] == Get(RowGreeks(m, rows[j], s, r).value, name)
    {
      assert acc'[name] == acc[name][i := Get(g, name)];
      if j < i {
        assert acc'[name][j] == acc[name][j];
      }
    }
  }

  /** Corrected (all nine arrays preallocated): on a freshly indexed table whose
      every row prices, the batch returns the nine Greeks, one array entry per row
      holding that row's Greek. */
  lemma CorrectedBatchFills(m: MathLib, rows: seq<OptionRow>, s: real, r: real)
    requires forall j :: 0 <= j < |rows| ==> RowGreeks(m, rows[j], s, r).Ok?
    ensures GreeksBatch(m, rows, RangeIndex(|rows|), s, r, GreekNames).Ok?
    ensures var res := GreeksBatch(m, rows, RangeIndex(|rows|), s, r, GreekNames).value;
      res.Keys == (set name | name in GreekNames) &&
      (forall name :: name in res ==> |res[name]| == |rows|) &&
      (forall name, j :: name in res && 0 <= j < |rows| ==> res[name][j] == Get(RowGreeks(m, rows[j], s, r).value, name))
  {
    FillRowsAll(m, rows, s, r, Zeros(GreekNames, |rows|), 0);
  }

  /** Either way, a row that does not price makes the batch raise. */
  lemma {:induction false} BatchFailsOnBadRow(m: MathLib, rows: seq<OptionRow>, labels: seq<nat>, s: real, r: real, acc: map<string, seq<real>>, i: nat, bad: nat)
    requires |labels| == |rows|
    requires i <= bad < |rows| && RowGreeks(m, rows[bad], s, r).Err?
    ensures FillRows(m, rows, labels, s, r, acc, i).Err?
    decreases |rows| - i
  {
    if i < bad {
      match RowGreeks(m, rows[i], s, r)
      case Err(_) =>
      case Ok(g) =>
        match FillRow(acc, labels[i], Items(g))
        case Err(_) =>
        case Ok(acc') => BatchFailsOnBadRow(m, rows, labels, s, r, acc', i + 1, bad);
    }
  }
}
