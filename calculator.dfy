/** `GEXCalculator` (calculator.py): dealer notional gamma per contract, written
    into the caller's option table, and the views computed from it. */
module Calculator {
  import opened Wrappers
  import opened Tables
  import opened OptionRows
  import opened CoreUtils

  /** The band of `get_cumulative_gex` and `get_iv_profile` (20%). */
  const WideBandPct: real := 0.20
  /** `timedelta(days=30)` in seconds. */
  const NearTermSeconds: int := 30 * 86400

  // ---------------------------------------------------------------------------
  // Notional gamma (lines 25-39)

  /** Line 31: `notional_gamma = gamma * 100 * open_interest * spot` for every row. */
  function AssignNotional(rows: seq<OptionRow>, spot: real): (out: seq<OptionRow>)
    ensures |out| == |rows|
    ensures forall i :: 0 <= i < |rows| ==>
      out[i] == rows[i].(notionalGamma := rows[i].gamma * ContractSize * rows[i].openInterest * spot)
  {
    seq(|rows|, i requires 0 <= i < |rows| =>
      rows[i].(notionalGamma := rows[i].gamma * ContractSize * rows[i].openInterest * spot))
  }

  /** Line 39: `notional_gamma *= -1` on the rows whose type is "P". */
  function NegatePuts(rows: seq<OptionRow>): (out: seq<OptionRow>)
    ensures |out| == |rows|
    ensures forall i :: 0 <= i < |rows| ==>
      out[i] == rows[i].(notionalGamma := Signed(rows[i].kind, rows[i].notionalGamma))
  {
    seq(|rows|, i requires 0 <= i < |rows| =>
      rows[i].(notionalGamma := Signed(rows[i].kind, rows[i].notionalGamma)))
  }

  /** The table after `_calculate_notional_gamma`: each row's notional gamma is
      `gamma·100·OI·spot`, negated exactly once when its type is "P" and positive
      for every other type, and no other column changes. */
  function WithNotionalGamma(rows: seq<OptionRow>, spot: real): (out: seq<OptionRow>)
    ensures |out| == |rows|
    ensures forall i :: 0 <= i < |rows| ==>
      out[i].notionalGamma == (if rows[i].kind == "P" then -1.0 else 1.0) * (rows[i].gamma * ContractSize * rows[i].openInterest * spot)
    ensures forall i :: 0 <= i < |rows| ==> out[i] == rows[i].(notionalGamma := out[i].notionalGamma)
  {
    NegatePuts(AssignNotional(rows, spot))
  }

  /** A second calculator over the same (already mutated) table leaves it as the
      first one did: the column is reassigned from `gamma` before the flip, so puts
      are never negated twice. */
  lemma {:induction false} NotionalIdempotent(rows: seq<OptionRow>, spot: real)
    ensures WithNotionalGamma(WithNotionalGamma(rows, spot), spot) == WithNotionalGamma(rows, spot)
  {
    var once := WithNotionalGamma(rows, spot);
    var twice := WithNotionalGamma(once, spot);
    forall i | 0 <= i < |rows| ensures twice[i] == once[i] {
      assert once[i].kind == rows[i].kind && once[i].gamma == rows[i].gamma;
      assert once[i].openInterest == rows[i].openInterest;
    }
  }

  /** The flip alone is an involution: applied twice without the reassignment it
      would undo itself. */
  lemma {:induction false} NegatePutsTwice(rows: seq<OptionRow>)
    ensures NegatePuts(NegatePuts(rows)) == rows
  {
    var twice := NegatePuts(NegatePuts(rows));
    forall i | 0 <= i < |rows| ensures twice[i] == rows[i] {
      assert NegatePuts(rows)[i].kind == rows[i].kind;
    }
  }

  // ---------------------------------------------------------------------------
  // Masks

  function StrikeWithin(lo: real, hi: real): OptionRow -> bool
  {
    (r: OptionRow) => lo <= r.strike <= hi
  }

  function StrikeOutside(lo: real, hi: real): OptionRow -> bool
  {
    (r: OptionRow) => !(lo <= r.strike <= hi)
  }

  function ExpiringBy(limit: int): OptionRow -> bool
  {
    (r: OptionRow) => r.expiration <= limit
  }

  function KindIs(kind: string): OptionRow -> bool
  {
    (r: OptionRow) => r.kind == kind
  }

  function KindOther(): OptionRow -> bool
  {
    (r: OptionRow) => r.kind != "C" && r.kind != "P"
  }

  /** The rows whose strike lies in `calculate_price_bounds(spot, pct)`, both ends
      inclusive. */
  function InBand(rows: seq<OptionRow>, spot: real, pct: real): (out: seq<OptionRow>)
    ensures forall r :: r in out <==> r in rows && spot * (1.0 - pct) <= r.strike <= spot * (1.0 + pct)
    ensures forall i :: 0 <= i < |out| ==> out[i] in rows && spot * (1.0 - pct) <= out[i].strike <= spot * (1.0 + pct)
  {
    var b := CalculatePriceBounds(spot, pct);
    FilterMembers(rows, StrikeWithin(b.0, b.1));
    Filter(rows, StrikeWithin(b.0, b.1))
  }

  // ---------------------------------------------------------------------------
  // Aggregations (lines 41-120)

  /** `get_total_gex`: the notional gamma column summed over every row. */
  function TotalGex(rows: seq<OptionRow>): real
  {
    Sum(rows, NotionalOf)
  }

  /** The worked example: spot 100, a call (γ 0.05, OI 10) gives +5000 and a put
      (γ 0.03, OI 5) gives −1500, 3500 in all. */
  lemma {:induction false} TotalGexExample()
    ensures TotalGex(WithNotionalGamma([Contract("C", 100.0, 0, 0.05, 10.0), Contract("P", 95.0, 0, 0.03, 5.0)], 100.0)) == 3500.0
  {
    var rows := WithNotionalGamma([Contract("C", 100.0, 0, 0.05, 10.0), Contract("P", 95.0, 0, 0.03, 5.0)], 100.0);
    assert rows[0].notionalGamma == 5000.0 && rows[1].notionalGamma == -1500.0;
    SumSnoc([rows[0]], rows[1], NotionalOf);
    SumSnoc([], rows[0], NotionalOf);
    assert [rows[0]] == [] + [rows[0]];
    assert rows == [rows[0]] + [rows[1]];
  }

  /** `groupby("strike")[val].sum()`: one entry per distinct strike, ascending. */
  function GroupByStrike(rows: seq<OptionRow>, val: OptionRow -> real): (g: seq<(real, real)>)
    ensures StrictlyIncreasing(Keys(g))
    ensures forall k :: k in Keys(g) <==> k in Column(rows, StrikeOf)
    ensures forall i :: 0 <= i < |g| ==> g[i].1 == SumAt(rows, StrikeOf, val, g[i].0)
    ensures Total(Values(g)) == Sum(rows, val)
  {
    var ks := SortedUnique(Column(rows, StrikeOf), IdReal);
    StrikeKeys(rows, val);
    GroupOver(rows, StrikeOf, val, ks)
  }

  lemma StrikeKeys(rows: seq<OptionRow>, val: OptionRow -> real)
    ensures var ks := SortedUnique(Column(rows, StrikeOf), IdReal);
      StrictlyIncreasing(ks) && (forall k :: k in ks <==> k in Column(rows, StrikeOf)) &&
      Keys(GroupOver(rows, StrikeOf, val, ks)) == ks &&
      Total(Values(GroupOver(rows, StrikeOf, val, ks))) == Sum(rows, val)
  {
    var ks := SortedUnique(Column(rows, StrikeOf), IdReal);
    SortedUniqueProps(Column(rows, StrikeOf), IdReal);
    StrictlyIncreasingReals(ks, IdReal);
    KeysGroupOver(rows, StrikeOf, val, ks);
    forall i | 0 <= i < |rows| ensures StrikeOf(rows[i]) in ks {
      assert Column(rows, StrikeOf)[i] == StrikeOf(rows[i]);
    }
    GroupTotal(rows, StrikeOf, val, ks);
  }

  /** `get_gex_by_strike`: the strikes in `[0.85·spot, 1.15·spot]`, unique and
      ascending, each with the sum of notional gamma over the rows at that strike;
      the values add up to the banded total. */
  function GexByStrike(rows: seq<OptionRow>, spot: real): (g: seq<(real, real)>)
    ensures StrictlyIncreasing(Keys(g))
    ensures forall i :: 0 <= i < |g| ==> 0.85 * spot <= g[i].0 <= 1.15 * spot
    ensures forall r :: r in rows && 0.85 * spot <= r.strike <= 1.15 * spot ==> r.strike in Keys(g)
    ensures forall i :: 0 <= i < |g| ==> g[i].1 == SumAt(rows, StrikeOf, NotionalOf, g[i].0)
    ensures Total(Values(g)) == Sum(InBand(rows, spot, DefaultBandPct), NotionalOf)
  {
    var banded := InBand(rows, spot, DefaultBandPct);
    var g := GroupByStrike(banded, NotionalOf);
    BandedGroups(rows, spot, DefaultBandPct, g);
    g
  }

  /** The groups of a banded table are the groups of the whole table at the banded
      strikes. */
  lemma BandedGroups(rows: seq<OptionRow>, spot: real, pct: real, g: seq<(real, real)>)
    requires g == GroupByStrike(InBand(rows, spot, pct), NotionalOf)
    ensures forall i :: 0 <= i < |g| ==> spot * (1.0 - pct) <= g[i].0 <= spot * (1.0 + pct)
    ensures forall r :: r in rows && spot * (1.0 - pct) <= r.strike <= spot * (1.0 + pct) ==> r.strike in Keys(g)
    ensures forall i :: 0 <= i < |g| ==> g[i].1 == SumAt(rows, StrikeOf, NotionalOf, g[i].0)
  {
    var banded := InBand(rows, spot, pct);
    var b := CalculatePriceBounds(spot, pct);
    var c := Column(banded, StrikeOf);
    forall i | 0 <= i < |g| ensures b.0 <= g[i].0 <= b.1 && g[i].1 == SumAt(rows, StrikeOf, NotionalOf, g[i].0) {
      assert g[i].0 in Keys(g);
      var j :| 0 <= j < |c| && c[j] == g[i].0;
      assert banded[j] in banded;
      SumAtFilter(rows, StrikeWithin(b.0, b.1), StrikeOf, NotionalOf, g[i].0);
    }
    forall r | r in rows && b.0 <= r.strike <= b.1 ensures r.strike in Keys(g) {
      assert r in banded;
      var j :| 0 <= j < |banded| && banded[j] == r;
      assert c[j] == r.strike;
    }
  }

  /** The total covers every row: it is the banded by-strike total plus the rows
      whose strike lies outside the band. */
  lemma TotalGexCoversAll(rows: seq<OptionRow>, spot: real)
    ensures TotalGex(rows) == Total(Values(GexByStrike(rows, spot)))
                            + Sum(Filter(rows, StrikeOutside(0.85 * spot, 1.15 * spot)), NotionalOf)
  {
    var b := CalculatePriceBounds(spot, DefaultBandPct);
    assert b == (0.85 * spot, 1.15 * spot);
    var g := GexByStrike(rows, spot);
    assert Total(Values(g)) == Sum(Filter(rows, StrikeWithin(b.0, b.1)), NotionalOf);
    SumSplit(rows, StrikeWithin(b.0, b.1), StrikeOutside(b.0, b.1), NotionalOf);
  }

  /** `get_gex_by_expiry`: the expirations up to `now + 365 days` (expired ones
      included: there is no lower bound), unique and ascending, each with the sum of
      notional gamma over the rows expiring then. */
  function GexByExpiry(rows: seq<OptionRow>, now: int): (g: seq<(int, real)>)
    ensures forall i, j :: 0 <= i < j < |g| ==> g[i].0 < g[j].0
    ensures forall i :: 0 <= i < |g| ==> g[i].0 <= now + OneYearSeconds
    ensures forall r :: r in rows && r.expiration <= now + OneYearSeconds ==> r.expiration in Keys(g)
    ensures forall i :: 0 <= i < |g| ==> g[i].1 == SumAt(rows, ExpirationOf, NotionalOf, g[i].0)
    ensures Total(Values(g)) == Sum(Filter(rows, ExpiringBy(GetOneYearDate(now))), NotionalOf)
  {
    var limit := GetOneYearDate(now);
    var w := Filter(rows, ExpiringBy(limit));
    var es := SortedUnique(Project(w, ExpirationOf), IntRank);
    ExpiryKeys(w);
    ExpiryGroups(rows, now);
    GroupOver(w, ExpirationOf, NotionalOf, es)
  }

  lemma ExpiryGroups(rows: seq<OptionRow>, now: int)
    ensures var limit := GetOneYearDate(now);
      var w := Filter(rows, ExpiringBy(limit));
      var es := SortedUnique(Project(w, ExpirationOf), IntRank);
      var g := GroupOver(w, ExpirationOf, NotionalOf, es);
      Keys(g) == es &&
      Total(Values(g)) == Sum(w, NotionalOf) &&
      (forall i :: 0 <= i < |g| ==> g[i].0 <= limit && g[i].1 == SumAt(rows, ExpirationOf, NotionalOf, g[i].0)) &&
      (forall r :: r in rows && r.expiration <= limit ==> r.expiration in Keys(g))
  {
    var limit := GetOneYearDate(now);
    var w := Filter(rows, ExpiringBy(limit));
    var es := SortedUnique(Project(w, ExpirationOf), IntRank);
    ExpiryKeys(w);
    var g := GroupOver(w, ExpirationOf, NotionalOf, es);
    KeysGroupOver(w, ExpirationOf, NotionalOf, es);
    GroupTotal(w, ExpirationOf, NotionalOf, es);
    ProjectMembers(w, ExpirationOf);
    FilterMembers(rows, ExpiringBy(limit));
    forall i | 0 <= i < |g| ensures g[i].0 <= limit && g[i].1 == SumAt(rows, ExpirationOf, NotionalOf, g[i].0) {
      assert es[i] in Project(w, ExpirationOf);
      SumAtFilter(rows, ExpiringBy(limit), ExpirationOf, NotionalOf, g[i].0);
    }
  }

  /** The sorted distinct expirations of a table: strictly increasing, each one from
      a row, every row's expiration listed. */
  lemma ExpiryKeys(w: seq<OptionRow>)
    ensures var es := SortedUnique(Project(w, ExpirationOf), IntRank);
      (forall i, j :: 0 <= i < j < |es| ==> es[i] < es[j]) && NoDup(es) &&
      (forall e :: e in es <==> e in Project(w, ExpirationOf)) &&
      (forall i :: 0 <= i < |w| ==> w[i].expiration in es)
  {
    var es := SortedUnique(Project(w, ExpirationOf), IntRank);
    SortedUniqueProps(Project(w, ExpirationOf), IntRank);
    forall i, j | 0 <= i < j < |es| ensures es[i] < es[j] {
      assert IntRank(es[i]) <= IntRank(es[j]);
    }
    forall i | 0 <= i < |w| ensures w[i].expiration in es {
      assert Project(w, ExpirationOf)[i] == w[i].expiration;
    }
  }

  // ---------------------------------------------------------------------------
  // Strike × expiry surface (lines 59-75)

  /** `pivot_table(index="expiration", columns="strike", aggfunc="sum")`: sorted row
      and column labels and one cell per pair, `None` (NaN) where no row has that
      expiration and strike. */
  datatype Surface = Surface(expirations: seq<int>, strikes: seq<real>, cells: seq<seq<Option<real>>>)

  function CellKey(r: OptionRow): (int, real) { (r.expiration, r.strike) }

  /** The rows the surface is built from: strike in the 15% band and expiration no
      later than `now + 365 days`. */
  function SurfaceRows(rows: seq<OptionRow>, spot: real, now: int): seq<OptionRow>
  {
    Filter(InBand(rows, spot, DefaultBandPct), ExpiringBy(GetOneYearDate(now)))
  }

  function Cell(f: seq<OptionRow>, e: int, k: real): Option<real>
  {
    if (e, k) in Project(f, CellKey) then Some(SumAt(f, CellKey, NotionalOf, (e, k))) else None
  }

  function PivotRow(f: seq<OptionRow>, e: int, ks: seq<real>): (row: seq<Option<real>>)
    ensures |row| == |ks| && forall j :: 0 <= j < |ks| ==> row[j] == Cell(f, e, ks[j])
  {
    seq(|ks|, j requires 0 <= j < |ks| => Cell(f, e, ks[j]))
  }

  function PivotCells(f: seq<OptionRow>, es: seq<int>, ks: seq<real>): (cells: seq<seq<Option<real>>>)
    ensures |cells| == |es| && forall i :: 0 <= i < |es| ==> cells[i] == PivotRow(f, es[i], ks)
  {
    seq(|es|, i requires 0 <= i < |es| => PivotRow(f, es[i], ks))
  }

  /** `get_gex_surface`: expirations up to the horizon and strikes in the 15% band,
      both unique and ascending; a cell is present exactly when some such row has that
      expiration and strike, and then holds the sum over the rows at that pair. */
  function GexSurface(rows: seq<OptionRow>, spot: real, now: int): (s: Surface)
    ensures |s.cells| == |s.expirations| && forall i :: 0 <= i < |s.cells| ==> |s.cells[i]| == |s.strikes|
    ensures forall i, j :: 0 <= i < j < |s.expirations| ==> s.expirations[i] < s.expirations[j]
    ensures StrictlyIncreasing(s.strikes)
    ensures forall i :: 0 <= i < |s.expirations| ==> s.expirations[i] <= now + OneYearSeconds
    ensures forall j :: 0 <= j < |s.strikes| ==> 0.85 * spot <= s.strikes[j] <= 1.15 * spot
    ensures forall i, j :: 0 <= i < |s.expirations| && 0 <= j < |s.strikes| ==>
      (s.cells[i][j].Some? <==> exists r :: r in SurfaceRows(rows, spot, now) && CellKey(r) == (s.expirations[i], s.strikes[j]))
    ensures forall i, j :: 0 <= i < |s.expirations| && 0 <= j < |s.strikes| && s.cells[i][j].Some? ==>
      s.cells[i][j].value == SumAt(rows, CellKey, NotionalOf, (s.expirations[i], s.strikes[j]))
  {
    var f := SurfaceRows(rows, spot, now);
    var es := SortedUnique(Project(f, ExpirationOf), IntRank);
    var ks := SortedUnique(Column(f, StrikeOf), IdReal);
    SurfaceExpiries(rows, spot, now);
    SurfaceStrikes(rows, spot, now);
    SurfaceCells(rows, spot, now);
    Surface(es, ks, PivotCells(f, es, ks))
  }

  /** The surface's expirations: ascending, unique, none past the horizon. */
  lemma SurfaceExpiries(rows: seq<OptionRow>, spot: real, now: int)
    ensures var es := SortedUnique(Project(SurfaceRows(rows, spot, now), ExpirationOf), IntRank);
      (forall i, j :: 0 <= i < j < |es| ==> es[i] < es[j]) &&
      (forall i :: 0 <= i < |es| ==> es[i] <= now + OneYearSeconds)
  {
    var limit := GetOneYearDate(now);
    var banded := InBand(rows, spot, DefaultBandPct);
    var f := SurfaceRows(rows, spot, now);
    var es := SortedUnique(Project(f, ExpirationOf), IntRank);
    FilterMembers(banded, ExpiringBy(limit));
    ExpiryKeys(f);
    ProjectMembers(f, ExpirationOf);
    forall i | 0 <= i < |es| ensures es[i] <= limit {
      assert es[i] in Project(f, ExpirationOf);
    }
  }

  /** The surface's strikes: ascending, unique, all inside the 15% band. */
  lemma SurfaceStrikes(rows: seq<OptionRow>, spot: real, now: int)
    ensures var ks := SortedUnique(Column(SurfaceRows(rows, spot, now), StrikeOf), IdReal);
      StrictlyIncreasing(ks) && forall j :: 0 <= j < |ks| ==> 0.85 * spot <= ks[j] <= 1.15 * spot
  {
    var limit := GetOneYearDate(now);
    var banded := InBand(rows, spot, DefaultBandPct);
    var f := SurfaceRows(rows, spot, now);
    var ks := SortedUnique(Column(f, StrikeOf), IdReal);
    FilterMembers(banded, ExpiringBy(limit));
    SortedUniqueProps(Column(f, StrikeOf), IdReal);
    StrictlyIncreasingReals(ks, IdReal);
    forall j | 0 <= j < |ks| ensures 0.85 * spot <= ks[j] <= 1.15 * spot {
      assert ks[j] in Column(f, StrikeOf);
      var m :| 0 <= m < |f| && Column(f, StrikeOf)[m] == ks[j];
      assert f[m] in f;
    }
  }

  /** A cell key occurs exactly when some surface row has it, and its sum over the
      surface rows is its sum over the whole chain. */
  lemma SurfaceCells(rows: seq<OptionRow>, spot: real, now: int)
    ensures var f := SurfaceRows(rows, spot, now);
      (forall e, k :: (e, k) in Project(f, CellKey) <==> exists r :: r in f && CellKey(r) == (e, k)) &&
      (forall e, k :: (e, k) in Project(f, CellKey) ==> SumAt(f, CellKey, NotionalOf, (e, k)) == SumAt(rows, CellKey, NotionalOf, (e, k)))
  {
    var f := SurfaceRows(rows, spot, now);
    ProjectMembers(f, CellKey);
    forall e, k | (e, k) in Project(f, CellKey)
      ensures SumAt(f, CellKey, NotionalOf, (e, k)) == SumAt(rows, CellKey, NotionalOf, (e, k))
    {
      CellSum(rows, spot, now, e, k);
    }
  }

  /** The sum at a cell some surface row has is the sum at it over the whole chain:
      every row with that expiration and strike passes both filters. */
  lemma CellSum(rows: seq<OptionRow>, spot: real, now: int, e: int, k: real)
    requires (e, k) in Project(SurfaceRows(rows, spot, now), CellKey)
    ensures SumAt(SurfaceRows(rows, spot, now), CellKey, NotionalOf, (e, k)) == SumAt(rows, CellKey, NotionalOf, (e, k))
  {
    var limit := GetOneYearDate(now);
    var banded := InBand(rows, spot, DefaultBandPct);
    var f := SurfaceRows(rows, spot, now);
    var b := CalculatePriceBounds(spot, DefaultBandPct);
    var m :| 0 <= m < |f| && Project(f, CellKey)[m] == (e, k);
    assert e <= limit && b.0 <= k <= b.1 by {
      assert f[m] in f;
      FilterMembers(banded, ExpiringBy(limit));
    }
    assert forall i :: 0 <= i < |banded| && CellKey(banded[i]) == (e, k) ==> ExpiringBy(limit)(banded[i]);
    SumAtFilter(banded, ExpiringBy(limit), CellKey, NotionalOf, (e, k));
    assert forall i :: 0 <= i < |rows| && CellKey(rows[i]) == (e, k) ==> StrikeWithin(b.0, b.1)(rows[i]);
    SumAtFilter(rows, StrikeWithin(b.0, b.1), CellKey, NotionalOf, (e, k));
  }

  /** A cell read with NaN counted as 0, as `DataFrame.sum()` does. */
  function OrZero(c: Option<real>): real
  {
    if c.Some? then c.value else 0.0
  }

  function OrZeros(row: seq<Option<real>>): (v: seq<real>)
    ensures |v| == |row| && forall j :: 0 <= j < |row| ==> v[j] == OrZero(row[j])
  {
    seq(|row|, j requires 0 <= j < |row| => OrZero(row[j]))
  }

  function RowTotal(row: seq<Option<real>>): real
  {
    Total(OrZeros(row))
  }

  function RowTotals(cells: seq<seq<Option<real>>>): (v: seq<real>)
    ensures |v| == |cells| && forall i :: 0 <= i < |cells| ==> v[i] == RowTotal(cells[i])
  {
    seq(|cells|, i requires 0 <= i < |cells| => RowTotal(cells[i]))
  }

  /** `surface.sum().sum()`. */
  function SurfaceTotal(s: Surface): real
  {
    Total(RowTotals(s.cells))
  }

  function ExpiresOn(e: int): OptionRow -> bool
  {
    (r: OptionRow) => r.expiration == e
  }

  lemma {:induction false} SumAtCell(f: seq<OptionRow>, e: int, k: real)
    ensures SumAt(Filter(f, ExpiresOn(e)), StrikeOf, NotionalOf, k) == SumAt(f, CellKey, NotionalOf, (e, k))
  {
    if |f| > 0 {
      var p := f[..|f| - 1];
      var x := f[|f| - 1];
      SumAtCell(p, e, k);
      if x.expiration == e {
        assert Filter(f, ExpiresOn(e)) == Filter(p, ExpiresOn(e)) + [x];
        SumAtSnoc(Filter(p, ExpiresOn(e)), x, StrikeOf, NotionalOf, k);
      } else {
        assert Filter(f, ExpiresOn(e)) == Filter(p, ExpiresOn(e));
      }
    }
  }

  lemma {:induction false} SumExpiresOn(f: seq<OptionRow>, e: int)
    ensures Sum(Filter(f, ExpiresOn(e)), NotionalOf) == SumAt(f, ExpirationOf, NotionalOf, e)
  {
    if |f| == 0 {
      assert Filter(f, ExpiresOn(e)) == [];
    } else {
      var p := f[..|f| - 1];
      var x := f[|f| - 1];
      SumExpiresOn(p, e);
      assert f == p + [x];
      if x.expiration == e {
        assert Filter(f, ExpiresOn(e)) == Filter(p, ExpiresOn(e)) + [x];
        SumSnoc(Filter(p, ExpiresOn(e)), x, NotionalOf);
      } else {
        assert Filter(f, ExpiresOn(e)) == Filter(p, ExpiresOn(e));
      }
    }
  }

  /** A missing cell counts as 0, which is what its pair sums to. */
  lemma CellValue(f: seq<OptionRow>, e: int, k: real)
    ensures OrZero(Cell(f, e, k)) == SumAt(f, CellKey, NotionalOf, (e, k))
  {
    if (e, k) !in Project(f, CellKey) {
      forall m | 0 <= m < |f| ensures CellKey(f[m]) != (e, k) {
        assert Project(f, CellKey)[m] == CellKey(f[m]);
      }
      SumAtAbsent(f, CellKey, NotionalOf, (e, k));
    }
  }

  /** One row of the pivot adds up to the sum over the rows with that expiration. */
  lemma PivotRowTotal(f: seq<OptionRow>, e: int, ks: seq<real>)
    requires NoDup(ks)
    requires forall m :: 0 <= m < |f| && f[m].expiration == e ==> f[m].strike in ks
    ensures RowTotal(PivotRow(f, e, ks)) == SumAt(f, ExpirationOf, NotionalOf, e)
  {
    var row := PivotRow(f, e, ks);
    var fe := Filter(f, ExpiresOn(e));
    var g := GroupOver(fe, StrikeOf, NotionalOf, ks);
    forall j | 0 <= j < |ks| ensures OrZero(row[j]) == Values(g)[j] {
      CellValue(f, e, ks[j]);
      SumAtCell(f, e, ks[j]);
    }
    assert OrZeros(row) == Values(g);
    FilterMembers(f, ExpiresOn(e));
    forall m | 0 <= m < |fe| ensures StrikeOf(fe[m]) in ks {
      assert fe[m] in f;
      var q :| 0 <= q < |f| && f[q] == fe[m];
    }
    GroupTotal(fe, StrikeOf, NotionalOf, ks);
    SumExpiresOn(f, e);
  }

  /** The whole pivot adds up to the table's total when every row's expiration and
      strike are among the labels. */
  lemma PivotTotal(f: seq<OptionRow>, es: seq<int>, ks: seq<real>)
    requires NoDup(es) && NoDup(ks)
    requires forall m :: 0 <= m < |f| ==> f[m].expiration in es && f[m].strike in ks
    ensures SurfaceTotal(Surface(es, ks, PivotCells(f, es, ks))) == Sum(f, NotionalOf)
  {
    var cells := PivotCells(f, es, ks);
    var byExpiry := GroupOver(f, ExpirationOf, NotionalOf, es);
    var totals := RowTotals(cells);
    forall i | 0 <= i < |es| ensures totals[i] == Values(byExpiry)[i] {
      PivotRowTotal(f, es[i], ks);
    }
    assert totals == Values(byExpiry);
    GroupTotal(f, ExpirationOf, NotionalOf, es);
  }

  /** All cells of the surface add up to the total notional gamma of the rows in the
      band and horizon. */
  lemma SurfaceSumsToBandedTotal(rows: seq<OptionRow>, spot: real, now: int)
    ensures SurfaceTotal(GexSurface(rows, spot, now)) == Sum(SurfaceRows(rows, spot, now), NotionalOf)
  {
    var f := SurfaceRows(rows, spot, now);
    var es := SortedUnique(Project(f, ExpirationOf), IntRank);
    var ks := SortedUnique(Column(f, StrikeOf), IdReal);
    ExpiryKeys(f);
    SortedUniqueProps(Column(f, StrikeOf), IdReal);
    forall m | 0 <= m < |f| ensures f[m].strike in ks {
      assert Column(f, StrikeOf)[m] == f[m].strike;
    }
    PivotTotal(f, es, ks);
  }

  // ---------------------------------------------------------------------------
  // Top strikes, put/call split, cumulative profile (lines 77-120)

  function ValueOf(e: (real, real)): real { e.1 }
  function NegValueOf(e: (real, real)): real { -e.1 }

  /** The result of `get_top_strikes`. */
  datatype TopStrikes = TopStrikes(positive: seq<(real, real)>, negative: seq<(real, real)>)

  /** `nlargest(n)` of the strictly positive entries and `nsmallest(n)` of the
      strictly negative ones. */
  function GetTopStrikes(g: seq<(real, real)>, n: int): TopStrikes
  {
    TopStrikes(TopN(Filter(g, (e: (real, real)) => e.1 > 0.0), NegValueOf, n),
               TopN(Filter(g, (e: (real, real)) => e.1 < 0.0), ValueOf, n))
  }

  /** "positive" holds at most `n` entries of `g`, all strictly positive, in
      descending order, and no positive entry left out exceeds one kept; while fewer
      than `n` are kept, every positive entry is. "negative" is the mirror image in
      ascending order. Zero entries appear in neither. */
  lemma TopStrikesRanked(g: seq<(real, real)>, n: int)
    ensures var t := GetTopStrikes(g, n);
      |t.positive| <= (if n < 0 then 0 else n) && |t.negative| <= (if n < 0 then 0 else n)
    ensures var t := GetTopStrikes(g, n);
      forall e :: e in t.positive ==> e in g && e.1 > 0.0
    ensures var t := GetTopStrikes(g, n);
      forall e :: e in t.negative ==> e in g && e.1 < 0.0
    ensures var t := GetTopStrikes(g, n);
      forall i, j :: 0 <= i < j < |t.positive| ==> t.positive[i].1 >= t.positive[j].1
    ensures var t := GetTopStrikes(g, n);
      forall i, j :: 0 <= i < j < |t.negative| ==> t.negative[i].1 <= t.negative[j].1
    ensures var t := GetTopStrikes(g, n);
      forall e, f :: e in g && e.1 > 0.0 && e !in t.positive && f in t.positive ==> f.1 >= e.1
    ensures var t := GetTopStrikes(g, n);
      forall e, f :: e in g && e.1 < 0.0 && e !in t.negative && f in t.negative ==> f.1 <= e.1
    ensures var t := GetTopStrikes(g, n);
      forall e :: e in g && e.1 > 0.0 && |t.positive| < n ==> e in t.positive
    ensures var t := GetTopStrikes(g, n);
      forall e :: e in g && e.1 < 0.0 && |t.negative| < n ==> e in t.negative
  {
    var pos := Filter(g, (e: (real, real)) => e.1 > 0.0);
    var neg := Filter(g, (e: (real, real)) => e.1 < 0.0);
    FilterMembers(g, (e: (real, real)) => e.1 > 0.0);
    FilterMembers(g, (e: (real, real)) => e.1 < 0.0);
    TopNProps(pos, NegValueOf, n);
    TopNProps(neg, ValueOf, n);
    TopNWhole(pos, NegValueOf, n);
    TopNWhole(neg, ValueOf, n);
    var t := GetTopStrikes(g, n);
    forall i, j | 0 <= i < j < |t.positive| ensures t.positive[i].1 >= t.positive[j].1 {
      assert NegValueOf(t.positive[i]) <= NegValueOf(t.positive[j]);
    }
    forall i, j | 0 <= i < j < |t.negative| ensures t.negative[i].1 <= t.negative[j].1 {
      assert ValueOf(t.negative[i]) <= ValueOf(t.negative[j]);
    }
    forall e, f | e in g && e.1 > 0.0 && e !in t.positive && f in t.positive ensures f.1 >= e.1 {
      assert e in pos;
      assert NegValueOf(f) <= NegValueOf(e);
    }
    forall e, f | e in g && e.1 < 0.0 && e !in t.negative && f in t.negative ensures f.1 <= e.1 {
      assert e in neg;
      assert ValueOf(f) <= ValueOf(e);
    }
  }

  /** Fewer than `n` selected means everything was selected. */
  lemma TopNWhole<T>(s: seq<T>, rank: T -> real, n: int)
    ensures |TopN(s, rank, n)| < n ==> forall x :: x in s ==> x in TopN(s, rank, n)
  {
    TopNProps(s, rank, n);
    SortByProps(s, rank);
    if |TopN(s, rank, n)| < n {
      forall x | x in s ensures x in TopN(s, rank, n) {
        assert x in multiset(s);
        assert TopN(s, rank, n) == SortBy(s, rank);
        assert x in multiset(SortBy(s, rank));
      }
    }
  }

  /** The result of `get_put_call_gex`. */
  datatype PutCall = PutCall(calls: real, puts: real, net: real)

  /** `get_put_call_gex`: within the 15% band, the notional gamma of type "C" rows,
      of type "P" rows, and their sum. */
  function GetPutCallGex(rows: seq<OptionRow>, spot: real): (p: PutCall)
    ensures p.net == p.calls + p.puts
  {
    var subset := InBand(rows, spot, DefaultBandPct);
    var calls := Sum(Filter(subset, KindIs("C")), NotionalOf);
    var puts := Sum(Filter(subset, KindIs("P")), NotionalOf);
    PutCall(calls, puts, calls + puts)
  }

  /** The split agrees with the by-strike view: calls, puts and the banded rows of
      any other type together make up the by-strike total. */
  lemma PutCallMatchesByStrike(rows: seq<OptionRow>, spot: real)
    ensures GetPutCallGex(rows, spot).net + Sum(Filter(InBand(rows, spot, DefaultBandPct), KindOther()), NotionalOf)
         == Total(Values(GexByStrike(rows, spot)))
  {
    var subset := InBand(rows, spot, DefaultBandPct);
    SumSplit3(subset, KindIs("C"), KindIs("P"), KindOther(), NotionalOf);
  }

  /** With non-negative spot, gamma and open interest, calls contribute non-negative
      and puts non-positive gamma exposure. */
  lemma PutCallSigns(raw: seq<OptionRow>, spot: real)
    requires spot >= 0.0
    requires forall i :: 0 <= i < |raw| ==> raw[i].gamma >= 0.0 && raw[i].openInterest >= 0.0
    ensures GetPutCallGex(WithNotionalGamma(raw, spot), spot).calls >= 0.0
    ensures GetPutCallGex(WithNotionalGamma(raw, spot), spot).puts <= 0.0
  {
    var rows := WithNotionalGamma(raw, spot);
    RowSigns(raw, spot);
    var subset := InBand(rows, spot, DefaultBandPct);
    KindSign(subset, "C", true);
    KindSign(subset, "P", false);
  }

  /** Under the same conditions every non-put row has non-negative and every put row
      non-positive notional gamma. */
  lemma RowSigns(raw: seq<OptionRow>, spot: real)
    requires spot >= 0.0
    requires forall i :: 0 <= i < |raw| ==> raw[i].gamma >= 0.0 && raw[i].openInterest >= 0.0
    ensures forall r :: r in WithNotionalGamma(raw, spot) ==>
      (r.kind == "P" ==> r.notionalGamma <= 0.0) && (r.kind != "P" ==> r.notionalGamma >= 0.0)
  {
    var rows := WithNotionalGamma(raw, spot);
    forall r | r in rows ensures (r.kind == "P" ==> r.notionalGamma <= 0.0) && (r.kind != "P" ==> r.notionalGamma >= 0.0) {
      var i :| 0 <= i < |rows| && rows[i] == r;
      NonNegProduct(raw[i].gamma, raw[i].openInterest, spot);
    }
  }

  lemma KindSign(subset: seq<OptionRow>, kind: string, nonNeg: bool)
    requires forall r :: r in subset && r.kind == kind ==> if nonNeg then r.notionalGamma >= 0.0 else r.notionalGamma <= 0.0
    ensures nonNeg ==> Sum(Filter(subset, KindIs(kind)), NotionalOf) >= 0.0
    ensures !nonNeg ==> Sum(Filter(subset, KindIs(kind)), NotionalOf) <= 0.0
  {
    var f := Filter(subset, KindIs(kind));
    FilterMembers(subset, KindIs(kind));
    forall i | 0 <= i < |f| ensures if nonNeg then NotionalOf(f[i]) >= 0.0 else NotionalOf(f[i]) <= 0.0 {
      assert f[i] in f;
    }
    SumSign(f, NotionalOf);
  }

  lemma NonNegProduct(g: real, oi: real, spot: real)
    requires g >= 0.0 && oi >= 0.0 && spot >= 0.0
    ensures g * ContractSize * oi * spot >= 0.0
  {
    assert g * ContractSize >= 0.0;
    assert g * ContractSize * oi >= 0.0;
  }

  /** `get_cumulative_gex`: the strikes in the 20% band, ascending, each with the
      running total of the per-strike sums up to and including it; the last running
      total is the whole banded total. */
  function GetCumulativeGex(rows: seq<OptionRow>, spot: real): (c: seq<(real, real)>)
    ensures StrictlyIncreasing(Keys(c))
    ensures forall i :: 0 <= i < |c| ==> 0.8 * spot <= c[i].0 <= 1.2 * spot
    ensures forall r :: r in rows && 0.8 * spot <= r.strike <= 1.2 * spot ==> r.strike in Keys(c)
    ensures |c| > 0 ==> c[0].1 == SumAt(rows, StrikeOf, NotionalOf, c[0].0)
    ensures forall i :: 0 < i < |c| ==> c[i].1 == c[i - 1].1 + SumAt(rows, StrikeOf, NotionalOf, c[i].0)
    ensures |c| > 0 ==> c[|c| - 1].1 == Sum(InBand(rows, spot, WideBandPct), NotionalOf)
  {
    var g := GroupByStrike(InBand(rows, spot, WideBandPct), NotionalOf);
    BandedGroups(rows, spot, WideBandPct, g);
    Cumulate(g)
  }

  /** The `(strike, running total)` pairs of a grouped series. */
  function Cumulate(g: seq<(real, real)>): (c: seq<(real, real)>)
    ensures |c| == |g|
    ensures Keys(c) == Keys(g)
    ensures |g| > 0 ==> c[0].1 == g[0].1
    ensures forall i :: 0 < i < |g| ==> c[i].1 == c[i - 1].1 + g[i].1
    ensures |g| > 0 ==> c[|g| - 1].1 == Total(Values(g))
  {
    var sums := PrefixSums(Values(g));
    PrefixSumsAt(Values(g));
    PrefixSumsStep(Values(g));
    assert |g| > 0 ==> Values(g)[..|g|] == Values(g);
    var c := seq(|g|, i requires 0 <= i < |g| => (g[i].0, sums[i]));
    assert Keys(c) == Keys(g);
    c
  }

  // ---------------------------------------------------------------------------
  // Weighted expiration (lines 122-140)

  /** `(expiration - now).days`: whole days, rounded down (negative once expired). */
  function DaysToExp(r: OptionRow, now: int): int
  {
    (r.expiration - now) / SecondsPerDay
  }

  function AbsNotional(r: OptionRow): real { Abs(r.notionalGamma) }

  function DaysColumn(rows: seq<OptionRow>, now: int): (c: seq<real>)
    ensures |c| == |rows| && forall i :: 0 <= i < |rows| ==> c[i] == DaysToExp(rows[i], now) as real
  {
    seq(|rows|, i requires 0 <= i < |rows| => DaysToExp(rows[i], now) as real)
  }

  /** The table with the `days_to_exp` column written (line 130). */
  function WithDaysToExp(rows: seq<OptionRow>, now: int): (out: seq<OptionRow>)
    ensures |out| == |rows|
    ensures forall i :: 0 <= i < |rows| ==> out[i] == rows[i].(daysToExp := DaysToExp(rows[i], now))
  {
    seq(|rows|, i requires 0 <= i < |rows| => rows[i].(daysToExp := DaysToExp(rows[i], now)))
  }

  /** `get_weighted_expiration`: days to expiry averaged with weights
      `|ng| / Σ|ng|`; when `Σ|ng|` is 0 every weight is NaN and the NaN-skipping sum
      is 0. */
  function WeightedExpiration(rows: seq<OptionRow>, now: int): (w: real)
    ensures Sum(rows, AbsNotional) == 0.0 ==> w == 0.0
  {
    var total := Sum(rows, AbsNotional);
    if total == 0.0 then 0.0
    else Dot(DaysColumn(rows, now), Column(rows, AbsNotional)) / total
  }

  /** With some non-zero gamma, the weighted expiration lies between the smallest and
      the largest days to expiry. */
  lemma WeightedExpirationBounds(rows: seq<OptionRow>, now: int, lo: int, hi: int)
    requires Sum(rows, AbsNotional) != 0.0
    requires forall i :: 0 <= i < |rows| ==> lo <= DaysToExp(rows[i], now) <= hi
    ensures lo as real <= WeightedExpiration(rows, now) <= hi as real
  {
    WeightedExpirationWithin(rows, now, lo as real, hi as real);
  }

  lemma WeightedExpirationWithin(rows: seq<OptionRow>, now: int, lo: real, hi: real)
    requires Sum(rows, AbsNotional) != 0.0
    requires forall i :: 0 <= i < |rows| ==> lo <= DaysToExp(rows[i], now) as real <= hi
    ensures lo <= WeightedExpiration(rows, now) <= hi
  {
    var ws := Column(rows, AbsNotional);
    var xs := DaysColumn(rows, now);
    assert Total(ws) > 0.0 by { SumSign(rows, AbsNotional); }
    assert lo * Total(ws) <= Dot(xs, ws) <= hi * Total(ws) by { DotBounds(xs, ws, lo, hi); }
    DivBounds(Dot(xs, ws), Total(ws), lo, hi);
    assert WeightedExpiration(rows, now) == Dot(xs, ws) / Total(ws);
  }

  lemma DivBounds(d: real, total: real, lo: real, hi: real)
    requires total > 0.0 && lo * total <= d <= hi * total
    ensures lo <= d / total <= hi
  {
    assert d / total * total == d;
  }

  /** Days are not clipped: a table whose only contract expired two days ago has a
      weighted expiration of −2. */
  lemma {:induction false} WeightedExpirationUnclipped(now: int)
    ensures WeightedExpiration([Contract("C", 100.0, now - 2 * SecondsPerDay, 0.05, 10.0).(notionalGamma := 5000.0)], now) == -2.0
  {
    var r := Contract("C", 100.0, now - 2 * SecondsPerDay, 0.05, 10.0).(notionalGamma := 5000.0);
    var xs := DaysColumn([r], now);
    var ws := Column([r], AbsNotional);
    assert DaysToExp(r, now) == -2;
    assert xs == [-2.0] && ws == [5000.0];
    assert xs[..0] == [] && ws[..0] == [];
    assert Total(ws) == 5000.0;
    assert Dot(xs, ws) == -10000.0;
  }

  // ---------------------------------------------------------------------------
  // IV profile (lines 142-163)

  datatype IvPoint = IvPoint(strike: real, kind: string, iv: real)

  function IvPointOf(r: OptionRow): IvPoint { IvPoint(r.strike, r.kind, r.iv) }

  function NearTerm(limit: int, lo: real, hi: real): OptionRow -> bool
  {
    (r: OptionRow) => r.expiration <= limit && lo <= r.strike <= hi
  }

  /** `get_iv_profile`: `None` exactly when the table has no "iv" column; otherwise
      the strike, type and iv of every row expiring within 30 days with strike in the
      20% band, and of no other row. */
  function GetIvProfile(columns: set<string>, rows: seq<OptionRow>, spot: real, now: int): (p: Option<seq<IvPoint>>)
    ensures p.None? <==> "iv" !in columns
    ensures p.Some? ==> |p.value| <= |rows|
    ensures p.Some? ==> forall q :: q in p.value ==>
      exists r :: r in rows && r.expiration <= now + NearTermSeconds && 0.8 * spot <= r.strike <= 1.2 * spot && q == IvPointOf(r)
    ensures p.Some? ==> forall r :: r in rows && r.expiration <= now + NearTermSeconds && 0.8 * spot <= r.strike <= 1.2 * spot ==>
      IvPointOf(r) in p.value
  {
    if "iv" !in columns then None
    else
      var b := CalculatePriceBounds(spot, WideBandPct);
      var keep := NearTerm(now + NearTermSeconds, b.0, b.1);
      FilterMembers(rows, keep);
      ProjectMembers(Filter(rows, keep), IvPointOf);
      Some(Project(Filter(rows, keep), IvPointOf))
  }

  // ---------------------------------------------------------------------------
  // The calculator object

  /** A pandas DataFrame shared with the caller: its column names and its rows. */
  class OptionTable {
    var columns: set<string>
    var rows: seq<OptionRow>

    constructor (columns: set<string>, rows: seq<OptionRow>)
      ensures this.columns == columns && this.rows == rows
    {
      this.columns := columns;
      this.rows := rows;
    }
  }

  /** `GEXCalculator`: holds the spot price and the caller's table, which its
      constructor and `GetWeightedExpiration` write into. */
  class GEXCalculator {
    const spotPrice: real
    const optionData: OptionTable

    /** Construction computes notional gamma in the caller's table. */
    constructor (spotPrice: real, optionData: OptionTable)
      modifies optionData
      ensures this.spotPrice == spotPrice && this.optionData == optionData
      ensures optionData.rows == WithNotionalGamma(old(optionData.rows), spotPrice)
      ensures optionData.columns == old(optionData.columns) + {"notional_gamma"}
    {
      this.spotPrice := spotPrice;
      this.optionData := optionData;
      new;
      CalculateNotionalGamma();
    }

    /** `_calculate_notional_gamma`: the column is assigned, then put rows are
        negated. */
    method CalculateNotionalGamma()
      modifies optionData
      ensures optionData.rows == WithNotionalGamma(old(optionData.rows), spotPrice)
      ensures optionData.columns == old(optionData.columns) + {"notional_gamma"}
    {
      optionData.rows := AssignNotional(optionData.rows, spotPrice);
      optionData.columns := optionData.columns + {"notional_gamma"};
      optionData.rows := NegatePuts(optionData.rows);
    }

    function GetTotalGex(): real
      reads optionData
    {
      TotalGex(optionData.rows)
    }

    function GetGexByStrike(): seq<(real, real)>
      reads optionData
    {
      GexByStrike(optionData.rows, spotPrice)
    }

    function GetGexByExpiry(now: int): seq<(int, real)>
      reads optionData
    {
      GexByExpiry(optionData.rows, now)
    }

    function GetGexSurface(now: int): Surface
      reads optionData
    {
      GexSurface(optionData.rows, spotPrice, now)
    }

    function GetTopStrikesOf(n: int := 5): TopStrikes
      reads optionData
    {
      GetTopStrikes(GexByStrike(optionData.rows, spotPrice), n)
    }

    function GetPutCall(): PutCall
      reads optionData
    {
      GetPutCallGex(optionData.rows, spotPrice)
    }

    function GetCumulative(): seq<(real, real)>
      reads optionData
    {
      GetCumulativeGex(optionData.rows, spotPrice)
    }

    function GetIv(now: int): Option<seq<IvPoint>>
      reads optionData
    {
      GetIvProfile(optionData.columns, optionData.rows, spotPrice, now)
    }

    /** `get_weighted_expiration`: writes `days_to_exp` into the table and returns
        the |notional|-weighted average of it. */
    method GetWeightedExpiration(now: int) returns (w: real)
      modifies optionData
      ensures optionData.rows == WithDaysToExp(old(optionData.rows), now)
      ensures optionData.columns == old(optionData.columns) + {"days_to_exp"}
      ensures w == WeightedExpiration(old(optionData.rows), now)
    {
      w := WeightedExpiration(optionData.rows, now);
      optionData.rows := WithDaysToExp(optionData.rows, now);
      optionData.columns := optionData.columns + {"days_to_exp"};
    }
  }
}
