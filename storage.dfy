/** The historical store of `HistoricalGEXTracker` (gammaforge/data/storage.py):
    the tables `daily_gex` and `strike_gex` held as sequences of rows in insertion
    order with their primary keys as an invariant, the snapshot writes, the read
    queries and the backfill loop. Dates are day numbers (day 0 = 1970-01-01) and
    `now` is the clock in seconds. */
module Storage {
  import opened Wrappers
  import opened PyErrors
  import opened Tables
  import opened OptionRows
  import opened Calculator
  import Formatting
  import Fetcher
  import Providers

  /** A row of `daily_gex`; `date` is its primary key. */
  datatype DailyRow = DailyRow(date: int, totalGex: real, callGex: real, putGex: real, spotPrice: real, weightedExpiry: real)

  /** A row of `strike_gex`; `(date, strike, type, expiry)` is its primary key. */
  datatype StrikeRow = StrikeRow(date: int, strike: real, gex: real, kind: string, expiry: int)

  datatype StrikeKey = StrikeKey(date: int, strike: real, kind: string, expiry: int)

  function DateOf(d: DailyRow): int { d.date }
  function TotalGexOf(d: DailyRow): real { d.totalGex }
  function StrikeKeyOf(s: StrikeRow): StrikeKey { StrikeKey(s.date, s.strike, s.kind, s.expiry) }
  function ExpiryOf(s: StrikeRow): int { s.expiry }
  function AbsGexOf(s: StrikeRow): real { Abs(s.gex) }

  /** The calendar day of a clock reading. */
  function Today(now: int): int { now / SecondsPerDay }

  // ---------------------------------------------------------------------------
  // INSERT OR REPLACE

  function OtherKey<R, K(==)>(key: R -> K, k: K): R -> bool
  {
    (x: R) => key(x) != k
  }

  /** `INSERT OR REPLACE`: the row holding `r`'s primary key, if any, is deleted
      and `r` is added. */
  function Upsert<R, K(==)>(rows: seq<R>, key: R -> K, r: R): seq<R>
  {
    Filter(rows, OtherKey(key, key(r))) + [r]
  }

  /** An upsert keeps the primary key, holds `r` as the only row with its key, and
      keeps every other row. */
  lemma UpsertProps<R, K>(rows: seq<R>, key: R -> K, r: R)
    ensures NoDup(Project(rows, key)) ==> NoDup(Project(Upsert(rows, key, r), key))
    ensures forall x :: x in Upsert(rows, key, r) <==> x == r || (x in rows && key(x) != key(r))
    ensures Filter(Upsert(rows, key, r), KeyIs(key, key(r))) == [r]
  {
    var f := Filter(rows, OtherKey(key, key(r)));
    FilterMembers(rows, OtherKey(key, key(r)));
    FilterRows(rows, OtherKey(key, key(r)));
    assert Project(f + [r], key) == Project(f, key) + [key(r)];
    if NoDup(Project(rows, key)) {
      FilterKeysNoDup(rows, OtherKey(key, key(r)), key);
    }
    FilterConcat(f, [r], KeyIs(key, key(r)));
    FilterNone(f, KeyIs(key, key(r)));
    assert Filter([r], KeyIs(key, key(r))) == Filter([r][..0], KeyIs(key, key(r))) + [r];
  }

  /** A second upsert under the same key undoes the first: the latest row wins. */
  lemma UpsertTwice<R, K>(rows: seq<R>, key: R -> K, a: R, b: R)
    requires key(a) == key(b)
    ensures Upsert(Upsert(rows, key, a), key, b) == Upsert(rows, key, b)
  {
    var keep := OtherKey(key, key(b));
    var f := Filter(rows, keep);
    FilterConcat(f, [a], keep);
    FilterTwice(rows, keep);
    assert Filter([a], keep) == Filter([a][..0], keep);
  }

  // ---------------------------------------------------------------------------
  // store_daily_snapshot (lines 54-78)

  /** `a, b = items`: Python's unpacking of an iterable into two names. */
  function UnpackPair<T>(items: seq<T>): (r: Result<(T, T), Error>)
    ensures r.Ok? <==> |items| == 2
    ensures r.Ok? ==> r.value.0 == items[0] && r.value.1 == items[1]
    ensures |items| > 2 ==> r == Err(ValueError("too many values to unpack (expected 2)"))
  {
    if |items| > 2 then Err(ValueError("too many values to unpack (expected 2)"))
    else if |items| < 2 then
      Err(ValueError("not enough values to unpack (expected 2, got " + Formatting.IntToDecimal(|items|) + ")"))
    else Ok((items[0], items[1]))
  }

  /** Iterating the dict `get_put_call_gex` returns yields its three keys. */
  const PutCallKeys: seq<string> := ["calls", "puts", "net"]

  /** The unpacking at line 60 cannot succeed: the dict has three keys. */
  lemma {:induction false} PutCallUnpackRaises()
    ensures UnpackPair(PutCallKeys) == Err(ValueError("too many values to unpack (expected 2)"))
  {
  }

  /** The `daily_gex` row of a snapshot, with the call and put GEX read from the
      dict by key: the calculator's total over all rows, its banded call and put
      sums, the caller's spot and the weighted expiry. */
  function SnapshotRow(date: int, rows: seq<OptionRow>, spot: real, bandSpot: real, now: int): (d: DailyRow)
    ensures d.date == date && d.spotPrice == spot && d.totalGex == TotalGex(rows)
    ensures d.callGex + d.putGex == GetPutCallGex(rows, bandSpot).net
    ensures d.weightedExpiry == WeightedExpiration(rows, now)
  {
    var pc := GetPutCallGex(rows, bandSpot);
    DailyRow(date, TotalGex(rows), pc.calls, pc.puts, spot, WeightedExpiration(rows, now))
  }

  /** The `type` written for a strike: "C" when its net GEX is positive, "P"
      otherwise, zero included. */
  function TypeFromSign(gex: real): string
  {
    if gex > 0.0 then "C" else "P"
  }

  /** The strike row written for one `(strike, gex)` entry: the snapshot date
      doubles as the expiry. */
  function StrikeRowFor(date: int, e: (real, real)): StrikeRow
  {
    StrikeRow(date, e.0, e.1, TypeFromSign(e.1), date)
  }

  function RowsFor(date: int): ((real, real)) -> StrikeRow
  {
    (e: (real, real)) => StrikeRowFor(date, e)
  }

  /** The rows one snapshot writes, in the order of `g`. */
  function NewRows(date: int, g: seq<(real, real)>): seq<StrikeRow>
  {
    Project(g, RowsFor(date))
  }

  /** The strike inserts of one snapshot, one upsert per entry of `g`. */
  function StoreStrikeRows(strikes: seq<StrikeRow>, date: int, g: seq<(real, real)>): seq<StrikeRow>
  {
    if |g| == 0 then strikes
    else Upsert(StoreStrikeRows(strikes, date, g[..|g| - 1]), StrikeKeyOf, StrikeRowFor(date, g[|g| - 1]))
  }

  lemma NewRowsSnoc(date: int, g: seq<(real, real)>)
    requires |g| > 0
    ensures NewRows(date, g) == NewRows(date, g[..|g| - 1]) + [StrikeRowFor(date, g[|g| - 1])]
    ensures Project(NewRows(date, g), StrikeKeyOf)
         == Project(NewRows(date, g[..|g| - 1]), StrikeKeyOf) + [StrikeKeyOf(StrikeRowFor(date, g[|g| - 1]))]
  {
    assert NewRows(date, g) == NewRows(date, g[..|g| - 1]) + [StrikeRowFor(date, g[|g| - 1])];
  }

  /** Entries with distinct strikes give rows with distinct keys. */
  lemma NewRowKeys(date: int, g: seq<(real, real)>)
    requires NoDup(Keys(g)) && |g| > 0
    ensures StrikeKeyOf(StrikeRowFor(date, g[|g| - 1])) !in Project(NewRows(date, g[..|g| - 1]), StrikeKeyOf)
  {
    var g' := g[..|g| - 1];
    var ks := Project(NewRows(date, g'), StrikeKeyOf);
    forall i | 0 <= i < |ks| ensures ks[i] != StrikeKeyOf(StrikeRowFor(date, g[|g| - 1])) {
      assert Keys(g)[i] != Keys(g)[|g| - 1];
    }
  }

  /** The inserts keep the primary key. */
  lemma {:induction false} StoreStrikeRowsKeys(strikes: seq<StrikeRow>, date: int, g: seq<(real, real)>)
    requires NoDup(Project(strikes, StrikeKeyOf))
    ensures NoDup(Project(StoreStrikeRows(strikes, date, g), StrikeKeyOf))
  {
    if |g| > 0 {
      StoreStrikeRowsKeys(strikes, date, g[..|g| - 1]);
      UpsertProps(StoreStrikeRows(strikes, date, g[..|g| - 1]), StrikeKeyOf, StrikeRowFor(date, g[|g| - 1]));
    }
  }

  /** With distinct strikes in `g`, the table after the inserts holds exactly the new
      rows and the old rows whose key none of them reuses. */
  lemma {:induction false} StoreStrikeRowsProps(strikes: seq<StrikeRow>, date: int, g: seq<(real, real)>)
    requires NoDup(Keys(g))
    ensures forall x :: x in StoreStrikeRows(strikes, date, g) <==>
      (x in NewRows(date, g) || (x in strikes && StrikeKeyOf(x) !in Project(NewRows(date, g), StrikeKeyOf)))
  {
    if |g| > 0 {
      var g', e := g[..|g| - 1], g[|g| - 1];
      assert Keys(g') == Keys(g)[..|g| - 1];
      StoreStrikeRowsProps(strikes, date, g');
      var r := StrikeRowFor(date, e);
      UpsertProps(StoreStrikeRows(strikes, date, g'), StrikeKeyOf, r);
      NewRowsSnoc(date, g);
      NewRowKeys(date, g);
      ProjectMembers(NewRows(date, g'), StrikeKeyOf);
    }
  }

  /** Every row after the inserts is new or was already there. */
  lemma {:induction false} StoreStrikeRowsFrom(strikes: seq<StrikeRow>, date: int, g: seq<(real, real)>)
    ensures forall x :: x in StoreStrikeRows(strikes, date, g) ==> x in NewRows(date, g) || x in strikes
  {
    if |g| > 0 {
      var g' := g[..|g| - 1];
      StoreStrikeRowsFrom(strikes, date, g');
      UpsertProps(StoreStrikeRows(strikes, date, g'), StrikeKeyOf, StrikeRowFor(date, g[|g| - 1]));
      assert NewRows(date, g) == NewRows(date, g') + [StrikeRowFor(date, g[|g| - 1])];
    }
  }

  /** The shape of every strike row the tracker writes: the type follows the sign
      of the GEX and the expiry is the snapshot date. */
  predicate Conventional(strikes: seq<StrikeRow>)
  {
    forall x :: x in strikes ==> x.kind == TypeFromSign(x.gex) && x.expiry == x.date
  }

  /** The inserts keep that shape. */
  lemma StoreKeepsConvention(strikes: seq<StrikeRow>, date: int, g: seq<(real, real)>)
    requires Conventional(strikes)
    ensures Conventional(StoreStrikeRows(strikes, date, g))
  {
    StoreStrikeRowsFrom(strikes, date, g);
    forall x | x in NewRows(date, g) ensures x.kind == TypeFromSign(x.gex) && x.expiry == x.date {
      var i :| 0 <= i < |g| && NewRows(date, g)[i] == x;
    }
  }

  /** A strike whose GEX changes sign between two snapshots of one day keeps both
      rows: the "C" row of the first store is not replaced by the "P" row of the
      second, because the type is part of the key. */
  lemma {:induction false} SignFlipKeepsStaleRow(date: int)
    ensures var first := StoreStrikeRows([], date, [(100.0, 5.0)]);
      StoreStrikeRows(first, date, [(100.0, -5.0)])
        == [StrikeRow(date, 100.0, 5.0, "C", date), StrikeRow(date, 100.0, -5.0, "P", date)]
  {
    var c := StrikeRow(date, 100.0, 5.0, "C", date);
    var first := StoreStrikeRows([], date, [(100.0, 5.0)]);
    assert [(100.0, 5.0)][..0] == [];
    assert StoreStrikeRows([], date, []) == [];
    assert StrikeRowFor(date, (100.0, 5.0)) == c;
    assert first == Upsert(StoreStrikeRows([], date, []), StrikeKeyOf, c);
    assert Filter([], OtherKey(StrikeKeyOf, StrikeKeyOf(c))) == [];
    assert first == [c];
    var keep := OtherKey(StrikeKeyOf, StrikeKeyOf(StrikeRow(date, 100.0, -5.0, "P", date)));
    assert [(100.0, -5.0)][..0] == [];
    assert Filter(first, keep) == Filter(first[..0], keep) + [first[0]];
  }

  /** Two stores on one day leave one `daily_gex` row for that day, holding the
      values of the second. */
  lemma SameDayStoresKeepLatest(daily: seq<DailyRow>, a: DailyRow, b: DailyRow)
    requires a.date == b.date
    ensures Upsert(Upsert(daily, DateOf, a), DateOf, b) == Upsert(daily, DateOf, b)
    ensures Filter(Upsert(Upsert(daily, DateOf, a), DateOf, b), KeyIs(DateOf, b.date)) == [b]
  {
    UpsertTwice(daily, DateOf, a, b);
    UpsertProps(daily, DateOf, b);
  }

  /** The `with sqlite3.connect(...)` block of `store_daily_snapshot` on the table
      contents: the daily upsert is statement 0 and the upsert of `g[i]` statement
      `i + 1`. A database error at statement `fault` rolls the whole block back;
      otherwise both tables are committed together. */
  method WriteSnapshot(daily: seq<DailyRow>, strikes: seq<StrikeRow>, row: DailyRow, date: int, g: seq<(real, real)>, fault: Option<nat>)
    returns (res: Result<(seq<DailyRow>, seq<StrikeRow>), Error>)
    ensures res.Ok? <==> fault.None? || fault.value > |g|
    ensures res.Ok? ==> res.value == (Upsert(daily, DateOf, row), StoreStrikeRows(strikes, date, g))
    ensures res.Err? ==> res.error == DatabaseError
  {
    if fault == Some(0) {
      return Err(DatabaseError);
    }
    var newDaily := Upsert(daily, DateOf, row);
    var newStrikes := strikes;
    var i := 0;
    while i < |g|
      invariant 0 <= i <= |g|
      invariant newStrikes == StoreStrikeRows(strikes, date, g[..i])
      invariant fault.Some? ==> fault.value > i
    {
      if fault == Some(i + 1) {
        return Err(DatabaseError);
      }
      assert g[..i + 1][..i] == g[..i];
      newStrikes := Upsert(newStrikes, StrikeKeyOf, StrikeRowFor(date, g[i]));
      i := i + 1;
    }
    assert g[..i] == g;
    res := Ok((newDaily, newStrikes));
  }

  /** A committed snapshot keeps both primary keys. */
  lemma SnapshotKeepsKeys(daily: seq<DailyRow>, strikes: seq<StrikeRow>, row: DailyRow, date: int, g: seq<(real, real)>)
    requires NoDup(Project(daily, DateOf)) && NoDup(Project(strikes, StrikeKeyOf))
    ensures NoDup(Project(Upsert(daily, DateOf, row), DateOf))
    ensures NoDup(Project(StoreStrikeRows(strikes, date, g), StrikeKeyOf))
  {
    UpsertProps(daily, DateOf, row);
    StoreStrikeRowsKeys(strikes, date, g);
  }

  // ---------------------------------------------------------------------------
  // Read queries (lines 80-184)

  function DateFrom(start: int): DailyRow -> bool
  {
    (d: DailyRow) => d.date >= start
  }

  function DateRank(d: DailyRow): real { d.date as real }

  /** `get_historical_gex`: the rows dated on or after `today − days`, ordered by
      date. A negative `days` yields the modifier `--N days`, which SQLite's
      `date()` rejects with NULL, so no row qualifies. */
  function HistoricalGex(daily: seq<DailyRow>, now: int, days: int): seq<DailyRow>
  {
    if days < 0 then [] else SortBy(Filter(daily, DateFrom(Today(now) - days)), DateRank)
  }

  /** The history is the table's rows in the window, each once, dates strictly
      ascending. */
  lemma HistoricalGexProps(daily: seq<DailyRow>, now: int, days: int)
    requires NoDup(Project(daily, DateOf))
    ensures var h := HistoricalGex(daily, now, days);
      forall i, j :: 0 <= i < j < |h| ==> h[i].date < h[j].date
    ensures forall x :: x in HistoricalGex(daily, now, days) <==>
      (x in daily && days >= 0 && x.date >= Today(now) - days)
  {
    if days >= 0 {
      var f := Filter(daily, DateFrom(Today(now) - days));
      var h := SortBy(f, DateRank);
      FilterMembers(daily, DateFrom(Today(now) - days));
      SortByProps(f, DateRank);
      FilterKeysNoDup(daily, DateFrom(Today(now) - days), DateOf);
      PermutationKeysNoDup(h, f, DateOf);
      forall i, j | 0 <= i < j < |h| ensures h[i].date < h[j].date {
        assert DateRank(h[i]) <= DateRank(h[j]);
        assert Project(h, DateOf)[i] != Project(h, DateOf)[j];
      }
      forall x ensures x in h <==> x in f {
        assert x in h <==> x in multiset(h);
        assert x in f <==> x in multiset(f);
      }
    }
  }

  function DateIs(date: int): StrikeRow -> bool
  {
    (s: StrikeRow) => s.date == date
  }

  function StrikeRowRank(s: StrikeRow): real { s.strike }

  /** `get_historical_strikes`: the given day's rows ordered by strike. */
  function HistoricalStrikes(strikes: seq<StrikeRow>, date: int): seq<StrikeRow>
  {
    SortBy(Filter(strikes, DateIs(date)), StrikeRowRank)
  }

  /** The day's rows, all of them and no other, in ascending strike order. */
  lemma HistoricalStrikesProps(strikes: seq<StrikeRow>, date: int)
    ensures var h := HistoricalStrikes(strikes, date);
      SortedBy(h, StrikeRowRank) && multiset(h) == multiset(Filter(strikes, DateIs(date)))
    ensures forall x :: x in HistoricalStrikes(strikes, date) <==> x in strikes && x.date == date
  {
    var f := Filter(strikes, DateIs(date));
    var h := SortBy(f, StrikeRowRank);
    SortByProps(f, StrikeRowRank);
    FilterMembers(strikes, DateIs(date));
    forall x ensures x in h <==> x in f {
      assert x in h <==> x in multiset(h);
      assert x in f <==> x in multiset(f);
    }
  }

  /** The percentiles `analyze_gex_vs_price` computes. */
  const PercentileLevels: seq<int> := [25, 50, 75, 90, 95]

  /** The regime split of `analyze_gex_vs_price`: the percentiles of `total_gex`
      and the days above the 75th and below the 25th. */
  datatype GexAnalysis = GexAnalysis(percentiles: seq<(int, real)>, highGexDays: seq<DailyRow>, lowGexDays: seq<DailyRow>)

  function TotalAbove(p: real): DailyRow -> bool { (d: DailyRow) => d.totalGex > p }
  function TotalBelow(p: real): DailyRow -> bool { (d: DailyRow) => d.totalGex < p }

  function LevelOf(percentile: (seq<real>, int) -> real, totals: seq<real>): int -> (int, real)
  {
    (p: int) => (p, percentile(totals, p))
  }

  /** `analyze_gex_vs_price`, with numpy's percentile a parameter: `None` stands for
      the all-`None` dict of a history shorter than two days. */
  function AnalyzeGexVsPrice(daily: seq<DailyRow>, now: int, days: int, percentile: (seq<real>, int) -> real): Option<GexAnalysis>
  {
    var h := HistoricalGex(daily, now, days);
    if |h| < 2 then None
    else
      var totals := Column(h, TotalGexOf);
      Some(GexAnalysis(
        Project(PercentileLevels, LevelOf(percentile, totals)),
        Filter(h, TotalAbove(percentile(totals, 75))),
        Filter(h, TotalBelow(percentile(totals, 25)))))
  }

  /** Fewer than two days give no analysis; otherwise a day is "high" exactly when
      its total GEX is strictly above the 75th percentile and "low" exactly when it
      is strictly below the 25th, so no day is both when the percentiles are
      ordered. */
  lemma AnalyzeRegimes(daily: seq<DailyRow>, now: int, days: int, percentile: (seq<real>, int) -> real)
    ensures AnalyzeGexVsPrice(daily, now, days, percentile).None? <==> |HistoricalGex(daily, now, days)| < 2
    ensures var h := HistoricalGex(daily, now, days);
      var a := AnalyzeGexVsPrice(daily, now, days, percentile);
      var totals := Column(h, TotalGexOf);
      a.Some? ==>
        |a.value.percentiles| == 5 && a.value.percentiles[2] == (75, percentile(totals, 75)) &&
        (forall x :: x in a.value.highGexDays <==> x in h && x.totalGex > percentile(totals, 75)) &&
        (forall x :: x in a.value.lowGexDays <==> x in h && x.totalGex < percentile(totals, 25)) &&
        (percentile(totals, 25) <= percentile(totals, 75) ==>
          forall x :: x in a.value.highGexDays ==> x !in a.value.lowGexDays)
  {
    var h := HistoricalGex(daily, now, days);
    var totals := Column(h, TotalGexOf);
    FilterMembers(h, TotalAbove(percentile(totals, 75)));
    FilterMembers(h, TotalBelow(percentile(totals, 25)));
  }

  /** `SUM(ABS(gex))` over the rows of one expiry. */
  function ExpiryTotal(rows: seq<StrikeRow>, e: int): real
  {
    SumAt(rows, ExpiryOf, AbsGexOf, e)
  }

  /** The expiry of `es` with the largest total, the first one on a tie. */
  function Heaviest(rows: seq<StrikeRow>, es: seq<int>): (e: int)
    requires |es| > 0
    ensures e in es
    ensures forall x :: x in es ==> ExpiryTotal(rows, x) <= ExpiryTotal(rows, e)
  {
    if |es| == 1 then es[0]
    else
      var best := Heaviest(rows, es[..|es| - 1]);
      var last := es[|es| - 1];
      assert es == es[..|es| - 1] + [last];
      if ExpiryTotal(rows, last) > ExpiryTotal(rows, best) then last else best
  }

  /** `get_dominant_expiry`: among today's strike rows, the expiry with the
      largest `Σ|gex|`; `None` when today has no rows. */
  function DominantExpiry(strikes: seq<StrikeRow>, now: int): (o: Option<int>)
    ensures var t := Filter(strikes, DateIs(Today(now)));
      (o.None? <==> |t| == 0) &&
      (o.Some? ==> (o.value in Project(t, ExpiryOf) &&
        forall e :: e in Project(t, ExpiryOf) ==> ExpiryTotal(t, e) <= ExpiryTotal(t, o.value)))
  {
    var t := Filter(strikes, DateIs(Today(now)));
    var es := Distinct(Project(t, ExpiryOf));
    DistinctProps(Project(t, ExpiryOf));
    if |t| == 0 then None
    else
      assert Project(t, ExpiryOf)[0] in es;
      Some(Heaviest(t, es))
  }

  /** Because every stored strike row carries the snapshot date as its expiry, the
      dominant expiry is today itself whenever today has rows. */
  lemma DominantExpiryIsToday(strikes: seq<StrikeRow>, now: int)
    requires Conventional(strikes)
    ensures DominantExpiry(strikes, now) == None || DominantExpiry(strikes, now) == Some(Today(now))
  {
    var t := Filter(strikes, DateIs(Today(now)));
    FilterMembers(strikes, DateIs(Today(now)));
    ProjectMembers(t, ExpiryOf);
  }

  // ---------------------------------------------------------------------------
  // backfill_historical_data (lines 186-217)

  /** A row of the provider's historical table: its `date` and `close` columns and
      the option columns. */
  datatype HistoryRow = HistoryRow(date: int, close: real, option: OptionRow)

  function HistDateOf(h: HistoryRow): int { h.date }
  function OptionOf(h: HistoryRow): OptionRow { h.option }

  /** The columns of the provider's historical table. */
  const HistoryColumns: set<string> := {"date", "close", "type", "strike", "expiration", "gamma", "open_interest"}

  /** `groupby('date')`: the distinct dates, ascending. */
  function DateGroups(data: seq<HistoryRow>): seq<int>
  {
    SortedUnique(Project(data, HistDateOf), IntRank)
  }

  function GroupOf(data: seq<HistoryRow>, d: int): seq<HistoryRow>
  {
    Filter(data, KeyIs(HistDateOf, d))
  }

  /** What storing one date group writes, at the first row's close: its daily row
      (under today's date) and its by-strike entries, taken after the weighted
      expiry has written `days_to_exp`. */
  function GroupSnapshot(group: seq<HistoryRow>, now: int): (DailyRow, seq<(real, real)>)
    requires |group| > 0
  {
    var close := group[0].close;
    var rows := WithNotionalGamma(Project(group, OptionOf), close);
    (SnapshotRow(Today(now), rows, close, close, now), GexByStrike(WithDaysToExp(rows, now), close))
  }

  /** Both tables after the groups `ds` have been stored in turn. */
  function BackfillTables(daily: seq<DailyRow>, strikes: seq<StrikeRow>, data: seq<HistoryRow>, ds: seq<int>, now: int): (seq<DailyRow>, seq<StrikeRow>)
  {
    if |ds| == 0 then (daily, strikes)
    else
      var prev := BackfillTables(daily, strikes, data, ds[..|ds| - 1], now);
      var group := GroupOf(data, ds[|ds| - 1]);
      if |group| == 0 then prev
      else
        var s := GroupSnapshot(group, now);
        (Upsert(prev.0, DateOf, s.0), StoreStrikeRows(prev.1, Today(now), s.1))
  }

  lemma BackfillStep(daily: seq<DailyRow>, strikes: seq<StrikeRow>, data: seq<HistoryRow>, ds: seq<int>, i: nat, now: int)
    requires i < |ds| && |GroupOf(data, ds[i])| > 0
    ensures var prev := BackfillTables(daily, strikes, data, ds[..i], now);
      var s := GroupSnapshot(GroupOf(data, ds[i]), now);
      BackfillTables(daily, strikes, data, ds[..i + 1], now) == (Upsert(prev.0, DateOf, s.0), StoreStrikeRows(prev.1, Today(now), s.1))
  {
    assert ds[..i + 1][..i] == ds[..i];
  }

  /** Every group is stored under today's date, so after a backfill of any data the
      one `daily_gex` row for today is the last (latest-dated) group's snapshot. */
  lemma BackfillLastGroupWins(daily: seq<DailyRow>, strikes: seq<StrikeRow>, data: seq<HistoryRow>, now: int)
    requires |data| > 0
    ensures var ds := DateGroups(data);
      |ds| > 0 && |GroupOf(data, ds[|ds| - 1])| > 0 &&
      Filter(BackfillTables(daily, strikes, data, ds, now).0, KeyIs(DateOf, Today(now)))
        == [GroupSnapshot(GroupOf(data, ds[|ds| - 1]), now).0]
  {
    var ds := DateGroups(data);
    SortedUniqueProps(Project(data, HistDateOf), IntRank);
    assert Project(data, HistDateOf)[0] in ds;
    var last := ds[|ds| - 1];
    FilterKeyNonEmpty(data, HistDateOf, last);
    var prev := BackfillTables(daily, strikes, data, ds[..|ds| - 1], now);
    UpsertProps(prev.0, DateOf, GroupSnapshot(GroupOf(data, last), now).0);
  }

  /** Backfilling nothing changes nothing. */
  lemma BackfillEmpty(daily: seq<DailyRow>, strikes: seq<StrikeRow>, now: int)
    ensures BackfillTables(daily, strikes, [], DateGroups([]), now) == (daily, strikes)
  {
    assert DateGroups([]) == [];
  }

  /** `self.provider.get_historical_data(...)`: the CBOE provider always answers
      with an empty table; Polygon's answer, a REST call, is given. */
  function HistoryFetch(provider: Providers.ProviderChoice, polygonData: Result<seq<HistoryRow>, Error>): (f: Result<seq<HistoryRow>, Error>)
    ensures provider == Providers.Cboe ==> f == Ok([])
    ensures provider == Providers.Polygon ==> f == polygonData
  {
    if provider == Providers.Cboe then Ok([]) else polygonData
  }

  /** The transaction storing the date group `d` raises: the group has rows and
      its `fault` statement is one the transaction reaches (0 is the daily row,
      `i + 1` the `i`-th strike row). */
  predicate GroupFails(data: seq<HistoryRow>, d: int, fault: Option<nat>, now: int)
  {
    |GroupOf(data, d)| > 0 && StoreRaises(GroupOf(data, d), fault, now)
  }

  /** The snapshot transaction of a non-empty group reaches its `fault` statement. */
  predicate StoreRaises(group: seq<HistoryRow>, fault: Option<nat>, now: int)
    requires |group| > 0
  {
    fault.Some? && fault.value <= |GroupSnapshot(group, now).1|
  }

  /** The first position from `i` on, below `n`, where `p` holds; `n` when there
      is none. */
  function FirstWhere(p: nat -> bool, n: nat, i: nat): (k: nat)
    requires i <= n
    ensures i <= k <= n
    ensures forall j :: i <= j < k ==> !p(j)
    ensures k < n ==> p(k)
    decreases n - i
  {
    if i == n || p(i) then i else FirstWhere(p, n, i + 1)
  }

  /** A position with no hit before it, and either the end or a hit at it, is the
      first hit. */
  lemma {:induction false} FirstWhereIs(p: nat -> bool, n: nat, k: nat, i: nat)
    requires i <= k <= n
    requires forall j :: i <= j < k ==> !p(j)
    requires k < n ==> p(k)
    ensures FirstWhere(p, n, i) == k
    decreases k - i
  {
    if i < k {
      FirstWhereIs(p, n, k, i + 1);
    }
  }

  /** Whether the store of the `j`-th group of `ds` raises. */
  function FailsAt(data: seq<HistoryRow>, ds: seq<int>, faults: nat -> Option<nat>, now: int): nat -> bool
  {
    (j: nat) => j < |ds| && GroupFails(data, ds[j], faults(j), now)
  }

  /** The position of the first group of `ds` whose store raises, or `|ds|`. */
  function FirstFailure(data: seq<HistoryRow>, ds: seq<int>, faults: nat -> Option<nat>, now: int): nat
  {
    FirstWhere(FailsAt(data, ds, faults, now), |ds|, 0)
  }

  // ---------------------------------------------------------------------------
  // The tracker object

  /** `HistoricalGEXTracker`: the upper-cased ticker, the provider it chose and the
      two tables of its database. */
  class HistoricalGEXTracker {
    const ticker: string
    const provider: Providers.ProviderChoice
    var daily: seq<DailyRow>
    var strikes: seq<StrikeRow>

    /** Both primary keys hold. */
    ghost predicate Valid()
      reads this
    {
      NoDup(Project(daily, DateOf)) && NoDup(Project(strikes, StrikeKeyOf))
    }

    /** `__init__` and `_init_db`: the ticker is upper-cased, the provider is the
        factory's choice (Polygon when asked for, keyed and started; CBOE
        otherwise), and `CREATE TABLE IF NOT EXISTS` keeps whatever the database
        already holds. */
    constructor (ticker: string, usePolygon: bool, apiKey: Option<string>, polygonStarts: bool,
                 daily: seq<DailyRow>, strikes: seq<StrikeRow>)
      requires NoDup(Project(daily, DateOf)) && NoDup(Project(strikes, StrikeKeyOf))
      ensures Valid()
      ensures this.ticker == Fetcher.Upper(ticker)
      ensures this.provider == Providers.GetDataProvider(usePolygon, apiKey, polygonStarts)
      ensures this.daily == daily && this.strikes == strikes
    {
      this.ticker := Fetcher.Upper(ticker);
      this.provider := Providers.GetDataProvider(usePolygon, apiKey, polygonStarts);
      this.daily := daily;
      this.strikes := strikes;
    }

    /** `store_daily_snapshot` as written: line 60 unpacks the three-key dict into
        two names and raises before the connection is opened, so nothing is
        written. */
    method StoreDailySnapshotAsWritten(calculator: GEXCalculator, spotPrice: real, now: int) returns (r: Result<(), Error>)
      ensures r == Err(ValueError("too many values to unpack (expected 2)"))
    {
      var totalGex := calculator.GetTotalGex();
      var names := UnpackPair(PutCallKeys);
      match names {
        case Err(e) => r := Err(e);
        case Ok(_) => r := Ok(());
      }
    }

    /** `store_daily_snapshot` with the call and put GEX read from the dict by key.
        The weighted expiry writes `days_to_exp` into the calculator's table before
        the connection opens; then the daily upsert and one strike upsert per
        banded strike run in one transaction. `fault` is the statement (0 for the
        daily row, `i + 1` for the `i`-th strike) at which the database raises, if
        any: then the transaction rolls back and neither table changes. */
    method StoreDailySnapshot(calculator: GEXCalculator, spotPrice: real, now: int, fault: Option<nat>) returns (r: Result<(), Error>)
      requires Valid()
      modifies this, calculator.optionData
      ensures Valid()
      ensures calculator.optionData.rows == WithDaysToExp(old(calculator.optionData.rows), now)
      ensures calculator.optionData.columns == old(calculator.optionData.columns) + {"days_to_exp"}
      ensures r.Ok? <==> fault.None? || fault.value > |GexByStrike(calculator.optionData.rows, calculator.spotPrice)|
      ensures r.Ok? ==> daily == Upsert(old(daily), DateOf,
        SnapshotRow(Today(now), old(calculator.optionData.rows), spotPrice, calculator.spotPrice, now))
      ensures r.Ok? ==> strikes == StoreStrikeRows(old(strikes), Today(now), GexByStrike(calculator.optionData.rows, calculator.spotPrice))
      ensures r.Err? ==> r.error == DatabaseError && daily == old(daily) && strikes == old(strikes)
    {
      var date := Today(now);
      var totalGex := calculator.GetTotalGex();
      var pc := calculator.GetPutCall();
      var weightedExpiry := calculator.GetWeightedExpiration(now);
      var row := DailyRow(date, totalGex, pc.calls, pc.puts, spotPrice, weightedExpiry);
      var g := calculator.GetGexByStrike();
      var written := WriteSnapshot(daily, strikes, row, date, g, fault);
      if written.Err? {
        return Err(written.error);
      }
      SnapshotKeepsKeys(daily, strikes, row, date, g);
      daily := written.value.0;
      strikes := written.value.1;
      r := Ok(());
    }

    /** `backfill_historical_data` as written: a provider error is re-raised and
        empty data returns at once; otherwise the first date group reaches
        `store_daily_snapshot`, whose unpacking raises, and the error is
        re-raised with nothing written. */
    method BackfillHistoricalDataAsWritten(polygonData: Result<seq<HistoryRow>, Error>, now: int) returns (r: Result<(), Error>)
      ensures var fetched := HistoryFetch(provider, polygonData);
        (fetched.Err? ==> r == Err(fetched.error)) &&
        (fetched.Ok? && |fetched.value| == 0 ==> r == Ok(())) &&
        (fetched.Ok? && |fetched.value| > 0 ==> r == Err(ValueError("too many values to unpack (expected 2)")))
    {
      var fetched := HistoryFetch(provider, polygonData);
      if fetched.Err? {
        return Err(fetched.error);
      }
      var data := fetched.value;
      if |data| == 0 {
        return Ok(());
      }
      var ds := DateGroups(data);
      SortedUniqueProps(Project(data, HistDateOf), IntRank);
      assert Project(data, HistDateOf)[0] in ds;
      var i := 0;
      r := Ok(());
      while i < |ds| && r.Ok?
        invariant 0 <= i <= |ds|
        invariant r.Ok? <==> i == 0
        invariant r.Err? ==> r == Err(ValueError("too many values to unpack (expected 2)"))
      {
        var group := GroupOf(data, ds[i]);
        FilterKeyNonEmpty(data, HistDateOf, ds[i]);
        var table := new OptionTable(HistoryColumns, Project(group, OptionOf));
        var calculator := new GEXCalculator(group[0].close, table);
        r := StoreDailySnapshotAsWritten(calculator, group[0].close, now);
        i := i + 1;
      }
    }

    /** Corrected `backfill_historical_data`: every date group, in date order, is
        stored through a fresh calculator at its first close with the corrected
        snapshot. Each store is its own transaction, with `faults(i)` saying where
        the `i`-th one raises, if at all: the groups before the first failing one
        stay committed and its DatabaseError is re-raised. A provider error is
        re-raised with nothing written. */
    method BackfillHistoricalData(polygonData: Result<seq<HistoryRow>, Error>, now: int, faults: nat -> Option<nat>) returns (r: Result<(), Error>)
      requires Valid()
      modifies this
      ensures Valid()
      ensures var fetched := HistoryFetch(provider, polygonData);
        fetched.Err? ==> r == Err(fetched.error) && daily == old(daily) && strikes == old(strikes)
      ensures var fetched := HistoryFetch(provider, polygonData);
        fetched.Ok? ==>
          var ds := DateGroups(fetched.value);
          var k := FirstFailure(fetched.value, ds, faults, now);
          (r.Ok? <==> k == |ds|) && (r.Err? ==> r.error == DatabaseError) &&
          (daily, strikes) == BackfillTables(old(daily), old(strikes), fetched.value, ds[..k], now)
    {
      var fetched := HistoryFetch(provider, polygonData);
      if fetched.Err? {
        return Err(fetched.error);
      }
      var data := fetched.value;
      if |data| == 0 {
        assert DateGroups(data) == [];
        return Ok(());
      }
      var ds := DateGroups(data);
      SortedUniqueProps(Project(data, HistDateOf), IntRank);
      var fails := FailsAt(data, ds, faults, now);
      var i := 0;
      while i < |ds|
        invariant 0 <= i <= |ds|
        invariant Valid()
        invariant forall j :: 0 <= j < i ==> !fails(j)
        invariant (daily, strikes) == BackfillTables(old(daily), old(strikes), data, ds[..i], now)
      {
        var group := GroupOf(data, ds[i]);
        FilterKeyNonEmpty(data, HistDateOf, ds[i]);
        var stored := StoreGroup(group, now, faults(i));
        assert stored.Ok? <==> !fails(i);
        if stored.Err? {
          FirstWhereIs(fails, |ds|, i, 0);
          return stored;
        }
        BackfillStep(old(daily), old(strikes), data, ds, i, now);
        i := i + 1;
      }
      FirstWhereIs(fails, |ds|, i, 0);
      assert ds[..i] == ds;
      r := Ok(());
    }

    /** One pass of the backfill loop: a fresh calculator over the group, at its
        first close, stored by the corrected snapshot. */
    method StoreGroup(group: seq<HistoryRow>, now: int, fault: Option<nat>) returns (r: Result<(), Error>)
      requires Valid() && |group| > 0
      modifies this
      ensures Valid()
      ensures r.Ok? <==> !StoreRaises(group, fault, now)
      ensures r.Ok? ==> daily == Upsert(old(daily), DateOf, GroupSnapshot(group, now).0)
      ensures r.Ok? ==> strikes == StoreStrikeRows(old(strikes), Today(now), GroupSnapshot(group, now).1)
      ensures r.Err? ==> r.error == DatabaseError && daily == old(daily) && strikes == old(strikes)
    {
      var table := new OptionTable(HistoryColumns, Project(group, OptionOf));
      var calculator := new GEXCalculator(group[0].close, table);
      r := StoreDailySnapshot(calculator, group[0].close, now, fault);
    }

    /** `get_historical_gex`. */
    function GetHistoricalGex(now: int, days: int := 30): seq<DailyRow>
      reads this
    {
      HistoricalGex(daily, now, days)
    }

    /** `get_historical_strikes`. */
    function GetHistoricalStrikes(date: int): seq<StrikeRow>
      reads this
    {
      HistoricalStrikes(strikes, date)
    }

    /** `analyze_gex_vs_price`. */
    function AnalyzeGexVsPriceOf(now: int, percentile: (seq<real>, int) -> real, days: int := 30): Option<GexAnalysis>
      reads this
    {
      AnalyzeGexVsPrice(daily, now, days, percentile)
    }

    /** `get_dominant_expiry`. */
    function GetDominantExpiry(now: int): Option<int>
      reads this
    {
      DominantExpiry(strikes, now)
    }
  }
}
