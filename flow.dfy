/** Option-flow analytics (gex_tracker/core/flow.py): day-over-day open-interest
    changes, volume against open interest, large trades and aggregate flow
    metrics. Every function works on a copy of its table, so none changes its
    input. */
module Flow {
  import opened Wrappers
  import opened Tables
  import opened OptionRows
  import opened Calculator

  /** `x.replace(0, 1)`: a zero divisor becomes 1. */
  function OneIfZero(x: real): (y: real)
    ensures y != 0.0 && (x != 0.0 ==> y == x)
  {
    if x == 0.0 then 1.0 else x
  }

  // ---------------------------------------------------------------------------
  // compare_oi_changes

  /** The option identity `type_strike_expiration`. */
  datatype OptionKey = OptionKey(kind: string, strike: real, expiration: int)

  function KeyOf(r: OptionRow): OptionKey { OptionKey(r.kind, r.strike, r.expiration) }

  /** One row of the merged table. */
  datatype OiChange = OiChange(key: OptionKey, oiToday: real, oiYday: real, gex: real, oiChange: real, oiChangePct: real)

  function OiTodayOf(c: OiChange): real { c.oiToday }
  function OiYdayOf(c: OiChange): real { c.oiYday }
  function ChangeGexOf(c: OiChange): real { c.gex }
  function OiChangeOf(c: OiChange): real { c.oiChange }

  /** A merged row from today's and yesterday's open interest (0 for a missing
      side): the change is today minus yesterday, and its percentage is taken
      against yesterday, or against 1 when yesterday is 0. */
  function MakeChange(k: OptionKey, today: real, yday: real, gex: real): (c: OiChange)
    ensures c.key == k && c.oiToday == today && c.oiYday == yday && c.gex == gex
    ensures c.oiChange == today - yday
    ensures yday != 0.0 ==> c.oiChangePct * yday == 100.0 * c.oiChange
    ensures yday == 0.0 ==> c.oiChangePct == 100.0 * today
  {
    var change := today - yday;
    var pct := change / OneIfZero(yday) * 100.0;
    assert yday != 0.0 ==> change / yday * yday == change;
    OiChange(k, today, yday, gex, change, pct)
  }

  /** The rows an outer merge produces for a key found on both days: one per pair
      of a today row and a yesterday row. */
  function PairRows(k: OptionKey, ts: seq<OptionRow>, ys: seq<OptionRow>): (out: seq<OiChange>)
    ensures forall i :: 0 <= i < |out| ==> out[i].key == k
    ensures |ts| > 0 && |ys| > 0 ==> |out| > 0
  {
    if |ts| == 0 then []
    else
      var t := ts[|ts| - 1];
      PairRows(k, ts[..|ts| - 1], ys)
        + seq(|ys|, j requires 0 <= j < |ys| => MakeChange(k, t.openInterest, ys[j].openInterest, t.gex))
  }

  /** The merged rows of one key, with `ts` today's rows and `ys` yesterday's rows
      under that key: a key missing on one day gets 0 open interest (and 0 GEX)
      on that side. */
  function KeyRows(k: OptionKey, ts: seq<OptionRow>, ys: seq<OptionRow>): (out: seq<OiChange>)
    ensures forall i :: 0 <= i < |out| ==> out[i].key == k
    ensures |out| > 0 <==> |ts| > 0 || |ys| > 0
  {
    if |ts| == 0 then seq(|ys|, j requires 0 <= j < |ys| => MakeChange(k, 0.0, ys[j].openInterest, 0.0))
    else if |ys| == 0 then seq(|ts|, i requires 0 <= i < |ts| => MakeChange(k, ts[i].openInterest, 0.0, ts[i].gex))
    else PairRows(k, ts, ys)
  }

  /** The merged rows of the keys `ks`, key by key. */
  function MergeOver(today: seq<OptionRow>, yday: seq<OptionRow>, ks: seq<OptionKey>): seq<OiChange>
  {
    if |ks| == 0 then []
    else
      var k := ks[|ks| - 1];
      MergeOver(today, yday, ks[..|ks| - 1]) + KeyRows(k, Filter(today, KeyIs(KeyOf, k)), Filter(yday, KeyIs(KeyOf, k)))
  }

  /** The keys of either day, each once. */
  function MergedKeys(today: seq<OptionRow>, yday: seq<OptionRow>): seq<OptionKey>
  {
    Distinct(Project(today, KeyOf) + Project(yday, KeyOf))
  }

  /** `compare_oi_changes`: the outer merge of today's and yesterday's tables on
      the option key, with open interest and GEX of a missing side filled with 0. */
  function CompareOiChanges(today: seq<OptionRow>, yday: seq<OptionRow>): seq<OiChange>
  {
    MergeOver(today, yday, MergedKeys(today, yday))
  }

  function ChangeKeyOf(c: OiChange): OptionKey { c.key }

  lemma {:induction false} MergeOverKeys(today: seq<OptionRow>, yday: seq<OptionRow>, ks: seq<OptionKey>)
    ensures forall k ::
      (k in Project(MergeOver(today, yday, ks), ChangeKeyOf) <==> k in ks && (k in Project(today, KeyOf) || k in Project(yday, KeyOf)))
  {
    if |ks| > 0 {
      var p := ks[..|ks| - 1];
      var last := ks[|ks| - 1];
      MergeOverKeys(today, yday, p);
      var a := MergeOver(today, yday, p);
      var b := KeyRows(last, Filter(today, KeyIs(KeyOf, last)), Filter(yday, KeyIs(KeyOf, last)));
      FilterKeyNonEmpty(today, KeyOf, last);
      FilterKeyNonEmpty(yday, KeyOf, last);
      assert MergeOver(today, yday, ks) == a + b;
      assert Project(a + b, ChangeKeyOf) == Project(a, ChangeKeyOf) + Project(b, ChangeKeyOf);
      assert forall k :: k in Project(b, ChangeKeyOf) ==> k == last;
      if |b| > 0 {
        assert Project(b, ChangeKeyOf)[0] == last;
      }
      assert forall k :: k in ks <==> k in p || k == last;
    }
  }

  /** The merge is a full outer join: a key appears in the result exactly when it
      appears on either day. */
  lemma CompareOiKeys(today: seq<OptionRow>, yday: seq<OptionRow>)
    ensures forall k ::
      (k in Project(CompareOiChanges(today, yday), ChangeKeyOf) <==> k in Project(today, KeyOf) || k in Project(yday, KeyOf))
  {
    var ks := MergedKeys(today, yday);
    MergeOverKeys(today, yday, ks);
    DistinctProps(Project(today, KeyOf) + Project(yday, KeyOf));
  }

  /** With at most one row per key and day, a key yields one merged row that
      carries that day's open interest and GEX, or 0 for a missing side. */
  lemma KeyRowsSums(k: OptionKey, ts: seq<OptionRow>, ys: seq<OptionRow>)
    requires |ts| <= 1 && |ys| <= 1
    ensures Sum(KeyRows(k, ts, ys), OiTodayOf) == Sum(ts, OpenInterestOf)
    ensures Sum(KeyRows(k, ts, ys), OiYdayOf) == Sum(ys, OpenInterestOf)
    ensures Sum(KeyRows(k, ts, ys), ChangeGexOf) == Sum(ts, GexOf)
  {
    var out := KeyRows(k, ts, ys);
    if |ts| == 1 {
      SumSingle(ts[0], OpenInterestOf);
      SumSingle(ts[0], GexOf);
      assert ts == [ts[0]];
    }
    if |ys| == 1 {
      SumSingle(ys[0], OpenInterestOf);
      assert ys == [ys[0]];
    }
    if |out| == 1 {
      SumSingle(out[0], OiTodayOf);
      SumSingle(out[0], OiYdayOf);
      SumSingle(out[0], ChangeGexOf);
      assert out == [out[0]];
    }
    if |ts| == 1 && |ys| == 1 {
      assert ts[..0] == [];
      assert PairRows(k, ts[..0], ys) == [];
      assert out == [MakeChange(k, ts[0].openInterest, ys[0].openInterest, ts[0].gex)];
    }
  }

  lemma {:induction false} MergeOverSums(today: seq<OptionRow>, yday: seq<OptionRow>, ks: seq<OptionKey>)
    requires NoDup(Project(today, KeyOf)) && NoDup(Project(yday, KeyOf))
    ensures Sum(MergeOver(today, yday, ks), OiTodayOf) == Total(Values(GroupOver(today, KeyOf, OpenInterestOf, ks)))
    ensures Sum(MergeOver(today, yday, ks), OiYdayOf) == Total(Values(GroupOver(yday, KeyOf, OpenInterestOf, ks)))
    ensures Sum(MergeOver(today, yday, ks), ChangeGexOf) == Total(Values(GroupOver(today, KeyOf, GexOf, ks)))
  {
    if |ks| > 0 {
      var p := ks[..|ks| - 1];
      var k := ks[|ks| - 1];
      MergeOverSums(today, yday, p);
      var ts := Filter(today, KeyIs(KeyOf, k));
      var ys := Filter(yday, KeyIs(KeyOf, k));
      var a := MergeOver(today, yday, p);
      var b := KeyRows(k, ts, ys);
      FilterKeyUnique(today, KeyOf, k);
      FilterKeyUnique(yday, KeyOf, k);
      KeyRowsSums(k, ts, ys);
      SumConcat(a, b, OiTodayOf);
      SumConcat(a, b, OiYdayOf);
      SumConcat(a, b, ChangeGexOf);
      SumFilterKey(today, KeyOf, OpenInterestOf, k);
      SumFilterKey(yday, KeyOf, OpenInterestOf, k);
      SumFilterKey(today, KeyOf, GexOf, k);
      GroupValuesSnoc(today, OpenInterestOf, ks);
      GroupValuesSnoc(yday, OpenInterestOf, ks);
      GroupValuesSnoc(today, GexOf, ks);
    }
  }

  lemma GroupValuesSnoc(rows: seq<OptionRow>, val: OptionRow -> real, ks: seq<OptionKey>)
    requires |ks| > 0
    ensures Total(Values(GroupOver(rows, KeyOf, val, ks)))
         == Total(Values(GroupOver(rows, KeyOf, val, ks[..|ks| - 1]))) + SumAt(rows, KeyOf, val, ks[|ks| - 1])
  {
    var k := ks[|ks| - 1];
    var v := Values(GroupOver(rows, KeyOf, val, ks));
    assert v == Values(GroupOver(rows, KeyOf, val, ks[..|ks| - 1])) + [SumAt(rows, KeyOf, val, k)];
    TotalConcat(Values(GroupOver(rows, KeyOf, val, ks[..|ks| - 1])), [SumAt(rows, KeyOf, val, k)]);
    assert Total([SumAt(rows, KeyOf, val, k)]) == Total([]) + SumAt(rows, KeyOf, val, k);
  }

  /** With each option listed at most once per day, the merge loses and invents
      nothing: its open-interest columns add up to each day's total open interest,
      its GEX column to today's total GEX, and its change column to the net change
      in open interest. */
  lemma CompareOiTotals(today: seq<OptionRow>, yday: seq<OptionRow>)
    requires NoDup(Project(today, KeyOf)) && NoDup(Project(yday, KeyOf))
    ensures Sum(CompareOiChanges(today, yday), OiTodayOf) == Sum(today, OpenInterestOf)
    ensures Sum(CompareOiChanges(today, yday), OiYdayOf) == Sum(yday, OpenInterestOf)
    ensures Sum(CompareOiChanges(today, yday), ChangeGexOf) == Sum(today, GexOf)
    ensures Sum(CompareOiChanges(today, yday), OiChangeOf) == Sum(today, OpenInterestOf) - Sum(yday, OpenInterestOf)
  {
    var ks := MergedKeys(today, yday);
    var out := CompareOiChanges(today, yday);
    MergedKeysCover(today, yday);
    MergeOverSums(today, yday, ks);
    assert Sum(out, OiTodayOf) == Sum(today, OpenInterestOf) by {
      GroupTotal(today, KeyOf, OpenInterestOf, ks);
    }
    assert Sum(out, OiYdayOf) == Sum(yday, OpenInterestOf) by {
      GroupTotal(yday, KeyOf, OpenInterestOf, ks);
    }
    assert Sum(out, ChangeGexOf) == Sum(today, GexOf) by {
      GroupTotal(today, KeyOf, GexOf, ks);
    }
    MergeOverChanges(today, yday, ks);
    SumDiff(out, OiChangeOf, OiTodayOf, OiYdayOf);
  }

  /** The merged keys are distinct and include the key of every row of either day. */
  lemma MergedKeysCover(today: seq<OptionRow>, yday: seq<OptionRow>)
    ensures NoDup(MergedKeys(today, yday))
    ensures forall i :: 0 <= i < |today| ==> KeyOf(today[i]) in MergedKeys(today, yday)
    ensures forall i :: 0 <= i < |yday| ==> KeyOf(yday[i]) in MergedKeys(today, yday)
  {
    var ks := MergedKeys(today, yday);
    DistinctProps(Project(today, KeyOf) + Project(yday, KeyOf));
    forall i | 0 <= i < |today| ensures KeyOf(today[i]) in ks {
      assert Project(today, KeyOf)[i] == KeyOf(today[i]);
    }
    forall i | 0 <= i < |yday| ensures KeyOf(yday[i]) in ks {
      assert Project(yday, KeyOf)[i] == KeyOf(yday[i]);
    }
  }

  lemma {:induction false} MergeOverChanges(today: seq<OptionRow>, yday: seq<OptionRow>, ks: seq<OptionKey>)
    ensures forall i :: 0 <= i < |MergeOver(today, yday, ks)| ==>
      var c := MergeOver(today, yday, ks)[i]; c.oiChange == c.oiToday - c.oiYday
  {
    if |ks| > 0 {
      MergeOverChanges(today, yday, ks[..|ks| - 1]);
      var k := ks[|ks| - 1];
      KeyRowsChanges(k, Filter(today, KeyIs(KeyOf, k)), Filter(yday, KeyIs(KeyOf, k)));
    }
  }

  lemma {:induction false} KeyRowsChanges(k: OptionKey, ts: seq<OptionRow>, ys: seq<OptionRow>)
    ensures forall i :: 0 <= i < |KeyRows(k, ts, ys)| ==>
      var c := KeyRows(k, ts, ys)[i]; c.oiChange == c.oiToday - c.oiYday
  {
    if |ts| > 0 && |ys| > 0 {
      PairRowsChanges(k, ts, ys);
    }
  }

  lemma {:induction false} PairRowsChanges(k: OptionKey, ts: seq<OptionRow>, ys: seq<OptionRow>)
    ensures forall i :: 0 <= i < |PairRows(k, ts, ys)| ==>
      var c := PairRows(k, ts, ys)[i]; c.oiChange == c.oiToday - c.oiYday
  {
    if |ts| > 0 {
      PairRowsChanges(k, ts[..|ts| - 1], ys);
    }
  }

  // ---------------------------------------------------------------------------
  // analyze_volume_vs_oi

  /** The `(strike, type)` group key. */
  datatype StrikeType = StrikeType(strike: real, kind: string)

  function StrikeTypeOf(r: OptionRow): StrikeType { StrikeType(r.strike, r.kind) }
  function StrikeRank(k: StrikeType): real { k.strike }

  /** `volume / open_interest.replace(0, 1)`. */
  function VolumeToOi(r: OptionRow): real
  {
    r.volume / OneIfZero(r.openInterest)
  }

  /** `volume_to_oi > threshold`, strictly. */
  function Unusual(threshold: real): OptionRow -> bool
  {
    (r: OptionRow) => VolumeToOi(r) > threshold
  }

  datatype VolumeGroup = VolumeGroup(
    key: StrikeType, volume: real, openInterest: real, volumeToOi: real, isUnusualVolume: bool, gex: real)

  function GroupVolumeOf(g: VolumeGroup): real { g.volume }
  function GroupOiOf(g: VolumeGroup): real { g.openInterest }
  function GroupGexOf(g: VolumeGroup): real { g.gex }

  /** `mean()` of a column; 0 for no rows (a group is never empty). */
  function Mean(members: seq<OptionRow>, val: OptionRow -> real): real
  {
    if |members| == 0 then 0.0 else Sum(members, val) / |members| as real
  }

  /** A mean is at most a bound on every value. */
  lemma MeanAtMost(members: seq<OptionRow>, val: OptionRow -> real, c: real)
    requires |members| > 0
    requires forall j :: 0 <= j < |members| ==> val(members[j]) <= c
    ensures Mean(members, val) <= c
  {
    SumAtMost(members, val, c);
    MeanBound(Sum(members, val), |members| as real, c);
  }

  /** The aggregates of one group's rows: sums of volume, open interest and GEX,
      the mean ratio, and whether any row is unusual. */
  function Aggregate(k: StrikeType, members: seq<OptionRow>, threshold: real): VolumeGroup
  {
    var n := |members|;
    VolumeGroup(k, Sum(members, VolumeOf), Sum(members, OpenInterestOf),
      Mean(members, VolumeToOi),
      |Filter(members, Unusual(threshold))| > 0,
      Sum(members, GexOf))
  }

  /** The group keys: the distinct `(strike, type)` pairs, by ascending strike. */
  function VolumeKeys(rows: seq<OptionRow>): seq<StrikeType>
  {
    SortedUnique(Project(rows, StrikeTypeOf), StrikeRank)
  }

  /** `analyze_volume_vs_oi`: one aggregate per `(strike, type)` group. */
  function AnalyzeVolumeVsOi(rows: seq<OptionRow>, threshold: real := 2.0): (g: seq<VolumeGroup>)
    ensures |g| == |VolumeKeys(rows)|
    ensures forall i :: 0 <= i < |g| ==>
      g[i] == Aggregate(VolumeKeys(rows)[i], Filter(rows, KeyIs(StrikeTypeOf, VolumeKeys(rows)[i])), threshold)
  {
    var ks := VolumeKeys(rows);
    seq(|ks|, i requires 0 <= i < |ks| => Aggregate(ks[i], Filter(rows, KeyIs(StrikeTypeOf, ks[i])), threshold))
  }

  function GroupKeyOf(g: VolumeGroup): StrikeType { g.key }

  /** The groups are listed once each, by ascending strike, and are exactly the
      `(strike, type)` pairs of the table. */
  lemma VolumeGroupKeys(rows: seq<OptionRow>, threshold: real)
    ensures var g := AnalyzeVolumeVsOi(rows, threshold);
      NoDup(Project(g, GroupKeyOf)) &&
      (forall i, j :: 0 <= i < j < |g| ==> g[i].key.strike <= g[j].key.strike) &&
      (forall k :: k in Project(g, GroupKeyOf) <==> k in Project(rows, StrikeTypeOf))
  {
    var g := AnalyzeVolumeVsOi(rows, threshold);
    var ks := VolumeKeys(rows);
    SortedUniqueProps(Project(rows, StrikeTypeOf), StrikeRank);
    assert Project(g, GroupKeyOf) == ks;
    forall i, j | 0 <= i < j < |g| ensures g[i].key.strike <= g[j].key.strike {
      assert StrikeRank(ks[i]) <= StrikeRank(ks[j]);
    }
  }

  /** Each group sums exactly its own rows, and a group is unusual exactly when
      one of its rows has a volume/OI ratio above the threshold. */
  lemma VolumeGroupContents(rows: seq<OptionRow>, threshold: real, i: nat)
    requires i < |AnalyzeVolumeVsOi(rows, threshold)|
    ensures var g := AnalyzeVolumeVsOi(rows, threshold)[i];
      g.volume == SumAt(rows, StrikeTypeOf, VolumeOf, g.key) &&
      g.openInterest == SumAt(rows, StrikeTypeOf, OpenInterestOf, g.key) &&
      g.gex == SumAt(rows, StrikeTypeOf, GexOf, g.key) &&
      (g.isUnusualVolume <==> exists r :: r in rows && StrikeTypeOf(r) == g.key && VolumeToOi(r) > threshold)
  {
    var g := AnalyzeVolumeVsOi(rows, threshold)[i];
    var k := g.key;
    assert g == Aggregate(k, Filter(rows, KeyIs(StrikeTypeOf, k)), threshold);
    SumFilterKey(rows, StrikeTypeOf, VolumeOf, k);
    SumFilterKey(rows, StrikeTypeOf, OpenInterestOf, k);
    SumFilterKey(rows, StrikeTypeOf, GexOf, k);
    UnusualMember(rows, threshold, k);
  }

  /** Some row of the group `k` has a ratio above the threshold exactly when the
      group's unusual rows are not empty. */
  lemma UnusualMember(rows: seq<OptionRow>, threshold: real, k: StrikeType)
    ensures |Filter(Filter(rows, KeyIs(StrikeTypeOf, k)), Unusual(threshold))| > 0 <==>
      exists r :: r in rows && StrikeTypeOf(r) == k && VolumeToOi(r) > threshold
  {
    var members := Filter(rows, KeyIs(StrikeTypeOf, k));
    var u := Filter(members, Unusual(threshold));
    if |u| > 0 {
      var x := u[0];
      assert x in members && VolumeToOi(x) > threshold by {
        assert x in u;
        FilterMembers(members, Unusual(threshold));
      }
      assert x in rows && StrikeTypeOf(x) == k by {
        FilterMembers(rows, KeyIs(StrikeTypeOf, k));
      }
    }
    if exists r :: r in rows && StrikeTypeOf(r) == k && VolumeToOi(r) > threshold {
      var r :| r in rows && StrikeTypeOf(r) == k && VolumeToOi(r) > threshold;
      assert r in members by {
        FilterMembers(rows, KeyIs(StrikeTypeOf, k));
      }
      assert r in u by {
        FilterMembers(members, Unusual(threshold));
      }
    }
  }

  /** The mean ratio of a group never exceeds the threshold unless the group is
      flagged unusual. */
  lemma VolumeMeanBelowThreshold(rows: seq<OptionRow>, threshold: real, i: nat)
    requires i < |AnalyzeVolumeVsOi(rows, threshold)|
    requires !AnalyzeVolumeVsOi(rows, threshold)[i].isUnusualVolume
    ensures AnalyzeVolumeVsOi(rows, threshold)[i].volumeToOi <= threshold
  {
    var g := AnalyzeVolumeVsOi(rows, threshold)[i];
    var members := Filter(rows, KeyIs(StrikeTypeOf, g.key));
    var u := Filter(members, Unusual(threshold));
    FilterMembers(members, Unusual(threshold));
    forall j | 0 <= j < |members| ensures VolumeToOi(members[j]) <= threshold {
      assert u == [];
      assert members[j] !in u;
    }
    SortedUniqueProps(Project(rows, StrikeTypeOf), StrikeRank);
    FilterKeyNonEmpty(rows, StrikeTypeOf, g.key);
    MeanAtMost(members, VolumeToOi, threshold);
  }

  lemma MeanBound(s: real, n: real, c: real)
    requires n > 0.0 && s <= c * n
    ensures s / n <= c
  {
    assert s / n * n == s;
  }

  /** Group-by consistency: the group volumes, open interests and GEX add up to
      those of the whole table. */
  lemma VolumeGroupTotals(rows: seq<OptionRow>, threshold: real)
    ensures Sum(AnalyzeVolumeVsOi(rows, threshold), GroupVolumeOf) == Sum(rows, VolumeOf)
    ensures Sum(AnalyzeVolumeVsOi(rows, threshold), GroupOiOf) == Sum(rows, OpenInterestOf)
    ensures Sum(AnalyzeVolumeVsOi(rows, threshold), GroupGexOf) == Sum(rows, GexOf)
  {
    var g := AnalyzeVolumeVsOi(rows, threshold);
    var ks := VolumeKeys(rows);
    SortedUniqueProps(Project(rows, StrikeTypeOf), StrikeRank);
    forall i | 0 <= i < |rows| ensures StrikeTypeOf(rows[i]) in ks {
      assert Project(rows, StrikeTypeOf)[i] == StrikeTypeOf(rows[i]);
    }
    GroupColumn(rows, threshold, VolumeOf, GroupVolumeOf);
    GroupColumn(rows, threshold, OpenInterestOf, GroupOiOf);
    GroupColumn(rows, threshold, GexOf, GroupGexOf);
    GroupTotal(rows, StrikeTypeOf, VolumeOf, ks);
    GroupTotal(rows, StrikeTypeOf, OpenInterestOf, ks);
    GroupTotal(rows, StrikeTypeOf, GexOf, ks);
  }

  lemma GroupColumn(rows: seq<OptionRow>, threshold: real, val: OptionRow -> real, col: VolumeGroup -> real)
    requires forall k, members :: col(Aggregate(k, members, threshold)) == Sum(members, val)
    ensures Sum(AnalyzeVolumeVsOi(rows, threshold), col)
         == Total(Values(GroupOver(rows, StrikeTypeOf, val, VolumeKeys(rows))))
  {
    var g := AnalyzeVolumeVsOi(rows, threshold);
    var ks := VolumeKeys(rows);
    forall i | 0 <= i < |g| ensures Column(g, col)[i] == Values(GroupOver(rows, StrikeTypeOf, val, ks))[i] {
      SumFilterKey(rows, StrikeTypeOf, val, ks[i]);
    }
    assert Column(g, col) == Values(GroupOver(rows, StrikeTypeOf, val, ks));
  }

  // ---------------------------------------------------------------------------
  // track_large_trades

  /** A row with its `notional` column. */
  datatype LargeTrade = LargeTrade(row: OptionRow, notional: real)

  /** `volume · strike · 100`. */
  function Notional(r: OptionRow): real { r.volume * r.strike * 100.0 }

  function WithNotional(r: OptionRow): LargeTrade { LargeTrade(r, Notional(r)) }

  function IsLarge(minVolume: real, minNotional: real): OptionRow -> bool
  {
    (r: OptionRow) => r.volume >= minVolume && Notional(r) >= minNotional
  }

  function NegNotional(t: LargeTrade): real { -t.notional }

  /** `track_large_trades`: the rows meeting both thresholds (inclusive), with
      their notional, by descending notional. */
  function TrackLargeTrades(rows: seq<OptionRow>, minVolume: real := 100.0, minNotional: real := 1000000.0): seq<LargeTrade>
  {
    SortBy(Project(Filter(rows, IsLarge(minVolume, minNotional)), WithNotional), NegNotional)
  }

  /** The result is sorted by descending notional, is a rearrangement of the
      qualifying rows, and holds a row exactly when it meets both thresholds. */
  lemma LargeTradesProps(rows: seq<OptionRow>, minVolume: real, minNotional: real)
    ensures var out := TrackLargeTrades(rows, minVolume, minNotional);
      (forall i, j :: 0 <= i < j < |out| ==> out[i].notional >= out[j].notional) &&
      multiset(out) == multiset(Project(Filter(rows, IsLarge(minVolume, minNotional)), WithNotional)) &&
      (forall t :: t in out ==>
        t.row in rows && t.notional == Notional(t.row) && t.row.volume >= minVolume && t.notional >= minNotional) &&
      (forall r :: r in rows && r.volume >= minVolume && Notional(r) >= minNotional ==> WithNotional(r) in out)
  {
    var large := Filter(rows, IsLarge(minVolume, minNotional));
    var tagged := Project(large, WithNotional);
    var out := TrackLargeTrades(rows, minVolume, minNotional);
    SortByProps(tagged, NegNotional);
    FilterMembers(rows, IsLarge(minVolume, minNotional));
    ProjectMembers(large, WithNotional);
    forall i, j | 0 <= i < j < |out| ensures out[i].notional >= out[j].notional {
      assert NegNotional(out[i]) <= NegNotional(out[j]);
    }
    forall t | t in out ensures t.row in rows && t.notional == Notional(t.row) && t.row.volume >= minVolume && t.notional >= minNotional {
      assert t in multiset(out);
      assert t in tagged;
    }
    forall r | r in rows && r.volume >= minVolume && Notional(r) >= minNotional ensures WithNotional(r) in out {
      assert r in large;
      assert WithNotional(r) in tagged;
      assert WithNotional(r) in multiset(tagged);
    }
  }

  // ---------------------------------------------------------------------------
  // aggregate_flow_metrics

  datatype FlowMetrics = FlowMetrics(
    totalVolume: real, totalOi: real,
    /** `None` when the total open interest is 0 (the division gives inf or NaN). */
    volumeToOiRatio: Option<real>,
    callVolume: real, putVolume: real, callOi: real, putOi: real,
    pctCalls: real, pctPuts: real)

  /** `aggregate_flow_metrics`: totals, the volume/OI ratio, the call and put
      volumes and open interests, and the call/put percentage split of the C and
      P volume (0/0 when that volume is not positive). */
  function AggregateFlowMetrics(rows: seq<OptionRow>): (m: FlowMetrics)
    ensures m.callVolume == Sum(Filter(rows, KindIs("C")), VolumeOf) && m.putVolume == Sum(Filter(rows, KindIs("P")), VolumeOf)
    ensures m.callVolume + m.putVolume + Sum(Filter(rows, KindOther()), VolumeOf) == m.totalVolume
    ensures m.callOi + m.putOi + Sum(Filter(rows, KindOther()), OpenInterestOf) == m.totalOi
    ensures m.volumeToOiRatio == if m.totalOi == 0.0 then None else Some(RatioOf(m.totalVolume, m.totalOi))
    ensures (m.pctCalls, m.pctPuts) == PercentSplit(m.callVolume, m.putVolume)
  {
    var totalVolume := Sum(rows, VolumeOf);
    var totalOi := Sum(rows, OpenInterestOf);
    var callVolume := Sum(Filter(rows, KindIs("C")), VolumeOf);
    var putVolume := Sum(Filter(rows, KindIs("P")), VolumeOf);
    var callOi := Sum(Filter(rows, KindIs("C")), OpenInterestOf);
    var putOi := Sum(Filter(rows, KindIs("P")), OpenInterestOf);
    SumSplit3(rows, KindIs("C"), KindIs("P"), KindOther(), VolumeOf);
    SumSplit3(rows, KindIs("C"), KindIs("P"), KindOther(), OpenInterestOf);
    var split := PercentSplit(callVolume, putVolume);
    var ratio := if totalOi == 0.0 then None else Some(RatioOf(totalVolume, totalOi));
    FlowMetrics(totalVolume, totalOi, ratio, callVolume, putVolume, callOi, putOi, split.0, split.1)
  }

  function RatioOf(x: real, y: real): (q: real)
    requires y != 0.0
    ensures q * y == x
  {
    x / y
  }

  /** The percentage split of two volumes, 0/0 unless their total is positive. */
  function PercentSplit(c: real, p: real): (s: (real, real))
    ensures c + p > 0.0 ==> s.0 + s.1 == 100.0 && s.0 * (c + p) == 100.0 * c
    ensures c + p <= 0.0 ==> s == (0.0, 0.0)
  {
    var total := c + p;
    if total > 0.0 then
      assert c / total * 100.0 + p / total * 100.0 == (c + p) / total * 100.0;
      (c / total * 100.0, p / total * 100.0)
    else (0.0, 0.0)
  }

  /** With non-negative volumes the call share is a percentage. */
  lemma PercentSplitBounds(rows: seq<OptionRow>)
    requires forall i :: 0 <= i < |rows| ==> rows[i].volume >= 0.0
    ensures 0.0 <= AggregateFlowMetrics(rows).pctCalls <= 100.0
    ensures 0.0 <= AggregateFlowMetrics(rows).pctPuts <= 100.0
  {
    var m := AggregateFlowMetrics(rows);
    FilteredVolumeSign(rows, KindIs("C"));
    FilteredVolumeSign(rows, KindIs("P"));
    SplitBounds(m.callVolume, m.putVolume);
  }

  /** Two non-negative volumes split into two percentages. */
  lemma SplitBounds(c: real, p: real)
    requires c >= 0.0 && p >= 0.0
    ensures var s := PercentSplit(c, p); 0.0 <= s.0 <= 100.0 && 0.0 <= s.1 <= 100.0
  {
    var s := PercentSplit(c, p);
    if c + p > 0.0 {
      ShareBounds(c, p, s.0, s.1);
    }
  }

  /** Non-negative volumes sum to a non-negative volume over any filter. */
  lemma FilteredVolumeSign(rows: seq<OptionRow>, keep: OptionRow -> bool)
    requires forall i :: 0 <= i < |rows| ==> rows[i].volume >= 0.0
    ensures Sum(Filter(rows, keep), VolumeOf) >= 0.0
  {
    var f := Filter(rows, keep);
    FilterRows(rows, keep);
    forall i | 0 <= i < |f| ensures VolumeOf(f[i]) >= 0.0 {
      var k :| 0 <= k < |rows| && rows[k] == f[i];
    }
    SumSign(f, VolumeOf);
  }

  lemma NonNegFactor(x: real, y: real)
    requires y > 0.0 && x * y >= 0.0
    ensures x >= 0.0
  {
  }

  lemma ShareBounds(c: real, p: real, sc: real, sp: real)
    requires c >= 0.0 && p >= 0.0 && c + p > 0.0
    requires sc + sp == 100.0 && sc * (c + p) == 100.0 * c
    ensures 0.0 <= sc <= 100.0 && 0.0 <= sp <= 100.0
  {
    var t := c + p;
    NonNegFactor(sc, t);
    assert (100.0 - sc) * t == 100.0 * t - sc * t;
    assert (100.0 - sc) * t == 100.0 * p;
    NonNegFactor(100.0 - sc, t);
  }
}
