/** The option-data fetcher (gammaforge/data/fetcher.py): a one-hour file cache in
    front of the CBOE provider, with validation before anything is cached. The
    cache file is a field of the fetcher; the clock is the parameter `now`, in
    whole seconds. */
module Fetcher {
  import opened Wrappers
  import opened PyErrors
  import opened Tables
  import opened OptionRows
  import opened Providers

  /** `CACHE_EXPIRY`: one hour, in seconds. */
  const CacheExpiry: int := 3600

  /** The JSON document `_save_to_cache` writes. */
  datatype CacheRecord = CacheRecord(timestamp: int, spot: real, columns: set<string>, records: seq<ChainRow>)

  /** The cache file when it exists: a complete document, or one that does not
      parse (a write that failed part-way). */
  datatype CacheFile = Corrupt | Written(record: CacheRecord)

  /** `_load_from_cache`: the cached spot and table when the file exists, parses and
      is at most `CacheExpiry` seconds old; `None` (a miss) otherwise. */
  function LookupCache(cache: Option<CacheFile>, now: int): (r: Option<(real, Frame<ChainRow>)>)
    ensures r.Some? <==> cache.Some? && cache.value.Written? && now - cache.value.record.timestamp <= CacheExpiry
    ensures r.Some? ==> r.value == (cache.value.record.spot, Frame(cache.value.record.columns, cache.value.record.records))
  {
    match cache
    case None => None
    case Some(Corrupt) => None
    case Some(Written(record)) =>
      if now - record.timestamp > CacheExpiry then None
      else Some((record.spot, Frame(record.columns, record.records)))
  }

  /** Midnight of the day of timestamp `e`: `strftime('%Y-%m-%d')` read back by
      `pd.to_datetime`. */
  function DayStart(e: int): (d: int)
    ensures d <= e < d + SecondsPerDay && d % SecondsPerDay == 0
  {
    e - e % SecondsPerDay
  }

  function AtDayStart(x: ChainRow): ChainRow
  {
    x.(expiration := DayStart(x.expiration))
  }

  /** The document written at time `now`: expirations reduced to their date when
      the table has an `expiration` column. */
  function Serialize(spot: real, frame: Frame<ChainRow>, now: int): (c: CacheRecord)
    ensures c.timestamp == now && c.spot == spot && c.columns == frame.columns && |c.records| == |frame.rows|
  {
    var records := if "expiration" in frame.columns then Project(frame.rows, AtDayStart) else frame.rows;
    CacheRecord(now, spot, frame.columns, records)
  }

  /** How a save ends: written, `open` failed (nothing touched), or `json.dump`
      failed after `open` had truncated the file. */
  datatype SaveFault = Saved | NotOpened | Truncated

  /** The cache file after `_save_to_cache`. */
  function AfterSave(cache: Option<CacheFile>, record: CacheRecord, fault: SaveFault): Option<CacheFile>
  {
    match fault
    case Saved => Some(Written(record))
    case NotOpened => cache
    case Truncated => Some(Corrupt)
  }

  /** Columns `get_option_data` demands, in the order it reports them. */
  const RequiredColumns: seq<string> := ["type", "strike", "expiration", "gamma", "open_interest"]

  function IsMissing(columns: set<string>): string -> bool
  {
    c => c !in columns
  }

  /** The missing required columns, in `RequiredColumns` order. */
  function MissingColumns(columns: set<string>): (m: seq<string>)
    ensures forall c :: c in m <==> c in RequiredColumns && c !in columns
  {
    FilterMembers(RequiredColumns, IsMissing(columns));
    Filter(RequiredColumns, IsMissing(columns))
  }

  function Quoted(c: string): string { "'" + c + "'" }

  /** Python's `repr` of a list of strings. */
  function ListRepr(xs: seq<string>): string
  {
    "[" + Join(", ", Project(xs, Quoted)) + "]"
  }

  /** The checks on freshly fetched data: non-empty (rows and columns), then every
      required column present. */
  function Validate(frame: Frame<ChainRow>): (r: Result<Frame<ChainRow>, Error>)
    ensures r.Ok? <==> |frame.rows| > 0 && |frame.columns| > 0 && forall c :: c in RequiredColumns ==> c in frame.columns
    ensures r.Ok? ==> r.value == frame
  {
    if |frame.rows| == 0 || |frame.columns| == 0 then Err(ValueError("Empty option data received"))
    else
      var missing := MissingColumns(frame.columns);
      assert |missing| > 0 ==> missing[0] in missing;
      if |missing| > 0 then Err(ValueError("Missing required columns: " + ListRepr(missing)))
      else Ok(frame)
  }

  /** Freshly fetched data as `get_option_data` returns it: the provider's error,
      or its result once it passes `Validate`. */
  function CheckFetched(fetched: Result<(real, Frame<ChainRow>), Error>): (r: Result<(real, Frame<ChainRow>), Error>)
    ensures r.Ok? <==> fetched.Ok? && Validate(fetched.value.1).Ok?
    ensures r.Ok? ==> r == fetched
  {
    match fetched
    case Err(e) => Err(e)
    case Ok((spot, frame)) =>
      match Validate(frame)
      case Err(e) => Err(e)
      case Ok(_) => Ok((spot, frame))
  }

  /** `str.upper` on ASCII letters. */
  function Upper(s: string): (u: string)
    ensures |u| == |s|
    ensures forall i :: 0 <= i < |s| ==> ('a' <= s[i] <= 'z' ==> u[i] as int == s[i] as int - 32) && (!('a' <= s[i] <= 'z') ==> u[i] == s[i])
  {
    if |s| == 0 then ""
    else
      var c := s[0];
      [if 'a' <= c <= 'z' then (c as int - 32) as char else c] + Upper(s[1..])
  }

  /** `OptionDataFetcher` with the default `use_polygon=False`, so its provider is
      always CBOE; `cache` is the cache file (`None` when it does not exist). */
  class OptionDataFetcher {
    const ticker: string
    const provider: CboeDataProvider
    var cache: Option<CacheFile>

    constructor (ticker: string, cache: Option<CacheFile>)
      ensures this.ticker == Upper(ticker) && this.cache == cache
    {
      this.ticker := Upper(ticker);
      provider := new CboeDataProvider();
      this.cache := cache;
    }

    /** `_save_to_cache`: every failure is swallowed. */
    method SaveToCache(spot: real, frame: Frame<ChainRow>, now: int, fault: SaveFault)
      modifies this
      ensures cache == AfterSave(old(cache), Serialize(spot, frame, now), fault)
    {
      var record := Serialize(spot, frame, now);
      match fault {
        case Saved => cache := Some(Written(record));
        case NotOpened =>
        case Truncated => cache := Some(Corrupt);
      }
    }

    /** `get_option_data`: a fresh cache entry is returned without touching the
        network; otherwise the CBOE chain is fetched and validated, and only data
        that passes is saved (with `fault` deciding how the save ends) and
        returned; errors propagate with the cache untouched. */
    method GetOptionData(http: HttpClient, now: int, fault: SaveFault) returns (r: Result<(real, Frame<ChainRow>), Error>)
      modifies this, http
      ensures var hit := LookupCache(old(cache), now);
        hit.Some? ==> (r == Ok(hit.value) && cache == old(cache) && http.requested == old(http.requested))
      ensures var hit := LookupCache(old(cache), now);
        hit.None? ==> (r == CheckFetched(ChainOutcome(http.respond, ticker)) &&
          http.requested == old(http.requested) + ChainRequests(http.respond, ticker) &&
          cache == if r.Ok? then AfterSave(old(cache), Serialize(r.value.0, r.value.1, now), fault) else old(cache))
    {
      var cached := LookupCache(cache, now);
      if cached.Some? {
        return Ok(cached.value);
      }
      var fetched := provider.GetOptionChain(http, ticker);
      if fetched.Err? {
        return Err(fetched.error);
      }
      var (spot, frame) := fetched.value;
      var checked := Validate(frame);
      if checked.Err? {
        return Err(checked.error);
      }
      SaveToCache(spot, frame, now, fault);
      r := Ok((spot, frame));
    }

    /** `get_historical_data`: whatever the provider gives, here always empty. */
    function GetHistoricalData(startDate: int, endDate: int): (f: Frame<ChainRow>)
      ensures |f.rows| == 0
    {
      provider.GetHistoricalData(ticker, startDate, endDate)
    }
  }

  // ---------------------------------------------------------------------------
  // Properties

  /** An entry read back within the hour returns the spot and columns it was saved
      with, and each record with its expiry reduced to midnight and nothing else
      changed. */
  lemma CacheRoundTrip(spot: real, frame: Frame<ChainRow>, saved: int, now: int)
    requires "expiration" in frame.columns
    requires now - saved <= CacheExpiry
    ensures var hit := LookupCache(Some(Written(Serialize(spot, frame, saved))), now);
      hit.Some? && hit.value.0 == spot && hit.value.1.columns == frame.columns &&
      |hit.value.1.rows| == |frame.rows| &&
      forall i :: 0 <= i < |frame.rows| ==>
        hit.value.1.rows[i].(expiration := frame.rows[i].expiration) == frame.rows[i] &&
        hit.value.1.rows[i].expiration == DayStart(frame.rows[i].expiration)
  {
  }

  /** An entry is fresh up to and including `CacheExpiry` seconds, and stale one
      second later. */
  lemma FreshnessBoundary(record: CacheRecord)
    ensures LookupCache(Some(Written(record)), record.timestamp + CacheExpiry).Some?
    ensures LookupCache(Some(Written(record)), record.timestamp + CacheExpiry + 1).None?
  {
  }

  /** A missing or unreadable cache file is a miss, never an error. */
  lemma UnreadableCacheMisses(now: int)
    ensures LookupCache(None, now).None? && LookupCache(Some(Corrupt), now).None?
  {
  }

  /** A CBOE table always passes validation: the provider adds every required
      column and never returns an empty table. */
  lemma ChainPassesValidation(respond: string -> Response, ticker: string)
    ensures var c := ChainOutcome(respond, ticker);
      CheckFetched(c) == c
  {
    ChainOutcomeProps(respond, ticker);
  }

  /** CBOE expiries are already at midnight, so for a CBOE table the cache round
      trip is exact: a lookup within the hour after a successful save returns the
      very value the fetch returned. */
  lemma ChainCacheExact(respond: string -> Response, ticker: string, saved: int, now: int)
    requires ChainOutcome(respond, ticker).Ok?
    requires now - saved <= CacheExpiry
    ensures var v := ChainOutcome(respond, ticker).value;
      LookupCache(AfterSave(None, Serialize(v.0, v.1, saved), Saved), now) == Some(v)
  {
    ChainOutcomeProps(respond, ticker);
    var v := ChainOutcome(respond, ticker).value;
    var rows := v.1.rows;
    forall i | 0 <= i < |rows|
      ensures rows[i].expiration % SecondsPerDay == 0
    {
      assert rows[i] in rows;
      MidnightExpiry(rows[i].option);
    }
    MidnightCacheExact(v.0, v.1, saved, now);
  }

  /** A table whose every expiry is already at midnight comes back from a fresh
      cache entry unchanged. */
  lemma MidnightCacheExact(spot: real, frame: Frame<ChainRow>, saved: int, now: int)
    requires now - saved <= CacheExpiry
    requires forall i :: 0 <= i < |frame.rows| ==> frame.rows[i].expiration % SecondsPerDay == 0
    ensures LookupCache(AfterSave(None, Serialize(spot, frame, saved), Saved), now) == Some((spot, frame))
  {
    var rows := frame.rows;
    forall i | 0 <= i < |rows|
      ensures AtDayStart(rows[i]) == rows[i]
    {
    }
    assert Project(rows, AtDayStart) == rows;
  }

  /** Expiries read off a symbol are whole days. */
  lemma MidnightExpiry(option: string)
    requires ExpiryField(option).Ok?
    ensures ExpiryField(option).value % SecondsPerDay == 0
  {
    var t := SliceFromEnd(option, 15, 9);
    assert |t| == 6 && Formatting.AllDigits(t);
    assert Formatting.AllDigits(t[0..2]) && Formatting.AllDigits(t[2..4]) && Formatting.AllDigits(t[4..6]);
    var y := CenturyOf(Formatting.ParseDigits(t[0..2]));
    var m := Formatting.ParseDigits(t[2..4]);
    var d := Formatting.ParseDigits(t[4..6]);
    assert ExpiryField(option).value == Calendar.DaysFromCivil(y, m, d) * SecondsPerDay;
    WholeDays(Calendar.DaysFromCivil(y, m, d));
  }

  lemma WholeDays(k: int)
    ensures (k * SecondsPerDay) % SecondsPerDay == 0
  {
  }

  /** Data that fails validation is never written: `Validate` runs before the save,
      so a rejected fetch leaves the cache as it was. */
  lemma RejectedNeverCached(fetched: Result<(real, Frame<ChainRow>), Error>)
    requires fetched.Ok? && (|fetched.value.1.rows| == 0 || "strike" !in fetched.value.1.columns)
    ensures CheckFetched(fetched).Err? && CheckFetched(fetched).error.ValueError?
  {
  }

  /** The missing-column message lists exactly the absent required columns, in the
      order type, strike, expiration, gamma, open_interest. */
  lemma MissingColumnsExample()
    ensures MissingColumns({"type", "expiration", "gamma"}) == ["strike", "open_interest"]
    ensures Validate(Frame({"type", "expiration", "gamma"}, [ChainRow("SPY240315C00450000", "C", 450.0, 0, None, None, None, None)]))
      == Err(ValueError("Missing required columns: ['strike', 'open_interest']"))
  {
    var cols: set<string> := {"type", "expiration", "gamma"};
    MissingTwo(cols);
    MissingTwoRepr();
  }

  /** Of the required columns, a table with type, expiration and gamma lacks strike
      and open_interest, in that order. */
  lemma MissingTwo(cols: set<string>)
    requires cols == {"type", "expiration", "gamma"}
    ensures MissingColumns(cols) == ["strike", "open_interest"]
  {
    var missing := IsMissing(cols);
    var r := RequiredColumns;
    assert "strike" !in cols && "open_interest" !in cols;
    assert "type" in cols && "expiration" in cols && "gamma" in cols;
    assert r[..1][..0] == [];
    assert Filter(r[..1], missing) == [];
    assert r[..2][..1] == r[..1];
    assert Filter(r[..2], missing) == ["strike"];
    assert r[..3][..2] == r[..2];
    assert Filter(r[..3], missing) == ["strike"];
    assert r[..4][..3] == r[..3];
    assert Filter(r[..4], missing) == ["strike"];
    assert r[..4] == r[..|r| - 1];
  }

  /** The message text for the two missing columns. */
  lemma MissingTwoRepr()
    ensures "Missing required columns: " + ListRepr(["strike", "open_interest"]) ==
      "Missing required columns: ['strike', 'open_interest']"
  {
    var q := Project(["strike", "open_interest"], Quoted);
    QuotedNames();
    assert q[..1] == ["'strike'"];
    assert Join(", ", q) == "'strike'" + ", " + "'open_interest'";
    MessageText();
  }

  lemma QuotedNames()
    ensures Project(["strike", "open_interest"], Quoted) == ["'strike'", "'open_interest'"]
  {
    var q := Project(["strike", "open_interest"], Quoted);
    assert Quoted("strike") == "'strike'" by {
      assert |Quoted("strike")| == 8;
      assert forall i :: 0 <= i < 8 ==> Quoted("strike")[i] == "'strike'"[i];
    }
    assert Quoted("open_interest") == "'open_interest'" by {
      assert |Quoted("open_interest")| == 15;
      assert forall i :: 0 <= i < 15 ==> Quoted("open_interest")[i] == "'open_interest'"[i];
    }
    assert |q| == 2 && q[0] == Quoted("strike") && q[1] == Quoted("open_interest");
  }

  lemma MessageText()
    ensures "Missing required columns: " + ("[" + ("'strike'" + ", " + "'open_interest'") + "]") ==
      "Missing required columns: ['strike', 'open_interest']"
  {
    var msg := "Missing required columns: " + ("[" + ("'strike'" + ", " + "'open_interest'") + "]");
    assert |msg| == 53;
    assert forall i :: 0 <= i < 53 ==> msg[i] == "Missing required columns: ['strike', 'open_interest']"[i];
  }
}
