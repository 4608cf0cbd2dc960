/** The CBOE option-chain provider (gammaforge/data/providers.py): the fallback
    over two URL patterns, the checks on each response, the extraction of type,
    expiry and strike from the right-hand end of an OCC (OSI) option symbol, the
    row filter, and the provider factory. HTTP is a `HttpClient` object whose
    answers are a parameter and which records the URLs it was asked for. */
module Providers {
  import opened Wrappers
  import opened PyErrors
  import opened Tables
  import opened OptionRows
  import Calendar
  import Formatting

  /** A pandas DataFrame as a value: its column names and its rows. */
  datatype Frame<R> = Frame(columns: set<string>, rows: seq<R>)

  /** A row of the chain the provider returns; `gamma`, `openInterest`, `volume`
      and `iv` are `None` where the feed has no such column. */
  datatype ChainRow = ChainRow(
    option: string,
    kind: string,
    strike: real,
    expiration: int,
    gamma: Option<real>,
    openInterest: Option<real>,
    volume: Option<real>,
    iv: Option<real>)

  /** One entry of the feed's `options` list. */
  datatype Quote = Quote(option: string, gamma: Option<real>, openInterest: Option<real>, volume: Option<real>, iv: Option<real>)

  /** What one GET yields: a transport or HTTP error (with its text), or the
      decoded JSON: whether it has a `data` field, its `current_price`, the
      column names of its `options` records and the records. */
  datatype Response =
    | Failed(message: string)
    | Json(hasData: bool, currentPrice: Option<real>, quoteColumns: set<string>, options: seq<Quote>)

  /** A URL pattern `prefix{symbol}suffix`. */
  datatype UrlPattern = UrlPattern(prefix: string, suffix: string)

  const CboeBase: string := "https://cdn.cboe.com/api/global/delayed_quotes/options/"
  const Primary: UrlPattern := UrlPattern(CboeBase, ".json")
  const Underscore: UrlPattern := UrlPattern(CboeBase + "_", ".json")

  /** The patterns in the order they are tried: underscore first. */
  const Patterns: seq<UrlPattern> := [Underscore, Primary]

  /** The pattern as text, placeholder included (what an error line shows). */
  function PatternText(p: UrlPattern): string { p.prefix + "{symbol}" + p.suffix }

  /** `pattern.format(symbol=ticker)`. */
  function FormatUrl(p: UrlPattern, ticker: string): string { p.prefix + ticker + p.suffix }

  // ---------------------------------------------------------------------------
  // Symbol fields (lines 156-162)

  /** `s[-k]` through the `.str` accessor: `None` (NaN) when `s` is too short. */
  function CharFromEnd(s: string, k: nat): (c: Option<char>)
    requires k > 0
    ensures c.Some? <==> |s| >= k
    ensures c.Some? ==> c.value == s[|s| - k]
  {
    if |s| >= k then Some(s[|s| - k]) else None
  }

  /** `s[-a:-b]` for `a >= b > 0`: both ends count from the right and are clamped
      at the start of the string. */
  function SliceFromEnd(s: string, a: nat, b: nat): (t: string)
    requires a >= b > 0
    ensures |s| >= a ==> t == s[|s| - a..|s| - b]
    ensures |s| <= b ==> t == ""
  {
    var start := if |s| >= a then |s| - a else 0;
    var stop := if |s| >= b then |s| - b else 0;
    s[start..stop]
  }

  /** `.str[-9].map({"C": "C", "P": "P"})`: the type letter, or `None` (NaN). */
  function TypeField(s: string): Option<string>
  {
    match CharFromEnd(s, 9)
    case Some(c) => if c == 'C' then Some("C") else if c == 'P' then Some("P") else None
    case None => None
  }

  /** `.str[-8:-3].astype(float)`: the five whole-dollar digits of the OSI strike;
      the three digits of thousandths after them are never read. */
  function StrikeField(s: string): Result<real, string>
  {
    var t := SliceFromEnd(s, 8, 3);
    if |t| > 0 && Formatting.AllDigits(t) then Ok(Formatting.ParseDigits(t) as real)
    else Err("could not convert string to float: '" + t + "'")
  }

  /** `%y`: two-digit years 69-99 are 1969-1999, 00-68 are 2000-2068. */
  function CenturyOf(yy: nat): int
  {
    if yy < 69 then 2000 + yy else 1900 + yy
  }

  /** `pd.to_datetime(s[-15:-9], format="%y%m%d")`, at midnight, in seconds. */
  function ExpiryField(s: string): Result<int, string>
  {
    var t := SliceFromEnd(s, 15, 9);
    if |t| == 6 && Formatting.AllDigits(t) then
      assert Formatting.AllDigits(t[0..2]) && Formatting.AllDigits(t[2..4]) && Formatting.AllDigits(t[4..6]);
      var y := CenturyOf(Formatting.ParseDigits(t[0..2]));
      var m := Formatting.ParseDigits(t[2..4]);
      var d := Formatting.ParseDigits(t[4..6]);
      if Calendar.ValidDate(y, m, d) then Ok(Calendar.DaysFromCivil(y, m, d) * SecondsPerDay)
      else Err("time data \"" + t + "\" is not a valid date")
    else Err("time data \"" + t + "\" doesn't match format \"%y%m%d\"")
  }

  /** The fields are read from the right-hand end whatever the root's length: for
      `root + yymmdd + C/P + 8 strike digits` the type is the flag, the expiry text
      the six date digits, and the strike text the first five strike digits. */
  lemma SymbolFields(root: string, date: string, flag: char, strike: string)
    requires |date| == 6 && |strike| == 8
    ensures var s := root + date + [flag] + strike;
      CharFromEnd(s, 9) == Some(flag) &&
      SliceFromEnd(s, 15, 9) == date &&
      SliceFromEnd(s, 8, 3) == strike[..5]
  {
    var s := root + date + [flag] + strike;
    assert s[|s| - 9] == flag;
    assert s[|s| - 15..|s| - 9] == date;
    assert s[|s| - 8..|s| - 3] == strike[..5];
  }

  /** `SPXW240315P04500500`: a put expiring 2024-03-15 at strike 4500; the
      fractional `.500` of the OSI strike is dropped. */
  lemma SymbolExample()
    ensures TypeField("SPXW240315P04500500") == Some("P")
    ensures ExpiryField("SPXW240315P04500500") == Ok(Calendar.DaysFromCivil(2024, 3, 15) * SecondsPerDay)
    ensures StrikeField("SPXW240315P04500500") == Ok(4500.0)
  {
    SymbolSlices();
    ExpiryExample();
    StrikeExample();
  }

  lemma SymbolSlices()
    ensures CharFromEnd("SPXW240315P04500500", 9) == Some('P')
    ensures SliceFromEnd("SPXW240315P04500500", 15, 9) == "240315"
    ensures SliceFromEnd("SPXW240315P04500500", 8, 3) == "04500"
  {
    var s := "SPXW240315P04500500";
    assert |s| == 19 && s[10] == 'P';
    assert s[4..10] == "240315";
    assert s[11..16] == "04500";
  }

  lemma ExpiryExample()
    requires SliceFromEnd("SPXW240315P04500500", 15, 9) == "240315"
    ensures ExpiryField("SPXW240315P04500500") == Ok(Calendar.DaysFromCivil(2024, 3, 15) * SecondsPerDay)
  {
    assert "240315"[0..2] == "24" && "240315"[2..4] == "03" && "240315"[4..6] == "15";
    assert Formatting.ParseDigits("24") == 24;
    assert Formatting.ParseDigits("03") == 3;
    assert Formatting.ParseDigits("15") == 15;
  }

  lemma StrikeExample()
    requires SliceFromEnd("SPXW240315P04500500", 8, 3) == "04500"
    ensures StrikeField("SPXW240315P04500500") == Ok(4500.0)
  {
    assert "04500"[..4] == "0450" && "0450"[..3] == "045" && "045"[..2] == "04" && "04"[..1] == "0";
    assert Formatting.ParseDigits("0") == 0;
    assert Formatting.ParseDigits("04") == 4;
    assert Formatting.ParseDigits("045") == 45;
    assert Formatting.ParseDigits("0450") == 450;
    assert Formatting.ParseDigits("04500") == 4500;
  }

  /** A column conversion over every record: the first record that does not
      convert raises for the whole column. */
  function ParseColumn<T>(qs: seq<Quote>, field: string -> Result<T, string>): (r: Result<seq<T>, string>)
    ensures r.Ok? <==> forall i :: 0 <= i < |qs| ==> field(qs[i].option).Ok?
    ensures r.Ok? ==> |r.value| == |qs| && forall i :: 0 <= i < |qs| ==> r.value[i] == field(qs[i].option).value
    ensures r.Err? ==> exists i :: (0 <= i < |qs| && field(qs[i].option) == Err(r.error) &&
      forall j :: 0 <= j < i ==> field(qs[j].option).Ok?)
  {
    if |qs| == 0 then Ok([])
    else
      match field(qs[0].option)
      case Err(e) => Err(e)
      case Ok(v) =>
        var rest := ParseColumn(qs[1..], field);
        assert forall i :: 1 <= i < |qs| ==> qs[1..][i - 1] == qs[i];
        match rest
        case Err(e) => Err(e)
        case Ok(vs) => Ok([v] + vs)
  }

  /** A record with its converted fields, before the row filter. */
  datatype Parsed = Parsed(quote: Quote, kind: Option<string>, strike: real, expiration: int)

  /** The row filter: a positive strike and a type of C or P. */
  function KeepRow(p: Parsed): bool
  {
    p.strike > 0.0 && p.kind.Some?
  }

  function ToChainRow(p: Parsed): ChainRow
  {
    var q := p.quote;
    ChainRow(q.option, if p.kind.Some? then p.kind.value else "", p.strike, p.expiration, q.gamma, q.openInterest, q.volume, q.iv)
  }

  /** The columns the provider guarantees in its output. */
  const ChainColumns: set<string> := {"gamma", "open_interest", "volume", "iv", "type", "strike", "expiration"}

  function ParsedRows(qs: seq<Quote>, strikes: seq<real>, expirations: seq<int>): (ps: seq<Parsed>)
    requires |strikes| == |qs| && |expirations| == |qs|
    ensures |ps| == |qs|
  {
    seq(|qs|, i requires 0 <= i < |qs| => Parsed(qs[i], TypeField(qs[i].option), strikes[i], expirations[i]))
  }

  /** One attempt on one decoded response: the spot and the filtered chain, or the
      text of the exception raised. */
  function TryResponse(resp: Response): Result<(real, Frame<ChainRow>), string>
  {
    match resp
    case Failed(message) => Err(message)
    case Json(hasData, currentPrice, quoteColumns, options) =>
      var spot := if currentPrice.Some? then currentPrice.value else 0.0;
      if !hasData then Err("Invalid response format: 'data' field missing")
      else if spot == 0.0 then Err("Invalid spot price")
      else if |options| == 0 then Err("No options data found")
      else
        match BuildChain(quoteColumns, options)
        case Err(e) => Err(e)
        case Ok(frame) => Ok((spot, frame))
  }

  /** The table built from a non-empty `options` list: the missing feed columns
      added, type, strike and expiry read off each symbol, and the filter. */
  function BuildChain(quoteColumns: set<string>, options: seq<Quote>): Result<Frame<ChainRow>, string>
  {
    if "option" !in quoteColumns then Err("'option'")
    else
      match ParseColumn(options, StrikeField)
      case Err(e) => Err(e)
      case Ok(strikes) =>
        match ParseColumn(options, ExpiryField)
        case Err(e) => Err(e)
        case Ok(expirations) =>
          var kept := Filter(ParsedRows(options, strikes, expirations), KeepRow);
          if |kept| == 0 then Err("No valid options data after filtering")
          else Ok(Frame(quoteColumns + ChainColumns, Project(kept, ToChainRow)))
  }

  lemma BuildChainOk(quoteColumns: set<string>, options: seq<Quote>)
    ensures BuildChain(quoteColumns, options).Ok? <==>
      ("option" in quoteColumns &&
       (forall i :: 0 <= i < |options| ==> StrikeField(options[i].option).Ok? && ExpiryField(options[i].option).Ok?) &&
       exists i :: 0 <= i < |options| && Passes(options[i].option))
  {
    if "option" in quoteColumns &&
       (forall i :: 0 <= i < |options| ==> StrikeField(options[i].option).Ok? && ExpiryField(options[i].option).Ok?)
    {
      var strikes := ParseColumn(options, StrikeField).value;
      var expirations := ParseColumn(options, ExpiryField).value;
      KeptNonEmpty(options, strikes, expirations);
    }
  }

  /** Some row survives the filter exactly when some symbol passes it. */
  lemma KeptNonEmpty(qs: seq<Quote>, strikes: seq<real>, expirations: seq<int>)
    requires |strikes| == |qs| && |expirations| == |qs|
    requires forall i :: 0 <= i < |qs| ==> StrikeField(qs[i].option) == Ok(strikes[i])
    ensures |Filter(ParsedRows(qs, strikes, expirations), KeepRow)| > 0 <==>
      exists i :: 0 <= i < |qs| && Passes(qs[i].option)
  {
    var ps := ParsedRows(qs, strikes, expirations);
    assert forall i :: 0 <= i < |ps| ==> (KeepRow(ps[i]) <==> Passes(qs[i].option));
    if exists i :: 0 <= i < |qs| && Passes(qs[i].option) {
      var i :| 0 <= i < |qs| && Passes(qs[i].option);
      FilterMembers(ps, KeepRow);
      assert ps[i] in ps;
      assert ps[i] in Filter(ps, KeepRow);
    } else {
      FilterNone(ps, KeepRow);
    }
  }

  /** A successful attempt has a non-zero spot, every column the engine needs, and
      only rows of type C or P with a positive strike, each read off its own
      symbol. */
  lemma TryResponseProps(resp: Response)
    ensures var a := TryResponse(resp);
      a.Ok? ==> (a.value.0 != 0.0 && ChainColumns <= a.value.1.columns && |a.value.1.rows| > 0 &&
        forall x :: x in a.value.1.rows ==> WellFormed(x))
  {
    if resp.Json? && TryResponse(resp).Ok? {
      var options := resp.options;
      var strikes := ParseColumn(options, StrikeField).value;
      var expirations := ParseColumn(options, ExpiryField).value;
      KeptRowsWellFormed(options, strikes, expirations);
    }
  }

  /** An attempt succeeds exactly when the response decoded with a `data` field,
      a non-zero spot, a non-empty `options` list with an `option` column, every
      symbol's strike and expiry convert, and at least one row passes the filter. */
  lemma TryResponseOk(resp: Response)
    ensures TryResponse(resp).Ok? <==>
      (resp.Json? && resp.hasData && resp.currentPrice.Some? && resp.currentPrice.value != 0.0 &&
       |resp.options| > 0 && "option" in resp.quoteColumns &&
       (forall i :: 0 <= i < |resp.options| ==> StrikeField(resp.options[i].option).Ok? && ExpiryField(resp.options[i].option).Ok?) &&
       exists i :: 0 <= i < |resp.options| && Passes(resp.options[i].option))
  {
    if resp.Json? {
      BuildChainOk(resp.quoteColumns, resp.options);
    }
  }

  /** The filter on one symbol: a positive strike and a type of C or P. */
  predicate Passes(option: string)
  {
    StrikeField(option).Ok? && StrikeField(option).value > 0.0 && TypeField(option).Some?
  }

  /** A chain row whose type, strike and expiry are those read off its symbol,
      with a type of C or P and a positive strike. */
  predicate WellFormed(x: ChainRow)
  {
    (x.kind == "C" || x.kind == "P") && x.strike > 0.0 &&
    Some(x.kind) == TypeField(x.option) && StrikeField(x.option) == Ok(x.strike) &&
    ExpiryField(x.option) == Ok(x.expiration)
  }

  lemma KeptRowsWellFormed(qs: seq<Quote>, strikes: seq<real>, expirations: seq<int>)
    requires |strikes| == |qs| && |expirations| == |qs|
    requires forall i :: 0 <= i < |qs| ==> StrikeField(qs[i].option) == Ok(strikes[i])
    requires forall i :: 0 <= i < |qs| ==> ExpiryField(qs[i].option) == Ok(expirations[i])
    ensures forall x :: x in Project(Filter(ParsedRows(qs, strikes, expirations), KeepRow), ToChainRow) ==> WellFormed(x)
  {
    var ps := ParsedRows(qs, strikes, expirations);
    var kept := Filter(ps, KeepRow);
    FilterRows(ps, KeepRow);
    forall x | x in Project(kept, ToChainRow)
      ensures WellFormed(x)
    {
      var j :| 0 <= j < |kept| && Project(kept, ToChainRow)[j] == x;
      var i :| 0 <= i < |ps| && ps[i] == kept[j];
      ParsedRowWellFormed(qs[i], strikes[i], expirations[i]);
    }
  }

  lemma ParsedRowWellFormed(q: Quote, strike: real, expiration: int)
    requires StrikeField(q.option) == Ok(strike) && ExpiryField(q.option) == Ok(expiration)
    ensures var p := Parsed(q, TypeField(q.option), strike, expiration);
      KeepRow(p) ==> WellFormed(ToChainRow(p))
  {
    var p := Parsed(q, TypeField(q.option), strike, expiration);
    if KeepRow(p) {
      var t := TypeField(q.option);
      assert t == Some("C") || t == Some("P");
      assert ToChainRow(p).kind == t.value;
    }
  }

  // ---------------------------------------------------------------------------
  // Transport

  /** The HTTP session: `respond` is what the network answers for each URL, and
      `requested` the URLs asked for so far. */
  class HttpClient {
    const respond: string -> Response
    var requested: seq<string>

    constructor (respond: string -> Response)
      ensures this.respond == respond && requested == []
    {
      this.respond := respond;
      requested := [];
    }

    /** `requests.get(url)` followed by `raise_for_status()` and `json()`. */
    method Get(url: string) returns (r: Response)
      modifies this
      ensures r == respond(url) && requested == old(requested) + [url]
    {
      r := respond(url);
      requested := requested + [url];
    }
  }

  /** The attempt with pattern `p`. */
  function Attempt(respond: string -> Response, p: UrlPattern, ticker: string): Result<(real, Frame<ChainRow>), string>
  {
    TryResponse(respond(FormatUrl(p, ticker)))
  }

  /** `f"{pattern}: {e}"`. */
  function ErrorLine(p: UrlPattern, e: string): string { PatternText(p) + ": " + e }

  /** `sep.join(xs)`. */
  function Join(sep: string, xs: seq<string>): string
  {
    if |xs| == 0 then "" else if |xs| == 1 then xs[0] else Join(sep, xs[..|xs| - 1]) + sep + xs[|xs| - 1]
  }

  /** The URLs of the patterns tried, in order. */
  function Urls(ps: seq<UrlPattern>, ticker: string): (us: seq<string>)
    ensures |us| == |ps|
  {
    if |ps| == 0 then [] else Urls(ps[..|ps| - 1], ticker) + [FormatUrl(ps[|ps| - 1], ticker)]
  }

  const FailurePrefix: string := "Could not fetch data from CBOE endpoint: "

  lemma PatternUrls(ticker: string)
    ensures Patterns[0] == Underscore && Patterns[1] == Primary && |Patterns| == 2
    ensures Urls(Patterns[..0], ticker) == []
    ensures Urls(Patterns[..1], ticker) == [FormatUrl(Underscore, ticker)]
    ensures Urls(Patterns[..2], ticker) == [FormatUrl(Underscore, ticker), FormatUrl(Primary, ticker)]
  {
    assert Patterns[..2][..1] == Patterns[..1];
    assert Patterns[..1][..0] == Patterns[..0];
  }

  lemma FailureText(e1: string, e2: string)
    ensures FailurePrefix + Join("\n", [e1, e2]) == FailurePrefix + e1 + "\n" + e2
  {
    assert [e1, e2][..1] == [e1];
  }

  /** What `get_option_chain` returns or raises when the network answers with
      `respond`: the underscore attempt if it succeeds, else the primary one, else
      one `ValueError` with both error lines. */
  function ChainOutcome(respond: string -> Response, ticker: string): Result<(real, Frame<ChainRow>), Error>
  {
    var u := Attempt(respond, Underscore, ticker);
    var p := Attempt(respond, Primary, ticker);
    if u.Ok? then Ok(u.value)
    else if p.Ok? then Ok(p.value)
    else Err(ValueError(FailurePrefix + ErrorLine(Underscore, u.error) + "\n" + ErrorLine(Primary, p.error)))
  }

  /** The URLs `get_option_chain` requests: the primary one only after the
      underscore one failed. */
  function ChainRequests(respond: string -> Response, ticker: string): (us: seq<string>)
    ensures |us| >= 1 && us[0] == FormatUrl(Underscore, ticker)
    ensures |us| == 2 <==> Attempt(respond, Underscore, ticker).Err?
  {
    if Attempt(respond, Underscore, ticker).Ok? then [FormatUrl(Underscore, ticker)]
    else [FormatUrl(Underscore, ticker), FormatUrl(Primary, ticker)]
  }

  /** The chain succeeds iff some pattern's attempt succeeds, and then it is the
      first such attempt's table, with the guarantees of `TryResponseProps`; a
      failure is always a `ValueError` naming both patterns. */
  lemma ChainOutcomeProps(respond: string -> Response, ticker: string)
    ensures var r := ChainOutcome(respond, ticker);
      (r.Ok? <==> exists i :: 0 <= i < |Patterns| && Attempt(respond, Patterns[i], ticker).Ok?) &&
      (r.Ok? ==> exists i :: (0 <= i < |Patterns| && Attempt(respond, Patterns[i], ticker) == Ok(r.value) &&
        forall j :: 0 <= j < i ==> Attempt(respond, Patterns[j], ticker).Err?)) &&
      (r.Ok? ==> (r.value.0 != 0.0 && ChainColumns <= r.value.1.columns && |r.value.1.rows| > 0 &&
        forall x :: x in r.value.1.rows ==> WellFormed(x))) &&
      (r.Err? ==> r.error.ValueError? && r.error.message[..|FailurePrefix|] == FailurePrefix)
  {
    PatternUrls(ticker);
    var u := Attempt(respond, Underscore, ticker);
    var p := Attempt(respond, Primary, ticker);
    var r := ChainOutcome(respond, ticker);
    if u.Ok? {
      TryResponseProps(respond(FormatUrl(Underscore, ticker)));
      assert Attempt(respond, Patterns[0], ticker) == Ok(r.value);
    } else if p.Ok? {
      TryResponseProps(respond(FormatUrl(Primary, ticker)));
      assert Attempt(respond, Patterns[1], ticker) == Ok(r.value);
      assert forall j :: 0 <= j < 1 ==> Attempt(respond, Patterns[j], ticker).Err?;
    } else {
      var rest := ErrorLine(Underscore, u.error) + "\n" + ErrorLine(Primary, p.error);
      assert r.error.message == FailurePrefix + rest;
      PrefixKept(FailurePrefix, rest);
      forall i | 0 <= i < |Patterns| ensures Attempt(respond, Patterns[i], ticker).Err? {
        assert Patterns[i] == Underscore || Patterns[i] == Primary;
      }
    }
  }

  /** A message built as `prefix + rest` starts with `prefix`. */
  lemma PrefixKept(prefix: string, rest: string)
    ensures (prefix + rest)[..|prefix|] == prefix
  {
  }

  /** The attempt with pattern `i` is the first to succeed: it is the outcome, and
      the URLs requested are those of the patterns up to and including `i`. */
  lemma FirstSuccess(respond: string -> Response, ticker: string, i: nat)
    requires i < |Patterns| && Attempt(respond, Patterns[i], ticker).Ok?
    requires forall j :: 0 <= j < i ==> Attempt(respond, Patterns[j], ticker).Err?
    ensures ChainOutcome(respond, ticker) == Ok(Attempt(respond, Patterns[i], ticker).value)
    ensures ChainRequests(respond, ticker) == Urls(Patterns[..i + 1], ticker)
  {
    PatternUrls(ticker);
  }

  /** When both attempts fail, the outcome is the error with both lines, in order. */
  lemma BothFailed(respond: string -> Response, ticker: string, errors: seq<string>)
    requires |errors| == |Patterns|
    requires forall j :: 0 <= j < |Patterns| ==> Attempt(respond, Patterns[j], ticker).Err?
    requires forall j :: 0 <= j < |Patterns| ==> errors[j] == ErrorLine(Patterns[j], Attempt(respond, Patterns[j], ticker).error)
    ensures ChainOutcome(respond, ticker) == Err(ValueError(FailurePrefix + Join("\n", errors)))
    ensures ChainRequests(respond, ticker) == Urls(Patterns[..|Patterns|], ticker)
  {
    PatternUrls(ticker);
    FailureText(errors[0], errors[1]);
    assert errors == [errors[0], errors[1]];
  }

  /** `CBOEDataProvider`; it holds no state. */
  class CboeDataProvider {
    constructor ()
    {
    }

    /** `get_option_chain`: tries the underscore URL, then the primary one, and
        returns the first success; when both fail it raises one `ValueError`
        listing both errors, in order, one per line. */
    method GetOptionChain(http: HttpClient, ticker: string) returns (r: Result<(real, Frame<ChainRow>), Error>)
      modifies http
      ensures r == ChainOutcome(http.respond, ticker)
      ensures http.requested == old(http.requested) + ChainRequests(http.respond, ticker)
    {
      PatternUrls(ticker);
      var errors: seq<string> := [];
      var i := 0;
      while i < |Patterns|
        invariant 0 <= i <= |Patterns|
        invariant |errors| == i
        invariant forall j :: 0 <= j < i ==>
          (Attempt(http.respond, Patterns[j], ticker).Err? &&
           errors[j] == ErrorLine(Patterns[j], Attempt(http.respond, Patterns[j], ticker).error))
        invariant http.requested == old(http.requested) + Urls(Patterns[..i], ticker)
      {
        var pattern := Patterns[i];
        var response := http.Get(FormatUrl(pattern, ticker));
        var attempt := TryResponse(response);
        assert Patterns[..i + 1][..i] == Patterns[..i];
        if attempt.Ok? {
          FirstSuccess(http.respond, ticker, i);
          return Ok(attempt.value);
        }
        errors := errors + [ErrorLine(pattern, attempt.error)];
        i := i + 1;
      }
      BothFailed(http.respond, ticker, errors);
      r := Err(ValueError(FailurePrefix + Join("\n", errors)));
    }

    /** `get_historical_data`: CBOE has no history, so the table is always empty. */
    function GetHistoricalData(ticker: string, startDate: int, endDate: int): (f: Frame<ChainRow>)
      ensures |f.rows| == 0 && f.columns == {}
    {
      Frame({}, [])
    }
  }

  // ---------------------------------------------------------------------------
  // get_data_provider (lines 189-196)

  datatype ProviderChoice = Polygon | Cboe

  /** `get_data_provider`: Polygon only when asked for, with a non-empty API key,
      and when its client starts; CBOE otherwise. */
  function GetDataProvider(usePolygon: bool, apiKey: Option<string>, polygonStarts: bool): (p: ProviderChoice)
    ensures p == Polygon <==> usePolygon && apiKey.Some? && |apiKey.value| > 0 && polygonStarts
  {
    if usePolygon && apiKey.Some? && |apiKey.value| > 0 && polygonStarts then Polygon else Cboe
  }
}
