/** The option-chain record every table of the engine is made of, the two time
    units it uses, and the named column accessors the generic table operations
    take. */
module OptionRows {

  /** Shares per contract (`CONTRACT_SIZE`). */
  const ContractSize: real := 100.0
  const SecondsPerDay: int := 86400

  /** One row of an option-chain table. `kind` is the `type` column ("C", "P" or
      anything else a provider delivers); `expiration` is a timestamp in seconds;
      `t` is the time to expiry in years; `gex` is the `GEX` column some callers
      attach; `notionalGamma` and `daysToExp` are the columns the calculator writes. */
  datatype OptionRow = OptionRow(
    kind: string,
    strike: real,
    expiration: int,
    gamma: real,
    openInterest: real,
    volume: real,
    iv: real,
    t: real,
    gex: real,
    notionalGamma: real,
    daysToExp: int)

  /** A row with only the columns a provider always delivers filled in. */
  function Contract(kind: string, strike: real, expiration: int, gamma: real, openInterest: real): (r: OptionRow)
    ensures r.kind == kind && r.strike == strike && r.expiration == expiration
    ensures r.gamma == gamma && r.openInterest == openInterest
  {
    OptionRow(kind, strike, expiration, gamma, openInterest, 0.0, 0.0, 0.0, 0.0, 0.0, 0)
  }

  /** `df.loc[df['type'] == 'P', col] *= -1` applied to one value: only rows whose
      type is exactly "P" change sign. */
  function Signed(kind: string, x: real): real
  {
    if kind == "P" then -x else x
  }

  /** The GEX of one row in the scenario and analytics functions, with a given
      gamma: `spot·gamma·open_interest·size·spot·0.01`, negated for puts. */
  function ScenarioGexWith(r: OptionRow, gamma: real, spot: real, size: real): real
  {
    Signed(r.kind, spot * gamma * r.openInterest * size * spot * 0.01)
  }

  /** The scenario GEX of a row with its own gamma column. */
  function ScenarioGexAt(spot: real, size: real): OptionRow -> real
  {
    (r: OptionRow) => ScenarioGexWith(r, r.gamma, spot, size)
  }

  function StrikeOf(r: OptionRow): real { r.strike }
  function ExpirationOf(r: OptionRow): int { r.expiration }
  function NotionalOf(r: OptionRow): real { r.notionalGamma }
  function GexOf(r: OptionRow): real { r.gex }
  function VolumeOf(r: OptionRow): real { r.volume }
  function OpenInterestOf(r: OptionRow): real { r.openInterest }
  function IdReal(x: real): real { x }
  function IntRank(x: int): real { x as real }
}
