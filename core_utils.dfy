/** Price-band and horizon helpers shared by the calculators. */
module CoreUtils {
  import opened OptionRows
  import Calendar

  /** Default half-width of the strike band (15%). */
  const DefaultBandPct: real := 0.15
  /** 365 days in seconds; `timedelta(days=365)`, not a calendar year. */
  const OneYearSeconds: int := 365 * 86400

  /** `(spot·(1 − p), spot·(1 + p))`. The default `p` is `DefaultBandPct`. */
  function CalculatePriceBounds(spot: real, percentage: real := DefaultBandPct): (b: (real, real))
    ensures (b.0 + b.1) / 2.0 == spot
    ensures b.1 - b.0 == 2.0 * percentage * spot
    ensures spot >= 0.0 && percentage >= 0.0 ==> b.0 <= spot <= b.1
  {
    (spot * (1.0 - percentage), spot * (1.0 + percentage))
  }

  /** The default band is `[0.85·spot, 1.15·spot]`. */
  lemma DefaultBounds(spot: real)
    ensures CalculatePriceBounds(spot) == (0.85 * spot, 1.15 * spot)
  {
  }

  /** `now + 365 days`, with `now` and the result in seconds. */
  function GetOneYearDate(now: int): (d: int)
    ensures d - now == 365 * SecondsPerDay
  {
    now + OneYearSeconds
  }

  /** Over a leap year the horizon falls one calendar day short of "a year later":
      from 2024-01-01 it reaches 2024-12-31, not 2025-01-01. */
  lemma {:induction false} OneYearIsNotACalendarYear()
    ensures GetOneYearDate(Calendar.DaysFromCivil(2024, 1, 1) * SecondsPerDay)
         == Calendar.DaysFromCivil(2024, 12, 31) * SecondsPerDay
    ensures GetOneYearDate(Calendar.DaysFromCivil(2024, 1, 1) * SecondsPerDay)
         < Calendar.DaysFromCivil(2025, 1, 1) * SecondsPerDay
  {
  }
}
