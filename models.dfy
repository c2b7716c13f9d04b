/** The stored records of src/data/models.py: trend directions as Dexcom names them,
    glucose readings and snooze events. Timestamps are integer seconds; glucose values
    are reals in mmol/L. */
module Models {
  import opened Wrappers

  /** `TrendDirection`, one constructor per enum member. */
  datatype Trend =
    | NoTrend | DoubleUp | SingleUp | FortyFiveUp | Flat
    | FortyFiveDown | SingleDown | DoubleDown | NotComputable | RateOutOfRange

  /** The enum member's value, as stored in the `trend` column. */
  function TrendValue(t: Trend): string {
    match t
    case NoTrend => "None"
    case DoubleUp => "DoubleUp"
    case SingleUp => "SingleUp"
    case FortyFiveUp => "FortyFiveUp"
    case Flat => "Flat"
    case FortyFiveDown => "FortyFiveDown"
    case SingleDown => "SingleDown"
    case DoubleDown => "DoubleDown"
    case NotComputable => "NotComputable"
    case RateOutOfRange => "RateOutOfRange"
  }

  /** `TrendDirection(s)`: the member whose value is exactly `s`; `None` where Python
      raises ValueError. */
  function TrendFromValue(s: string): (r: Option<Trend>)
    ensures r.Some? ==> TrendValue(r.value) == s
  {
    if s == "None" then Some(NoTrend)
    else if s == "DoubleUp" then Some(DoubleUp)
    else if s == "SingleUp" then Some(SingleUp)
    else if s == "FortyFiveUp" then Some(FortyFiveUp)
    else if s == "Flat" then Some(Flat)
    else if s == "FortyFiveDown" then Some(FortyFiveDown)
    else if s == "SingleDown" then Some(SingleDown)
    else if s == "DoubleDown" then Some(DoubleDown)
    else if s == "NotComputable" then Some(NotComputable)
    else if s == "RateOutOfRange" then Some(RateOutOfRange)
    else None
  }

  /** Storing a trend and reading it back gives the same trend; a stored text that is no
      member's value is rejected. */
  lemma TrendValueRoundTrip(t: Trend, s: string)
    ensures TrendFromValue(TrendValue(t)) == Some(t)
    ensures TrendFromValue(s).None? <==> forall u: Trend :: TrendValue(u) != s
  {
    forall u: Trend ensures TrendFromValue(TrendValue(u)) == Some(u) {
    }
  }

  predicate IsDirectional(t: Trend) {
    !(t == NoTrend || t == NotComputable || t == RateOutOfRange)
  }

  /** `TrendDirection.arrow`. */
  function Arrow(t: Trend): (r: string)
    ensures !IsDirectional(t) <==> r == "?"
  {
    match t
    case DoubleUp => "⬆⬆"
    case SingleUp => "⬆"
    case FortyFiveUp => "↗"
    case Flat => "→"
    case FortyFiveDown => "↘"
    case SingleDown => "⬇"
    case DoubleDown => "⬇⬇"
    case _ => "?"
  }

  /** The seven directions are told apart by their arrows. */
  lemma ArrowsDistinct(t: Trend, u: Trend)
    requires IsDirectional(t) && IsDirectional(u) && t != u
    ensures Arrow(t) != Arrow(u)
  {
  }

  // ---------------------------------------------------------------- readings

  datatype GlucoseReading = GlucoseReading(id: Option<int>, timestamp: int, mmol: real, mgdl: int, trend: Trend)

  /** A row of `glucose_readings` as it comes back from the table. */
  datatype ReadingRow = ReadingRow(id: int, timestamp: int, mmol: real, mgdl: int, trendColumn: Option<string>)

  datatype ModelError = UnknownTrend(text: string)

  /** `GlucoseReading.from_row`: an empty or NULL trend column reads as NONE. */
  function ReadingFromRow(row: ReadingRow): (r: Result<GlucoseReading, ModelError>)
    ensures (row.trendColumn.None? || row.trendColumn == Some("")) ==>
      r == Ok(GlucoseReading(Some(row.id), row.timestamp, row.mmol, row.mgdl, NoTrend))
    ensures r.Ok? ==>
      && r.value.id == Some(row.id) && r.value.timestamp == row.timestamp
      && r.value.mmol == row.mmol && r.value.mgdl == row.mgdl
    ensures r.Ok? && row.trendColumn.Some? && row.trendColumn.value != "" ==>
      TrendValue(r.value.trend) == row.trendColumn.value
    ensures r.Err? <==> row.trendColumn.Some? && row.trendColumn.value != "" &&
                        TrendFromValue(row.trendColumn.value).None?
  {
    var trend :=
      if row.trendColumn.None? || row.trendColumn.value == "" then Some(NoTrend)
      else TrendFromValue(row.trendColumn.value);
    match trend
    case None => Err(UnknownTrend(row.trendColumn.value))
    case Some(t) => Ok(GlucoseReading(Some(row.id), row.timestamp, row.mmol, row.mgdl, t))
  }

  const DefaultLow: real := 3.9
  const DefaultHigh: real := 10.0

  predicate IsLow(r: GlucoseReading) { r.mmol <= DefaultLow }
  predicate IsHigh(r: GlucoseReading) { r.mmol >= DefaultHigh }

  /** A reading is never both low and high, and every reading outside (3.9, 10.0) is one of them. */
  lemma LowHighExclusive(r: GlucoseReading)
    ensures !(IsLow(r) && IsHigh(r))
    ensures (IsLow(r) || IsHigh(r)) <==> !(DefaultLow < r.mmol < DefaultHigh)
  {
  }

  // ---------------------------------------------------------------- snoozes

  datatype SnoozeEvent = SnoozeEvent(id: Option<int>, startedAt: int, durationMinutes: int, reason: Option<string>)

  /** `SnoozeEvent.ends_at`: the start plus the duration, in seconds. */
  function EndsAt(e: SnoozeEvent): (t: int)
    ensures t - e.startedAt == 60 * e.durationMinutes
  {
    e.startedAt + 60 * e.durationMinutes
  }

  /** `SnoozeEvent.is_active` at time `now`: strictly before the end. */
  predicate IsActive(e: SnoozeEvent, now: int) {
    now < EndsAt(e)
  }

  /** A snooze is active for exactly the first `duration` minutes after it starts (and at
      any earlier time); one of zero or negative minutes is never active from its start on. */
  lemma ActiveWindow(e: SnoozeEvent, now: int, later: int)
    ensures IsActive(e, now) <==> now - e.startedAt < 60 * e.durationMinutes
    ensures IsActive(e, later) && now <= later ==> IsActive(e, now)
    ensures e.durationMinutes <= 0 && now >= e.startedAt ==> !IsActive(e, now)
  {
  }
}
