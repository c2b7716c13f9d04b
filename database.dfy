/** The storage of src/data/database.py over in-memory tables: the readings table and
    the snooze table are sequences of rows in insertion (row id) order, the settings
    table is a map. Queries are functions of the tables; the statements that change a
    table are methods. The clock is the `now` parameter, in seconds. */
module Database {
  import opened Wrappers
  import Models

  // ---------------------------------------------------------------- selecting rows

  /** The rows with a timestamp at or after `since` (`WHERE timestamp >= ?`), in order. */
  function Since(rows: seq<Models.ReadingRow>, since: int): (r: seq<Models.ReadingRow>)
    ensures forall x :: x in r <==> x in rows && x.timestamp >= since
    ensures |r| + CountBefore(rows, since) == |rows|
    ensures multiset(r) <= multiset(rows)
  {
    if |rows| == 0 then []
    else
      assert forall x :: x in rows <==> x == rows[0] || x in rows[1..];
      assert rows == [rows[0]] + rows[1..];
      (if rows[0].timestamp >= since then [rows[0]] else []) + Since(rows[1..], since)
  }

  /** How many rows are older than `cutoff`. */
  function CountBefore(rows: seq<Models.ReadingRow>, cutoff: int): nat {
    if |rows| == 0 then 0
    else (if rows[0].timestamp < cutoff then 1 else 0) + CountBefore(rows[1..], cutoff)
  }

  predicate SortedNewestFirst(rows: seq<Models.ReadingRow>) {
    forall i, j :: 0 <= i < j < |rows| ==> rows[i].timestamp >= rows[j].timestamp
  }

  function Insert(x: Models.ReadingRow, rows: seq<Models.ReadingRow>): (r: seq<Models.ReadingRow>)
    requires SortedNewestFirst(rows)
    ensures SortedNewestFirst(r)
    ensures multiset(r) == multiset(rows) + multiset{x}
    ensures |r| == |rows| + 1
  {
    if |rows| == 0 || x.timestamp >= rows[0].timestamp then [x] + rows
    else
      var rest := Insert(x, rows[1..]);
      assert rows == [rows[0]] + rows[1..];
      InsertBelowHead(x, rows, rest);
      [rows[0]] + rest
  }

  lemma InsertBelowHead(x: Models.ReadingRow, rows: seq<Models.ReadingRow>, rest: seq<Models.ReadingRow>)
    requires |rows| > 0 && SortedNewestFirst(rows) && x.timestamp < rows[0].timestamp
    requires multiset(rest) == multiset(rows[1..]) + multiset{x}
    ensures forall k :: 0 <= k < |rest| ==> rest[k].timestamp <= rows[0].timestamp
  {
    forall k | 0 <= k < |rest| ensures rest[k].timestamp <= rows[0].timestamp {
      assert rest[k] in multiset(rest);
      if rest[k] != x {
        assert rest[k] in multiset(rows[1..]);
        var j :| 0 <= j < |rows[1..]| && rows[1..][j] == rest[k];
        assert rows[j + 1] == rest[k];
      }
    }
  }

  /** `ORDER BY timestamp DESC`: newest first, the same rows. Rows with equal timestamps
      come out in one fixed order; SQLite promises none. */
  function SortNewestFirst(rows: seq<Models.ReadingRow>): (r: seq<Models.ReadingRow>)
    ensures SortedNewestFirst(r)
    ensures multiset(r) == multiset(rows)
  {
    if |rows| == 0 then []
    else
      assert rows == [rows[0]] + rows[1..];
      Insert(rows[0], SortNewestFirst(rows[1..]))
  }

  /** `if limit: query += " LIMIT n"`; `None` and 0 add no clause, and SQLite reads a
      negative limit as no limit. */
  function Limit<T>(rows: seq<T>, limit: Option<int>): (r: seq<T>)
    ensures limit.Some? && limit.value > 0 ==> |r| == if |rows| < limit.value then |rows| else limit.value
    ensures !(limit.Some? && limit.value > 0) ==> r == rows
    ensures r == rows[..|r|]
  {
    if limit.Some? && limit.value > 0 && limit.value < |rows| then rows[..limit.value] else rows
  }

  /** `[GlucoseReading.from_row(row) for row in ...]`: the first unreadable row raises. */
  function FromRows(rows: seq<Models.ReadingRow>): (r: Result<seq<Models.GlucoseReading>, Models.ModelError>)
    ensures r.Ok? <==> forall i :: 0 <= i < |rows| ==> Models.ReadingFromRow(rows[i]).Ok?
    ensures r.Ok? ==> |r.value| == |rows| && forall i :: 0 <= i < |rows| ==> r.value[i] == Models.ReadingFromRow(rows[i]).value
  {
    if |rows| == 0 then Ok([])
    else match (Models.ReadingFromRow(rows[0]), FromRows(rows[1..]))
      case (Err(e), _) => Err(e)
      case (Ok(x), Err(e)) => Err(e)
      case (Ok(x), Ok(xs)) => Ok([x] + xs)
  }

  /** The rows `get_readings` selects, before they are converted. */
  function SelectReadings(rows: seq<Models.ReadingRow>, now: int, hours: int, limit: Option<int>): seq<Models.ReadingRow> {
    Limit(SortNewestFirst(Since(rows, now - 3600 * hours)), limit)
  }

  /** The selection holds only rows of the window, newest first, no more than a positive
      limit; without a limit it is every row of the window. */
  lemma SelectReadingsSpec(rows: seq<Models.ReadingRow>, now: int, hours: int, limit: Option<int>)
    ensures var r := SelectReadings(rows, now, hours, limit);
      && SortedNewestFirst(r)
      && (forall x :: x in r ==> x in rows && x.timestamp >= now - 3600 * hours)
      && (limit.Some? && limit.value > 0 ==> |r| <= limit.value)
      && (!(limit.Some? && limit.value > 0) ==>
            multiset(r) == multiset(Since(rows, now - 3600 * hours)))
  {
    var sorted := SortNewestFirst(Since(rows, now - 3600 * hours));
    var r := SelectReadings(rows, now, hours, limit);
    assert r == sorted[..|r|];
    forall x | x in r ensures x in rows && x.timestamp >= now - 3600 * hours {
      assert x in multiset(sorted);
    }
  }

  /** A row written with trend `t` reads back as exactly the reading that was returned
      when it was written. */
  lemma StoredReadingReadsBack(id: int, ts: int, mmol: real, mgdl: int, trend: Option<Models.Trend>)
    ensures Models.ReadingFromRow(StoredRow(id, ts, mmol, mgdl, trend)) == Ok(Returned(id, ts, mmol, mgdl, trend))
  {
    if trend.Some? {
      Models.TrendValueRoundTrip(trend.value, "");
    }
  }

  /** The row `add_reading` inserts: the trend's value, or NULL when none was given. */
  function StoredRow(id: int, ts: int, mmol: real, mgdl: int, trend: Option<Models.Trend>): Models.ReadingRow {
    Models.ReadingRow(id, ts, mmol, mgdl, if trend.Some? then Some(Models.TrendValue(trend.value)) else None)
  }

  /** The reading `add_reading` returns: `trend or TrendDirection.NONE`. */
  function Returned(id: int, ts: int, mmol: real, mgdl: int, trend: Option<Models.Trend>): Models.GlucoseReading {
    Models.GlucoseReading(Some(id), ts, mmol, mgdl, trend.GetOr(Models.NoTrend))
  }

  /** Every trend column can be read back. */
  predicate Readable(rows: seq<Models.ReadingRow>) {
    forall i :: 0 <= i < |rows| ==> Models.ReadingFromRow(rows[i]).Ok?
  }

  lemma ReadableSelection(rows: seq<Models.ReadingRow>, now: int, hours: int, limit: Option<int>)
    requires Readable(rows)
    ensures FromRows(SelectReadings(rows, now, hours, limit)).Ok?
  {
    SelectReadingsSpec(rows, now, hours, limit);
    var r := SelectReadings(rows, now, hours, limit);
    forall i | 0 <= i < |r| ensures Models.ReadingFromRow(r[i]).Ok? {
      assert r[i] in r;
      var j :| 0 <= j < |rows| && rows[j] == r[i];
    }
  }

  // ---------------------------------------------------------------- chart and statistics

  /** A `(timestamp, glucose_mmol)` point. */
  datatype Point = Point(at: int, mmol: real)

  /** `[(r.timestamp, r.glucose_mmol) for r in reversed(readings)]`. */
  function ChartPoints(readings: seq<Models.GlucoseReading>): (r: seq<Point>)
    ensures |r| == |readings|
    ensures forall i :: 0 <= i < |r| ==>
      r[i] == Point(readings[|readings| - 1 - i].timestamp, readings[|readings| - 1 - i].mmol)
  {
    if |readings| == 0 then []
    else
      var last := readings[|readings| - 1];
      [Point(last.timestamp, last.mmol)] + ChartPoints(readings[..|readings| - 1])
  }

  /** The chart shows the readings oldest first. */
  lemma ChartOldestFirst(rows: seq<Models.ReadingRow>, now: int, hours: int)
    requires FromRows(SelectReadings(rows, now, hours, None)).Ok?
    ensures var pts := ChartPoints(FromRows(SelectReadings(rows, now, hours, None)).value);
      forall i, j :: 0 <= i < j < |pts| ==> pts[i].at <= pts[j].at
  {
    var sel := SelectReadings(rows, now, hours, None);
    SelectReadingsSpec(rows, now, hours, None);
    var rs := FromRows(sel).value;
    assert forall i :: 0 <= i < |rs| ==> rs[i].timestamp == sel[i].timestamp;
  }

  /** The statistics kept: `avg` is not modelled. */
  datatype Stats = Stats(count: nat, min: Option<real>, max: Option<real>, timeInRange: Option<real>)

  function MinOf(vs: seq<real>): (m: real)
    requires |vs| > 0
    ensures m in vs && forall v :: v in vs ==> m <= v
  {
    if |vs| == 1 then vs[0]
    else
      var rest := MinOf(vs[1..]);
      assert forall v :: v in vs ==> v == vs[0] || v in vs[1..];
      if vs[0] <= rest then vs[0] else rest
  }

  function MaxOf(vs: seq<real>): (m: real)
    requires |vs| > 0
    ensures m in vs && forall v :: v in vs ==> v <= m
  {
    if |vs| == 1 then vs[0]
    else
      var rest := MaxOf(vs[1..]);
      assert forall v :: v in vs ==> v == vs[0] || v in vs[1..];
      if vs[0] >= rest then vs[0] else rest
  }

  /** The target band 3.9..10.0, both ends included. */
  predicate InBand(v: real) {
    3.9 <= v <= 10.0
  }

  /** How many values lie in the target band. */
  function InRange(vs: seq<real>): (n: nat)
    ensures n <= |vs|
  {
    if |vs| == 0 then 0 else (if InBand(vs[0]) then 1 else 0) + InRange(vs[1..])
  }

  /** The positions of the values in the target band. */
  function InRangeIndices(vs: seq<real>): set<int> {
    set i | 0 <= i < |vs| && InBand(vs[i])
  }

  lemma {:induction false} InRangeAppend(a: seq<real>, b: seq<real>)
    ensures InRange(a + b) == InRange(a) + InRange(b)
  {
    if |a| > 0 {
      assert (a + b)[1..] == a[1..] + b;
      InRangeAppend(a[1..], b);
    } else {
      assert a + b == b;
    }
  }

  /** The count is the number of positions in the band. */
  lemma {:induction false} InRangeCounts(vs: seq<real>)
    ensures InRange(vs) == |InRangeIndices(vs)|
    decreases |vs|
  {
    if |vs| == 0 {
      assert InRangeIndices(vs) == {};
    } else {
      var n := |vs| - 1;
      var init := vs[..n];
      assert vs == init + [vs[n]];
      InRangeAppend(init, [vs[n]]);
      assert [vs[n]][1..] == [];
      assert InRange([vs[n]]) == if InBand(vs[n]) then 1 else 0;
      InRangeCounts(init);
      if InBand(vs[n]) {
        assert InRangeIndices(vs) == InRangeIndices(init) + {n};
        assert n !in InRangeIndices(init);
      } else {
        assert InRangeIndices(vs) == InRangeIndices(init);
      }
    }
  }

  function Values(readings: seq<Models.GlucoseReading>): (vs: seq<real>)
    ensures |vs| == |readings| && forall i :: 0 <= i < |vs| ==> vs[i] == readings[i].mmol
  {
    seq(|readings|, i requires 0 <= i < |readings| => readings[i].mmol)
  }

  /** `get_stats` over the readings of the window. */
  function StatsOf(readings: seq<Models.GlucoseReading>): (s: Stats)
    ensures s.count == |readings|
    ensures |readings| == 0 <==> s.min.None?
    ensures |readings| == 0 ==> s == Stats(0, None, None, None)
    ensures |readings| > 0 ==> s.min.Some? && s.max.Some? && s.timeInRange.Some?
    ensures |readings| > 0 ==> 0.0 <= s.timeInRange.value <= 100.0
    ensures |readings| > 0 ==> forall i :: 0 <= i < |readings| ==>
      s.min.value <= readings[i].mmol <= s.max.value
    ensures |readings| > 0 ==> s.min.value in Values(readings) && s.max.value in Values(readings)
    ensures |readings| > 0 ==>
      s.timeInRange.value == 100.0 * |InRangeIndices(Values(readings))| as real / |readings| as real
  {
    if |readings| == 0 then Stats(0, None, None, None)
    else
      var vs := Values(readings);
      assert forall i :: 0 <= i < |readings| ==> readings[i].mmol == vs[i] && vs[i] in vs;
      InRangeCounts(vs);
      var p := Percent(InRange(vs), |readings|);
      assert p == 100.0 * |InRangeIndices(vs)| as real / |readings| as real;
      Stats(|readings|, Some(MinOf(vs)), Some(MaxOf(vs)), Some(p))
  }

  /** `part / whole * 100`. */
  function Percent(part: nat, whole: nat): (p: real)
    requires 0 < whole && part <= whole
    ensures 0.0 <= p <= 100.0
    ensures p == 100.0 * part as real / whole as real
  {
    var q := part as real / whole as real;
    assert q * whole as real == part as real;
    assert q <= 1.0;
    var r := 100.0 * part as real / whole as real;
    assert r * whole as real == 100.0 * part as real;
    assert (q * 100.0) * whole as real == 100.0 * part as real;
    q * 100.0
  }

  // ---------------------------------------------------------------- snoozes

  /** Scanning from `i` with the latest start so far at `best`: the index of the first
      row, in storage order, with the latest start. */
  function LatestIndex(events: seq<Models.SnoozeEvent>, best: nat, i: nat): (k: nat)
    requires best < i <= |events|
    requires forall j :: 0 <= j < i ==> events[j].startedAt <= events[best].startedAt
    ensures k < |events| && forall j :: 0 <= j < |events| ==> events[j].startedAt <= events[k].startedAt
    decreases |events| - i
  {
    if i == |events| then best
    else LatestIndex(events, if events[i].startedAt > events[best].startedAt then i else best, i + 1)
  }

  /** `ORDER BY started_at DESC LIMIT 1`. */
  function Latest(events: seq<Models.SnoozeEvent>): (r: Option<Models.SnoozeEvent>)
    ensures r.None? <==> |events| == 0
    ensures r.Some? ==> r.value in events && forall e :: e in events ==> e.startedAt <= r.value.startedAt
  {
    if |events| == 0 then None else Some(events[LatestIndex(events, 0, 1)])
  }

  /** Which row is latest depends only on the start times. */
  lemma {:induction false} LatestIgnoresDurations(a: seq<Models.SnoozeEvent>, b: seq<Models.SnoozeEvent>, best: nat, i: nat)
    requires |a| == |b| && forall j :: 0 <= j < |a| ==> a[j].startedAt == b[j].startedAt
    requires best < i <= |a|
    requires forall j :: 0 <= j < i ==> a[j].startedAt <= a[best].startedAt
    ensures LatestIndex(a, best, i) == LatestIndex(b, best, i)
    decreases |a| - i
  {
    if i < |a| {
      LatestIgnoresDurations(a, b, if a[i].startedAt > a[best].startedAt then i else best, i + 1);
    }
  }

  /** `get_active_snooze`: the most recently started snooze, when it is still active. */
  function ActiveSnooze(events: seq<Models.SnoozeEvent>, now: int): (r: Option<Models.SnoozeEvent>)
    ensures r.Some? ==> r.value in events && Models.IsActive(r.value, now)
    ensures r.Some? ==> forall e :: e in events ==> e.startedAt <= r.value.startedAt
    ensures r.None? <==> |events| == 0 || !Models.IsActive(Latest(events).value, now)
  {
    match Latest(events)
    case None => None
    case Some(e) => if Models.IsActive(e, now) then Some(e) else None
  }

  /** Only the latest snooze is consulted: an older one that would still be running is
      not reported once a later one has ended. */
  lemma OnlyLatestConsulted(older: Models.SnoozeEvent, later: Models.SnoozeEvent, now: int)
    requires older.startedAt < later.startedAt
    requires Models.IsActive(older, now) && !Models.IsActive(later, now)
    ensures ActiveSnooze([older, later], now).None?
  {
    assert [older, later][1..] == [later];
  }

  /** `int(seconds / 60)`: truncation toward zero. */
  function TruncMinutes(seconds: int): (m: int)
    ensures seconds >= 0 ==> 0 <= 60 * m <= seconds < 60 * m + 60
    ensures seconds < 0 ==> seconds < 60 * m <= 0 || 60 * m == seconds
  {
    if seconds >= 0 then seconds / 60 else -((-seconds) / 60)
  }

  /** The table after `cancel_snooze` shortens snooze `id` to `minutes`. */
  function SetDuration(events: seq<Models.SnoozeEvent>, id: Option<int>, minutes: int): (r: seq<Models.SnoozeEvent>)
    ensures |r| == |events|
    ensures forall i :: 0 <= i < |r| ==>
      r[i] == if events[i].id == id then events[i].(durationMinutes := minutes) else events[i]
  {
    seq(|events|, i requires 0 <= i < |events| =>
      if events[i].id == id then events[i].(durationMinutes := minutes) else events[i])
  }

  /** Shortening a snooze to its elapsed whole minutes ends it: its end is no later than now. */
  lemma CancelledIsInactive(e: Models.SnoozeEvent, now: int)
    requires now >= e.startedAt
    ensures !Models.IsActive(e.(durationMinutes := TruncMinutes(now - e.startedAt)), now)
  {
  }

  /** After a cancellation no snooze is active any more: the shortened row is still the
      latest one, and it has ended. */
  lemma CancelEndsSnooze(events: seq<Models.SnoozeEvent>, now: int)
    requires ActiveSnooze(events, now).Some?
    requires now >= ActiveSnooze(events, now).value.startedAt
    ensures var e := ActiveSnooze(events, now).value;
      ActiveSnooze(SetDuration(events, e.id, TruncMinutes(now - e.startedAt)), now).None?
  {
    var e := ActiveSnooze(events, now).value;
    var after := SetDuration(events, e.id, TruncMinutes(now - e.startedAt));
    var k := LatestIndex(events, 0, 1);
    assert events[k] == e;
    LatestIgnoresDurations(events, after, 0, 1);
    assert after[k] == e.(durationMinutes := TruncMinutes(now - e.startedAt));
    CancelledIsInactive(e, now);
  }

  /** The snooze table after `cancel_snooze` at `now`: unchanged when nothing is active,
      otherwise the active row shortened to its elapsed whole minutes, after which no
      snooze that had already started is active. */
  function CancelledSnoozes(events: seq<Models.SnoozeEvent>, now: int): (r: seq<Models.SnoozeEvent>)
    ensures |r| == |events|
    ensures ActiveSnooze(events, now).None? ==> r == events
    ensures ActiveSnooze(events, now).Some? ==>
      var e := ActiveSnooze(events, now).value;
      r == SetDuration(events, e.id, TruncMinutes(now - e.startedAt))
    ensures ActiveSnooze(events, now).Some? && now >= ActiveSnooze(events, now).value.startedAt ==>
      ActiveSnooze(r, now).None?
  {
    match ActiveSnooze(events, now)
    case None => events
    case Some(e) =>
      var r := SetDuration(events, e.id, TruncMinutes(now - e.startedAt));
      assert now >= e.startedAt ==> ActiveSnooze(r, now).None? by {
        if now >= e.startedAt { CancelEndsSnooze(events, now); }
      }
      r
  }

  // ---------------------------------------------------------------- the object

  /** `Database` with its three tables. A new file has empty tables; ids start at 1. */
  class Store {
    var readings: seq<Models.ReadingRow>
    var snoozes: seq<Models.SnoozeEvent>
    var settings: map<string, string>
    var nextReadingId: int
    var nextSnoozeId: int

    /** Every stored reading can be read back. */
    predicate Valid()
      reads this
    {
      Readable(readings)
    }

    constructor ()
      ensures Valid()
      ensures readings == [] && snoozes == [] && settings == map[]
      ensures nextReadingId == 1 && nextSnoozeId == 1
    {
      readings := [];
      snoozes := [];
      settings := map[];
      nextReadingId := 1;
      nextSnoozeId := 1;
    }

    /** `add_reading`: the timestamp defaults to now. */
    method AddReading(mmol: real, mgdl: int, trend: Option<Models.Trend>, timestamp: Option<int>, now: int)
      returns (r: Models.GlucoseReading)
      requires Valid()
      modifies this
      ensures Valid()
      ensures readings == old(readings) + [StoredRow(old(nextReadingId), timestamp.GetOr(now), mmol, mgdl, trend)]
      ensures r == Returned(old(nextReadingId), timestamp.GetOr(now), mmol, mgdl, trend)
      ensures nextReadingId == old(nextReadingId) + 1
      ensures snoozes == old(snoozes) && settings == old(settings) && nextSnoozeId == old(nextSnoozeId)
    {
      var ts := timestamp.GetOr(now);
      var row := StoredRow(nextReadingId, ts, mmol, mgdl, trend);
      StoredReadingReadsBack(nextReadingId, ts, mmol, mgdl, trend);
      readings := readings + [row];
      r := Returned(nextReadingId, ts, mmol, mgdl, trend);
      nextReadingId := nextReadingId + 1;
    }

    /** `get_readings`. */
    function GetReadings(now: int, hours: int, limit: Option<int>): (r: seq<Models.GlucoseReading>)
      reads this
      requires Valid()
      ensures FromRows(SelectReadings(readings, now, hours, limit)).Ok?
      ensures r == FromRows(SelectReadings(readings, now, hours, limit)).value
    {
      ReadableSelection(readings, now, hours, limit);
      FromRows(SelectReadings(readings, now, hours, limit)).value
    }

    /** `get_readings_for_chart`. */
    function GetReadingsForChart(now: int, hours: int): (r: seq<Point>)
      reads this
      requires Valid()
      ensures r == ChartPoints(GetReadings(now, hours, None))
      ensures forall i, j :: 0 <= i < j < |r| ==> r[i].at <= r[j].at
    {
      ReadableSelection(readings, now, hours, None);
      ChartOldestFirst(readings, now, hours);
      ChartPoints(GetReadings(now, hours, None))
    }

    /** `get_stats`. */
    function GetStats(now: int, hours: int): (s: Stats)
      reads this
      requires Valid()
      ensures s == StatsOf(GetReadings(now, hours, None))
      ensures var w := GetReadings(now, hours, None);
        && s.count == |w|
        && (|w| > 0 ==> s.timeInRange == Some(100.0 * |InRangeIndices(Values(w))| as real / |w| as real))
    {
      StatsOf(GetReadings(now, hours, None))
    }

    /** `add_snooze`: a snooze starting now. */
    method AddSnooze(minutes: int, reason: Option<string>, now: int) returns (e: Models.SnoozeEvent)
      requires Valid()
      modifies this
      ensures Valid()
      ensures e == Models.SnoozeEvent(Some(old(nextSnoozeId)), now, minutes, reason)
      ensures snoozes == old(snoozes) + [e]
      ensures nextSnoozeId == old(nextSnoozeId) + 1
      ensures readings == old(readings) && settings == old(settings) && nextReadingId == old(nextReadingId)
    {
      e := Models.SnoozeEvent(Some(nextSnoozeId), now, minutes, reason);
      snoozes := snoozes + [e];
      nextSnoozeId := nextSnoozeId + 1;
    }

    /** `get_active_snooze`. */
    function GetActiveSnooze(now: int): (r: Option<Models.SnoozeEvent>)
      reads this
      ensures r == ActiveSnooze(snoozes, now)
    {
      ActiveSnooze(snoozes, now)
    }

    /** `cancel_snooze`: false when nothing is active; otherwise the active row's duration
        becomes the whole minutes elapsed since it started. */
    method CancelSnooze(now: int) returns (cancelled: bool)
      requires Valid()
      modifies this
      ensures Valid()
      ensures cancelled <==> ActiveSnooze(old(snoozes), now).Some?
      ensures !cancelled ==> snoozes == old(snoozes)
      ensures cancelled ==>
        var e := ActiveSnooze(old(snoozes), now).value;
        snoozes == SetDuration(old(snoozes), e.id, TruncMinutes(now - e.startedAt))
      ensures snoozes == CancelledSnoozes(old(snoozes), now)
      ensures readings == old(readings) && settings == old(settings)
      ensures nextReadingId == old(nextReadingId) && nextSnoozeId == old(nextSnoozeId)
    {
      var active := ActiveSnooze(snoozes, now);
      if active.None? {
        return false;
      }
      var e := active.value;
      var elapsed := TruncMinutes(now - e.startedAt);
      snoozes := SetDuration(snoozes, e.id, elapsed);
      cancelled := true;
    }

    /** `get_setting`. */
    function GetSetting(key: string, default: Option<string>): (r: Option<string>)
      reads this
      ensures key in settings ==> r == Some(settings[key])
      ensures key !in settings ==> r == default
    {
      if key in settings then Some(settings[key]) else default
    }

    /** `set_setting`: insert or replace. */
    method SetSetting(key: string, value: string)
      requires Valid()
      modifies this
      ensures Valid()
      ensures settings == old(settings)[key := value]
      ensures readings == old(readings) && snoozes == old(snoozes)
      ensures nextReadingId == old(nextReadingId) && nextSnoozeId == old(nextSnoozeId)
    {
      settings := settings[key := value];
    }

    /** `cleanup_old_data`: deletes the readings older than `days` days and says how many. */
    method CleanupOldData(now: int, days: int) returns (deleted: int)
      requires Valid()
      modifies this
      ensures Valid()
      ensures readings == Since(old(readings), now - 86400 * days)
      ensures deleted == CountBefore(old(readings), now - 86400 * days)
      ensures deleted == |old(readings)| - |readings|
      ensures snoozes == old(snoozes) && settings == old(settings)
      ensures nextReadingId == old(nextReadingId) && nextSnoozeId == old(nextSnoozeId)
    {
      var cutoff := now - 86400 * days;
      var kept := Since(readings, cutoff);
      forall i | 0 <= i < |kept| ensures Models.ReadingFromRow(kept[i]).Ok? {
        assert kept[i] in kept;
        var j :| 0 <= j < |readings| && readings[j] == kept[i];
      }
      deleted := CountBefore(readings, cutoff);
      readings := kept;
    }
  }

  /** Setting a key and reading it back gives the new value; other keys are untouched. */
  lemma SettingRoundTrip(settings: map<string, string>, key: string, value: string, other: string, default: Option<string>)
    ensures var s := settings[key := value];
      (key in s && s[key] == value)
      && (other != key ==> (other in s <==> other in settings) && (other in settings ==> s[other] == settings[other]))
  {
  }
}
