/** `collect_rtk`: compaction savings summed over whole UTC days. */
module Rtk {
  import opened Options
  import opened Windows
  import opened Percent
  import opened Gaps
  import opened Counters

  // `dated` is false when the row's date text is not the canonical spelling of `day`.
  datatype Row =
    | BadSchema
    | BadDate
    | Row(day: int, dated: bool, commands: Field, raw: Field, compacted: Field, saved: Field)

  datatype Values = Values(commands: nat, raw: nat, compacted: nat, saved: nat) {
    function Plus(that: Values): Values {
      Values(commands + that.commands, raw + that.raw, compacted + that.compacted, saved + that.saved)
    }
  }

  const ZERO := Values(0, 0, 0, 0)

  datatype Probe =
    | NotFound(cause: Failure)
    | TimedOut(cause: Failure)
    | OsError(cause: Failure)
    | Failed
    | Unparseable
    | WrongSchema
    | Daily(rows: seq<Row>)
    | Skipped

  datatype Coverage = Complete | Partial | NoDays

  datatype Metrics = Metrics(
    installed: Option<bool>,
    version: Option<string>,
    commands: Option<int>,
    raw: Option<int>,
    compacted: Option<int>,
    saved: Option<int>,
    savedPct: Option<int>,
    includedFullDays: Option<int>,
    windowCoverage: Option<Coverage>)

  const EMPTY := Metrics(None, None, None, None, None, None, None, None, None)

  datatype Result = Result(metrics: Metrics, from: Option<int>, to: Option<int>, gaps: seq<Message>)

  predicate InRange(row: Row, w: Window) {
    row.Row? && row.dated && IsFullDay(w, row.day)
  }

  // What one row costs the provider, in the order the collector checks it.
  function Problem(row: Row, w: Window): Option<Message> {
    match row
    case BadSchema => Some(RtkRowSchema)
    case BadDate => Some(RtkRowDate)
    case Row(_, _, c, r, k, s) =>
      if !InRange(row, w) then None
      else if c.Counter().None? || r.Counter().None? || k.Counter().None? || s.Counter().None? then
        Some(RtkRowCounters)
      else if k.n > r.n || s.n > r.n then Some(RtkRowArithmetic)
      else None
  }

  function ValuesOf(row: Row, w: Window): Values
    requires InRange(row, w) && Problem(row, w).None?
  {
    Values(row.commands.n, row.raw.n, row.compacted.n, row.saved.n)
  }

  // No row is malformed, and no two rows claim the same included day.
  ghost predicate Readable(rows: multiset<Row>, w: Window) {
    && (forall r :: r in rows ==> Problem(r, w).None?)
    && (forall r :: r in rows && InRange(r, w) ==> rows[r] == 1)
    && (forall r, r' :: r in rows && r' in rows && InRange(r, w) && InRange(r', w) && r.day == r'.day ==> r == r')
  }

  // The table of included days, as a relation to the rows.
  ghost predicate IsTable(table: map<int, Values>, rows: multiset<Row>, w: Window)
    requires Readable(rows, w)
  {
    && (forall r :: r in rows && InRange(r, w) ==> r.day in table && table[r.day] == ValuesOf(r, w))
    && (forall d :: d in table ==> exists r :: r in rows && InRange(r, w) && r.day == d)
  }

  lemma TableUnique(t: map<int, Values>, t': map<int, Values>, rows: multiset<Row>, w: Window)
    requires Readable(rows, w) && IsTable(t, rows, w) && IsTable(t', rows, w)
    ensures t == t'
  {
    forall d | d in t ensures d in t' && t[d] == t'[d] {
      var r :| r in rows && InRange(r, w) && r.day == d;
    }
    forall d | d in t' ensures d in t {
      var r :| r in rows && InRange(r, w) && r.day == d;
    }
  }

  function Totals(days: seq<int>, table: map<int, Values>): Values {
    if days == [] then ZERO
    else
      var last := days[|days| - 1];
      var before := Totals(days[..|days| - 1], table);
      if last in table then before.Plus(table[last]) else before
  }

  lemma {:induction false} TotalsConcat(a: seq<int>, b: seq<int>, table: map<int, Values>)
    ensures Totals(a + b, table) == Totals(a, table).Plus(Totals(b, table))
  {
    if b == [] {
      assert a + b == a;
    } else {
      var front, last := b[..|b| - 1], b[|b| - 1];
      var both := a + b;
      assert both[..|both| - 1] == a + front && both[|both| - 1] == last;
      TotalsConcat(a, front, table);
    }
  }

  // Splitting a window at a UTC midnight splits the totals exactly.
  lemma TotalsSplitAtMidnight(start: int, mid: int, end: int, table: map<int, Values>)
    requires start <= mid <= end && mid % DAY == 0
    ensures Totals(FullDays(Window(start, end)), table)
         == Totals(FullDays(Window(start, mid)), table).Plus(Totals(FullDays(Window(mid, end)), table))
  {
    FullDaysSplit(start, mid, end);
    TotalsConcat(FullDays(Window(start, mid)), FullDays(Window(mid, end)), table);
  }

  // The shares the report validator relies on survive summation.
  lemma {:induction false} TotalsBounded(days: seq<int>, table: map<int, Values>)
    requires forall d :: d in table ==> table[d].compacted <= table[d].raw && table[d].saved <= table[d].raw
    ensures var t := Totals(days, table); t.compacted <= t.raw && t.saved <= t.raw
  {
    if days != [] {
      TotalsBounded(days[..|days| - 1], table);
    }
  }

  function CoverageOf(w: Window): Coverage {
    if w.StartsAtMidnight() && w.EndsAtMidnight() then Complete
    else if FullDays(w) != [] then Partial
    else NoDays
  }

  // The metrics of a readable probe, from the table of included days.
  function Measured(w: Window, table: map<int, Values>, version: Option<string>): Metrics {
    var days := FullDays(w);
    var t := Totals(days, table);
    var base := EMPTY.(installed := Some(true), version := version, includedFullDays := Some(|days|),
                       windowCoverage := Some(CoverageOf(w)));
    if days == [] then base
    else base.(commands := Some(t.commands), raw := Some(t.raw), compacted := Some(t.compacted),
               saved := Some(t.saved), savedPct := Pct(Some(t.saved), t.raw))
  }

  function MeasuredGaps(w: Window): seq<Message> {
    (if CoverageOf(w) == Complete then [] else [RtkPartialDays]) +
    (if FullDays(w) != [] then [] else [RtkNoFullDay])
  }

  // `from` and `to` are the first and the last of the days that have a row.
  ghost predicate Spans(days: seq<int>, table: map<int, Values>, from: Option<int>, to: Option<int>) {
    && (from.None? <==> (forall d :: d in days ==> d !in table))
    && (from.Some? <==> to.Some?)
    && (from.Some? ==> from.value in days && from.value in table && to.value in days && to.value in table)
    && (from.Some? ==> forall d :: d in days && d in table ==> from.value <= d <= to.value)
  }

  // A readable probe yields the sum of its included rows; any other probe is unavailable.
  ghost predicate Describes(r: Result, w: Window, probe: Probe, version: Option<string>) {
    (r.metrics.saved.None? ==> r.from.None? && r.to.None?) &&
    match probe
    case Daily(rows) =>
      if Readable(multiset(rows), w) then
        exists table :: IsTable(table, multiset(rows), w) && r.metrics == Measured(w, table, version)
                        && r.gaps == MeasuredGaps(w) && Spans(FullDays(w), table, r.from, r.to)
      else
        && r.metrics == EMPTY.(installed := Some(true))
        && |r.gaps| == 1 && r.gaps[0] in {RtkRowSchema, RtkRowDate, RtkRowCounters, RtkRowArithmetic, RtkDuplicateDates}
    case NotFound(cause) => r.metrics == EMPTY.(installed := Some(false)) && r.gaps == [RtkUnavailable(cause)]
    case TimedOut(cause) => r.metrics == EMPTY.(installed := Some(true)) && r.gaps == [RtkTimedOut(cause)]
    case OsError(cause) => r.metrics == EMPTY && r.gaps == [RtkUnknown(cause)]
    case Failed => r.metrics == EMPTY.(installed := Some(true)) && r.gaps == [RtkFailed]
    case Unparseable => r.metrics == EMPTY.(installed := Some(true)) && r.gaps == [RtkUnparseable]
    case WrongSchema => r.metrics == EMPTY.(installed := Some(true)) && r.gaps == [RtkSchema]
    case Skipped => r.metrics == EMPTY && r.gaps == [RtkSkipped]
  }

  function Unavailable(installed: Option<bool>, reason: Message): Result {
    Result(EMPTY.(installed := installed), None, None, [reason])
  }

  // The loop over the payload's daily rows.
  method ReadRows(rows: seq<Row>, w: Window) returns (table: map<int, Values>, error: Option<Message>)
    ensures error.None? <==> Readable(multiset(rows), w)
    ensures error.None? ==> IsTable(table, multiset(rows), w)
    ensures error.Some? ==> error.value in {RtkRowSchema, RtkRowDate, RtkRowCounters, RtkRowArithmetic, RtkDuplicateDates}
  {
    table := map[];
    error := None;
    ghost var seen := multiset{};
    for i := 0 to |rows|
      invariant seen == multiset(rows[..i])
      invariant Readable(seen, w) && IsTable(table, seen, w)
    {
      var row := rows[i];
      assert rows[..i + 1] == rows[..i] + [row];
      assert multiset(rows) == seen + multiset{row} + multiset(rows[i + 1..]) by {
        assert rows == rows[..i] + [row] + rows[i + 1..];
      }
      if Problem(row, w).Some? {
        error := Problem(row, w);
        return;
      }
      if InRange(row, w) && row.day in table {
        DuplicateDayUnreadable(seen, row, multiset(rows), w);
        error := Some(RtkDuplicateDates);
        return;
      }
      AddRowKeepsTable(table, seen, row, w);
      table := AddRow(table, row, w);
      seen := seen + multiset{row};
    }
    assert rows[..|rows|] == rows;
  }

  function AddRow(table: map<int, Values>, row: Row, w: Window): map<int, Values>
    requires Problem(row, w).None?
  {
    if InRange(row, w) then table[row.day := ValuesOf(row, w)] else table
  }

  lemma AddRowKeepsReadable(table: map<int, Values>, seen: multiset<Row>, row: Row, w: Window)
    requires Readable(seen, w) && IsTable(table, seen, w) && Problem(row, w).None?
    requires InRange(row, w) ==> row.day !in table
    ensures Readable(seen + multiset{row}, w)
  {
    hide Problem, ValuesOf;
    var after := seen + multiset{row};
    assert forall r :: r in after <==> r in seen || r == row;
    assert forall r :: r in after && InRange(r, w) && r.day !in table ==> r == row && row !in seen;
  }

  lemma AddRowKeepsTable(table: map<int, Values>, seen: multiset<Row>, row: Row, w: Window)
    requires Readable(seen, w) && IsTable(table, seen, w) && Problem(row, w).None?
    requires InRange(row, w) ==> row.day !in table
    ensures Readable(seen + multiset{row}, w) && IsTable(AddRow(table, row, w), seen + multiset{row}, w)
  {
    AddRowKeepsReadable(table, seen, row, w);
    hide Problem, ValuesOf, Readable;
    var after := seen + multiset{row};
    assert forall r :: r in after <==> r in seen || r == row;
    var table' := AddRow(table, row, w);
    forall d | d in table' ensures exists r :: r in after && InRange(r, w) && r.day == d {
      if d in table {
        var r :| r in seen && InRange(r, w) && r.day == d;
        assert r in after;
      } else {
        assert row in after;
      }
    }
  }

  lemma DuplicateDayUnreadable(seen: multiset<Row>, row: Row, rows: multiset<Row>, w: Window)
    requires seen + multiset{row} <= rows && InRange(row, w)
    requires exists r :: r in seen && InRange(r, w) && r.day == row.day
    ensures !Readable(rows, w)
  {
    var r :| r in seen && InRange(r, w) && r.day == row.day;
    assert r in rows && row in rows;
    if r == row {
      assert (seen + multiset{row})[row] >= 2;
    }
  }

  // `collect_rtk`
  method Collect(w: Window, probe: Probe, version: Option<string>) returns (r: Result)
    ensures Describes(r, w, probe, version)
  {
    match probe {
      case NotFound(cause) => r := Unavailable(Some(false), RtkUnavailable(cause));
      case TimedOut(cause) => r := Unavailable(Some(true), RtkTimedOut(cause));
      case OsError(cause) => r := Unavailable(None, RtkUnknown(cause));
      case Failed => r := Unavailable(Some(true), RtkFailed);
      case Unparseable => r := Unavailable(Some(true), RtkUnparseable);
      case WrongSchema => r := Unavailable(Some(true), RtkSchema);
      case Skipped => r := Unavailable(None, RtkSkipped);
      case Daily(rows) =>
        var days := FullUtcDays(w);
        var table, error := ReadRows(rows, w);
        if error.Some? {
          r := Unavailable(Some(true), error.value);
          return;
        }
        var totals, from, to := SumDays(days, table);
        var complete := w.StartsAtMidnight() && w.EndsAtMidnight();
        var gaps: seq<Message> := [];
        var m := EMPTY.(installed := Some(true), includedFullDays := Some(|days|),
                        windowCoverage := Some(if complete then Complete else if days != [] then Partial else NoDays));
        if !complete {
          gaps := gaps + [RtkPartialDays];
        }
        if days != [] {
          m := m.(commands := Some(totals.commands), raw := Some(totals.raw), compacted := Some(totals.compacted),
                  saved := Some(totals.saved), savedPct := Pct(Some(totals.saved), totals.raw));
        } else {
          gaps := gaps + [RtkNoFullDay];
        }
        m := m.(version := version);
        r := Result(m, from, to, gaps);
    }
  }

  method SumDays(days: seq<int>, table: map<int, Values>) returns (totals: Values, from: Option<int>, to: Option<int>)
    ensures totals == Totals(days, table)
    ensures Spans(days, table, from, to)
  {
    totals, from, to := ZERO, None, None;
    for i := 0 to |days|
      invariant totals == Totals(days[..i], table)
      invariant Spans(days[..i], table, from, to)
    {
      var day := days[i];
      assert days[..i + 1][..i] == days[..i] && days[..i + 1] == days[..i] + [day];
      if day in table {
        from, to := EarlierOf(from, day), LaterOf(to, day);
        totals := totals.Plus(table[day]);
      }
    }
    assert days[..|days|] == days;
  }

  // The report depends on which rows were read, never on their order.
  lemma OrderIrrelevant(w: Window, rows: seq<Row>, rows': seq<Row>, version: Option<string>, r: Result, r': Result)
    requires multiset(rows) == multiset(rows')
    requires Describes(r, w, Daily(rows), version) && Describes(r', w, Daily(rows'), version)
    ensures r.metrics == r'.metrics
  {
    if Readable(multiset(rows), w) {
      var t :| IsTable(t, multiset(rows), w) && r.metrics == Measured(w, t, version);
      var t' :| IsTable(t', multiset(rows), w) && r'.metrics == Measured(w, t', version);
      TableUnique(t, t', multiset(rows), w);
    }
  }

  // What an available result promises the report: bounded totals and the percentage they imply.
  lemma MeasuredArithmetic(w: Window, rows: multiset<Row>, table: map<int, Values>, version: Option<string>)
    requires Readable(rows, w) && IsTable(table, rows, w)
    ensures var t := Totals(FullDays(w), table); t.compacted <= t.raw && t.saved <= t.raw
  {
    forall d | d in table ensures table[d].compacted <= table[d].raw && table[d].saved <= table[d].raw {
      var r :| r in rows && InRange(r, w) && r.day == d;
    }
    TotalsBounded(FullDays(w), table);
  }
}
