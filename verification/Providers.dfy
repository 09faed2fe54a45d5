/** The two collectors that read a SQL aggregate: what they make of the rows the
    database returns. The queries themselves are not part of this model. */
module Copilot {
  import opened Options
  import opened Windows
  import opened Gaps
  import opened Counters

  datatype Query =
    | DbMissing
    | DbUnreadable(cause: Failure)
    | Row(count: Field, days: Field, input: Field, cacheRead: Field, cacheWrite: Field, output: Field, reasoning: Field,
          from: Option<int>, to: Option<int>)

  datatype Metrics = Metrics(
    raw: Option<int>,
    cost: Option<int>,
    nonCached: Option<int>,
    cacheWrite: Option<int>,
    cacheRead: Option<int>,
    output: Option<int>,
    reasoning: Option<int>,
    calls: Option<int>,
    coverageDays: Option<int>,
    rangeCovers: Option<bool>)

  const EMPTY := Metrics(None, None, None, None, None, None, None, None, None, None)

  datatype Result = Result(metrics: Metrics, from: Option<int>, to: Option<int>, gaps: seq<Message>)

  // A SUM over no rows is null, which counts as zero.
  function Summed(count: Option<nat>, f: Field): Option<nat> {
    if count == Some(0) && f.Absent? then Some(0) else f.Counter()
  }

  // `collect_copilot` after its two queries
  function Collect(w: Window, q: Query): Result {
    match q
    case DbMissing => Result(EMPTY, None, None, [CopilotDbMissing])
    case DbUnreadable(cause) => Result(EMPTY, None, None, [CopilotDbUnreadable(cause)])
    case Row(c, d, i, r, k, o, t, from, to) =>
      var count, days := c.Counter(), d.Counter();
      var input, read, write, output, reasoning :=
        Summed(count, i), Summed(count, r), Summed(count, k), Summed(count, o), Summed(count, t);
      if count.None? || days.None? || input.None? || read.None? || write.None? || output.None? || reasoning.None? then
        Result(EMPTY, None, None, [CopilotMalformed])
      else
        var covers := from.Some? && to.Some? && from.value <= w.start && to.value >= w.end;
        Result(Metrics(Some(input.value + read.value + write.value + output.value), None, input, write, read, output, reasoning,
                       count, days, Some(covers)),
               from, to, if covers then [] else [CopilotCoverage])
  }

  /** What the aggregate query guarantees and the collector does not check: no rows
      means no sums, at most one distinct day per row, reasoning inside output, and
      coverage endpoints that come together and lie inside the window. */
  predicate Plausible(w: Window, q: Query) {
    q.Row? ==>
      && (q.count == Number(0) ==> q.input.Absent? && q.cacheRead.Absent? && q.cacheWrite.Absent? && q.output.Absent? && q.reasoning.Absent?)
      && (q.days.Number? && q.count.Number? ==> q.days.n <= q.count.n)
      && (q.reasoning.Number? && q.output.Number? ==> q.reasoning.n <= q.output.n)
      && (q.from.Some? <==> q.to.Some?)
      && (q.from.Some? ==> w.start <= q.from.value <= q.to.value <= w.end)
  }
}

module Kronn {
  import opened Options
  import opened Sums
  import opened Percent
  import opened Gaps
  import opened Counters

  // An agent type that is NULL or empty is reported as "unknown".
  datatype Row = Row(agent: string, replies: Field, traced: Field, tokens: Field) {
    function Name(): string {
      if agent != "" then agent else "unknown"
    }

    predicate Sound() {
      && replies.Counter().Some? && traced.CounterOrZero().Some? && tokens.CounterOrZero().Some?
      && traced.CounterOrZero().value <= replies.Counter().value
    }
  }

  datatype Query = DbMissing | DbUnreadable(cause: Failure) | Rows(rows: seq<Row>)

  datatype Metrics = Metrics(
    replies: Option<int>,
    tracedPct: Option<int>,
    tracedTokens: Option<int>,
    untraced: Option<map<string, nat>>)

  const EMPTY := Metrics(None, None, None, None)

  datatype Result = Result(metrics: Metrics, gaps: seq<Message>)

  datatype Totals = Totals(replies: nat, traced: nat, tokens: nat, untraced: map<string, nat>)

  function TotalsOf(rows: seq<Row>): Totals
    requires forall r :: r in rows ==> r.Sound()
  {
    if rows == [] then Totals(0, 0, 0, map[])
    else
      var t, r := TotalsOf(rows[..|rows| - 1]), rows[|rows| - 1];
      assert r in rows && r.Sound();
      var replies, traced := r.replies.Counter().value, r.traced.CounterOrZero().value;
      Totals(t.replies + replies, t.traced + traced, t.tokens + r.tokens.CounterOrZero().value, t.untraced[r.Name() := replies - traced])
  }

  ghost predicate Describes(r: Result, q: Query) {
    match q
    case DbMissing => r == Result(EMPTY, [KronnDbMissing])
    case DbUnreadable(cause) => r == Result(EMPTY, [KronnDbUnreadable(cause)])
    case Rows(rows) =>
      if exists x :: x in rows && !x.Sound() then r == Result(EMPTY, [KronnMalformed])
      else
        var t := TotalsOf(rows);
        r == Result(Metrics(Some(t.replies), Pct(Some(t.traced), t.replies), Some(t.tokens), Some(t.untraced)), [])
  }

  lemma TotalsAdd(rows: seq<Row>, row: Row)
    requires row.Sound() && forall r :: r in rows ==> r.Sound()
    ensures var t := TotalsOf(rows);
            TotalsOf(rows + [row]) == Totals(t.replies + row.replies.Counter().value, t.traced + row.traced.CounterOrZero().value,
                                             t.tokens + row.tokens.CounterOrZero().value, t.untraced[row.Name() := Untraced(row)])
  {
    assert (rows + [row])[..|rows|] == rows;
    hide Row.Name, Field.Counter, Field.CounterOrZero;
  }

  // `collect_kronn` after its query
  method Collect(q: Query) returns (r: Result)
    ensures Describes(r, q)
  {
    match q {
      case DbMissing => r := Result(EMPTY, [KronnDbMissing]);
      case DbUnreadable(cause) => r := Result(EMPTY, [KronnDbUnreadable(cause)]);
      case Rows(rows) =>
        var t := Totals(0, 0, 0, map[]);
        for i := 0 to |rows|
          invariant forall x :: x in rows[..i] ==> x.Sound()
          invariant t == TotalsOf(rows[..i])
        {
          hide TotalsOf;
          var row := rows[i];
          assert rows[..i + 1] == rows[..i] + [row];
          var replies, traced, tokens := row.replies.Counter(), row.traced.CounterOrZero(), row.tokens.CounterOrZero();
          if replies.None? || traced.None? || tokens.None? || traced.value > replies.value {
            assert row in rows && !row.Sound();
            return Result(EMPTY, [KronnMalformed]);
          }
          TotalsAdd(rows[..i], row);
          t := Totals(t.replies + replies.value, t.traced + traced.value, t.tokens + tokens.value,
                      t.untraced[row.Name() := replies.value - traced.value]);
        }
        assert rows[..|rows|] == rows;
        r := Result(Metrics(Some(t.replies), Pct(Some(t.traced), t.replies), Some(t.tokens), Some(t.untraced)), []);
    }
  }

  function Untraced(r: Row): nat
    requires r.Sound()
  {
    r.replies.Counter().value - r.traced.CounterOrZero().value
  }

  // Rows that share a key overwrite each other: a count is lost unless every
  // row but the last of its key is fully traced.
  ghost predicate NothingLost(rows: seq<Row>)
    requires forall r :: r in rows ==> r.Sound()
  {
    forall i, j :: 0 <= i < j < |rows| && rows[i].Name() == rows[j].Name() ==> Untraced(rows[i]) == 0
  }

  ghost predicate Complete(q: Query) {
    q.Rows? && (forall r :: r in q.rows ==> r.Sound()) ==> NothingLost(q.rows)
  }

  lemma {:induction false} UntracedNames(rows: seq<Row>)
    requires forall r :: r in rows ==> r.Sound()
    ensures forall name :: name in TotalsOf(rows).untraced <==> exists r :: r in rows && r.Name() == name
  {
    if rows != [] {
      var front, r := rows[..|rows| - 1], rows[|rows| - 1];
      assert rows == front + [r];
      UntracedNames(front);
    }
  }

  lemma LastRow(rows: seq<Row>)
    requires rows != [] && forall r :: r in rows ==> r.Sound()
    ensures var front, r := rows[..|rows| - 1], rows[|rows| - 1];
            && r.Sound()
            && var added, t, before := r.replies.Counter().value - r.traced.CounterOrZero().value, TotalsOf(rows), TotalsOf(front);
            && t.replies - t.traced == before.replies - before.traced + added
            && SumMap(t.untraced) == SumMap(before.untraced) + added - (if r.Name() in before.untraced then before.untraced[r.Name()] else 0)
  {
    var front, r := rows[..|rows| - 1], rows[|rows| - 1];
    assert r in rows && r.Sound();
    SumMapPut(TotalsOf(front).untraced, r.Name(), r.replies.Counter().value - r.traced.CounterOrZero().value);
  }

  // An overwritten count is lost, so the dictionary never holds more than was untraced.
  lemma {:induction false} UntracedWithin(rows: seq<Row>)
    requires forall r :: r in rows ==> r.Sound()
    ensures SumMap(TotalsOf(rows).untraced) + TotalsOf(rows).traced <= TotalsOf(rows).replies
  {
    if rows != [] {
      LastRow(rows);
      UntracedWithin(rows[..|rows| - 1]);
    }
  }

  lemma {:induction false} UntracedOfKey(rows: seq<Row>, name: string)
    requires forall r :: r in rows ==> r.Sound()
    requires NothingLost(rows)
    ensures (forall i :: 0 <= i < |rows| && rows[i].Name() == name ==> Untraced(rows[i]) == 0)
       <==> (name in TotalsOf(rows).untraced ==> TotalsOf(rows).untraced[name] == 0)
  {
    if rows != [] {
      var n := |rows| - 1;
      assert rows == rows[..n] + [rows[n]];
      UntracedOfKey(rows[..n], name);
      assert forall i :: 0 <= i < n ==> rows[..n][i] == rows[i];
      hide Row.Sound;
    }
  }

  lemma NothingLostMore(rows: seq<Row>)
    requires rows != [] && forall r :: r in rows ==> r.Sound()
    ensures var n := |rows| - 1;
            NothingLost(rows) <==>
              NothingLost(rows[..n]) && forall i :: 0 <= i < n && rows[..n][i].Name() == rows[n].Name() ==> Untraced(rows[..n][i]) == 0
  {
    hide Row.Sound, Row.Name, Untraced;
    var n := |rows| - 1;
    assert forall i :: 0 <= i < n ==> rows[..n][i] == rows[i];
  }

  // Traced and untraced replies partition the replies exactly when no count is
  // lost to a shared key.
  lemma {:induction false} UntracedPartition(rows: seq<Row>)
    requires forall r :: r in rows ==> r.Sound()
    ensures SumMap(TotalsOf(rows).untraced) + TotalsOf(rows).traced == TotalsOf(rows).replies <==> NothingLost(rows)
  {
    if rows != [] {
      var front, last := rows[..|rows| - 1], rows[|rows| - 1];
      LastRow(rows);
      UntracedPartition(front);
      UntracedWithin(front);
      NothingLostMore(rows);
      if NothingLost(front) {
        UntracedOfKey(front, last.Name());
      }
      hide SumMap, TotalsOf, NothingLost, Untraced, Row.Sound;
    }
  }
}
