/** Incremental reading of an append-only transcript
    (`backend/scripts/cli_token_collector.py`, `collect_claude`): a byte cursor
    that never passes a half-written line. */
module Transcripts {
  import opened Options
  import opened Sums
  import opened Octets

  const NEWLINE: Byte := 10

  const TIMELINE_MAX_ENTRIES := 500

  // ---- Decoded lines ----

  // The usage counters of one response; a missing or non-integer one is `None`.
  datatype Usage = Usage(model: Option<string>, input: Option<int>, cacheCreation: Option<int>,
                         cacheRead: Option<int>, output: Option<int>)

  // What the JSON reader makes of one line: nothing, or a record with a
  // non-empty timestamp and a `message.usage` object, either of which may be missing.
  datatype Decoded = Unreadable | Record(stamp: Option<string>, usage: Option<Usage>)

  type Decoder = seq<Byte> -> Decoded

  function Or0(n: Option<int>): int { if n.Some? then n.value else 0 }

  function ModelOf(u: Usage): string { if u.model.Some? then u.model.value else "unknown" }

  function Count(counts: map<string, nat>, model: string): nat {
    if model in counts then counts[model] else 0
  }

  // The totals of one report.
  datatype Tally = Tally(
    lines: nat, responses: nat,
    input: int, cacheCreation: int, cacheRead: int, output: int,
    models: map<string, nat>,
    windowStart: Option<string>, windowEnd: Option<string>)
  {
    function Stamped(stamp: Option<string>): Tally {
      if stamp.None? then this
      else this.(windowStart := if windowStart.Some? then windowStart else stamp, windowEnd := stamp)
    }

    function Line(): Tally { this.(lines := lines + 1) }

    function Spent(usage: Option<Usage>): Tally {
      if usage.None? then this
      else
        var u := usage.value;
        this.(responses := responses + 1,
              input := input + Or0(u.input), cacheCreation := cacheCreation + Or0(u.cacheCreation),
              cacheRead := cacheRead + Or0(u.cacheRead), output := output + Or0(u.output),
              models := models[ModelOf(u) := Count(models, ModelOf(u)) + 1])
    }

    function Read(d: Decoded): Tally {
      if d.Record? then Line().Stamped(d.stamp).Spent(d.usage) else Line()
    }
  }

  const NOTHING := Tally(0, 0, 0, 0, 0, 0, map[], None, None)

  function Tallied(decode: Decoder, lines: seq<seq<Byte>>): Tally {
    if lines == [] then NOTHING
    else Tallied(decode, lines[..|lines| - 1]).Read(decode(lines[|lines| - 1]))
  }

  // Every measured response is counted under exactly one model.
  lemma {:induction false} ModelsCountResponses(decode: Decoder, lines: seq<seq<Byte>>)
    ensures SumMap(Tallied(decode, lines).models) == Tallied(decode, lines).responses
  {
    if lines == [] {
      assert SumMap(NOTHING.models) == 0;
    } else {
      var before := Tallied(decode, lines[..|lines| - 1]);
      ModelsCountResponses(decode, lines[..|lines| - 1]);
      ReadCounts(before, decode(lines[|lines| - 1]));
      hide Tally.Read, SumMap;
    }
  }

  lemma ReadCounts(t: Tally, d: Decoded)
    requires SumMap(t.models) == t.responses
    ensures SumMap(t.Read(d).models) == t.Read(d).responses
  {
    hide SumMap, ModelOf;
    if d.Record? && d.usage.Some? {
      SumMapPut(t.models, ModelOf(d.usage.value), Count(t.models, ModelOf(d.usage.value)) + 1);
    }
  }

  datatype Entry = Entry(at: string, model: string, usage: Usage)

  // Every response that can be placed in time, in order.
  function Placed(decode: Decoder, lines: seq<seq<Byte>>): seq<Entry> {
    if lines == [] then []
    else
      var before, d := Placed(decode, lines[..|lines| - 1]), decode(lines[|lines| - 1]);
      if d.Record? && d.stamp.Some? && d.usage.Some?
      then before + [Entry(d.stamp.value, ModelOf(d.usage.value), d.usage.value)]
      else before
  }

  function Take<T>(s: seq<T>, n: nat): seq<T> { if |s| <= n then s else s[..n] }

  // ---- Complete lines ----

  // No newline at the positions from `lo` up to `hi`.
  predicate Clear(s: seq<Byte>, lo: nat, hi: nat)
    requires lo <= hi <= |s|
  {
    forall i :: lo <= i < hi ==> s[i] != NEWLINE
  }

  function FirstNewline(s: seq<Byte>): (n: nat)
    ensures n <= |s| && Clear(s, 0, n)
    ensures n < |s| ==> s[n] == NEWLINE
  {
    if s == [] || s[0] == NEWLINE then 0 else FirstNewline(s[1..]) + 1
  }

  predicate HasLine(s: seq<Byte>) { FirstNewline(s) < |s| }

  function HeadLine(s: seq<Byte>): seq<Byte>
    requires HasLine(s)
  {
    s[..FirstNewline(s) + 1]
  }

  function RestOf(s: seq<Byte>): (rest: seq<Byte>)
    requires HasLine(s)
    ensures |rest| < |s|
  {
    s[FirstNewline(s) + 1..]
  }

  // The lines of `s` that end in a newline.
  function CompleteLines(s: seq<Byte>): seq<seq<Byte>>
    decreases |s|
  {
    if HasLine(s) then [HeadLine(s)] + CompleteLines(RestOf(s)) else []
  }

  function Length(lines: seq<seq<Byte>>): nat {
    if lines == [] then 0 else |lines[0]| + Length(lines[1..])
  }

  predicate IsBoundary(file: seq<Byte>, offset: nat) {
    offset <= |file| && (offset == 0 || file[offset - 1] == NEWLINE)
  }

  // Reading from `since` stops after the last complete line.
  function Cursor(file: seq<Byte>, since: nat): nat
    requires since <= |file|
  {
    since + Length(CompleteLines(file[since..]))
  }

  lemma LengthOfFirst(raw: seq<Byte>, lines: seq<seq<Byte>>)
    ensures Length([raw] + lines) == |raw| + Length(lines)
  {
    assert ([raw] + lines)[1..] == lines;
  }

  // The complete lines are a prefix that ends in a newline; the rest has none.
  lemma {:induction false} CompletePart(s: seq<Byte>)
    ensures Length(CompleteLines(s)) <= |s|
    ensures IsBoundary(s, Length(CompleteLines(s)))
    ensures Clear(s, Length(CompleteLines(s)), |s|)
    decreases |s|
  {
    hide FirstNewline;
    if HasLine(s) {
      CompletePart(RestOf(s));
      LengthOfFirst(HeadLine(s), CompleteLines(RestOf(s)));
      ShiftedPart(s, Length(CompleteLines(RestOf(s))));
      hide Length, HeadLine, RestOf, Clear, IsBoundary;
    }
  }

  lemma ShiftedPart(s: seq<Byte>, m: nat)
    requires HasLine(s) && IsBoundary(RestOf(s), m) && Clear(RestOf(s), m, |RestOf(s)|)
    ensures |HeadLine(s)| + m <= |s| && IsBoundary(s, |HeadLine(s)| + m) && Clear(s, |HeadLine(s)| + m, |s|)
  {
    var k := |HeadLine(s)|;
    assert forall i :: k <= i < |s| ==> s[i] == RestOf(s)[i - k];
  }

  lemma {:induction false} NoNewlineNoLine(s: seq<Byte>)
    requires Clear(s, 0, |s|)
    ensures CompleteLines(s) == []
  {
  }

  lemma FirstNewlineIs(s: seq<Byte>, n: nat)
    requires n < |s| && s[n] == NEWLINE && Clear(s, 0, n)
    ensures FirstNewline(s) == n
  {
  }

  // Cutting after the last line of `a` keeps the first line of `a`.
  lemma HeadOfConcat(a: seq<Byte>, b: seq<Byte>)
    requires IsBoundary(a, |a|) && a != []
    ensures HasLine(a) && HasLine(a + b)
    ensures HeadLine(a + b) == HeadLine(a) && RestOf(a + b) == RestOf(a) + b
    ensures IsBoundary(RestOf(a), |RestOf(a)|)
  {
    hide FirstNewline;
    FirstNewlineIs(a + b, FirstNewline(a));
  }

  lemma Regroup<T>(a: seq<T>, b: seq<T>, c: seq<T>)
    ensures a + (b + c) == a + b + c
  {
  }

  // Cutting a file at a line boundary cuts its lines.
  lemma {:induction false} LinesSplit(a: seq<Byte>, b: seq<Byte>)
    requires IsBoundary(a, |a|)
    ensures CompleteLines(a + b) == CompleteLines(a) + CompleteLines(b)
    decreases |a|
  {
    hide HasLine, HeadLine, RestOf;
    if a == [] {
      NoNewlineNoLine(a);
      assert a + b == b;
    } else {
      HeadOfConcat(a, b);
      LinesSplit(RestOf(a), b);
      Regroup([HeadLine(a)], CompleteLines(RestOf(a)), CompleteLines(b));
    }
  }

  lemma CursorIsLastBoundary(file: seq<Byte>, since: nat)
    requires IsBoundary(file, since)
    ensures since <= Cursor(file, since) && IsBoundary(file, Cursor(file, since))
    ensures Clear(file, Cursor(file, since), |file|)
  {
    hide CompleteLines, Length;
    var suffix := file[since..];
    CompletePart(suffix);
    assert forall i :: since <= i < |file| ==> file[i] == suffix[i - since];
  }

  lemma CutLines(file: seq<Byte>, cut: nat)
    requires IsBoundary(file, cut)
    ensures CompleteLines(file) == CompleteLines(file[..cut]) + CompleteLines(file[cut..])
  {
    hide CompleteLines;
    LinesSplit(file[..cut], file[cut..]);
    assert file == file[..cut] + file[cut..];
  }

  lemma NoLineLeft(file: seq<Byte>, cut: nat)
    requires cut <= |file| && Clear(file, cut, |file|)
    ensures CompleteLines(file[cut..]) == []
  {
    NoNewlineNoLine(file[cut..]);
  }

  // The lines before the new cursor are those before the old one and those
  // read now; no complete line is left.
  lemma LinesUpToCursor(file: seq<Byte>, since: nat)
    requires IsBoundary(file, since)
    ensures Cursor(file, since) <= |file|
    ensures CompleteLines(file[..Cursor(file, since)]) == CompleteLines(file[..since]) + CompleteLines(file[since..])
    ensures CompleteLines(file[..Cursor(file, since)]) == CompleteLines(file)
  {
    CursorIsLastBoundary(file, since);
    hide CompleteLines, Cursor, Clear;
    NoLineLeft(file, Cursor(file, since));
    CutLines(file, since);
    CutLines(file, Cursor(file, since));
  }

  // ---- Reading once ----

  datatype Report = Report(
    tally: Tally, nextOffset: nat, truncated: bool,
    timeline: seq<Entry>, timelineTruncated: bool)

  // A timeline holds the first responses and says whether any was left out.
  predicate Listed(withTimeline: bool, placed: seq<Entry>, timeline: seq<Entry>, truncated: bool) {
    && timeline == (if withTimeline then Take(placed, TIMELINE_MAX_ENTRIES) else [])
    && truncated == (withTimeline && |placed| > TIMELINE_MAX_ENTRIES)
  }

  lemma ListNext(withTimeline: bool, placed: seq<Entry>, timeline: seq<Entry>, truncated: bool, e: Entry)
    requires Listed(withTimeline, placed, timeline, truncated)
    ensures !withTimeline ==> Listed(withTimeline, placed + [e], timeline, truncated)
    ensures withTimeline && |timeline| < TIMELINE_MAX_ENTRIES ==> Listed(withTimeline, placed + [e], timeline + [e], truncated)
    ensures withTimeline && |timeline| >= TIMELINE_MAX_ENTRIES ==> Listed(withTimeline, placed + [e], timeline, true)
  {
  }

  // A report covers the complete lines after `since`, or refuses a file that shrank.
  ghost predicate Reports(decode: Decoder, file: seq<Byte>, since: nat, withTimeline: bool, r: Report) {
    if since > |file| then r == Report(NOTHING, 0, true, [], false)
    else
      var lines := CompleteLines(file[since..]);
      && r.tally == Tallied(decode, lines)
      && r.nextOffset == Cursor(file, since)
      && !r.truncated
      && Listed(withTimeline, Placed(decode, lines), r.timeline, r.timelineTruncated)
  }

  // One line of a binary file, its newline included when it has one.
  method ReadLine(file: seq<Byte>, offset: nat) returns (raw: seq<Byte>, complete: bool)
    requires offset < |file|
    ensures complete <==> HasLine(file[offset..])
    ensures complete ==> raw == HeadLine(file[offset..])
  {
    var i := offset;
    while i < |file| && file[i] != NEWLINE
      invariant offset <= i <= |file|
      invariant Clear(file, offset, i)
    {
      i := i + 1;
    }
    var rest := file[offset..];
    assert forall j :: offset <= j < |file| ==> file[j] == rest[j - offset];
    if i < |file| {
      FirstNewlineIs(rest, i - offset);
      return file[offset..i + 1], true;
    }
    return rest, false;
  }

  lemma NextLine(decode: Decoder, done: seq<seq<Byte>>, raw: seq<Byte>)
    ensures Tallied(decode, done + [raw]) == Tallied(decode, done).Read(decode(raw))
    ensures Placed(decode, done + [raw]) ==
      var d := decode(raw);
      if d.Record? && d.stamp.Some? && d.usage.Some?
      then Placed(decode, done) + [Entry(d.stamp.value, ModelOf(d.usage.value), d.usage.value)]
      else Placed(decode, done)
  {
    assert (done + [raw])[..|done|] == done;
  }

  lemma {:induction false} LengthConcat(done: seq<seq<Byte>>, raw: seq<Byte>)
    ensures Length(done + [raw]) == Length(done) + |raw|
  {
    if done != [] {
      assert (done + [raw])[1..] == done[1..] + [raw];
      LengthConcat(done[1..], raw);
    }
  }

  // What has been added up after the lines `done`.
  ghost predicate Kept(decode: Decoder, done: seq<seq<Byte>>, withTimeline: bool, r: Report) {
    && r.tally == Tallied(decode, done) && !r.truncated
    && Listed(withTimeline, Placed(decode, done), r.timeline, r.timelineTruncated)
  }

  // The lines `done` lie between `since` and `offset`.
  ghost predicate Between(file: seq<Byte>, since: nat, offset: nat, done: seq<seq<Byte>>) {
    && since <= offset <= |file|
    && CompleteLines(file[since..]) == done + CompleteLines(file[offset..])
    && offset == since + Length(done)
  }

  lemma Advance(file: seq<Byte>, since: nat, offset: nat, done: seq<seq<Byte>>, raw: seq<Byte>)
    requires Between(file, since, offset, done) && HasLine(file[offset..]) && raw == HeadLine(file[offset..])
    ensures raw != [] && offset + |raw| <= |file| && Between(file, since, offset + |raw|, done + [raw])
  {
    hide FirstNewline, Length;
    LengthConcat(done, raw);
    assert RestOf(file[offset..]) == file[offset + |raw|..];
    hide HeadLine, RestOf;
    Regroup(done, [raw], CompleteLines(file[offset + |raw|..]));
  }

  // What a complete line adds to the report.
  method AddLine(decode: Decoder, raw: seq<Byte>, withTimeline: bool, before: Report, ghost done: seq<seq<Byte>>)
    returns (r: Report)
    requires Kept(decode, done, withTimeline, before)
    ensures Kept(decode, done + [raw], withTimeline, r) && r.nextOffset == before.nextOffset + |raw|
  {
    NextLine(decode, done, raw);
    hide Tallied, Placed, Listed, Tally.Read, ModelOf;
    var d := decode(raw);
    r := before.(nextOffset := before.nextOffset + |raw|, tally := before.tally.Read(d));
    if d.Record? && d.stamp.Some? && d.usage.Some? {
      var entry := Entry(d.stamp.value, ModelOf(d.usage.value), d.usage.value);
      ListNext(withTimeline, Placed(decode, done), r.timeline, r.timelineTruncated, entry);
      if withTimeline {
        if |r.timeline| < TIMELINE_MAX_ENTRIES {
          r := r.(timeline := r.timeline + [entry]);
        } else {
          r := r.(timelineTruncated := true);
        }
      }
    }
  }

  // The loop over the lines from `since` on.
  method ReadFrom(decode: Decoder, file: seq<Byte>, since: nat, withTimeline: bool) returns (r: Report)
    requires since <= |file|
    ensures Reports(decode, file, since, withTimeline, r)
  {
    hide Kept, Between, CompleteLines, HasLine, Reports, HeadLine;
    r := Report(NOTHING, since, false, [], false);
    ghost var done: seq<seq<Byte>> := [];
    StartOfReading(decode, file, since, withTimeline);
    var partial := false;
    while r.nextOffset < |file| && !partial
      invariant r.nextOffset <= |file| && Between(file, since, r.nextOffset, done)
      invariant Kept(decode, done, withTimeline, r)
      invariant partial ==> !HasLine(file[r.nextOffset..])
      decreases |file| - r.nextOffset, !partial
    {
      var raw, complete := ReadLine(file, r.nextOffset);
      if complete {
        Advance(file, since, r.nextOffset, done, raw);
        r := AddLine(decode, raw, withTimeline, r, done);
        done := done + [raw];
      } else {
        partial := true;
      }
    }
    ReportIs(decode, file, since, withTimeline, r, done);
  }

  // A file shorter than the cursor was rotated or replaced: nothing is counted
  // and the caller is told to start over.
  method CollectClaude(decode: Decoder, file: seq<Byte>, since: nat, withTimeline: bool) returns (r: Report)
    ensures Reports(decode, file, since, withTimeline, r)
  {
    if since > |file| {
      return Report(NOTHING, 0, true, [], false);
    }
    r := ReadFrom(decode, file, since, withTimeline);
  }

  lemma ReportIs(decode: Decoder, file: seq<Byte>, since: nat, withTimeline: bool, r: Report, done: seq<seq<Byte>>)
    requires Between(file, since, r.nextOffset, done) && Kept(decode, done, withTimeline, r)
    requires r.nextOffset == |file| || !HasLine(file[r.nextOffset..])
    ensures Reports(decode, file, since, withTimeline, r)
  {
    hide Tallied, Placed, Listed, FirstNewline, Length;
    assert r.nextOffset == |file| ==> file[r.nextOffset..] == [];
    assert done + [] == done;
  }

  lemma StartOfReading(decode: Decoder, file: seq<Byte>, since: nat, withTimeline: bool)
    requires since <= |file|
    ensures Between(file, since, since, []) && Kept(decode, [], withTimeline, Report(NOTHING, since, false, [], false))
  {
    assert [] + CompleteLines(file[since..]) == CompleteLines(file[since..]);
  }

  // ---- Polling a growing file ----

  function Models(a: map<string, nat>, b: map<string, nat>): map<string, nat> {
    map m | m in a.Keys + b.Keys :: Count(a, m) + Count(b, m)
  }

  // What a caller that adds up successive reports holds.
  function Plus(a: Tally, b: Tally): Tally {
    Tally(a.lines + b.lines, a.responses + b.responses,
          a.input + b.input, a.cacheCreation + b.cacheCreation, a.cacheRead + b.cacheRead, a.output + b.output,
          Models(a.models, b.models),
          if a.windowStart.Some? then a.windowStart else b.windowStart,
          if b.windowEnd.Some? then b.windowEnd else a.windowEnd)
  }

  lemma PlusRead(a: Tally, b: Tally, d: Decoded)
    ensures Plus(a, b.Read(d)) == Plus(a, b).Read(d)
  {
    hide Plus, Tally.Line, Tally.Stamped, Tally.Spent;
    PlusLine(a, b);
    if d.Record? {
      PlusStamped(a, b.Line(), d.stamp);
      PlusSpent(a, b.Line().Stamped(d.stamp), d.usage);
    }
  }

  lemma PlusLine(a: Tally, b: Tally)
    ensures Plus(a, b.Line()) == Plus(a, b).Line()
  {
    hide Models;
  }

  lemma PlusStamped(a: Tally, b: Tally, stamp: Option<string>)
    ensures Plus(a, b.Stamped(stamp)) == Plus(a, b).Stamped(stamp)
  {
    hide Models;
  }

  lemma PlusSpent(a: Tally, b: Tally, usage: Option<Usage>)
    ensures Plus(a, b.Spent(usage)) == Plus(a, b).Spent(usage)
  {
    hide Models, Count, ModelOf, Or0;
    if usage.Some? {
      MoreModels(a.models, b.models, ModelOf(usage.value));
    }
  }

  lemma MoreModels(a: map<string, nat>, b: map<string, nat>, model: string)
    ensures Models(a, b[model := Count(b, model) + 1]) == Models(a, b)[model := Count(Models(a, b), model) + 1]
  {
  }

  lemma {:induction false} TallyConcat(decode: Decoder, a: seq<seq<Byte>>, b: seq<seq<Byte>>)
    ensures Tallied(decode, a + b) == Plus(Tallied(decode, a), Tallied(decode, b))
  {
    hide Tally.Read;
    if b == [] {
      assert a + b == a;
      PlusNothing(Tallied(decode, a));
    } else {
      var init, last := b[..|b| - 1], b[|b| - 1];
      TallyConcat(decode, a, init);
      PlusRead(Tallied(decode, a), Tallied(decode, init), decode(last));
      assert (a + b)[..|a + b| - 1] == a + init;
      hide Plus;
    }
  }

  lemma PlusNothing(a: Tally)
    ensures Plus(a, NOTHING) == a
  {
    assert Plus(a, NOTHING).models == a.models;
  }

  datatype Step = Append(bytes: seq<Byte>) | Poll

  // The file, the offset the caller passes back, and what it has added up.
  datatype Meter = Meter(file: seq<Byte>, cursor: nat, total: Tally)

  function Apply(decode: Decoder, m: Meter, step: Step): Meter {
    match step
    case Append(bytes) => m.(file := m.file + bytes)
    case Poll =>
      if m.cursor > |m.file| then m.(cursor := 0)
      else m.(cursor := Cursor(m.file, m.cursor), total := Plus(m.total, Tallied(decode, CompleteLines(m.file[m.cursor..]))))
  }

  function Run(decode: Decoder, m: Meter, steps: seq<Step>): Meter
    decreases |steps|
  {
    if steps == [] then m else Run(decode, Apply(decode, m, steps[0]), steps[1..])
  }

  // `Poll` is what adding the report of one collection does.
  lemma PollAddsTheReport(decode: Decoder, m: Meter, r: Report)
    requires Reports(decode, m.file, m.cursor, false, r)
    ensures Apply(decode, m, Poll) == m.(cursor := r.nextOffset, total := Plus(m.total, r.tally))
  {
    PlusNothing(m.total);
  }

  predicate Exact(decode: Decoder, m: Meter) {
    IsBoundary(m.file, m.cursor) && m.total == Tallied(decode, CompleteLines(m.file[..m.cursor]))
  }

  lemma StepKeepsExact(decode: Decoder, m: Meter, step: Step)
    requires Exact(decode, m)
    ensures Exact(decode, Apply(decode, m, step))
  {
    hide Tallied, CompleteLines, Plus, Cursor, Clear;
    match step {
      case Append(bytes) =>
        assert (m.file + bytes)[..m.cursor] == m.file[..m.cursor];
      case Poll =>
        CursorIsLastBoundary(m.file, m.cursor);
        LinesUpToCursor(m.file, m.cursor);
        TallyConcat(decode, CompleteLines(m.file[..m.cursor]), CompleteLines(m.file[m.cursor..]));
    }
  }

  // Exactly-once accounting, for every schedule of appends, half lines
  // included, and polls: the totals always are those of the complete lines
  // before the cursor, and the cursor never rests inside a line.
  lemma {:induction false} EveryScheduleIsExact(decode: Decoder, m: Meter, steps: seq<Step>)
    requires Exact(decode, m)
    ensures Exact(decode, Run(decode, m, steps))
    decreases |steps|
  {
    hide Exact, Apply;
    if steps != [] {
      StepKeepsExact(decode, m, steps[0]);
      EveryScheduleIsExact(decode, Apply(decode, m, steps[0]), steps[1..]);
    }
  }

  // After a final poll, the totals are those of one reading from offset 0.
  lemma FinalPollIsOneReading(decode: Decoder, steps: seq<Step>, r: Report)
    requires var m := Run(decode, Meter([], 0, NOTHING), steps); Reports(decode, m.file, 0, false, r)
    ensures var m := Run(decode, Meter([], 0, NOTHING), steps);
            Apply(decode, m, Poll) == Meter(m.file, r.nextOffset, r.tally)
  {
    var start := Meter([], 0, NOTHING);
    assert Exact(decode, start);
    EveryScheduleIsExact(decode, start, steps);
    var m := Run(decode, start, steps);
    hide Run;
    StepKeepsExact(decode, m, Poll);
    WholeReading(decode, m.file, m.cursor, r);
    hide Tallied, Plus, Cursor, CompleteLines, Reports, Clear;
  }

  // A cursor that has caught up has seen what one reading sees.
  lemma WholeReading(decode: Decoder, file: seq<Byte>, cursor: nat, r: Report)
    requires IsBoundary(file, cursor) && Reports(decode, file, 0, false, r)
    ensures r.nextOffset == Cursor(file, cursor) <= |file|
    ensures r.tally == Tallied(decode, CompleteLines(file[..Cursor(file, cursor)]))
  {
    hide Tallied, CompleteLines, Listed;
    CursorIsLastBoundary(file, cursor);
    CursorIsLastBoundary(file, 0);
    CursorsAgree(file, Cursor(file, cursor), Cursor(file, 0));
    LinesUpToCursor(file, cursor);
    assert file[0..] == file;
  }

  // There is one boundary with no newline after it.
  lemma CursorsAgree(file: seq<Byte>, a: nat, b: nat)
    requires IsBoundary(file, a) && Clear(file, a, |file|)
    requires IsBoundary(file, b) && Clear(file, b, |file|)
    ensures a == b
  {
  }
}
