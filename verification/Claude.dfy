/** `collect_claude`: streamed duplicates canonicalised by (requestId, message.id). */
module Claude {
  import opened Options
  import opened Sums
  import opened Percent
  import opened Windows
  import opened Gaps
  import opened Counters

  datatype RawUsage = RawUsage(input: Field, cacheWrite: Field, cacheRead: Field, output: Field)

  datatype Usage = Usage(input: nat, cacheWrite: nat, cacheRead: nat, output: nat) {
    function Total(): nat {
      input + cacheWrite + cacheRead + output
    }
  }

  /** What the line iterator yields over all transcripts, in path order: a file that
      fails to read, a line that is not a JSON object, or a decoded object. In an
      object, `None` stands for a field of the wrong type and an empty `session`
      for a missing one. */
  datatype Line =
    | Unreadable
    | InvalidJson(ts: Option<int>)
    | Object(assistant: bool, hasMessage: bool, ts: Option<int>, requestId: Option<string>,
             messageId: Option<string>, usage: Option<RawUsage>, tools: set<string>,
             session: string, cwd: Option<string>)

  datatype Key = Key(request: string, message: string)

  // An accepted usage record.
  datatype Sample = Sample(key: Key, ts: int, usage: Usage, tools: set<string>, session: string, cwd: Option<string>)

  datatype Entry = Entry(ts: int, usage: Usage, tools: set<string>, session: string, cwd: Option<string>)

  predicate IsUsageRecord(line: Line) {
    line.Object? && line.assistant && line.hasMessage
  }

  // The record before the window's end that the collector refuses.
  predicate IsMalformed(line: Line, end: int) {
    IsUsageRecord(line) && (line.ts.None? || (line.ts.value <= end && Decode(line).None?))
  }

  function Vector(u: RawUsage): Option<Usage> {
    var i, w, r, o := u.input.CounterOrZero(), u.cacheWrite.CounterOrZero(), u.cacheRead.CounterOrZero(), u.output.CounterOrZero();
    if i.None? || w.None? || r.None? || o.None? then None
    else Some(Usage(i.value, w.value, r.value, o.value))
  }

  function Decode(line: Line): Option<Sample> {
    if !IsUsageRecord(line) || line.ts.None? then None
    else if line.requestId.None? || line.requestId.value == "" then None
    else if line.messageId.None? || line.messageId.value == "" then None
    else if line.usage.None? then None
    else
      var v := Vector(line.usage.value);
      if v.None? then None
      else Some(Sample(Key(line.requestId.value, line.messageId.value), line.ts.value, v.value,
                       line.tools, line.session, line.cwd))
  }

  // Every sample of the transcripts up to an instant, in reading order.
  function Samples(lines: seq<Line>, end: int): seq<Sample> {
    if lines == [] then []
    else
      var last := lines[|lines| - 1];
      var before := Samples(lines[..|lines| - 1], end);
      var s := Decode(last);
      if s.Some? && s.value.ts <= end then before + [s.value] else before
  }

  function NameSession(raw: string, fallback: string): string {
    if raw != "" then raw else fallback
  }

  function Open(s: Sample): Entry {
    Entry(s.ts, s.usage, s.tools, NameSession(s.session, "unknown"), s.cwd)
  }

  function Merge(e: Entry, s: Sample): Entry {
    var ts := if s.ts < e.ts then s.ts else e.ts;
    if s.usage.Total() >= e.usage.Total() then
      Entry(ts, s.usage, e.tools + s.tools, NameSession(s.session, e.session), if s.cwd.Some? then s.cwd else e.cwd)
    else
      Entry(ts, e.usage, e.tools + s.tools, e.session, e.cwd)
  }

  function Add(table: map<Key, Entry>, s: Sample): map<Key, Entry> {
    table[s.key := if s.key in table then Merge(table[s.key], s) else Open(s)]
  }

  function Canonical(samples: seq<Sample>): map<Key, Entry> {
    if samples == [] then map[]
    else Add(Canonical(samples[..|samples| - 1]), samples[|samples| - 1])
  }

  // ---- What canonicalisation means, independently of the order of reading ----

  ghost predicate Summarises(e: Entry, k: Key, samples: set<Sample>) {
    && (exists s :: s in samples && s.key == k && s.ts == e.ts)
    && (exists s :: s in samples && s.key == k && s.usage == e.usage)
    && (forall s :: s in samples && s.key == k ==> e.ts <= s.ts && s.usage.Total() <= e.usage.Total())
    && (forall name :: name in e.tools <==> exists s :: s in samples && s.key == k && name in s.tools)
  }

  ghost function SetOf(samples: seq<Sample>): set<Sample> {
    set s | s in samples
  }

  /** The kept timestamp is the earliest, the kept usage is one observed vector of
      maximal total (never a field-wise mix), the kept tools are the union. */
  lemma {:induction false} CanonicalSummarises(samples: seq<Sample>)
    ensures forall k :: k in Canonical(samples) <==> exists s :: s in samples && s.key == k
    ensures forall k :: k in Canonical(samples) ==> Summarises(Canonical(samples)[k], k, SetOf(samples))
  {
    if samples != [] {
      var front, last := samples[..|samples| - 1], samples[|samples| - 1];
      assert samples == front + [last];
      CanonicalSummarises(front);
      var before, after := Canonical(front), Canonical(samples);
      assert SetOf(samples) == SetOf(front) + {last};
      forall k | k in after ensures Summarises(after[k], k, SetOf(samples)) {
        if k != last.key {
          SummaryUnaffected(after[k], k, SetOf(front), last);
        } else if k in before {
          SummaryMerges(before[k], SetOf(front), last);
        } else {
          SummaryOpens(SetOf(front), last);
        }
      }
    }
  }

  lemma SummaryUnaffected(e: Entry, k: Key, samples: set<Sample>, last: Sample)
    requires Summarises(e, k, samples) && last.key != k
    ensures Summarises(e, k, samples + {last})
  {
    var after := samples + {last};
    var a :| a in samples && a.key == k && a.ts == e.ts;
    var b :| b in samples && b.key == k && b.usage == e.usage;
    assert a in after && b in after;
    assert forall s :: s in after && s.key == k ==> s in samples;
    assert forall s :: s in samples ==> s in after;
  }

  lemma SummaryMerges(e: Entry, samples: set<Sample>, last: Sample)
    requires Summarises(e, last.key, samples)
    ensures Summarises(Merge(e, last), last.key, samples + {last})
  {
    var after, m := samples + {last}, Merge(e, last);
    var a :| a in samples && a.key == last.key && a.ts == e.ts;
    var b :| b in samples && b.key == last.key && b.usage == e.usage;
    assert a in after && b in after && last in after;
    forall name ensures name in m.tools <==> exists s :: s in after && s.key == last.key && name in s.tools {
      if name in e.tools {
        var s :| s in samples && s.key == last.key && name in s.tools;
        assert s in after;
      }
    }
  }

  lemma SummaryOpens(samples: set<Sample>, last: Sample)
    requires forall s :: s in samples ==> s.key != last.key
    ensures Summarises(Open(last), last.key, samples + {last})
  {
    assert last in samples + {last};
  }

  // ---- Window totals ----

  function Counted(table: map<Key, Entry>, w: Window): map<Key, Entry> {
    map k | k in table && w.start <= table[k].ts <= w.end :: table[k]
  }

  function Turns(counted: map<Key, Entry>): map<Key, nat> {
    map k | k in counted :: counted[k].usage.Total()
  }

  predicate IsWaitTool(name: string) {
    exists i :: 0 <= i <= |name| && WAIT <= name[i..]
  }

  const WAIT := "disc_wait_for_peer"

  predicate Waits(e: Entry) {
    exists name :: name in e.tools && IsWaitTool(name)
  }

  function WaitTurns(counted: map<Key, Entry>): map<Key, nat> {
    map k | k in counted && Waits(counted[k]) :: counted[k].usage.Total()
  }

  ghost function CountedIn(lines: seq<Line>, w: Window): map<Key, Entry> {
    Counted(Canonical(Samples(lines, w.end)), w)
  }

  ghost function Raw(lines: seq<Line>, w: Window): nat {
    SumMap(Turns(CountedIn(lines, w)))
  }

  // ---- Permuting or duplicating records changes nothing that is counted ----

  lemma {:induction false} SampleMembers(lines: seq<Line>, end: int)
    ensures forall s :: s in Samples(lines, end) <==>
              exists line :: line in lines && Decode(line) == Some(s) && s.ts <= end
  {
    if lines != [] {
      var front, last := lines[..|lines| - 1], lines[|lines| - 1];
      assert lines == front + [last];
      SampleMembers(front, end);
      assert forall line :: line in lines <==> line in front || line == last;
    }
  }

  lemma SameEntries(a: seq<Sample>, b: seq<Sample>, k: Key)
    requires SetOf(a) == SetOf(b) && k in Canonical(a)
    ensures k in Canonical(b)
    ensures var x, y := Canonical(a)[k], Canonical(b)[k];
            x.ts == y.ts && x.usage.Total() == y.usage.Total() && x.tools == y.tools
  {
    CanonicalSummarises(a);
    CanonicalSummarises(b);
    var s :| s in a && s.key == k;
    assert s in SetOf(b);
  }

  lemma SameSamples(lines: seq<Line>, lines': seq<Line>, end: int)
    requires forall line :: line in lines <==> line in lines'
    ensures SetOf(Samples(lines, end)) == SetOf(Samples(lines', end))
  {
    SampleMembers(lines, end);
    SampleMembers(lines', end);
  }

  // The parts of two calls that the accounting reads agree.
  ghost predicate Alike(x: map<Key, Entry>, y: map<Key, Entry>) {
    forall k :: k in x || k in y ==>
      k in x && k in y && x[k].ts == y[k].ts && x[k].usage.Total() == y[k].usage.Total() && x[k].tools == y[k].tools
  }

  lemma AlikeCount(x: map<Key, Entry>, y: map<Key, Entry>, w: Window)
    requires Alike(x, y)
    ensures Turns(Counted(x, w)) == Turns(Counted(y, w))
    ensures WaitTurns(Counted(x, w)) == WaitTurns(Counted(y, w))
  {
  }

  /** Raw traffic, calls, wait calls and wait tokens depend only on which records
      occur, not on their order or multiplicity. */
  lemma OrderAndDuplicatesIrrelevant(lines: seq<Line>, lines': seq<Line>, w: Window)
    requires forall line :: line in lines <==> line in lines'
    ensures Turns(CountedIn(lines, w)) == Turns(CountedIn(lines', w))
    ensures WaitTurns(CountedIn(lines, w)) == WaitTurns(CountedIn(lines', w))
  {
    SameSamples(lines, lines', w.end);
    var a, b := Samples(lines, w.end), Samples(lines', w.end);
    hide Canonical, SetOf, Turns, WaitTurns, Counted;
    forall k | k in Canonical(a) || k in Canonical(b)
      ensures k in Canonical(a) && k in Canonical(b)
      ensures Canonical(a)[k].ts == Canonical(b)[k].ts
      ensures Canonical(a)[k].usage.Total() == Canonical(b)[k].usage.Total()
      ensures Canonical(a)[k].tools == Canonical(b)[k].tools
    {
      if k in Canonical(a) {
        SameEntries(a, b, k);
      } else {
        SameEntries(b, a, k);
      }
    }
    AlikeCount(Canonical(a), Canonical(b), w);
  }

  // ---- Windows ----

  // The earliest accepted instant of a call, over the whole history.
  ghost predicate IsEarliest(lines: seq<Line>, k: Key, ts: int) {
    && (exists line :: line in lines && Decode(line).Some? && Decode(line).value.key == k && Decode(line).value.ts == ts)
    && (forall line :: line in lines && Decode(line).Some? && Decode(line).value.key == k ==> ts <= Decode(line).value.ts)
  }

  // A call is counted in a window exactly when the window holds its earliest instant.
  lemma CountedExactlyWhereItStarts(lines: seq<Line>, k: Key, ts: int, w: Window)
    requires IsEarliest(lines, k, ts)
    ensures k in CountedIn(lines, w) <==> w.start <= ts <= w.end
  {
    var samples := Samples(lines, w.end);
    SampleMembers(lines, w.end);
    CanonicalSummarises(samples);
    var line :| line in lines && Decode(line).Some? && Decode(line).value.key == k && Decode(line).value.ts == ts;
    if ts <= w.end {
      assert Decode(line).value in samples;
      var e := Canonical(samples)[k];
      assert e.ts == ts by {
        assert Decode(line).value in SetOf(samples);
        var s :| s in SetOf(samples) && s.key == k && s.ts == e.ts;
      }
    } else {
      forall s | s in samples ensures s.key != k {
        assert exists l :: l in lines && Decode(l) == Some(s) && s.ts <= w.end;
      }
    }
  }

  lemma EarliestOfCounted(lines: seq<Line>, k: Key, w: Window)
    requires k in CountedIn(lines, w)
    ensures IsEarliest(lines, k, CountedIn(lines, w)[k].ts)
  {
    var samples := Samples(lines, w.end);
    SampleMembers(lines, w.end);
    CanonicalSummarises(samples);
    var e := Canonical(samples)[k];
    var s :| s in SetOf(samples) && s.key == k && s.ts == e.ts;
    var line :| line in lines && Decode(line) == Some(s) && s.ts <= w.end;
    forall l | l in lines && Decode(l).Some? && Decode(l).value.key == k ensures e.ts <= Decode(l).value.ts {
      if Decode(l).value.ts <= w.end {
        assert Decode(l).value in SetOf(samples);
      }
    }
  }

  // A wider window counts at least as much for every call a narrower one counts.
  lemma WiderCountsMore(lines: seq<Line>, k: Key, narrow: Window, wide: Window)
    requires k in CountedIn(lines, narrow)
    requires wide.start <= narrow.start && narrow.end <= wide.end
    ensures k in CountedIn(lines, wide)
    ensures CountedIn(lines, narrow)[k].usage.Total() <= CountedIn(lines, wide)[k].usage.Total()
  {
    EarliestOfCounted(lines, k, narrow);
    CountedExactlyWhereItStarts(lines, k, CountedIn(lines, narrow)[k].ts, wide);
    var a, b := Samples(lines, narrow.end), Samples(lines, wide.end);
    SampleMembers(lines, narrow.end);
    SampleMembers(lines, wide.end);
    CanonicalSummarises(a);
    CanonicalSummarises(b);
    var s :| s in SetOf(a) && s.key == k && s.usage == Canonical(a)[k].usage;
    assert s in SetOf(b);
  }

  ghost predicate Disjoint(windows: seq<Window>) {
    forall i, j :: 0 <= i < j < |windows| ==> windows[i].end < windows[j].start || windows[j].end < windows[i].start
  }

  // No call is counted in two disjoint windows.
  lemma CountedAtMostOnce(lines: seq<Line>, k: Key, windows: seq<Window>, i: nat, j: nat)
    requires Disjoint(windows) && i < |windows| && j < |windows|
    requires k in CountedIn(lines, windows[i]) && k in CountedIn(lines, windows[j])
    ensures i == j
  {
    EarliestOfCounted(lines, k, windows[i]);
    CountedExactlyWhereItStarts(lines, k, CountedIn(lines, windows[i])[k].ts, windows[j]);
  }

  ghost function RawOver(lines: seq<Line>, windows: seq<Window>): nat {
    if windows == [] then 0 else Raw(lines, windows[0]) + RawOver(lines, windows[1..])
  }

  /** The raw totals of disjoint windows sum to at most the raw total of any
      window that contains them all. */
  lemma DisjointWindowsSumWithin(lines: seq<Line>, windows: seq<Window>, wide: Window)
    requires Disjoint(windows)
    requires forall i :: 0 <= i < |windows| ==> wide.start <= windows[i].start && windows[i].end <= wide.end
    ensures RawOver(lines, windows) <= Raw(lines, wide)
  {
    var all := Turns(CountedIn(lines, wide));
    forall i, k | 0 <= i < |windows| && k in CountedIn(lines, windows[i]) ensures k in all {
      WiderCountsMore(lines, k, windows[i], wide);
    }
    PartsWithin(lines, windows, wide, all);
  }

  // Peels one window off at a time; what is left of `budget` still covers the others.
  lemma {:induction false} PartsWithin(lines: seq<Line>, windows: seq<Window>, wide: Window, budget: map<Key, nat>)
    requires Disjoint(windows)
    requires forall i :: 0 <= i < |windows| ==> wide.start <= windows[i].start && windows[i].end <= wide.end
    requires forall i, k :: 0 <= i < |windows| && k in CountedIn(lines, windows[i]) ==>
               k in budget && (k in CountedIn(lines, wide) ==> budget[k] == CountedIn(lines, wide)[k].usage.Total())
    ensures RawOver(lines, windows) <= SumMap(budget)
    decreases |windows|
  {
    hide CountedIn;
    if windows != [] {
      var w, others := windows[0], windows[1..];
      var part := Turns(CountedIn(lines, w));
      var left := map k | k in budget && k !in part :: budget[k];
      forall k | k in part ensures k in budget && part[k] <= budget[k] {
        WiderCountsMore(lines, k, w, wide);
      }
      forall i, k | 0 <= i < |others| && k in CountedIn(lines, others[i]) ensures k in left {
        assert others[i] == windows[i + 1];
        if k in part {
          CountedAtMostOnce(lines, k, windows, 0, i + 1);
        }
        assert k in CountedIn(lines, windows[i + 1]);
      }
      PartsWithin(lines, others, wide, left);
      SumMapDisjointParts(part, left, budget);
    }
  }

  // ---- Totals by component and by session ----

  datatype Column = Input | CacheWrite | CacheRead | Output {
    function Of(u: Usage): nat {
      match this
      case Input => u.input
      case CacheWrite => u.cacheWrite
      case CacheRead => u.cacheRead
      case Output => u.output
    }
  }

  ghost function ColumnSum(counted: map<Key, Entry>, c: Column): nat {
    SumMap(map k | k in counted :: c.Of(counted[k].usage))
  }

  function TurnsOf(counted: map<Key, Entry>, session: string): map<Key, nat> {
    map k | k in counted && counted[k].session == session :: counted[k].usage.Total()
  }

  ghost function Sessions(counted: map<Key, Entry>): set<string> {
    set k | k in counted :: counted[k].session
  }

  ghost function PerSession(counted: map<Key, Entry>): map<string, nat> {
    map s | s in Sessions(counted) :: SumMap(TurnsOf(counted, s))
  }

  ghost function RepoSessions(counted: map<Key, Entry>, filter: string): set<string> {
    set k | k in counted && InRepo(counted[k], filter) :: counted[k].session
  }

  ghost function RepoOf(counted: map<Key, Entry>, filter: string): set<string> {
    if filter != "" then RepoSessions(counted, filter) else {}
  }

  predicate InRepo(e: Entry, filter: string) {
    e.cwd.Some? && exists i :: 0 <= i <= |e.cwd.value| && filter <= e.cwd.value[i..]
  }

  function Get(m: map<string, nat>, s: string): nat {
    if s in m then m[s] else 0
  }

  lemma SessionsAdd(done: map<Key, Entry>, k: Key, e: Entry)
    requires k !in done
    ensures Sessions(done[k := e]) == Sessions(done) + {e.session}
  {
    var after := done[k := e];
    forall s | s in Sessions(done) + {e.session} ensures s in Sessions(after) {
      if s == e.session {
        assert after[k].session == s;
      } else {
        var j :| j in done && done[j].session == s;
        assert after[j].session == s;
      }
    }
  }

  lemma TurnsOfAdd(done: map<Key, Entry>, k: Key, e: Entry, s: string)
    requires k !in done
    ensures SumMap(TurnsOf(done[k := e], s)) == SumMap(TurnsOf(done, s)) + (if s == e.session then e.usage.Total() else 0)
  {
    var before, after := TurnsOf(done, s), TurnsOf(done[k := e], s);
    if s == e.session {
      assert after == before[k := e.usage.Total()];
      SumMapPut(before, k, e.usage.Total());
    } else {
      assert after == before;
    }
  }

  lemma UnknownSession(counted: map<Key, Entry>, s: string)
    requires s !in Sessions(counted)
    ensures SumMap(TurnsOf(counted, s)) == 0
  {
    assert TurnsOf(counted, s) == map[];
  }

  lemma PerSessionAt(counted: map<Key, Entry>, s: string)
    ensures PerSession(counted).Keys == Sessions(counted)
    ensures Get(PerSession(counted), s) == SumMap(TurnsOf(counted, s))
  {
    if s !in Sessions(counted) {
      UnknownSession(counted, s);
    }
  }

  lemma SameAfterPut(before: map<string, nat>, after: map<string, nat>, s: string, v: nat)
    requires after.Keys == before.Keys + {s}
    requires forall x :: Get(after, x) == if x == s then v else Get(before, x)
    ensures after == before[s := v]
  {
    forall x | x in after ensures after[x] == before[s := v][x] {
      assert Get(after, x) == after[x];
    }
  }

  lemma PerSessionAdd(done: map<Key, Entry>, k: Key, e: Entry)
    requires k !in done
    ensures PerSession(done[k := e]) == PerSession(done)[e.session := Get(PerSession(done), e.session) + e.usage.Total()]
  {
    hide PerSession, Sessions, TurnsOf, Get;
    var before, after := PerSession(done), PerSession(done[k := e]);
    var v := Get(before, e.session) + e.usage.Total();
    forall x ensures Get(after, x) == if x == e.session then v else Get(before, x) {
      PerSessionAt(done, x);
      PerSessionAt(done[k := e], x);
      TurnsOfAdd(done, k, e, x);
    }
    PerSessionAt(done, e.session);
    PerSessionAt(done[k := e], e.session);
    SessionsAdd(done, k, e);
    SameAfterPut(before, after, e.session, v);
  }

  lemma ColumnAdd(done: map<Key, Entry>, k: Key, e: Entry, c: Column)
    requires k !in done
    ensures ColumnSum(done[k := e], c) == ColumnSum(done, c) + c.Of(e.usage)
  {
    var before := map j | j in done :: c.Of(done[j].usage);
    var after := done[k := e];
    assert (map j | j in after :: c.Of(after[j].usage)) == before[k := c.Of(e.usage)];
    SumMapPut(before, k, c.Of(e.usage));
  }

  lemma TurnsAdd(done: map<Key, Entry>, k: Key, e: Entry)
    requires k !in done
    ensures SumMap(Turns(done[k := e])) == SumMap(Turns(done)) + e.usage.Total()
  {
    assert Turns(done[k := e]) == Turns(done)[k := e.usage.Total()];
    SumMapPut(Turns(done), k, e.usage.Total());
  }

  lemma WaitTurnsAdd(done: map<Key, Entry>, k: Key, e: Entry)
    requires k !in done
    ensures SumMap(WaitTurns(done[k := e])) == SumMap(WaitTurns(done)) + (if Waits(e) then e.usage.Total() else 0)
    ensures |WaitTurns(done[k := e])| == |WaitTurns(done)| + (if Waits(e) then 1 else 0)
  {
    var before, after := WaitTurns(done), WaitTurns(done[k := e]);
    if Waits(e) {
      assert after == before[k := e.usage.Total()];
      SumMapPut(before, k, e.usage.Total());
    } else {
      assert after == before;
    }
  }

  /** The components and the sessions both partition the raw traffic, and there
      are at most as many sessions as calls. */
  lemma PartitionsOfRaw(counted: map<Key, Entry>)
    ensures ColumnSum(counted, Input) + ColumnSum(counted, CacheWrite) + ColumnSum(counted, CacheRead)
          + ColumnSum(counted, Output) == SumMap(Turns(counted))
    ensures SumMap(PerSession(counted)) == SumMap(Turns(counted))
    ensures |PerSession(counted)| <= |counted|
  {
    ColumnsPartition(counted);
    SessionsPartition(counted);
  }

  lemma {:induction false} ColumnsPartition(counted: map<Key, Entry>)
    ensures ColumnSum(counted, Input) + ColumnSum(counted, CacheWrite) + ColumnSum(counted, CacheRead)
          + ColumnSum(counted, Output) == SumMap(Turns(counted))
    decreases |counted|
  {
    if counted != map[] {
      var k :| k in counted;
      var rest, e := counted - {k}, counted[k];
      assert rest.Keys == counted.Keys - {k} && counted == rest[k := e];
      ColumnsPartition(rest);
      ColumnAdd(rest, k, e, Input);
      ColumnAdd(rest, k, e, CacheWrite);
      ColumnAdd(rest, k, e, CacheRead);
      ColumnAdd(rest, k, e, Output);
      TurnsAdd(rest, k, e);
    }
  }

  lemma NoSessions(none: map<Key, Entry>)
    requires none == map[]
    ensures SumMap(PerSession(none)) == SumMap(Turns(none)) && |PerSession(none)| == 0
  {
    assert PerSession(none) == map[];
  }

  lemma PutSize<K, V>(m: map<K, V>, k: K, v: V)
    ensures |m[k := v]| <= |m| + 1
  {
    assert m[k := v].Keys == m.Keys + {k};
    assert |m.Keys + {k}| <= |m.Keys| + 1;
  }

  // One more call keeps the totals equal and the sessions within the calls.
  lemma SessionsStep(rest: map<Key, Entry>, k: Key, e: Entry)
    requires k !in rest
    requires SumMap(PerSession(rest)) == SumMap(Turns(rest)) && |PerSession(rest)| <= |rest|
    ensures SumMap(PerSession(rest[k := e])) == SumMap(Turns(rest[k := e]))
    ensures |PerSession(rest[k := e])| <= |rest[k := e]|
  {
    hide PerSession, Turns, SumMap, Get;
    TurnsAdd(rest, k, e);
    PerSessionAdd(rest, k, e);
    var before := PerSession(rest);
    GetIs(before, e.session);
    SumMapPut(before, e.session, Get(before, e.session) + e.usage.Total());
    PutSize(before, e.session, Get(before, e.session) + e.usage.Total());
  }

  lemma {:induction false} SessionsPartition(counted: map<Key, Entry>)
    ensures SumMap(PerSession(counted)) == SumMap(Turns(counted))
    ensures |PerSession(counted)| <= |counted|
    decreases |counted|
  {
    hide PerSession, Turns, SumMap;
    if counted == map[] {
      NoSessions(counted);
    } else {
      var k :| k in counted;
      var rest := counted - {k};
      assert rest.Keys == counted.Keys - {k} && counted == rest[k := counted[k]];
      SessionsPartition(rest);
      SessionsStep(rest, k, counted[k]);
    }
  }

  lemma GetIs(m: map<string, nat>, s: string)
    ensures Get(m, s) == if s in m then m[s] else 0
  {
  }

  // ---- The collector ----

  datatype Metrics = Metrics(
    raw: Option<int>,
    cost: Option<int>,
    nonCached: Option<int>,
    cacheWrite: Option<int>,
    cacheRead: Option<int>,
    output: Option<int>,
    calls: Option<int>,
    sessions: Option<int>,
    top1: Option<int>,
    top4: Option<int>,
    repoShare: Option<int>,
    waitCalls: Option<int>,
    waitTokens: Option<int>)

  const EMPTY := Metrics(None, None, None, None, None, None, None, None, None, None, None, None, None)

  // `repoNotRequested` is the collector's one null-reason override.
  datatype Result = Result(metrics: Metrics, from: Option<int>, to: Option<int>, gaps: seq<Message>, repoNotRequested: bool)

  function UnreadableFiles(lines: seq<Line>): nat {
    if lines == [] then 0
    else UnreadableFiles(lines[..|lines| - 1]) + (if lines[|lines| - 1].Unreadable? then 1 else 0)
  }

  function InvalidLines(lines: seq<Line>, w: Window): nat {
    if lines == [] then 0
    else
      var last := lines[|lines| - 1];
      InvalidLines(lines[..|lines| - 1], w) + (if last.InvalidJson? && w.Contains(last.ts) then 1 else 0)
  }

  ghost predicate SpansEntries(counted: map<Key, Entry>, from: Option<int>, to: Option<int>) {
    && (from.None? <==> counted == map[])
    && (from.Some? <==> to.Some?)
    && (from.Some? ==>
          && (exists k :: k in counted && counted[k].ts == from.value)
          && (exists k :: k in counted && counted[k].ts == to.value)
          && (forall k :: k in counted ==> from.value <= counted[k].ts <= to.value))
  }

  ghost function RepoTraffic(counted: map<Key, Entry>, filter: string): nat {
    SumMap(Selected(PerSession(counted), RepoOf(counted, filter)))
  }

  ghost function RepoPart(counted: map<Key, Entry>, repoFilter: Option<string>): Option<nat> {
    if repoFilter.Some? && repoFilter.value != "" then Some(RepoTraffic(counted, repoFilter.value)) else None
  }

  function TopShare(ranked: seq<nat>, n: nat, raw: nat): Option<nat> {
    Pct(if ranked == [] then None else Some(SumFirst(ranked, n)), raw)
  }

  ghost predicate Measures(m: Metrics, counted: map<Key, Entry>, repoFilter: Option<string>, ranked: seq<nat>) {
    var raw := SumMap(Turns(counted));
    && Ranks(ranked, Bag(PerSession(counted)), raw) && |ranked| == |PerSession(counted)|
    && m == Metrics(Some(raw), None, Some(ColumnSum(counted, Input)), Some(ColumnSum(counted, CacheWrite)),
                    Some(ColumnSum(counted, CacheRead)), Some(ColumnSum(counted, Output)), Some(|counted|),
                    Some(|ranked|), TopShare(ranked, 1, raw), TopShare(ranked, 4, raw),
                    Pct(RepoPart(counted, repoFilter), raw),
                    Some(|WaitTurns(counted)|), Some(SumMap(WaitTurns(counted))))
  }

  function QualityGaps(invalid: nat, malformed: bool): seq<Message> {
    (if invalid > 0 then [ClaudeInvalidJson(invalid)] else []) + (if malformed then [ClaudeMalformed] else [])
  }

  ghost predicate Describes(r: Result, dirExists: bool, lines: seq<Line>, w: Window, repoFilter: Option<string>) {
    if !dirExists then r == Result(EMPTY, None, None, [ClaudeDirMissing], false)
    else if UnreadableFiles(lines) > 0 then
      r == Result(EMPTY, None, None, [ClaudeUnreadable(UnreadableFiles(lines))], false)
    else
      && (exists ranked :: Measures(r.metrics, CountedIn(lines, w), repoFilter, ranked))
      && SpansEntries(CountedIn(lines, w), r.from, r.to)
      && r.gaps == QualityGaps(InvalidLines(lines, w), exists line :: line in lines && IsMalformed(line, w.end))
      && r.repoNotRequested == repoFilter.None?
  }

  // One decoded object, branch by branch.
  method ReadObject(canonical: map<Key, Entry>, line: Line, end: int)
    returns (after: map<Key, Entry>, malformed: bool)
    requires line.Object?
    ensures malformed <==> IsMalformed(line, end)
    ensures var s := Decode(line);
            after == if s.Some? && s.value.ts <= end then Add(canonical, s.value) else canonical
  {
    hide NameSession, Vector;
    after, malformed := canonical, false;
    if !line.assistant || !line.hasMessage {
      return;
    }
    if line.ts.None? {
      return canonical, true;
    }
    var ts := line.ts.value;
    if ts > end {
      return;
    }
    if line.requestId.None? || line.requestId.value == "" || line.messageId.None? || line.messageId.value == "" || line.usage.None? {
      return canonical, true;
    }
    var counters := Vector(line.usage.value);
    if counters.None? {
      return canonical, true;
    }
    var key, vector := Key(line.requestId.value, line.messageId.value), counters.value;
    if key !in canonical {
      after := canonical[key := Entry(ts, vector, line.tools, NameSession(line.session, "unknown"), line.cwd)];
      return;
    }
    var current := canonical[key];
    current := current.(ts := if ts < current.ts then ts else current.ts);
    current := current.(tools := current.tools + line.tools);
    if vector.Total() >= current.usage.Total() {
      current := current.(usage := vector);
      current := current.(session := NameSession(line.session, current.session));
      if line.cwd.Some? {
        current := current.(cwd := line.cwd);
      }
    }
    after := canonical[key := current];
  }

  lemma CanonicalStep(lines: seq<Line>, line: Line, end: int)
    ensures var s, before := Decode(line), Canonical(Samples(lines, end));
            Canonical(Samples(lines + [line], end)) == if s.Some? && s.value.ts <= end then Add(before, s.value) else before
  {
    hide Decode, Add;
    var samples := Samples(lines, end);
    assert (lines + [line])[..|lines|] == lines;
    var s := Decode(line);
    if s.Some? && s.value.ts <= end {
      assert (samples + [s.value])[..|samples|] == samples;
    }
  }

  // The scan that fills `canonical`.
  method Scan(lines: seq<Line>, w: Window)
    returns (canonical: map<Key, Entry>, unreadable: nat, invalid: nat, malformed: bool)
    ensures canonical == Canonical(Samples(lines, w.end))
    ensures unreadable == UnreadableFiles(lines) && invalid == InvalidLines(lines, w)
    ensures malformed <==> exists line :: line in lines && IsMalformed(line, w.end)
  {
    canonical, unreadable, invalid, malformed := map[], 0, 0, false;
    for i := 0 to |lines|
      invariant canonical == Canonical(Samples(lines[..i], w.end))
      invariant unreadable == UnreadableFiles(lines[..i]) && invalid == InvalidLines(lines[..i], w)
      invariant malformed <==> exists line :: line in lines[..i] && IsMalformed(line, w.end)
    {
      var line := lines[i];
      assert lines[..i + 1] == lines[..i] + [line] && lines[..i + 1][..i] == lines[..i];
      CanonicalStep(lines[..i], line, w.end);
      match line {
        case Unreadable => unreadable := unreadable + 1;
        case InvalidJson(ts) =>
          if w.Contains(ts) {
            invalid := invalid + 1;
          }
        case Object(_, _, _, _, _, _, _, _, _) =>
          var refused;
          canonical, refused := ReadObject(canonical, line, w.end);
          malformed := malformed || refused;
      }
    }
    assert lines[..|lines|] == lines;
  }

  // The running totals of the second loop.
  datatype Tally = Tally(totals: Usage, perSession: map<string, nat>, repoSessions: set<string>, calls: nat,
                         waitCalls: nat, waitTokens: nat, from: Option<int>, to: Option<int>)
  {
    ghost predicate Of(done: map<Key, Entry>, repoFilter: string) {
      && Figures(done)
      && perSession == PerSession(done)
      && repoSessions == RepoOf(done, repoFilter)
      && SpansEntries(done, from, to)
    }

    ghost predicate Figures(done: map<Key, Entry>) {
      && totals == Usage(ColumnSum(done, Input), ColumnSum(done, CacheWrite), ColumnSum(done, CacheRead), ColumnSum(done, Output))
      && calls == |done|
      && waitCalls == |WaitTurns(done)| && waitTokens == SumMap(WaitTurns(done))
    }
  }

  method Count(t: Tally, e: Entry, repoFilter: string, ghost done: map<Key, Entry>, ghost k: Key) returns (after: Tally)
    requires k !in done && t.Of(done, repoFilter)
    ensures after.Of(done[k := e], repoFilter)
  {
    hide ColumnSum, PerSession, RepoOf, WaitTurns, SpansEntries, Waits, InRepo, Tally.Figures;
    var turn := e.usage.Total();
    after := t.(from := EarlierOf(t.from, e.ts), to := LaterOf(t.to, e.ts));
    after := after.(totals := Usage(t.totals.input + e.usage.input, t.totals.cacheWrite + e.usage.cacheWrite,
                                    t.totals.cacheRead + e.usage.cacheRead, t.totals.output + e.usage.output));
    after := after.(calls := t.calls + 1);
    after := after.(perSession := t.perSession[e.session := Get(t.perSession, e.session) + turn]);
    if repoFilter != "" && InRepo(e, repoFilter) {
      after := after.(repoSessions := t.repoSessions + {e.session});
    }
    if Waits(e) {
      after := after.(waitCalls := t.waitCalls + 1, waitTokens := t.waitTokens + turn);
    }
    FiguresAdd(t, after, done, k, e);
    PerSessionAdd(done, k, e);
    SpansAdd(done, k, e, t.from, t.to);
    RepoOfAdd(done, k, e, repoFilter);
  }

  lemma FiguresAdd(t: Tally, after: Tally, done: map<Key, Entry>, k: Key, e: Entry)
    requires k !in done && t.Figures(done)
    requires after.totals == Usage(t.totals.input + e.usage.input, t.totals.cacheWrite + e.usage.cacheWrite,
                                   t.totals.cacheRead + e.usage.cacheRead, t.totals.output + e.usage.output)
    requires after.calls == t.calls + 1
    requires after.waitCalls == t.waitCalls + (if Waits(e) then 1 else 0)
    requires after.waitTokens == t.waitTokens + (if Waits(e) then e.usage.Total() else 0)
    ensures after.Figures(done[k := e])
  {
    hide ColumnSum, WaitTurns, Waits;
    ColumnAdd(done, k, e, Input);
    ColumnAdd(done, k, e, CacheWrite);
    ColumnAdd(done, k, e, CacheRead);
    ColumnAdd(done, k, e, Output);
    WaitTurnsAdd(done, k, e);
  }

  function Processed(table: map<Key, Entry>, todo: set<Key>, w: Window): map<Key, Entry> {
    map k | k in table && k !in todo && w.start <= table[k].ts <= w.end :: table[k]
  }

  // The loop over `canonical.values()`.
  method CountWindow(canonical: map<Key, Entry>, w: Window, repoFilter: string) returns (t: Tally)
    ensures t.Of(Counted(canonical, w), repoFilter)
  {
    hide Tally.Of;
    t := Tally(Usage(0, 0, 0, 0), map[], {}, 0, 0, 0, None, None);
    var todo := canonical.Keys;
    assert Processed(canonical, todo, w) == map[];
    NothingCounted(t, repoFilter);
    while todo != {}
      invariant todo <= canonical.Keys
      invariant t.Of(Processed(canonical, todo, w), repoFilter)
      decreases todo
    {
      var k :| k in todo;
      var e := canonical[k];
      ghost var done := Processed(canonical, todo, w);
      todo := todo - {k};
      if w.start <= e.ts <= w.end {
        assert Processed(canonical, todo, w) == done[k := e];
        t := Count(t, e, repoFilter, done, k);
      } else {
        assert Processed(canonical, todo, w) == done;
      }
    }
    assert Processed(canonical, {}, w) == Counted(canonical, w);
  }

  lemma ColumnSumEmpty(none: map<Key, Entry>, c: Column)
    requires |none| == 0
    ensures ColumnSum(none, c) == 0
  {
    assert (map k | k in none :: c.Of(none[k].usage)).Keys == none.Keys;
  }

  lemma NothingCounted(t: Tally, repoFilter: string)
    requires t == Tally(Usage(0, 0, 0, 0), map[], {}, 0, 0, 0, None, None)
    ensures t.Of(map[], repoFilter)
  {
    assert PerSession(map[]) == map[];
    assert WaitTurns(map[]) == map[];
    forall c: Column ensures ColumnSum(map[], c) == 0 {
      ColumnSumEmpty(map[], c);
    }
  }

  lemma MeasuresTally(m: Metrics, counted: map<Key, Entry>, repoFilter: Option<string>, ranked: seq<nat>, t: Tally,
                      repoTraffic: Option<nat>)
    requires t.Of(counted, if repoFilter.Some? then repoFilter.value else "")
    requires Ranks(ranked, Bag(PerSession(counted)), SumMap(PerSession(counted))) && |ranked| == |PerSession(counted)|
    requires repoTraffic == RepoPart(counted, repoFilter)
    requires var raw := t.totals.Total();
             m == Metrics(Some(raw), None, Some(t.totals.input), Some(t.totals.cacheWrite), Some(t.totals.cacheRead),
                          Some(t.totals.output), Some(t.calls), Some(|t.perSession|), TopShare(ranked, 1, raw),
                          TopShare(ranked, 4, raw), Pct(repoTraffic, raw), Some(t.waitCalls), Some(t.waitTokens))
    ensures Measures(m, counted, repoFilter, ranked)
  {
    hide ColumnSum, PerSession, RepoOf, WaitTurns, SpansEntries, Turns, Ranks, Pct, TopShare, RepoPart, SumMap, Bag;
    PartitionsOfRaw(counted);
  }

  // From the running totals to the metrics.
  method Summarise(t: Tally, repoFilter: Option<string>, ghost counted: map<Key, Entry>) returns (m: Metrics)
    requires t.Of(counted, if repoFilter.Some? then repoFilter.value else "")
    ensures exists ranked :: Measures(m, counted, repoFilter, ranked)
  {
    hide ColumnSum, PerSession, RepoOf, WaitTurns, SpansEntries, Turns, Ranks, Pct, TopShare, Selected, SumMap, Bag, Measures;
    var filter := if repoFilter.Some? then repoFilter.value else "";
    var raw := t.totals.Total();
    var ranked := SortValues(t.perSession);
    var repoTraffic: Option<nat> := None;
    if filter != "" {
      var sum := SumSelected(t.perSession, t.repoSessions);
      repoTraffic := Some(sum);
    }
    m := Metrics(Some(raw), None, Some(t.totals.input), Some(t.totals.cacheWrite), Some(t.totals.cacheRead),
                 Some(t.totals.output), Some(t.calls), Some(|t.perSession|), TopShare(ranked, 1, raw),
                 TopShare(ranked, 4, raw), Pct(repoTraffic, raw), Some(t.waitCalls), Some(t.waitTokens));
    MeasuresTally(m, counted, repoFilter, ranked, t, repoTraffic);
  }

  // `collect_claude`
  method Collect(dirExists: bool, lines: seq<Line>, w: Window, repoFilter: Option<string>) returns (r: Result)
    ensures Describes(r, dirExists, lines, w, repoFilter)
  {
    hide Measures, Canonical, Samples, Counted, IsMalformed, SpansEntries, Tally.Figures;
    if !dirExists {
      return Result(EMPTY, None, None, [ClaudeDirMissing], false);
    }
    var canonical, unreadable, invalid, malformed := Scan(lines, w);
    var t := CountWindow(canonical, w, if repoFilter.Some? then repoFilter.value else "");
    if unreadable > 0 {
      return Result(EMPTY, None, None, [ClaudeUnreadable(unreadable)], false);
    }
    var m := Summarise(t, repoFilter, CountedIn(lines, w));
    r := Result(m, t.from, t.to, QualityGaps(invalid, malformed), repoFilter.None?);
  }

  function Selected(m: map<string, nat>, keys: set<string>): map<string, nat> {
    map s | s in keys && s in m :: m[s]
  }

  method SumSelected(m: map<string, nat>, selected: set<string>) returns (total: nat)
    ensures total == SumMap(Selected(m, selected))
  {
    total := 0;
    var rest := selected;
    assert Selected(m, selected - rest) == map[];
    while rest != {}
      invariant rest <= selected
      invariant total == SumMap(Selected(m, selected - rest))
      decreases rest
    {
      var s :| s in rest;
      ghost var seen := Selected(m, selected - rest);
      rest := rest - {s};
      if s in m {
        assert Selected(m, selected - rest) == seen[s := m[s]];
        SumMapPut(seen, s, m[s]);
        total := total + m[s];
      } else {
        assert Selected(m, selected - rest) == seen;
      }
    }
    assert selected - rest == selected;
  }

  lemma SpansAdd(done: map<Key, Entry>, k: Key, e: Entry, from: Option<int>, to: Option<int>)
    requires k !in done && SpansEntries(done, from, to)
    ensures SpansEntries(done[k := e], EarlierOf(from, e.ts), LaterOf(to, e.ts))
  {
    var after := done[k := e];
    assert after[k].ts == e.ts;
    if from.Some? {
      var a :| a in done && done[a].ts == from.value;
      var b :| b in done && done[b].ts == to.value;
      assert after[a].ts == from.value && after[b].ts == to.value;
    }
  }

  lemma RepoOfAdd(done: map<Key, Entry>, k: Key, e: Entry, filter: string)
    requires k !in done
    ensures filter != "" && InRepo(e, filter) ==> RepoOf(done[k := e], filter) == RepoOf(done, filter) + {e.session}
    ensures filter == "" || !InRepo(e, filter) ==> RepoOf(done[k := e], filter) == RepoOf(done, filter)
  {
    hide InRepo, RepoSessions;
    RepoSessionsAdd(done, k, e, filter);
  }

  lemma RepoSessionsAdd(done: map<Key, Entry>, k: Key, e: Entry, filter: string)
    requires k !in done
    ensures InRepo(e, filter) ==> RepoSessions(done[k := e], filter) == RepoSessions(done, filter) + {e.session}
    ensures !InRepo(e, filter) ==> RepoSessions(done[k := e], filter) == RepoSessions(done, filter)
  {
    var after := done[k := e];
    forall s ensures s in RepoSessions(after, filter) <==> s in RepoSessions(done, filter) || (InRepo(e, filter) && s == e.session) {
      if s in RepoSessions(done, filter) {
        var j :| j in done && InRepo(done[j], filter) && done[j].session == s;
        assert j in after && after[j] == done[j];
      } else if InRepo(e, filter) && s == e.session {
        assert after[k] == e;
      }
    }
  }
}
