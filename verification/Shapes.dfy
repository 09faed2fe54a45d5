/** What each collector's result looks like to the report, and why. */
module Shapes {
  import opened Options
  import opened Sums
  import opened Percent
  import opened Windows
  import opened Gaps
  import opened Reports
  import opened Validation
  import Cl = Claude
  import Cx = Codex
  import Cp = Copilot
  import Kr = Kronn
  import Rt = Rtk

  // ---- The messages of one source ----

  function OwnerOf(m: Message): Source {
    match m
    case ClaudeDirMissing => FromClaude
    case ClaudeUnreadable(_) => FromClaude
    case ClaudeInvalidJson(_) => FromClaude
    case ClaudeMalformed => FromClaude
    case CodexDirMissing => FromCodex
    case CodexUnreadable(_) => FromCodex
    case CodexIncoherent(_) => FromCodex
    case CodexPartialDays => FromCodex
    case CodexMalformed => FromCodex
    case CodexInvalidJson(_) => FromCodex
    case CopilotDbMissing => FromCopilot
    case CopilotDbUnreadable(_) => FromCopilot
    case CopilotMalformed => FromCopilot
    case CopilotCoverage => FromCopilot
    case KronnDbMissing => FromKronn
    case KronnDbUnreadable(_) => FromKronn
    case KronnMalformed => FromKronn
    case MetricsUnavailable(source) => source
    case ScenarioOmitted => FromReport
    case DenominatorMissing => FromKpi
    case _ => FromRtk
  }

  ghost predicate OwnMessages(messages: seq<Message>, source: Source) {
    && (forall i :: 0 <= i < |messages| ==> OwnerOf(messages[i]) == source)
    && (forall i, j :: 0 <= i < j < |messages| ==> messages[i] != messages[j])
  }

  // An unavailable source says so in a message; its first one names no granularity unless a failure text does.
  predicate ExplainsItself(messages: seq<Message>) {
    messages != [] && !messages[0].NamesGranularity()
  }

  // ---- Top shares ----

  lemma {:induction false} SumIsEmpty(s: seq<nat>)
    requires Sum(s) == 0
    ensures forall i :: 0 <= i < |s| ==> s[i] == 0
  {
    if s != [] {
      SumIsEmpty(s[1..]);
      assert forall i :: 1 <= i < |s| ==> s[i] == s[1..][i - 1];
    }
  }

  lemma TopOne(ranked: seq<nat>)
    requires ranked != []
    ensures SumFirst(ranked, 1) == ranked[0] && (|ranked| == 1 ==> ranked[0] == Sum(ranked))
    ensures ranked[0] <= Sum(ranked)
  {
    assert SumFirst(ranked[1..], 0) == 0;
    if |ranked| == 1 {
      assert Sum(ranked[1..]) == 0;
    }
  }

  // Pigeonhole with rounding: with fewer than 20000 parts the largest share never rounds to zero.
  lemma TopShareVisible(ranked: seq<nat>, values: multiset<nat>, total: nat)
    requires Ranks(ranked, values, total) && total > 0 && |ranked| < 20000
    ensures ranked != [] && Pct(Some(ranked[0]), total) != Some(0)
  {
    assert ranked == [] ==> Sum(ranked) == 0;
    forall i | 0 <= i < |ranked| ensures ranked[i] <= ranked[0] {
      if i > 0 {
        assert ranked[0] >= ranked[i];
      }
    }
    LargestCarriesItsShare(ranked, ranked[0]);
    ShareRoundsToZero(ranked[0], total);
    MultiplesApart(ranked[0], |ranked|, 20000);
    assert |ranked| * ranked[0] == ranked[0] * |ranked|;
    assert ranked[0] > 0;
  }

  // ---- Claude ----

  // The share rules of the validator, except that a share may have rounded to zero.
  predicate ClaudeSharesFit(m: Cl.Metrics) {
    && m.raw.Some? && m.sessions.Some? && m.calls.Some?
    && NullOrPct(m.top1) && NullOrPct(m.top4) && NullOrPct(m.repoShare)
    && (m.top1.Some? <==> Positive(m.raw)) && (m.top4.Some? <==> Positive(m.raw)) && (m.repoShare.Some? ==> Positive(m.raw))
    && (Positive(m.raw) ==> Positive(m.calls) && Positive(m.sessions))
    && AtMost(m.sessions, m.calls) && AtMost(m.waitCalls, m.calls) && AtMost(m.waitTokens, m.raw)
    && (m.top1.Some? && m.top4.Some? ==>
          && m.top1.value <= m.top4.value
          && (m.sessions == Some(1) ==> m.top1.value == 10000)
          && (m.sessions.Some? && 0 < m.sessions.value <= 4 ==> m.top4.value == 10000))
  }

  ghost predicate ClaudeShape(r: Cl.Result, w: Window) {
    && OwnMessages(r.gaps, FromClaude)
    && (forall i :: 0 <= i < |r.gaps| ==> r.gaps[i].Phrases() == {})
    && SpanAcceptable(Span(r.from, r.to), w)
    && ClaudeCounters(r.metrics)
    && if r.metrics.raw.None? then
         r.metrics == Cl.EMPTY && r.gaps != [] && !r.repoNotRequested
       else
         r.metrics.cost.None? && ClaudeSharesFit(r.metrics) && (r.repoNotRequested ==> r.metrics.repoShare.None?)
  }

  lemma ClaudeTopShares(m: Cl.Metrics, ranked: seq<nat>, values: multiset<nat>, raw: nat)
    requires Ranks(ranked, values, raw)
    requires m.raw == Some(raw) && m.sessions == Some(|ranked|)
    requires m.top1 == Cl.TopShare(ranked, 1, raw) && m.top4 == Cl.TopShare(ranked, 4, raw)
    ensures NullOrPct(m.top1) && NullOrPct(m.top4)
    ensures (m.top1.Some? <==> raw > 0) && (m.top4.Some? <==> raw > 0) && (raw > 0 ==> |ranked| > 0)
    ensures raw > 0 ==>
              && m.top1.value <= m.top4.value
              && (|ranked| == 1 ==> m.top1.value == 10000) && (|ranked| <= 4 ==> m.top4.value == 10000)
  {
    if raw > 0 {
      assert ranked == [] ==> Sum(ranked) == 0;
      hide RoundHalfEven;
      TopOne(ranked);
      SumFirstMonotone(ranked, 1, 4);
      ShareMonotone(SumFirst(ranked, 1), SumFirst(ranked, 4), raw);
      ShareAtMostWhole(SumFirst(ranked, 1), raw);
      ShareAtMostWhole(SumFirst(ranked, 4), raw);
      WholeShare(raw);
    }
  }

  lemma RepoTrafficWithin(counted: map<Cl.Key, Cl.Entry>, filter: string)
    ensures Cl.RepoTraffic(counted, filter) <= SumMap(Cl.Turns(counted))
  {
    var per := Cl.PerSession(counted);
    Cl.PartitionsOfRaw(counted);
    SumMapMonotone(Cl.Selected(per, Cl.RepoOf(counted, filter)), per);
  }

  lemma WaitsWithin(counted: map<Cl.Key, Cl.Entry>)
    ensures SumMap(Cl.WaitTurns(counted)) <= SumMap(Cl.Turns(counted)) && |Cl.WaitTurns(counted)| <= |counted|
  {
    SumMapMonotone(Cl.WaitTurns(counted), Cl.Turns(counted));
    KeysWithin(Cl.WaitTurns(counted).Keys, counted.Keys);
  }

  lemma {:induction false} KeysWithin<K>(small: set<K>, large: set<K>)
    requires small <= large
    ensures |small| <= |large|
    decreases small
  {
    if small != {} {
      var k :| k in small;
      KeysWithin(small - {k}, large - {k});
    }
  }

  lemma ClaudeMeasuredShape(m: Cl.Metrics, counted: map<Cl.Key, Cl.Entry>, repoFilter: Option<string>, ranked: seq<nat>)
    requires Cl.Measures(m, counted, repoFilter, ranked)
    ensures m.raw.Some? && m.cost.None? && ClaudeCounters(m) && ClaudeSharesFit(m)
    ensures repoFilter.None? ==> m.repoShare.None?
  {
    hide Cl.ColumnSum, Cl.PerSession, Cl.Turns, Cl.WaitTurns, Cl.RepoTraffic, Cl.TopShare, Ranks, SumMap, Bag, RoundHalfEven,
         ClaudeSharesFit, ClaudeCounters;
    var raw := SumMap(Cl.Turns(counted));
    Cl.PartitionsOfRaw(counted);
    WaitsWithin(counted);
    ClaudeTopShares(m, ranked, Bag(Cl.PerSession(counted)), raw);
    if repoFilter.Some? && repoFilter.value != "" && raw > 0 {
      RepoTrafficWithin(counted, repoFilter.value);
      ShareAtMostWhole(Cl.RepoTraffic(counted, repoFilter.value), raw);
    }
    assert NullOrPct(m.repoShare) && (m.repoShare.Some? ==> raw > 0);
    ClaudeFits(m);
  }

  // The figures above, read as the validator reads them.
  lemma ClaudeFits(m: Cl.Metrics)
    requires m.raw.Some? && m.nonCached.Some? && m.cacheWrite.Some? && m.cacheRead.Some? && m.output.Some?
    requires m.calls.Some? && m.sessions.Some? && m.waitCalls.Some? && m.waitTokens.Some? && m.cost.None?
    requires m.nonCached.value >= 0 && m.cacheWrite.value >= 0 && m.cacheRead.value >= 0 && m.output.value >= 0
    requires m.raw.value == m.nonCached.value + m.cacheWrite.value + m.cacheRead.value + m.output.value
    requires 0 <= m.sessions.value <= m.calls.value && 0 <= m.waitCalls.value <= m.calls.value && 0 <= m.waitTokens.value <= m.raw.value
    requires NullOrPct(m.top1) && NullOrPct(m.top4) && NullOrPct(m.repoShare) && (m.repoShare.Some? ==> m.raw.value > 0)
    requires (m.top1.Some? <==> m.raw.value > 0) && (m.top4.Some? <==> m.raw.value > 0) && (m.raw.value > 0 ==> m.sessions.value > 0)
    requires m.raw.value > 0 ==>
               && m.top1.value <= m.top4.value
               && (m.sessions.value == 1 ==> m.top1.value == 10000) && (m.sessions.value <= 4 ==> m.top4.value == 10000)
    ensures ClaudeCounters(m) && ClaudeSharesFit(m)
  {
  }

  lemma ClaudeSpan(counted: map<Cl.Key, Cl.Entry>, r: Cl.Result, w: Window)
    requires Cl.SpansEntries(counted, r.from, r.to)
    requires forall k :: k in counted ==> w.start <= counted[k].ts <= w.end
    ensures SpanAcceptable(Span(r.from, r.to), w)
  {
    if r.from.Some? {
      var a :| a in counted && counted[a].ts == r.from.value;
      var b :| b in counted && counted[b].ts == r.to.value;
    }
  }

  ghost predicate ClaudeMessages(messages: seq<Message>) {
    OwnMessages(messages, FromClaude) && forall i :: 0 <= i < |messages| ==> messages[i].Phrases() == {}
  }

  lemma ClaudeQualityMessages(invalid: nat, malformed: bool)
    ensures ClaudeMessages(Cl.QualityGaps(invalid, malformed))
  {
  }

  lemma ClaudeUnavailableMessages(files: nat)
    ensures ClaudeMessages([ClaudeDirMissing]) && ClaudeMessages([ClaudeUnreadable(files)])
  {
  }

  lemma ClaudeHasShape(r: Cl.Result, dirExists: bool, lines: seq<Cl.Line>, w: Window, repoFilter: Option<string>)
    requires Cl.Describes(r, dirExists, lines, w, repoFilter)
    ensures ClaudeShape(r, w)
  {
    var counted := Cl.CountedIn(lines, w);
    assert forall k :: k in counted ==> w.start <= counted[k].ts <= w.end;
    var malformed := exists line :: line in lines && Cl.IsMalformed(line, w.end);
    ClaudeQualityMessages(Cl.InvalidLines(lines, w), malformed);
    ClaudeUnavailableMessages(Cl.UnreadableFiles(lines));
    hide Cl.Measures, Cl.CountedIn, Cl.SpansEntries, ClaudeSharesFit, Cl.IsMalformed, Cl.UnreadableFiles, Cl.InvalidLines,
         Cl.QualityGaps, OwnMessages, Message.Phrases;
    if dirExists && Cl.UnreadableFiles(lines) == 0 {
      hide ClaudeCounters;
      var ranked :| Cl.Measures(r.metrics, counted, repoFilter, ranked);
      ClaudeMeasuredShape(r.metrics, counted, repoFilter, ranked);
      ClaudeSpan(counted, r, w);
    }
  }

  // ---- Codex ----

  predicate CodexFit(m: Cx.Metrics) {
    && m.raw.Some? && m.nonCached.Some? && m.cacheRead.Some? && m.output.Some?
    && m.reasoning.Some? && m.sessions.Some? && m.rollouts.Some? && m.cost.None? && m.cacheWrite.None?
    && IsCounter(m.raw) && IsCounter(m.nonCached) && IsCounter(m.cacheRead) && IsCounter(m.output)
    && IsCounter(m.reasoning) && IsCounter(m.sessions) && IsCounter(m.rollouts)
    && m.raw.value == m.nonCached.value + m.cacheRead.value + m.output.value
    && m.reasoning.value <= m.output.value
    && m.sessions.value <= m.raw.value
    && NullOrPct(m.top1) && (m.top1.Some? <==> m.raw.value > 0)
    && (m.raw.value > 0 ==> m.sessions.value > 0)
    && (m.sessions.value == 1 ==> m.top1 == Some(10000))
  }

  // Every session has an active rollout; root counters that fall can break it.
  predicate SessionsCovered(m: Cx.Metrics) {
    AtMost(m.sessions, m.rollouts)
  }

  ghost predicate CodexShape(r: Cx.Result, w: Window) {
    && OwnMessages(r.gaps, FromCodex)
    && (forall i :: 0 <= i < |r.gaps| ==> SaysNonCanonicalLabel !in r.gaps[i].Phrases())
    && SpanAcceptable(Span(r.from, r.to), w)
    && if r.metrics.raw.None? then r.metrics == Cx.EMPTY && ExplainsItself(r.gaps) else CodexFit(r.metrics)
  }

  lemma CodexTopShare(ranked: seq<nat>, values: multiset<nat>, raw: nat)
    requires Ranks(ranked, values, raw) && |ranked| <= raw
    ensures raw > 0 <==> ranked != []
    ensures raw > 0 ==> Pct(Some(ranked[0]), raw).value <= 10000
    ensures |ranked| == 1 ==> Pct(Some(ranked[0]), raw) == Some(10000)
  {
    if ranked == [] {
      assert Sum(ranked) == 0;
    } else {
      hide RoundHalfEven;
      TopOne(ranked);
      ShareAtMostWhole(ranked[0], raw);
      WholeShare(raw);
    }
  }

  lemma CodexMeasuredShape(m: Cx.Metrics, files: seq<Cx.File>, w: Window, ranked: seq<nat>)
    requires Cx.IncoherentRoots(Cx.Threads(files, w), w) == {} && Cx.Measures(m, Cx.Threads(files, w), w, ranked)
    ensures CodexFit(m) && m.raw.Some?
  {
    var threads := Cx.Threads(files, w);
    var deltas := Cx.Deltas(threads, w);
    hide Cx.ColumnOf, Cx.Deltas, Cx.ActiveRollouts, SumMap, RoundHalfEven, Bag, Cx.Threads, Cx.IncoherentRoots,
         Ranks, CodexFit;
    Cx.ColumnsBounded(threads, w);
    Cx.TrafficIsInputPlusOutput(deltas);
    CodexTopShare(ranked, Bag(Cx.ColumnOf(deltas, Cx.Traffic)), SumMap(Cx.ColumnOf(deltas, Cx.Traffic)));
    CodexFits(m);
  }

  lemma CodexFits(m: Cx.Metrics)
    requires m.raw.Some? && m.nonCached.Some? && m.cacheRead.Some? && m.output.Some? && m.reasoning.Some?
    requires m.sessions.Some? && m.rollouts.Some? && m.cost.None? && m.cacheWrite.None?
    requires m.nonCached.value >= 0 && m.cacheRead.value >= 0 && m.output.value >= 0
    requires m.raw.value == m.nonCached.value + m.cacheRead.value + m.output.value && 0 <= m.reasoning.value <= m.output.value
    requires 0 <= m.sessions.value <= m.raw.value && 0 <= m.rollouts.value
    requires NullOrPct(m.top1) && (m.top1.Some? <==> m.raw.value > 0)
    requires (m.raw.value > 0 ==> m.sessions.value > 0) && (m.sessions.value == 1 ==> m.top1 == Some(10000))
    ensures CodexFit(m)
  {
  }

  lemma CodexSpan(r: Cx.Result, files: seq<Cx.File>, w: Window)
    requires Cx.Spans(files, w, r.from, r.to)
    ensures SpanAcceptable(Span(r.from, r.to), w)
  {
  }

  ghost predicate CodexMessages(messages: seq<Message>) {
    OwnMessages(messages, FromCodex) && forall i :: 0 <= i < |messages| ==> SaysNonCanonicalLabel !in messages[i].Phrases()
  }

  lemma CodexQualityMessages(q: Cx.Quality, w: Window)
    ensures CodexMessages(Cx.QualityGaps(q, w))
  {
  }

  lemma CodexIncoherentMessages(threads: nat, q: Cx.Quality, w: Window)
    ensures CodexMessages([CodexIncoherent(threads)] + Cx.QualityGaps(q, w))
    ensures ExplainsItself([CodexIncoherent(threads)] + Cx.QualityGaps(q, w))
  {
  }

  lemma CodexUnavailableMessages(files: nat)
    ensures CodexMessages([CodexDirMissing]) && CodexMessages([CodexUnreadable(files)])
    ensures ExplainsItself([CodexDirMissing]) && ExplainsItself([CodexUnreadable(files)])
  {
  }

  lemma CodexHasShape(r: Cx.Result, dirExists: bool, files: seq<Cx.File>, w: Window)
    requires Cx.Describes(r, dirExists, files, w)
    ensures CodexShape(r, w)
  {
    hide Cx.IncoherentRoots, Cx.Measures, Cx.Threads, Cx.QualityOf, Cx.Spans, Cx.QualityGaps, CodexFit,
         OwnMessages, ExplainsItself, Message.Phrases;
    var q, threads := Cx.QualityOf(files, w), Cx.Threads(files, w);
    CodexQualityMessages(q, w);
    CodexIncoherentMessages(|Cx.IncoherentRoots(threads, w)|, q, w);
    CodexUnavailableMessages(q.unreadable);
    if dirExists && q.unreadable == 0 {
      CodexSpan(r, files, w);
    }
    if dirExists && q.unreadable == 0 && Cx.IncoherentRoots(threads, w) == {} {
      var ranked :| Cx.Measures(r.metrics, threads, w, ranked);
      CodexMeasuredShape(r.metrics, files, w, ranked);
    }
  }

  // Root counters that never fall cover every session.
  lemma MonotoneRootsCover(r: Cx.Result, dirExists: bool, files: seq<Cx.File>, w: Window)
    requires Cx.Describes(r, dirExists, files, w)
    requires forall root :: root in Cx.Threads(files, w) ==> Cx.RootMonotone(Cx.Threads(files, w)[root], root)
    ensures SessionsCovered(r.metrics)
  {
    hide Cx.IncoherentRoots, Cx.RootMonotone, Cx.Threads, Cx.QualityOf, Cx.Spans, Cx.QualityGaps, Cx.Deltas, Cx.ActiveRollouts, Cx.ColumnOf,
         SumMap, Ranks, Bag, Pct;
    if dirExists && Cx.QualityOf(files, w).unreadable == 0 && Cx.IncoherentRoots(Cx.Threads(files, w), w) == {} {
      Cx.RolloutsCoverSessions(files, w);
    }
  }

  // ---- Copilot ----

  predicate CopilotFit(m: Cp.Metrics) {
    && m.raw.Some? && m.nonCached.Some? && m.cacheWrite.Some? && m.cacheRead.Some? && m.output.Some?
    && m.reasoning.Some? && m.calls.Some? && m.coverageDays.Some? && m.rangeCovers.Some? && m.cost.None?
    && IsCounter(m.nonCached) && IsCounter(m.cacheWrite) && IsCounter(m.cacheRead) && IsCounter(m.output)
    && IsCounter(m.reasoning) && IsCounter(m.calls) && IsCounter(m.coverageDays)
    && m.raw.value == m.nonCached.value + m.cacheWrite.value + m.cacheRead.value + m.output.value
  }

  // What the aggregate row may get wrong and the collector does not check.
  predicate CopilotConsistent(r: Cp.Result, w: Window) {
    && AtMost(r.metrics.reasoning, r.metrics.output) && AtMost(r.metrics.coverageDays, r.metrics.calls)
    && (Positive(r.metrics.raw) ==> Positive(r.metrics.calls))
    && SpanAcceptable(Span(r.from, r.to), w)
  }

  ghost predicate CopilotShape(r: Cp.Result) {
    && OwnMessages(r.gaps, FromCopilot)
    && if r.metrics.raw.None? then r.metrics == Cp.EMPTY && |r.gaps| == 1
       else CopilotFit(r.metrics) && forall i :: 0 <= i < |r.gaps| ==> r.gaps[i] == CopilotCoverage
  }

  lemma CopilotHasShape(w: Window, q: Cp.Query)
    ensures CopilotShape(Cp.Collect(w, q))
  {
  }

  lemma PlausibleIsConsistent(w: Window, q: Cp.Query)
    requires Cp.Plausible(w, q)
    ensures CopilotConsistent(Cp.Collect(w, q), w)
  {
  }

  // ---- Kronn ----

  ghost predicate KronnFit(m: Kr.Metrics) {
    && IsCounter(m.replies) && IsCounter(m.tracedTokens) && NullOrPct(m.tracedPct)
    && m.untraced.Some? && "" !in m.untraced.value && SumMap(m.untraced.value) <= m.replies.value
    && (m.tracedPct.None? <==> m.replies == Some(0))
  }

  // The traced share is the one the untraced replies leave.
  ghost predicate SharesAgree(m: Kr.Metrics) {
    IsCounter(m.replies) && m.untraced.Some? && SumMap(m.untraced.value) <= m.replies.value ==>
      m.tracedPct == Pct(Some(m.replies.value - SumMap(m.untraced.value)), m.replies.value)
  }

  ghost predicate KronnShape(r: Kr.Result) {
    && OwnMessages(r.gaps, FromKronn)
    && if r.metrics.replies.None? then r.metrics == Kr.EMPTY && |r.gaps| == 1 else r.gaps == [] && KronnFit(r.metrics)
  }

  lemma KronnHasShape(r: Kr.Result, q: Kr.Query)
    requires Kr.Describes(r, q)
    ensures KronnShape(r)
  {
    hide Kr.TotalsOf, RoundHalfEven, SumMap;
    if q.Rows? && (forall x :: x in q.rows ==> x.Sound()) {
      var t := Kr.TotalsOf(q.rows);
      Kr.UntracedWithin(q.rows);
      Kr.UntracedNames(q.rows);
      if t.replies > 0 {
        ShareAtMostWhole(t.traced, t.replies);
      }
    }
  }

  // Rows that lose no count to a shared key give shares that agree.
  lemma CompleteRowsAgree(r: Kr.Result, q: Kr.Query)
    requires Kr.Describes(r, q) && Kr.Complete(q)
    ensures SharesAgree(r.metrics)
  {
    hide Kr.TotalsOf, Kr.NothingLost, Pct, SumMap;
    if q.Rows? && (forall x :: x in q.rows ==> x.Sound()) {
      Kr.UntracedPartition(q.rows);
    }
  }

  // ---- RTK ----

  ghost predicate RtkShape(r: Rt.Result, w: Window) {
    && OwnMessages(r.gaps, FromRtk)
    && RtkAcceptable(r.metrics, r.metrics.installed)
    && if r.metrics.windowCoverage.None? then
         r.metrics == Rt.EMPTY.(installed := r.metrics.installed) && |r.gaps| == 1
       else
         && r.metrics.installed == Some(true) && r.metrics.includedFullDays.Some?
         && r.gaps == Rt.MeasuredGaps(w) && r.metrics.windowCoverage == Some(Rt.CoverageOf(w))
         && (r.metrics.saved.Some? <==> FullDays(w) != [])
         && (r.metrics.savedPct.None? <==> r.metrics.raw.None? || r.metrics.raw == Some(0))
  }

  lemma RtkMeasuredShape(w: Window, rows: multiset<Rt.Row>, table: map<int, Rt.Values>, version: Option<string>)
    requires Rt.Readable(rows, w) && Rt.IsTable(table, rows, w)
    requires version.Some? ==> version.value != ""
    ensures var m := Rt.Measured(w, table, version);
            && RtkAcceptable(m, m.installed) && m.includedFullDays.Some?
            && (m.saved.Some? <==> FullDays(w) != []) && (m.savedPct.None? <==> m.raw.None? || m.raw == Some(0))
  {
    Rt.MeasuredArithmetic(w, rows, table, version);
    var t := Rt.Totals(FullDays(w), table);
    if t.raw > 0 {
      ShareAtMostWhole(t.saved, t.raw);
    }
    hide Rt.Totals, FullDays, RoundHalfEven, Rt.Readable, Rt.IsTable;
  }

  // No day was summed: the result names the one problem of the probe.
  lemma RtkUnmeasuredHasShape(r: Rt.Result, w: Window, probe: Rt.Probe, version: Option<string>)
    requires Rt.Describes(r, w, probe, version)
    requires !(probe.Daily? && Rt.Readable(multiset(probe.rows), w))
    ensures RtkShape(r, w)
  {
    hide Rt.IsTable, Rt.Readable, Rt.Measured, Rt.MeasuredGaps, Rt.CoverageOf, FullDays, Rt.Spans;
  }

  lemma MeasuredIsCovered(w: Window, table: map<int, Rt.Values>, version: Option<string>)
    ensures var m := Rt.Measured(w, table, version);
            m.installed == Some(true) && m.windowCoverage == Some(Rt.CoverageOf(w))
  {
    hide Rt.Totals, FullDays, Rt.CoverageOf, Pct;
  }

  lemma MeasuredSpeaks(w: Window)
    ensures OwnMessages(Rt.MeasuredGaps(w), FromRtk)
  {
    hide FullDays, Rt.CoverageOf;
  }

  lemma RtkHasShape(r: Rt.Result, w: Window, probe: Rt.Probe, version: Option<string>)
    requires Rt.Describes(r, w, probe, version)
    requires version.Some? ==> version.value != ""
    ensures RtkShape(r, w)
  {
    hide Rt.IsTable, Rt.Readable, Rt.Measured, Rt.MeasuredGaps, Rt.CoverageOf, FullDays, Rt.Spans;
    if probe.Daily? && Rt.Readable(multiset(probe.rows), w) {
      var table :| Rt.IsTable(table, multiset(probe.rows), w) && r.metrics == Rt.Measured(w, table, version);
      hide RtkAcceptable, OwnMessages;
      RtkMeasuredShape(w, multiset(probe.rows), table, version);
      MeasuredIsCovered(w, table, version);
      MeasuredSpeaks(w);
    } else {
      RtkUnmeasuredHasShape(r, w, probe, version);
    }
  }
}
