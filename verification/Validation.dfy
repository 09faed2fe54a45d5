/** `validate_report`: each section collects its errors against a declarative reading of it. */
module Validation {
  import opened Options
  import opened Sums
  import opened Percent
  import opened Windows
  import opened Gaps
  import opened Trees
  import opened Reports
  import Cl = Claude
  import Cx = Codex
  import Cp = Copilot
  import Kr = Kronn
  import Rt = Rtk

  datatype Kind = Invalid | Incomplete | Missing | Required | Inconsistent

  // One entry of the validator's error list: the section, the field and what is wrong with it.
  datatype Fault = Fault(section: Key, field: Key, kind: Kind)

  // ---- Leaf checks ----

  // `_counter(v) is not None`
  predicate IsCounter(v: Option<int>) {
    v.Some? && v.value >= 0
  }

  predicate NullOrCounter(v: Option<int>) {
    v.Some? ==> v.value >= 0
  }

  // `number(v, percentage=True)`, in hundredths
  predicate IsPct(v: Option<int>) {
    v.Some? && 0 <= v.value <= 10000
  }

  predicate NullOrPct(v: Option<int>) {
    v.Some? ==> 0 <= v.value <= 10000
  }

  predicate Positive(v: Option<int>) {
    v.Some? && v.value > 0
  }

  predicate AtMost(a: Option<int>, b: Option<int>) {
    IsCounter(a) && IsCounter(b) ==> a.value <= b.value
  }

  // Appends the fault to the error list unless the check holds.
  method Check(errors: seq<Fault>, ok: bool, fault: Fault) returns (after: seq<Fault>)
    ensures |after| == 0 <==> |errors| == 0 && ok
  {
    after := errors;
    if !ok {
      after := after + [fault];
    }
  }

  // ---- Agents ----

  // `round(raw / completed, 2)`
  function Rate(raw: Option<int>, completed: Option<int>): Option<int> {
    if IsCounter(raw) && completed.Some? && completed.value > 0 then Some(RoundHalfEven(100 * raw.value, completed.value)) else None
  }

  predicate SpanAcceptable(s: Span, w: Window) {
    && (s.from.Some? <==> s.to.Some?)
    && (s.from.Some? && w.Valid() ==> w.start <= s.from.value <= s.to.value <= w.end)
  }

  method CheckSpan(errors: seq<Fault>, s: Span, w: Window, agent: Key) returns (after: seq<Fault>)
    ensures |after| == 0 <==> |errors| == 0 && SpanAcceptable(s, w)
  {
    after := errors;
    if s.from.None? != s.to.None? {
      after := Check(after, false, Fault(agent, Coverage, Incomplete));
    } else if s.from.Some? {
      after := Check(after, w.Valid() ==> w.start <= s.from.value <= s.to.value <= w.end, Fault(agent, Coverage, Inconsistent));
    }
  }

  predicate ClaudeCounters(m: Cl.Metrics) {
    && (m.raw.Some? <==> m.nonCached.Some?) && (m.raw.Some? <==> m.cacheWrite.Some?)
    && (m.raw.Some? <==> m.cacheRead.Some?) && (m.raw.Some? <==> m.output.Some?)
    && NullOrCounter(m.raw) && NullOrCounter(m.nonCached) && NullOrCounter(m.cacheWrite)
    && NullOrCounter(m.cacheRead) && NullOrCounter(m.output)
    && (m.raw.Some? ==> m.raw.value == m.nonCached.value + m.cacheWrite.value + m.cacheRead.value + m.output.value)
    && NullOrCounter(m.cost)
    && NullOrCounter(m.calls) && NullOrCounter(m.sessions) && NullOrCounter(m.waitCalls) && NullOrCounter(m.waitTokens)
    && (m.raw.Some? ==> m.calls.Some? && m.sessions.Some? && m.waitCalls.Some? && m.waitTokens.Some?)
  }

  predicate ClaudeShares(m: Cl.Metrics) {
    && NullOrPct(m.top1) && NullOrPct(m.top4) && NullOrPct(m.repoShare)
    && (Positive(m.raw) ==> Positive(m.calls) && Positive(m.sessions))
    && AtMost(m.sessions, m.calls) && AtMost(m.waitCalls, m.calls) && AtMost(m.waitTokens, m.raw)
    && (Positive(m.raw) ==> Positive(m.top1) && Positive(m.top4))
    && (m.top1.Some? && m.top4.Some? ==>
          && m.top1.value <= m.top4.value
          && (m.sessions == Some(1) ==> m.top1.value == 10000)
          && (m.sessions.Some? && 0 < m.sessions.value <= 4 ==> m.top4.value == 10000))
  }

  predicate ClaudeAcceptable(m: Cl.Metrics, s: Span, w: Window, completed: Option<int>, rate: Option<int>) {
    ClaudeCounters(m) && ClaudeShares(m) && SpanAcceptable(s, w) && rate == Rate(m.raw, completed)
  }

  method CheckClaudeCounters(errors: seq<Fault>, m: Cl.Metrics) returns (after: seq<Fault>)
    ensures |after| == 0 <==> |errors| == 0 && ClaudeCounters(m)
  {
    var anyNull := m.raw.None? || m.nonCached.None? || m.cacheWrite.None? || m.cacheRead.None? || m.output.None?;
    var allNull := m.raw.None? && m.nonCached.None? && m.cacheWrite.None? && m.cacheRead.None? && m.output.None?;
    after := Check(errors, !anyNull || allNull, Fault(Claude, RawTraffic, Incomplete));
    after := Check(after, NullOrCounter(m.raw), Fault(Claude, RawTraffic, Invalid));
    after := Check(after, NullOrCounter(m.nonCached), Fault(Claude, NonCached, Invalid));
    after := Check(after, NullOrCounter(m.cacheWrite), Fault(Claude, CacheWrite, Invalid));
    after := Check(after, NullOrCounter(m.cacheRead), Fault(Claude, CacheRead, Invalid));
    after := Check(after, NullOrCounter(m.output), Fault(Claude, Output, Invalid));
    if IsCounter(m.raw) && IsCounter(m.nonCached) && IsCounter(m.cacheWrite) && IsCounter(m.cacheRead) && IsCounter(m.output) {
      after := Check(after, m.raw.value == m.nonCached.value + m.cacheWrite.value + m.cacheRead.value + m.output.value,
                     Fault(Claude, RawTraffic, Inconsistent));
    }
    after := Check(after, NullOrCounter(m.cost), Fault(Claude, Cost, Invalid));
    after := CheckCount(after, m.calls, m.raw, Claude, AssistantCalls);
    after := CheckCount(after, m.sessions, m.raw, Claude, Sessions);
    after := CheckCount(after, m.waitCalls, m.raw, Claude, WaitCalls);
    after := CheckCount(after, m.waitTokens, m.raw, Claude, WaitTokens);
  }

  method CheckCount(errors: seq<Fault>, v: Option<int>, raw: Option<int>, agent: Key, key: Key) returns (after: seq<Fault>)
    ensures |after| == 0 <==> |errors| == 0 && NullOrCounter(v) && (raw.Some? ==> v.Some?)
  {
    after := Check(errors, NullOrCounter(v), Fault(agent, key, Invalid));
    after := Check(after, raw.None? || v.Some?, Fault(agent, key, Missing));
  }

  method CheckClaudeShares(errors: seq<Fault>, m: Cl.Metrics) returns (after: seq<Fault>)
    ensures |after| == 0 <==> |errors| == 0 && ClaudeShares(m)
  {
    after := Check(errors, NullOrPct(m.top1), Fault(Claude, Top1, Invalid));
    after := Check(after, NullOrPct(m.top4), Fault(Claude, Top4, Invalid));
    after := Check(after, NullOrPct(m.repoShare), Fault(Claude, RepoShare, Invalid));
    var positive := Positive(m.raw);
    after := Check(after, !positive || (Positive(m.calls) && Positive(m.sessions)), Fault(Claude, RawTraffic, Required));
    after := Check(after, AtMost(m.sessions, m.calls), Fault(Claude, Sessions, Inconsistent));
    after := Check(after, AtMost(m.waitCalls, m.calls), Fault(Claude, WaitCalls, Inconsistent));
    after := Check(after, AtMost(m.waitTokens, m.raw), Fault(Claude, WaitTokens, Inconsistent));
    after := Check(after, !positive || (IsPct(m.top1) && IsPct(m.top4) && m.top1.value != 0 && m.top4.value != 0),
                   Fault(Claude, Top1, Required));
    if IsPct(m.top1) && IsPct(m.top4) {
      after := Check(after, m.top4.value >= m.top1.value, Fault(Claude, Top4, Inconsistent));
      after := Check(after, m.sessions != Some(1) || m.top1.value == 10000, Fault(Claude, Top1, Inconsistent));
      after := Check(after, !(IsCounter(m.sessions) && 0 < m.sessions.value <= 4) || m.top4.value == 10000,
                     Fault(Claude, Top4, Inconsistent));
    }
  }

  method CheckClaude(errors: seq<Fault>, m: Cl.Metrics, s: Span, w: Window, completed: Option<int>, rate: Option<int>)
    returns (after: seq<Fault>)
    ensures |after| == 0 <==> |errors| == 0 && ClaudeAcceptable(m, s, w, completed, rate)
  {
    hide ClaudeCounters, ClaudeShares;
    after := CheckClaudeCounters(errors, m);
    after := CheckClaudeShares(after, m);
    after := CheckSpan(after, s, w, Claude);
    after := Check(after, rate == Rate(m.raw, completed), Fault(Kpi, Claude, Inconsistent));
  }

  predicate CodexAcceptable(m: Cx.Metrics, s: Span, w: Window, completed: Option<int>, rate: Option<int>) {
    && CodexComponents(m)
    && NullOrCounter(m.cost)
    && NullOrCounter(m.reasoning) && NullOrCounter(m.sessions) && NullOrCounter(m.rollouts)
    && (m.raw.Some? ==> m.reasoning.Some? && m.sessions.Some? && m.rollouts.Some?)
    && NullOrPct(m.top1)
    && (Positive(m.raw) ==> Positive(m.sessions) && Positive(m.rollouts))
    && AtMost(m.sessions, m.rollouts)
    && (Positive(m.raw) ==> Positive(m.top1))
    && (m.sessions == Some(1) ==> m.top1 == Some(10000))
    && m.cacheWrite.None?
    && AtMost(m.reasoning, m.output)
    && SpanAcceptable(s, w)
    && rate == Rate(m.raw, completed)
  }

  // The total and its three components come together and add up.
  predicate CodexComponents(m: Cx.Metrics) {
    && (m.raw.Some? <==> m.nonCached.Some?) && (m.raw.Some? <==> m.cacheRead.Some?) && (m.raw.Some? <==> m.output.Some?)
    && NullOrCounter(m.raw) && NullOrCounter(m.nonCached) && NullOrCounter(m.cacheRead) && NullOrCounter(m.output)
    && (m.raw.Some? ==> m.raw.value == m.nonCached.value + m.cacheRead.value + m.output.value)
  }

  method CheckCodexComponents(errors: seq<Fault>, m: Cx.Metrics) returns (after: seq<Fault>)
    ensures |after| == 0 <==> |errors| == 0 && CodexComponents(m)
  {
    var anyNull := m.raw.None? || m.nonCached.None? || m.cacheRead.None? || m.output.None?;
    var allNull := m.raw.None? && m.nonCached.None? && m.cacheRead.None? && m.output.None?;
    after := Check(errors, !anyNull || allNull, Fault(Codex, RawTraffic, Incomplete));
    after := Check(after, NullOrCounter(m.raw), Fault(Codex, RawTraffic, Invalid));
    after := Check(after, NullOrCounter(m.nonCached), Fault(Codex, NonCached, Invalid));
    after := Check(after, NullOrCounter(m.cacheRead), Fault(Codex, CacheRead, Invalid));
    after := Check(after, NullOrCounter(m.output), Fault(Codex, Output, Invalid));
    if IsCounter(m.raw) && IsCounter(m.nonCached) && IsCounter(m.cacheRead) && IsCounter(m.output) {
      after := Check(after, m.raw.value == m.nonCached.value + m.cacheRead.value + m.output.value,
                     Fault(Codex, RawTraffic, Inconsistent));
    }
  }

  method CheckCodex(errors: seq<Fault>, m: Cx.Metrics, s: Span, w: Window, completed: Option<int>, rate: Option<int>)
    returns (after: seq<Fault>)
    ensures |after| == 0 <==> |errors| == 0 && CodexAcceptable(m, s, w, completed, rate)
  {
    hide Rate, SpanAcceptable, CodexComponents;
    after := CheckCodexComponents(errors, m);
    after := Check(after, NullOrCounter(m.cost), Fault(Codex, Cost, Invalid));
    after := CheckCount(after, m.reasoning, m.raw, Codex, Reasoning);
    after := CheckCount(after, m.sessions, m.raw, Codex, Sessions);
    after := CheckCount(after, m.rollouts, m.raw, Codex, Rollouts);
    after := Check(after, NullOrPct(m.top1), Fault(Codex, Top1, Invalid));
    var positive := Positive(m.raw);
    after := Check(after, !positive || (Positive(m.sessions) && Positive(m.rollouts)), Fault(Codex, RawTraffic, Required));
    after := Check(after, AtMost(m.sessions, m.rollouts), Fault(Codex, Rollouts, Inconsistent));
    after := Check(after, !positive || (IsPct(m.top1) && m.top1.value != 0), Fault(Codex, Top1, Required));
    after := Check(after, m.sessions != Some(1) || m.top1 == Some(10000), Fault(Codex, Top1, Inconsistent));
    after := Check(after, m.cacheWrite.None?, Fault(Codex, CacheWrite, Invalid));
    after := Check(after, AtMost(m.reasoning, m.output), Fault(Codex, Reasoning, Inconsistent));
    after := CheckSpan(after, s, w, Codex);
    after := Check(after, rate == Rate(m.raw, completed), Fault(Kpi, Codex, Inconsistent));
  }

  predicate CopilotAcceptable(m: Cp.Metrics, s: Span, w: Window, completed: Option<int>, rate: Option<int>) {
    && CopilotComponents(m)
    && NullOrCounter(m.cost)
    && NullOrCounter(m.reasoning) && NullOrCounter(m.calls) && NullOrCounter(m.coverageDays)
    && (m.raw.Some? ==> m.reasoning.Some? && m.calls.Some? && m.coverageDays.Some?)
    && (Positive(m.raw) ==> Positive(m.calls))
    && AtMost(m.coverageDays, m.calls)
    && AtMost(m.reasoning, m.output)
    && (m.raw.Some? ==> m.rangeCovers.Some?)
    && SpanAcceptable(s, w)
    && rate == Rate(m.raw, completed)
  }

  predicate CopilotComponents(m: Cp.Metrics) {
    && (m.raw.Some? <==> m.nonCached.Some?) && (m.raw.Some? <==> m.cacheWrite.Some?)
    && (m.raw.Some? <==> m.cacheRead.Some?) && (m.raw.Some? <==> m.output.Some?)
    && NullOrCounter(m.raw) && NullOrCounter(m.nonCached) && NullOrCounter(m.cacheWrite)
    && NullOrCounter(m.cacheRead) && NullOrCounter(m.output)
    && (m.raw.Some? ==> m.raw.value == m.nonCached.value + m.cacheWrite.value + m.cacheRead.value + m.output.value)
  }

  method CheckCopilotComponents(errors: seq<Fault>, m: Cp.Metrics) returns (after: seq<Fault>)
    ensures |after| == 0 <==> |errors| == 0 && CopilotComponents(m)
  {
    var anyNull := m.raw.None? || m.nonCached.None? || m.cacheWrite.None? || m.cacheRead.None? || m.output.None?;
    var allNull := m.raw.None? && m.nonCached.None? && m.cacheWrite.None? && m.cacheRead.None? && m.output.None?;
    after := Check(errors, !anyNull || allNull, Fault(Copilot, RawTraffic, Incomplete));
    after := Check(after, NullOrCounter(m.raw), Fault(Copilot, RawTraffic, Invalid));
    after := Check(after, NullOrCounter(m.nonCached), Fault(Copilot, NonCached, Invalid));
    after := Check(after, NullOrCounter(m.cacheWrite), Fault(Copilot, CacheWrite, Invalid));
    after := Check(after, NullOrCounter(m.cacheRead), Fault(Copilot, CacheRead, Invalid));
    after := Check(after, NullOrCounter(m.output), Fault(Copilot, Output, Invalid));
    if IsCounter(m.raw) && IsCounter(m.nonCached) && IsCounter(m.cacheWrite) && IsCounter(m.cacheRead) && IsCounter(m.output) {
      after := Check(after, m.raw.value == m.nonCached.value + m.cacheWrite.value + m.cacheRead.value + m.output.value,
                     Fault(Copilot, RawTraffic, Inconsistent));
    }
  }

  method CheckCopilot(errors: seq<Fault>, m: Cp.Metrics, s: Span, w: Window, completed: Option<int>, rate: Option<int>)
    returns (after: seq<Fault>)
    ensures |after| == 0 <==> |errors| == 0 && CopilotAcceptable(m, s, w, completed, rate)
  {
    hide Rate, SpanAcceptable, CopilotComponents;
    after := CheckCopilotComponents(errors, m);
    after := Check(after, NullOrCounter(m.cost), Fault(Copilot, Cost, Invalid));
    after := CheckCount(after, m.reasoning, m.raw, Copilot, Reasoning);
    after := CheckCount(after, m.calls, m.raw, Copilot, Calls);
    after := CheckCount(after, m.coverageDays, m.raw, Copilot, CoverageDays);
    after := Check(after, !Positive(m.raw) || Positive(m.calls), Fault(Copilot, RawTraffic, Required));
    after := Check(after, AtMost(m.coverageDays, m.calls), Fault(Copilot, CoverageDays, Inconsistent));
    after := Check(after, AtMost(m.reasoning, m.output), Fault(Copilot, Reasoning, Inconsistent));
    after := Check(after, m.raw.None? || m.rangeCovers.Some?, Fault(Copilot, RangeCovers, Missing));
    after := CheckSpan(after, s, w, Copilot);
    after := Check(after, rate == Rate(m.raw, completed), Fault(Kpi, Copilot, Inconsistent));
  }

  // ---- Kronn and RTK ----

  ghost predicate KronnAcceptable(m: Kr.Metrics, installed: bool) {
    && NullOrCounter(m.replies) && NullOrCounter(m.tracedTokens) && NullOrPct(m.tracedPct)
    && (m.untraced.Some? ==> "" !in m.untraced.value)
    && (m.replies.Some? ==> m.tracedTokens.Some? && m.untraced.Some?)
    && (IsCounter(m.replies) && m.untraced.Some? ==>
          && SumMap(m.untraced.value) <= m.replies.value
          && m.tracedPct == Pct(Some(m.replies.value - SumMap(m.untraced.value)), m.replies.value))
    && installed == m.replies.Some?
  }

  method SumValues(m: map<string, nat>) returns (total: nat)
    ensures total == SumMap(m)
  {
    total := 0;
    var rest := m;
    while rest != map[]
      invariant total + SumMap(rest) == SumMap(m)
      decreases |rest|
    {
      var k :| k in rest;
      assert (rest - {k}).Keys == rest.Keys - {k};
      SumMapSplit(rest, k);
      total := total + rest[k];
      rest := rest - {k};
    }
  }

  method CheckKronn(errors: seq<Fault>, m: Kr.Metrics, installed: bool) returns (after: seq<Fault>)
    ensures |after| == 0 <==> |errors| == 0 && KronnAcceptable(m, installed)
  {
    after := Check(errors, NullOrCounter(m.replies), Fault(Kronn, Replies, Invalid));
    after := Check(after, NullOrCounter(m.tracedTokens), Fault(Kronn, TracedTokens, Invalid));
    after := Check(after, NullOrPct(m.tracedPct), Fault(Kronn, TracedPct, Invalid));
    after := Check(after, m.untraced.None? || "" !in m.untraced.value, Fault(Kronn, Untraced, Invalid));
    after := Check(after, m.replies.None? || (m.tracedTokens.Some? && m.untraced.Some?), Fault(Kronn, RawTraffic, Incomplete));
    if IsCounter(m.replies) && m.untraced.Some? {
      var untraced := SumValues(m.untraced.value);
      if untraced > m.replies.value {
        after := Check(after, false, Fault(Kronn, Untraced, Inconsistent));
      } else {
        var expected := Pct(Some(m.replies.value - untraced), m.replies.value);
        after := Check(after, m.tracedPct == expected, Fault(Kronn, TracedPct, Inconsistent));
      }
    }
    after := Check(after, installed == m.replies.Some?, Fault(Scope, KronnInstalled, Inconsistent));
  }

  predicate RtkAcceptable(m: Rt.Metrics, installed: Option<bool>) {
    && (m.version.Some? ==> m.version.value != "" && m.installed == Some(true))
    && (m.commands.Some? <==> m.raw.Some?) && (m.commands.Some? <==> m.compacted.Some?) && (m.commands.Some? <==> m.saved.Some?)
    && NullOrCounter(m.commands) && NullOrCounter(m.raw) && NullOrCounter(m.compacted) && NullOrCounter(m.saved)
    && NullOrPct(m.savedPct)
    && (m.raw.Some? ==>
          && m.savedPct == Pct(Some(m.saved.value), m.raw.value)
          && m.compacted.value <= m.raw.value && m.saved.value <= m.raw.value
          && m.installed == Some(true))
    && NullOrCounter(m.includedFullDays)
    && installed == m.installed
  }

  method CheckRtk(errors: seq<Fault>, m: Rt.Metrics, installed: Option<bool>) returns (after: seq<Fault>)
    ensures |after| == 0 <==> |errors| == 0 && RtkAcceptable(m, installed)
  {
    hide Pct;
    after := Check(errors, m.version.None? || m.version.value != "", Fault(Rtk, Version, Invalid));
    var anyNull := m.commands.None? || m.raw.None? || m.compacted.None? || m.saved.None?;
    var allNull := m.commands.None? && m.raw.None? && m.compacted.None? && m.saved.None?;
    after := Check(after, !anyNull || allNull, Fault(Rtk, RawTraffic, Incomplete));
    after := Check(after, NullOrCounter(m.commands), Fault(Rtk, Commands, Invalid));
    after := Check(after, NullOrCounter(m.raw), Fault(Rtk, RawOutput, Invalid));
    after := Check(after, NullOrCounter(m.compacted), Fault(Rtk, Compacted, Invalid));
    after := Check(after, NullOrCounter(m.saved), Fault(Rtk, Saved, Invalid));
    after := Check(after, NullOrPct(m.savedPct), Fault(Rtk, SavedPct, Invalid));
    // The source compares `compacted` without a null check; a null there is already an incomplete-counters error.
    if IsCounter(m.raw) && IsCounter(m.saved) && m.compacted.Some? {
      after := Check(after, m.savedPct == Pct(Some(m.saved.value), m.raw.value), Fault(Rtk, SavedPct, Inconsistent));
      after := Check(after, m.compacted.value <= m.raw.value && m.saved.value <= m.raw.value, Fault(Rtk, RawOutput, Inconsistent));
    }
    after := Check(after, allNull || m.installed == Some(true), Fault(Rtk, Installed, Invalid));
    after := Check(after, m.version.None? || m.installed == Some(true), Fault(Rtk, Version, Inconsistent));
    after := Check(after, NullOrCounter(m.includedFullDays), Fault(Rtk, IncludedDays, Invalid));
    after := Check(after, installed == m.installed, Fault(Scope, RtkInstalled, Inconsistent));
  }

  // ---- Scenario, gaps, reasons and links ----

  predicate FrontAcceptable(b: Body) {
    && b.window.Valid()
    && (if b.scenario.Some? then b.scenarioIsCanonical == Some(true) else b.scenarioIsCanonical.None?)
    && NullOrCounter(b.completedTasks)
  }

  method CheckFront(errors: seq<Fault>, b: Body) returns (after: seq<Fault>)
    ensures |after| == 0 <==> |errors| == 0 && FrontAcceptable(b)
  {
    after := Check(errors, b.window.Valid(), Fault(WindowKey, WindowKey, Invalid));
    if b.scenario.Some? {
      after := Check(after, b.scenarioIsCanonical == Some(true), Fault(ScenarioIsCanonical, ScenarioIsCanonical, Invalid));
    } else if b.scenarioIsCanonical.Some? {
      after := Check(after, false, Fault(ScenarioIsCanonical, ScenarioIsCanonical, Invalid));
    }
    after := Check(after, NullOrCounter(b.completedTasks), Fault(Kpi, CompletedTasks, Invalid));
  }

  ghost predicate GapsAcceptable(gaps: seq<Gap>, dataGaps: seq<Message>) {
    && (forall i, j :: 0 <= i < j < |dataGaps| ==> dataGaps[i] != dataGaps[j])
    && |gaps| == |dataGaps| && (forall i :: 0 <= i < |gaps| ==> gaps[i].message == dataGaps[i])
    && WellNumbered(gaps)
  }

  ghost predicate WellNumbered(gaps: seq<Gap>) {
    && (forall i :: 0 <= i < |gaps| ==> gaps[i].code.IsGapCode())
    && (forall i, j :: 0 <= i < j < |gaps| ==> gaps[i].id != gaps[j].id)
  }

  ghost predicate Indexes(byId: map<nat, Gap>, gaps: seq<Gap>) {
    && (forall g :: g in gaps ==> g.id in byId && byId[g.id] == g)
    && (forall n :: n in byId ==> byId[n] in gaps && byId[n].id == n)
  }

  method AllDistinct(messages: seq<Message>) returns (unique: bool)
    ensures unique <==> forall j, k :: 0 <= j < k < |messages| ==> messages[j] != messages[k]
  {
    var seen: set<Message> := {};
    unique := true;
    for i := 0 to |messages|
      invariant forall m :: m in seen <==> m in messages[..i]
      invariant unique <==> forall j, k :: 0 <= j < k < i ==> messages[j] != messages[k]
    {
      if messages[i] in seen {
        unique := false;
      }
      seen := seen + {messages[i]};
    }
  }

  method CheckGaps(errors: seq<Fault>, gaps: seq<Gap>, dataGaps: seq<Message>)
    returns (after: seq<Fault>, byId: map<nat, Gap>)
    ensures |after| == 0 <==> |errors| == 0 && GapsAcceptable(gaps, dataGaps)
    ensures |after| == 0 ==> Indexes(byId, gaps)
  {
    var unique := AllDistinct(dataGaps);
    after := Check(errors, unique, Fault(DataGaps, DataGaps, Invalid));
    byId := map[];
    for i := 0 to |gaps|
      invariant |after| == 0 <==> |errors| == 0 && unique && WellNumbered(gaps[..i])
      invariant forall n :: n in byId ==> exists j :: 0 <= j < i && gaps[j].id == n && gaps[j] == byId[n]
      invariant forall j :: 0 <= j < i ==> gaps[j].id in byId
      invariant |after| == 0 ==> forall j :: 0 <= j < i ==> byId[gaps[j].id] == gaps[j]
    {
      after := Check(after, gaps[i].code.IsGapCode(), Fault(DataGapDetails, GapCode, Invalid));
      after := Check(after, gaps[i].id !in byId, Fault(DataGapDetails, GapId, Inconsistent));
      byId := byId[gaps[i].id := gaps[i]];
      assert gaps[..i + 1] == gaps[..i] + [gaps[i]];
    }
    assert gaps[..|gaps|] == gaps;
    var same := |gaps| == |dataGaps| && forall i :: 0 <= i < |gaps| ==> gaps[i].message == dataGaps[i];
    after := Check(after, same, Fault(DataGapDetails, GapMessage, Inconsistent));
  }

  // The validator's own guess of whether the scenario was omitted.
  predicate GuessOmitted(dataGaps: seq<Message>) {
    forall i :: 0 <= i < |dataGaps| ==> SaysNonCanonicalLabel !in dataGaps[i].Phrases()
  }

  // The one disagreement the validator tolerates: zero traffic makes both readings of the repo share fair.
  predicate Tolerated(p: Path, actual: Code, expected: Code, b: Body) {
    p == REPO_SHARE_PATH && b.claude.raw == Some(0) && actual in {NotRequested, UndefinedRatio} && expected == UndefinedRatio
  }

  ghost predicate ReasonsAcceptable(r: Report) {
    var expected := (p: Path) => NullReason(p, r.body, GuessOmitted(r.body.dataGaps));
    && r.reasons.Keys == NullPaths(LinkedTree(r.body, r.links))
    && (forall p :: p in r.reasons ==> r.reasons[p].IsNullReason())
    && forall p :: p in r.reasons ==>
         expected(p).Some? && (r.reasons[p] == expected(p).value || Tolerated(p, r.reasons[p], expected(p).value, r.body))
  }

  method CheckReasons(errors: seq<Fault>, r: Report) returns (after: seq<Fault>)
    ensures |after| == 0 <==> |errors| == 0 && ReasonsAcceptable(r)
  {
    hide NullReason, NullPaths, LinkedTree, GuessOmitted, Tolerated;
    var nulls := NullPaths(LinkedTree(r.body, r.links));
    if r.reasons.Keys != nulls {
      after := Check(errors, false, Fault(NullReasons, NullReasons, Incomplete));
      return;
    }
    if exists p :: p in r.reasons && !r.reasons[p].IsNullReason() {
      after := Check(errors, false, Fault(NullReasons, NullReasons, Invalid));
      return;
    }
    var expected := BuildNullReasons(LinkedTree(r.body, r.links), r.body, GuessOmitted(r.body.dataGaps));
    if expected.None? {
      after := Check(errors, false, Fault(NullReasons, NullReasons, Inconsistent));
      return;
    }
    var agrees := forall p :: p in r.reasons ==>
      r.reasons[p] == expected.value[p] || Tolerated(p, r.reasons[p], expected.value[p], r.body);
    after := Check(errors, agrees, Fault(NullReasons, NullReasons, Inconsistent));
  }

  ghost predicate LinksAcceptable(r: Report) {
    && (forall p :: p in r.links <==> p in r.reasons && r.reasons[p].NeedsLink())
    && forall p :: p in r.links ==>
         exists g :: g in r.body.gaps && g.id == r.links[p] && GapSourceOf(p) == Some(g.source) && g.code == r.reasons[p]
  }

  method CheckLinks(errors: seq<Fault>, r: Report, byId: map<nat, Gap>) returns (after: seq<Fault>)
    requires |errors| == 0 ==> Indexes(byId, r.body.gaps)
    ensures |after| == 0 <==> |errors| == 0 && LinksAcceptable(r)
  {
    var required := set p | p in r.reasons && r.reasons[p].NeedsLink();
    if r.links.Keys != required {
      after := Check(errors, false, Fault(NullGapLinks, NullGapLinks, Incomplete));
      assert exists p :: (p in r.links) != (p in required);
      return;
    }
    after := errors;
    var todo := r.links.Keys;
    while todo != {}
      invariant todo <= r.links.Keys
      invariant |after| == 0 <==> |errors| == 0 && forall p :: p in r.links && p !in todo ==> LinkResolves(p, r, byId)
      decreases todo
    {
      var p :| p in todo;
      todo := todo - {p};
      if r.links[p] !in byId {
        after := Check(after, false, Fault(NullGapLinks, GapId, Missing));
      } else {
        var gap := byId[r.links[p]];
        var source := GapSourceOf(p);
        if source.None? {
          after := Check(after, false, Fault(NullGapLinks, GapSource, Invalid));
        } else {
          after := Check(after, gap.source == source.value && gap.code == r.reasons[p], Fault(NullGapLinks, GapCode, Inconsistent));
        }
      }
    }
  }

  predicate LinkResolves(p: Path, r: Report, byId: map<nat, Gap>)
    requires p in r.links && p in r.reasons
  {
    r.links[p] in byId && GapSourceOf(p) == Some(byId[r.links[p]].source) && byId[r.links[p]].code == r.reasons[p]
  }

  // ---- The whole report ----

  ghost predicate Acceptable(r: Report) {
    var b := r.body;
    && FrontAcceptable(b)
    && ClaudeAcceptable(b.claude, b.claudeSpan, b.window, b.completedTasks, b.perTask.claude)
    && CodexAcceptable(b.codex, b.codexSpan, b.window, b.completedTasks, b.perTask.codex)
    && CopilotAcceptable(b.copilot, b.copilotSpan, b.window, b.completedTasks, b.perTask.copilot)
    && KronnAcceptable(b.kronn, b.kronnInstalled)
    && RtkAcceptable(b.rtk, b.rtkInstalled)
    && GapsAcceptable(b.gaps, b.dataGaps)
    && ReasonsAcceptable(r)
    && LinksAcceptable(r)
  }

  // `validate_report`: no error exactly when the report is acceptable.
  method ValidateReport(r: Report) returns (errors: seq<Fault>)
    ensures |errors| == 0 <==> Acceptable(r)
  {
    hide FrontAcceptable, ClaudeAcceptable, CodexAcceptable, CopilotAcceptable, KronnAcceptable, RtkAcceptable,
         GapsAcceptable, ReasonsAcceptable, LinksAcceptable;
    var b := r.body;
    errors := CheckFront([], b);
    errors := CheckClaude(errors, b.claude, b.claudeSpan, b.window, b.completedTasks, b.perTask.claude);
    errors := CheckCodex(errors, b.codex, b.codexSpan, b.window, b.completedTasks, b.perTask.codex);
    errors := CheckCopilot(errors, b.copilot, b.copilotSpan, b.window, b.completedTasks, b.perTask.copilot);
    errors := CheckKronn(errors, b.kronn, b.kronnInstalled);
    errors := CheckRtk(errors, b.rtk, b.rtkInstalled);
    var byId;
    errors, byId := CheckGaps(errors, b.gaps, b.dataGaps);
    errors := CheckReasons(errors, r);
    errors := CheckLinks(errors, r, byId);
  }
}
