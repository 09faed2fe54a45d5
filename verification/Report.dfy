/** The report tree and its null leaves. */
module Trees {
  import opened Options

  // The keys of the report, dynamic dictionary keys and list positions.
  datatype Key =
    | SchemaVersion | GeneratedAt | WindowKey | From | To | Scenario | ScenarioIsCanonical
    | Scope | RepoPseudonym | KronnInstalled | RtkInstalled
    | Kpi | CompletedTasks | PerTask
    | Agents | Claude | Codex | Copilot | Kronn | Rtk
    | RawTraffic | Cost | NonCached | CacheWrite | CacheRead | Output | Reasoning | Sessions
    | AssistantCalls | Top1 | Top4 | RepoShare | WaitCalls | WaitTokens
    | Rollouts | Calls | CoverageDays | RangeCovers
    | Coverage | ObservedFrom | ObservedTo | Provenance
    | Replies | TracedPct | TracedTokens | Untraced
    | Installed | Version | Commands | RawOutput | Compacted | Saved | SavedPct | Granularity | IncludedDays | WindowCoverage
    | DataGaps | DataGapDetails | Notes | NullReasons | NullGapLinks
    | GapId | GapSource | GapCode | GapMessage
    | Index(i: nat)
    | Name(name: string)
    | PathText(path: Path)

  // A dotted path, segment by segment.
  type Path = seq<Key>

  datatype Tree = Null | Leaf | Node(fields: map<Key, Tree>) | List(items: seq<Tree>)

  // `_walk_null_paths`: the paths it yields.
  function NullPaths(t: Tree): set<Path> {
    match t
    case Null => {[]}
    case Leaf => {}
    case Node(fields) => set k, p | k in fields && p in NullPaths(fields[k]) :: [k] + p
    case List(items) => set i, p | 0 <= i < |items| && p in NullPaths(items[i]) :: [Index(i)] + p
  }

  // The value reached by following a path is null.
  predicate IsNull(t: Tree, p: Path) {
    if p == [] then t.Null?
    else
      match t
      case Node(fields) => p[0] in fields && IsNull(fields[p[0]], p[1..])
      case List(items) => p[0].Index? && p[0].i < |items| && IsNull(items[p[0].i], p[1..])
      case _ => false
  }

  // The walk yields exactly the paths that lead to a null.
  lemma {:induction false} WalkYieldsNullLeaves(t: Tree)
    ensures forall p :: p in NullPaths(t) <==> IsNull(t, p)
  {
    match t {
      case Null => assert forall p :: IsNull(t, p) ==> p == [];
      case Leaf =>
      case Node(fields) =>
        forall k | k in fields ensures forall p :: p in NullPaths(fields[k]) <==> IsNull(fields[k], p) {
          WalkYieldsNullLeaves(fields[k]);
        }
        forall p ensures p in NullPaths(t) <==> IsNull(t, p) {
          if IsNull(t, p) {
            assert p == [p[0]] + p[1..];
          }
          if p in NullPaths(t) {
            var k, q :| k in fields && q in NullPaths(fields[k]) && p == [k] + q;
            assert p[1..] == q;
          }
        }
      case List(items) =>
        forall i | 0 <= i < |items| ensures forall p :: p in NullPaths(items[i]) <==> IsNull(items[i], p) {
          WalkYieldsNullLeaves(items[i]);
        }
        forall p ensures p in NullPaths(t) <==> IsNull(t, p) {
          if IsNull(t, p) {
            assert p == [p[0]] + p[1..];
          }
          if p in NullPaths(t) {
            var i, q :| 0 <= i < |items| && q in NullPaths(items[i]) && p == [Index(i)] + q;
            assert p[1..] == q;
          }
        }
    }
  }

  function Of<T>(v: Option<T>): Tree {
    if v.None? then Null else Leaf
  }
}

/** The report, the reason of each of its nulls and the gaps those link to. */
module Reports {
  import opened Options
  import opened Windows
  import opened Gaps
  import opened Trees
  import Cl = Claude
  import Cx = Codex
  import Cp = Copilot
  import Kr = Kronn
  import Rt = Rtk

  datatype CanonicalScenario = NativeAgent | CliOneshot | CliPersistent | CliPersistentWait

  // The vocabulary of null reasons and of gap codes.
  datatype Code =
    | SourceUnavailable
    | UnsupportedMetric
    | UndefinedRatio
    | UnconfiguredCost
    | InsufficientGranularity
    | MissingDenominator
    | NotRequested
    | ProbeUnavailable
    | NoObservedEvents
    | NonCanonicalValueOmitted
    | SourceQuality
    | CoverageIncomplete
  {
    predicate IsNullReason() {
      !SourceQuality? && !CoverageIncomplete?
    }

    predicate IsGapCode() {
      this in {SourceUnavailable, InsufficientGranularity, SourceQuality, CoverageIncomplete, MissingDenominator, NonCanonicalValueOmitted}
    }

    predicate NeedsLink() {
      SourceUnavailable? || InsufficientGranularity?
    }
  }

  datatype Span = Span(from: Option<int>, to: Option<int>)

  datatype PerTaskRates = PerTaskRates(claude: Option<int>, codex: Option<int>, copilot: Option<int>)

  // `gap-N` is identified by N.
  datatype Gap = Gap(id: nat, source: Source, code: Code, message: Message)

  // The report before `null_reasons` and `null_gap_links` are added.
  datatype Body = Body(
    window: Window,
    scenario: Option<CanonicalScenario>,
    scenarioIsCanonical: Option<bool>,
    repoPseudonym: Option<string>,
    kronnInstalled: bool,
    rtkInstalled: Option<bool>,
    completedTasks: Option<int>,
    perTask: PerTaskRates,
    claude: Cl.Metrics, claudeSpan: Span,
    codex: Cx.Metrics, codexSpan: Span,
    copilot: Cp.Metrics, copilotSpan: Span,
    kronn: Kr.Metrics,
    rtk: Rt.Metrics,
    gaps: seq<Gap>,
    dataGaps: seq<Message>)

  datatype Report = Report(body: Body, reasons: map<Path, Code>, links: map<Path, nat>)

  // ---- The tree the walk sees ----

  function SpanTree(s: Span): Tree {
    Node(map[ObservedFrom := Of(s.from), ObservedTo := Of(s.to)])
  }

  function ClaudeFields(m: Cl.Metrics): map<Key, Tree> {
    map[RawTraffic := Of(m.raw), Cost := Of(m.cost), NonCached := Of(m.nonCached), CacheWrite := Of(m.cacheWrite),
        CacheRead := Of(m.cacheRead), Output := Of(m.output), AssistantCalls := Of(m.calls), Sessions := Of(m.sessions),
        Top1 := Of(m.top1), Top4 := Of(m.top4), RepoShare := Of(m.repoShare), WaitCalls := Of(m.waitCalls),
        WaitTokens := Of(m.waitTokens), Provenance := Leaf]
  }

  function CodexFields(m: Cx.Metrics): map<Key, Tree> {
    map[RawTraffic := Of(m.raw), Cost := Of(m.cost), NonCached := Of(m.nonCached), CacheWrite := Of(m.cacheWrite),
        CacheRead := Of(m.cacheRead), Output := Of(m.output), Reasoning := Of(m.reasoning), Sessions := Of(m.sessions),
        Rollouts := Of(m.rollouts), Top1 := Of(m.top1), Provenance := Leaf]
  }

  function CopilotFields(m: Cp.Metrics): map<Key, Tree> {
    map[RawTraffic := Of(m.raw), Cost := Of(m.cost), NonCached := Of(m.nonCached), CacheWrite := Of(m.cacheWrite),
        CacheRead := Of(m.cacheRead), Output := Of(m.output), Reasoning := Of(m.reasoning), Calls := Of(m.calls),
        CoverageDays := Of(m.coverageDays), RangeCovers := Of(m.rangeCovers), Provenance := Leaf]
  }

  function KronnFields(m: Kr.Metrics): map<Key, Tree> {
    map[Replies := Of(m.replies), TracedPct := Of(m.tracedPct), TracedTokens := Of(m.tracedTokens),
        Untraced := if m.untraced.None? then Null else Node(map name | name in m.untraced.value :: Name(name) := Leaf),
        Provenance := Leaf]
  }

  function RtkFields(m: Rt.Metrics): map<Key, Tree> {
    map[Installed := Of(m.installed), Version := Of(m.version), Commands := Of(m.commands), RawOutput := Of(m.raw),
        Compacted := Of(m.compacted), Saved := Of(m.saved), SavedPct := Of(m.savedPct), Granularity := Leaf,
        IncludedDays := Of(m.includedFullDays), WindowCoverage := Of(m.windowCoverage), Provenance := Leaf]
  }

  function AgentTree(fields: map<Key, Tree>, s: Span): Tree {
    Node(fields[Coverage := SpanTree(s)])
  }

  function GapTree(g: Gap): Tree {
    Node(map[GapId := Leaf, GapSource := Leaf, GapCode := Leaf, GapMessage := Leaf])
  }

  function AgentsFields(b: Body): map<Key, Tree> {
    map[Claude := AgentTree(ClaudeFields(b.claude), b.claudeSpan),
        Codex := AgentTree(CodexFields(b.codex), b.codexSpan),
        Copilot := AgentTree(CopilotFields(b.copilot), b.copilotSpan)]
  }

  function ScopeFields(b: Body): map<Key, Tree> {
    map[RepoPseudonym := Of(b.repoPseudonym), KronnInstalled := Leaf, RtkInstalled := Of(b.rtkInstalled)]
  }

  function PerTaskFields(b: Body): map<Key, Tree> {
    map[Claude := Of(b.perTask.claude), Codex := Of(b.perTask.codex), Copilot := Of(b.perTask.copilot)]
  }

  function BodyFields(b: Body): map<Key, Tree> {
    map[SchemaVersion := Leaf, GeneratedAt := Leaf, WindowKey := Node(map[From := Leaf, To := Leaf]),
        Scenario := Of(b.scenario), ScenarioIsCanonical := Of(b.scenarioIsCanonical),
        Scope := Node(ScopeFields(b)),
        Kpi := Node(map[CompletedTasks := Of(b.completedTasks), PerTask := Node(PerTaskFields(b))]),
        Agents := Node(AgentsFields(b)), Kronn := Node(KronnFields(b.kronn)), Rtk := Node(RtkFields(b.rtk)),
        DataGaps := List(seq(|b.dataGaps|, i => Leaf)),
        DataGapDetails := List(seq(|b.gaps|, i requires 0 <= i < |b.gaps| => GapTree(b.gaps[i]))),
        Notes := List([Leaf, Leaf, Leaf, Leaf])]
  }

  // What `build_report` walks.
  function BodyTree(b: Body): Tree {
    Node(BodyFields(b))
  }

  // What `validate_report` walks: everything but `null_reasons`.
  function LinkedTree(b: Body, links: map<Path, nat>): Tree {
    Node(BodyFields(b)[NullGapLinks := Node(map p | p in links :: PathText(p) := Leaf)])
  }

  // ---- `_null_reason` and `_gap_source_for_null_path` ----

  function RawOf(b: Body, agent: Key): Option<int>
    requires agent in {Claude, Codex, Copilot}
  {
    if agent == Claude then b.claude.raw else if agent == Codex then b.codex.raw else b.copilot.raw
  }

  predicate NoTasks(b: Body) {
    b.completedTasks.None? || b.completedTasks.value == 0
  }

  // `".coverage." in path`
  predicate MentionsCoverage(p: Path) {
    exists i :: 0 < i < |p| - 1 && p[i] == Coverage
  }

  function AgentReason(p: Path, b: Body): Option<Code>
    requires |p| >= 2 && p[0] == Agents
  {
    var last := p[|p| - 1];
    if p[1] !in {Claude, Codex, Copilot} then None
    else
      var raw := RawOf(b, p[1]);
      if raw.None? then Some(SourceUnavailable)
      else if last == RepoShare && raw.value > 0 then Some(NotRequested)
      else if last in {Top1, Top4, RepoShare} then Some(UndefinedRatio)
      else if MentionsCoverage(p) then Some(NoObservedEvents)
      else Some(SourceUnavailable)
  }

  function RtkReason(p: Path, m: Rt.Metrics): Code {
    if p == [Rtk, Version] && m.installed == Some(true) then ProbeUnavailable
    else if p == [Rtk, SavedPct] && m.raw == Some(0) then UndefinedRatio
    else if m.installed == Some(true) && m.windowCoverage == Some(Rt.NoDays) then InsufficientGranularity
    else SourceUnavailable
  }

  // `None` where the source raises.
  function NullReason(p: Path, b: Body, scenarioOmitted: bool): Option<Code> {
    if p == [Scenario] || p == [ScenarioIsCanonical] then
      Some(if scenarioOmitted then NotRequested else NonCanonicalValueOmitted)
    else if p == [Scope, RepoPseudonym] then Some(NotRequested)
    else if p == [Scope, RtkInstalled] then Some(ProbeUnavailable)
    else if p == [Kpi, CompletedTasks] then Some(MissingDenominator)
    else if |p| >= 3 && p[..2] == [Kpi, PerTask] then Some(if NoTasks(b) then MissingDenominator else SourceUnavailable)
    else if |p| >= 2 && p[|p| - 1] == Cost then Some(UnconfiguredCost)
    else if p == [Agents, Codex, CacheWrite] then Some(UnsupportedMetric)
    else if |p| >= 2 && p[0] == Agents then AgentReason(p, b)
    else if |p| >= 2 && p[0] == Kronn then
      Some(if p == [Kronn, TracedPct] && b.kronn.replies == Some(0) then UndefinedRatio else SourceUnavailable)
    else if |p| >= 2 && p[0] == Rtk then Some(RtkReason(p, b.rtk))
    else None
  }

  function AgentSource(k: Key): Option<Source> {
    match k
    case Claude => Some(FromClaude)
    case Codex => Some(FromCodex)
    case Copilot => Some(FromCopilot)
    case _ => None
  }

  function GapSourceOf(p: Path): Option<Source> {
    if |p| >= 2 && p[0] == Agents then AgentSource(p[1])
    else if |p| >= 3 && p[..2] == [Kpi, PerTask] then AgentSource(p[|p| - 1])
    else if |p| >= 2 && p[0] == Kronn then Some(FromKronn)
    else if (|p| >= 2 && p[0] == Rtk) || p == [Scope, RtkInstalled] then Some(FromRtk)
    else None
  }

  // ---- `_build_null_reasons` ----

  ghost predicate Explains(reasons: map<Path, Code>, t: Tree, b: Body, scenarioOmitted: bool) {
    && reasons.Keys == NullPaths(t)
    && forall p :: p in reasons ==> NullReason(p, b, scenarioOmitted) == Some(reasons[p])
  }

  // `None` when some null has no reason contract.
  method BuildNullReasons(t: Tree, b: Body, scenarioOmitted: bool) returns (reasons: Option<map<Path, Code>>)
    ensures reasons.Some? <==> forall p :: p in NullPaths(t) ==> NullReason(p, b, scenarioOmitted).Some?
    ensures reasons.Some? ==> Explains(reasons.value, t, b, scenarioOmitted)
  {
    hide NullReason;
    var paths := NullPaths(t);
    var todo, table := paths, map[];
    while todo != {}
      invariant todo <= paths && table.Keys == paths - todo
      invariant forall p :: p in table ==> NullReason(p, b, scenarioOmitted) == Some(table[p])
      decreases todo
    {
      var p :| p in todo;
      var reason := NullReason(p, b, scenarioOmitted);
      if reason.None? {
        return None;
      }
      table := table[p := reason.value];
      todo := todo - {p};
    }
    reasons := Some(table);
  }

  const REPO_SHARE_PATH: Path := [Agents, Claude, RepoShare]

  // The collectors' one override, applied only to a path that is null.
  function Override(reasons: map<Path, Code>, repoNotRequested: bool): map<Path, Code> {
    if repoNotRequested && REPO_SHARE_PATH in reasons then reasons[REPO_SHARE_PATH := NotRequested] else reasons
  }

  // ---- `_build_structured_gaps` ----

  function GapCodeOf(unavailable: bool, m: Message): Code {
    if m.NamesGranularity() then InsufficientGranularity
    else if unavailable then SourceUnavailable
    else if SaysCoverage in m.Phrases() then CoverageIncomplete
    else SourceQuality
  }

  datatype SourceGaps = SourceGaps(source: Source, unavailable: bool, messages: seq<Message>) {
    function Messages(): seq<Message> {
      if unavailable && messages == [] then [MetricsUnavailable(source)] else messages
    }
  }

  function Numbered(start: nat, s: SourceGaps): seq<Gap> {
    seq(|s.Messages()|, i requires 0 <= i < |s.Messages()| =>
      Gap(start + i + 1, s.source, GapCodeOf(s.unavailable, s.Messages()[i]), s.Messages()[i]))
  }

  function GapsOf(sources: seq<SourceGaps>): seq<Gap> {
    if sources == [] then []
    else
      var before := GapsOf(sources[..|sources| - 1]);
      before + Numbered(|before|, sources[|sources| - 1])
  }

  function AllGaps(sources: seq<SourceGaps>, noncanonical: bool, denominatorMissing: bool): seq<Gap> {
    var a := GapsOf(sources);
    var b := if noncanonical then a + [Gap(|a| + 1, FromReport, NonCanonicalValueOmitted, ScenarioOmitted)] else a;
    if denominatorMissing then b + [Gap(|b| + 1, FromKpi, MissingDenominator, DenominatorMissing)] else b
  }

  // The inner loop, over the messages of one source.
  method AppendGaps(before: seq<Gap>, s: SourceGaps) returns (details: seq<Gap>)
    ensures details == before + Numbered(|before|, s)
  {
    hide GapCodeOf;
    var messages := s.messages;
    if s.unavailable && messages == [] {
      messages := messages + [MetricsUnavailable(s.source)];
    }
    details := before;
    for j := 0 to |messages|
      invariant details == before + Numbered(|before|, s)[..j]
    {
      details := details + [Gap(|details| + 1, s.source, GapCodeOf(s.unavailable, messages[j]), messages[j])];
    }
  }

  method BuildStructuredGaps(sources: seq<SourceGaps>, noncanonical: bool, denominatorMissing: bool) returns (details: seq<Gap>)
    ensures details == AllGaps(sources, noncanonical, denominatorMissing)
  {
    hide Numbered;
    details := [];
    for i := 0 to |sources|
      invariant details == GapsOf(sources[..i])
    {
      assert sources[..i + 1][..i] == sources[..i];
      details := AppendGaps(details, sources[i]);
    }
    assert sources[..|sources|] == sources;
    if noncanonical {
      details := details + [Gap(|details| + 1, FromReport, NonCanonicalValueOmitted, ScenarioOmitted)];
    }
    if denominatorMissing {
      details := details + [Gap(|details| + 1, FromKpi, MissingDenominator, DenominatorMissing)];
    }
  }

  // ---- `_build_null_gap_links` ----

  // The first gap of that source and code.
  function FirstMatch(gaps: seq<Gap>, source: Source, code: Code): Option<Gap> {
    if gaps == [] then None
    else if gaps[0].source == source && gaps[0].code == code then Some(gaps[0])
    else FirstMatch(gaps[1..], source, code)
  }

  lemma {:induction false} FirstMatchFacts(gaps: seq<Gap>, source: Source, code: Code)
    ensures FirstMatch(gaps, source, code).Some? <==> exists g :: g in gaps && g.source == source && g.code == code
    ensures var m := FirstMatch(gaps, source, code);
            m.Some? ==> m.value in gaps && m.value.source == source && m.value.code == code
  {
    if gaps != [] {
      FirstMatchFacts(gaps[1..], source, code);
      assert forall g :: g in gaps <==> g == gaps[0] || g in gaps[1..];
    }
  }

  function LinkOf(p: Path, code: Code, gaps: seq<Gap>): Option<Gap> {
    var source := GapSourceOf(p);
    if source.None? then None else FirstMatch(gaps, source.value, code)
  }

  ghost predicate Linked(links: map<Path, nat>, reasons: map<Path, Code>, gaps: seq<Gap>) {
    && (forall p :: p in links <==> p in reasons && reasons[p].NeedsLink())
    && forall p :: p in links ==> LinkOf(p, reasons[p], gaps).Some? && links[p] == LinkOf(p, reasons[p], gaps).value.id
  }

  // `None` when some unavailable null has no gap.
  method BuildNullGapLinks(reasons: map<Path, Code>, gaps: seq<Gap>) returns (links: Option<map<Path, nat>>)
    ensures links.Some? <==> forall p :: p in reasons && reasons[p].NeedsLink() ==> LinkOf(p, reasons[p], gaps).Some?
    ensures links.Some? ==> Linked(links.value, reasons, gaps)
  {
    hide LinkOf;
    var todo, table := reasons.Keys, map[];
    while todo != {}
      invariant todo <= reasons.Keys
      invariant forall p :: p in table <==> p in reasons && p !in todo && reasons[p].NeedsLink()
      invariant forall p :: p in table ==> LinkOf(p, reasons[p], gaps).Some? && table[p] == LinkOf(p, reasons[p], gaps).value.id
      decreases todo
    {
      var p :| p in todo;
      todo := todo - {p};
      if reasons[p].NeedsLink() {
        var gap := LinkOf(p, reasons[p], gaps);
        if gap.None? {
          return None;
        }
        table := table[p := gap.value.id];
      }
    }
    links := Some(table);
  }
}
