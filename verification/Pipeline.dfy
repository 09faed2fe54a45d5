/** The assembly theorem: which collected results `build_report` turns into a report
    that its own validator accepts. */
module Pipeline {
  import opened Options
  import opened Counters
  import opened Sums
  import opened Percent
  import opened Windows
  import opened Gaps
  import opened Trees
  import opened Reports
  import opened Validation
  import opened Assembly
  import opened Shapes
  import Cl = Claude
  import Cx = Codex
  import Cp = Copilot
  import Kr = Kronn
  import Rt = Rtk

  ghost predicate Shaped(inputs: Inputs) {
    && inputs.window.Valid()
    && ClaudeShape(inputs.claude, inputs.window)
    && CodexShape(inputs.codex, inputs.window)
    && CopilotShape(inputs.copilot)
    && KronnShape(inputs.kronn)
    && RtkShape(inputs.rtk, inputs.window)
  }

  // Some failure text quotes the marker by which the validator recognises an omitted label.
  predicate FailureQuotesLabel(inputs: Inputs) {
    exists i, j :: 0 <= i < |inputs.Sources()| && 0 <= j < |inputs.Sources()[i].messages|
                   && SaysNonCanonicalLabel in inputs.Sources()[i].messages[j].Phrases()
  }

  predicate LabelReadable(inputs: Inputs) {
    match inputs.scenario
    case Canonical(_) => true
    case FreeForm => true
    case Omitted => !FailureQuotesLabel(inputs)
    case Empty => FailureQuotesLabel(inputs)
  }

  // No unavailable source is explained by a text that reads as a granularity problem.
  predicate FailuresReadable(inputs: Inputs) {
    && (inputs.copilot.metrics.raw.None? ==> ExplainsItself(inputs.copilot.gaps))
    && (inputs.kronn.metrics.replies.None? ==> ExplainsItself(inputs.kronn.gaps))
    && (inputs.rtk.metrics.windowCoverage.None? ==> ExplainsItself(inputs.rtk.gaps))
  }

  // The RTK probe was readable over an empty window that sits on a midnight.
  predicate EmptyMidnight(inputs: Inputs) {
    inputs.rtk.metrics.windowCoverage == Some(Rt.Complete) && inputs.window.start == inputs.window.end
  }

  // A top share is zero only when it is at most half a hundredth of a percent,
  // which takes at least 20000 sessions.
  predicate SharesVisible(inputs: Inputs) {
    inputs.claude.metrics.top1 != Some(0) && inputs.codex.metrics.top1 != Some(0)
  }

  // The arithmetic the collectors leave to their sources.
  ghost predicate SourcesConsistent(inputs: Inputs) {
    && SessionsCovered(inputs.codex.metrics)
    && CopilotConsistent(inputs.copilot, inputs.window)
    && SharesAgree(inputs.kronn.metrics)
  }

  /** What a caller can check on the five results before assembling. */
  ghost predicate Assemblable(inputs: Inputs) {
    && NullOrCounter(inputs.completedTasks)
    && LabelReadable(inputs)
    && FailuresReadable(inputs)
    && !EmptyMidnight(inputs)
    && SharesVisible(inputs)
    && SourcesConsistent(inputs)
  }

  // ---- What the parts of the inputs become ----

  lemma BodyIs(inputs: Inputs)
    ensures var b := inputs.Body();
            && b.window == inputs.window && b.completedTasks == inputs.completedTasks
            && b.claude == inputs.claude.metrics && b.codex == inputs.codex.metrics && b.copilot == inputs.copilot.metrics
            && b.kronn == inputs.kronn.metrics && b.rtk == inputs.rtk.metrics
            && b.gaps == inputs.Gaps() && b.dataGaps == MessagesOf(inputs.Gaps())
            && (b.scenario.Some? <==> inputs.scenario.Canonical?) && (b.scenarioIsCanonical.Some? <==> inputs.scenario.Canonical?)
  {
    hide Inputs.Gaps, MessagesOf, Rate;
  }

  lemma SourcesAre(inputs: Inputs)
    ensures var s := inputs.Sources();
            && |s| == 5
            && s[0] == SourceGaps(FromClaude, inputs.claude.metrics.raw.None?, inputs.claude.gaps)
            && s[1] == SourceGaps(FromCodex, inputs.codex.metrics.raw.None?, inputs.codex.gaps)
            && s[2] == SourceGaps(FromCopilot, inputs.copilot.metrics.raw.None?, inputs.copilot.gaps)
            && s[3] == SourceGaps(FromKronn, inputs.kronn.metrics.replies.None?, inputs.kronn.gaps)
            && s[4] == SourceGaps(FromRtk, inputs.rtk.metrics.saved.None?, inputs.rtk.gaps)
  {
  }

  lemma ShapesAre(inputs: Inputs)
    requires Shaped(inputs)
    ensures inputs.window.Valid()
    ensures ClaudeShape(inputs.claude, inputs.window) && CodexShape(inputs.codex, inputs.window)
    ensures CopilotShape(inputs.copilot) && KronnShape(inputs.kronn) && RtkShape(inputs.rtk, inputs.window)
  {
    hide ClaudeShape, CodexShape, CopilotShape, KronnShape, RtkShape;
  }

  // ---- Where the nulls of a report body can be ----

  ghost predicate FlatNull(fields: map<Key, Tree>, q: Path) {
    |q| == 1 && q[0] in fields && fields[q[0]].Null?
  }

  lemma LeafNull(t: Tree, q: Path)
    requires t.Null? || t.Leaf?
    ensures IsNull(t, q) <==> q == [] && t.Null?
  {
  }

  lemma FlatNode(fields: map<Key, Tree>, q: Path)
    requires forall k :: k in fields ==> fields[k].Null? || fields[k].Leaf?
    ensures IsNull(Node(fields), q) <==> FlatNull(fields, q)
  {
    if q != [] && q[0] in fields {
      assert IsNull(fields[q[0]], q[1..]) <==> fields[q[0]].Null? && |q| == 1;
    }
  }

  ghost predicate AgentNull(fields: map<Key, Tree>, s: Span, q: Path) {
    || FlatNull(fields, q)
    || (|q| == 2 && q[0] == Coverage && q[1] == ObservedFrom && s.from.None?)
    || (|q| == 2 && q[0] == Coverage && q[1] == ObservedTo && s.to.None?)
  }

  lemma AgentNode(fields: map<Key, Tree>, s: Span, q: Path)
    requires forall k :: k in fields ==> fields[k].Null? || fields[k].Leaf?
    requires Coverage !in fields
    ensures IsNull(AgentTree(fields, s), q) <==> AgentNull(fields, s, q)
  {
    if q != [] && q[0] == Coverage {
      FlatNode(map[ObservedFrom := Of(s.from), ObservedTo := Of(s.to)], q[1..]);
    } else {
      FlatNode(fields, q);
    }
  }

  ghost predicate Flat(fields: map<Key, Tree>) {
    Coverage !in fields && forall k :: k in fields ==> fields[k].Null? || fields[k].Leaf?
  }

  lemma AgentFieldsFlat(b: Body)
    ensures Flat(ClaudeFields(b.claude)) && Flat(CodexFields(b.codex)) && Flat(CopilotFields(b.copilot))
  {
  }

  lemma AgentsFieldsAre(b: Body, k: Key)
    ensures k in AgentsFields(b) <==> k in {Claude, Codex, Copilot}
    ensures AgentsFields(b)[Claude] == AgentTree(ClaudeFields(b.claude), b.claudeSpan)
    ensures AgentsFields(b)[Codex] == AgentTree(CodexFields(b.codex), b.codexSpan)
    ensures AgentsFields(b)[Copilot] == AgentTree(CopilotFields(b.copilot), b.copilotSpan)
  {
  }

  ghost predicate AgentsNull(b: Body, p: Path) {
    && |p| >= 2 && p[0] == Agents
    && match p[1]
       case Claude => AgentNull(ClaudeFields(b.claude), b.claudeSpan, p[2..])
       case Codex => AgentNull(CodexFields(b.codex), b.codexSpan, p[2..])
       case Copilot => AgentNull(CopilotFields(b.copilot), b.copilotSpan, p[2..])
       case _ => false
  }

  lemma AgentsNode(b: Body, p: Path)
    requires p != [] && p[0] == Agents
    ensures IsNull(Node(AgentsFields(b)), p[1..]) <==> AgentsNull(b, p)
  {
    hide ClaudeFields, CodexFields, CopilotFields, AgentsFields, AgentTree, AgentNull;
    if |p| >= 2 {
      AgentFieldsFlat(b);
      AgentsFieldsAre(b, p[1]);
      var q := p[1..];
      assert q[0] == p[1] && q[1..] == p[2..];
      match p[1] {
        case Claude => AgentNode(ClaudeFields(b.claude), b.claudeSpan, p[2..]);
        case Codex => AgentNode(CodexFields(b.codex), b.codexSpan, p[2..]);
        case Copilot => AgentNode(CopilotFields(b.copilot), b.copilotSpan, p[2..]);
        case _ =>
      }
    }
  }

  ghost predicate PerTaskNull(b: Body, p: Path) {
    |p| == 3 && p[0] == Kpi && p[1] == PerTask && p[2] in PerTaskFields(b) && PerTaskFields(b)[p[2]].Null?
  }

  ghost predicate TopNull(b: Body, p: Path) {
    || (p == [Scenario] && b.scenario.None?)
    || (p == [ScenarioIsCanonical] && b.scenarioIsCanonical.None?)
    || (p == [Scope, RepoPseudonym] && b.repoPseudonym.None?)
    || (p == [Scope, RtkInstalled] && b.rtkInstalled.None?)
    || (p == [Kpi, CompletedTasks] && b.completedTasks.None?)
  }

  ghost predicate BodyNull(b: Body, p: Path) {
    || TopNull(b, p)
    || PerTaskNull(b, p)
    || AgentsNull(b, p)
    || (|p| >= 1 && p[0] == Kronn && FlatNull(KronnFields(b.kronn), p[1..]))
    || (|p| >= 1 && p[0] == Rtk && FlatNull(RtkFields(b.rtk), p[1..]))
  }

  lemma KpiNode(b: Body, p: Path)
    requires p != [] && p[0] == Kpi
    ensures IsNull(Node(map[CompletedTasks := Of(b.completedTasks), PerTask := Node(PerTaskFields(b))]), p[1..])
            ==> PerTaskNull(b, p) || (p == [Kpi, CompletedTasks] && b.completedTasks.None?)
  {
    if |p| >= 2 {
      var q := p[1..];
      assert q[1..] == p[2..];
      LeafNull(Of(b.completedTasks), p[2..]);
      if p[1] == PerTask {
        FlatNode(PerTaskFields(b), p[2..]);
      } else if p[1] == CompletedTasks && |p| == 2 {
        assert p == [Kpi, CompletedTasks];
      }
    }
  }

  lemma ScopeNode(b: Body, p: Path)
    requires p != [] && p[0] == Scope
    ensures IsNull(Node(ScopeFields(b)), p[1..]) ==>
              (p == [Scope, RepoPseudonym] && b.repoPseudonym.None?) || (p == [Scope, RtkInstalled] && b.rtkInstalled.None?)
  {
    FlatNode(ScopeFields(b), p[1..]);
    if |p| == 2 {
      assert p == [p[0], p[1]];
    }
  }

  lemma KronnNode(b: Body, q: Path)
    ensures IsNull(Node(KronnFields(b.kronn)), q) <==> FlatNull(KronnFields(b.kronn), q)
  {
    var fields := KronnFields(b.kronn);
    if q != [] && q[0] == Untraced && b.kronn.untraced.Some? {
      var names := map name | name in b.kronn.untraced.value :: Name(name) := Leaf;
      FlatNode(names, q[1..]);
    } else if q != [] && q[0] in fields {
      assert IsNull(fields[q[0]], q[1..]) <==> fields[q[0]].Null? && |q| == 1;
    }
  }

  lemma NoNullInLists(b: Body, q: Path)
    ensures !IsNull(List(seq(|b.dataGaps|, i => Leaf)), q)
    ensures !IsNull(List(seq(|b.gaps|, i requires 0 <= i < |b.gaps| => GapTree(b.gaps[i]))), q)
    ensures !IsNull(List([Leaf, Leaf, Leaf, Leaf]), q)
    ensures !IsNull(Node(map[From := Leaf, To := Leaf]), q)
  {
    FlatNode(map[From := Leaf, To := Leaf], q);
    if q != [] && q[0].Index? && q[0].i < |b.gaps| {
      FlatNode(map[GapId := Leaf, GapSource := Leaf, GapCode := Leaf, GapMessage := Leaf], q[1..]);
    }
  }

  lemma BodyFieldsAre(b: Body, k: Key)
    ensures var f := BodyFields(b);
            && f.Keys == {SchemaVersion, GeneratedAt, WindowKey, Scenario, ScenarioIsCanonical, Scope, Kpi, Agents, Kronn, Rtk,
                          DataGaps, DataGapDetails, Notes}
            && f[SchemaVersion] == Leaf && f[GeneratedAt] == Leaf && f[WindowKey] == Node(map[From := Leaf, To := Leaf])
            && f[Scenario] == Of(b.scenario) && f[ScenarioIsCanonical] == Of(b.scenarioIsCanonical)
            && f[Scope] == Node(ScopeFields(b))
            && f[Kpi] == Node(map[CompletedTasks := Of(b.completedTasks), PerTask := Node(PerTaskFields(b))])
            && f[Agents] == Node(AgentsFields(b)) && f[Kronn] == Node(KronnFields(b.kronn)) && f[Rtk] == Node(RtkFields(b.rtk))
            && f[DataGaps] == List(seq(|b.dataGaps|, i => Leaf))
            && f[DataGapDetails] == List(seq(|b.gaps|, i requires 0 <= i < |b.gaps| => GapTree(b.gaps[i])))
            && f[Notes] == List([Leaf, Leaf, Leaf, Leaf])
  {
    hide KronnFields, RtkFields, AgentsFields, PerTaskFields, ScopeFields, GapTree;
  }

  // Every null of the body is one of these.
  lemma NullsOfBody(b: Body, p: Path)
    requires IsNull(BodyTree(b), p)
    ensures BodyNull(b, p)
  {
    hide BodyFields, KronnFields, RtkFields, AgentsFields, PerTaskFields, ScopeFields, AgentsNull, PerTaskNull, GapTree, FlatNull;
    BodyFieldsAre(b, p[0]);
    NoNullInLists(b, p[1..]);
    LeafNull(Leaf, p[1..]);
    LeafNull(Of(b.scenario), p[1..]);
    LeafNull(Of(b.scenarioIsCanonical), p[1..]);
    hide IsNull;
    if p[0] == Agents {
      AgentsNode(b, p);
    } else if p[0] == Kpi {
      KpiNode(b, p);
    } else if p[0] == Scope {
      ScopeNode(b, p);
    } else if p[0] == Kronn {
      KronnNode(b, p[1..]);
    } else if p[0] == Rtk {
      RtkNode(b, p[1..]);
    }
  }

  lemma RtkNode(b: Body, q: Path)
    ensures IsNull(Node(RtkFields(b.rtk)), q) <==> FlatNull(RtkFields(b.rtk), q)
  {
    FlatNode(RtkFields(b.rtk), q);
  }

  // The walk over the linked report meets the same nulls: the links hold none.
  lemma LinksHoldNoNull(b: Body, links: map<Path, nat>)
    ensures NullPaths(LinkedTree(b, links)) == NullPaths(BodyTree(b))
  {
    hide BodyFields;
    WalkYieldsNullLeaves(LinkedTree(b, links));
    WalkYieldsNullLeaves(BodyTree(b));
    forall p ensures IsNull(LinkedTree(b, links), p) <==> IsNull(BodyTree(b), p) {
      if p != [] && p[0] == NullGapLinks {
        FlatNode(map q | q in links :: PathText(q) := Leaf, p[1..]);
        NoLinksInBody(b);
      }
    }
  }

  lemma NoLinksInBody(b: Body)
    ensures NullGapLinks !in BodyFields(b)
  {
  }

  // ---- The reason of each null ----

  lemma AgentsReason(b: Body, p: Path, omitted: bool)
    requires |p| >= 3 && p[0] == Agents
    ensures NullReason(p, b, omitted) ==
            if p[|p| - 1] == Cost then Some(UnconfiguredCost)
            else if p == [Agents, Codex, CacheWrite] then Some(UnsupportedMetric)
            else AgentReason(p, b)
  {
    hide AgentReason;
    assert p[..2][0] == Agents;
  }

  lemma CoverageReason(b: Body, p: Path)
    requires |p| == 4 && p[0] == Agents && p[1] in {Claude, Codex, Copilot} && p[2] == Coverage && p[3] in {ObservedFrom, ObservedTo}
    ensures AgentReason(p, b) == Some(if RawOf(b, p[1]).None? then SourceUnavailable else NoObservedEvents)
  {
    assert 0 < 2 < |p| - 1 && p[2] == Coverage;
  }

  lemma FieldReason(b: Body, p: Path)
    requires |p| == 3 && p[0] == Agents && p[1] in {Claude, Codex, Copilot} && RawOf(b, p[1]).Some?
    requires p[2] in {Top1, Top4, RepoShare}
    ensures AgentReason(p, b) in {Some(NotRequested), Some(UndefinedRatio)}
  {
  }

  // The field of a measured provider that is null is a cost, a share, or Codex's unsupported cache writes.
  lemma MeasuredNullField(inputs: Inputs, p: Path)
    requires Shaped(inputs) && |p| == 3 && AgentsNull(inputs.Body(), p) && RawOf(inputs.Body(), p[1]).Some?
    ensures p[2] in {Cost, Top1, Top4, RepoShare} || p == [Agents, Codex, CacheWrite]
  {
    hide Inputs.Gaps, MessagesOf, Rate, ClaudeShape, CodexShape, CopilotShape, KronnShape, RtkShape, ClaudeFields, CodexFields, CopilotFields;
    assert p == [p[0], p[1], p[2]] && p[2..][0] == p[2];
    match p[1] {
      case Claude => ClaudeNullFields(inputs, p[2]);
      case Codex => CodexNullFields(inputs, p[2]);
      case Copilot => CopilotNullFields(inputs, p[2]);
      case _ =>
    }
  }

  lemma AgentsNullForm(b: Body, p: Path)
    requires AgentsNull(b, p)
    ensures p[0] == Agents && p[1] in {Claude, Codex, Copilot}
    ensures |p| == 3 || (|p| == 4 && p[2] == Coverage && p[3] in {ObservedFrom, ObservedTo})
  {
    hide ClaudeFields, CodexFields, CopilotFields;
  }

  // A provider's null needs a gap only when its raw traffic is unavailable.
  lemma AgentNullReason(inputs: Inputs, p: Path)
    requires Shaped(inputs) && AgentsNull(inputs.Body(), p)
    ensures var b, reason := inputs.Body(), NullReason(p, inputs.Body(), inputs.scenario.Omitted?);
            && reason.Some? && reason.value.IsNullReason()
            && (reason.value.NeedsLink() ==> reason == Some(SourceUnavailable) && p[1] in {Claude, Codex, Copilot} && RawOf(b, p[1]).None?)
  {
    hide NullReason, Inputs.Body, Shaped, AgentsNull, MentionsCoverage, RawOf;
    var b := inputs.Body();
    AgentsNullForm(b, p);
    AgentsReason(b, p, inputs.scenario.Omitted?);
    if |p| == 4 {
      CoverageReason(b, p);
    } else if RawOf(b, p[1]).Some? {
      MeasuredNullField(inputs, p);
      if p[2] in {Top1, Top4, RepoShare} {
        FieldReason(b, p);
      }
    }
  }

  // The only nulls a measured Claude result leaves.
  lemma ClaudeNullFields(inputs: Inputs, k: Key)
    requires ClaudeShape(inputs.claude, inputs.window) && inputs.claude.metrics.raw.Some?
    requires k in ClaudeFields(inputs.claude.metrics) && ClaudeFields(inputs.claude.metrics)[k].Null?
    ensures k in {Cost, Top1, Top4, RepoShare}
  {
    hide OwnMessages, SpanAcceptable;
  }

  lemma CodexNullFields(inputs: Inputs, k: Key)
    requires CodexShape(inputs.codex, inputs.window) && inputs.codex.metrics.raw.Some?
    requires k in CodexFields(inputs.codex.metrics) && CodexFields(inputs.codex.metrics)[k].Null?
    ensures k in {Cost, CacheWrite, Top1}
  {
    hide OwnMessages, SpanAcceptable;
  }

  lemma CopilotNullFields(inputs: Inputs, k: Key)
    requires CopilotShape(inputs.copilot) && inputs.copilot.metrics.raw.Some?
    requires k in CopilotFields(inputs.copilot.metrics) && CopilotFields(inputs.copilot.metrics)[k].Null?
    ensures k == Cost
  {
    hide OwnMessages, SpanAcceptable;
  }

  lemma KronnReasonIs(b: Body, p: Path, omitted: bool)
    requires |p| == 2 && p[0] == Kronn && p[1] != Cost
    ensures NullReason(p, b, omitted) ==
            Some(if p[1] == TracedPct && b.kronn.replies == Some(0) then UndefinedRatio else SourceUnavailable)
  {
    assert p == [p[0], p[1]];
  }

  // The only null a measured Kronn result leaves.
  lemma KronnNullField(m: Kr.Metrics, k: Key)
    requires KronnFit(m) && k in KronnFields(m) && KronnFields(m)[k].Null?
    ensures k == TracedPct && m.replies == Some(0)
  {
    hide SumMap;
  }

  lemma KronnFieldIsNotCost(m: Kr.Metrics, p: Path)
    requires |p| >= 1 && FlatNull(KronnFields(m), p[1..])
    ensures |p| == 2 && p[1] in KronnFields(m) && KronnFields(m)[p[1]].Null? && p[1] != Cost
  {
    assert |p| == 2 && p[1..][0] == p[1];
  }

  lemma KronnNullReason(inputs: Inputs, p: Path)
    requires Shaped(inputs) && |p| >= 1 && p[0] == Kronn && FlatNull(KronnFields(inputs.kronn.metrics), p[1..])
    ensures var reason := NullReason(p, inputs.Body(), inputs.scenario.Omitted?);
            && reason.Some? && reason.value.IsNullReason()
            && (reason.value.NeedsLink() ==> reason == Some(SourceUnavailable) && inputs.kronn.metrics.replies.None?)
  {
    hide Shaped, ClaudeShape, CodexShape, CopilotShape, RtkShape, OwnMessages, KronnFit, KronnFields, FlatNull, NullReason, Inputs.Body;
    var m := inputs.kronn.metrics;
    KronnFieldIsNotCost(m, p);
    BodyIs(inputs);
    ShapesAre(inputs);
    KronnReasonIs(inputs.Body(), p, inputs.scenario.Omitted?);
    if m.replies.Some? {
      KronnNullField(m, p[1]);
    }
  }

  lemma RtkReasonIs(b: Body, p: Path, omitted: bool)
    requires |p| == 2 && p[0] == Rtk && p[1] != Cost
    ensures NullReason(p, b, omitted) == Some(RtkReason(p, b.rtk))
  {
    hide RtkReason;
  }

  lemma RtkFieldIsNotCost(m: Rt.Metrics, p: Path)
    requires |p| >= 1 && FlatNull(RtkFields(m), p[1..])
    ensures |p| == 2 && p[1] in RtkFields(m) && RtkFields(m)[p[1]].Null? && p[1] != Cost
  {
    assert |p| == 2 && p[1..][0] == p[1];
  }

  lemma RtkReasonMeans(r: Rt.Result, w: Window, p: Path)
    requires RtkShape(r, w) && |p| == 2 && p[0] == Rtk && p[1] in RtkFields(r.metrics) && RtkFields(r.metrics)[p[1]].Null?
    ensures var m, reason := r.metrics, RtkReason(p, r.metrics);
            && reason.IsNullReason()
            && (reason == SourceUnavailable ==> m.windowCoverage.None? || (m.windowCoverage == Some(Rt.Complete) && m.saved.None?))
            && (reason == InsufficientGranularity ==> m.windowCoverage == Some(Rt.NoDays))
  {
    hide OwnMessages, FullDays;
    assert p == [p[0], p[1]];
  }

  // An RTK null is a probe gap, an undefined ratio, a granularity gap without full days, or an unavailable source.
  lemma RtkNullReason(inputs: Inputs, p: Path)
    requires Shaped(inputs) && |p| >= 1 && p[0] == Rtk && FlatNull(RtkFields(inputs.rtk.metrics), p[1..])
    ensures var m, reason := inputs.rtk.metrics, NullReason(p, inputs.Body(), inputs.scenario.Omitted?);
            && reason.Some? && reason.value.IsNullReason()
            && (reason == Some(SourceUnavailable) ==> m.windowCoverage.None? || (m.windowCoverage == Some(Rt.Complete) && m.saved.None?))
            && (reason == Some(InsufficientGranularity) ==> m.windowCoverage == Some(Rt.NoDays))
  {
    RtkFieldIsNotCost(inputs.rtk.metrics, p);
    hide Shaped, ClaudeShape, CodexShape, CopilotShape, KronnShape, RtkShape, RtkFields, FlatNull, NullReason, RtkReason, Inputs.Body;
    BodyIs(inputs);
    ShapesAre(inputs);
    RtkReasonIs(inputs.Body(), p, inputs.scenario.Omitted?);
    RtkReasonMeans(inputs.rtk, inputs.window, p);
  }

  lemma PerTaskReason(inputs: Inputs, p: Path)
    requires PerTaskNull(inputs.Body(), p)
    ensures p[2] in {Claude, Codex, Copilot}
    ensures NullReason(p, inputs.Body(), inputs.scenario.Omitted?) ==
            Some(if NoTasks(inputs.Body()) then MissingDenominator else SourceUnavailable)
  {
    assert p[..2] == [Kpi, PerTask];
    hide Inputs.Gaps;
  }

  lemma TopReason(inputs: Inputs, p: Path)
    requires TopNull(inputs.Body(), p)
    ensures var reason := NullReason(p, inputs.Body(), inputs.scenario.Omitted?);
            reason.Some? && reason.value.IsNullReason() && !reason.value.NeedsLink()
  {
    hide Inputs.Gaps;
  }

  // No null of a shaped report lacks a reason contract.
  lemma EveryNullExplained(inputs: Inputs)
    requires Shaped(inputs)
    ensures Explained(inputs)
    ensures forall p :: p in NullPaths(BodyTree(inputs.Body())) ==>
              NullReason(p, inputs.Body(), inputs.scenario.Omitted?).Some? && NullReason(p, inputs.Body(), inputs.scenario.Omitted?).value.IsNullReason()
  {
    WalkYieldsNullLeaves(BodyTree(inputs.Body()));
    hide NullReason, Shaped, IsNull, NullPaths, BodyTree;
    forall p | p in NullPaths(BodyTree(inputs.Body()))
      ensures NullReason(p, inputs.Body(), inputs.scenario.Omitted?).Some?
      ensures NullReason(p, inputs.Body(), inputs.scenario.Omitted?).value.IsNullReason()
    {
      NullExplained(inputs, p);
    }
  }

  lemma NullExplained(inputs: Inputs, p: Path)
    requires Shaped(inputs) && IsNull(BodyTree(inputs.Body()), p)
    ensures NullReason(p, inputs.Body(), inputs.scenario.Omitted?).Some?
    ensures NullReason(p, inputs.Body(), inputs.scenario.Omitted?).value.IsNullReason()
  {
    hide NullReason, Shaped, TopNull, PerTaskNull, AgentsNull, FlatNull, IsNull, NullPaths, BodyTree, KronnFields, RtkFields, Inputs.Body;
    var b := inputs.Body();
    BodyIs(inputs);
    NullsOfBody(b, p);
    if TopNull(b, p) {
      TopReason(inputs, p);
    } else if PerTaskNull(b, p) {
      PerTaskReason(inputs, p);
    } else if AgentsNull(b, p) {
      AgentNullReason(inputs, p);
    } else if p[0] == Kronn {
      KronnNullReason(inputs, p);
    } else {
      RtkNullReason(inputs, p);
    }
  }

  // ---- Which gaps exist ----

  ghost predicate EmitsOne(s: SourceGaps, source: Source, code: Code) {
    s.source == source && exists j :: 0 <= j < |s.Messages()| && GapCodeOf(s.unavailable, s.Messages()[j]) == code
  }

  ghost predicate Emits(sources: seq<SourceGaps>, source: Source, code: Code) {
    exists i :: 0 <= i < |sources| && EmitsOne(sources[i], source, code)
  }

  ghost predicate HasGap(gaps: seq<Gap>, source: Source, code: Code) {
    exists g :: g in gaps && g.source == source && g.code == code
  }

  lemma NumberedHas(start: nat, s: SourceGaps, source: Source, code: Code)
    ensures HasGap(Numbered(start, s), source, code) <==>
              EmitsOne(s, source, code)
  {
    hide GapCodeOf, SourceGaps.Messages;
    var n := Numbered(start, s);
    if HasGap(n, source, code) {
      var g :| g in n && g.source == source && g.code == code;
      var j :| 0 <= j < |n| && n[j] == g;
    }
    if s.source == source && exists j :: 0 <= j < |s.Messages()| && GapCodeOf(s.unavailable, s.Messages()[j]) == code {
      var j :| 0 <= j < |s.Messages()| && GapCodeOf(s.unavailable, s.Messages()[j]) == code;
      assert n[j] in n;
    }
  }

  lemma HasGapConcat(a: seq<Gap>, b: seq<Gap>, source: Source, code: Code)
    ensures HasGap(a + b, source, code) <==> HasGap(a, source, code) || HasGap(b, source, code)
  {
  }

  lemma EmitsLast(front: seq<SourceGaps>, last: SourceGaps, source: Source, code: Code)
    ensures Emits(front + [last], source, code) <==> Emits(front, source, code) || EmitsOne(last, source, code)
  {
    hide EmitsOne;
    var all := front + [last];
    assert all[|front|] == last && forall i :: 0 <= i < |front| ==> all[i] == front[i];
  }

  lemma {:induction false} GapsOfHas(sources: seq<SourceGaps>, source: Source, code: Code)
    ensures HasGap(GapsOf(sources), source, code) <==> Emits(sources, source, code)
  {
    hide EmitsOne, Numbered;
    if sources != [] {
      var front, last := sources[..|sources| - 1], sources[|sources| - 1];
      GapsOfHas(front, source, code);
      NumberedHas(|GapsOf(front)|, last, source, code);
      assert sources == front + [last];
      EmitsLast(front, last, source, code);
      HasGapConcat(GapsOf(front), Numbered(|GapsOf(front)|, last), source, code);
      hide HasGap, Emits;
    }
  }

  // A provider's gap is found exactly when one of its messages carries that code.
  lemma GapFound(inputs: Inputs, source: Source, code: Code)
    requires source != FromReport && source != FromKpi
    ensures FirstMatch(inputs.Gaps(), source, code).Some? <==> Emits(inputs.Sources(), source, code)
  {
    hide GapsOf, Inputs.Sources;
    FirstMatchFacts(inputs.Gaps(), source, code);
    GapsOfHas(inputs.Sources(), source, code);
    hide Emits;
    assert HasGap(inputs.Gaps(), source, code) <==> HasGap(GapsOf(inputs.Sources()), source, code);
  }

  // Each provider's gaps come from its own messages only.
  lemma OwnGaps(inputs: Inputs, i: nat, code: Code)
    requires i < 5
    ensures var s := inputs.Sources()[i];
            s.source != FromReport && s.source != FromKpi
            && (FirstMatch(inputs.Gaps(), s.source, code).Some? <==> EmitsOne(s, s.source, code))
  {
    var s := inputs.Sources();
    GapFound(inputs, s[i].source, code);
    hide Inputs.Gaps;
    assert forall j :: 0 <= j < 5 && j != i ==> s[j].source != s[i].source;
    assert Emits(s, s[i].source, code) <==> EmitsOne(s[i], s[i].source, code);
  }

  lemma ExplainedEmits(s: SourceGaps)
    requires s.unavailable && ExplainsItself(s.messages)
    ensures EmitsOne(s, s.source, SourceUnavailable)
  {
    assert GapCodeOf(s.unavailable, s.Messages()[0]) == SourceUnavailable;
  }

  lemma MisreadEmitsNothing(s: SourceGaps)
    requires s.messages != [] && forall j :: 0 <= j < |s.messages| ==> s.messages[j].NamesGranularity()
    ensures !EmitsOne(s, s.source, SourceUnavailable)
  {
  }

  // An unavailable source that explains itself has the gap its nulls link to.
  lemma SourceLinked(inputs: Inputs, i: nat)
    requires i < 5 && inputs.Sources()[i].unavailable && ExplainsItself(inputs.Sources()[i].messages)
    ensures FirstMatch(inputs.Gaps(), inputs.Sources()[i].source, SourceUnavailable).Some?
  {
    ExplainedEmits(inputs.Sources()[i]);
    OwnGaps(inputs, i, SourceUnavailable);
    hide Inputs.Gaps, Inputs.Sources, EmitsOne, ExplainsItself;
  }

  lemma ClaudeExplainsItself(r: Cl.Result, w: Window)
    requires ClaudeShape(r, w) && r.metrics.raw.None?
    ensures ExplainsItself(r.gaps)
  {
    hide OwnMessages, SpanAcceptable, ClaudeCounters, ClaudeSharesFit;
  }

  lemma CodexExplainsItself(r: Cx.Result, w: Window)
    requires CodexShape(r, w) && r.metrics.raw.None?
    ensures ExplainsItself(r.gaps)
  {
    hide OwnMessages, SpanAcceptable, CodexFit, ExplainsItself;
  }

  lemma ProviderLinked(inputs: Inputs, agent: Key)
    requires agent in {Claude, Codex, Copilot} && RawOf(inputs.Body(), agent).None?
    requires Shaped(inputs) && FailuresReadable(inputs)
    ensures AgentSource(agent).Some? && FirstMatch(inputs.Gaps(), AgentSource(agent).value, SourceUnavailable).Some?
  {
    hide Shaped, ClaudeShape, CodexShape, CopilotShape, KronnShape, RtkShape, ExplainsItself, Inputs.Gaps, Inputs.Body, Inputs.Sources;
    BodyIs(inputs);
    SourcesAre(inputs);
    ShapesAre(inputs);
    if agent == Claude {
      ClaudeExplainsItself(inputs.claude, inputs.window);
      SourceLinked(inputs, 0);
    } else if agent == Codex {
      CodexExplainsItself(inputs.codex, inputs.window);
      SourceLinked(inputs, 1);
    } else {
      SourceLinked(inputs, 2);
    }
  }

  lemma KronnLinked(inputs: Inputs)
    requires FailuresReadable(inputs) && inputs.kronn.metrics.replies.None?
    ensures FirstMatch(inputs.Gaps(), FromKronn, SourceUnavailable).Some?
  {
    hide ExplainsItself, Inputs.Gaps, Inputs.Sources;
    SourcesAre(inputs);
    SourceLinked(inputs, 3);
  }

  lemma RtkCoverageFacts(inputs: Inputs)
    requires Shaped(inputs)
    ensures var m := inputs.rtk.metrics;
            && (m.windowCoverage.None? ==> m.saved.None? && |inputs.rtk.gaps| == 1)
            && (EmptyMidnight(inputs) <==> m.windowCoverage == Some(Rt.Complete) && m.saved.None?)
            && (EmptyMidnight(inputs) ==> inputs.rtk.gaps == [RtkNoFullDay])
            && (m.windowCoverage == Some(Rt.NoDays) ==> m.saved.None? && RtkNoFullDay in inputs.rtk.gaps)
  {
    hide ClaudeShape, CodexShape, CopilotShape, KronnShape, FullDays, OwnMessages, RtkAcceptable;
    var w := inputs.window;
    if w.StartsAtMidnight() && w.EndsAtMidnight() {
      MidnightWindowHasDays(w);
    }
  }

  lemma GranularityEmits(s: SourceGaps)
    requires RtkNoFullDay in s.messages
    ensures EmitsOne(s, s.source, InsufficientGranularity)
  {
    var j :| 0 <= j < |s.messages| && s.messages[j] == RtkNoFullDay;
    assert GapCodeOf(s.unavailable, s.Messages()[j]) == InsufficientGranularity;
  }

  lemma RtkLinked(inputs: Inputs, code: Code)
    requires Shaped(inputs) && FailuresReadable(inputs) && !EmptyMidnight(inputs)
    requires code == SourceUnavailable ==> inputs.rtk.metrics.windowCoverage.None?
    requires code == InsufficientGranularity ==> inputs.rtk.metrics.windowCoverage == Some(Rt.NoDays)
    requires code.NeedsLink()
    ensures FirstMatch(inputs.Gaps(), FromRtk, code).Some?
  {
    RtkCoverageFacts(inputs);
    hide Inputs.Gaps, Inputs.Sources, Shaped, EmptyMidnight, EmitsOne, ExplainsItself;
    SourcesAre(inputs);
    if code == SourceUnavailable {
      SourceLinked(inputs, 4);
    } else {
      GranularityEmits(inputs.Sources()[4]);
      OwnGaps(inputs, 4, code);
    }
  }

  lemma RateIsNull(raw: Option<int>, completed: Option<int>)
    requires NullOrCounter(raw) && NullOrCounter(completed) && completed.Some? && completed.value != 0
    ensures Rate(raw, completed).None? <==> raw.None?
  {
  }

  lemma RawIsCounter(inputs: Inputs)
    requires Shaped(inputs)
    ensures NullOrCounter(inputs.claude.metrics.raw) && NullOrCounter(inputs.codex.metrics.raw) && NullOrCounter(inputs.copilot.metrics.raw)
  {
    hide ClaudeSharesFit, KronnShape, RtkShape, OwnMessages, SpanAcceptable;
  }

  lemma RatesAre(inputs: Inputs)
    ensures var b := inputs.Body();
            && b.perTask.claude == Rate(inputs.claude.metrics.raw, inputs.completedTasks)
            && b.perTask.codex == Rate(inputs.codex.metrics.raw, inputs.completedTasks)
            && b.perTask.copilot == Rate(inputs.copilot.metrics.raw, inputs.completedTasks)
  {
    hide Inputs.Gaps, MessagesOf, Rate;
  }

  lemma PerTaskNullMeans(b: Body, p: Path)
    requires PerTaskNull(b, p)
    ensures |p| == 3 && p[2] in {Claude, Codex, Copilot}
    ensures p[2] == Claude ==> b.perTask.claude.None?
    ensures p[2] == Codex ==> b.perTask.codex.None?
    ensures p[2] == Copilot ==> b.perTask.copilot.None?
  {
  }

  lemma RateUnavailable(inputs: Inputs, p: Path)
    requires Shaped(inputs) && NullOrCounter(inputs.completedTasks) && PerTaskNull(inputs.Body(), p) && !NoTasks(inputs.Body())
    ensures p[2] in {Claude, Codex, Copilot} && RawOf(inputs.Body(), p[2]).None?
  {
    hide Shaped, Rate, Inputs.Body, PerTaskFields;
    PerTaskNullMeans(inputs.Body(), p);
    RawIsCounter(inputs);
    BodyIs(inputs);
    RatesAre(inputs);
    hide PerTaskNull;
    RateIsNull(inputs.claude.metrics.raw, inputs.completedTasks);
    RateIsNull(inputs.codex.metrics.raw, inputs.completedTasks);
    RateIsNull(inputs.copilot.metrics.raw, inputs.completedTasks);
  }

  ghost predicate LinkFound(inputs: Inputs, p: Path) {
    var reason := NullReason(p, inputs.Body(), inputs.scenario.Omitted?);
    reason.Some? && (reason.value.NeedsLink() ==> LinkOf(p, reason.value, inputs.Gaps()).Some?)
  }

  lemma AgentLinkFound(inputs: Inputs, p: Path)
    requires Shaped(inputs) && FailuresReadable(inputs) && AgentsNull(inputs.Body(), p)
    ensures LinkFound(inputs, p)
  {
    AgentsNullForm(inputs.Body(), p);
    AgentNullReason(inputs, p);
    hide NullReason, Shaped, FailuresReadable, AgentsNull, Inputs.Gaps, Inputs.Body, RawOf, FirstMatch;
    if RawOf(inputs.Body(), p[1]).None? {
      ProviderLinked(inputs, p[1]);
    }
  }

  lemma PerTaskLinkFound(inputs: Inputs, p: Path)
    requires Shaped(inputs) && FailuresReadable(inputs) && NullOrCounter(inputs.completedTasks) && PerTaskNull(inputs.Body(), p)
    ensures LinkFound(inputs, p)
  {
    hide NullReason, Shaped, FailuresReadable, PerTaskNull, Inputs.Gaps, Inputs.Body, RawOf, FirstMatch, GapSourceOf, NoTasks, AgentSource;
    PerTaskSource(inputs.Body(), p);
    PerTaskReason(inputs, p);
    if !NoTasks(inputs.Body()) {
      RateUnavailable(inputs, p);
      ProviderLinked(inputs, p[2]);
    }
  }

  lemma KronnLinkFound(inputs: Inputs, p: Path)
    requires Shaped(inputs) && FailuresReadable(inputs)
    requires |p| >= 1 && p[0] == Kronn && FlatNull(KronnFields(inputs.kronn.metrics), p[1..])
    ensures LinkFound(inputs, p)
  {
    KronnPathSource(inputs.Body(), p);
    KronnNullReason(inputs, p);
    hide NullReason, Shaped, FailuresReadable, FlatNull, Inputs.Gaps, Inputs.Body, FirstMatch, GapSourceOf, KronnFields;
    if inputs.kronn.metrics.replies.None? {
      KronnLinked(inputs);
    }
  }

  lemma RtkLinkFound(inputs: Inputs, p: Path)
    requires Shaped(inputs) && FailuresReadable(inputs) && !EmptyMidnight(inputs)
    requires |p| >= 1 && p[0] == Rtk && FlatNull(RtkFields(inputs.rtk.metrics), p[1..])
    ensures LinkFound(inputs, p)
  {
    RtkPathSource(inputs.Body(), p);
    RtkNullReason(inputs, p);
    RtkCoverageFacts(inputs);
    var reason := NullReason(p, inputs.Body(), inputs.scenario.Omitted?);
    hide NullReason, Shaped, FailuresReadable, EmptyMidnight, FlatNull, Inputs.Gaps, Inputs.Body, FirstMatch, GapSourceOf, RtkFields;
    if reason.value.NeedsLink() {
      RtkLinked(inputs, reason.value);
    }
  }

  // Every null that needs a gap finds one.
  lemma EveryNullLinked(inputs: Inputs)
    requires Shaped(inputs) && FailuresReadable(inputs) && !EmptyMidnight(inputs) && NullOrCounter(inputs.completedTasks)
    ensures Linkable(inputs)
  {
    hide Shaped, FailuresReadable, EmptyMidnight, NullReason, LinkOf, NullPaths, BodyTree, Inputs.Gaps, Inputs.Body, IsNull;
    WalkYieldsNullLeaves(BodyTree(inputs.Body()));
    forall p | p in NullPaths(BodyTree(inputs.Body())) ensures LinkFound(inputs, p) {
      NullLinkFound(inputs, p);
    }
  }

  lemma NullLinkFound(inputs: Inputs, p: Path)
    requires Shaped(inputs) && FailuresReadable(inputs) && !EmptyMidnight(inputs) && NullOrCounter(inputs.completedTasks)
    requires IsNull(BodyTree(inputs.Body()), p)
    ensures LinkFound(inputs, p)
  {
    hide Shaped, FailuresReadable, EmptyMidnight, TopNull, PerTaskNull, AgentsNull, FlatNull, IsNull, BodyTree,
         KronnFields, RtkFields, Inputs.Gaps, Inputs.Body, NullReason, LinkOf;
    var b := inputs.Body();
    BodyIs(inputs);
    NullsOfBody(b, p);
    if TopNull(b, p) {
      TopReason(inputs, p);
    } else if PerTaskNull(b, p) {
      PerTaskLinkFound(inputs, p);
    } else if AgentsNull(b, p) {
      AgentLinkFound(inputs, p);
    } else if p[0] == Kronn {
      KronnLinkFound(inputs, p);
    } else {
      RtkLinkFound(inputs, p);
    }
  }

  lemma PerTaskSource(b: Body, p: Path)
    requires PerTaskNull(b, p)
    ensures |p| == 3 && GapSourceOf(p) == AgentSource(p[2])
  {
    assert p[..2] == [Kpi, PerTask];
  }

  lemma KronnPathSource(b: Body, p: Path)
    requires |p| >= 1 && p[0] == Kronn && FlatNull(KronnFields(b.kronn), p[1..])
    ensures GapSourceOf(p) == Some(FromKronn) && p != REPO_SHARE_PATH
  {
    hide KronnFields;
  }

  lemma RtkPathSource(b: Body, p: Path)
    requires |p| >= 1 && p[0] == Rtk && FlatNull(RtkFields(b.rtk), p[1..])
    ensures GapSourceOf(p) == Some(FromRtk) && p != REPO_SHARE_PATH
  {
    hide RtkFields;
  }

  // ---- What cannot be linked ----

  // A null one level down is a null of the whole.
  lemma NullBelow(fields: map<Key, Tree>, k: Key, q: Path)
    requires k in fields && IsNull(fields[k], q)
    ensures IsNull(Node(fields), [k] + q)
  {
    assert ([k] + q)[1..] == q;
  }

  lemma NullInBody(b: Body, k: Key, q: Path)
    requires k in BodyFields(b) && IsNull(BodyFields(b)[k], q)
    ensures [k] + q in NullPaths(BodyTree(b))
  {
    WalkYieldsNullLeaves(BodyTree(b));
    hide BodyFields;
    NullBelow(BodyFields(b), k, q);
  }

  lemma CopilotRawNull(b: Body)
    requires b.copilot.raw.None?
    ensures [Agents, Copilot, RawTraffic] in NullPaths(BodyTree(b))
  {
    CopilotRawNullInAgents(b);
    BodyFieldsAre(b, Agents);
    hide BodyFields, AgentsFields, CopilotFields, AgentTree, NullPaths, IsNull;
    NullInBody(b, Agents, [Copilot] + [RawTraffic]);
    assert [Agents] + ([Copilot] + [RawTraffic]) == [Agents, Copilot, RawTraffic];
  }

  lemma CopilotRawNullInAgents(b: Body)
    requires b.copilot.raw.None?
    ensures IsNull(Node(AgentsFields(b)), [Copilot] + [RawTraffic])
  {
    AgentNode(CopilotFields(b.copilot), b.copilotSpan, [RawTraffic]);
    AgentsFieldsAre(b, Copilot);
    hide AgentsFields, AgentTree, IsNull;
    NullBelow(AgentsFields(b), Copilot, [RawTraffic]);
  }

  lemma KronnRepliesNull(b: Body)
    requires b.kronn.replies.None?
    ensures [Kronn, Replies] in NullPaths(BodyTree(b))
  {
    BodyFieldsAre(b, Kronn);
    KronnNode(b, [Replies]);
    hide BodyFields, NullPaths, IsNull;
    NullInBody(b, Kronn, [Replies]);
    assert [Kronn] + [Replies] == [Kronn, Replies];
  }

  lemma RtkCommandsNull(b: Body)
    requires b.rtk.commands.None?
    ensures [Rtk, Commands] in NullPaths(BodyTree(b))
  {
    BodyFieldsAre(b, Rtk);
    RtkNode(b, [Commands]);
    hide BodyFields, NullPaths, IsNull;
    NullInBody(b, Rtk, [Commands]);
    assert [Rtk] + [Commands] == [Rtk, Commands];
  }

  lemma ScenarioNull(b: Body)
    requires b.scenario.None?
    ensures [Scenario] in NullPaths(BodyTree(b))
  {
    BodyFieldsAre(b, Scenario);
    LeafNull(Of(b.scenario), []);
    hide BodyFields, NullPaths, IsNull;
    NullInBody(b, Scenario, []);
    assert [Scenario] + [] == [Scenario];
  }

  // A null whose source emitted no gap of its reason cannot be linked.
  lemma Unlinkable(inputs: Inputs, i: nat, p: Path)
    requires i < 5 && p in NullPaths(BodyTree(inputs.Body())) && p != REPO_SHARE_PATH
    requires NullReason(p, inputs.Body(), inputs.scenario.Omitted?) == Some(SourceUnavailable)
    requires GapSourceOf(p) == Some(inputs.Sources()[i].source)
    requires !EmitsOne(inputs.Sources()[i], inputs.Sources()[i].source, SourceUnavailable)
    ensures !Linkable(inputs)
  {
    OwnGaps(inputs, i, SourceUnavailable);
    hide NullReason, NullPaths, BodyTree, Inputs.Gaps, Inputs.Sources, Inputs.Body, GapSourceOf, EmitsOne, FirstMatch;
    assert FinalReason(inputs, p) == Some(SourceUnavailable) && LinkOf(p, SourceUnavailable, inputs.Gaps()).None?;
  }

  lemma CopilotRawReason(b: Body, omitted: bool)
    requires b.copilot.raw.None?
    ensures var p := [Agents, Copilot, RawTraffic];
            NullReason(p, b, omitted) == Some(SourceUnavailable) && GapSourceOf(p) == Some(FromCopilot) && p != REPO_SHARE_PATH
  {
    var p := [Agents, Copilot, RawTraffic];
    AgentsReason(b, p, omitted);
    hide NullReason;
    assert p[1] == Copilot && REPO_SHARE_PATH[1] == Claude;
  }

  lemma MisreadSource(s: SourceGaps)
    requires |s.messages| == 1 && !ExplainsItself(s.messages)
    ensures !EmitsOne(s, s.source, SourceUnavailable)
  {
    MisreadEmitsNothing(s);
    hide EmitsOne;
  }

  lemma CopilotUnlinkable(inputs: Inputs)
    requires CopilotShape(inputs.copilot) && inputs.copilot.metrics.raw.None? && !ExplainsItself(inputs.copilot.gaps)
    ensures !Linkable(inputs)
  {
    hide NullReason, NullPaths, BodyTree, Inputs.Body, Inputs.Sources, OwnMessages, CopilotFit, ExplainsItself, EmitsOne, Linkable, GapSourceOf;
    BodyIs(inputs);
    SourcesAre(inputs);
    CopilotRawNull(inputs.Body());
    CopilotRawReason(inputs.Body(), inputs.scenario.Omitted?);
    MisreadSource(inputs.Sources()[2]);
    Unlinkable(inputs, 2, [Agents, Copilot, RawTraffic]);
  }

  lemma KronnRepliesReason(b: Body, omitted: bool)
    ensures var p := [Kronn, Replies];
            NullReason(p, b, omitted) == Some(SourceUnavailable) && GapSourceOf(p) == Some(FromKronn) && p != REPO_SHARE_PATH
  {
    var p := [Kronn, Replies];
    KronnReasonIs(b, p, omitted);
    hide NullReason;
    assert p[0] == Kronn && REPO_SHARE_PATH[0] == Agents;
  }

  lemma KronnUnlinkable(inputs: Inputs)
    requires KronnShape(inputs.kronn) && inputs.kronn.metrics.replies.None? && !ExplainsItself(inputs.kronn.gaps)
    ensures !Linkable(inputs)
  {
    hide NullReason, NullPaths, BodyTree, Inputs.Body, Inputs.Sources, OwnMessages, KronnFit, ExplainsItself, EmitsOne, Linkable, GapSourceOf;
    BodyIs(inputs);
    SourcesAre(inputs);
    KronnRepliesNull(inputs.Body());
    KronnRepliesReason(inputs.Body(), inputs.scenario.Omitted?);
    MisreadSource(inputs.Sources()[3]);
    Unlinkable(inputs, 3, [Kronn, Replies]);
  }

  lemma RtkCommandsFollow(inputs: Inputs)
    requires Shaped(inputs)
    ensures inputs.rtk.metrics.saved.None? ==> inputs.rtk.metrics.commands.None?
  {
    hide ClaudeShape, CodexShape, CopilotShape, KronnShape, OwnMessages, FullDays;
  }

  lemma RtkMisread(inputs: Inputs)
    requires Shaped(inputs)
    requires EmptyMidnight(inputs) || (inputs.rtk.metrics.windowCoverage.None? && !ExplainsItself(inputs.rtk.gaps))
    ensures !EmitsOne(inputs.Sources()[4], FromRtk, SourceUnavailable)
  {
    RtkGapNamesGranularity(inputs);
    hide Shaped, EmptyMidnight, ExplainsItself, EmitsOne, Inputs.Sources;
    SourcesAre(inputs);
    MisreadSource(inputs.Sources()[4]);
  }

  lemma RtkGapNamesGranularity(inputs: Inputs)
    requires Shaped(inputs)
    requires EmptyMidnight(inputs) || (inputs.rtk.metrics.windowCoverage.None? && !ExplainsItself(inputs.rtk.gaps))
    ensures |inputs.rtk.gaps| == 1 && !ExplainsItself(inputs.rtk.gaps)
  {
    hide Shaped, EmptyMidnight;
    RtkCoverageFacts(inputs);
  }

  lemma RtkCommandsReason(b: Body, omitted: bool)
    requires b.rtk.windowCoverage != Some(Rt.NoDays)
    ensures var p := [Rtk, Commands];
            NullReason(p, b, omitted) == Some(SourceUnavailable) && GapSourceOf(p) == Some(FromRtk) && p != REPO_SHARE_PATH
  {
    var p := [Rtk, Commands];
    RtkReasonIs(b, p, omitted);
    hide NullReason;
    assert p[0] == Rtk && p[1] == Commands && REPO_SHARE_PATH[0] == Agents;
  }

  lemma RtkUnlinkable(inputs: Inputs)
    requires Shaped(inputs)
    requires EmptyMidnight(inputs) || (inputs.rtk.metrics.windowCoverage.None? && !ExplainsItself(inputs.rtk.gaps))
    ensures !Linkable(inputs)
  {
    RtkCoverageFacts(inputs);
    RtkCommandsFollow(inputs);
    RtkMisread(inputs);
    hide Shaped, EmptyMidnight, ExplainsItself, NullReason, NullPaths, BodyTree, Inputs.Body, Inputs.Sources, EmitsOne, Linkable, GapSourceOf;
    BodyIs(inputs);
    SourcesAre(inputs);
    RtkCommandsReason(inputs.Body(), inputs.scenario.Omitted?);
    RtkCommandsNull(inputs.Body());
    Unlinkable(inputs, 4, [Rtk, Commands]);
  }

  // ---- The gap list is well formed ----

  ghost predicate WellOwned(gaps: seq<Gap>) {
    && (forall i :: 0 <= i < |gaps| ==> gaps[i].id == i + 1 && gaps[i].code.IsGapCode() && OwnerOf(gaps[i].message) == gaps[i].source)
    && (forall i, j :: 0 <= i < j < |gaps| ==> gaps[i].message != gaps[j].message)
  }

  lemma {:induction false} GapsOfWellOwned(sources: seq<SourceGaps>)
    requires forall i :: 0 <= i < |sources| ==> OwnMessages(sources[i].Messages(), sources[i].source)
    requires forall i, j :: 0 <= i < j < |sources| ==> sources[i].source != sources[j].source
    ensures WellOwned(GapsOf(sources))
    ensures forall g :: g in GapsOf(sources) ==> exists i :: 0 <= i < |sources| && sources[i].source == g.source
  {
    hide SourceGaps.Messages, OwnerOf, GapCodeOf;
    if sources != [] {
      var front, last := sources[..|sources| - 1], sources[|sources| - 1];
      assert forall i :: 0 <= i < |front| ==> sources[i] == front[i];
      GapsOfWellOwned(front);
      var before := GapsOf(front);
      NumberedWellOwned(|before|, last);
      forall g | g in before ensures g.source != last.source {
      }
      hide Numbered, WellOwned, OwnMessages;
      AppendWellOwned(before, last);
    }
  }

  lemma NumberedWellOwned(start: nat, s: SourceGaps)
    requires OwnMessages(s.Messages(), s.source)
    ensures var own := Numbered(start, s);
            && (forall i :: 0 <= i < |own| ==>
                  own[i].id == start + i + 1 && own[i].code.IsGapCode() && own[i].source == s.source && OwnerOf(own[i].message) == s.source)
            && (forall i, j :: 0 <= i < j < |own| ==> own[i].message != own[j].message)
  {
    CodesAreGapCodes(s);
    hide SourceGaps.Messages, OwnerOf, GapCodeOf;
  }

  lemma AppendWellOwned(before: seq<Gap>, s: SourceGaps)
    requires WellOwned(before) && OwnMessages(s.Messages(), s.source)
    requires forall g :: g in before ==> g.source != s.source
    ensures WellOwned(before + Numbered(|before|, s))
  {
    NumberedWellOwned(|before|, s);
    var own := Numbered(|before|, s);
    hide OwnMessages, Numbered, OwnerOf;
    forall i, j | 0 <= i < |before| && 0 <= j < |own| ensures before[i].message != own[j].message {
      assert before[i] in before;
    }
  }

  lemma CodesAreGapCodes(s: SourceGaps)
    ensures forall j :: 0 <= j < |s.Messages()| ==> GapCodeOf(s.unavailable, s.Messages()[j]).IsGapCode()
  {
    hide SourceGaps.Messages, Message.NamesGranularity;
  }

  // Distinct sources that speak for themselves and not for the report or its KPI.
  ghost predicate OwnedSources(s: seq<SourceGaps>) {
    && (forall i :: 0 <= i < |s| ==> OwnMessages(s[i].Messages(), s[i].source))
    && (forall i, j :: 0 <= i < j < |s| ==> s[i].source != s[j].source)
    && (forall i :: 0 <= i < |s| ==> s[i].source != FromReport && s[i].source != FromKpi)
  }

  // A gap list to which the report's and the KPI's gaps may still be added.
  ghost predicate Closable(a: seq<Gap>) {
    WellOwned(a) && forall i :: 0 <= i < |a| ==> a[i].source != FromReport && a[i].source != FromKpi
  }

  lemma SourceNames(inputs: Inputs)
    ensures var s := inputs.Sources();
            && (forall i, j :: 0 <= i < j < |s| ==> s[i].source != s[j].source)
            && (forall i :: 0 <= i < |s| ==> s[i].source != FromReport && s[i].source != FromKpi)
  {
  }

  lemma OwnSources(inputs: Inputs)
    requires Shaped(inputs)
    ensures OwnedSources(inputs.Sources())
  {
    SourceNames(inputs);
    hide ClaudeCounters, ClaudeSharesFit, CodexFit, CopilotFit, KronnAcceptable, RtkAcceptable, SpanAcceptable, FullDays, OwnMessages;
    forall i | 0 <= i < |inputs.Sources()| ensures OwnMessages(inputs.Sources()[i].Messages(), inputs.Sources()[i].source) {
      OwnSource(inputs, i);
    }
    hide Shaped, Inputs.Sources;
  }

  lemma OwnSource(inputs: Inputs, i: nat)
    requires Shaped(inputs) && i < |inputs.Sources()|
    ensures OwnMessages(inputs.Sources()[i].Messages(), inputs.Sources()[i].source)
  {
    hide ClaudeCounters, ClaudeSharesFit, CodexFit, CopilotFit, KronnAcceptable, RtkAcceptable, SpanAcceptable, FullDays;
  }

  lemma AllGapsWellOwned(inputs: Inputs)
    requires Shaped(inputs)
    ensures WellOwned(inputs.Gaps())
  {
    OwnSources(inputs);
    hide AllGaps, Shaped, Inputs.Sources, OwnedSources, Closable, WellOwned, Inputs.NoDenominator;
    SourceGapsWellOwned(inputs.Sources());
    ClosingGapsWellOwned(inputs.Sources(), inputs.scenario.FreeForm?, inputs.NoDenominator());
  }

  lemma SourceGapsWellOwned(s: seq<SourceGaps>)
    requires OwnedSources(s)
    ensures Closable(GapsOf(s))
  {
    GapsOfWellOwned(s);
    hide GapsOf, OwnMessages, WellOwned;
    var a := GapsOf(s);
    forall i | 0 <= i < |a| ensures a[i].source != FromReport && a[i].source != FromKpi {
      assert a[i] in a;
    }
  }

  lemma ClosingGapsWellOwned(sources: seq<SourceGaps>, noncanonical: bool, denominatorMissing: bool)
    requires Closable(GapsOf(sources))
    ensures WellOwned(AllGaps(sources, noncanonical, denominatorMissing))
  {
    hide GapsOf, WellOwned;
    var a := GapsOf(sources);
    WellOwnedAdd(a, FromReport, NonCanonicalValueOmitted, ScenarioOmitted);
    WellOwnedAdd(a, FromKpi, MissingDenominator, DenominatorMissing);
    var b := a + [Gap(|a| + 1, FromReport, NonCanonicalValueOmitted, ScenarioOmitted)];
    assert forall i :: 0 <= i < |b| ==> b[i].source != FromKpi;
    WellOwnedAdd(b, FromKpi, MissingDenominator, DenominatorMissing);
  }

  lemma WellOwnedAdd(a: seq<Gap>, source: Source, code: Code, message: Message)
    requires WellOwned(a) && code.IsGapCode() && OwnerOf(message) == source && forall i :: 0 <= i < |a| ==> a[i].source != source
    ensures WellOwned(a + [Gap(|a| + 1, source, code, message)])
  {
    hide OwnerOf;
  }

  lemma GapsFit(inputs: Inputs)
    requires Shaped(inputs)
    ensures GapsAcceptable(inputs.Gaps(), MessagesOf(inputs.Gaps()))
  {
    AllGapsWellOwned(inputs);
    hide Inputs.Gaps, Shaped, OwnerOf;
  }

  // ---- The validator's own reading of the reasons ----

  ghost predicate Says(messages: seq<Message>) {
    exists j :: 0 <= j < |messages| && SaysNonCanonicalLabel in messages[j].Phrases()
  }

  lemma SaysConcat(a: seq<Message>, b: seq<Message>)
    ensures Says(a + b) <==> Says(a) || Says(b)
  {
    var all := a + b;
    if Says(a) {
      var j :| 0 <= j < |a| && SaysNonCanonicalLabel in a[j].Phrases();
      assert all[j] == a[j];
    }
    if Says(b) {
      var j :| 0 <= j < |b| && SaysNonCanonicalLabel in b[j].Phrases();
      assert all[|a| + j] == b[j];
    }
  }

  ghost predicate SomeSourceSays(sources: seq<SourceGaps>) {
    exists i :: 0 <= i < |sources| && Says(sources[i].messages)
  }

  lemma FillerIsSilent(s: SourceGaps)
    ensures Says(s.Messages()) <==> Says(s.messages)
  {
  }

  lemma MessagesAppend(a: seq<Gap>, b: seq<Gap>)
    ensures MessagesOf(a + b) == MessagesOf(a) + MessagesOf(b)
  {
  }

  lemma NumberedMessages(start: nat, s: SourceGaps)
    ensures MessagesOf(Numbered(start, s)) == s.Messages()
  {
    hide SourceGaps.Messages;
  }

  lemma {:induction false} GapsOfSay(sources: seq<SourceGaps>)
    ensures Says(MessagesOf(GapsOf(sources))) <==> SomeSourceSays(sources)
  {
    hide SourceGaps.Messages, Numbered, MessagesOf, Says;
    if sources == [] {
      NothingSaid();
    } else {
      var front, last := sources[..|sources| - 1], sources[|sources| - 1];
      var before := GapsOf(front);
      GapsOfSay(front);
      MessagesAppend(before, Numbered(|before|, last));
      NumberedMessages(|before|, last);
      SaysConcat(MessagesOf(before), last.Messages());
      FillerIsSilent(last);
      assert forall i :: 0 <= i < |front| ==> sources[i] == front[i];
    }
  }

  lemma NothingSaid()
    ensures !Says(MessagesOf([]))
  {
  }

  lemma FailureQuotesLabelSays(inputs: Inputs)
    ensures FailureQuotesLabel(inputs) <==> SomeSourceSays(inputs.Sources())
  {
    hide Inputs.Sources;
    if FailureQuotesLabel(inputs) {
      var i, j :| 0 <= i < |inputs.Sources()| && 0 <= j < |inputs.Sources()[i].messages|
                  && SaysNonCanonicalLabel in inputs.Sources()[i].messages[j].Phrases();
      assert Says(inputs.Sources()[i].messages);
    }
  }

  lemma OneMoreSays(a: seq<Gap>, g: Gap)
    ensures Says(MessagesOf(a + [g])) <==> Says(MessagesOf(a)) || SaysNonCanonicalLabel in g.message.Phrases()
  {
    MessagesAppend(a, [g]);
    SaysConcat(MessagesOf(a), MessagesOf([g]));
    assert MessagesOf([g]) == [g.message];
    assert [g.message][0] == g.message;
    hide MessagesOf;
  }

  lemma AllGapsSay(sources: seq<SourceGaps>, noncanonical: bool, denominatorMissing: bool)
    ensures Says(MessagesOf(AllGaps(sources, noncanonical, denominatorMissing))) <==> SomeSourceSays(sources) || noncanonical
  {
    GapsOfSay(sources);
    hide GapsOf, Says, MessagesOf, SomeSourceSays;
    var a := GapsOf(sources);
    var dropped := Gap(|a| + 1, FromReport, NonCanonicalValueOmitted, ScenarioOmitted);
    OneMoreSays(a, dropped);
    var b := if noncanonical then a + [dropped] else a;
    OneMoreSays(b, Gap(|b| + 1, FromKpi, MissingDenominator, DenominatorMissing));
  }

  // The validator takes the label for omitted unless some gap message quotes the marker.
  lemma GuessIs(inputs: Inputs)
    ensures GuessOmitted(MessagesOf(inputs.Gaps())) <==> !FailureQuotesLabel(inputs) && !inputs.scenario.FreeForm?
  {
    FailureQuotesLabelSays(inputs);
    AllGapsSay(inputs.Sources(), inputs.scenario.FreeForm?, inputs.NoDenominator());
    hide FailureQuotesLabel, Inputs.Sources, SomeSourceSays, AllGaps, MessagesOf;
  }

  // Only the scenario's own nulls depend on whether the label was omitted.
  lemma ReasonIndependent(b: Body, p: Path, x: bool, y: bool)
    requires p != [Scenario] && p != [ScenarioIsCanonical]
    ensures NullReason(p, b, x) == NullReason(p, b, y)
  {
    hide AgentReason, RtkReason, NoTasks;
  }

  lemma RepoShareReason(b: Body, omitted: bool)
    requires b.claude.raw.Some? && b.claude.raw.value >= 0
    ensures NullReason(REPO_SHARE_PATH, b, omitted) == Some(if b.claude.raw.value > 0 then NotRequested else UndefinedRatio)
  {
    AgentsReason(b, REPO_SHARE_PATH, omitted);
    hide NullReason;
  }

  ghost predicate ReasonAgrees(inputs: Inputs, p: Path) {
    var actual, expected := FinalReason(inputs, p), NullReason(p, inputs.Body(), GuessOmitted(MessagesOf(inputs.Gaps())));
    actual.Some? && expected.Some? && (actual == expected || Tolerated(p, actual.value, expected.value, inputs.Body()))
  }

  lemma ScenarioReasonAgrees(inputs: Inputs, p: Path)
    requires LabelReadable(inputs) && !inputs.scenario.Canonical? && (p == [Scenario] || p == [ScenarioIsCanonical])
    ensures ReasonAgrees(inputs, p)
  {
    GuessIs(inputs);
    hide Inputs.Gaps, Inputs.Body, MessagesOf, GuessOmitted, FailureQuotesLabel;
    assert p[0] != Agents;
  }

  lemma OtherReasonAgrees(inputs: Inputs, p: Path)
    requires p != [Scenario] && p != [ScenarioIsCanonical] && !(inputs.claude.repoNotRequested && p == REPO_SHARE_PATH)
    requires NullReason(p, inputs.Body(), inputs.scenario.Omitted?).Some?
    ensures ReasonAgrees(inputs, p)
  {
    hide NullReason, Inputs.Gaps, Inputs.Body, MessagesOf, GuessOmitted, Tolerated;
    ReasonIndependent(inputs.Body(), p, inputs.scenario.Omitted?, GuessOmitted(MessagesOf(inputs.Gaps())));
  }

  lemma OverrideAgrees(inputs: Inputs)
    requires Shaped(inputs) && inputs.claude.repoNotRequested
    ensures ReasonAgrees(inputs, REPO_SHARE_PATH)
  {
    hide NullReason, Inputs.Gaps, Inputs.Body, MessagesOf, GuessOmitted, Shaped;
    OverrideOnlyWhenMeasured(inputs);
    BodyIs(inputs);
    var b := inputs.Body();
    var omitted := GuessOmitted(MessagesOf(inputs.Gaps()));
    RepoShareReason(b, omitted);
    assert FinalReason(inputs, REPO_SHARE_PATH) == Some(NotRequested);
    hide FinalReason;
  }

  lemma NullReasonAgrees(inputs: Inputs, p: Path)
    requires Shaped(inputs) && LabelReadable(inputs)
    requires BodyNull(inputs.Body(), p) && NullReason(p, inputs.Body(), inputs.scenario.Omitted?).Some?
    ensures ReasonAgrees(inputs, p)
  {
    hide BodyNull, NullReason, LabelReadable, ReasonAgrees, Shaped, Inputs.Body;
    if p == [Scenario] || p == [ScenarioIsCanonical] {
      NullScenarioIsNotCanonical(inputs, p);
      ScenarioReasonAgrees(inputs, p);
    } else if inputs.claude.repoNotRequested && p == REPO_SHARE_PATH {
      OverrideAgrees(inputs);
    } else {
      OtherReasonAgrees(inputs, p);
    }
  }

  lemma NullScenarioIsNotCanonical(inputs: Inputs, p: Path)
    requires BodyNull(inputs.Body(), p) && (p == [Scenario] || p == [ScenarioIsCanonical])
    ensures !inputs.scenario.Canonical?
  {
    assert p[0] in {Scenario, ScenarioIsCanonical} && |p| == 1;
    assert !PerTaskNull(inputs.Body(), p) && !AgentsNull(inputs.Body(), p);
    hide PerTaskNull, AgentsNull, FlatNull;
  }

  lemma OverrideOnlyWhenMeasured(inputs: Inputs)
    requires Shaped(inputs) && inputs.claude.repoNotRequested
    ensures inputs.claude.metrics.raw.Some? && inputs.claude.metrics.raw.value >= 0
  {
    hide CodexShape, CopilotShape, KronnShape, RtkShape, OwnMessages, SpanAcceptable, ClaudeSharesFit;
  }

  lemma FinalReasonIsNullReason(inputs: Inputs, p: Path)
    requires NullReason(p, inputs.Body(), inputs.scenario.Omitted?).Some?
    requires NullReason(p, inputs.Body(), inputs.scenario.Omitted?).value.IsNullReason()
    ensures FinalReason(inputs, p).Some? && FinalReason(inputs, p).value.IsNullReason()
  {
    hide NullReason;
  }

  // One reason passes the validator's own reading.
  ghost predicate ReasonFits(r: Report, p: Path)
    requires p in r.reasons
  {
    var expected := NullReason(p, r.body, GuessOmitted(r.body.dataGaps));
    && r.reasons[p].IsNullReason() && expected.Some?
    && (r.reasons[p] == expected.value || Tolerated(p, r.reasons[p], expected.value, r.body))
  }

  lemma OneReasonFits(inputs: Inputs, r: Report, p: Path)
    requires Shaped(inputs) && LabelReadable(inputs) && Annotates(r, inputs) && p in r.reasons
    ensures ReasonFits(r, p)
  {
    hide NullReason, BodyNull, Shaped, Inputs.Body, Inputs.Gaps, GuessOmitted, MessagesOf, Tolerated, LabelReadable, IsNull, NullPaths, BodyTree,
         Linked, FinalReason;
    BodyIs(inputs);
    WalkYieldsNullLeaves(BodyTree(inputs.Body()));
    NullExplained(inputs, p);
    NullsOfBody(inputs.Body(), p);
    NullReasonAgrees(inputs, p);
    FinalReasonIsNullReason(inputs, p);
  }

  lemma ReasonsFit(inputs: Inputs, r: Report)
    requires Shaped(inputs) && LabelReadable(inputs) && Annotates(r, inputs)
    ensures ReasonsAcceptable(r)
  {
    hide NullReason, Shaped, Inputs.Body, GuessOmitted, Tolerated, LabelReadable, NullPaths, BodyTree, LinkedTree, Linked, FinalReason;
    forall p | p in r.reasons ensures ReasonFits(r, p) {
      OneReasonFits(inputs, r, p);
    }
    LinksHoldNoNull(r.body, r.links);
  }

  // An unreadable label makes the validator disagree about the scenario's own null.
  lemma UnreadableLabelRejected(inputs: Inputs, r: Report)
    requires !LabelReadable(inputs) && Annotates(r, inputs)
    ensures !ReasonsAcceptable(r)
  {
    hide Inputs.Body, Inputs.Gaps, MessagesOf, GuessOmitted, NullPaths, BodyTree, LinkedTree, Linked, FailureQuotesLabel, NullReason;
    BodyIs(inputs);
    GuessIs(inputs);
    ScenarioNull(inputs.Body());
    ScenarioReasonIs(inputs.Body(), inputs.scenario.Omitted?);
    ScenarioReasonIs(inputs.Body(), GuessOmitted(r.body.dataGaps));
    assert [Scenario] in r.reasons;
  }

  lemma ScenarioReasonIs(b: Body, omitted: bool)
    ensures NullReason([Scenario], b, omitted) == Some(if omitted then NotRequested else NonCanonicalValueOmitted)
    ensures [Scenario] != REPO_SHARE_PATH
  {
    assert |[Scenario]| == 1 && |REPO_SHARE_PATH| == 3;
  }

  lemma LinksFit(inputs: Inputs, r: Report)
    requires Annotates(r, inputs)
    ensures LinksAcceptable(r)
  {
    hide Inputs.Gaps, NullPaths, BodyTree, FinalReason, GapSourceOf, FirstMatch;
    assert r.body.gaps == inputs.Gaps();
    hide Inputs.Body;
    forall p | p in r.links
      ensures exists g :: g in r.body.gaps && g.id == r.links[p] && GapSourceOf(p) == Some(g.source) && g.code == r.reasons[p]
    {
      FirstMatchFacts(inputs.Gaps(), GapSourceOf(p).value, r.reasons[p]);
      assert LinkOf(p, r.reasons[p], inputs.Gaps()).value in r.body.gaps;
    }
  }

  // ---- Sections ----

  lemma ClaudeSection(inputs: Inputs)
    requires Shaped(inputs)
    ensures ClaudeAcceptable(inputs.claude.metrics, Span(inputs.claude.from, inputs.claude.to), inputs.window, inputs.completedTasks,
                             Rate(inputs.claude.metrics.raw, inputs.completedTasks))
            <==> inputs.claude.metrics.top1 != Some(0)
  {
    hide CodexShape, CopilotShape, KronnShape, RtkShape, OwnMessages, SpanAcceptable, Rate;
    if inputs.claude.metrics.raw.Some? {
      hide ClaudeCounters;
    }
  }

  lemma CodexSection(inputs: Inputs)
    requires Shaped(inputs)
    ensures CodexAcceptable(inputs.codex.metrics, Span(inputs.codex.from, inputs.codex.to), inputs.window, inputs.completedTasks,
                            Rate(inputs.codex.metrics.raw, inputs.completedTasks))
            <==> inputs.codex.metrics.top1 != Some(0) && SessionsCovered(inputs.codex.metrics)
  {
    hide ClaudeShape, CopilotShape, KronnShape, RtkShape, OwnMessages, SpanAcceptable, Rate;
  }

  lemma CopilotSection(inputs: Inputs)
    requires Shaped(inputs)
    ensures CopilotAcceptable(inputs.copilot.metrics, Span(inputs.copilot.from, inputs.copilot.to), inputs.window, inputs.completedTasks,
                              Rate(inputs.copilot.metrics.raw, inputs.completedTasks))
            <==> CopilotConsistent(inputs.copilot, inputs.window)
  {
    hide ClaudeShape, CodexShape, KronnShape, RtkShape, OwnMessages, SpanAcceptable, Rate;
  }

  lemma KronnAndRtkSections(inputs: Inputs)
    requires Shaped(inputs)
    ensures KronnAcceptable(inputs.kronn.metrics, inputs.kronn.metrics.replies.Some?) <==> SharesAgree(inputs.kronn.metrics)
    ensures RtkAcceptable(inputs.rtk.metrics, inputs.rtk.metrics.installed)
  {
    hide ClaudeShape, CodexShape, CopilotShape, OwnMessages, FullDays;
  }

  // ---- The theorem ----

  lemma AnnotatedAcceptable(inputs: Inputs, r: Report)
    requires Shaped(inputs) && NullOrCounter(inputs.completedTasks) && Annotates(r, inputs)
    ensures Acceptable(r) <==> LabelReadable(inputs) && SharesVisible(inputs) && SourcesConsistent(inputs)
  {
    ClaudeSection(inputs);
    CodexSection(inputs);
    CopilotSection(inputs);
    KronnAndRtkSections(inputs);
    GapsFit(inputs);
    LinksFit(inputs, r);
    assert FrontAcceptable(inputs.Body()) && inputs.window.Valid();
    if LabelReadable(inputs) {
      ReasonsFit(inputs, r);
    } else {
      UnreadableLabelRejected(inputs, r);
    }
    hide Shaped, LabelReadable, FrontAcceptable, ClaudeAcceptable, CodexAcceptable, CopilotAcceptable, KronnAcceptable, RtkAcceptable,
         GapsAcceptable, ReasonsAcceptable, LinksAcceptable, Inputs.Gaps, Linked, NullPaths, BodyTree, FinalReason, Rate, MessagesOf;
  }

  lemma SomeAnnotation(inputs: Inputs) returns (r: Report)
    requires Explained(inputs) && Linkable(inputs)
    ensures Annotates(r, inputs)
  {
    hide NullReason, NullPaths, BodyTree, Inputs.Gaps, Inputs.Body, LinkOf;
    var paths := NullPaths(BodyTree(inputs.Body()));
    var reasons := map p | p in paths :: FinalReason(inputs, p).value;
    var links := map p | p in paths && reasons[p].NeedsLink() :: LinkOf(p, reasons[p], inputs.Gaps()).value.id;
    r := Report(inputs.Body(), reasons, links);
  }

  /** For all results of the shapes the collectors return, `build_report` yields a
      report its own validator accepts exactly when the inputs are assemblable. */
  lemma BuildReportSucceedsExactly(inputs: Inputs)
    requires Shaped(inputs)
    ensures Succeeds(inputs) <==> Assemblable(inputs)
  {
    EveryNullExplained(inputs);
    hide Explained, Linkable, Annotates, Acceptable, Shaped, EmptyMidnight, LabelReadable;
    if !NullOrCounter(inputs.completedTasks) {
    } else if FailuresReadable(inputs) && !EmptyMidnight(inputs) {
      EveryNullLinked(inputs);
      var r := SomeAnnotation(inputs);
      AnnotatedAcceptable(inputs, r);
      forall r' | Annotates(r', inputs) ensures r' == r {
        AnnotationUnique(r, r', inputs);
      }
    } else {
      CannotLink(inputs);
    }
  }

  lemma CannotLink(inputs: Inputs)
    requires Shaped(inputs) && (!FailuresReadable(inputs) || EmptyMidnight(inputs))
    ensures !Linkable(inputs)
  {
    hide Linkable, EmptyMidnight, ExplainsItself, ClaudeShape, CodexShape;
    if inputs.copilot.metrics.raw.None? && !ExplainsItself(inputs.copilot.gaps) {
      CopilotUnlinkable(inputs);
    } else if inputs.kronn.metrics.replies.None? && !ExplainsItself(inputs.kronn.gaps) {
      KronnUnlinkable(inputs);
    } else {
      RtkUnlinkable(inputs);
    }
  }

  // ---- From the collectors to the report ----

  // Fewer than 20000 sessions keep every top share visible.
  lemma ClaudeShareVisible(r: Cl.Result, dirExists: bool, lines: seq<Cl.Line>, w: Window, repoFilter: Option<string>)
    requires Cl.Describes(r, dirExists, lines, w, repoFilter)
    requires r.metrics.sessions.Some? ==> r.metrics.sessions.value < 20000
    ensures r.metrics.top1 != Some(0)
  {
    if dirExists && Cl.UnreadableFiles(lines) == 0 {
      hide Cl.CountedIn, Cl.SpansEntries, Cl.UnreadableFiles, Cl.InvalidLines, Cl.ColumnSum, Cl.PerSession, Cl.Turns, Cl.WaitTurns,
           Ranks, SumMap, Bag, Pct, Cl.RepoTraffic, Cl.IsMalformed, SumFirst;
      var counted := Cl.CountedIn(lines, w);
      var ranked :| Cl.Measures(r.metrics, counted, repoFilter, ranked);
      var raw := SumMap(Cl.Turns(counted));
      if raw > 0 {
        TopShareVisible(ranked, Bag(Cl.PerSession(counted)), raw);
        TopOne(ranked);
      }
    }
  }

  lemma CodexShareVisible(r: Cx.Result, dirExists: bool, files: seq<Cx.File>, w: Window)
    requires Cx.Describes(r, dirExists, files, w)
    requires r.metrics.sessions.Some? ==> r.metrics.sessions.value < 20000
    ensures r.metrics.top1 != Some(0)
  {
    var q, threads := Cx.QualityOf(files, w), Cx.Threads(files, w);
    hide Cx.QualityOf, Cx.Threads, Cx.IncoherentRoots, Cx.Spans, Cx.Deltas, Cx.ColumnOf, Cx.ActiveRollouts, Ranks, SumMap, Bag, Pct,
         Cx.QualityGaps;
    if dirExists && q.unreadable == 0 && Cx.IncoherentRoots(threads, w) == {} {
      var ranked :| Cx.Measures(r.metrics, threads, w, ranked);
      var raw := SumMap(Cx.ColumnOf(Cx.Deltas(threads, w), Cx.Traffic));
      if raw > 0 {
        TopShareVisible(ranked, Bag(Cx.ColumnOf(Cx.Deltas(threads, w), Cx.Traffic)), raw);
      }
    }
  }

  // Everything one run of the report reads.
  datatype Telemetry = Telemetry(
    claudeDir: bool, claudeLines: seq<Cl.Line>, repoFilter: Option<string>,
    codexDir: bool, codexFiles: seq<Cx.File>,
    copilot: Cp.Query, kronn: Kr.Query,
    rtk: Rt.Probe, rtkVersion: Option<string>)

  // A window is built with its start no later than its end, and a version is the
  // first line of a text that is not blank.
  ghost predicate Wellformed(t: Telemetry, w: Window) {
    w.Valid() && (t.rtkVersion.Some? ==> t.rtkVersion.value != "")
  }

  // What the collectors take for granted about their sources.
  ghost predicate Trustworthy(t: Telemetry, w: Window) {
    && (forall root :: root in Cx.Threads(t.codexFiles, w) ==> Cx.RootMonotone(Cx.Threads(t.codexFiles, w)[root], root))
    && Cp.Plausible(w, t.copilot)
    && Kr.Complete(t.kronn)
  }

  ghost predicate Collected(inputs: Inputs, t: Telemetry) {
    && Cl.Describes(inputs.claude, t.claudeDir, t.claudeLines, inputs.window, t.repoFilter)
    && Cx.Describes(inputs.codex, t.codexDir, t.codexFiles, inputs.window)
    && inputs.copilot == Cp.Collect(inputs.window, t.copilot)
    && Kr.Describes(inputs.kronn, t.kronn)
    && Rt.Describes(inputs.rtk, inputs.window, t.rtk, t.rtkVersion)
  }

  lemma CollectedIsShaped(inputs: Inputs, t: Telemetry)
    requires Wellformed(t, inputs.window) && Collected(inputs, t)
    ensures Shaped(inputs)
  {
    hide Cl.Describes, Cx.Describes, Kr.Describes, Rt.Describes, Cx.RootMonotone, Cx.Threads, Kr.Complete,
         ClaudeShape, CodexShape, CopilotShape, KronnShape, RtkShape, Cp.Plausible;
    ClaudeHasShape(inputs.claude, t.claudeDir, t.claudeLines, inputs.window, t.repoFilter);
    CodexHasShape(inputs.codex, t.codexDir, t.codexFiles, inputs.window);
    CopilotHasShape(inputs.window, t.copilot);
    KronnHasShape(inputs.kronn, t.kronn);
    RtkHasShape(inputs.rtk, inputs.window, t.rtk, t.rtkVersion);
  }

  // Sources that keep what the collectors take for granted are consistent, so
  // that only the other checks decide.
  lemma TrustworthySourcesAreConsistent(inputs: Inputs, t: Telemetry)
    requires Trustworthy(t, inputs.window) && Collected(inputs, t)
    ensures SourcesConsistent(inputs)
  {
    hide Cl.Describes, Cx.Describes, Kr.Describes, Rt.Describes, Cx.RootMonotone, Cx.Threads, Kr.Complete, Cp.Plausible,
         SessionsCovered, CopilotConsistent, SharesAgree;
    MonotoneRootsCover(inputs.codex, t.codexDir, t.codexFiles, inputs.window);
    PlausibleIsConsistent(inputs.window, t.copilot);
    CompleteRowsAgree(inputs.kronn, t.kronn);
  }

  /** The whole run: collect, assemble, validate. A report comes out exactly when
      the collected inputs are assemblable. */
  method Run(w: Window, scenario: Label, repoPseudonym: Option<string>, completedTasks: Option<int>, t: Telemetry)
    returns (inputs: Inputs, outcome: Outcome)
    requires Wellformed(t, w)
    ensures inputs.window == w && inputs.scenario == scenario && inputs.completedTasks == completedTasks && Collected(inputs, t)
    ensures outcome.Built? <==> Assemblable(inputs)
    ensures outcome.Built? ==> Acceptable(outcome.report) && outcome.report.body == inputs.Body()
  {
    hide Shaped, Assemblable, Acceptable, Cl.Describes, Cx.Describes, Kr.Describes, Rt.Describes, Annotates, Succeeds;
    var claude := Cl.Collect(t.claudeDir, t.claudeLines, w, t.repoFilter);
    var codex := Cx.Collect(t.codexDir, t.codexFiles, w);
    var kronn := Kr.Collect(t.kronn);
    var rtk := Rt.Collect(w, t.rtk, t.rtkVersion);
    inputs := Inputs(w, scenario, repoPseudonym, claude, codex, Cp.Collect(w, t.copilot), kronn, rtk, completedTasks);
    CollectedIsShaped(inputs, t);
    BuildReportSucceedsExactly(inputs);
    outcome := BuildReport(inputs);
    AnnotatedBody(outcome, inputs);
  }

  lemma AnnotatedBody(outcome: Outcome, inputs: Inputs)
    ensures outcome.Built? && Annotates(outcome.report, inputs) ==> outcome.report.body == inputs.Body()
  {
  }

  // ---- A machine without telemetry ----

  // What the collectors return when no source is installed.
  function Bare(w: Window, scenario: Label, completedTasks: Option<int>): Inputs {
    Inputs(w, scenario, None,
           Cl.Result(Cl.EMPTY, None, None, [ClaudeDirMissing], false),
           Cx.Result(Cx.EMPTY, None, None, [CodexDirMissing]),
           Cp.Collect(w, Cp.DbMissing),
           Kr.Result(Kr.EMPTY, [KronnDbMissing]),
           Rt.Result(Rt.EMPTY, None, None, [RtkSkipped]),
           completedTasks)
  }

  lemma BareIsShaped(w: Window, scenario: Label, completedTasks: Option<int>)
    requires w.Valid()
    ensures Shaped(Bare(w, scenario, completedTasks))
  {
    hide FullDays;
  }

  lemma BareIsReadable(w: Window, scenario: Label, completedTasks: Option<int>)
    requires scenario != Empty
    ensures LabelReadable(Bare(w, scenario, completedTasks)) && FailuresReadable(Bare(w, scenario, completedTasks))
  {
    var inputs := Bare(w, scenario, completedTasks);
    SourcesAre(inputs);
    hide Inputs.Sources;
  }

  lemma BareIsAssemblable(w: Window, scenario: Label, completedTasks: Option<int>)
    requires w.Valid() && scenario != Empty && NullOrCounter(completedTasks)
    ensures Assemblable(Bare(w, scenario, completedTasks))
  {
    BareIsReadable(w, scenario, completedTasks);
    hide LabelReadable, FailuresReadable;
  }

  // With nothing installed and any usable label, the report is still built: every
  // metric is null, and every null has its reason and its gap.
  lemma BareMachineReports(w: Window, scenario: Label, completedTasks: Option<int>)
    requires w.Valid() && scenario != Empty && NullOrCounter(completedTasks)
    ensures Shaped(Bare(w, scenario, completedTasks)) && Succeeds(Bare(w, scenario, completedTasks))
  {
    BareIsShaped(w, scenario, completedTasks);
    BareIsAssemblable(w, scenario, completedTasks);
    hide Bare, Shaped, Assemblable, Succeeds;
    BuildReportSucceedsExactly(Bare(w, scenario, completedTasks));
  }

  // ---- Two conditions the collectors do not check ----

  // A root counter that falls is reported as a session without a rollout, and
  // the report of any run that reads it is not built.
  lemma FallingRootRejected(inputs: Inputs)
    requires Cx.Describes(inputs.codex, true, [Cx.ROOT_FILE, Cx.FORK_FILE], Cx.SAMPLE_WINDOW)
    ensures !Assemblable(inputs)
  {
    Cx.FallingRootIsReported(inputs.codex);
    hide Cx.Describes;
  }

  const CLASH := [Kr.Row("", Number(1), Number(0), Number(0)), Kr.Row("unknown", Number(1), Number(1), Number(0))]

  // An unnamed agent and one named "unknown" share a key, and the validator then finds the wrong traced share.
  lemma CollidingNamesRejected(r: Kr.Result)
    requires Kr.Describes(r, Kr.Rows(CLASH))
    ensures !KronnAcceptable(r.metrics, true)
  {
    var a, b := CLASH[0], CLASH[1];
    assert a.Sound() && b.Sound() && CLASH[..1] == [a] && [a][..0] == [];
    assert a.Name() == "unknown" && b.Name() == "unknown";
    var first: map<string, nat> := map["unknown" := 1];
    assert Kr.TotalsOf([a]) == Kr.Totals(1, 0, 0, first);
    var second: map<string, nat> := map["unknown" := 0];
    assert Kr.TotalsOf(CLASH) == Kr.Totals(2, 1, 0, second);
    SumMapSplit(second, "unknown");
    assert second - {"unknown"} == map[];
    assert Pct(Some(1), 2) == Some(5000) && Pct(Some(2), 2) == Some(10000);
  }
}
