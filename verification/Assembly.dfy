/** `build_report`: from the five source results to a validated report. */
module Assembly {
  import opened Options
  import opened Windows
  import opened Gaps
  import opened Trees
  import opened Reports
  import opened Validation
  import Cl = Claude
  import Cx = Codex
  import Cp = Copilot
  import Kr = Kronn
  import Rt = Rtk

  // The scenario label: omitted, empty, one of the four canonical labels, or any other text.
  datatype Label = Omitted | Empty | Canonical(name: CanonicalScenario) | FreeForm

  datatype Inputs = Inputs(
    window: Window,
    scenario: Label,
    repoPseudonym: Option<string>,
    claude: Cl.Result,
    codex: Cx.Result,
    copilot: Cp.Result,
    kronn: Kr.Result,
    rtk: Rt.Result,
    completedTasks: Option<int>)
  {
    // `_source_core_is_unavailable`, source by source, with the messages each one left.
    function Sources(): seq<SourceGaps> {
      [SourceGaps(FromClaude, claude.metrics.raw.None?, claude.gaps),
       SourceGaps(FromCodex, codex.metrics.raw.None?, codex.gaps),
       SourceGaps(FromCopilot, copilot.metrics.raw.None?, copilot.gaps),
       SourceGaps(FromKronn, kronn.metrics.replies.None?, kronn.gaps),
       SourceGaps(FromRtk, rtk.metrics.saved.None?, rtk.gaps)]
    }

    function NoDenominator(): bool {
      completedTasks.None? || completedTasks.value == 0
    }

    function Gaps(): seq<Gap> {
      AllGaps(Sources(), scenario.FreeForm?, NoDenominator())
    }

    // The report without its reasons and links.
    function Body(): Body {
      Reports.Body(
        window,
        if scenario.Canonical? then Some(scenario.name) else None,
        if scenario.Canonical? then Some(true) else None,
        repoPseudonym,
        kronn.metrics.replies.Some?,
        rtk.metrics.installed,
        completedTasks,
        PerTaskRates(Rate(claude.metrics.raw, completedTasks), Rate(codex.metrics.raw, completedTasks),
                     Rate(copilot.metrics.raw, completedTasks)),
        claude.metrics, Span(claude.from, claude.to),
        codex.metrics, Span(codex.from, codex.to),
        copilot.metrics, Span(copilot.from, copilot.to),
        kronn.metrics, rtk.metrics,
        Gaps(), MessagesOf(Gaps()))
    }
  }

  function MessagesOf(gaps: seq<Gap>): seq<Message> {
    seq(|gaps|, i requires 0 <= i < |gaps| => gaps[i].message)
  }

  // A ValueError while assembling, a report the validator rejects, or a report.
  datatype Outcome = Raised | Rejected(faults: seq<Fault>) | Built(report: Report)

  ghost predicate Explained(inputs: Inputs) {
    forall p :: p in NullPaths(BodyTree(inputs.Body())) ==> NullReason(p, inputs.Body(), inputs.scenario.Omitted?).Some?
  }

  // The reason every null ends up with.
  function FinalReason(inputs: Inputs, p: Path): Option<Code> {
    if inputs.claude.repoNotRequested && p == REPO_SHARE_PATH then Some(NotRequested)
    else NullReason(p, inputs.Body(), inputs.scenario.Omitted?)
  }

  ghost predicate Linkable(inputs: Inputs) {
    forall p :: p in NullPaths(BodyTree(inputs.Body())) && FinalReason(inputs, p).Some? && FinalReason(inputs, p).value.NeedsLink() ==>
      LinkOf(p, FinalReason(inputs, p).value, inputs.Gaps()).Some?
  }

  // The report's reasons and links are the ones the nulls of its own body call for.
  ghost predicate Annotates(r: Report, inputs: Inputs) {
    && r.body == inputs.Body()
    && r.reasons.Keys == NullPaths(BodyTree(inputs.Body()))
    && (forall p :: p in r.reasons ==> FinalReason(inputs, p) == Some(r.reasons[p]))
    && Linked(r.links, r.reasons, inputs.Gaps())
  }

  ghost predicate Succeeds(inputs: Inputs) {
    && NullOrCounter(inputs.completedTasks) && Explained(inputs) && Linkable(inputs)
    && exists r :: Annotates(r, inputs) && Acceptable(r)
  }

  lemma AnnotationUnique(r: Report, r': Report, inputs: Inputs)
    requires Annotates(r, inputs) && Annotates(r', inputs)
    ensures r == r'
  {
    hide FinalReason, LinkOf, NullPaths;
    assert r.reasons == r'.reasons;
    assert forall p :: p in r.links <==> p in r'.links;
    assert r.links == r'.links;
  }

  lemma OverrideIsFinal(inputs: Inputs, explained: map<Path, Code>)
    requires Explains(explained, BodyTree(inputs.Body()), inputs.Body(), inputs.scenario.Omitted?)
    ensures var reasons := Override(explained, inputs.claude.repoNotRequested);
            && reasons.Keys == NullPaths(BodyTree(inputs.Body()))
            && forall p :: p in reasons ==> FinalReason(inputs, p) == Some(reasons[p])
  {
    hide NullReason, NullPaths, BodyTree, Inputs.Body;
  }

  method BuildReport(inputs: Inputs) returns (outcome: Outcome)
    ensures outcome.Built? <==> Succeeds(inputs)
    ensures outcome.Built? ==> Annotates(outcome.report, inputs) && Acceptable(outcome.report)
  {
    hide Acceptable, NullReason, LinkOf, NullPaths, BodyTree, AllGaps;
    if inputs.completedTasks.Some? && inputs.completedTasks.value < 0 {
      return Raised;
    }
    var details := BuildStructuredGaps(inputs.Sources(), inputs.scenario.FreeForm?, inputs.NoDenominator());
    var body := inputs.Body();
    var explained := BuildNullReasons(BodyTree(body), body, inputs.scenario.Omitted?);
    if explained.None? {
      return Raised;
    }
    var reasons := Override(explained.value, inputs.claude.repoNotRequested);
    OverrideIsFinal(inputs, explained.value);
    var links := BuildNullGapLinks(reasons, details);
    if links.None? {
      return Raised;
    }
    var report := Report(body, reasons, links.value);
    assert Annotates(report, inputs);
    var faults := ValidateReport(report);
    if |faults| > 0 {
      forall r | Annotates(r, inputs) ensures !Acceptable(r) {
        AnnotationUnique(r, report, inputs);
      }
      return Rejected(faults);
    }
    outcome := Built(report);
  }
}
