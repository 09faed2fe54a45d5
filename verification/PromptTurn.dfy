/** One prompt turn of the ACP host (`backend/src/acp.rs`, `prompt`): the
    dispatcher publishes `session/update` frames to a bounded broadcast buffer
    while the turn forwards them, until the response to `session/prompt`. */
module PromptTurn {
  import opened Options

  // ---- Frames and the events they give ----

  datatype Kind = AgentMessage | AgentThought | OtherKind

  // Only a block of type `text` that carries a string says anything.
  datatype Block = TextBlock(text: string) | OtherBlock

  datatype Content = Text(text: string) | Blocks(blocks: seq<Block>) | Single(block: Block) | OtherContent

  // `activity` is what the tool-activity reader made of the update, and whether
  // it carries detail; `trace` what the tool-trace reader made of it.
  datatype Tool = Tool(id: Option<string>, title: Option<string>, terminal: bool,
                       activity: Option<bool>, trace: bool)

  datatype Tokens = Tokens(input: nat, output: nat)

  datatype Update = Update(kind: Option<Kind>, content: Option<Content>, tool: Option<Tool>, usage: Option<Tokens>)

  // A frame without parameters or without an update has `update == None`.
  datatype Frame = Frame(sessionId: Option<string>, update: Option<Update>)

  datatype Event =
    | Thought
    | TextDelta(text: string)
    | ToolCall(id: Option<string>, name: Option<string>)
    | ToolCallEnded(id: Option<string>)
    | ToolActivity(id: Option<string>)
    | ToolTrace(id: Option<string>)
    | Usage(tokens: Tokens)
    | Activity
    | Completed

  function BlockEvents(block: Block): seq<Event> {
    if block.TextBlock? then [TextDelta(block.text)] else []
  }

  function BlocksEvents(blocks: seq<Block>): seq<Event> {
    if blocks == [] then [] else BlockEvents(blocks[0]) + BlocksEvents(blocks[1..])
  }

  function ContentEvents(content: Content): seq<Event> {
    match content
    case Text(text) => [TextDelta(text)]
    case Blocks(blocks) => BlocksEvents(blocks)
    case Single(block) => BlockEvents(block)
    case OtherContent => []
  }

  // A terminal update ends a call and announces no activity without detail.
  function ToolEvents(tool: Tool): seq<Event> {
    (if tool.terminal then [ToolCallEnded(tool.id)] else [ToolCall(tool.id, tool.title)])
    + (if tool.activity.Some? && (!tool.terminal || tool.activity.value) then [ToolActivity(tool.id)] else [])
    + (if tool.trace then [ToolTrace(tool.id)] else [])
  }

  predicate IsAnswer(kind: Option<Kind>) { kind == None || kind == Some(AgentMessage) }

  function UpdateEvents(update: Update): seq<Event> {
    (if update.kind == Some(AgentThought) then [Thought] else [])
    + (if update.content.Some? && IsAnswer(update.kind) then ContentEvents(update.content.value) else [])
    + (if update.tool.Some? then ToolEvents(update.tool.value) else [])
    + (if update.usage.Some? then [Usage(update.usage.value)] else [])
  }

  predicate Addressed(frame: Frame, target: string) {
    frame.sessionId == None || frame.sessionId == Some(target)
  }

  // `events_from_notifications` on one frame.
  function Derive(frame: Frame, target: string): seq<Event> {
    if frame.update.None? || !Addressed(frame, target) then [] else UpdateEvents(frame.update.value)
  }

  predicate IsContent(e: Event) { e != Activity && e != Completed }

  lemma {:induction false} BlocksSayText(blocks: seq<Block>)
    ensures forall e :: e in BlocksEvents(blocks) ==> e.TextDelta?
  {
    if blocks != [] {
      BlocksSayText(blocks[1..]);
    }
  }

  lemma ContentSaysText(content: Content)
    ensures forall e :: e in ContentEvents(content) ==> e.TextDelta?
  {
    if content.Blocks? {
      BlocksSayText(content.blocks);
    }
  }

  // A frame never fakes the markers the turn itself adds, and text comes only
  // from an answer chunk addressed to this session.
  lemma DeriveSaysContent(frame: Frame, target: string)
    ensures forall e :: e in Derive(frame, target) ==> IsContent(e)
    ensures forall e :: e in Derive(frame, target) && e.TextDelta? ==>
      Addressed(frame, target) && frame.update.Some? && IsAnswer(frame.update.value.kind)
  {
    hide ContentEvents, Addressed, IsAnswer;
    if frame.update.Some? && frame.update.value.content.Some? {
      ContentSaysText(frame.update.value.content.value);
    }
  }

  // ---- What a turn has sent after some frames ----

  // While streaming, a frame that says nothing is still reported as progress.
  function Shown(frame: Frame, target: string): seq<Event> {
    if Derive(frame, target) == [] then [Activity] else Derive(frame, target)
  }

  function Streamed(frames: seq<Frame>, target: string): seq<Event> {
    if frames == [] then []
    else Streamed(frames[..|frames| - 1], target) + Shown(frames[|frames| - 1], target)
  }

  function Derived(frames: seq<Frame>, target: string): seq<Event> {
    if frames == [] then []
    else Derived(frames[..|frames| - 1], target) + Derive(frames[|frames| - 1], target)
  }

  function Visible(events: seq<Event>): seq<Event> {
    if events == [] then []
    else if events[|events| - 1] == Activity then Visible(events[..|events| - 1])
    else Visible(events[..|events| - 1]) + [events[|events| - 1]]
  }

  lemma {:induction false} VisibleConcat(a: seq<Event>, b: seq<Event>)
    ensures Visible(a + b) == Visible(a) + Visible(b)
  {
    if b == [] {
      assert a + b == a;
    } else {
      assert (a + b)[..|a + b| - 1] == a + b[..|b| - 1];
      VisibleConcat(a, b[..|b| - 1]);
    }
  }

  lemma {:induction false} VisibleContent(events: seq<Event>)
    requires Activity !in events
    ensures Visible(events) == events
  {
    if events != [] {
      assert events == events[..|events| - 1] + [events[|events| - 1]];
      VisibleContent(events[..|events| - 1]);
    }
  }

  lemma {:induction false} DerivedIsContent(frames: seq<Frame>, target: string)
    ensures forall e :: e in Derived(frames, target) ==> IsContent(e)
  {
    if frames != [] {
      DerivedIsContent(frames[..|frames| - 1], target);
      DeriveSaysContent(frames[|frames| - 1], target);
    }
  }

  lemma {:induction false} StreamedShowsDerived(frames: seq<Frame>, target: string)
    ensures Visible(Streamed(frames, target)) == Derived(frames, target)
    ensures Completed !in Streamed(frames, target)
  {
    if frames != [] {
      var last := frames[|frames| - 1];
      StreamedShowsDerived(frames[..|frames| - 1], target);
      DeriveSaysContent(last, target);
      VisibleConcat(Streamed(frames[..|frames| - 1], target), Shown(last, target));
      hide Derive;
      if Derive(last, target) != [] {
        VisibleContent(Derive(last, target));
      } else {
        assert Visible([Activity]) == [];
      }
    }
  }

  lemma {:induction false} DerivedConcat(a: seq<Frame>, b: seq<Frame>, target: string)
    ensures Derived(a + b, target) == Derived(a, target) + Derived(b, target)
  {
    hide Derive;
    if b == [] {
      assert a + b == a;
    } else {
      assert (a + b)[..|a + b| - 1] == a + b[..|b| - 1];
      DerivedConcat(a, b[..|b| - 1], target);
    }
  }

  // ---- The turn as interleaved steps ----

  const CAPACITY := 256

  // The result of `session/prompt`, when the request future is ready: `at` is
  // how many frames had been published before the response was read.
  datatype Response = Ok(at: nat, usage: Option<Tokens>) | Err

  // `from` is where the drain started; `lagged` whether a lag ended it.
  datatype Phase = Streaming | Draining(from: nat) | Returned(from: nat, lagged: bool) | Failed

  // `log` is every frame published since the turn subscribed, `pos` how many
  // of them its receiver has read, `sent` the events it has forwarded.
  datatype Turn = Turn(log: seq<Frame>, pos: nat, sent: seq<Event>, response: Option<Response>, phase: Phase)

  datatype Step =
    | Publish(frame: Frame)
    | Respond(usage: Option<Tokens>)
    | Refuse
    | Forward
    | Lag
    | Take
    | Drain
    | Finish

  const SUBSCRIBED := Turn([], 0, [], None, Streaming)

  // A receiver more than the buffer behind finds its next frame overwritten.
  predicate Behind(t: Turn) { |t.log| > t.pos + CAPACITY }

  predicate Enabled(t: Turn, step: Step) {
    match step
    case Publish(_) => true
    case Respond(_) => t.response.None?
    case Refuse => t.response.None?
    case Forward => t.phase.Streaming? && t.pos < |t.log| && !Behind(t)
    case Lag => t.phase.Streaming? && Behind(t)
    case Take => t.phase.Streaming? && t.response.Some?
    case Drain => t.phase.Draining? && t.pos < |t.log| && !Behind(t)
    // `try_recv` fails: the buffer is empty, or the receiver lagged.
    case Finish => t.phase.Draining? && (t.pos >= |t.log| || Behind(t))
  }

  // Usage that counts nothing is not reported.
  function Reported(usage: Option<Tokens>): seq<Event> {
    if usage.Some? && (usage.value.input > 0 || usage.value.output > 0) then [Usage(usage.value)] else []
  }

  function Closing(response: Option<Response>): seq<Event> {
    (if response.Some? && response.value.Ok? then Reported(response.value.usage) else []) + [Completed]
  }

  function Apply(t: Turn, step: Step, target: string): Turn
    requires Enabled(t, step)
  {
    match step
    case Publish(frame) => t.(log := t.log + [frame])
    case Respond(usage) => t.(response := Some(Ok(|t.log|, usage)))
    case Refuse => t.(response := Some(Err))
    case Forward => t.(pos := t.pos + 1, sent := t.sent + Shown(t.log[t.pos], target))
    case Lag => t.(phase := Failed)
    case Take => t.(phase := if t.response.value.Ok? then Draining(t.pos) else Failed)
    case Drain => t.(pos := t.pos + 1, sent := t.sent + Derive(t.log[t.pos], target))
    case Finish => t.(sent := t.sent + Closing(t.response), phase := Returned(t.phase.from, Behind(t)))
  }

  predicate Possible(t: Turn, steps: seq<Step>, target: string)
    decreases |steps|
  {
    steps == [] || (Enabled(t, steps[0]) && Possible(Apply(t, steps[0], target), steps[1..], target))
  }

  function After(t: Turn, steps: seq<Step>, target: string): Turn
    requires Possible(t, steps, target)
    decreases |steps|
  {
    if steps == [] then t else After(Apply(t, steps[0], target), steps[1..], target)
  }

  ghost predicate Reachable(t: Turn, target: string) {
    exists steps :: Possible(SUBSCRIBED, steps, target) && After(SUBSCRIBED, steps, target) == t
  }

  // ---- What every step keeps ----

  function Forwarded(t: Turn, from: nat, target: string): seq<Event>
    requires from <= t.pos <= |t.log|
  {
    Streamed(t.log[..from], target) + Derived(t.log[from..t.pos], target)
  }

  predicate Accounted(t: Turn, target: string)
    requires t.pos <= |t.log|
  {
    match t.phase
    case Streaming => t.sent == Streamed(t.log[..t.pos], target)
    case Failed => t.sent == Streamed(t.log[..t.pos], target)
    case Draining(from) => from <= t.pos && t.sent == Forwarded(t, from, target)
    case Returned(from, _) => from <= t.pos && t.sent == Forwarded(t, from, target) + Closing(t.response)
  }

  predicate Timed(t: Turn) {
    && (t.response.Some? && t.response.value.Ok? ==> t.response.value.at <= |t.log|)
    && (t.phase.Draining? || t.phase.Returned? ==> t.response.Some? && t.response.value.Ok?)
    && (t.phase.Returned? ==>
          if t.phase.lagged then Behind(t) else t.response.Some? && t.response.value.Ok? && t.response.value.at <= t.pos)
  }

  predicate Invariant(t: Turn, target: string) {
    t.pos <= |t.log| && Timed(t) && Accounted(t, target)
  }

  lemma PublishKeepsAccount(t: Turn, frame: Frame, target: string)
    requires t.pos <= |t.log| && Accounted(t, target)
    ensures Accounted(t.(log := t.log + [frame]), target)
  {
    hide Streamed, Derived;
    var log := t.log + [frame];
    assert log[..t.pos] == t.log[..t.pos];
    if t.phase.Draining? || t.phase.Returned? {
      assert log[..t.phase.from] == t.log[..t.phase.from];
      assert log[t.phase.from..t.pos] == t.log[t.phase.from..t.pos];
    }
  }

  lemma ForwardKeepsAccount(t: Turn, target: string)
    requires Enabled(t, Forward) && Accounted(t, target)
    ensures Accounted(Apply(t, Forward, target), target)
  {
    hide Shown;
    var frames := t.log[..t.pos + 1];
    assert frames[..|frames| - 1] == t.log[..t.pos];
    assert Streamed(frames, target) == Streamed(frames[..|frames| - 1], target) + Shown(frames[|frames| - 1], target);
  }

  lemma DrainKeepsAccount(t: Turn, target: string)
    requires Enabled(t, Drain) && Accounted(t, target)
    ensures Accounted(Apply(t, Drain, target), target)
  {
    hide Derive, Streamed;
    var from := t.phase.from;
    var frames := t.log[from..t.pos + 1];
    assert frames[..|frames| - 1] == t.log[from..t.pos] && frames[|frames| - 1] == t.log[t.pos];
    assert Derived(frames, target) == Derived(frames[..|frames| - 1], target) + Derive(frames[|frames| - 1], target);
    var head := Streamed(t.log[..from], target);
    assert head + Derived(t.log[from..t.pos], target) + Derive(t.log[t.pos], target)
        == head + (Derived(t.log[from..t.pos], target) + Derive(t.log[t.pos], target));
  }

  lemma TakeKeepsAccount(t: Turn, target: string)
    requires Enabled(t, Take) && t.pos <= |t.log| && Accounted(t, target)
    ensures Accounted(Apply(t, Take, target), target)
  {
    hide Streamed;
    assert t.log[t.pos..t.pos] == [];
  }

  lemma StepKeepsInvariant(t: Turn, step: Step, target: string)
    requires Invariant(t, target) && Enabled(t, step)
    ensures Invariant(Apply(t, step, target), target)
  {
    match step {
      case Publish(frame) => PublishKeepsAccount(t, frame, target);
      case Forward => ForwardKeepsAccount(t, target);
      case Drain => DrainKeepsAccount(t, target);
      case Take => TakeKeepsAccount(t, target);
      case _ =>
    }
    hide Streamed, Derived, Shown, Derive;
  }

  lemma {:induction false} RunKeepsInvariant(t: Turn, steps: seq<Step>, target: string)
    requires Invariant(t, target) && Possible(t, steps, target)
    ensures Invariant(After(t, steps, target), target)
    decreases |steps|
  {
    hide Invariant, Apply, Enabled;
    if steps != [] {
      StepKeepsInvariant(t, steps[0], target);
      RunKeepsInvariant(Apply(t, steps[0], target), steps[1..], target);
    }
  }

  lemma ReachableIsInvariant(t: Turn, target: string)
    requires Reachable(t, target)
    ensures Invariant(t, target)
  {
    var steps :| Possible(SUBSCRIBED, steps, target) && After(SUBSCRIBED, steps, target) == t;
    RunKeepsInvariant(SUBSCRIBED, steps, target);
  }

  // ---- Results over every interleaving ----

  lemma ForwardedShows(t: Turn, from: nat, target: string)
    requires from <= t.pos <= |t.log|
    ensures Visible(Forwarded(t, from, target)) == Derived(t.log[..t.pos], target)
    ensures Completed !in Forwarded(t, from, target)
  {
    hide Streamed, Derived, Visible;
    var a, b := t.log[..from], t.log[from..t.pos];
    assert a + b == t.log[..t.pos];
    PartsShow(a, b, target);
  }

  lemma PartsShow(a: seq<Frame>, b: seq<Frame>, target: string)
    ensures Visible(Streamed(a, target) + Derived(b, target)) == Derived(a + b, target)
    ensures Completed !in Streamed(a, target) && Completed !in Derived(b, target)
  {
    hide Streamed, Derived, Visible;
    StreamedShowsDerived(a, target);
    DerivedIsContent(b, target);
    VisibleConcat(Streamed(a, target), Derived(b, target));
    VisibleContent(Derived(b, target));
    DerivedConcat(a, b, target);
  }

  lemma StreamingHasNotCompleted(t: Turn, target: string)
    requires Invariant(t, target) && !t.phase.Returned?
    ensures Completed !in t.sent
  {
    if t.phase.Draining? {
      ForwardedShows(t, t.phase.from, target);
      hide Forwarded;
    } else {
      StreamedShowsDerived(t.log[..t.pos], target);
      hide Streamed;
    }
  }

  lemma VisibleClosing(body: seq<Event>, response: Option<Response>)
    ensures Visible(body + Closing(response)) == Visible(body) + Closing(response)
  {
    hide Visible;
    VisibleConcat(body, Closing(response));
    VisibleContent(Closing(response));
  }

  lemma ReturnedAccount(t: Turn, target: string)
    requires Invariant(t, target) && t.phase.Returned?
    ensures t.phase.from <= t.pos <= |t.log| && t.response.Some? && t.response.value.Ok?
    ensures t.sent == Forwarded(t, t.phase.from, target) + Closing(t.response)
    ensures if t.phase.lagged then Behind(t) else t.response.value.at <= t.pos
  {
    hide Forwarded, Behind, Streamed;
  }

  // A turn that returns Ok has forwarded, in wire order and leaving `Activity`
  // aside, the events of exactly the first `pos` frames, then the usage of the
  // response, then `Completed`. Unless a lag ended the drain, those frames are
  // at least the ones read before the response.
  lemma ReturnedTurnForwards(t: Turn, target: string)
    requires Reachable(t, target) && t.phase.Returned?
    ensures t.pos <= |t.log| && t.response.Some? && t.response.value.Ok?
    ensures Visible(t.sent) == Derived(t.log[..t.pos], target) + Reported(t.response.value.usage) + [Completed]
    ensures if t.phase.lagged then Behind(t) else t.response.value.at <= t.pos
  {
    hide Reachable, Invariant, Forwarded, Derived, Visible, Behind;
    ReachableIsInvariant(t, target);
    ReturnedAccount(t, target);
    ForwardedShows(t, t.phase.from, target);
    VisibleClosing(Forwarded(t, t.phase.from, target), t.response);
  }

  // ---- What falling behind costs ----

  /** A receiver more than the buffer behind never reads again: whatever follows,
      the turn forwards nothing more. It has not ended, or it has failed, or it
      has returned Ok after a drain that the lag ended. */
  lemma {:induction false} BehindIsStuck(t: Turn, steps: seq<Step>, target: string)
    requires Behind(t) && Possible(t, steps, target) && (t.phase.Draining? ==> t.response.Some?)
    ensures var end := After(t, steps, target);
            && end.pos == t.pos
            && (t.phase.Streaming? || t.phase.Draining? ==>
                  if end.phase.Returned? then end.phase.lagged && end.sent == t.sent + Closing(end.response) else end.sent == t.sent)
    decreases |steps|
  {
    hide Closing;
    if steps != [] {
      var next := Apply(t, steps[0], target);
      BehindIsStuck(next, steps[1..], target);
      if next.phase.Returned? || next.phase.Failed? {
        EndedStays(next, steps[1..], target);
      }
    }
  }

  lemma {:induction false} StuckStays(t: Turn, steps: seq<Step>, target: string)
    requires Behind(t) && Possible(t, steps, target)
    ensures After(t, steps, target).pos == t.pos && Behind(After(t, steps, target))
    decreases |steps|
  {
    if steps != [] {
      StuckStays(Apply(t, steps[0], target), steps[1..], target);
    }
  }

  // A turn that has ended sends no more and keeps its response.
  lemma {:induction false} EndedStays(t: Turn, steps: seq<Step>, target: string)
    requires Possible(t, steps, target) && (t.phase.Returned? || t.phase.Failed?)
    ensures var end := After(t, steps, target);
            end.phase == t.phase && end.sent == t.sent && (t.response.Some? ==> end.response == t.response)
    decreases |steps|
  {
    if steps != [] {
      EndedStays(Apply(t, steps[0], target), steps[1..], target);
    }
  }

  // Somewhere along the run the receiver is more than the buffer behind and has
  // still to read frame `k`.
  predicate Overrun(t: Turn, steps: seq<Step>, k: nat, target: string)
    requires Possible(t, steps, target)
    decreases |steps|
  {
    (Behind(t) && t.pos <= k) || (steps != [] && Overrun(Apply(t, steps[0], target), steps[1..], k, target))
  }

  lemma {:induction false} OverrunIsLost(t: Turn, steps: seq<Step>, k: nat, target: string)
    requires Possible(t, steps, target) && Overrun(t, steps, k, target)
    ensures After(t, steps, target).pos <= k && Behind(After(t, steps, target))
    decreases |steps|
  {
    hide Enabled, Apply, Behind;
    if Behind(t) && t.pos <= k {
      StuckStays(t, steps, target);
    } else {
      OverrunIsLost(Apply(t, steps[0], target), steps[1..], k, target);
    }
  }

  lemma {:induction false} OverrunAtTheEnd(t: Turn, steps: seq<Step>, k: nat, target: string)
    requires Possible(t, steps, target)
    requires Behind(After(t, steps, target)) && After(t, steps, target).pos <= k
    ensures Overrun(t, steps, k, target)
    decreases |steps|
  {
    hide Enabled, Apply, Behind;
    if steps != [] {
      OverrunAtTheEnd(Apply(t, steps[0], target), steps[1..], k, target);
    }
  }

  /** Over every run that returns Ok, a frame read before the response is not
      forwarded exactly when the receiver was at some moment more than the buffer
      behind without having read it. */
  lemma LostExactly(steps: seq<Step>, k: nat, target: string)
    requires Possible(SUBSCRIBED, steps, target) && After(SUBSCRIBED, steps, target).phase.Returned?
    ensures var t := After(SUBSCRIBED, steps, target);
            && t.response.Some? && t.response.value.Ok?
            && (k < t.response.value.at ==> (t.pos <= k <==> Overrun(SUBSCRIBED, steps, k, target)))
  {
    var t := After(SUBSCRIBED, steps, target);
    hide Possible, After, Overrun, Visible, Derived, Behind;
    assert Reachable(t, target);
    ReturnedTurnForwards(t, target);
    if Overrun(SUBSCRIBED, steps, k, target) {
      OverrunIsLost(SUBSCRIBED, steps, k, target);
    } else if Behind(t) && t.pos <= k {
      OverrunAtTheEnd(SUBSCRIBED, steps, k, target);
    }
  }

  // The promise itself: an Ok turn has forwarded every frame read before the
  // response exactly when the receiver was never more than the buffer behind
  // with one of them still to read.
  lemma ForwardsAllExactly(steps: seq<Step>, target: string)
    requires Possible(SUBSCRIBED, steps, target) && After(SUBSCRIBED, steps, target).phase.Returned?
    ensures var t := After(SUBSCRIBED, steps, target);
            && t.response.Some? && t.response.value.Ok? && t.pos <= |t.log|
            && Visible(t.sent) == Derived(t.log[..t.pos], target) + Reported(t.response.value.usage) + [Completed]
            && (t.response.value.at <= t.pos <==>
                  t.response.value.at == 0 || !Overrun(SUBSCRIBED, steps, t.response.value.at - 1, target))
  {
    var t := After(SUBSCRIBED, steps, target);
    hide Possible, After, Overrun, Visible, Derived, Behind;
    assert Reachable(t, target);
    ReturnedTurnForwards(t, target);
    if t.response.value.at > 0 {
      LostExactly(steps, t.response.value.at - 1, target);
    }
  }

  // No state of the run has its receiver more than the buffer behind.
  predicate NeverBehind(t: Turn, steps: seq<Step>, target: string)
    requires Possible(t, steps, target)
    decreases |steps|
  {
    !Behind(t) && (steps == [] || NeverBehind(Apply(t, steps[0], target), steps[1..], target))
  }

  lemma {:induction false} NeverBehindIsNotOverrun(t: Turn, steps: seq<Step>, k: nat, target: string)
    requires Possible(t, steps, target) && NeverBehind(t, steps, target)
    ensures !Overrun(t, steps, k, target)
    decreases |steps|
  {
    hide Apply, Enabled, Behind;
    if steps != [] {
      NeverBehindIsNotOverrun(Apply(t, steps[0], target), steps[1..], k, target);
    }
  }

  // A receiver that keeps up misses nothing.
  lemma PromptReceiverMissesNothing(steps: seq<Step>, target: string)
    requires Possible(SUBSCRIBED, steps, target) && NeverBehind(SUBSCRIBED, steps, target)
    requires After(SUBSCRIBED, steps, target).phase.Returned?
    ensures var t := After(SUBSCRIBED, steps, target);
            && t.response.Some? && t.response.value.Ok? && t.response.value.at <= t.pos <= |t.log|
            && Visible(t.sent) == Derived(t.log[..t.pos], target) + Reported(t.response.value.usage) + [Completed]
  {
    hide Possible, After, Overrun, Visible, Derived, Behind, NeverBehind;
    ForwardsAllExactly(steps, target);
    var at := After(SUBSCRIBED, steps, target).response.value.at;
    if at > 0 {
      NeverBehindIsNotOverrun(SUBSCRIBED, steps, at - 1, target);
    }
  }

  // `Completed` is sent exactly when the turn returns Ok, once and last.
  lemma CompletedExactlyOnOk(t: Turn, target: string)
    requires Reachable(t, target)
    ensures Completed in t.sent <==> t.phase.Returned?
    ensures t.phase.Returned? ==> exists body :: t.sent == body + [Completed] && Completed !in body
  {
    ReachableIsInvariant(t, target);
    hide Reachable;
    if t.phase.Returned? {
      var body := ReturnedSent(t, target);
    } else {
      StreamingHasNotCompleted(t, target);
    }
  }

  lemma ReturnedSent(t: Turn, target: string) returns (body: seq<Event>)
    requires Invariant(t, target) && t.phase.Returned?
    ensures t.sent == body + [Completed] && Completed !in body
  {
    ForwardedShows(t, t.phase.from, target);
    hide Forwarded, Visible, Derived;
    body := Forwarded(t, t.phase.from, target) + Reported(t.response.value.usage);
  }

  // ---- A lag inside the drain ----

  function Repeated(frame: Frame, n: nat): seq<Frame> { seq(n, _ => frame) }

  lemma RunExtends(t: Turn, steps: seq<Step>, step: Step, target: string)
    requires Possible(t, steps, target) && Enabled(After(t, steps, target), step)
    ensures Possible(t, steps + [step], target)
    ensures After(t, steps + [step], target) == Apply(After(t, steps, target), step, target)
    decreases |steps|
  {
    hide Apply, Enabled;
    if steps == [] {
      assert (steps + [step])[1..] == [];
    } else {
      assert (steps + [step])[1..] == steps[1..] + [step];
      RunExtends(Apply(t, steps[0], target), steps[1..], step, target);
    }
  }

  lemma ReachableExtends(t: Turn, step: Step, target: string)
    requires Reachable(t, target) && Enabled(t, step)
    ensures Reachable(Apply(t, step, target), target)
  {
    var steps :| Possible(SUBSCRIBED, steps, target) && After(SUBSCRIBED, steps, target) == t;
    RunExtends(SUBSCRIBED, steps, step, target);
  }

  lemma {:induction false} ManyFramesCanWait(frame: Frame, n: nat, target: string)
    ensures Reachable(SUBSCRIBED.(log := Repeated(frame, n)), target)
  {
    if n == 0 {
      assert Possible(SUBSCRIBED, [], target) && After(SUBSCRIBED, [], target) == SUBSCRIBED;
    } else {
      ManyFramesCanWait(frame, n - 1, target);
      ReachableExtends(SUBSCRIBED.(log := Repeated(frame, n - 1)), Publish(frame), target);
      assert Repeated(frame, n) == Repeated(frame, n - 1) + [frame];
    }
  }

  // The drain treats a lag like an empty buffer: a turn can return Ok having
  // forwarded none of the frames read before its response.
  lemma LagInDrainIsSilent(frame: Frame, target: string)
    ensures exists t :: Reachable(t, target) && t.phase.Returned? && t.phase.lagged
                        && t.response == Some(Ok(CAPACITY + 1, None)) && t.log == Repeated(frame, CAPACITY + 1)
                        && t.sent == [Completed]
  {
    var t0 := SUBSCRIBED.(log := Repeated(frame, CAPACITY + 1));
    ManyFramesCanWait(frame, CAPACITY + 1, target);
    var t1 := Apply(t0, Respond(None), target);
    ReachableExtends(t0, Respond(None), target);
    var t2 := Apply(t1, Take, target);
    ReachableExtends(t1, Take, target);
    ReachableExtends(t2, Finish, target);
    assert Apply(t2, Finish, target).sent == [Completed];
  }
}
