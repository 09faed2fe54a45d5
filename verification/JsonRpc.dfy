/** Matching JSON-RPC responses to the requests of one ACP session
    (`backend/src/acp.rs`): the pending table, the dispatcher that drains the
    runtime's stdout, timeouts and cancelled futures, as interleaved steps. */
module JsonRpc {
  import opened Options

  // ---- Frames and outcomes ----

  // A JSON payload this protocol only passes on.
  type Payload = string

  // What classification reads of an `error` object.
  datatype ErrorObject = ErrorObject(code: Option<int>, message: string, sessionId: Option<string>)

  datatype Reply = Failure(error: ErrorObject) | Success(result: Payload) | NoResult

  // One line of the runtime's stdout. A frame without an unsigned `id` is a
  // notification; one with an `id` and a `method` is the runtime's own request.
  datatype Frame =
    | Malformed
    | AgentCall(id: nat)
    | Response(id: nat, reply: Reply)
    | Notification

  datatype Outcome =
    | Answer(result: Payload)
    | SessionNotFound
    | Refused(error: ErrorObject)
    | ResultMissing
    | StdoutEnded
    | WriteFailed
    | TimedOut
    | DispatcherStopped

  // ---- Classification of an error response ----

  const INVALID_PARAMS := -32602

  // The characters `str::trim` removes: Unicode White_Space.
  predicate IsSpace(c: char) {
    || '\U{0009}' <= c <= '\U{000D}' || c == '\U{0020}' || c == '\U{0085}' || c == '\U{00A0}'
    || c == '\U{1680}' || '\U{2000}' <= c <= '\U{200A}' || c == '\U{2028}' || c == '\U{2029}'
    || c == '\U{202F}' || c == '\U{205F}' || c == '\U{3000}'
  }

  // `char::is_control`: Unicode category Cc.
  predicate IsControl(c: char) {
    c <= '\U{001F}' || '\U{007F}' <= c <= '\U{009F}'
  }

  function TrimStart(s: string): string {
    if s != [] && IsSpace(s[0]) then TrimStart(s[1..]) else s
  }

  function TrimEnd(s: string): string {
    if s != [] && IsSpace(s[|s| - 1]) then TrimEnd(s[..|s| - 1]) else s
  }

  function Trim(s: string): string { TrimEnd(TrimStart(s)) }

  function NotFoundMessage(id: string): string { "session not found: " + id }

  // The runtime names exactly the session that was asked for, under an id no
  // message could be confused with.
  predicate Names(error: ErrorObject, id: string) {
    && id != []
    && Trim(id) == id
    && (forall i :: 0 <= i < |id| ==> !IsControl(id[i]))
    && error.sessionId == Some(id)
    && error.message == NotFoundMessage(id)
  }

  function Classify(error: ErrorObject, requested: Option<string>): Outcome {
    if error.code == Some(INVALID_PARAMS) && requested.Some? && Names(error, requested.value)
    then SessionNotFound
    else Refused(error)
  }

  function OutcomeOf(reply: Reply, missing: Option<string>): Outcome {
    match reply
    case Failure(error) => Classify(error, missing)
    case Success(result) => Answer(result)
    case NoResult => ResultMissing
  }

  lemma {:induction false} TrimStartShrinks(s: string)
    ensures TrimStart(s) == s || |TrimStart(s)| < |s|
    ensures TrimStart(s) == s <==> s == [] || !IsSpace(s[0])
  {
    if s != [] && IsSpace(s[0]) {
      TrimStartShrinks(s[1..]);
    }
  }

  lemma {:induction false} TrimEndShrinks(s: string)
    ensures TrimEnd(s) == s || |TrimEnd(s)| < |s|
    ensures TrimEnd(s) == s <==> s == [] || !IsSpace(s[|s| - 1])
  {
    if s != [] && IsSpace(s[|s| - 1]) {
      TrimEndShrinks(s[..|s| - 1]);
    }
  }

  // An id passes the whitespace test exactly when neither end is a space.
  lemma TrimmedExactly(s: string)
    ensures Trim(s) == s <==> s == [] || (!IsSpace(s[0]) && !IsSpace(s[|s| - 1]))
  {
    TrimStartShrinks(s);
    TrimEndShrinks(TrimStart(s));
  }

  // A message names at most one session: an error promoted for one requested
  // id is never promoted for another.
  lemma NamesAtMostOne(error: ErrorObject, a: string, b: string)
    requires Classify(error, Some(a)) == SessionNotFound
    requires Classify(error, Some(b)) == SessionNotFound
    ensures a == b
  {
    hide NotFoundMessage, Trim;
  }

  // ---- The table every request and the dispatcher share ----

  // The channels after each of `ids` was sent a transport error.
  function Failed(inboxes: map<nat, Outcome>, ids: set<nat>): map<nat, Outcome> {
    map id | id in inboxes.Keys + ids :: if id in ids then StdoutEnded else inboxes[id]
  }

  lemma FailedMore(inboxes: map<nat, Outcome>, ids: set<nat>, id: nat)
    ensures Failed(inboxes, ids)[id := StdoutEnded] == Failed(inboxes, ids + {id})
  {
  }

  // `pending` holds, per request id, the session whose absence may be reported;
  // `inboxes` the one-shot channels that have been filled.
  datatype Hub = Hub(nextId: nat, pending: map<nat, Option<string>>, inboxes: map<nat, Outcome>) {
    // Every id in use was handed out, and no answered request is still pending.
    ghost predicate Valid() {
      && (forall id :: id in pending ==> id < nextId && id !in inboxes)
      && forall id :: id in inboxes ==> id < nextId
    }

    // A response to this id would change nothing.
    ghost predicate Ignores(id: nat) {
      forall reply :: Resolve(id, reply) == this
    }

    function Register(id: nat, missing: Option<string>): Hub {
      this.(pending := pending[id := missing])
    }

    function Resolve(id: nat, reply: Reply): Hub {
      if id in pending
      then this.(pending := pending - {id}, inboxes := inboxes[id := OutcomeOf(reply, pending[id])])
      else this
    }

    function FailAll(): Hub {
      this.(pending := map[], inboxes := Failed(inboxes, pending.Keys))
    }

    function Forget(id: nat): Hub {
      this.(pending := pending - {id})
    }
  }

  /** The fields of the transport that requests and the dispatcher update. */
  class Transport {
    var nextId: nat
    var pending: map<nat, Option<string>>
    var inboxes: map<nat, Outcome>

    function State(): Hub reads this { Hub(nextId, pending, inboxes) }

    constructor ()
      ensures State() == Hub(1, map[], map[]) && State().Valid()
    {
      nextId, pending, inboxes := 1, map[], map[];
    }

    // An id that nothing uses and no later call returns again.
    method TakeId() returns (id: nat)
      requires State().Valid()
      modifies this`nextId
      ensures State().Valid() && State().Ignores(id)
      ensures id !in pending && id !in inboxes && old(nextId) <= id < nextId
      ensures nextId == old(nextId) + 1
    {
      id := nextId;
      nextId := nextId + 1;
    }

    // The entry of a new request, which displaces no other.
    method Register(id: nat, missing: Option<string>)
      requires State().Valid() && id < nextId && id !in pending && id !in inboxes
      modifies this`pending
      ensures State().Valid() && !State().Ignores(id)
      ensures State() == old(State()).Register(id, missing) && pending - {id} == old(pending)
    {
      pending := pending[id := missing];
      assert State().Resolve(id, NoResult) != State();
    }

    // The dispatcher's branch for a frame with an id and no method. The entry is
    // taken, so a second response to the same id changes nothing.
    method Resolve(id: nat, reply: Reply)
      requires State().Valid()
      modifies this
      ensures State() == old(State()).Resolve(id, reply)
      ensures State().Valid() && State().Ignores(id)
    {
      if id in pending {
        hide Classify;
        var missing := pending[id];
        pending := pending - {id};
        var outcome: Outcome;
        match reply {
          case Failure(error) => outcome := Classify(error, missing);
          case Success(result) => outcome := Answer(result);
          case NoResult => outcome := ResultMissing;
        }
        inboxes := inboxes[id := outcome];
      }
    }

    method FailPending()
      requires State().Valid()
      modifies this
      ensures State() == old(State()).FailAll()
      ensures State().Valid() && pending == map[]
    {
      FailedIsValid(State());
      var waiters := pending.Keys;
      pending := map[];
      ghost var before, sent := inboxes, {};
      assert inboxes == Failed(before, sent);
      hide Failed, Hub.Valid;
      while waiters != {}
        invariant pending == map[] && nextId == old(nextId)
        invariant inboxes == Failed(before, sent)
        invariant sent + waiters == old(pending).Keys
      {
        var id :| id in waiters;
        FailedMore(before, sent, id);
        inboxes := inboxes[id := StdoutEnded];
        sent := sent + {id};
        waiters := waiters - {id};
      }
      assert sent == old(pending).Keys;
    }

    // A request that gave up takes its entry with it: a late response is ignored.
    method Forget(id: nat)
      requires State().Valid()
      modifies this`pending
      ensures State() == old(State()).Forget(id)
      ensures State().Valid() && State().Ignores(id)
    {
      pending := pending - {id};
    }
  }

  lemma FailedIsValid(h: Hub)
    requires h.Valid()
    ensures h.FailAll().Valid()
  {
  }

  // ---- Interleaved steps ----

  datatype Agent = OpenCode | OtherAgent

  datatype Rpc = Resume | OtherRpc

  // Where one `request` future stands.
  datatype Phase =
    | Allocated
    | Writing
    | Waiting
    | Settling(outcome: Outcome)
    | Done(outcome: Outcome)
    | Dropped

  datatype Request = Request(rpc: Rpc, sessionId: Option<string>, phase: Phase)

  datatype Dispatcher = Running | Exited | Aborted

  // `wire` is the history of frames the dispatcher has read.
  datatype State = State(
    agent: Agent,
    hub: Hub,
    requests: map<nat, Request>,
    dispatcher: Dispatcher,
    wire: seq<Frame>)

  datatype Step =
    | Begin(rpc: Rpc, sessionId: Option<string>)
    | Register(id: nat)
    | Written(id: nat)
    | WriteBreaks(id: nat)
    | Receive(id: nat)
    | Disconnect(id: nat)
    | Expire(id: nat)
    | CleanUp(id: nat)
    | Cancel(id: nat)
    | Read(frame: Frame)
    | StdoutEnds
    | Abort

  function Start(agent: Agent): State {
    State(agent, Hub(1, map[], map[]), map[], Running, [])
  }

  // Only an OpenCode `session/resume` may report its session as missing.
  function Missing(agent: Agent, r: Request): Option<string> {
    if agent == OpenCode && r.rpc == Resume then r.sessionId else None
  }

  // A failed exchange still has to take its entry out of the table.
  function Settle(outcome: Outcome): Phase {
    if outcome.Answer? then Done(outcome) else Settling(outcome)
  }

  predicate In(s: State, id: nat, phase: Phase) {
    id in s.requests && s.requests[id].phase == phase
  }

  predicate Enabled(s: State, step: Step) {
    match step
    case Begin(_, _) => true
    case Register(id) => In(s, id, Allocated)
    case Written(id) => In(s, id, Writing)
    case WriteBreaks(id) => In(s, id, Writing)
    case Receive(id) => In(s, id, Waiting) && id in s.hub.inboxes
    case Disconnect(id) => In(s, id, Waiting) && id !in s.hub.inboxes && id !in s.hub.pending
    case Expire(id) => In(s, id, Writing) || In(s, id, Waiting)
    case CleanUp(id) => id in s.requests && s.requests[id].phase.Settling?
    case Cancel(id) => id in s.requests && !s.requests[id].phase.Done? && !s.requests[id].phase.Dropped?
    case Read(_) => s.dispatcher == Running
    case StdoutEnds => s.dispatcher == Running
    case Abort => s.dispatcher == Running
  }

  function Move(s: State, id: nat, phase: Phase): State
    requires id in s.requests
  {
    s.(requests := s.requests[id := s.requests[id].(phase := phase)])
  }

  function Apply(s: State, step: Step): State
    requires Enabled(s, step)
  {
    match step
    case Begin(rpc, sessionId) =>
      s.(hub := s.hub.(nextId := s.hub.nextId + 1),
         requests := s.requests[s.hub.nextId := Request(rpc, sessionId, Allocated)])
    case Register(id) =>
      Move(s, id, Writing).(hub := s.hub.Register(id, Missing(s.agent, s.requests[id])))
    case Written(id) => Move(s, id, Waiting)
    case WriteBreaks(id) => Move(s, id, Settle(WriteFailed))
    case Receive(id) => Move(s, id, Settle(s.hub.inboxes[id]))
    case Disconnect(id) => Move(s, id, Settle(DispatcherStopped))
    case Expire(id) => Move(s, id, Settle(TimedOut))
    case CleanUp(id) => Move(s, id, Done(s.requests[id].phase.outcome)).(hub := s.hub.Forget(id))
    case Cancel(id) => Move(s, id, Dropped)
    case Read(frame) =>
      s.(wire := s.wire + [frame],
         hub := if frame.Response? then s.hub.Resolve(frame.id, frame.reply) else s.hub)
    case StdoutEnds => s.(dispatcher := Exited, hub := s.hub.FailAll())
    case Abort => s.(dispatcher := Aborted)
  }

  predicate Possible(s: State, steps: seq<Step>)
    decreases |steps|
  {
    steps == [] || (Enabled(s, steps[0]) && Possible(Apply(s, steps[0]), steps[1..]))
  }

  function After(s: State, steps: seq<Step>): State
    requires Possible(s, steps)
    decreases |steps|
  {
    if steps == [] then s else After(Apply(s, steps[0]), steps[1..])
  }

  // ---- What every step keeps ----

  // A response to this very id, read off the wire, stands behind the outcome.
  predicate Heard(wire: seq<Frame>, id: nat, missing: Option<string>, outcome: Outcome) {
    exists k :: 0 <= k < |wire| && wire[k].Response? && wire[k].id == id
                && OutcomeOf(wire[k].reply, missing) == outcome
  }

  predicate Delivered(s: State, id: nat, outcome: Outcome)
    requires id in s.requests
  {
    || (outcome == StdoutEnded && s.dispatcher == Exited)
    || Heard(s.wire, id, Missing(s.agent, s.requests[id]), outcome)
  }

  // Where an outcome can come from. `DispatcherStopped` is not among them.
  predicate Justified(s: State, id: nat, outcome: Outcome)
    requires id in s.requests
  {
    outcome == WriteFailed || outcome == TimedOut || Delivered(s, id, outcome)
  }

  predicate Sound(s: State, id: nat)
    requires id in s.requests
  {
    var r := s.requests[id];
    && id < s.hub.nextId
    && (id in s.hub.pending ==>
          && id !in s.hub.inboxes
          && !r.phase.Allocated? && !r.phase.Done?
          && s.hub.pending[id] == Missing(s.agent, r))
    && (r.phase.Allocated? ==> id !in s.hub.inboxes)
    && (r.phase.Writing? || r.phase.Waiting? ==> id in s.hub.pending || id in s.hub.inboxes)
    && (id in s.hub.inboxes ==> Delivered(s, id, s.hub.inboxes[id]))
    && (r.phase.Settling? || r.phase.Done? ==> Justified(s, id, r.phase.outcome))
  }

  ghost predicate Invariant(s: State) {
    && s.hub.pending.Keys <= s.requests.Keys
    && s.hub.inboxes.Keys <= s.requests.Keys
    && forall id :: id in s.requests ==> Sound(s, id)
  }

  lemma HeardLonger(wire: seq<Frame>, frame: Frame, id: nat, missing: Option<string>, outcome: Outcome)
    requires Heard(wire, id, missing, outcome)
    ensures Heard(wire + [frame], id, missing, outcome)
  {
    hide OutcomeOf;
    var k :| 0 <= k < |wire| && wire[k].Response? && wire[k].id == id && OutcomeOf(wire[k].reply, missing) == outcome;
    assert (wire + [frame])[k] == wire[k];
  }

  lemma HeardNow(wire: seq<Frame>, id: nat, reply: Reply, missing: Option<string>)
    ensures Heard(wire + [Response(id, reply)], id, missing, OutcomeOf(reply, missing))
  {
    hide OutcomeOf;
    assert (wire + [Response(id, reply)])[|wire|] == Response(id, reply);
  }

  lemma ReadKeepsSound(s: State, frame: Frame, id: nat)
    requires Invariant(s) && Enabled(s, Read(frame)) && id in s.requests
    ensures Sound(Apply(s, Read(frame)), id)
  {
    hide OutcomeOf, Heard, Missing;
    var missing := Missing(s.agent, s.requests[id]);
    assert Sound(s, id);
    forall outcome | Heard(s.wire, id, missing, outcome) ensures Heard(s.wire + [frame], id, missing, outcome) {
      HeardLonger(s.wire, frame, id, missing, outcome);
    }
    if frame.Response? {
      HeardNow(s.wire, frame.id, frame.reply, missing);
    }
  }

  lemma SharedStepKeepsSound(s: State, step: Step, id: nat)
    requires Invariant(s) && Enabled(s, step) && !step.Read? && id in s.requests
    ensures Sound(Apply(s, step), id)
  {
    hide OutcomeOf, Heard;
    assert Sound(s, id);
  }

  // Every step keeps the invariant.
  lemma StepKeepsInvariant(s: State, step: Step)
    requires Invariant(s) && Enabled(s, step)
    ensures Invariant(Apply(s, step))
  {
    var t := Apply(s, step);
    forall id | id in t.requests ensures Sound(t, id) {
      if id !in s.requests {
        assert step.Begin?;
      } else if step.Read? {
        ReadKeepsSound(s, step.frame, id);
      } else {
        SharedStepKeepsSound(s, step, id);
      }
    }
  }

  lemma {:induction false} RunKeepsInvariant(s: State, steps: seq<Step>)
    requires Invariant(s) && Possible(s, steps)
    ensures Invariant(After(s, steps))
    decreases |steps|
  {
    if steps != [] {
      StepKeepsInvariant(s, steps[0]);
      RunKeepsInvariant(Apply(s, steps[0]), steps[1..]);
    }
  }

  // States some interleaving reaches from a fresh transport.
  ghost predicate Reachable(s: State) {
    exists steps :: Possible(Start(s.agent), steps) && After(Start(s.agent), steps) == s
  }

  lemma ReachableIsInvariant(s: State)
    requires Reachable(s)
    ensures Invariant(s)
  {
    var steps :| Possible(Start(s.agent), steps) && After(Start(s.agent), steps) == s;
    RunKeepsInvariant(Start(s.agent), steps);
  }

  // ---- Results over every run ----

  // Ids are never reused: a new request overwrites neither a request nor a
  // pending entry, whatever was cancelled or timed out before it.
  lemma IdsAreFresh(s: State)
    requires Reachable(s)
    ensures s.hub.nextId !in s.requests && s.hub.nextId !in s.hub.pending
    ensures forall id :: Enabled(s, Register(id)) ==> id !in s.hub.pending
  {
    ReachableIsInvariant(s);
    hide Missing, Delivered, Justified;
    assert s.hub.nextId in s.requests ==> Sound(s, s.hub.nextId);
    forall id | Enabled(s, Register(id)) ensures id !in s.hub.pending {
      assert Sound(s, id);
    }
  }

  // Each waiter gets at most one outcome: nothing that happens later changes it.
  lemma {:induction false} OutcomeIsFinal(s: State, steps: seq<Step>, id: nat)
    requires Invariant(s) && Possible(s, steps)
    requires id in s.requests && s.requests[id].phase.Done?
    ensures id in After(s, steps).requests && After(s, steps).requests[id] == s.requests[id]
    decreases |steps|
  {
    if steps != [] {
      assert Sound(s, id);
      var t := Apply(s, steps[0]);
      assert t.requests[id] == s.requests[id];
      StepKeepsInvariant(s, steps[0]);
      OutcomeIsFinal(t, steps[1..], id);
    }
  }

  // A response reaches the request with its id and no other; it is consumed
  // exactly when that request is pending.
  lemma ResponseReachesItsRequestOnly(s: State, id: nat, reply: Reply)
    requires Reachable(s) && s.dispatcher == Running
    ensures var t := Apply(s, Read(Response(id, reply)));
            && t.requests == s.requests
            && (forall other :: other != id ==>
                  && (other in t.hub.pending <==> other in s.hub.pending)
                  && (other in t.hub.inboxes <==> other in s.hub.inboxes)
                  && (other in s.hub.inboxes ==> t.hub.inboxes[other] == s.hub.inboxes[other]))
            && id !in t.hub.pending
            && (id !in s.hub.pending ==> t.hub == s.hub)
            && (id in s.hub.pending ==>
                  && id in s.requests && id in t.hub.inboxes
                  && t.hub.inboxes[id] == OutcomeOf(reply, Missing(s.agent, s.requests[id])))
  {
    ReachableIsInvariant(s);
    hide OutcomeOf, Missing, Delivered, Justified;
    assert id in s.hub.pending ==> Sound(s, id);
  }

  // `receiver.await` never finds its sender gone: a request that still waits is
  // either pending or already answered, in every interleaving.
  lemma NeverDisconnected(s: State, id: nat)
    requires Reachable(s)
    ensures !Enabled(s, Disconnect(id))
    ensures id in s.requests && s.requests[id].phase.Done? ==> s.requests[id].phase.outcome != DispatcherStopped
  {
    ReachableIsInvariant(s);
    hide Missing;
    if id in s.requests {
      assert Sound(s, id);
    }
  }

  // A reported missing session was asked for by an OpenCode `session/resume`,
  // and the runtime's answer to that very request names it exactly.
  lemma SessionNotFoundIsProven(s: State, id: nat)
    requires Reachable(s)
    requires In(s, id, Done(SessionNotFound))
    ensures s.agent == OpenCode && s.requests[id].rpc == Resume && s.requests[id].sessionId.Some?
    ensures exists k :: 0 <= k < |s.wire| && s.wire[k].Response? && s.wire[k].id == id
                        && s.wire[k].reply.Failure?
                        && s.wire[k].reply.error.code == Some(INVALID_PARAMS)
                        && Names(s.wire[k].reply.error, s.requests[id].sessionId.value)
  {
    ReachableIsInvariant(s);
    hide Names;
    assert Sound(s, id);
    var k :| 0 <= k < |s.wire| && s.wire[k].Response? && s.wire[k].id == id
             && OutcomeOf(s.wire[k].reply, Missing(s.agent, s.requests[id])) == SessionNotFound;
  }

  // A result handed to a caller is the result of a response to its own id.
  lemma AnswerComesFromItsResponse(s: State, id: nat, result: Payload)
    requires Reachable(s)
    requires In(s, id, Done(Answer(result)))
    ensures exists k :: 0 <= k < |s.wire| && s.wire[k] == Response(id, Success(result))
  {
    ReachableIsInvariant(s);
    hide Names;
    assert Sound(s, id);
    var k :| 0 <= k < |s.wire| && s.wire[k].Response? && s.wire[k].id == id
             && OutcomeOf(s.wire[k].reply, Missing(s.agent, s.requests[id])) == Answer(result);
  }

  // The table a transport keeps is valid at every point of every run.
  lemma ReachableTableIsValid(s: State)
    requires Reachable(s)
    ensures s.hub.Valid()
  {
    ReachableIsInvariant(s);
    hide Missing, Delivered, Justified;
    forall id | id in s.requests ensures id < s.hub.nextId && (id in s.hub.pending ==> id !in s.hub.inboxes) {
      assert Sound(s, id);
    }
  }

  // ---- Exactly when an entry is pending ----

  // What takes an entry out of the table.
  predicate Removes(step: Step, id: nat) {
    || step.StdoutEnds?
    || step == CleanUp(id)
    || (step.Read? && step.frame.Response? && step.frame.id == id)
  }

  predicate KeptFrom(steps: seq<Step>, i: nat, id: nat) {
    forall j :: i <= j < |steps| ==> !Removes(steps[j], id)
  }

  // The request was registered and nothing has removed its entry since.
  predicate Outstanding(steps: seq<Step>, id: nat) {
    exists i :: 0 <= i < |steps| && steps[i] == Register(id) && KeptFrom(steps, i + 1, id)
  }

  lemma OutstandingRest(steps: seq<Step>, id: nat)
    requires steps != []
    ensures KeptFrom(steps, 0, id) <==> !Removes(steps[0], id) && KeptFrom(steps[1..], 0, id)
    ensures Outstanding(steps, id) <==>
              Outstanding(steps[1..], id) || (steps[0] == Register(id) && KeptFrom(steps[1..], 0, id))
  {
    hide Removes;
    var rest := steps[1..];
    assert forall j :: 0 <= j < |rest| ==> rest[j] == steps[j + 1];
    forall i | 0 <= i <= |rest| ensures KeptFrom(steps, i + 1, id) <==> KeptFrom(rest, i, id) {
      assert forall j :: i + 1 <= j < |steps| ==> steps[j] == rest[j - 1];
    }
    if Outstanding(steps, id) {
      var i :| 0 <= i < |steps| && steps[i] == Register(id) && KeptFrom(steps, i + 1, id);
      assert i > 0 ==> rest[i - 1] == Register(id) && KeptFrom(rest, i, id);
    }
    if Outstanding(rest, id) {
      var i :| 0 <= i < |rest| && rest[i] == Register(id) && KeptFrom(rest, i + 1, id);
      assert steps[i + 1] == Register(id) && KeptFrom(steps, i + 2, id);
    }
  }

  lemma OneStepPending(s: State, step: Step, id: nat)
    requires Enabled(s, step)
    ensures id in Apply(s, step).hub.pending <==> step == Register(id) || (id in s.hub.pending && !Removes(step, id))
  {
    hide OutcomeOf, Missing, Failed;
  }

  // Over every run, an entry is pending exactly when its request was registered,
  // or was pending before, and no response to it, no cleanup of it and no end of
  // the runtime's output came after.
  lemma {:induction false} PendingExactly(s: State, steps: seq<Step>, id: nat)
    requires Possible(s, steps)
    ensures id in After(s, steps).hub.pending <==> Outstanding(steps, id) || (id in s.hub.pending && KeptFrom(steps, 0, id))
    decreases |steps|
  {
    if steps == [] {
      assert !Outstanding(steps, id);
    } else {
      OneStepPending(s, steps[0], id);
      OutstandingRest(steps, id);
      hide Removes, KeptFrom, Outstanding, Apply, Enabled;
      PendingExactly(Apply(s, steps[0]), steps[1..], id);
    }
  }

  // The table is empty exactly when no registered request is outstanding.
  lemma EmptyExactly(agent: Agent, steps: seq<Step>)
    requires Possible(Start(agent), steps)
    ensures After(Start(agent), steps).hub.pending == map[] <==> forall id :: !Outstanding(steps, id)
  {
    var t := After(Start(agent), steps);
    hide Outstanding, KeptFrom, Possible, After;
    forall id ensures id in t.hub.pending <==> Outstanding(steps, id) {
      PendingExactly(Start(agent), steps, id);
    }
    assert t.hub.pending == map[] <==> forall id :: id !in t.hub.pending;
  }

  lemma {:induction false} CleanedIsDone(s: State, steps: seq<Step>, j: nat, id: nat)
    requires Invariant(s) && Possible(s, steps) && j < |steps| && steps[j] == CleanUp(id)
    ensures id in After(s, steps).requests && After(s, steps).requests[id].phase.Done?
    decreases |steps|
  {
    StepKeepsInvariant(s, steps[0]);
    hide Invariant;
    if j == 0 {
      OutcomeIsFinal(Apply(s, steps[0]), steps[1..], id);
    } else {
      CleanedIsDone(Apply(s, steps[0]), steps[1..], j - 1, id);
    }
  }

  // The future itself cleans its entry up, so one that was dropped leaves its
  // entry behind exactly when it had been registered and neither its response
  // nor the end of the runtime's output came after.
  lemma DroppedRequestLeavesEntryExactly(agent: Agent, steps: seq<Step>, id: nat)
    requires Possible(Start(agent), steps)
    requires In(After(Start(agent), steps), id, Dropped)
    ensures id in After(Start(agent), steps).hub.pending <==>
              exists i :: 0 <= i < |steps| && steps[i] == Register(id) && forall j :: i < j < |steps| ==>
                !steps[j].StdoutEnds? && !(steps[j].Read? && steps[j].frame.Response? && steps[j].frame.id == id)
  {
    PendingExactly(Start(agent), steps, id);
    assert Invariant(Start(agent));
    hide Possible, After, Invariant;
    forall j | 0 <= j < |steps| ensures steps[j] != CleanUp(id) {
      if steps[j] == CleanUp(id) {
        CleanedIsDone(Start(agent), steps, j, id);
      }
    }
  }

  // A pending entry belongs to a live request or to a future that was dropped.
  lemma PendingIsOwed(s: State, id: nat)
    requires Reachable(s) && id in s.hub.pending
    ensures id in s.requests
    ensures !s.requests[id].phase.Allocated? && !s.requests[id].phase.Done?
  {
    ReachableIsInvariant(s);
    hide Missing, Delivered, Justified;
    assert Sound(s, id);
  }

  // Once every request future has completed, the pending table is empty.
  lemma CompletedRequestsLeaveNothing(s: State)
    requires Reachable(s)
    requires forall id :: id in s.requests ==> s.requests[id].phase.Done?
    ensures s.hub.pending == map[]
  {
    forall id | id in s.hub.pending ensures false {
      PendingIsOwed(s, id);
    }
  }

  // The table is cleaned up by the future itself, so a future dropped while it
  // waits, as `prompt` drops its request on a lag, leaves its entry behind.
  lemma DroppedRequestStaysPending()
    ensures exists s :: Reachable(s) && s.hub.pending != map[]
                        && forall id :: id in s.requests ==> s.requests[id].phase.Dropped?
  {
    var s0 := Start(OpenCode);
    var s1 := Apply(s0, Begin(OtherRpc, None));
    var s2 := Apply(s1, Register(1));
    var s3 := Apply(s2, Cancel(1));
    var steps := [Begin(OtherRpc, None), Register(1), Cancel(1)];
    assert steps[1..] == [Register(1), Cancel(1)] && steps[1..][1..] == [Cancel(1)];
    assert [Cancel(1)][1..] == [];
    assert Possible(s3, []) && Possible(s2, [Cancel(1)]) && Possible(s1, steps[1..]) && Possible(s0, steps);
    assert After(s2, [Cancel(1)]) == s3 && After(s1, steps[1..]) == s3 && After(s0, steps) == s3;
    assert Reachable(s3) && 1 in s3.hub.pending;
  }
}
