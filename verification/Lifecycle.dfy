/** Who owns the background drain of the runtime's stdout (`backend/src/acp.rs`,
    `DispatcherOwner`, `AcpProcess` and `shutdown`): interleaved steps over the
    drain, its join handle and the child process, with any caller cancelled at
    any await and the transport dropped at any time. */
module Lifecycle {
  datatype Ending = Normal | Panicked | Cancelled

  // `Draining` until the drain ends; `abort` only asks for an end.
  datatype Task = Draining | Ended(ending: Ending)

  // Where the join handle is. Both owners abort the drain when dropped; a handle
  // taken out of its owner after the join is `Released`, one whose
  // owner was dropped is `Gone`.
  datatype Handle = InProcess | InFinish | Released | Gone

  datatype Child = Held | BeingReaped | Reaped | Killed

  // The caller holding the lifecycle lock, and the await it is suspended at.
  datatype Caller =
    | Idle
    | Locked
    | WaitingForChild
    | ChildDone
    | Joining
    | JoiningAborted
    | Joined(failed: bool)

  // `reaps` and `joins` count the shutdown calls that started to reap the child
  // and to join the drain; `finished` those that returned.
  datatype State = State(
    task: Task, abortRequested: bool, handle: Handle, child: Child, caller: Caller,
    reaps: nat, joins: nat, finished: nat, dropped: bool)

  const SPAWNED := State(Draining, false, InProcess, Held, Idle, 0, 0, 0, false)

  datatype Step =
    | Lock
    | TakeChild
    | SkipChild
    | ChildExits
    | TakeDispatcher
    | SkipDispatcher
    | Join
    | JoinTimesOut
    | JoinAborted
    | Return
    | Cancel
    | DropTransport
    | TaskEnds(ending: Ending)

  predicate Enabled(s: State, step: Step) {
    match step
    // The lock serialises shutdown calls; callers waiting for it hold nothing.
    case Lock => s.caller == Idle && !s.dropped
    case TakeChild => s.caller == Locked && s.child == Held
    case SkipChild => s.caller == Locked && s.child != Held
    case ChildExits => s.caller == WaitingForChild
    case TakeDispatcher => s.caller == ChildDone && s.handle == InProcess
    case SkipDispatcher => s.caller == ChildDone && s.handle != InProcess
    case Join => s.caller == Joining && s.task.Ended?
    case JoinTimesOut => s.caller == Joining
    case JoinAborted => s.caller == JoiningAborted && s.task.Ended?
    case Return => s.caller.Joined?
    // A suspended future can be dropped at any of its awaits.
    case Cancel => s.caller == WaitingForChild || s.caller == Joining || s.caller == JoiningAborted
    case DropTransport => s.caller == Idle && !s.dropped
    case TaskEnds(ending) => s.task == Draining && (ending == Cancelled ==> s.abortRequested)
  }

  // `DispatcherOwner::drop`: an owner that still has its handle aborts the drain.
  function DropOwner(s: State, owner: Handle): State {
    if s.handle == owner then s.(handle := Gone, abortRequested := true) else s
  }

  // What `finish` reports: an expected cancellation after its own abort is not
  // a failure, a panic is.
  predicate JoinFails(s: State) {
    s.task == Ended(Panicked) || (s.task == Ended(Cancelled) && s.caller == Joining)
  }

  function Apply(s: State, step: Step): State
    requires Enabled(s, step)
  {
    match step
    case Lock => s.(caller := Locked)
    case TakeChild => s.(caller := WaitingForChild, child := BeingReaped, reaps := s.reaps + 1)
    case SkipChild => s.(caller := ChildDone)
    case ChildExits => s.(caller := ChildDone, child := Reaped)
    case TakeDispatcher => s.(caller := Joining, handle := InFinish, joins := s.joins + 1)
    case SkipDispatcher => s.(caller := Joined(false))
    case Join => s.(caller := Joined(JoinFails(s)), handle := Released)
    case JoinTimesOut => s.(caller := JoiningAborted, abortRequested := true)
    case JoinAborted => s.(caller := Joined(JoinFails(s)), handle := Released)
    case Return => s.(caller := Idle, finished := s.finished + 1)
    // Dropping the future drops what it holds: the child, or the owner in `finish`.
    case Cancel =>
      if s.caller == WaitingForChild then s.(caller := Idle, child := Killed)
      else DropOwner(s, InFinish).(caller := Idle)
    case DropTransport =>
      DropOwner(s, InProcess).(dropped := true, child := if s.child == Held then Killed else s.child)
    case TaskEnds(ending) => s.(task := Ended(ending))
  }

  predicate Possible(s: State, steps: seq<Step>)
    decreases |steps|
  {
    steps == [] || (Enabled(s, steps[0]) && Possible(Apply(s, steps[0]), steps[1..]))
  }

  function After(s: State, steps: seq<Step>): State
    requires Possible(s, steps)
    decreases |steps|
  {
    if steps == [] then s else After(Apply(s, steps[0]), steps[1..])
  }

  // ---- What every step keeps ----

  // The drain is never detached: it has ended, its end was asked for, or an
  // owner that would ask for it still holds the handle.
  predicate NeverDetached(s: State) {
    s.task.Ended? || s.abortRequested || s.handle == InProcess || s.handle == InFinish
  }

  predicate PastChild(c: Caller) {
    c == ChildDone || c == Joining || c == JoiningAborted || c.Joined?
  }

  predicate Invariant(s: State) {
    && NeverDetached(s)
    && (s.handle == InFinish <==> s.caller == Joining || s.caller == JoiningAborted)
    && (s.caller == JoiningAborted ==> s.abortRequested)
    && (s.handle == Released ==> s.task.Ended?)
    && (s.handle == Gone ==> s.abortRequested)
    && s.joins <= 1
    && (s.handle == InProcess ==> s.joins == 0)
    && (s.handle == InFinish || s.handle == Released ==> s.joins == 1)
    && (s.child == BeingReaped <==> s.caller == WaitingForChild)
    && (s.child == Held ==> s.reaps == 0)
    && s.reaps <= 1
    && (s.caller == Locked || s.caller == WaitingForChild || s.caller == ChildDone || s.caller == Idle || s.handle != InProcess)
    && (s.finished > 0 || s.caller.Joined? ==> s.handle == Released || s.handle == Gone)
    && (s.dropped ==> s.caller == Idle && s.handle != InProcess && s.child != Held)
    && (s.finished > 0 || PastChild(s.caller) ==> s.child == Reaped || s.child == Killed)
  }

  lemma StepKeepsInvariant(s: State, step: Step)
    requires Invariant(s) && Enabled(s, step)
    ensures Invariant(Apply(s, step))
  {
  }

  lemma {:induction false} RunKeepsInvariant(s: State, steps: seq<Step>)
    requires Invariant(s) && Possible(s, steps)
    ensures Invariant(After(s, steps))
    decreases |steps|
  {
    hide Invariant, Apply, Enabled;
    if steps != [] {
      StepKeepsInvariant(s, steps[0]);
      RunKeepsInvariant(Apply(s, steps[0]), steps[1..]);
    }
  }

  // ---- Results over every run ----

  // In every reachable state, whatever was cancelled or dropped, the drain has
  // ended, has been asked to end, or is still owned; the child is reaped and
  // the drain joined at most once however many shutdown calls there are.
  lemma TheDrainIsNeverDetached(steps: seq<Step>)
    requires Possible(SPAWNED, steps)
    ensures NeverDetached(After(SPAWNED, steps))
    ensures After(SPAWNED, steps).reaps <= 1 && After(SPAWNED, steps).joins <= 1
  {
    RunKeepsInvariant(SPAWNED, steps);
  }

  // A dropped transport leaves no drain that nobody stopped, and no child.
  lemma DroppedTransportStopsTheDrain(steps: seq<Step>)
    requires Possible(SPAWNED, steps) && After(SPAWNED, steps).dropped
    ensures After(SPAWNED, steps).task.Ended? || After(SPAWNED, steps).abortRequested
    ensures After(SPAWNED, steps).child == Reaped || After(SPAWNED, steps).child == Killed
  {
    RunKeepsInvariant(SPAWNED, steps);
  }

  // Once some shutdown call has returned, no child is left, and the drain has
  // ended or an earlier, cancelled call has asked it to.
  lemma ReturnedShutdownStopsTheDrain(steps: seq<Step>)
    requires Possible(SPAWNED, steps) && After(SPAWNED, steps).finished > 0
    ensures After(SPAWNED, steps).child == Reaped || After(SPAWNED, steps).child == Killed
    ensures After(SPAWNED, steps).task.Ended? || After(SPAWNED, steps).abortRequested
  {
    RunKeepsInvariant(SPAWNED, steps);
  }

  predicate NoCancellation(steps: seq<Step>) {
    forall i :: 0 <= i < |steps| ==> steps[i] != Cancel && steps[i] != DropTransport
  }

  lemma {:induction false} UncancelledKeepsHandle(s: State, steps: seq<Step>)
    requires Invariant(s) && Possible(s, steps) && NoCancellation(steps) && s.handle != Gone
    ensures After(s, steps).handle != Gone
    decreases |steps|
  {
    if steps != [] {
      StepKeepsInvariant(s, steps[0]);
      UncancelledKeepsHandle(Apply(s, steps[0]), steps[1..]);
    }
  }

  // Without a cancelled call, a returned shutdown has waited for the drain to
  // end: the stop has happened, it was not only asked for.
  lemma UncancelledShutdownJoins(steps: seq<Step>)
    requires Possible(SPAWNED, steps) && NoCancellation(steps) && After(SPAWNED, steps).finished > 0
    ensures After(SPAWNED, steps).task.Ended? && After(SPAWNED, steps).joins == 1
    ensures After(SPAWNED, steps).handle == Released
  {
    RunKeepsInvariant(SPAWNED, steps);
    UncancelledKeepsHandle(SPAWNED, steps);
  }
}
