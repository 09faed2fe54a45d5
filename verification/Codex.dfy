/** `collect_codex`: window deltas of cumulative, forkable token counters. */
module Codex {
  import opened Options
  import opened Sums
  import opened Percent
  import opened Windows
  import opened Gaps
  import opened Counters

  datatype Vector = Vector(input: nat, cached: nat, output: nat, reasoning: nat) {
    function Total(): nat {
      input + output
    }

    function Plus(that: Vector): Vector {
      Vector(input + that.input, cached + that.cached, output + that.output, reasoning + that.reasoning)
    }

    predicate Coherent() {
      cached <= input && reasoning <= output
    }
  }

  const ZERO := Vector(0, 0, 0, 0)

  datatype RawUsage = RawUsage(input: Field, cached: Field, output: Field, reasoning: Field)

  // `_codex_usage_vector`
  function UsageVector(u: RawUsage): (v: Option<Vector>)
    ensures v.Some? ==> v.value.Coherent()
  {
    var i, c, o, r := u.input.CounterOrZero(), u.cached.CounterOrZero(), u.output.CounterOrZero(), u.reasoning.CounterOrZero();
    if i.None? || c.None? || o.None? || r.None? then None
    else if c.value > i.value || r.value > o.value then None
    else Some(Vector(i.value, c.value, o.value, r.value))
  }

  // `_codex_delta`
  function Delta(start: Vector, end: Vector): Option<Vector> {
    if end.input < start.input || end.cached < start.cached || end.output < start.output || end.reasoning < start.reasoning then None
    else if end.input - end.cached < start.input - start.cached then None
    else
      var d := Vector(end.input - start.input, end.cached - start.cached, end.output - start.output, end.reasoning - start.reasoning);
      if d.reasoning > d.output then None else Some(d)
  }

  // An accepted delta is itself a coherent usage vector, and one of zero total is all zero.
  lemma DeltaCoherent(start: Vector, end: Vector)
    requires Delta(start, end).Some?
    ensures Delta(start, end).value.Coherent()
    ensures Delta(start, end).value.Total() == 0 ==> Delta(start, end).value == ZERO
    ensures start.Plus(Delta(start, end).value) == end
  {
  }

  // Accepted deltas compose.
  lemma DeltasCompose(a: Vector, b: Vector, c: Vector)
    requires Delta(a, b).Some? && Delta(b, c).Some?
    ensures Delta(a, c) == Some(Delta(a, b).value.Plus(Delta(b, c).value))
  {
  }

  datatype Snapshot = Snapshot(ts: int, vector: Vector)

  // A JSON value used as an identifier.
  datatype Id = Missing | Text(text: string) | Other(truthy: bool) {
    predicate Truthy() {
      match this
      case Missing => false
      case Text(t) => t != ""
      case Other(b) => b
    }
  }

  /** What the line iterator yields for one rollout file. `usage` is present only
      on a token_count record that carries a total_token_usage object. */
  datatype Event =
    | Unreadable
    | InvalidJson(ts: Option<int>)
    | Object(isMeta: bool, sessionId: Id, id: Id, ts: Option<int>, usage: Option<RawUsage>)

  // `pathDay` is the midnight of the YYYY/MM/DD directory, when the path has one.
  datatype File = File(stem: string, pathDay: Option<int>, events: seq<Event>)

  datatype Rollout = Rollout(id: string, start: Option<Snapshot>, end: Option<Snapshot>, snapshots: seq<Snapshot>,
                             first: Option<int>, startedAt: Option<int>)

  // ---- Boundary snapshots ----

  // The last-written of the latest snapshots strictly before an instant.
  function Latest(s: seq<Snapshot>, bound: int): Option<Snapshot> {
    if s == [] then None
    else
      var rest, last := Latest(s[..|s| - 1], bound), s[|s| - 1];
      if last.ts < bound && (rest.None? || last.ts >= rest.value.ts) then Some(last) else rest
  }

  // The order in which a stable sort by time lists the snapshots.
  ghost predicate NotAfter(s: seq<Snapshot>, i: int, j: int)
    requires 0 <= i < |s| && 0 <= j < |s|
  {
    s[i].ts < s[j].ts || (s[i].ts == s[j].ts && i <= j)
  }

  ghost predicate IsLatest(s: seq<Snapshot>, bound: int, j: int) {
    && 0 <= j < |s| && s[j].ts < bound
    && forall i :: 0 <= i < |s| && s[i].ts < bound ==> NotAfter(s, i, j)
  }

  lemma {:induction false} LatestIndex(s: seq<Snapshot>, bound: int) returns (j: int)
    ensures Latest(s, bound).None? ==> forall i :: 0 <= i < |s| ==> s[i].ts >= bound
    ensures Latest(s, bound).Some? ==> IsLatest(s, bound, j) && s[j] == Latest(s, bound).value
  {
    j := -1;
    if s != [] {
      var front := s[..|s| - 1];
      var k := LatestIndex(front, bound);
      var rest, last := Latest(front, bound), s[|s| - 1];
      assert forall i :: 0 <= i < |front| ==> s[i] == front[i];
      if last.ts < bound && (rest.None? || last.ts >= rest.value.ts) {
        j := |s| - 1;
        assert forall i :: 0 <= i < |front| && s[i].ts < bound ==> rest.Some? && NotAfter(front, i, k);
      } else {
        j := k;
        assert forall i :: 0 <= i < |front| && s[i].ts < bound && rest.Some? ==> NotAfter(front, i, k);
      }
    }
  }

  // The earliest in-window instant.
  function FirstFrom(s: seq<Snapshot>, start: int): Option<int> {
    if s == [] then None
    else
      var last := s[|s| - 1];
      var rest := FirstFrom(s[..|s| - 1], start);
      if start <= last.ts then EarlierOf(rest, last.ts) else rest
  }

  lemma {:induction false} FirstFromFacts(s: seq<Snapshot>, start: int)
    ensures FirstFrom(s, start).Some? ==> start <= FirstFrom(s, start).value
    ensures FirstFrom(s, start).Some? <==> exists i :: 0 <= i < |s| && start <= s[i].ts
  {
    if s != [] {
      var front := s[..|s| - 1];
      FirstFromFacts(front, start);
      assert forall i :: 0 <= i < |front| ==> s[i] == front[i];
    }
  }

  // ---- Reading one file ----

  // The instant a token record is attributed to, or `None` when it has none.
  function Stamp(e: Event, pathDay: Option<int>): Option<int>
    requires e.Object?
  {
    if e.ts.Some? then e.ts else pathDay
  }

  // A record dated only by its path is dropped unless that day is wholly inside or wholly before the window.
  predicate Unallocatable(e: Event, pathDay: Option<int>, w: Window)
    requires e.Object?
  {
    e.ts.None? && pathDay.Some? && !IsFullDay(w, pathDay.value) && pathDay.value + DAY > w.start
  }

  predicate InScope(e: Event, pathDay: Option<int>, w: Window) {
    && e.Object? && e.usage.Some? && !Unallocatable(e, pathDay, w)
    && (Stamp(e, pathDay).Some? ==> Stamp(e, pathDay).value <= w.end)
  }

  predicate IsMalformed(e: Event, pathDay: Option<int>, w: Window) {
    InScope(e, pathDay, w) && (UsageVector(e.usage.value).None? || Stamp(e, pathDay).None?)
  }

  function Taken(e: Event, pathDay: Option<int>, w: Window): Option<Snapshot> {
    if !InScope(e, pathDay, w) || IsMalformed(e, pathDay, w) then None
    else Some(Snapshot(Stamp(e, pathDay).value, UsageVector(e.usage.value).value))
  }

  function Snapshots(events: seq<Event>, pathDay: Option<int>, w: Window): seq<Snapshot> {
    if events == [] then []
    else
      var rest := Snapshots(events[..|events| - 1], pathDay, w);
      var t := Taken(events[|events| - 1], pathDay, w);
      if t.Some? then rest + [t.value] else rest
  }

  // The identity fields, taken from session_meta records until one names a root.
  datatype Identity = Identity(root: Option<string>, own: Option<string>, startedAt: Option<int>)

  function Identify(id: Identity, e: Event): Identity {
    if !e.Object? || !e.isMeta || id.root.Some? then id
    else
      var root := if e.sessionId.Truthy() then e.sessionId else e.id;
      var own := if e.id.Truthy() then e.id else root;
      Identity(if root.Text? then Some(root.text) else None,
               if own.Text? then Some(own.text) else id.own,
               if e.ts.Some? then EarlierOf(id.startedAt, e.ts.value) else id.startedAt)
  }

  function IdentityOf(events: seq<Event>): Identity {
    if events == [] then Identity(None, None, None)
    else Identify(IdentityOf(events[..|events| - 1]), events[|events| - 1])
  }

  predicate Skipped(f: File, w: Window) {
    f.pathDay.Some? && f.pathDay.value > w.end
  }

  function OrText(a: Option<string>, fallback: string): string {
    if a.Some? && a.value != "" then a.value else fallback
  }

  function ThreadKey(f: File): string {
    OrText(IdentityOf(f.events).root, f.stem)
  }

  function ReadRollout(f: File, w: Window): Option<Rollout> {
    var id, s := IdentityOf(f.events), Snapshots(f.events, f.pathDay, w);
    if Skipped(f, w) || (s == [] && id.root.None?) then None
    else Some(Rollout(OrText(id.own, ThreadKey(f)), Latest(s, w.start), Latest(s, w.end + 1), s, FirstFrom(s, w.start), id.startedAt))
  }

  // What the readings above promise about a rollout.
  ghost predicate WellRead(r: Rollout, w: Window) {
    && r.start == Latest(r.snapshots, w.start) && r.end == Latest(r.snapshots, w.end + 1)
    && r.first == FirstFrom(r.snapshots, w.start)
    && forall i :: 0 <= i < |r.snapshots| ==> r.snapshots[i].ts <= w.end && r.snapshots[i].vector.Coherent()
  }

  lemma {:induction false} SnapshotsInScope(events: seq<Event>, pathDay: Option<int>, w: Window)
    ensures forall s :: s in Snapshots(events, pathDay, w) ==> s.ts <= w.end && s.vector.Coherent()
  {
    if events != [] {
      SnapshotsInScope(events[..|events| - 1], pathDay, w);
    }
  }

  lemma ReadRolloutWellRead(f: File, w: Window)
    requires ReadRollout(f, w).Some?
    ensures WellRead(ReadRollout(f, w).value, w)
  {
    SnapshotsInScope(f.events, f.pathDay, w);
    var s := Snapshots(f.events, f.pathDay, w);
    assert forall i :: 0 <= i < |s| ==> s[i] in s;
  }

  function Threads(files: seq<File>, w: Window): map<string, seq<Rollout>> {
    if files == [] then map[]
    else
      var rest, f := Threads(files[..|files| - 1], w), files[|files| - 1];
      var r := ReadRollout(f, w);
      if r.None? then rest else AddRollout(rest, ThreadKey(f), r.value)
  }

  function AddRollout(threads: map<string, seq<Rollout>>, key: string, r: Rollout): map<string, seq<Rollout>> {
    threads[key := (if key in threads then threads[key] else []) + [r]]
  }

  lemma {:induction false} ThreadsWellRead(files: seq<File>, w: Window)
    ensures forall key, r :: key in Threads(files, w) && r in Threads(files, w)[key] ==> WellRead(r, w)
  {
    if files != [] {
      var f := files[|files| - 1];
      ThreadsWellRead(files[..|files| - 1], w);
      if ReadRollout(f, w).Some? {
        ReadRolloutWellRead(f, w);
      }
    }
  }

  // ---- Judging a thread ----

  function RootSnapshots(rollouts: seq<Rollout>, root: string): seq<Snapshot> {
    if rollouts == [] then []
    else
      var last := rollouts[|rollouts| - 1];
      RootSnapshots(rollouts[..|rollouts| - 1], root) + (if last.id == root then last.snapshots else [])
  }

  function RootStartedAt(rollouts: seq<Rollout>, root: string): Option<int> {
    if rollouts == [] then None
    else
      var last := rollouts[|rollouts| - 1];
      var rest := RootStartedAt(rollouts[..|rollouts| - 1], root);
      if last.id == root && last.startedAt.Some? then EarlierOf(rest, last.startedAt.value) else rest
  }

  datatype Verdict = Idle | Incoherent | Active(thread: Vector, activity: Vector)

  function Compare(threadStart: Vector, activityStart: Vector, end: Vector): Verdict {
    var t, a := Delta(threadStart, end), Delta(activityStart, end);
    if t.None? || a.None? then Incoherent else Active(t.value, a.value)
  }

  // One rollout against its own past or its root's; unproven ancestry is incoherent.
  function Judge(r: Rollout, root: string, rootSnapshots: seq<Snapshot>, rootStartedAt: Option<int>, w: Window): Verdict {
    if r.first.None? || r.end.None? then Idle
    else
      var end, before := r.end.value.vector, Latest(rootSnapshots, w.start);
      if r.start.Some? then Compare(r.start.value.vector, r.start.value.vector, end)
      else if r.id == root then
        if before.Some? then Compare(before.value.vector, before.value.vector, end)
        else if rootStartedAt.Some? && rootStartedAt.value >= w.start then Compare(ZERO, ZERO, end)
        else Incoherent
      else
        var ancestor := Latest(rootSnapshots, r.first.value + 1);
        if ancestor.None? then Incoherent
        else Compare(if before.Some? then before.value.vector else ZERO, ancestor.value.vector, end)
  }

  function VerdictOf(r: Rollout, rollouts: seq<Rollout>, root: string, w: Window): Verdict {
    Judge(r, root, RootSnapshots(rollouts, root), RootStartedAt(rollouts, root), w)
  }

  function Verdicts(rollouts: seq<Rollout>, root: string, w: Window): seq<Verdict> {
    seq(|rollouts|, i requires 0 <= i < |rollouts| => VerdictOf(rollouts[i], rollouts, root, w))
  }

  // `max(thread_candidates, key=_codex_total)` over the candidates of positive total.
  function Best(verdicts: seq<Verdict>): Option<Vector> {
    if verdicts == [] then None
    else
      var rest, v := Best(verdicts[..|verdicts| - 1]), verdicts[|verdicts| - 1];
      if v.Active? && v.thread.Total() > 0 && (rest.None? || v.thread.Total() > rest.value.Total()) then Some(v.thread) else rest
  }

  function ActiveCount(verdicts: seq<Verdict>): nat {
    if verdicts == [] then 0
    else
      var v := verdicts[|verdicts| - 1];
      ActiveCount(verdicts[..|verdicts| - 1]) + (if v.Active? && v.activity.Total() > 0 then 1 else 0)
  }

  predicate CoherentThread(rollouts: seq<Rollout>, root: string, w: Window) {
    Incoherent !in Verdicts(rollouts, root, w)
  }

  // Every thread delta the collector may report is a coherent vector of positive total.
  lemma {:induction false} BestFacts(verdicts: seq<Verdict>)
    ensures Best(verdicts).Some? <==> exists i :: 0 <= i < |verdicts| && verdicts[i].Active? && verdicts[i].thread.Total() > 0
    ensures Best(verdicts).Some? ==>
              && (exists i :: 0 <= i < |verdicts| && verdicts[i].Active? && verdicts[i].thread == Best(verdicts).value)
              && (forall i :: 0 <= i < |verdicts| && verdicts[i].Active? ==> verdicts[i].thread.Total() <= Best(verdicts).value.Total())
  {
    if verdicts != [] {
      var front := verdicts[..|verdicts| - 1];
      BestFacts(front);
      assert forall i :: 0 <= i < |front| ==> verdicts[i] == front[i];
    }
  }

  lemma {:induction false} NoneActiveExactly(verdicts: seq<Verdict>)
    ensures ActiveCount(verdicts) == 0 <==>
              forall i :: 0 <= i < |verdicts| && verdicts[i].Active? ==> verdicts[i].activity.Total() == 0
  {
    if verdicts != [] {
      var front := verdicts[..|verdicts| - 1];
      NoneActiveExactly(front);
      assert forall i :: 0 <= i < |front| ==> verdicts[i] == front[i];
    }
  }

  // ---- Rollouts cover sessions ----

  // The root's counters never decrease, in the order a stable sort by time lists them.
  ghost predicate RootMonotone(rollouts: seq<Rollout>, root: string) {
    var s := RootSnapshots(rollouts, root);
    forall i, j :: 0 <= i < |s| && 0 <= j < |s| && NotAfter(s, i, j) ==> s[i].vector.Total() <= s[j].vector.Total()
  }

  // The root rollout a root snapshot was read from, and where its snapshots start.
  lemma {:induction false} Locate(rollouts: seq<Rollout>, root: string, j: nat) returns (p: nat, offset: nat)
    requires j < |RootSnapshots(rollouts, root)|
    ensures p < |rollouts| && rollouts[p].id == root
    ensures offset <= j < offset + |rollouts[p].snapshots| <= |RootSnapshots(rollouts, root)|
    ensures forall i :: 0 <= i < |rollouts[p].snapshots| ==> RootSnapshots(rollouts, root)[offset + i] == rollouts[p].snapshots[i]
  {
    var front, last := rollouts[..|rollouts| - 1], rollouts[|rollouts| - 1];
    var before := RootSnapshots(front, root);
    assert RootSnapshots(rollouts, root) == before + (if last.id == root then last.snapshots else []);
    if j < |before| {
      p, offset := Locate(front, root, j);
      assert rollouts[p] == front[p];
    } else {
      p, offset := |rollouts| - 1, |before|;
    }
  }

  // A root rollout that ends above where the root stood at the window's start is active.
  lemma RisingRootIsActive(r: Rollout, s: seq<Snapshot>, startedAt: Option<int>, w: Window)
    requires r.first.Some? && r.end.Some?
    requires var before := Latest(s, w.start);
             && (if before.Some? then before.value.vector.Total() else 0) < r.end.value.vector.Total()
             && (r.start.Some? ==> before.Some? && r.start.value.vector.Total() <= before.value.vector.Total())
    requires Judge(r, r.id, s, startedAt, w) != Incoherent
    ensures Judge(r, r.id, s, startedAt, w).Active?
    ensures Judge(r, r.id, s, startedAt, w).activity.Total() > 0
  {
    hide Latest;
  }

  // Within the window, a root rollout ends at least as high as any of its
  // snapshots, and starts no higher than the root stood at the window's start.
  lemma RootRollout(rollouts: seq<Rollout>, root: string, w: Window, j: nat, p: nat, offset: nat)
    requires p < |rollouts| && WellRead(rollouts[p], w) && RootMonotone(rollouts, root)
    requires var s, own := RootSnapshots(rollouts, root), rollouts[p].snapshots;
             && offset <= j < offset + |own| <= |s| && w.start <= s[j].ts
             && forall i :: 0 <= i < |own| ==> s[offset + i] == own[i]
    ensures var r, s := rollouts[p], RootSnapshots(rollouts, root);
            && r.first.Some? && r.end.Some? && s[j].vector.Total() <= r.end.value.vector.Total()
            && (r.start.Some? ==> Latest(s, w.start).Some?
                                  && r.start.value.vector.Total() <= Latest(s, w.start).value.vector.Total())
  {
    hide RootSnapshots, Latest;
    var r, s := rollouts[p], RootSnapshots(rollouts, root);
    assert r.snapshots[j - offset] == s[j];
    FirstFromFacts(r.snapshots, w.start);
    var e := LatestIndex(r.snapshots, w.end + 1);
    assert r.snapshots[e] == s[offset + e] && NotAfter(r.snapshots, j - offset, e);
    assert NotAfter(s, j, offset + e);
    if r.start.Some? {
      var b := LatestIndex(s, w.start);
      var own := LatestIndex(r.snapshots, w.start);
      assert s[offset + own] == r.snapshots[own];
      assert NotAfter(s, offset + own, b);
    }
  }

  // Inside the window, a root rollout advances at least as far as any of its snapshots rose above the window's start.
  lemma RootAdvances(rollouts: seq<Rollout>, root: string, w: Window, j: nat)
    returns (p: nat)
    requires forall r :: r in rollouts ==> WellRead(r, w)
    requires RootMonotone(rollouts, root) && CoherentThread(rollouts, root, w)
    requires var s, before := RootSnapshots(rollouts, root), Latest(RootSnapshots(rollouts, root), w.start);
             j < |s| && w.start <= s[j].ts && TotalOr0(before) < s[j].vector.Total()
    ensures p < |rollouts| && rollouts[p].id == root
    ensures VerdictOf(rollouts[p], rollouts, root, w).Active?
    ensures VerdictOf(rollouts[p], rollouts, root, w).activity.Total() > 0
  {
    hide Latest, RootMonotone, WellRead, Judge, RootSnapshots;
    var offset;
    p, offset := Locate(rollouts, root, j);
    assert rollouts[p] in rollouts && Verdicts(rollouts, root, w)[p] in Verdicts(rollouts, root, w);
    RootRollout(rollouts, root, w, j, p, offset);
    RisingRootIsActive(rollouts[p], RootSnapshots(rollouts, root), RootStartedAt(rollouts, root), w);
  }

  function TotalOr0(s: Option<Snapshot>): nat {
    if s.Some? then s.value.vector.Total() else 0
  }

  // A fork with no snapshot before the window, first active after the root had
  // risen above where it stood at the window's start.
  predicate BehindRoot(r: Rollout, root: string, s: seq<Snapshot>, w: Window) {
    r.start.None? && r.id != root && r.first.Some? && TotalOr0(Latest(s, w.start)) < TotalOr0(Latest(s, r.first.value + 1))
  }

  // A rollout without activity has a positive thread delta exactly when it is such a fork.
  lemma ReplayGainsExactly(r: Rollout, root: string, s: seq<Snapshot>, startedAt: Option<int>, w: Window)
    requires Judge(r, root, s, startedAt, w).Active? && Judge(r, root, s, startedAt, w).activity.Total() == 0
    ensures Judge(r, root, s, startedAt, w).thread.Total() > 0 <==> BehindRoot(r, root, s, w)
  {
    hide Latest;
  }

  // Where the activity of a rollout is counted from: its own past, the root's
  // past, or for a fork the root as it stood when the fork began.
  function Baseline(r: Rollout, root: string, s: seq<Snapshot>, w: Window): nat {
    if r.start.Some? then TotalOr0(r.start)
    else if r.id == root || r.first.None? then TotalOr0(Latest(s, w.start))
    else TotalOr0(Latest(s, r.first.value + 1))
  }

  lemma ActivityExactly(r: Rollout, root: string, s: seq<Snapshot>, startedAt: Option<int>, w: Window)
    requires Judge(r, root, s, startedAt, w).Active?
    ensures r.end.Some? && Judge(r, root, s, startedAt, w).activity.Total() == TotalOr0(r.end) - Baseline(r, root, s, w)
  {
    hide Latest;
  }

  /** A thread counts as a session without an active rollout exactly when every
      rollout of it that is judged ends the window where its baseline stands, and
      one of them is a fork behind its root. */
  lemma UncoveredExactly(rollouts: seq<Rollout>, root: string, w: Window)
    ensures var v := Verdicts(rollouts, root, w);
            Best(v).Some? && ActiveCount(v) == 0 <==>
              && (forall q :: 0 <= q < |v| && v[q].Active? ==>
                    TotalOr0(rollouts[q].end) == Baseline(rollouts[q], root, RootSnapshots(rollouts, root), w))
              && exists q :: 0 <= q < |v| && v[q].Active? && BehindRoot(rollouts[q], root, RootSnapshots(rollouts, root), w)
  {
    var v, s := Verdicts(rollouts, root, w), RootSnapshots(rollouts, root);
    BestFacts(v);
    NoneActiveExactly(v);
    hide Best, ActiveCount, RootSnapshots, RootStartedAt, Judge, BehindRoot, Baseline, TotalOr0;
    forall q | 0 <= q < |v| && v[q].Active?
      ensures v[q].activity.Total() == 0 <==> TotalOr0(rollouts[q].end) == Baseline(rollouts[q], root, s, w)
    {
      ActivityExactly(rollouts[q], root, s, RootStartedAt(rollouts, root), w);
    }
    forall q | 0 <= q < |v| && v[q].Active? && v[q].activity.Total() == 0
      ensures v[q].thread.Total() > 0 <==> BehindRoot(rollouts[q], root, s, w)
    {
      ReplayGainsExactly(rollouts[q], root, s, RootStartedAt(rollouts, root), w);
    }
  }

  // In a thread whose ancestry is proven, those judged are the rollouts with a
  // snapshot inside the window.
  lemma UncoveredByCounters(rollouts: seq<Rollout>, root: string, w: Window)
    requires CoherentThread(rollouts, root, w)
    ensures var v, s := Verdicts(rollouts, root, w), RootSnapshots(rollouts, root);
            Best(v).Some? && ActiveCount(v) == 0 <==>
              && (forall r :: r in rollouts && r.first.Some? && r.end.Some? ==> TotalOr0(r.end) == Baseline(r, root, s, w))
              && exists r :: r in rollouts && r.end.Some? && BehindRoot(r, root, s, w)
  {
    var v, s := Verdicts(rollouts, root, w), RootSnapshots(rollouts, root);
    UncoveredExactly(rollouts, root, w);
    forall q | 0 <= q < |v| ensures v[q].Active? <==> rollouts[q].first.Some? && rollouts[q].end.Some? {
      assert v[q] in v;
    }
    hide Best, ActiveCount, RootSnapshots, RootStartedAt, Judge, Baseline, TotalOr0, Latest, CoherentThread;
    assert forall r :: r in rollouts ==> exists q :: 0 <= q < |rollouts| && rollouts[q] == r;
    assert forall q :: 0 <= q < |rollouts| ==> rollouts[q] in rollouts;
    assert |v| == |rollouts|;
  }

  // The snapshot a fork behind its root starts from lies inside the window.
  lemma RisenAncestor(s: seq<Snapshot>, root: string, w: Window, fork: Rollout) returns (j: nat)
    requires BehindRoot(fork, root, s, w) && WellRead(fork, w)
    ensures j < |s| && w.start <= s[j].ts && TotalOr0(Latest(s, w.start)) < s[j].vector.Total()
  {
    FirstFromFacts(fork.snapshots, w.start);
    hide Latest;
    j := LatestIndex(s, fork.first.value + 1);
    var b := LatestIndex(s, w.start);
    assert s[j].ts < w.start ==> b == j;
  }

  /** Even when a fork only replays its parent: if its activity delta is zero but
      its thread delta is positive, some root rollout is itself active. */
  lemma ReplayImpliesActiveRoot(rollouts: seq<Rollout>, root: string, w: Window, q: nat)
    returns (p: nat)
    requires forall r :: r in rollouts ==> WellRead(r, w)
    requires RootMonotone(rollouts, root) && CoherentThread(rollouts, root, w)
    requires q < |rollouts| && Verdicts(rollouts, root, w)[q].Active?
    requires Verdicts(rollouts, root, w)[q].activity.Total() == 0 < Verdicts(rollouts, root, w)[q].thread.Total()
    ensures p < |rollouts| && rollouts[p].id == root
    ensures Verdicts(rollouts, root, w)[p].Active? && Verdicts(rollouts, root, w)[p].activity.Total() > 0
  {
    var s := RootSnapshots(rollouts, root);
    ReplayGainsExactly(rollouts[q], root, s, RootStartedAt(rollouts, root), w);
    hide Latest, RootSnapshots, Judge, WellRead, RootMonotone, CoherentThread, BehindRoot;
    var j := RisenAncestor(s, root, w, rollouts[q]);
    p := RootAdvances(rollouts, root, w, j);
  }

  // Root counters that never fall rule the exception out.
  lemma ActiveRolloutOfThread(rollouts: seq<Rollout>, root: string, w: Window)
    requires forall r :: r in rollouts ==> WellRead(r, w)
    requires RootMonotone(rollouts, root) && CoherentThread(rollouts, root, w)
    requires Best(Verdicts(rollouts, root, w)).Some?
    ensures ActiveCount(Verdicts(rollouts, root, w)) >= 1
  {
    var v, s := Verdicts(rollouts, root, w), RootSnapshots(rollouts, root);
    UncoveredExactly(rollouts, root, w);
    NoneActiveExactly(v);
    hide Best, ActiveCount, Latest, RootSnapshots, Judge, WellRead, RootMonotone, CoherentThread, BehindRoot, Baseline;
    if q :| 0 <= q < |v| && v[q].Active? && BehindRoot(rollouts[q], root, s, w) {
      var j := RisenAncestor(s, root, w, rollouts[q]);
      var p := RootAdvances(rollouts, root, w, j);
      assert v[p].Active? && v[p].activity.Total() > 0;
    }
  }

  // ---- Telescoping ----

  // What a thread made of one root rollout contributes to a window; `None` when its ancestry is unproven.
  function Contribution(r: Rollout, w: Window): Option<Vector> {
    match VerdictOf(r, [r], r.id, w)
    case Idle => Some(ZERO)
    case Incoherent => None
    case Active(thread, _) => Some(thread)
  }

  // The rollout as it is read for a window, when every token record carries its own instant.
  function View(id: string, history: seq<Snapshot>, startedAt: Option<int>, w: Window): Rollout {
    var s := UpTo(history, w.end);
    Rollout(id, Latest(s, w.start), Latest(s, w.end + 1), s, FirstFrom(s, w.start), startedAt)
  }

  function UpTo(history: seq<Snapshot>, end: int): seq<Snapshot> {
    if history == [] then []
    else
      var last := history[|history| - 1];
      var rest := UpTo(history[..|history| - 1], end);
      if last.ts <= end then rest + [last] else rest
  }

  lemma {:induction false} LatestUpTo(history: seq<Snapshot>, end: int, bound: int)
    requires bound <= end + 1
    ensures Latest(UpTo(history, end), bound) == Latest(history, bound)
  {
    if history != [] {
      var front, last := history[..|history| - 1], history[|history| - 1];
      LatestUpTo(front, end, bound);
      if last.ts <= end {
        assert (UpTo(front, end) + [last])[..|UpTo(front, end)|] == UpTo(front, end);
      }
    }
  }

  // Two bounds with no snapshot between them pick the same boundary snapshot.
  lemma {:induction false} LatestAcrossGap(history: seq<Snapshot>, lo: int, hi: int)
    requires lo <= hi
    requires forall s :: s in history ==> s.ts < lo || s.ts >= hi
    ensures Latest(history, lo) == Latest(history, hi)
  {
    if history != [] {
      assert history[|history| - 1] in history;
      LatestAcrossGap(history[..|history| - 1], lo, hi);
    }
  }

  lemma {:induction false} UpToMembers(history: seq<Snapshot>, end: int)
    ensures forall s :: s in UpTo(history, end) <==> s in history && s.ts <= end
  {
    if history != [] {
      assert history == history[..|history| - 1] + [history[|history| - 1]];
      UpToMembers(history[..|history| - 1], end);
    }
  }

  ghost predicate Inside(history: seq<Snapshot>, w: Window) {
    exists s :: s in history && w.start <= s.ts <= w.end
  }

  // What a window sees of a history: whether anything fell inside, and the boundary snapshots.
  lemma ViewActivity(id: string, history: seq<Snapshot>, startedAt: Option<int>, w: Window)
    requires w.Valid()
    ensures View(id, history, startedAt, w).first.Some? <==> Inside(history, w)
  {
    var s := UpTo(history, w.end);
    UpToMembers(history, w.end);
    FirstFromFacts(s, w.start);
    assert forall x :: x in s ==> exists i :: 0 <= i < |s| && s[i] == x;
    assert forall i :: 0 <= i < |s| ==> s[i] in s;
  }

  lemma ViewBoundaries(id: string, history: seq<Snapshot>, startedAt: Option<int>, w: Window)
    requires w.Valid()
    ensures var v := View(id, history, startedAt, w);
            && v.start == Latest(history, w.start) && v.end == Latest(history, w.end + 1)
            && Latest(RootSnapshots([v], id), w.start) == v.start
            && RootStartedAt([v], id) == startedAt
  {
    var v := View(id, history, startedAt, w);
    LatestUpTo(history, w.end, w.start);
    LatestUpTo(history, w.end, w.end + 1);
    assert [v][..0] == [];
    assert RootSnapshots([v], id) == [] + v.snapshots == v.snapshots;
  }

  lemma InsideHasEnd(history: seq<Snapshot>, w: Window)
    requires Inside(history, w)
    ensures Latest(history, w.end + 1).Some?
  {
    var s :| s in history && w.start <= s.ts <= w.end;
    var i :| 0 <= i < |history| && history[i] == s;
    var j := LatestIndex(history, w.end + 1);
  }

  // The boundary a window subtracts: its own past, or zero for a session that started inside it.
  function Base(start: Option<Snapshot>, startedAt: Option<int>, w: Window): Option<Vector> {
    if start.Some? then Some(start.value.vector)
    else if startedAt.Some? && startedAt.value >= w.start then Some(ZERO)
    else None
  }

  function DeltaOver(inside: bool, start: Option<Snapshot>, end: Option<Snapshot>, startedAt: Option<int>, w: Window): Option<Vector> {
    var base := Base(start, startedAt, w);
    if !inside || end.None? then Some(ZERO)
    else if base.None? then None
    else Delta(base.value, end.value.vector)
  }

  // A reading of the contribution that no longer mentions rollouts.
  ghost function Expected(history: seq<Snapshot>, startedAt: Option<int>, w: Window): Option<Vector> {
    DeltaOver(Inside(history, w), Latest(history, w.start), Latest(history, w.end + 1), startedAt, w)
  }

  lemma ContributionIsDelta(id: string, history: seq<Snapshot>, startedAt: Option<int>, w: Window)
    requires w.Valid()
    ensures Contribution(View(id, history, startedAt, w), w) == Expected(history, startedAt, w)
  {
    ViewActivity(id, history, startedAt, w);
    ViewBoundaries(id, history, startedAt, w);
    var v := View(id, history, startedAt, w);
    assert v.id == id && v.startedAt == startedAt;
    hide View, Latest, RootSnapshots, RootStartedAt, Delta, Inside;
  }

  lemma SpanInside(history: seq<Snapshot>, a: Window, b: Window)
    requires a.Valid() && b.Valid() && a.end < b.start
    requires forall s :: s in history ==> s.ts <= a.end || s.ts >= b.start
    ensures Inside(history, Window(a.start, b.end)) <==> Inside(history, a) || Inside(history, b)
  {
  }

  // Where the boundary snapshots of the spanning window come from.
  lemma SpanBoundaries(history: seq<Snapshot>, a: Window, b: Window)
    requires a.Valid() && b.Valid() && a.end < b.start
    requires forall s :: s in history ==> s.ts <= a.end || s.ts >= b.start
    ensures Latest(history, a.end + 1) == Latest(history, b.start)
    ensures !Inside(history, a) ==> Latest(history, a.start) == Latest(history, b.start)
    ensures !Inside(history, b) ==> Latest(history, b.start) == Latest(history, b.end + 1)
  {
    LatestAcrossGap(history, a.end + 1, b.start);
    if !Inside(history, a) {
      LatestAcrossGap(history, a.start, b.start);
    }
    if !Inside(history, b) {
      LatestAcrossGap(history, b.start, b.end + 1);
    }
  }

  // Two windows that meet at `mid`: the snapshot is the same on both sides of an
  // empty window.
  lemma DeltasMeet(inA: bool, inB: bool, start: Option<Snapshot>, mid: Option<Snapshot>, end: Option<Snapshot>,
                   startedAt: Option<int>, a: Window, b: Window)
    requires a.start <= b.start && (inA ==> mid.Some?) && (inB ==> end.Some?)
    requires (!inA ==> start == mid) && (!inB ==> mid == end)
    requires DeltaOver(inA, start, mid, startedAt, a).Some? && DeltaOver(inB, mid, end, startedAt, b).Some?
    ensures DeltaOver(inA || inB, start, end, startedAt, Window(a.start, b.end))
            == Some(DeltaOver(inA, start, mid, startedAt, a).value.Plus(DeltaOver(inB, mid, end, startedAt, b).value))
  {
    hide Delta;
    if inA && inB {
      DeltasCompose(Base(start, startedAt, a).value, mid.value.vector, end.value.vector);
    }
  }

  lemma ExpectedTelescopes(history: seq<Snapshot>, startedAt: Option<int>, a: Window, b: Window)
    requires a.Valid() && b.Valid() && a.end < b.start
    requires forall s :: s in history ==> s.ts <= a.end || s.ts >= b.start
    requires Expected(history, startedAt, a).Some? && Expected(history, startedAt, b).Some?
    ensures Expected(history, startedAt, Window(a.start, b.end))
            == Some(Expected(history, startedAt, a).value.Plus(Expected(history, startedAt, b).value))
  {
    hide Latest, Inside, DeltaOver;
    SpanInside(history, a, b);
    SpanBoundaries(history, a, b);
    if Inside(history, a) {
      InsideHasEnd(history, a);
    }
    if Inside(history, b) {
      InsideHasEnd(history, b);
    }
    DeltasMeet(Inside(history, a), Inside(history, b), Latest(history, a.start), Latest(history, b.start),
               Latest(history, b.end + 1), startedAt, a, b);
  }

  /** For a thread of one root rollout and two successive windows with no snapshot
      between them: if both windows are accepted then the spanning window is, and
      its component vector is the sum of theirs. */
  lemma ContributionsTelescope(id: string, history: seq<Snapshot>, startedAt: Option<int>, a: Window, b: Window)
    requires a.Valid() && b.Valid() && a.end < b.start
    requires forall s :: s in history ==> s.ts <= a.end || s.ts >= b.start
    requires Contribution(View(id, history, startedAt, a), a).Some?
    requires Contribution(View(id, history, startedAt, b), b).Some?
    ensures var whole := Window(a.start, b.end);
            Contribution(View(id, history, startedAt, whole), whole)
            == Some(Contribution(View(id, history, startedAt, a), a).value.Plus(Contribution(View(id, history, startedAt, b), b).value))
  {
    hide Contribution, View, Expected;
    ContributionIsDelta(id, history, startedAt, a);
    ContributionIsDelta(id, history, startedAt, b);
    ContributionIsDelta(id, history, startedAt, Window(a.start, b.end));
    ExpectedTelescopes(history, startedAt, a, b);
  }

  // Every accepted snapshot of a file whose token records are all timestamped.
  function History(events: seq<Event>): seq<Snapshot> {
    if events == [] then []
    else
      var rest, e := History(events[..|events| - 1]), events[|events| - 1];
      if e.Object? && e.usage.Some? && e.ts.Some? && UsageVector(e.usage.value).Some? then
        rest + [Snapshot(e.ts.value, UsageVector(e.usage.value).value)]
      else rest
  }

  ghost predicate Timestamped(events: seq<Event>) {
    forall i :: 0 <= i < |events| && events[i].Object? && events[i].usage.Some? ==> events[i].ts.Some?
  }

  lemma {:induction false} SnapshotsAreHistory(events: seq<Event>, pathDay: Option<int>, w: Window)
    requires Timestamped(events)
    ensures Snapshots(events, pathDay, w) == UpTo(History(events), w.end)
  {
    if events != [] {
      var front, e := events[..|events| - 1], events[|events| - 1];
      SnapshotsAreHistory(front, pathDay, w);
      var h := History(front);
      if History(events) != h {
        assert History(events)[..|h|] == h;
      }
    }
  }

  lemma FileIsView(f: File, w: Window)
    requires Timestamped(f.events) && !Skipped(f, w)
    requires IdentityOf(f.events).root.Some? && OrText(IdentityOf(f.events).own, ThreadKey(f)) == ThreadKey(f)
    ensures ReadRollout(f, w) == Some(View(ThreadKey(f), History(f.events), IdentityOf(f.events).startedAt, w))
  {
    SnapshotsAreHistory(f.events, f.pathDay, w);
    hide Snapshots, History, Latest, FirstFrom, IdentityOf, OrText, Timestamped, UpTo;
  }

  /** The same law for the files themselves: one rollout file that names itself as
      its own root, whose token records all carry an instant. */
  lemma FileTelescopes(f: File, a: Window, b: Window)
    requires a.Valid() && b.Valid() && a.end < b.start
    requires Timestamped(f.events) && !Skipped(f, a)
    requires IdentityOf(f.events).root.Some? && OrText(IdentityOf(f.events).own, ThreadKey(f)) == ThreadKey(f)
    requires forall s :: s in History(f.events) ==> s.ts <= a.end || s.ts >= b.start
    requires Contribution(ReadRollout(f, a).value, a).Some? && Contribution(ReadRollout(f, b).value, b).Some?
    ensures var whole := Window(a.start, b.end);
            Contribution(ReadRollout(f, whole).value, whole)
            == Some(Contribution(ReadRollout(f, a).value, a).value.Plus(Contribution(ReadRollout(f, b).value, b).value))
  {
    FileIsView(f, a);
    FileIsView(f, b);
    FileIsView(f, Window(a.start, b.end));
    hide Contribution, History, IdentityOf, ThreadKey, Timestamped, ReadRollout, View;
    ContributionsTelescope(ThreadKey(f), History(f.events), IdentityOf(f.events).startedAt, a, b);
  }

  // ---- What a counter that falls back breaks ----

  const SAMPLE_WINDOW := Window(100, 200)
  const PEAK := Snapshot(110, Vector(20, 0, 0, 0))
  const FALLEN := Snapshot(150, ZERO)
  const REPLAY := Snapshot(120, Vector(20, 0, 0, 0))
  const ROOT := Rollout("r", None, Some(FALLEN), [PEAK, FALLEN], Some(110), Some(100))
  const FORK := Rollout("f", None, Some(REPLAY), [REPLAY], Some(120), None)

  // The two files they are read from: the root counts to 20 and falls to 0, the
  // fork repeats the 20.
  function Counted(ts: int, input: nat): Event {
    Object(false, Missing, Missing, Some(ts), Some(RawUsage(Number(input), Absent, Absent, Absent)))
  }

  const ROOT_META := Object(true, Text("r"), Text("r"), Some(100), None)
  const FORK_META := Object(true, Text("r"), Text("f"), None, None)
  const ROOT_FILE := File("a", None, [ROOT_META, Counted(110, 20), Counted(150, 0)])
  const FORK_FILE := File("b", None, [FORK_META, Counted(120, 20)])

  lemma LatestOfTwo(a: Snapshot, b: Snapshot, bound: int)
    ensures Latest([a], bound) == if a.ts < bound then Some(a) else None
    ensures Latest([a, b], bound) ==
            if b.ts < bound && (a.ts >= bound || b.ts >= a.ts) then Some(b) else if a.ts < bound then Some(a) else None
    ensures FirstFrom([a], bound) == if bound <= a.ts then Some(a.ts) else None
    ensures FirstFrom([a, b], bound) ==
            if bound <= b.ts then (if bound <= a.ts <= b.ts then Some(a.ts) else Some(b.ts))
            else if bound <= a.ts then Some(a.ts) else None
  {
    assert [a][..0] == [] && [a, b][..1] == [a];
  }

  lemma FallingRootFacts()
    ensures RootSnapshots([ROOT, FORK], "r") == [PEAK, FALLEN]
    ensures RootStartedAt([ROOT, FORK], "r") == Some(100)
    ensures WellRead(ROOT, SAMPLE_WINDOW) && WellRead(FORK, SAMPLE_WINDOW)
  {
    assert [ROOT, FORK][..1] == [ROOT] && [ROOT][..0] == [];
    assert RootSnapshots([ROOT], "r") == [] + [PEAK, FALLEN];
    assert RootSnapshots([ROOT, FORK], "r") == [PEAK, FALLEN] + [];
    assert RootStartedAt([ROOT], "r") == EarlierOf(None, 100);
    forall bound ensures Latest([PEAK, FALLEN], bound) == if 150 < bound then Some(FALLEN) else if 110 < bound then Some(PEAK) else None {
      LatestOfTwo(PEAK, FALLEN, bound);
    }
    LatestOfTwo(PEAK, FALLEN, 100);
    LatestOfTwo(REPLAY, FALLEN, 100);
    LatestOfTwo(REPLAY, FALLEN, 201);
  }

  // Without monotone root counters a thread can count as a session while no rollout counts as active.
  lemma FallingRootLosesItsRollouts()
    ensures WellRead(ROOT, SAMPLE_WINDOW) && WellRead(FORK, SAMPLE_WINDOW)
    ensures var v := Verdicts([ROOT, FORK], "r", SAMPLE_WINDOW);
            CoherentThread([ROOT, FORK], "r", SAMPLE_WINDOW) && Best(v) == Some(Vector(20, 0, 0, 0)) && ActiveCount(v) == 0
    ensures !RootMonotone([ROOT, FORK], "r")
  {
    FallingRootFacts();
    hide RootSnapshots, RootStartedAt, WellRead, FirstFrom;
    LatestOfTwo(PEAK, FALLEN, 100);
    LatestOfTwo(PEAK, FALLEN, 121);
    var v := Verdicts([ROOT, FORK], "r", SAMPLE_WINDOW);
    var idle, gain := Active(ZERO, ZERO), Active(Vector(20, 0, 0, 0), ZERO);
    assert v == [idle, gain];
    assert [idle, gain][..1] == [idle] && [idle][..0] == [];
    assert Best([idle]) == None && ActiveCount([idle]) == 0;
    assert NotAfter([PEAK, FALLEN], 0, 1);
  }

  lemma IdentityKept(events: seq<Event>, e: Event)
    requires e.Object? && !e.isMeta
    ensures IdentityOf(events + [e]) == IdentityOf(events)
  {
    assert (events + [e])[..|events|] == events;
  }

  lemma SnapshotTaken(events: seq<Event>, e: Event)
    ensures Snapshots(events + [e], None, SAMPLE_WINDOW) ==
            var t := Taken(e, None, SAMPLE_WINDOW);
            if t.Some? then Snapshots(events, None, SAMPLE_WINDOW) + [t.value] else Snapshots(events, None, SAMPLE_WINDOW)
  {
    hide Taken;
    assert (events + [e])[..|events|] == events;
  }

  lemma RootFileReads()
    ensures IdentityOf(ROOT_FILE.events) == Identity(Some("r"), Some("r"), Some(100))
    ensures Snapshots(ROOT_FILE.events, None, SAMPLE_WINDOW) == [PEAK, FALLEN]
  {
    var meta, one, two := [ROOT_META], [ROOT_META] + [Counted(110, 20)], ROOT_FILE.events;
    assert two == one + [Counted(150, 0)] && meta == [] + [ROOT_META];
    assert meta[..0] == [];
    IdentityKept(meta, Counted(110, 20));
    IdentityKept(one, Counted(150, 0));
    SnapshotTaken([], ROOT_META);
    SnapshotTaken(meta, Counted(110, 20));
    SnapshotTaken(one, Counted(150, 0));
  }

  lemma ForkFileReads()
    ensures IdentityOf(FORK_FILE.events) == Identity(Some("r"), Some("f"), None)
    ensures Snapshots(FORK_FILE.events, None, SAMPLE_WINDOW) == [REPLAY]
  {
    var meta := [FORK_META];
    assert FORK_FILE.events == meta + [Counted(120, 20)] && meta == [] + [FORK_META];
    assert meta[..0] == [];
    IdentityKept(meta, Counted(120, 20));
    SnapshotTaken([], FORK_META);
    SnapshotTaken(meta, Counted(120, 20));
  }

  lemma SampleFilesRead()
    ensures ReadRollout(ROOT_FILE, SAMPLE_WINDOW) == Some(ROOT) && ThreadKey(ROOT_FILE) == "r"
    ensures ReadRollout(FORK_FILE, SAMPLE_WINDOW) == Some(FORK) && ThreadKey(FORK_FILE) == "r"
  {
    RootFileReads();
    ForkFileReads();
    FallingRootFacts();
    hide IdentityOf, Snapshots, RootSnapshots, RootStartedAt, Latest, FirstFrom;
  }

  // The same two rollouts, read off their files.
  lemma FallingRootThreads()
    ensures Threads([ROOT_FILE, FORK_FILE], SAMPLE_WINDOW) == map["r" := [ROOT, FORK]]
  {
    SampleFilesRead();
    hide ReadRollout, ThreadKey;
    var one, both := [ROOT_FILE], [ROOT_FILE, FORK_FILE];
    assert one[..0] == [] && both[..1] == one && both[1] == FORK_FILE;
    assert Threads(one, SAMPLE_WINDOW) == AddRollout(map[], "r", ROOT);
    assert Threads(both, SAMPLE_WINDOW) == AddRollout(AddRollout(map[], "r", ROOT), "r", FORK);
    assert [] + [ROOT] + [FORK] == [ROOT, FORK];
  }

  // ---- The collector ----

  datatype Metrics = Metrics(
    raw: Option<int>,
    cost: Option<int>,
    nonCached: Option<int>,
    cacheWrite: Option<int>,
    cacheRead: Option<int>,
    output: Option<int>,
    reasoning: Option<int>,
    sessions: Option<int>,
    rollouts: Option<int>,
    top1: Option<int>)

  const EMPTY := Metrics(None, None, None, None, None, None, None, None, None, None)

  datatype Result = Result(metrics: Metrics, from: Option<int>, to: Option<int>, gaps: seq<Message>)

  ghost function Deltas(threads: map<string, seq<Rollout>>, w: Window): map<string, Vector> {
    map root | root in threads && Best(Verdicts(threads[root], root, w)).Some? :: Best(Verdicts(threads[root], root, w)).value
  }

  ghost function IncoherentRoots(threads: map<string, seq<Rollout>>, w: Window): set<string> {
    set root | root in threads && !CoherentThread(threads[root], root, w)
  }

  ghost function ActiveRollouts(threads: map<string, seq<Rollout>>, w: Window): map<string, nat> {
    map root | root in threads :: ActiveCount(Verdicts(threads[root], root, w))
  }

  datatype Column = Input | Cached | Output | Reasoning | Traffic {
    function Of(v: Vector): nat {
      match this
      case Input => v.input
      case Cached => v.cached
      case Output => v.output
      case Reasoning => v.reasoning
      case Traffic => v.Total()
    }
  }

  ghost function ColumnOf(deltas: map<string, Vector>, c: Column): map<string, nat> {
    map root | root in deltas :: c.Of(deltas[root])
  }

  ghost predicate Measures(m: Metrics, threads: map<string, seq<Rollout>>, w: Window, ranked: seq<nat>) {
    var deltas := Deltas(threads, w);
    var input, cached := SumMap(ColumnOf(deltas, Input)), SumMap(ColumnOf(deltas, Cached));
    var output, raw := SumMap(ColumnOf(deltas, Output)), SumMap(ColumnOf(deltas, Traffic));
    && Ranks(ranked, Bag(ColumnOf(deltas, Traffic)), raw) && |ranked| == |deltas|
    && m == Metrics(Some(raw), None, Some(input - cached), None, Some(cached), Some(output),
                    Some(SumMap(ColumnOf(deltas, Reasoning))), Some(|deltas|), Some(SumMap(ActiveRollouts(threads, w))),
                    Pct(if ranked == [] then None else Some(ranked[0]), raw))
  }

  lemma MeasuredColumns(m: Metrics, threads: map<string, seq<Rollout>>, d: map<string, Vector>, w: Window, ranked: seq<nat>)
    requires Measures(m, threads, w, ranked) && d == Deltas(threads, w)
    ensures m.raw == Some(SumMap(ColumnOf(d, Traffic))) && m.sessions == Some(|d|)
    ensures m.nonCached == Some(SumMap(ColumnOf(d, Input)) - SumMap(ColumnOf(d, Cached)))
    ensures m.cacheRead == Some(SumMap(ColumnOf(d, Cached))) && m.output == Some(SumMap(ColumnOf(d, Output)))
    ensures m.reasoning == Some(SumMap(ColumnOf(d, Reasoning)))
    ensures m.rollouts == Some(SumMap(ActiveRollouts(threads, w)))
  {
    hide Deltas, ColumnOf, SumMap, ActiveRollouts, Bag, Ranks, Pct;
  }

  predicate UnreadLine(e: Event, pathDay: Option<int>, w: Window) {
    e.InvalidJson? && if e.ts.Some? then w.Contains(e.ts) else pathDay.Some? && IsFullDay(w, pathDay.value)
  }

  // Counts over the events of the files that are read at all.
  datatype Quality = Quality(unreadable: nat, invalid: nat, malformed: bool)

  function Note(q: Quality, e: Event, pathDay: Option<int>, w: Window): Quality {
    Quality(q.unreadable + (if e.Unreadable? then 1 else 0),
            q.invalid + (if UnreadLine(e, pathDay, w) then 1 else 0),
            q.malformed || IsMalformed(e, pathDay, w))
  }

  function NoteAll(q: Quality, events: seq<Event>, pathDay: Option<int>, w: Window): Quality {
    if events == [] then q
    else Note(NoteAll(q, events[..|events| - 1], pathDay, w), events[|events| - 1], pathDay, w)
  }

  function QualityOf(files: seq<File>, w: Window): Quality {
    if files == [] then Quality(0, 0, false)
    else
      var q, f := QualityOf(files[..|files| - 1], w), files[|files| - 1];
      if Skipped(f, w) then q else NoteAll(q, f.events, f.pathDay, w)
  }

  function QualityGaps(q: Quality, w: Window): seq<Message> {
    (if w.StartsAtMidnight() && w.EndsAtMidnight() then [] else [CodexPartialDays]) +
    (if q.malformed then [CodexMalformed] else []) +
    (if q.invalid > 0 then [CodexInvalidJson(q.invalid)] else [])
  }

  // The observed range: the first and last in-window snapshot of any file read.
  ghost predicate Spans(files: seq<File>, w: Window, from: Option<int>, to: Option<int>) {
    && (from.Some? <==> to.Some?)
    && (from.None? <==> forall f, s :: f in files && !Skipped(f, w) && s in Snapshots(f.events, f.pathDay, w) ==> s.ts < w.start)
    && (from.Some? ==>
          && w.start <= from.value <= to.value <= w.end
          && forall f, s :: f in files && !Skipped(f, w) && s in Snapshots(f.events, f.pathDay, w) && w.start <= s.ts ==>
               from.value <= s.ts <= to.value)
  }

  ghost predicate Describes(r: Result, dirExists: bool, files: seq<File>, w: Window) {
    var q, threads := QualityOf(files, w), Threads(files, w);
    if !dirExists then r == Result(EMPTY, None, None, [CodexDirMissing])
    else if q.unreadable > 0 then r == Result(EMPTY, None, None, [CodexUnreadable(q.unreadable)])
    else
      && Spans(files, w, r.from, r.to)
      && if IncoherentRoots(threads, w) != {} then
           r.metrics == EMPTY && r.gaps == [CodexIncoherent(|IncoherentRoots(threads, w)|)] + QualityGaps(q, w)
         else
           (exists ranked :: Measures(r.metrics, threads, w, ranked)) && r.gaps == QualityGaps(q, w)
  }

  lemma FallingRootMeasures(m: Metrics, ranked: seq<nat>)
    requires Measures(m, map["r" := [ROOT, FORK]], SAMPLE_WINDOW, ranked)
    ensures m.raw == Some(20) && m.sessions == Some(1) && m.rollouts == Some(0)
  {
    hide Measures, Deltas, ActiveRollouts, SumMap, ColumnOf, Column.Of;
    var c := Vector(20, 0, 0, 0);
    FallingRootDeltas();
    MeasuredColumns(m, map["r" := [ROOT, FORK]], map["r" := c], SAMPLE_WINDOW, ranked);
    ColumnOfOne("r", c, Traffic);
    TrafficIsTotal(c);
    SumOfOne("r", 20);
    SumOfOne("r", 0);
  }

  lemma ColumnOfOne(key: string, c: Vector, column: Column)
    ensures ColumnOf(map[key := c], column) == map[key := column.Of(c)]
  {
    hide Column.Of;
  }

  lemma TrafficIsTotal(c: Vector)
    ensures Traffic.Of(c) == c.Total()
  {
  }

  lemma FallingRootDeltas()
    ensures Deltas(map["r" := [ROOT, FORK]], SAMPLE_WINDOW) == map["r" := Vector(20, 0, 0, 0)]
    ensures ActiveRollouts(map["r" := [ROOT, FORK]], SAMPLE_WINDOW) == map["r" := 0]
  {
    hide Verdicts, Best, ActiveCount, CoherentThread, WellRead, RootMonotone;
    FallingRootLosesItsRollouts();
  }

  // The collector reports those two files as one session without a rollout.
  lemma FallingRootIsReported(r: Result)
    requires Describes(r, true, [ROOT_FILE, FORK_FILE], SAMPLE_WINDOW)
    ensures r.metrics.raw == Some(20) && r.metrics.sessions == Some(1) && r.metrics.rollouts == Some(0)
  {
    FallingRootThreads();
    FallingRootLosesItsRollouts();
    SampleIsReadable();
    var threads: map<string, seq<Rollout>> := map["r" := [ROOT, FORK]];
    hide Threads, QualityOf, Spans, QualityGaps, Verdicts, Best, ActiveCount, CoherentThread, Measures, WellRead, RootMonotone;
    assert IncoherentRoots(threads, SAMPLE_WINDOW) == {};
    var ranked :| Measures(r.metrics, threads, SAMPLE_WINDOW, ranked);
    FallingRootMeasures(r.metrics, ranked);
  }

  lemma SumOfOne(key: string, n: nat)
    ensures SumMap(map[key := n]) == n
  {
    SumMapSplit(map[key := n], key);
    assert map[key := n] - {key} == map[];
  }

  lemma SampleIsReadable()
    ensures QualityOf([ROOT_FILE, FORK_FILE], SAMPLE_WINDOW).unreadable == 0
  {
    var one, both := [ROOT_FILE], [ROOT_FILE, FORK_FILE];
    assert one[..0] == [] && both[..1] == one && both[1] == FORK_FILE;
    assert QualityOf(one, SAMPLE_WINDOW) == NoteAll(Quality(0, 0, false), ROOT_FILE.events, None, SAMPLE_WINDOW);
    assert QualityOf(both, SAMPLE_WINDOW) == NoteAll(QualityOf(one, SAMPLE_WINDOW), FORK_FILE.events, None, SAMPLE_WINDOW);
    NothingUnreadable(Quality(0, 0, false), ROOT_FILE.events, None, SAMPLE_WINDOW);
    NothingUnreadable(QualityOf(one, SAMPLE_WINDOW), FORK_FILE.events, None, SAMPLE_WINDOW);
  }

  lemma {:induction false} NothingUnreadable(q: Quality, events: seq<Event>, pathDay: Option<int>, w: Window)
    requires forall e :: e in events ==> !e.Unreadable?
    ensures NoteAll(q, events, pathDay, w).unreadable == q.unreadable
  {
    hide UnreadLine, IsMalformed;
    if events != [] {
      NothingUnreadable(q, events[..|events| - 1], pathDay, w);
    }
  }

  // ---- Telescoping of the collected metrics ----

  lemma OneThread(r: Rollout, w: Window)
    ensures Verdicts([r], r.id, w) == [VerdictOf(r, [r], r.id, w)]
    ensures CoherentThread([r], r.id, w) <==> Contribution(r, w).Some?
    ensures Contribution(r, w).Some? ==>
              Best(Verdicts([r], r.id, w)) == if Contribution(r, w).value.Total() > 0 then Some(Contribution(r, w).value) else None
  {
    var v := VerdictOf(r, [r], r.id, w);
    hide Judge, RootSnapshots, RootStartedAt;
    assert Verdicts([r], r.id, w) == [v] && [v][..0] == [];
    assert Best([]) == None;
  }

  lemma ContributionCoherent(r: Rollout, w: Window)
    requires Contribution(r, w).Some?
    ensures Contribution(r, w).value.Coherent()
    ensures Contribution(r, w).value.Total() == 0 ==> Contribution(r, w).value == ZERO
  {
    hide RootSnapshots, RootStartedAt, Latest;
  }

  // A file that names itself as its own root.
  predicate SelfRooted(f: File) {
    IdentityOf(f.events).root.Some? && OrText(IdentityOf(f.events).own, ThreadKey(f)) == ThreadKey(f)
  }

  // What such a file adds to a window when it is alone in its thread.
  function Share(f: File, w: Window): Option<Vector> {
    var r := ReadRollout(f, w);
    if r.None? then Some(ZERO) else Contribution(r.value, w)
  }

  lemma SelfRootedIsRead(f: File, w: Window)
    requires SelfRooted(f)
    ensures ReadRollout(f, w).None? <==> Skipped(f, w)
    ensures ReadRollout(f, w).Some? ==> ReadRollout(f, w).value.id == ThreadKey(f)
  {
    hide Snapshots, Latest, FirstFrom, IdentityOf, OrText;
  }

  // A self-rooted file with timestamped records, none of them between the two
  // windows, and none within a window that skips the file.
  ghost predicate Divides(f: File, a: Window, b: Window) {
    && SelfRooted(f) && Timestamped(f.events)
    && (forall s :: s in History(f.events) ==> s.ts <= a.end || s.ts >= b.start)
    && (Skipped(f, a) ==> forall s :: s in History(f.events) ==> s.ts > a.end)
  }

  lemma ShareIsExpected(f: File, w: Window)
    requires w.Valid() && SelfRooted(f) && Timestamped(f.events) && !Skipped(f, w)
    ensures Share(f, w) == Expected(History(f.events), IdentityOf(f.events).startedAt, w)
  {
    SelfRootedIsRead(f, w);
    FileIsView(f, w);
    hide History, IdentityOf, Timestamped, ReadRollout, Contribution, Expected, View, Skipped;
    ContributionIsDelta(ThreadKey(f), History(f.events), IdentityOf(f.events).startedAt, w);
  }

  lemma SharesTelescope(f: File, a: Window, b: Window)
    requires a.Valid() && b.Valid() && a.end < b.start && Divides(f, a, b)
    requires Share(f, a).Some? && Share(f, b).Some?
    ensures Share(f, Window(a.start, b.end)) == Some(Share(f, a).value.Plus(Share(f, b).value))
  {
    var whole, h, at := Window(a.start, b.end), History(f.events), IdentityOf(f.events).startedAt;
    SelfRootedIsRead(f, a);
    SelfRootedIsRead(f, b);
    SelfRootedIsRead(f, whole);
    hide ReadRollout, Contribution, Expected, History, IdentityOf, SelfRooted, Timestamped;
    if !Skipped(f, b) {
      ShareIsExpected(f, b);
      ShareIsExpected(f, whole);
      if Skipped(f, a) {
        NothingInside(h, at, a);
      } else {
        ShareIsExpected(f, a);
      }
      ExpectedTelescopes(h, at, a, b);
    }
  }

  lemma NothingInside(history: seq<Snapshot>, startedAt: Option<int>, w: Window)
    requires forall s :: s in history ==> s.ts > w.end
    ensures Expected(history, startedAt, w) == Some(ZERO)
  {
    hide Latest, Base;
  }

  // Every file is alone in its thread.
  ghost predicate Separate(files: seq<File>) {
    && (forall i :: 0 <= i < |files| ==> SelfRooted(files[i]))
    && forall i, j :: 0 <= i < j < |files| ==> ThreadKey(files[i]) != ThreadKey(files[j])
  }

  ghost predicate Proven(files: seq<File>, w: Window) {
    forall i :: 0 <= i < |files| ==> Share(files[i], w).Some?
  }

  function ColumnSum(files: seq<File>, w: Window, c: Column): nat {
    if files == [] then 0
    else
      var share := Share(files[|files| - 1], w);
      ColumnSum(files[..|files| - 1], w, c) + (if share.Some? then c.Of(share.value) else 0)
  }

  lemma {:induction false} ThreadsAreKeys(files: seq<File>, w: Window)
    ensures forall key :: key in Threads(files, w) ==> exists i :: 0 <= i < |files| && ThreadKey(files[i]) == key
  {
    hide ThreadKey, ReadRollout;
    if files != [] {
      var front := files[..|files| - 1];
      ThreadsAreKeys(front, w);
      forall key | key in Threads(files, w) ensures exists i :: 0 <= i < |files| && ThreadKey(files[i]) == key {
        if key in Threads(front, w) {
          var i :| 0 <= i < |front| && ThreadKey(front[i]) == key;
          assert files[i] == front[i];
        } else {
          assert ThreadKey(files[|files| - 1]) == key;
        }
      }
    }
  }

  // A file opens a thread of its own, or none.
  ghost predicate Opens(before: map<string, seq<Rollout>>, after: map<string, seq<Rollout>>, r: Option<Rollout>) {
    if r.None? then after == before else r.value.id !in before && after == before[r.value.id := [r.value]]
  }

  // The thread a further file opens.
  lemma ThreadOpened(front: seq<File>, f: File, w: Window)
    requires Separate(front + [f])
    ensures var r, before, after := ReadRollout(f, w), Threads(front, w), Threads(front + [f], w);
            Opens(before, after, r)
  {
    var files := front + [f];
    assert files[..|files| - 1] == front && files[|files| - 1] == f;
    SelfRootedIsRead(f, w);
    NewKey(front, f, w);
    hide Separate, ReadRollout, ThreadKey, SelfRooted;
    if ReadRollout(f, w).Some? {
      assert [] + [ReadRollout(f, w).value] == [ReadRollout(f, w).value];
    }
  }

  // What it changes.
  lemma FileAdded(before: map<string, seq<Rollout>>, after: map<string, seq<Rollout>>, f: File, w: Window, c: Column)
    requires Opens(before, after, ReadRollout(f, w))
    ensures IncoherentRoots(after, w) == {} <==> IncoherentRoots(before, w) == {} && Share(f, w).Some?
    ensures Share(f, w).Some? ==>
              SumMap(ColumnOf(Deltas(after, w), c)) == SumMap(ColumnOf(Deltas(before, w), c)) + c.Of(Share(f, w).value)
  {
    hide ReadRollout, Contribution, Deltas, IncoherentRoots, ColumnOf, SumMap, Column.Of;
    if ReadRollout(f, w).Some? {
      RolloutAdded(before, ReadRollout(f, w).value, w, c);
    } else {
      ZeroHasNone(c);
    }
  }

  lemma NewKey(front: seq<File>, f: File, w: Window)
    requires Separate(front + [f])
    ensures ThreadKey(f) !in Threads(front, w)
  {
    hide Threads, ThreadKey, SelfRooted;
    var files := front + [f];
    ThreadsAreKeys(front, w);
    forall i | 0 <= i < |front| ensures ThreadKey(front[i]) != ThreadKey(f) {
      assert files[i] == front[i] && files[|front|] == f;
    }
  }

  lemma RolloutAdded(before: map<string, seq<Rollout>>, r: Rollout, w: Window, c: Column)
    requires r.id !in before
    ensures var after := before[r.id := [r]];
            && (IncoherentRoots(after, w) == {} <==> IncoherentRoots(before, w) == {} && Contribution(r, w).Some?)
            && (Contribution(r, w).Some? ==>
                  SumMap(ColumnOf(Deltas(after, w), c)) == SumMap(ColumnOf(Deltas(before, w), c)) + c.Of(Contribution(r, w).value))
  {
    hide Contribution, Deltas, IncoherentRoots, ColumnOf, SumMap, Column.Of;
    RootAdded(before, r, w);
    if Contribution(r, w).Some? {
      DeltaAdded(before, r, w);
      if Contribution(r, w).value.Total() > 0 {
        ColumnGrows(Deltas(before, w), Deltas(before[r.id := [r]], w), r.id, Contribution(r, w).value, c);
      } else {
        ColumnKept(Deltas(before, w), Deltas(before[r.id := [r]], w), c);
      }
    }
  }

  lemma RootAdded(before: map<string, seq<Rollout>>, r: Rollout, w: Window)
    requires r.id !in before
    ensures IncoherentRoots(before[r.id := [r]], w) == {} <==> IncoherentRoots(before, w) == {} && Contribution(r, w).Some?
  {
    hide Contribution, Deltas, IncoherentRoots, ActiveRollouts, Verdicts, Best, ActiveCount, CoherentThread;
    ThreadAdded(before, r.id, [r], w);
    OneThread(r, w);
  }

  lemma DeltaAdded(before: map<string, seq<Rollout>>, r: Rollout, w: Window)
    requires r.id !in before && Contribution(r, w).Some?
    ensures r.id !in Deltas(before, w)
    ensures var d := Contribution(r, w).value;
            if d.Total() > 0 then Deltas(before[r.id := [r]], w) == Deltas(before, w)[r.id := d]
            else d == ZERO && Deltas(before[r.id := [r]], w) == Deltas(before, w)
  {
    hide Contribution, Deltas, IncoherentRoots, ActiveRollouts, Verdicts, Best, ActiveCount, CoherentThread;
    ThreadAdded(before, r.id, [r], w);
    OneThread(r, w);
    ContributionCoherent(r, w);
  }

  lemma ColumnKept(deltas: map<string, Vector>, after: map<string, Vector>, c: Column)
    requires after == deltas
    ensures SumMap(ColumnOf(after, c)) == SumMap(ColumnOf(deltas, c)) + c.Of(ZERO)
  {
    hide ColumnOf, SumMap, Column.Of;
    ZeroHasNone(c);
  }

  lemma ZeroHasNone(c: Column)
    ensures c.Of(ZERO) == 0
  {
  }

  lemma ColumnGrows(deltas: map<string, Vector>, after: map<string, Vector>, root: string, d: Vector, c: Column)
    requires root !in deltas && after == deltas[root := d]
    ensures SumMap(ColumnOf(after, c)) == SumMap(ColumnOf(deltas, c)) + c.Of(d)
  {
    ColumnPut([], deltas, root, d, c);
    assert root !in ColumnOf(deltas, c);
    hide ColumnOf, SumMap, Column.Of;
    SumMapPut(ColumnOf(deltas, c), root, c.Of(d));
  }

  lemma {:induction false} DirectoryTotals(files: seq<File>, w: Window, c: Column)
    requires Separate(files)
    ensures IncoherentRoots(Threads(files, w), w) == {} <==> Proven(files, w)
    ensures Proven(files, w) ==> SumMap(ColumnOf(Deltas(Threads(files, w), w), c)) == ColumnSum(files, w, c)
  {
    hide Threads, Share, IncoherentRoots, Deltas, ColumnOf, SumMap, SelfRooted, ThreadKey, ReadRollout, Opens, Column.Of;
    if files == [] {
      EmptyDirectory(w, c);
    } else {
      var front, f := files[..|files| - 1], files[|files| - 1];
      assert files == front + [f];
      DirectoryTotals(front, w, c);
      ThreadOpened(front, f, w);
      FileAdded(Threads(front, w), Threads(files, w), f, w, c);
    }
  }

  lemma EmptyDirectory(w: Window, c: Column)
    ensures IncoherentRoots(Threads([], w), w) == {} && SumMap(ColumnOf(Deltas(Threads([], w), w), c)) == 0
  {
    assert Threads([], w) == map[] && Deltas(map[], w) == map[] && IncoherentRoots(map[], w) == {};
    EmptyColumn(map[], c);
  }

  lemma {:induction false} ColumnsTelescope(files: seq<File>, a: Window, b: Window, c: Column)
    requires a.Valid() && b.Valid() && a.end < b.start
    requires forall i :: 0 <= i < |files| ==> Divides(files[i], a, b)
    requires Proven(files, a) && Proven(files, b)
    ensures Proven(files, Window(a.start, b.end))
    ensures ColumnSum(files, Window(a.start, b.end), c) == ColumnSum(files, a, c) + ColumnSum(files, b, c)
  {
    hide Share, Divides;
    if files != [] {
      var f := files[|files| - 1];
      ColumnsTelescope(files[..|files| - 1], a, b, c);
      SharesTelescope(f, a, b);
    }
  }

  // Which files are skipped, and so what is unreadable, depends on the end of the window only.
  lemma {:induction false} UnreadableByEnd(files: seq<File>, w: Window, w': Window)
    requires w.end == w'.end
    ensures QualityOf(files, w).unreadable == QualityOf(files, w').unreadable
  {
    if files != [] {
      var f := files[|files| - 1];
      UnreadableByEnd(files[..|files| - 1], w, w');
      NotesUnreadable(QualityOf(files[..|files| - 1], w), QualityOf(files[..|files| - 1], w'), f.events, f.pathDay, w, w');
    }
  }

  lemma {:induction false} NotesUnreadable(q: Quality, q': Quality, events: seq<Event>, pathDay: Option<int>, w: Window, w': Window)
    requires q.unreadable == q'.unreadable
    ensures NoteAll(q, events, pathDay, w).unreadable == NoteAll(q', events, pathDay, w').unreadable
  {
    hide UnreadLine, IsMalformed;
    if events != [] {
      NotesUnreadable(q, q', events[..|events| - 1], pathDay, w, w');
    }
  }

  lemma MeasuredDirectory(r: Result, files: seq<File>, w: Window)
    requires Separate(files) && Describes(r, true, files, w)
    ensures r.metrics.raw.Some? <==> QualityOf(files, w).unreadable == 0 && Proven(files, w)
    ensures r.metrics.raw.Some? ==>
      && r.metrics.raw == Some(ColumnSum(files, w, Traffic))
      && r.metrics.nonCached == Some(ColumnSum(files, w, Input) - ColumnSum(files, w, Cached))
      && r.metrics.cacheRead == Some(ColumnSum(files, w, Cached))
      && r.metrics.output == Some(ColumnSum(files, w, Output))
      && r.metrics.reasoning == Some(ColumnSum(files, w, Reasoning))
  {
    hide Separate, Proven, ColumnSum, Threads, QualityOf, Spans, QualityGaps, IncoherentRoots, Deltas, ColumnOf, SumMap, Measures;
    var threads := Threads(files, w);
    DirectoryTotals(files, w, Traffic);
    if QualityOf(files, w).unreadable == 0 && Proven(files, w) {
      var ranked :| Measures(r.metrics, threads, w, ranked);
      var d := Deltas(threads, w);
      MeasuredColumns(r.metrics, threads, d, w, ranked);
      DirectoryTotals(files, w, Input);
      DirectoryTotals(files, w, Cached);
      DirectoryTotals(files, w, Output);
      DirectoryTotals(files, w, Reasoning);
    }
  }

  predicate Added(x: Option<int>, y: Option<int>, sum: Option<int>) {
    x.Some? && y.Some? && sum == Some(x.value + y.value)
  }

  /** Over a directory whose rollouts are each alone in their thread, for two
      successive windows with no snapshot between them: if both are measured then
      the spanning window is, and each of its usage columns is the sum of theirs. */
  lemma MetricsTelescope(files: seq<File>, a: Window, b: Window, ra: Result, rb: Result, whole: Result)
    requires a.Valid() && b.Valid() && a.end < b.start
    requires Separate(files) && forall i :: 0 <= i < |files| ==> Divides(files[i], a, b)
    requires Describes(ra, true, files, a) && Describes(rb, true, files, b)
    requires Describes(whole, true, files, Window(a.start, b.end))
    requires ra.metrics.raw.Some? && rb.metrics.raw.Some?
    ensures Added(ra.metrics.raw, rb.metrics.raw, whole.metrics.raw)
    ensures Added(ra.metrics.nonCached, rb.metrics.nonCached, whole.metrics.nonCached)
    ensures Added(ra.metrics.cacheRead, rb.metrics.cacheRead, whole.metrics.cacheRead)
    ensures Added(ra.metrics.output, rb.metrics.output, whole.metrics.output)
    ensures Added(ra.metrics.reasoning, rb.metrics.reasoning, whole.metrics.reasoning)
  {
    hide Describes, Separate, Divides, Proven, ColumnSum, QualityOf;
    var w := Window(a.start, b.end);
    MeasuredDirectory(ra, files, a);
    MeasuredDirectory(rb, files, b);
    MeasuredDirectory(whole, files, w);
    UnreadableByEnd(files, b, w);
    ColumnsTelescope(files, a, b, Traffic);
    ColumnsTelescope(files, a, b, Input);
    ColumnsTelescope(files, a, b, Cached);
    ColumnsTelescope(files, a, b, Output);
    ColumnsTelescope(files, a, b, Reasoning);
  }

  // Per file, the running state of the event loop.
  datatype Reading = Reading(identity: Identity, snapshots: seq<Snapshot>, end: Option<Snapshot>, start: Option<Snapshot>,
                             first: Option<int>, quality: Quality, from: Option<int>, to: Option<int>)

  ghost predicate Reads(r: Reading, events: seq<Event>, pathDay: Option<int>, w: Window, before: Reading) {
    var s := Snapshots(events, pathDay, w);
    && r.identity == IdentityOf(events)
    && r.snapshots == s && r.end == Latest(s, w.end + 1) && r.start == Latest(s, w.start) && r.first == FirstFrom(s, w.start)
    && r.quality == NoteAll(before.quality, events, pathDay, w)
    && (r.from, r.to) == Extend((before.from, before.to), s, w)
  }

  function Extend(span: (Option<int>, Option<int>), s: seq<Snapshot>, w: Window): (Option<int>, Option<int>) {
    if s == [] then span
    else
      var rest, last := Extend(span, s[..|s| - 1], w), s[|s| - 1];
      if w.start <= last.ts then (EarlierOf(rest.0, last.ts), LaterOf(rest.1, last.ts)) else rest
  }

  // One decoded record, branch by branch.
  method ReadEvent(r: Reading, e: Event, pathDay: Option<int>, w: Window, ghost events: seq<Event>, ghost before: Reading)
    returns (after: Reading)
    requires e.Object? && Reads(r, events, pathDay, w, before)
    ensures Reads(after, events + [e], pathDay, w, before)
  {
    hide Latest, FirstFrom, Extend;
    assert (events + [e])[..|events|] == events;
    after := r.(identity := Identify(r.identity, e));
    if e.usage.None? {
      return;
    }
    var ts := e.ts;
    if ts.None? && pathDay.Some? {
      var fullyBefore := pathDay.value + DAY <= w.start;
      if !IsFullDay(w, pathDay.value) && !fullyBefore {
        return;
      }
      ts := pathDay;
    }
    if ts.Some? && ts.value > w.end {
      return;
    }
    var vector := UsageVector(e.usage.value);
    if vector.None? || ts.None? {
      after := after.(quality := r.quality.(malformed := true));
      return;
    }
    after := TakeSnapshot(after, Snapshot(ts.value, vector.value), w, r.snapshots);
  }

  method TakeSnapshot(r: Reading, s: Snapshot, w: Window, ghost taken: seq<Snapshot>) returns (after: Reading)
    requires r.snapshots == taken && s.ts <= w.end
    requires r.end == Latest(taken, w.end + 1) && r.start == Latest(taken, w.start) && r.first == FirstFrom(taken, w.start)
    ensures after.identity == r.identity && after.quality == r.quality
    ensures var all := taken + [s];
            && after.snapshots == all && after.end == Latest(all, w.end + 1) && after.start == Latest(all, w.start)
            && after.first == FirstFrom(all, w.start)
    ensures forall span :: (r.from, r.to) == Extend(span, taken, w) ==> (after.from, after.to) == Extend(span, taken + [s], w)
  {
    assert (taken + [s])[..|taken|] == taken;
    after := r.(snapshots := r.snapshots + [s]);
    if r.end.None? || s.ts >= r.end.value.ts {
      after := after.(end := Some(s));
    }
    if s.ts < w.start && (r.start.None? || s.ts >= r.start.value.ts) {
      after := after.(start := Some(s));
    }
    if w.start <= s.ts <= w.end {
      after := after.(first := EarlierOf(r.first, s.ts), from := EarlierOf(r.from, s.ts), to := LaterOf(r.to, s.ts));
    }
  }

  // The event loop of one file, on top of what earlier files left behind.
  method ReadFile(f: File, w: Window, before: Reading) returns (r: Reading)
    requires before.identity == Identity(None, None, None) && before.snapshots == []
    requires before.end == None && before.start == None && before.first == None
    ensures Reads(r, f.events, f.pathDay, w, before)
  {
    hide Latest, FirstFrom, Extend;
    r := before;
    NothingRead(w, before);
    for i := 0 to |f.events|
      invariant Reads(r, f.events[..i], f.pathDay, w, before)
    {
      var e := f.events[i];
      assert f.events[..i + 1] == f.events[..i] + [e] && f.events[..i + 1][..i] == f.events[..i];
      match e {
        case Unreadable => r := r.(quality := r.quality.(unreadable := r.quality.unreadable + 1));
        case InvalidJson(ts) =>
          if (ts.Some? && w.Contains(ts)) || (ts.None? && f.pathDay.Some? && IsFullDay(w, f.pathDay.value)) {
            r := r.(quality := r.quality.(invalid := r.quality.invalid + 1));
          }
        case Object(_, _, _, _, _) => r := ReadEvent(r, e, f.pathDay, w, f.events[..i], before);
      }
    }
    assert f.events[..|f.events|] == f.events;
  }

  lemma NothingRead(w: Window, before: Reading)
    ensures Latest([], w.end + 1) == None && Latest([], w.start) == None && FirstFrom([], w.start) == None
    ensures Extend((before.from, before.to), [], w) == (before.from, before.to)
  {
  }

  // ---- `sorted(root_snapshots, key=ts)` and its last element before an instant ----

  function InsertByTime(s: seq<Snapshot>, x: Snapshot): seq<Snapshot> {
    if s == [] then [x]
    else
      var last := s[|s| - 1];
      if last.ts <= x.ts then s + [x] else InsertByTime(s[..|s| - 1], x) + [last]
  }

  function StableSort(s: seq<Snapshot>): seq<Snapshot> {
    if s == [] then [] else InsertByTime(StableSort(s[..|s| - 1]), s[|s| - 1])
  }

  // `[x for x in s if x.ts < bound][-1]`
  function LastBefore(s: seq<Snapshot>, bound: int): Option<Snapshot> {
    if s == [] then None
    else if s[|s| - 1].ts < bound then Some(s[|s| - 1])
    else LastBefore(s[..|s| - 1], bound)
  }

  ghost predicate UpToTime(s: seq<Snapshot>, ts: int) {
    forall i :: 0 <= i < |s| ==> s[i].ts <= ts
  }

  ghost predicate ByTime(s: seq<Snapshot>) {
    forall i, j :: 0 <= i < j < |s| ==> s[i].ts <= s[j].ts
  }

  lemma {:induction false} InsertUpToTime(s: seq<Snapshot>, x: Snapshot, most: int)
    requires UpToTime(s, most) && x.ts <= most
    ensures UpToTime(InsertByTime(s, x), most)
  {
    if s != [] && s[|s| - 1].ts > x.ts {
      InsertUpToTime(s[..|s| - 1], x, most);
    }
  }

  lemma {:induction false} InsertByTimeFacts(s: seq<Snapshot>, x: Snapshot, bound: int)
    requires ByTime(s)
    ensures ByTime(InsertByTime(s, x))
    ensures LastBefore(InsertByTime(s, x), bound) ==
            if x.ts < bound && (LastBefore(s, bound).None? || x.ts >= LastBefore(s, bound).value.ts) then Some(x) else LastBefore(s, bound)
  {
    if s != [] {
      var front, last := s[..|s| - 1], s[|s| - 1];
      var r := InsertByTime(s, x);
      LastBeforeBounded(s, bound, last.ts);
      if last.ts <= x.ts {
        assert r[..|r| - 1] == s;
      } else {
        var inner := InsertByTime(front, x);
        assert r[..|r| - 1] == inner;
        InsertByTimeFacts(front, x, bound);
        InsertUpToTime(front, x, last.ts);
      }
    }
  }

  lemma {:induction false} LastBeforeBounded(s: seq<Snapshot>, bound: int, most: int)
    requires UpToTime(s, most)
    ensures LastBefore(s, bound).Some? ==> LastBefore(s, bound).value.ts <= most
  {
    if s != [] {
      LastBeforeBounded(s[..|s| - 1], bound, most);
    }
  }

  // Taking the last element of the sorted list picks the boundary snapshot.
  lemma {:induction false} SortedBoundary(s: seq<Snapshot>, bound: int)
    ensures ByTime(StableSort(s))
    ensures LastBefore(StableSort(s), bound) == Latest(s, bound)
  {
    if s != [] {
      SortedBoundary(s[..|s| - 1], bound);
      InsertByTimeFacts(StableSort(s[..|s| - 1]), s[|s| - 1], bound);
    }
  }

  method RootHistory(rollouts: seq<Rollout>, root: string) returns (sorted: seq<Snapshot>, startedAt: Option<int>)
    ensures sorted == StableSort(RootSnapshots(rollouts, root)) && startedAt == RootStartedAt(rollouts, root)
  {
    var all: seq<Snapshot> := [];
    startedAt := None;
    for i := 0 to |rollouts|
      invariant all == RootSnapshots(rollouts[..i], root) && startedAt == RootStartedAt(rollouts[..i], root)
    {
      var r := rollouts[i];
      assert rollouts[..i + 1][..i] == rollouts[..i];
      if r.id == root {
        all := all + r.snapshots;
        if r.startedAt.Some? {
          startedAt := EarlierOf(startedAt, r.startedAt.value);
        }
      } else {
        assert all + [] == all;
      }
    }
    assert rollouts[..|rollouts|] == rollouts;
    sorted := StableSort(all);
  }

  // One rollout of the thread loop, branch by branch.
  method JudgeRollout(r: Rollout, root: string, sorted: seq<Snapshot>, startedAt: Option<int>, w: Window, ghost snapshots: seq<Snapshot>)
    returns (v: Verdict)
    requires sorted == StableSort(snapshots)
    ensures v == Judge(r, root, snapshots, startedAt, w)
  {
    hide StableSort, LastBefore, Latest, Delta;
    if r.first.None? || r.end.None? {
      return Idle;
    }
    var end := r.end.value.vector;
    var before := LastBefore(sorted, w.start);
    SortedBoundary(snapshots, w.start);
    SortedBoundary(snapshots, r.first.value + 1);
    var threadStart, activityStart;
    if r.start.Some? {
      threadStart := r.start.value.vector;
      activityStart := r.start.value.vector;
    } else if r.id == root {
      if before.Some? {
        threadStart := before.value.vector;
        activityStart := threadStart;
      } else if startedAt.Some? && startedAt.value >= w.start {
        threadStart := ZERO;
        activityStart := ZERO;
      } else {
        return Incoherent;
      }
    } else {
      var ancestor := LastBefore(sorted, r.first.value + 1);
      if ancestor.None? {
        return Incoherent;
      }
      activityStart := ancestor.value.vector;
      threadStart := if before.Some? then before.value.vector else ZERO;
    }
    var threadDelta := Delta(threadStart, end);
    var activityDelta := Delta(activityStart, end);
    if threadDelta.None? || activityDelta.None? {
      return Incoherent;
    }
    v := Active(threadDelta.value, activityDelta.value);
  }

  lemma NextVerdict(before: seq<Verdict>, v: Verdict)
    ensures Incoherent in before + [v] <==> Incoherent in before || v == Incoherent
    ensures Best(before + [v]) ==
            if v.Active? && v.thread.Total() > 0 && (Best(before).None? || v.thread.Total() > Best(before).value.Total())
            then Some(v.thread) else Best(before)
    ensures ActiveCount(before + [v]) == ActiveCount(before) + (if v.Active? && v.activity.Total() > 0 then 1 else 0)
  {
    assert (before + [v])[..|before|] == before;
  }

  // The loop over the rollouts of one thread.
  method JudgeThread(rollouts: seq<Rollout>, root: string, w: Window) returns (incoherent: bool, best: Option<Vector>, active: nat)
    ensures incoherent <==> !CoherentThread(rollouts, root, w)
    ensures best == Best(Verdicts(rollouts, root, w)) && active == ActiveCount(Verdicts(rollouts, root, w))
  {
    hide Judge, StableSort, RootSnapshots, RootStartedAt;
    var sorted, startedAt := RootHistory(rollouts, root);
    ghost var verdicts := Verdicts(rollouts, root, w);
    incoherent, best, active := false, None, 0;
    for i := 0 to |rollouts|
      invariant incoherent <==> Incoherent in verdicts[..i]
      invariant best == Best(verdicts[..i]) && active == ActiveCount(verdicts[..i])
    {
      var v := JudgeRollout(rollouts[i], root, sorted, startedAt, w, RootSnapshots(rollouts, root));
      assert v == verdicts[i] && verdicts[..i + 1] == verdicts[..i] + [v];
      NextVerdict(verdicts[..i], v);
      hide Best, ActiveCount, Verdicts;
      match v {
        case Idle =>
        case Incoherent => incoherent := true;
        case Active(thread, activity) =>
          if thread.Total() > 0 && (best.None? || thread.Total() > best.value.Total()) {
            best := Some(thread);
          }
          if activity.Total() > 0 {
            active := active + 1;
          }
      }
    }
    assert verdicts[..|rollouts|] == verdicts;
  }

  // ---- Totals over threads ----

  function Values(deltas: seq<Vector>, c: Column): seq<nat> {
    seq(|deltas|, i requires 0 <= i < |deltas| => c.Of(deltas[i]))
  }

  // The list of deltas has the same totals as the table of deltas per root.
  ghost predicate Lists(deltas: seq<Vector>, table: map<string, Vector>) {
    && |deltas| == |table|
    && (forall c: Column :: Sum(Values(deltas, c)) == SumMap(ColumnOf(table, c)))
    && multiset(Values(deltas, Traffic)) == Bag(ColumnOf(table, Traffic))
  }

  lemma ListsAdd(deltas: seq<Vector>, table: map<string, Vector>, root: string, d: Vector)
    requires root !in table && Lists(deltas, table)
    ensures Lists(deltas + [d], table[root := d])
  {
    hide Values, ColumnOf, Bag, SumMap;
    forall c: Column ensures Sum(Values(deltas + [d], c)) == SumMap(ColumnOf(table[root := d], c)) {
      ListsAddSum(deltas, table, root, d, c);
    }
    ListsAddBag(deltas, table, root, d);
  }

  lemma ListsAddSum(deltas: seq<Vector>, table: map<string, Vector>, root: string, d: Vector, c: Column)
    requires root !in table && Sum(Values(deltas, c)) == SumMap(ColumnOf(table, c))
    ensures Sum(Values(deltas + [d], c)) == SumMap(ColumnOf(table[root := d], c))
  {
    ColumnPut(deltas, table, root, d, c);
    SumConcat(Values(deltas, c), [c.Of(d)]);
    SumMapPut(ColumnOf(table, c), root, c.Of(d));
  }

  lemma ListsAddBag(deltas: seq<Vector>, table: map<string, Vector>, root: string, d: Vector)
    requires root !in table && multiset(Values(deltas, Traffic)) == Bag(ColumnOf(table, Traffic))
    ensures multiset(Values(deltas + [d], Traffic)) == Bag(ColumnOf(table[root := d], Traffic))
  {
    ColumnPut(deltas, table, root, d, Traffic);
    assert root !in ColumnOf(table, Traffic);
    BagPut(ColumnOf(table, Traffic), root, d.Total());
    hide Bag, ColumnOf, Values;
  }

  lemma BagPut(m: map<string, nat>, k: string, v: nat)
    requires k !in m
    ensures Bag(m[k := v]) == Bag(m) + multiset{v}
  {
    BagSplit(m[k := v], k);
    assert m[k := v] - {k} == m;
  }

  lemma ColumnPut(deltas: seq<Vector>, table: map<string, Vector>, root: string, d: Vector, c: Column)
    requires root !in table
    ensures Values(deltas + [d], c) == Values(deltas, c) + [c.Of(d)]
    ensures ColumnOf(table[root := d], c) == ColumnOf(table, c)[root := c.Of(d)]
  {
  }

  lemma EmptyLists()
    ensures Lists([], map[])
  {
    forall c: Column ensures Sum(Values([], c)) == SumMap(ColumnOf(map[], c)) {
      EmptyColumn(map[], c);
      assert Values([], c) == [];
    }
    EmptyColumn(map[], Traffic);
    assert Values([], Traffic) == [];
  }

  lemma EmptyColumn(table: map<string, Vector>, c: Column)
    requires |table| == 0
    ensures ColumnOf(table, c) == map[]
  {
    assert ColumnOf(table, c).Keys == table.Keys;
  }

  function Without(threads: map<string, seq<Rollout>>, todo: set<string>): map<string, seq<Rollout>> {
    map root | root in threads && root !in todo :: threads[root]
  }

  // What one more judged thread adds to the three accumulators.
  lemma ThreadAdded(done: map<string, seq<Rollout>>, root: string, rollouts: seq<Rollout>, w: Window)
    requires root !in done
    ensures var after, v := done[root := rollouts], Verdicts(rollouts, root, w);
            && Deltas(after, w) == (if Best(v).Some? then Deltas(done, w)[root := Best(v).value] else Deltas(done, w))
            && root !in Deltas(done, w)
            && IncoherentRoots(after, w) == IncoherentRoots(done, w) + (if CoherentThread(rollouts, root, w) then {} else {root})
            && root !in IncoherentRoots(done, w)
            && ActiveRollouts(after, w) == ActiveRollouts(done, w)[root := ActiveCount(v)]
            && root !in ActiveRollouts(done, w)
  {
    hide Verdicts, CoherentThread, Best, ActiveCount;
  }

  ghost predicate Judged(done: map<string, seq<Rollout>>, w: Window, incoherent: nat, deltas: seq<Vector>, active: nat) {
    && incoherent == |IncoherentRoots(done, w)|
    && (incoherent == 0 ==> Lists(deltas, Deltas(done, w)))
    && active == SumMap(ActiveRollouts(done, w))
  }

  lemma NothingJudged(w: Window)
    ensures Judged(map[], w, 0, [], 0)
  {
    EmptyLists();
    assert Deltas(map[], w) == map[] && ActiveRollouts(map[], w) == map[] && IncoherentRoots(map[], w) == {};
  }

  // One thread of the loop over `per_thread`.
  method AddThread(incoherent: nat, deltas: seq<Vector>, active: nat, rollouts: seq<Rollout>, root: string, w: Window,
                   ghost done: map<string, seq<Rollout>>)
    returns (incoherent': nat, deltas': seq<Vector>, active': nat)
    requires root !in done && Judged(done, w, incoherent, deltas, active)
    ensures Judged(done[root := rollouts], w, incoherent', deltas', active')
  {
    hide Lists, Deltas, ActiveRollouts, IncoherentRoots, Verdicts, CoherentThread;
    ThreadAdded(done, root, rollouts, w);
    var bad, best, count := JudgeThread(rollouts, root, w);
    SumMapPut(ActiveRollouts(done, w), root, count);
    incoherent', deltas', active' := incoherent, deltas, active + count;
    if bad {
      incoherent' := incoherent + 1;
      return;
    }
    assert IncoherentRoots(done, w) + {} == IncoherentRoots(done, w);
    if best.Some? {
      if incoherent == 0 {
        ListsAdd(deltas, Deltas(done, w), root, best.value);
      }
      deltas' := deltas + [best.value];
    }
  }

  // The loop over `per_thread`.
  method JudgeThreads(threads: map<string, seq<Rollout>>, w: Window) returns (incoherent: nat, deltas: seq<Vector>, active: nat)
    ensures Judged(threads, w, incoherent, deltas, active)
  {
    hide Judged;
    incoherent, deltas, active := 0, [], 0;
    var todo := threads.Keys;
    NothingJudged(w);
    assert Without(threads, todo) == map[];
    while todo != {}
      invariant todo <= threads.Keys
      invariant Judged(Without(threads, todo), w, incoherent, deltas, active)
      decreases todo
    {
      var root :| root in todo;
      ghost var done := Without(threads, todo);
      todo := todo - {root};
      assert Without(threads, todo) == done[root := threads[root]];
      incoherent, deltas, active := AddThread(incoherent, deltas, active, threads[root], root, w, done);
    }
    assert Without(threads, {}) == threads;
  }

  method SumColumn(deltas: seq<Vector>, c: Column) returns (total: nat, values: seq<nat>)
    ensures values == Values(deltas, c) && total == Sum(values)
  {
    total, values := 0, [];
    for i := 0 to |deltas|
      invariant values == Values(deltas, c)[..i] && total == Sum(values)
    {
      SumConcat(values, [c.Of(deltas[i])]);
      values := values + [c.Of(deltas[i])];
      total := total + c.Of(deltas[i]);
    }
  }

  // From the accepted deltas to the metrics.
  method Summarise(deltas: seq<Vector>, active: nat, ghost threads: map<string, seq<Rollout>>, w: Window) returns (m: Metrics)
    requires Lists(deltas, Deltas(threads, w)) && active == SumMap(ActiveRollouts(threads, w))
    ensures exists ranked :: Measures(m, threads, w, ranked)
  {
    hide Deltas, ActiveRollouts, Values, Pct, Bag, SumMap, Ranks, ColumnOf;
    var input: int, _ := SumColumn(deltas, Input);
    var cached: int, _ := SumColumn(deltas, Cached);
    var output, _ := SumColumn(deltas, Output);
    var reasoning, _ := SumColumn(deltas, Reasoning);
    var traffic, values := SumColumn(deltas, Traffic);
    var ranked := SortSequence(values);
    ColumnsAddUp(deltas);
    var raw := input + output;
    m := Metrics(Some(raw), None, Some(input - cached), None, Some(cached), Some(output), Some(reasoning), Some(|deltas|),
                 Some(active), Pct(if ranked == [] then None else Some(ranked[0]), raw));
    assert |values| == |deltas| by { ValuesLength(deltas, Traffic); }
    assert Measures(m, threads, w, ranked);
  }

  lemma ValuesLength(deltas: seq<Vector>, c: Column)
    ensures |Values(deltas, c)| == |deltas|
  {
  }

  lemma {:induction false} ColumnsAddUp(deltas: seq<Vector>)
    ensures Sum(Values(deltas, Input)) + Sum(Values(deltas, Output)) == Sum(Values(deltas, Traffic))
  {
    if deltas != [] {
      var rest := deltas[1..];
      ColumnsAddUp(rest);
      forall c: Column ensures Values(deltas, c)[1..] == Values(rest, c) {
      }
    }
  }

  lemma {:induction false} SpansExtend(s: seq<Snapshot>, w: Window, span: (Option<int>, Option<int>))
    requires forall x :: x in s ==> x.ts <= w.end
    requires span.0.Some? <==> span.1.Some?
    requires span.0.Some? ==> w.start <= span.0.value <= span.1.value <= w.end
    ensures var e := Extend(span, s, w);
            && (e.0.Some? <==> e.1.Some?)
            && (e.0.None? <==> span.0.None? && forall x :: x in s ==> x.ts < w.start)
            && (e.0.Some? ==> w.start <= e.0.value <= e.1.value <= w.end && forall x :: x in s && w.start <= x.ts ==> e.0.value <= x.ts <= e.1.value)
            && (span.0.Some? ==> e.0.value <= span.0.value && span.1.value <= e.1.value)
  {
    if s != [] {
      assert s == s[..|s| - 1] + [s[|s| - 1]];
      SpansExtend(s[..|s| - 1], w, span);
    }
  }

  lemma SpansAddFile(files: seq<File>, f: File, w: Window, span: (Option<int>, Option<int>))
    requires Spans(files, w, span.0, span.1)
    ensures var e := if Skipped(f, w) then span else Extend(span, Snapshots(f.events, f.pathDay, w), w);
            Spans(files + [f], w, e.0, e.1)
  {
    if !Skipped(f, w) {
      SnapshotsInScope(f.events, f.pathDay, w);
      SpansExtend(Snapshots(f.events, f.pathDay, w), w, span);
    }
  }

  // `collect_codex`
  method Collect(dirExists: bool, files: seq<File>, w: Window) returns (r: Result)
    ensures Describes(r, dirExists, files, w)
  {
    hide Snapshots, Spans, Measures, IncoherentRoots, Lists, Deltas, ActiveRollouts, NoteAll, IdentityOf;
    if !dirExists {
      return Result(EMPTY, None, None, [CodexDirMissing]);
    }
    var threads, q, from, to := ReadFiles(files, w);
    if q.unreadable > 0 {
      return Result(EMPTY, None, None, [CodexUnreadable(q.unreadable)]);
    }
    var incoherent, deltas, active := JudgeThreads(threads, w);
    if incoherent > 0 {
      return Result(EMPTY, from, to, [CodexIncoherent(incoherent)] + QualityGaps(q, w));
    }
    var m := Summarise(deltas, active, threads, w);
    r := Result(m, from, to, QualityGaps(q, w));
  }

  // The loop over the rollout files.
  method ReadFiles(files: seq<File>, w: Window)
    returns (threads: map<string, seq<Rollout>>, q: Quality, from: Option<int>, to: Option<int>)
    ensures threads == Threads(files, w) && q == QualityOf(files, w) && Spans(files, w, from, to)
  {
    hide Snapshots, Latest, FirstFrom, IdentityOf, NoteAll, Extend, UsageVector;
    threads, q, from, to := map[], Quality(0, 0, false), None, None;
    for i := 0 to |files|
      invariant threads == Threads(files[..i], w) && q == QualityOf(files[..i], w) && Spans(files[..i], w, from, to)
    {
      var f := files[i];
      assert files[..i + 1] == files[..i] + [f] && files[..i + 1][..i] == files[..i];
      SpansAddFile(files[..i], f, w, (from, to));
      if f.pathDay.Some? && f.pathDay.value > w.end {
        continue;
      }
      var blank := Reading(Identity(None, None, None), [], None, None, None, q, from, to);
      var reading := ReadFile(f, w, blank);
      q, from, to := reading.quality, reading.from, reading.to;
      var id := reading.identity;
      if reading.end.None? && id.root.None? {
        EndIffAny(f, w);
        continue;
      }
      EndIffAny(f, w);
      var key := OrText(id.root, f.stem);
      threads := AddRollout(threads, key, Rollout(OrText(id.own, key), reading.start, reading.end, reading.snapshots, reading.first, id.startedAt));
    }
    assert files[..|files|] == files;
  }

  lemma EndIffAny(f: File, w: Window)
    ensures var s := Snapshots(f.events, f.pathDay, w); Latest(s, w.end + 1).None? <==> s == []
  {
    var s := Snapshots(f.events, f.pathDay, w);
    SnapshotsInScope(f.events, f.pathDay, w);
    var j := LatestIndex(s, w.end + 1);
    if s != [] {
      assert s[0] in s;
    }
  }

  // ---- What an accepted result promises ----

  lemma VerdictCoherent(r: Rollout, rollouts: seq<Rollout>, root: string, w: Window)
    requires VerdictOf(r, rollouts, root, w).Active?
    ensures VerdictOf(r, rollouts, root, w).thread.Coherent()
  {
  }

  // Every reported thread delta is a coherent vector of positive total.
  lemma DeltasCoherent(threads: map<string, seq<Rollout>>, w: Window, root: string)
    requires root in Deltas(threads, w)
    ensures Deltas(threads, w)[root].Coherent() && Deltas(threads, w)[root].Total() > 0
  {
    hide VerdictOf;
    var v := Verdicts(threads[root], root, w);
    BestFacts(v);
    var i :| 0 <= i < |v| && v[i].Active? && v[i].thread == Best(v).value;
    VerdictCoherent(threads[root][i], threads[root], root, w);
  }

  ghost function Ones(keys: set<string>): map<string, nat> {
    map k | k in keys :: 1
  }

  lemma {:induction false} SumOnes(keys: set<string>)
    ensures SumMap(Ones(keys)) == |keys|
    decreases |keys|
  {
    if keys != {} {
      var k :| k in keys;
      SumOnes(keys - {k});
      assert Ones(keys) == Ones(keys - {k})[k := 1];
      SumMapPut(Ones(keys - {k}), k, 1);
    } else {
      assert Ones(keys) == map[];
    }
  }

  // A reported thread none of whose rollouts is active.
  ghost predicate Uncovered(threads: map<string, seq<Rollout>>, root: string, w: Window)
    requires root in threads
  {
    var v := Verdicts(threads[root], root, w);
    Best(v).Some? && ActiveCount(v) == 0
  }

  /** Rollouts fall below sessions only through a thread whose forks are behind
      their root (`UncoveredExactly`): without one, every session is covered. */
  lemma CoveredThreadsCoverSessions(threads: map<string, seq<Rollout>>, w: Window)
    requires forall root :: root in threads ==> !Uncovered(threads, root, w)
    ensures |Deltas(threads, w)| <= SumMap(ActiveRollouts(threads, w))
  {
    hide Verdicts, Best, ActiveCount;
    var ones, active := Ones(Deltas(threads, w).Keys), ActiveRollouts(threads, w);
    forall root | root in ones ensures root in active && ones[root] <= active[root] {
      assert !Uncovered(threads, root, w);
    }
    SumOnes(Deltas(threads, w).Keys);
    SumMapMonotone(ones, active);
  }

  /** With root counters monotone in time, an accepted result has at least as many
      active rollouts as sessions. */
  lemma RolloutsCoverSessions(files: seq<File>, w: Window)
    requires IncoherentRoots(Threads(files, w), w) == {}
    requires forall root :: root in Threads(files, w) ==> RootMonotone(Threads(files, w)[root], root)
    ensures |Deltas(Threads(files, w), w)| <= SumMap(ActiveRollouts(Threads(files, w), w))
  {
    var threads := Threads(files, w);
    ThreadsWellRead(files, w);
    hide Threads, RootMonotone, WellRead, CoherentThread, Verdicts, Best, ActiveCount;
    forall root | root in threads ensures !Uncovered(threads, root, w) {
      assert root !in IncoherentRoots(threads, w);
      if Best(Verdicts(threads[root], root, w)).Some? {
        ActiveRolloutOfThread(threads[root], root, w);
      }
    }
    CoveredThreadsCoverSessions(threads, w);
  }

  lemma ColumnsBounded(threads: map<string, seq<Rollout>>, w: Window)
    ensures var d := Deltas(threads, w);
            && SumMap(ColumnOf(d, Cached)) <= SumMap(ColumnOf(d, Input))
            && SumMap(ColumnOf(d, Reasoning)) <= SumMap(ColumnOf(d, Output))
            && |d| <= SumMap(ColumnOf(d, Traffic))
  {
    hide Deltas, ColumnOf, SumMap;
    var d := Deltas(threads, w);
    forall root | root in d ensures d[root].Coherent() && d[root].Total() > 0 {
      DeltasCoherent(threads, w, root);
    }
    ColumnBelow(d, Cached, Input);
    ColumnBelow(d, Reasoning, Output);
    AtLeastOneEach(d);
  }

  lemma ColumnBelow(d: map<string, Vector>, small: Column, large: Column)
    requires forall root :: root in d ==> small.Of(d[root]) <= large.Of(d[root])
    ensures SumMap(ColumnOf(d, small)) <= SumMap(ColumnOf(d, large))
  {
    SumMapMonotone(ColumnOf(d, small), ColumnOf(d, large));
  }

  lemma AtLeastOneEach(d: map<string, Vector>)
    requires forall root :: root in d ==> d[root].Total() > 0
    ensures |d| <= SumMap(ColumnOf(d, Traffic))
  {
    SumOnes(d.Keys);
    SumMapMonotone(Ones(d.Keys), ColumnOf(d, Traffic));
  }

  lemma {:induction false} TrafficIsInputPlusOutput(d: map<string, Vector>)
    ensures SumMap(ColumnOf(d, Traffic)) == SumMap(ColumnOf(d, Input)) + SumMap(ColumnOf(d, Output))
    decreases |d|
  {
    if d == map[] {
      EmptyColumn(d, Traffic);
      EmptyColumn(d, Input);
      EmptyColumn(d, Output);
    } else {
      var root :| root in d;
      var rest := d - {root};
      assert rest.Keys == d.Keys - {root} && d == rest[root := d[root]];
      TrafficIsInputPlusOutput(rest);
      forall c: Column ensures SumMap(ColumnOf(d, c)) == SumMap(ColumnOf(rest, c)) + c.Of(d[root]) {
        ColumnPut([], rest, root, d[root], c);
        SumMapPut(ColumnOf(rest, c), root, c.Of(d[root]));
      }
    }
  }
}
