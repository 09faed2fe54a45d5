/** Measurement windows over UTC instants (microseconds) and the UTC days inside them. */
module Windows {
  import opened Options

  const DAY := 86_400_000_000

  datatype Window = Window(start: int, end: int) {
    // `Window.__post_init__` raises otherwise.
    predicate Valid() {
      start <= end
    }

    predicate Contains(ts: Option<int>) {
      ts.Some? && start <= ts.value <= end
    }

    predicate StartsAtMidnight() {
      start % DAY == 0
    }

    predicate EndsAtMidnight() {
      end % DAY == 0
    }
  }

  function EarlierOf(current: Option<int>, ts: int): Option<int> {
    if current.None? || ts < current.value then Some(ts) else current
  }

  function LaterOf(current: Option<int>, ts: int): Option<int> {
    if current.None? || ts > current.value then Some(ts) else current
  }

  /** A UTC day, named by its midnight, that lies wholly inside the window. */
  predicate IsFullDay(w: Window, day: int) {
    day % DAY == 0 && w.start <= day && day + DAY <= w.end
  }

  function FirstMidnight(w: Window): int {
    var day := w.start - w.start % DAY;
    if day < w.start then day + DAY else day
  }

  function DaysFrom(day: int, end: int): seq<int>
    decreases end - day
  {
    if day + DAY <= end then [day] + DaysFrom(day + DAY, end) else []
  }

  function FullDays(w: Window): seq<int> {
    DaysFrom(FirstMidnight(w), w.end)
  }

  // `_full_utc_days`
  method FullUtcDays(w: Window) returns (days: seq<int>)
    ensures days == FullDays(w)
  {
    var day := w.start - w.start % DAY;
    if day < w.start {
      day := day + DAY;
    }
    days := [];
    while day + DAY <= w.end
      invariant FullDays(w) == days + DaysFrom(day, w.end)
      decreases w.end - day
    {
      days := days + [day];
      day := day + DAY;
    }
  }

  ghost predicate Ascending(s: seq<int>) {
    forall i, j :: 0 <= i < j < |s| ==> s[i] < s[j]
  }

  lemma {:induction false} DaysFromMembers(day: int, end: int)
    requires day % DAY == 0
    ensures forall d :: d in DaysFrom(day, end) <==> d % DAY == 0 && day <= d && d + DAY <= end
    ensures Ascending(DaysFrom(day, end))
    decreases end - day
  {
    if day + DAY <= end {
      DaysFromMembers(day + DAY, end);
      var rest := DaysFrom(day + DAY, end);
      assert forall i :: 0 <= i < |rest| ==> rest[i] in rest;
      assert forall d :: d % DAY == 0 && day <= d ==> d == day || day + DAY <= d;
    }
  }

  // The days returned are exactly those wholly inside the window, ascending, without repeats.
  lemma FullDaysExact(w: Window)
    ensures forall d :: d in FullDays(w) <==> IsFullDay(w, d)
    ensures Ascending(FullDays(w))
  {
    DaysFromMembers(FirstMidnight(w), w.end);
    assert forall d :: d % DAY == 0 && w.start <= d ==> FirstMidnight(w) <= d;
  }

  lemma {:induction false} DaysFromSplit(day: int, mid: int, end: int)
    requires day % DAY == 0 && mid % DAY == 0 && day <= mid <= end
    ensures DaysFrom(day, end) == DaysFrom(day, mid) + DaysFrom(mid, end)
    decreases mid - day
  {
    if day < mid {
      assert day + DAY <= mid;
      DaysFromSplit(day + DAY, mid, end);
    }
  }

  // Cutting a window at a UTC midnight cuts its list of full days in two.
  lemma FullDaysSplit(start: int, mid: int, end: int)
    requires start <= mid <= end && mid % DAY == 0
    ensures FullDays(Window(start, end)) == FullDays(Window(start, mid)) + FullDays(Window(mid, end))
  {
    DaysFromSplit(FirstMidnight(Window(start, end)), mid, end);
  }

  // A window between two midnights has no full day exactly when it is empty.
  lemma MidnightWindowHasDays(w: Window)
    requires w.Valid() && w.StartsAtMidnight() && w.EndsAtMidnight()
    ensures FullDays(w) == [] <==> w.start == w.end
  {
    FullDaysExact(w);
    if w.start < w.end {
      assert IsFullDay(w, w.start);
    }
    assert FullDays(w) != [] ==> FullDays(w)[0] in FullDays(w);
  }
}
