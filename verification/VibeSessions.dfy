/** Which Vibe session belongs to a working directory, or none
    (`backend/scripts/cli_token_collector.py`, `resolve_vibe_session_id`). */
module VibeSessions {
  import opened Options

  // One `meta.json` under the session root, as far as it could be read.
  datatype Meta = Unreadable | Meta(directory: string, sessionId: string, touched: Option<real>, start: Option<string>)

  datatype Candidate = Candidate(sessionId: string, touched: real, start: Option<string>)

  datatype Outcome =
    | Unresolved
    | Ambiguous(candidates: seq<string>)
    | Resolved(sessionId: string, start: Option<string>)

  // Ids are opaque: none that looks like a path is used.
  predicate SafeId(id: string) { id != [] && '/' !in id && '\\' !in id }

  function CandidateOf(m: Meta, cwd: string): Option<Candidate> {
    if m.Meta? && m.directory == cwd && SafeId(m.sessionId) && m.touched.Some?
    then Some(Candidate(m.sessionId, m.touched.value, m.start))
    else None
  }

  function Candidates(metas: seq<Meta>, cwd: string): seq<Candidate> {
    if metas == [] then []
    else
      var before, c := Candidates(metas[..|metas| - 1], cwd), CandidateOf(metas[|metas| - 1], cwd);
      if c.Some? then before + [c.value] else before
  }

  // One step of `sort(key=touched, reverse=True)`: equal keys keep their order.
  function Insert(s: seq<Candidate>, c: Candidate): seq<Candidate> {
    if s == [] then [c]
    else if s[|s| - 1].touched >= c.touched then s + [c]
    else Insert(s[..|s| - 1], c) + [s[|s| - 1]]
  }

  function Sorted(s: seq<Candidate>): seq<Candidate> {
    if s == [] then [] else Insert(Sorted(s[..|s| - 1]), s[|s| - 1])
  }

  ghost predicate NoneBefore(s: seq<Candidate>, bound: real) {
    forall i :: 0 <= i < |s| ==> s[i].touched >= bound
  }

  ghost predicate Descending(s: seq<Candidate>) {
    forall i, j :: 0 <= i < j < |s| ==> s[i].touched >= s[j].touched
  }

  lemma {:induction false} InsertKeepsBound(s: seq<Candidate>, c: Candidate, bound: real)
    requires NoneBefore(s, bound) && c.touched >= bound
    ensures NoneBefore(Insert(s, c), bound)
  {
    if s != [] && s[|s| - 1].touched < c.touched {
      InsertKeepsBound(s[..|s| - 1], c, bound);
    }
  }

  lemma {:induction false} InsertKeepsOrder(s: seq<Candidate>, c: Candidate)
    requires Descending(s)
    ensures Descending(Insert(s, c))
  {
    if s != [] && s[|s| - 1].touched < c.touched {
      InsertKeepsOrder(s[..|s| - 1], c);
      InsertKeepsBound(s[..|s| - 1], c, s[|s| - 1].touched);
    }
  }

  lemma {:induction false} InsertAdds(s: seq<Candidate>, c: Candidate)
    ensures multiset(Insert(s, c)) == multiset(s) + multiset{c}
  {
    if s != [] && s[|s| - 1].touched < c.touched {
      InsertAdds(s[..|s| - 1], c);
      assert s == s[..|s| - 1] + [s[|s| - 1]];
    }
  }

  lemma {:induction false} SortedSorts(s: seq<Candidate>)
    ensures Descending(Sorted(s)) && multiset(Sorted(s)) == multiset(s)
  {
    hide Insert;
    if s != [] {
      SortedSorts(s[..|s| - 1]);
      InsertKeepsOrder(Sorted(s[..|s| - 1]), s[|s| - 1]);
      InsertAdds(Sorted(s[..|s| - 1]), s[|s| - 1]);
      assert s == s[..|s| - 1] + [s[|s| - 1]];
    }
  }

  // A candidate stands clear when it was touched at least `gap` seconds after
  // every other one.
  ghost predicate StandsClear(candidates: multiset<Candidate>, c: Candidate, gap: int) {
    c in candidates && forall d :: d in candidates - multiset{c} ==> c.touched - d.touched >= gap as real
  }

  predicate TopStandsClear(s: seq<Candidate>, gap: int) {
    |s| == 1 || (|s| > 1 && s[0].touched - s[1].touched >= gap as real)
  }

  lemma RestIs(s: seq<Candidate>)
    requires s != []
    ensures multiset(s) - multiset{s[0]} == multiset(s[1..])
  {
    assert s == [s[0]] + s[1..];
  }

  // Comparing the two newest decides for the whole directory.
  lemma TopDecides(s: seq<Candidate>, gap: int)
    requires Descending(s)
    ensures TopStandsClear(s, gap) ==> StandsClear(multiset(s), s[0], gap)
    ensures (exists c :: StandsClear(multiset(s), c, gap)) ==> TopStandsClear(s, gap)
  {
    if s != [] {
      RestIs(s);
      if TopStandsClear(s, gap) {
        forall d | d in s[1..] ensures s[0].touched - d.touched >= gap as real {
          var i :| 0 <= i < |s[1..]| && s[1..][i] == d;
          assert s[i + 1] == d;
        }
      }
      forall c | StandsClear(multiset(s), c, gap) ensures TopStandsClear(s, gap) {
        TopIsClear(s, c, gap);
      }
    }
  }

  lemma TopIsClear(s: seq<Candidate>, c: Candidate, gap: int)
    requires Descending(s) && s != [] && StandsClear(multiset(s), c, gap)
    ensures TopStandsClear(s, gap)
  {
    RestIs(s);
    if |s| > 1 {
      assert s[1] in s[1..];
      if c != s[0] {
        assert s[0] in multiset(s) - multiset{c};
        assert c in s;
        assert c.touched <= s[0].touched;
      }
    }
  }

  function Ids(s: seq<Candidate>): seq<string> {
    if s == [] then [] else Ids(s[..|s| - 1]) + [s[|s| - 1].sessionId]
  }

  function First4(s: seq<Candidate>): seq<Candidate> { if |s| <= 4 then s else s[..4] }

  // The loop over the session directory.
  method Gather(metas: seq<Meta>, cwd: string) returns (candidates: seq<Candidate>)
    ensures candidates == Candidates(metas, cwd)
  {
    candidates := [];
    for i := 0 to |metas|
      invariant candidates == Candidates(metas[..i], cwd)
    {
      assert metas[..i + 1][..i] == metas[..i];
      var c := CandidateOf(metas[i], cwd);
      if c.Some? {
        candidates := candidates + [c.value];
      }
    }
    assert metas[..|metas|] == metas;
  }

  // A session is adopted exactly when one candidate stands clear of all the
  // others; with several and none clear, the answer is ambiguous.
  method Resolve(metas: seq<Meta>, cwd: string, gap: int) returns (r: Outcome)
    ensures r.Unresolved? <==> Candidates(metas, cwd) == []
    ensures r.Resolved? <==> exists c :: StandsClear(multiset(Candidates(metas, cwd)), c, gap)
    ensures r.Resolved? ==> exists c :: StandsClear(multiset(Candidates(metas, cwd)), c, gap)
                                        && c.sessionId == r.sessionId && c.start == r.start
    ensures r.Ambiguous? ==> r.candidates == Ids(First4(Sorted(Candidates(metas, cwd))))
  {
    hide Sorted, Candidates, Ids, Descending;
    var candidates := Gather(metas, cwd);
    if candidates == [] {
      return Unresolved;
    }
    hide StandsClear;
    SortedSorts(candidates);
    var sorted := Sorted(candidates);
    TopDecides(sorted, gap);
    assert |sorted| == |multiset(sorted)|;
    if |sorted| > 1 && sorted[0].touched - sorted[1].touched < gap as real {
      return Ambiguous(Ids(First4(sorted)));
    }
    r := Resolved(sorted[0].sessionId, sorted[0].start);
  }
}
