/** What a review pass is sent (`backend/scripts/rereview_benchmark.py`,
    `measure`): cold passes read the whole discussion before them, warm ones what
    arrived since their author's previous pass. */
module ReviewCost {
  import opened Sums

  // A file and a bucket of ten lines, as the review ledger groups them.
  datatype Site = Site(path: string, bucket: nat)

  // `paths` are the distinct source files the message names, `sites` the distinct
  // places in them.
  datatype Message = Message(byAgent: bool, author: string, size: nat, paths: set<string>, sites: set<Site>)

  predicate IsPass(m: Message) { m.byAgent && m.paths != {} }

  function Bytes(rows: seq<Message>): nat {
    if rows == [] then 0 else Bytes(rows[..|rows| - 1]) + rows[|rows| - 1].size
  }

  function Passes(rows: seq<Message>): nat {
    if rows == [] then 0
    else Passes(rows[..|rows| - 1]) + (if IsPass(rows[|rows| - 1]) then 1 else 0)
  }

  // What every pass would read if it started cold.
  function Cold(rows: seq<Message>): nat {
    if rows == [] then 0
    else Cold(rows[..|rows| - 1]) + (if IsPass(rows[|rows| - 1]) then Bytes(rows[..|rows| - 1]) else 0)
  }

  // Position of an author's last pass.
  ghost predicate IsLastPass(rows: seq<Message>, author: string, i: nat) {
    && i < |rows| && IsPass(rows[i]) && rows[i].author == author
    && forall j :: i < j < |rows| && IsPass(rows[j]) ==> rows[j].author != author
  }

  // Per author, the bytes before their last pass.
  function LastOffsets(rows: seq<Message>): map<string, nat> {
    if rows == [] then map[]
    else
      var init, last := rows[..|rows| - 1], rows[|rows| - 1];
      if IsPass(last) then LastOffsets(init)[last.author := Bytes(init)] else LastOffsets(init)
  }

  lemma {:induction false} OffsetsAreOfLastPasses(rows: seq<Message>, author: string)
    ensures author in LastOffsets(rows) ==>
      exists i: nat :: IsLastPass(rows, author, i) && LastOffsets(rows)[author] == Bytes(rows[..i])
    ensures author !in LastOffsets(rows) <==> forall i :: 0 <= i < |rows| && IsPass(rows[i]) ==> rows[i].author != author
  {
    if rows != [] {
      var n := |rows| - 1;
      var init, last := rows[..n], rows[n];
      OffsetsAreOfLastPasses(init, author);
      if IsPass(last) && last.author == author {
        assert IsLastPass(rows, author, n);
      } else if author in LastOffsets(init) {
        var i: nat :| IsLastPass(init, author, i) && LastOffsets(init)[author] == Bytes(init[..i]);
        assert init[..i] == rows[..i];
        assert IsLastPass(rows, author, i);
      }
    }
  }

  // What of a message is counted: its files or its sites.
  type Naming<!K> = Message -> set<K>

  // The passes in which each file, or each site, is named.
  function Mentions<K>(rows: seq<Message>, named: Naming<K>): map<K, set<nat>> {
    if rows == [] then map[]
    else
      var init, last := rows[..|rows| - 1], rows[|rows| - 1];
      if IsPass(last) then Mention(Mentions(init, named), named(last), |init|) else Mentions(init, named)
  }

  function PassesNaming<K>(mentions: map<K, set<nat>>, k: K): set<nat> {
    if k in mentions then mentions[k] else {}
  }

  function Mention<K>(mentions: map<K, set<nat>>, keys: set<K>, index: nat): map<K, set<nat>> {
    map k | k in mentions.Keys + keys :: if k in keys then PassesNaming(mentions, k) + {index} else mentions[k]
  }

  function Sizes<K>(mentions: map<K, set<nat>>): map<K, nat> {
    map k | k in mentions :: |mentions[k]|
  }

  // How many are named in more than one pass.
  function Repeated<K>(mentions: map<K, set<nat>>): nat {
    |set k | k in mentions && |mentions[k]| > 1|
  }

  // The distinct names of each pass, summed over the passes.
  function NamesByPass<K>(rows: seq<Message>, named: Naming<K>): nat {
    if rows == [] then 0
    else NamesByPass(rows[..|rows| - 1], named) + (if IsPass(rows[|rows| - 1]) then |named(rows[|rows| - 1])| else 0)
  }

  // ---- The measurement ----

  datatype Cost = Cost(messages: nat, bytes: nat, passes: nat, cold: nat, warm: nat,
                       files: nat, repeated: nat, mentions: nat, sites: nat, repeatedSites: nat)

  lemma PrefixGrows(rows: seq<Message>, i: nat)
    requires i <= |rows|
    ensures Bytes(rows[..i]) <= Bytes(rows)
    decreases |rows|
  {
    if i < |rows| {
      assert rows[..|rows| - 1][..i] == rows[..i];
      PrefixGrows(rows[..|rows| - 1], i);
    } else {
      assert rows[..i] == rows;
    }
  }

  lemma {:induction false} OffsetsAreBounded(rows: seq<Message>)
    ensures forall a :: a in LastOffsets(rows) ==> LastOffsets(rows)[a] <= Bytes(rows)
  {
    if rows != [] {
      OffsetsAreBounded(rows[..|rows| - 1]);
    }
  }

  const FILES: Naming<string> := (m: Message) => m.paths
  const SITES: Naming<Site> := (m: Message) => m.sites

  // The loop over the messages: the warm figure telescopes into the offsets of
  // the last passes, and the mentions into the distinct files of each pass.
  method Measure(rows: seq<Message>) returns (cost: Cost)
    ensures cost == Cost(|rows|, Bytes(rows), Passes(rows), Cold(rows), SumMap(LastOffsets(rows)),
                         |Mentions(rows, FILES)|, Repeated(Mentions(rows, FILES)), NamesByPass(rows, FILES),
                         |Mentions(rows, SITES)|, Repeated(Mentions(rows, SITES)))
  {
    var cumulative, cold, warm, passes := 0, 0, 0, 0;
    var lastPass: map<string, nat> := map[];
    var mentions: map<string, set<nat>>, sites: map<Site, set<nat>> := map[], map[];
    for i := 0 to |rows|
      invariant cumulative == Bytes(rows[..i]) && cold == Cold(rows[..i]) && passes == Passes(rows[..i])
      invariant lastPass == LastOffsets(rows[..i]) && warm == SumMap(lastPass)
      invariant mentions == Mentions(rows[..i], FILES)
      invariant sites == Mentions(rows[..i], SITES)
    {
      var m := rows[i];
      assert rows[..i + 1][..i] == rows[..i];
      OffsetsAreBounded(rows[..i]);
      hide SumMap, Mention;
      if IsPass(m) {
        passes := passes + 1;
        cold := cold + cumulative;
        SumMapPut(lastPass, m.author, cumulative);
        warm := warm + cumulative - (if m.author in lastPass then lastPass[m.author] else 0);
        lastPass := lastPass[m.author := cumulative];
        mentions := AddMentions(mentions, m.paths, i);
        sites := AddMentions(sites, m.sites, i);
      }
      cumulative := cumulative + m.size;
    }
    assert rows[..|rows|] == rows;
    MentionsCountedTwice(rows, FILES);
    var total := SumSizes(mentions);
    cost := Cost(|rows|, cumulative, passes, cold, warm,
                 |mentions|, Repeated(mentions), total, |sites|, Repeated(sites));
  }

  // `sum(len(m) for m in mentions.values())`
  method SumSizes<K(==)>(mentions: map<K, set<nat>>) returns (total: nat)
    ensures total == SumMap(Sizes(mentions))
  {
    total := 0;
    var left := Sizes(mentions);
    while left != map[]
      invariant total + SumMap(left) == SumMap(Sizes(mentions))
      decreases |left|
    {
      var k :| k in left;
      assert (left - {k}).Keys == left.Keys - {k};
      SumMapSplit(left, k);
      total := total + left[k];
      left := left - {k};
    }
  }

  method AddMentions<K(==)>(before: map<K, set<nat>>, keys: set<K>, index: nat) returns (mentions: map<K, set<nat>>)
    ensures mentions == Mention(before, keys, index)
  {
    mentions := before;
    var left := keys;
    while left != {}
      invariant left <= keys
      invariant mentions == Mention(before, keys - left, index)
    {
      var k :| k in left;
      assert keys - (left - {k}) == keys - left + {k};
      mentions := mentions[k := (if k in mentions then mentions[k] else {}) + {index}];
      left := left - {k};
    }
  }

  // ---- Results ----

  lemma AtMostEach(rest: nat, v: nat, n: nat, bound: nat)
    requires rest <= n * bound && v <= bound
    ensures v + rest <= (n + 1) * bound
  {
    assert (n + 1) * bound == n * bound + bound;
  }

  lemma {:induction false} ManyBounded(m: map<string, nat>, n: nat, bound: nat)
    requires n == |m| && forall k :: k in m ==> m[k] <= bound
    ensures SumMap(m) <= n * bound
    decreases n
  {
    if n > 0 {
      var k :| k in m;
      SumMapSplit(m, k);
      assert (m - {k}).Keys == m.Keys - {k};
      hide SumMap;
      ManyBounded(m - {k}, n - 1, bound);
      AtMostEach(SumMap(m - {k}), m[k], n - 1, bound);
    }
  }

  lemma {:induction false} ColdIsBounded(rows: seq<Message>)
    ensures SumMap(LastOffsets(rows)) <= Cold(rows) <= Passes(rows) * Bytes(rows)
  {
    if rows != [] {
      var init, last := rows[..|rows| - 1], rows[|rows| - 1];
      ColdIsBounded(init);
      SumMapPut(LastOffsets(init), last.author, Bytes(init));
      hide SumMap;
      Grows(Passes(init), Bytes(init), last.size);
    }
  }

  lemma Grows(passes: nat, bytes: nat, size: nat)
    ensures passes * bytes <= passes * (bytes + size)
    ensures passes * bytes + bytes <= (passes + 1) * (bytes + size)
  {
    assert passes * (bytes + size) == passes * bytes + passes * size;
    assert (passes + 1) * (bytes + size) == passes * (bytes + size) + bytes + size;
  }

  // For every discussion: warm passes read at most what cold ones do, and at
  // most the discussion once per author; cold ones at most the discussion once
  // per pass.
  lemma WarmIsAtMostCold(rows: seq<Message>)
    ensures SumMap(LastOffsets(rows)) <= Cold(rows) <= Passes(rows) * Bytes(rows)
    ensures SumMap(LastOffsets(rows)) <= |LastOffsets(rows)| * Bytes(rows)
  {
    ColdIsBounded(rows);
    OffsetsAreBounded(rows);
    ManyBounded(LastOffsets(rows), |LastOffsets(rows)|, Bytes(rows));
  }

  predicate OnePassEach(rows: seq<Message>) {
    forall i, j :: 0 <= i < j < |rows| && IsPass(rows[i]) && IsPass(rows[j]) ==> rows[i].author != rows[j].author
  }

  // A first pass costs the same either way.
  lemma {:induction false} FirstPassesCostTheSame(rows: seq<Message>)
    requires OnePassEach(rows)
    ensures SumMap(LastOffsets(rows)) == Cold(rows)
  {
    if rows != [] {
      var n := |rows| - 1;
      var init, last := rows[..n], rows[n];
      hide SumMap;
      FirstPassesCostTheSame(init);
      SumMapPut(LastOffsets(init), last.author, Bytes(init));
      OffsetsAreOfLastPasses(init, last.author);
    }
  }

  // A name is mentioned exactly in the passes that name it.
  lemma {:induction false} MentionsAreThePasses<K>(rows: seq<Message>, named: Naming<K>, k: K, i: nat)
    ensures k in Mentions(rows, named) && i in Mentions(rows, named)[k] <==>
              i < |rows| && IsPass(rows[i]) && k in named(rows[i])
  {
    if rows != [] {
      MentionsAreThePasses(rows[..|rows| - 1], named, k, i);
    }
  }

  lemma {:induction false} MentionCounts<K>(mentions: map<K, set<nat>>, keys: set<K>, index: nat)
    requires forall k :: k in mentions ==> index !in mentions[k]
    ensures SumMap(Sizes(Mention(mentions, keys, index))) == SumMap(Sizes(mentions)) + |keys|
    decreases |keys|
  {
    MentionNone(mentions, index);
    hide SumMap, Sizes, Mention, PassesNaming;
    if keys != {} {
      var k :| k in keys;
      var rest := keys - {k};
      assert rest + {k} == keys;
      MentionCounts(mentions, rest, index);
      MentionOne(mentions, rest, k, index);
      SumMapPut(Sizes(Mention(mentions, rest, index)), k, |PassesNaming(mentions, k)| + 1);
    }
  }

  lemma MentionNone<K>(mentions: map<K, set<nat>>, index: nat)
    ensures Mention(mentions, {}, index) == mentions
  {
  }

  lemma MentionOne<K>(mentions: map<K, set<nat>>, rest: set<K>, k: K, index: nat)
    requires k !in rest
    requires forall q :: q in mentions ==> index !in mentions[q]
    ensures var before := Sizes(Mention(mentions, rest, index));
            && Sizes(Mention(mentions, rest + {k}, index)) == before[k := |PassesNaming(mentions, k)| + 1]
            && (if k in before then before[k] else 0) == |PassesNaming(mentions, k)|
  {
    MentionPut(mentions, rest, k, index);
    hide Mention;
    var before, now := Mention(mentions, rest, index), PassesNaming(mentions, k) + {index};
    assert |now| == |PassesNaming(mentions, k)| + 1;
    assert Sizes(before[k := now]) == Sizes(before)[k := |now|];
  }

  lemma MentionPut<K>(mentions: map<K, set<nat>>, rest: set<K>, k: K, index: nat)
    requires k !in rest
    ensures Mention(mentions, rest + {k}, index) == Mention(mentions, rest, index)[k := PassesNaming(mentions, k) + {index}]
    ensures k in Mention(mentions, rest, index) <==> k in mentions
    ensures k in mentions ==> Mention(mentions, rest, index)[k] == mentions[k]
  {
  }

  // Counting mentions by file, or by site, or by pass gives the same number.
  lemma {:induction false} MentionsCountedTwice<K>(rows: seq<Message>, named: Naming<K>)
    ensures SumMap(Sizes(Mentions(rows, named))) == NamesByPass(rows, named)
  {
    if rows == [] {
      assert Sizes<K>(map[]) == map[];
    } else {
      var init, last := rows[..|rows| - 1], rows[|rows| - 1];
      MentionsCountedTwice(init, named);
      forall k, i: nat | k in Mentions(init, named) && i in Mentions(init, named)[k] ensures i < |init| {
        MentionsAreThePasses(init, named, k, i);
      }
      hide SumMap, Sizes, Mention;
      if IsPass(last) {
        MentionCounts(Mentions(init, named), named(last), |init|);
      }
    }
  }
}
