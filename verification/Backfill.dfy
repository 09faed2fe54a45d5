/** Token telemetry recovered after the fact
    (`backend/scripts/telemetry_backfill.py`): one conversation joined from
    several rooms is counted once, and writing the plan never rewinds a cursor. */
module Backfill {
  import opened Octets
  import opened Options
  import opened Transcripts

  datatype Agent = ClaudeCode | OtherAgent(name: string)

  // A session row, joined with its telemetry row if it has one. A missing
  // conversation id and an empty one are the same.
  datatype Row = Row(id: int, agent: Agent, conversation: string, already: bool, storedOffset: nat)

  // Only Claude Code sessions can be measured retroactively.
  predicate Backfillable(row: Row) { row.agent == ClaudeCode && row.conversation != [] }

  // The query returns one row per session, ordered by its primary key.
  predicate Ordered(rows: seq<Row>) {
    forall i, j :: 0 <= i < j < |rows| ==> rows[i].id < rows[j].id
  }

  // The transcripts on disk, by conversation id.
  type Library = map<string, seq<Byte>>

  // Ids are opaque: one that looks like a path finds nothing.
  predicate Found(files: Library, conversation: string) {
    conversation in files && '/' !in conversation && '\\' !in conversation
  }

  datatype Reason = NoCollector | NoConversation | SharedWith(owner: int) | NoTranscript

  datatype Skipped = Skipped(session: int, agent: Agent, why: Reason)

  datatype Item = Item(session: int, tally: Tally, nextOffset: nat, storedOffset: nat, already: bool)

  // ---- Reference: the owner of a conversation is its earliest session ----

  predicate Joined(rows: seq<Row>, conversation: string) {
    exists i :: 0 <= i < |rows| && Backfillable(rows[i]) && rows[i].conversation == conversation
  }

  // The first session of its conversation.
  predicate Owns(rows: seq<Row>, i: nat)
    requires i < |rows|
  {
    Backfillable(rows[i]) && !Joined(rows[..i], rows[i].conversation)
  }

  predicate Measurable(rows: seq<Row>, i: nat, files: Library)
    requires i < |rows|
  {
    Owns(rows, i) && Found(files, rows[i].conversation)
  }

  // What one whole reading of the conversation's transcript adds up to.
  function Spending(decode: Decoder, files: Library, conversation: string): Tally
    requires conversation in files
  {
    Tallied(decode, CompleteLines(files[conversation]))
  }

  function ItemOf(decode: Decoder, files: Library, row: Row): Item
    requires row.conversation in files
  {
    var file := files[row.conversation];
    Item(row.id, Spending(decode, files, row.conversation), Length(CompleteLines(file)), row.storedOffset, row.already)
  }

  // The items of the measurable sessions among the first `n`, in order.
  function Items(decode: Decoder, files: Library, rows: seq<Row>, n: nat): seq<Item>
    requires n <= |rows|
  {
    if n == 0 then []
    else if Measurable(rows, n - 1, files) then Items(decode, files, rows, n - 1) + [ItemOf(decode, files, rows[n - 1])]
    else Items(decode, files, rows, n - 1)
  }

  // The conversations joined so far whose transcript exists.
  function Conversations(rows: seq<Row>, files: Library): set<string> {
    set c | c in files && Found(files, c) && Joined(rows, c)
  }

  lemma JoinedMore(rows: seq<Row>, row: Row, c: string)
    ensures Joined(rows + [row], c) <==> Joined(rows, c) || (Backfillable(row) && row.conversation == c)
  {
    assert (rows + [row])[|rows|] == row;
    if Joined(rows, c) {
      var i :| 0 <= i < |rows| && Backfillable(rows[i]) && rows[i].conversation == c;
      assert (rows + [row])[i] == rows[i];
    }
  }

  // A further row brings in a conversation exactly when it is measurable.
  lemma ConversationsMore(rows: seq<Row>, n: nat, files: Library)
    requires n < |rows|
    ensures Conversations(rows[..n + 1], files) ==
      if Measurable(rows, n, files) then Conversations(rows[..n], files) + {rows[n].conversation} else Conversations(rows[..n], files)
    ensures Measurable(rows, n, files) ==> rows[n].conversation !in Conversations(rows[..n], files)
  {
    assert rows[..n + 1] == rows[..n] + [rows[n]];
    forall c: string ensures Joined(rows[..n + 1], c) <==> Joined(rows[..n], c) || (Backfillable(rows[n]) && rows[n].conversation == c) {
      JoinedMore(rows[..n], rows[n], c);
    }
    hide Joined, Found;
  }

  // ---- Planning ----

  // An owner found by first registration is this row exactly when it owns.
  lemma OwnerIs(rows: seq<Row>, owner: int, k: nat, i: nat)
    requires Ordered(rows) && k < |rows| && i < |rows|
    requires Owns(rows, k) && rows[k].id == owner && rows[k].conversation == rows[i].conversation
    requires Backfillable(rows[i])
    ensures k <= i && (owner == rows[i].id <==> Owns(rows, i))
  {
    if k < i {
      assert rows[..i][k] == rows[k];
      assert Joined(rows[..i], rows[i].conversation);
    }
  }

  // `owner_of_conversation.setdefault`
  method Owners(rows: seq<Row>) returns (owners: map<string, int>)
    ensures forall c :: c in owners <==> Joined(rows, c)
    ensures forall c :: c in owners ==>
      exists k :: 0 <= k < |rows| && Owns(rows, k) && rows[k].id == owners[c] && rows[k].conversation == c
  {
    owners := map[];
    for i := 0 to |rows|
      invariant forall c :: c in owners <==> Joined(rows[..i], c)
      invariant forall c :: c in owners ==>
        exists k :: 0 <= k < i && Owns(rows, k) && rows[k].id == owners[c] && rows[k].conversation == c
    {
      var row := rows[i];
      assert rows[..i + 1] == rows[..i] + [row];
      forall c: string ensures Joined(rows[..i + 1], c) <==> Joined(rows[..i], c) || (Backfillable(row) && row.conversation == c) {
        JoinedMore(rows[..i], row, c);
      }
      assert Backfillable(row) && row.conversation !in owners ==> Owns(rows, i);
      hide Joined, Owns;
      if Backfillable(row) && row.conversation !in owners {
        owners := owners[row.conversation := row.id];
      }
    }
    assert rows[..|rows|] == rows;
  }

  datatype Planned = Planned(measured: seq<Item>, skipped: seq<Skipped>)

  // Why a session is left unattributed.
  ghost predicate Explains(rows: seq<Row>, i: nat, files: Library, why: Reason)
    requires i < |rows|
  {
    var row := rows[i];
    match why
    case NoCollector => row.agent != ClaudeCode
    case NoConversation => row.agent == ClaudeCode && row.conversation == []
    case SharedWith(owner) =>
      && Backfillable(row) && !Owns(rows, i)
      && exists k :: 0 <= k < i && Owns(rows, k) && rows[k].id == owner && rows[k].conversation == row.conversation
    case NoTranscript => Owns(rows, i) && !Found(files, row.conversation)
  }

  // Every session is measured or skipped, in order, with its reason.
  ghost predicate Sorts(decode: Decoder, files: Library, rows: seq<Row>, n: nat, p: Planned)
    requires n <= |rows|
    decreases n
  {
    if n == 0 then p == Planned([], [])
    else if Measurable(rows, n - 1, files) then
      && |p.measured| > 0 && p.measured[|p.measured| - 1] == ItemOf(decode, files, rows[n - 1])
      && Sorts(decode, files, rows, n - 1, p.(measured := p.measured[..|p.measured| - 1]))
    else
      && |p.skipped| > 0
      && p.skipped[|p.skipped| - 1].session == rows[n - 1].id && p.skipped[|p.skipped| - 1].agent == rows[n - 1].agent
      && Explains(rows, n - 1, files, p.skipped[|p.skipped| - 1].why)
      && Sorts(decode, files, rows, n - 1, p.(skipped := p.skipped[..|p.skipped| - 1]))
  }

  lemma Measures(decode: Decoder, files: Library, rows: seq<Row>, n: nat, p: Planned)
    requires n < |rows| && Sorts(decode, files, rows, n, p) && Measurable(rows, n, files)
    ensures Sorts(decode, files, rows, n + 1, p.(measured := p.measured + [ItemOf(decode, files, rows[n])]))
  {
    hide ItemOf, Explains;
    var q := p.(measured := p.measured + [ItemOf(decode, files, rows[n])]);
    assert q.measured[..|q.measured| - 1] == p.measured;
    assert q.(measured := q.measured[..|q.measured| - 1]) == p;
  }

  lemma Skips(decode: Decoder, files: Library, rows: seq<Row>, n: nat, p: Planned, why: Reason)
    requires n < |rows| && Sorts(decode, files, rows, n, p)
    requires !Measurable(rows, n, files) && Explains(rows, n, files, why)
    ensures Sorts(decode, files, rows, n + 1, p.(skipped := p.skipped + [Skipped(rows[n].id, rows[n].agent, why)]))
  {
    hide Measurable, ItemOf, Explains;
    var q := p.(skipped := p.skipped + [Skipped(rows[n].id, rows[n].agent, why)]);
    assert q.skipped[..|q.skipped| - 1] == p.skipped;
    assert q.(skipped := q.skipped[..|q.skipped| - 1]) == p;
  }

  // `collect_for_session("claude-code", key, since_offset=0)`
  method Collect(decode: Decoder, files: Library, row: Row) returns (item: Option<Item>)
    ensures item.Some? <==> Found(files, row.conversation)
    ensures item.Some? ==> item.value == ItemOf(decode, files, row)
  {
    if row.conversation !in files || '/' in row.conversation || '\\' in row.conversation {
      return None;
    }
    var file := files[row.conversation];
    var r := CollectClaude(decode, file, 0, false);
    assert file[0..] == file;
    hide Tallied, CompleteLines, Length, Listed;
    item := Some(Item(row.id, r.tally, r.nextOffset, row.storedOffset, row.already));
  }

  // One row of the second loop: an item, or the reason there is none.
  method Judge(decode: Decoder, files: Library, rows: seq<Row>, owners: map<string, int>, i: nat)
    returns (item: Option<Item>, why: Reason)
    requires i < |rows| && Ordered(rows)
    requires forall c :: c in owners <==> Joined(rows, c)
    requires forall c :: c in owners ==>
      exists k :: 0 <= k < |rows| && Owns(rows, k) && rows[k].id == owners[c] && rows[k].conversation == c
    ensures item.Some? <==> Measurable(rows, i, files)
    ensures item.Some? ==> item.value == ItemOf(decode, files, rows[i])
    ensures item.None? ==> Explains(rows, i, files, why)
  {
    var row := rows[i];
    why := NoCollector;
    if row.agent != ClaudeCode {
      return None, NoCollector;
    }
    if row.conversation == [] {
      return None, NoConversation;
    }
    assert Joined(rows, row.conversation);
    var owner := owners[row.conversation];
    ghost var k :| 0 <= k < |rows| && Owns(rows, k) && rows[k].id == owner && rows[k].conversation == row.conversation;
    OwnerIs(rows, owner, k, i);
    if owner != row.id {
      return None, SharedWith(owner);
    }
    item := Collect(decode, files, row);
    why := NoTranscript;
  }

  method Plan(decode: Decoder, files: Library, rows: seq<Row>) returns (p: Planned)
    requires Ordered(rows)
    ensures Sorts(decode, files, rows, |rows|, p)
  {
    var owners := Owners(rows);
    p := Planned([], []);
    hide Joined, Owns, Found, Explains, ItemOf, Ordered;
    for i := 0 to |rows|
      invariant Sorts(decode, files, rows, i, p)
    {
      var item, why := Judge(decode, files, rows, owners, i);
      if item.Some? {
        Measures(decode, files, rows, i, p);
        p := p.(measured := p.measured + [item.value]);
      } else {
        Skips(decode, files, rows, i, p, why);
        p := p.(skipped := p.skipped + [Skipped(rows[i].id, rows[i].agent, why)]);
      }
    }
  }

  // ---- Conservation ----

  function SessionsOf(p: Planned): multiset<int> {
    multiset(Sessions(p.measured)) + multiset(SkippedSessions(p.skipped))
  }

  function Sessions(items: seq<Item>): seq<int> {
    if items == [] then [] else Sessions(items[..|items| - 1]) + [items[|items| - 1].session]
  }

  function SkippedSessions(skipped: seq<Skipped>): seq<int> {
    if skipped == [] then [] else SkippedSessions(skipped[..|skipped| - 1]) + [skipped[|skipped| - 1].session]
  }

  function RowIds(rows: seq<Row>, n: nat): seq<int>
    requires n <= |rows|
  {
    if n == 0 then [] else RowIds(rows, n - 1) + [rows[n - 1].id]
  }

  lemma OneMore(a: seq<int>, b: seq<int>, id: int)
    ensures multiset(a + [id]) + multiset(b) == multiset(a) + multiset(b) + multiset{id}
    ensures multiset(a) + multiset(b + [id]) == multiset(a) + multiset(b) + multiset{id}
  {
  }

  // Every session row lands in exactly one of the two lists.
  lemma {:induction false} EverySessionOnce(decode: Decoder, files: Library, rows: seq<Row>, n: nat, p: Planned)
    requires n <= |rows| && Sorts(decode, files, rows, n, p)
    ensures SessionsOf(p) == multiset(RowIds(rows, n))
    decreases n
  {
    hide Measurable, Explains, ItemOf;
    if n > 0 {
      var q := if Measurable(rows, n - 1, files) then p.(measured := p.measured[..|p.measured| - 1])
               else p.(skipped := p.skipped[..|p.skipped| - 1]);
      EverySessionOnce(decode, files, rows, n - 1, q);
      SessionAdded(decode, files, rows, n, p, q);
      OneMore(RowIds(rows, n - 1), [], rows[n - 1].id);
      hide Sorts, SessionsOf;
    }
  }

  lemma SessionAdded(decode: Decoder, files: Library, rows: seq<Row>, n: nat, p: Planned, q: Planned)
    requires 0 < n <= |rows| && Sorts(decode, files, rows, n, p)
    requires q == if Measurable(rows, n - 1, files) then p.(measured := p.measured[..|p.measured| - 1])
                  else p.(skipped := p.skipped[..|p.skipped| - 1])
    ensures SessionsOf(p) == SessionsOf(q) + multiset{rows[n - 1].id}
  {
    hide Measurable, Explains, Spending;
    OneMore(Sessions(q.measured), SkippedSessions(q.skipped), rows[n - 1].id);
  }

  // The measured items are those of the owning sessions, in order.
  lemma {:induction false} MeasuredAreTheItems(decode: Decoder, files: Library, rows: seq<Row>, n: nat, p: Planned)
    requires n <= |rows| && Sorts(decode, files, rows, n, p)
    ensures p.measured == Items(decode, files, rows, n)
    decreases n
  {
    if n > 0 {
      var q := if Measurable(rows, n - 1, files) then p.(measured := p.measured[..|p.measured| - 1])
               else p.(skipped := p.skipped[..|p.skipped| - 1]);
      MeasuredAreTheItems(decode, files, rows, n - 1, q);
      LastMeasured(decode, files, rows, n, p, q);
      hide Sorts, Measurable, ItemOf;
    }
  }

  lemma LastMeasured(decode: Decoder, files: Library, rows: seq<Row>, n: nat, p: Planned, q: Planned)
    requires 0 < n <= |rows| && Sorts(decode, files, rows, n, p)
    requires q == if Measurable(rows, n - 1, files) then p.(measured := p.measured[..|p.measured| - 1])
                  else p.(skipped := p.skipped[..|p.skipped| - 1])
    ensures p.measured == if Measurable(rows, n - 1, files) then q.measured + [ItemOf(decode, files, rows[n - 1])] else q.measured
  {
    hide Owns, Found, Explains, Spending;
  }

  // Any one of the counters a tally carries.
  type Counter = Tally -> int

  function Total(items: seq<Item>, counter: Counter): int {
    if items == [] then 0 else Total(items[..|items| - 1], counter) + counter(items[|items| - 1].tally)
  }

  ghost function TotalOver(decode: Decoder, files: Library, conversations: set<string>, counter: Counter): int
    requires conversations <= files.Keys
  {
    if conversations == {} then 0
    else
      var c :| c in conversations;
      counter(Spending(decode, files, c)) + TotalOver(decode, files, conversations - {c}, counter)
  }

  lemma {:induction false} TotalOverSplit(decode: Decoder, files: Library, conversations: set<string>, counter: Counter, c: string)
    requires conversations <= files.Keys && c in conversations
    ensures TotalOver(decode, files, conversations, counter)
         == counter(Spending(decode, files, c)) + TotalOver(decode, files, conversations - {c}, counter)
    decreases conversations
  {
    hide Spending;
    var d :| d in conversations
             && TotalOver(decode, files, conversations, counter)
                == counter(Spending(decode, files, d)) + TotalOver(decode, files, conversations - {d}, counter);
    if d != c {
      TotalOverSplit(decode, files, conversations - {d}, counter, c);
      TotalOverSplit(decode, files, conversations - {c}, counter, d);
      assert conversations - {d} - {c} == conversations - {c} - {d};
    }
  }

  lemma TotalOverAdd(decode: Decoder, files: Library, before: set<string>, counter: Counter, c: string)
    requires before <= files.Keys && c in files && c !in before
    ensures TotalOver(decode, files, before + {c}, counter)
         == counter(Spending(decode, files, c)) + TotalOver(decode, files, before, counter)
  {
    TotalOverSplit(decode, files, before + {c}, counter, c);
    assert before + {c} - {c} == before;
  }

  lemma NoneJoined(rows: seq<Row>, files: Library)
    ensures Conversations(rows[..0], files) == {}
  {
  }

  lemma ConversationsAreFiles(rows: seq<Row>, files: Library)
    ensures Conversations(rows, files) <= files.Keys
  {
  }

  // What row `n` adds to a counter.
  function Added(decode: Decoder, files: Library, rows: seq<Row>, n: nat, counter: Counter): int
    requires n < |rows|
  {
    if Measurable(rows, n, files) then counter(Spending(decode, files, rows[n].conversation)) else 0
  }

  lemma NextTotalOver(decode: Decoder, files: Library, rows: seq<Row>, n: nat, counter: Counter)
    requires n < |rows|
    ensures TotalOver(decode, files, Conversations(rows[..n + 1], files), counter)
         == TotalOver(decode, files, Conversations(rows[..n], files), counter) + Added(decode, files, rows, n, counter)
  {
    ConversationsAreFiles(rows[..n], files);
    ConversationsMore(rows, n, files);
    hide Spending, Conversations, Owns, Found, TotalOver;
    if Measurable(rows, n, files) {
      TotalOverAdd(decode, files, Conversations(rows[..n], files), counter, rows[n].conversation);
    }
  }

  lemma NextTotal(decode: Decoder, files: Library, rows: seq<Row>, n: nat, counter: Counter)
    requires n < |rows|
    ensures Total(Items(decode, files, rows, n + 1), counter)
         == Total(Items(decode, files, rows, n), counter) + Added(decode, files, rows, n, counter)
  {
    hide Spending, Owns, Total;
    if Measurable(rows, n, files) {
      TotalMore(Items(decode, files, rows, n), ItemOf(decode, files, rows[n]), counter);
    }
  }

  lemma {:induction false} ItemsTotal(decode: Decoder, files: Library, rows: seq<Row>, n: nat, counter: Counter)
    requires n <= |rows|
    ensures Total(Items(decode, files, rows, n), counter)
         == TotalOver(decode, files, Conversations(rows[..n], files), counter)
  {
    if n == 0 {
      NoneJoined(rows, files);
    } else {
      hide Items, Conversations, TotalOver, Total, Added;
      ItemsTotal(decode, files, rows, n - 1, counter);
      NextTotal(decode, files, rows, n - 1, counter);
      NextTotalOver(decode, files, rows, n - 1, counter);
    }
  }

  lemma TotalMore(items: seq<Item>, item: Item, counter: Counter)
    ensures Total(items + [item], counter) == Total(items, counter) + counter(item.tally)
  {
    assert (items + [item])[..|items|] == items;
  }

  // However many rooms share a conversation, each counter of the plan sums to
  // its sum over the distinct conversations that have a transcript.
  lemma PlanCountsEachConversationOnce(decode: Decoder, files: Library, rows: seq<Row>, p: Planned, counter: Counter)
    requires Sorts(decode, files, rows, |rows|, p)
    ensures Total(p.measured, counter) == TotalOver(decode, files, Conversations(rows, files), counter)
  {
    MeasuredAreTheItems(decode, files, rows, |rows|, p);
    ItemsTotal(decode, files, rows, |rows|, counter);
    assert rows[..|rows|] == rows;
  }

  // ---- Writing the plan ----

  datatype Vendor = ClaudeCodeVendor | OtherVendor(name: string)

  // A recovered count is marked as such; any other marking is of the live collector.
  datatype Provenance = Backfilled | Live(name: string)

  datatype Telemetry = Telemetry(
    vendor: Vendor, vendorCost: Option<int>, provenance: Provenance, tally: Tally, windowStart: Option<string>, readOffset: nat, updatedAt: int)

  type Table = map<int, Telemetry>

  // `INSERT ... ON CONFLICT(cli_session_pk) DO UPDATE`
  function Upsert(table: Table, item: Item, now: int): Table {
    var inserted := Telemetry(ClaudeCodeVendor, None, Backfilled, item.tally, item.tally.windowStart, item.nextOffset, now);
    if item.session !in table then table[item.session := inserted]
    else
      var stored := table[item.session];
      table[item.session := inserted.(
        vendor := stored.vendor,
        vendorCost := stored.vendorCost,
        windowStart := if stored.windowStart.Some? then stored.windowStart else item.tally.windowStart,
        readOffset := if stored.readOffset >= item.nextOffset then stored.readOffset else item.nextOffset)]
  }

  function Written(table: Table, items: seq<Item>, now: int): Table {
    if items == [] then table else Upsert(Written(table, items[..|items| - 1], now), items[|items| - 1], now)
  }

  /** The telemetry table of the database. */
  class Database {
    var table: Table

    constructor (initial: Table)
      ensures table == initial
    {
      table := initial;
    }

    method Execute(item: Item, now: int)
      modifies this
      ensures table == Upsert(old(table), item, now)
    {
      var vendor, cost := ClaudeCodeVendor, None;
      var start, offset := item.tally.windowStart, item.nextOffset;
      if item.session in table {
        var stored := table[item.session];
        vendor, cost := stored.vendor, stored.vendorCost;
        if stored.windowStart.Some? { start := stored.windowStart; }
        if stored.readOffset >= offset { offset := stored.readOffset; }
      }
      table := table[item.session := Telemetry(vendor, cost, Backfilled, item.tally, start, offset, now)];
    }

    method Apply(items: seq<Item>, now: int) returns (written: nat)
      modifies this
      ensures table == Written(old(table), items, now) && written == |items|
    {
      written := 0;
      hide Upsert;
      for i := 0 to |items|
        invariant table == Written(old(table), items[..i], now) && written == i
      {
        assert items[..i + 1][..i] == items[..i];
        Execute(items[i], now);
        written := written + 1;
      }
      assert items[..|items|] == items;
    }
  }

  // No row disappears, no cursor moves back, so no span is collected twice, and
  // the vendor, its own cost and a known start of the measured span are kept.
  lemma {:induction false} NeverRewinds(table: Table, items: seq<Item>, now: int, session: int)
    requires session in table
    ensures session in Written(table, items, now)
    ensures Written(table, items, now)[session].readOffset >= table[session].readOffset
    ensures Written(table, items, now)[session].vendor == table[session].vendor
    ensures Written(table, items, now)[session].vendorCost == table[session].vendorCost
    ensures table[session].windowStart.Some? ==> Written(table, items, now)[session].windowStart == table[session].windowStart
  {
    if items != [] {
      NeverRewinds(table, items[..|items| - 1], now, session);
    }
  }

  predicate DistinctSessions(items: seq<Item>) {
    forall i, j :: 0 <= i < j < |items| ==> items[i].session != items[j].session
  }

  lemma {:induction false} SessionsComeFromRows(decode: Decoder, files: Library, rows: seq<Row>, n: nat)
    requires Ordered(rows) && n <= |rows|
    ensures DistinctSessions(Items(decode, files, rows, n))
    ensures forall i :: 0 <= i < |Items(decode, files, rows, n)| ==>
      exists k :: 0 <= k < n && Items(decode, files, rows, n)[i].session == rows[k].id
  {
    hide Measurable, Spending;
    if n > 0 {
      SessionsComeFromRows(decode, files, rows, n - 1);
    }
  }

  lemma {:induction false} UnplannedIsKept(table: Table, items: seq<Item>, now: int, session: int)
    requires forall i :: 0 <= i < |items| ==> items[i].session != session
    ensures session in Written(table, items, now) <==> session in table
    ensures session in table ==> Written(table, items, now)[session] == table[session]
  {
    if items != [] {
      UnplannedIsKept(table, items[..|items| - 1], now, session);
    }
  }

  // An upsert looks at the row of its own session only.
  lemma UpsertReadsOneRow(a: Table, b: Table, item: Item, now: int)
    requires item.session in a <==> item.session in b
    requires item.session in a ==> a[item.session] == b[item.session]
    ensures Upsert(a, item, now)[item.session] == Upsert(b, item, now)[item.session]
  {
  }

  lemma {:induction false} PlannedIsUpserted(table: Table, items: seq<Item>, now: int, i: nat)
    requires DistinctSessions(items) && i < |items|
    ensures items[i].session in Written(table, items, now)
    ensures Written(table, items, now)[items[i].session] == Upsert(table, items[i], now)[items[i].session]
  {
    var init, last := items[..|items| - 1], items[|items| - 1];
    if i == |items| - 1 {
      UnplannedIsKept(table, init, now, last.session);
      UpsertReadsOneRow(Written(table, init, now), table, last, now);
    } else {
      assert init[i] == items[i];
      PlannedIsUpserted(table, init, now, i);
    }
  }

  lemma WrittenAt(table: Table, items: seq<Item>, now: int, session: int)
    requires DistinctSessions(items)
    ensures (forall i :: 0 <= i < |items| ==> items[i].session != session) ==>
      (session in Written(table, items, now) <==> session in table)
      && (session in table ==> Written(table, items, now)[session] == table[session])
    ensures forall i :: 0 <= i < |items| && items[i].session == session ==>
      && session in Written(table, items, now)
      && Written(table, items, now)[session] == Upsert(table, items[i], now)[session]
  {
    hide Written, DistinctSessions;
    if i :| 0 <= i < |items| && items[i].session == session {
      forall k | 0 <= k < |items| && items[k].session == session
        ensures session in Written(table, items, now)
        ensures Written(table, items, now)[session] == Upsert(table, items[k], now)[session]
      {
        PlannedIsUpserted(table, items, now, k);
      }
    } else {
      UnplannedIsKept(table, items, now, session);
    }
  }

  // The row of a planned session holds the item's totals, and a cursor that is
  // the further of the item's and the stored one.
  lemma PlannedRowIsWritten(table: Table, items: seq<Item>, now: int, i: nat)
    requires DistinctSessions(items) && i < |items|
    ensures items[i].session in Written(table, items, now)
    ensures var row, stored := Written(table, items, now)[items[i].session], items[i].session in table;
            && row.tally == items[i].tally && row.provenance == Backfilled && row.updatedAt == now
            && items[i].nextOffset <= row.readOffset
            && (row.readOffset == items[i].nextOffset || (stored && row.readOffset == table[items[i].session].readOffset))
            && (!stored ==> row.windowStart == items[i].tally.windowStart && row.vendor == ClaudeCodeVendor && row.vendorCost == None)
  {
    WrittenAt(table, items, now, items[i].session);
    hide Written;
  }

  // ---- When the written totals match the kept cursor ----

  // What a telemetry row counts.
  datatype Bill = Bill(responses: nat, input: int, cacheCreation: int, cacheRead: int, output: int, models: map<string, nat>)

  function BillOf(t: Tally): Bill {
    Bill(t.responses, t.input, t.cacheCreation, t.cacheRead, t.output, t.models)
  }

  lemma {:induction false} SilentLinesCountNothing(decode: Decoder, lines: seq<seq<Byte>>)
    ensures Tallied(decode, lines).responses == 0 ==> BillOf(Tallied(decode, lines)) == BillOf(NOTHING)
  {
    if lines != [] {
      SilentLinesCountNothing(decode, lines[..|lines| - 1]);
    }
  }

  // More lines leave the bill as it is exactly when none of them is a response.
  lemma BillGrowsExactly(decode: Decoder, before: Tally, lines: seq<seq<Byte>>)
    ensures BillOf(Plus(before, Tallied(decode, lines))) == BillOf(before) <==> Tallied(decode, lines).responses == 0
  {
    SilentLinesCountNothing(decode, lines);
    hide Tallied;
    assert Models(before.models, map[]) == before.models;
  }

  // The totals of a row are those of the complete lines before its own cursor.
  predicate RowMatches(decode: Decoder, row: Telemetry, file: seq<Byte>) {
    row.readOffset <= |file| && BillOf(row.tally) == BillOf(Tallied(decode, CompleteLines(file[..row.readOffset])))
  }

  // Reading further adds the lines in between.
  lemma TalliedFurther(decode: Decoder, file: seq<Byte>, near: nat, far: nat)
    requires near <= far <= |file| && IsBoundary(file, near)
    ensures Tallied(decode, CompleteLines(file[..far])) ==
            Plus(Tallied(decode, CompleteLines(file[..near])), Tallied(decode, CompleteLines(file[near..far])))
  {
    hide Tallied, CompleteLines, Plus;
    assert file[..far] == file[..near] + file[near..far];
    LinesSplit(file[..near], file[near..far]);
    TallyConcat(decode, CompleteLines(file[..near]), CompleteLines(file[near..far]));
  }

  // The planned cursor is a boundary of the transcript however it grew since,
  // and the planned totals are those of the lines before it.
  lemma PlannedPrefix(decode: Decoder, planned: seq<Byte>, grown: seq<Byte>)
    ensures var next, file := Length(CompleteLines(planned)), planned + grown;
            && next <= |planned| && IsBoundary(file, next)
            && Tallied(decode, CompleteLines(file[..next])) == Tallied(decode, CompleteLines(planned))
  {
    var next := Length(CompleteLines(planned));
    assert planned[0..] == planned;
    CursorIsLastBoundary(planned, 0);
    LinesUpToCursor(planned, 0);
    hide CompleteLines, Length, Clear, Tallied;
    assert (planned + grown)[..next] == planned[..next];
  }

  // The written row matches its kept cursor exactly when the session had no row,
  // its cursor had not passed the plan, or lies within the transcript with no
  // complete response in between. Otherwise those responses are in no total and
  // below every later cursor, or the cursor is past the end of a transcript that
  // was replaced by a shorter one.
  lemma PlannedRowMatchesExactly(decode: Decoder, files: Library, row: Row, table: Table, items: seq<Item>, now: int, i: nat,
                                 grown: seq<Byte>)
    requires DistinctSessions(items) && i < |items| && row.conversation in files && items[i] == ItemOf(decode, files, row)
    ensures row.id in Written(table, items, now)
    ensures var file, next := files[row.conversation] + grown, items[i].nextOffset;
            RowMatches(decode, Written(table, items, now)[row.id], file) <==>
              || row.id !in table
              || table[row.id].readOffset <= next
              || (table[row.id].readOffset <= |file|
                  && Tallied(decode, CompleteLines(file[next..table[row.id].readOffset])).responses == 0)
  {
    WrittenAt(table, items, now, row.id);
    PlannedPrefix(decode, files[row.conversation], grown);
    hide Written, Tallied, CompleteLines, Length, Plus, BillOf;
    var file, next := files[row.conversation] + grown, items[i].nextOffset;
    assert Written(table, items, now)[row.id] == Upsert(table, items[i], now)[row.id];
    if row.id in table && next < table[row.id].readOffset <= |file| {
      var far := table[row.id].readOffset;
      TalliedFurther(decode, file, next, far);
      BillGrowsExactly(decode, items[i].tally, CompleteLines(file[next..far]));
    }
  }

  // The transcript was empty when it was planned; the live collector then read
  // a line with a response, which the written row drops while it keeps the
  // cursor behind that line.
  lemma PassedCursorLosesAResponse(decode: Decoder, line: seq<Byte>, stored: Telemetry, now: int)
    requires CompleteLines(line) == [line] && Tallied(decode, [line]).responses > 0 && stored.readOffset == |line|
    ensures var row, files: Library := Row(1, ClaudeCode, "c", false, 0), map["c" := []];
            var written := Written(map[1 := stored], [ItemOf(decode, files, row)], now);
            1 in written && written[1].tally.responses == 0 && written[1].readOffset == |line|
            && !RowMatches(decode, written[1], line)
  {
    var row, files: Library := Row(1, ClaudeCode, "c", false, 0), map["c" := []];
    var item := ItemOf(decode, files, row);
    assert CompleteLines([]) == [];
    WrittenAt(map[1 := stored], [item], now, 1);
    hide Written, CompleteLines;
    assert [item][0] == item;
    assert line[..|line|] == line;
  }

  // A cursor past the end of a transcript that shrank is kept for good, however
  // the transcript is planned.
  lemma CursorPastTheEndIsKept(decode: Decoder, files: Library, row: Row, stored: Telemetry, now: int)
    requires row.conversation in files && |files[row.conversation]| < stored.readOffset
    ensures var written := Written(map[row.id := stored], [ItemOf(decode, files, row)], now);
            row.id in written && written[row.id].readOffset == stored.readOffset
            && !RowMatches(decode, written[row.id], files[row.conversation])
  {
    var item := ItemOf(decode, files, row);
    CompletePart(files[row.conversation]);
    WrittenAt(map[row.id := stored], [item], now, row.id);
    hide Written, CompleteLines, Length, Tallied;
    assert [item][0] == item;
  }

  // Applying a plan again changes nothing but the time of the update.
  lemma ApplyTwice(table: Table, items: seq<Item>, now: int, later: int, session: int)
    requires DistinctSessions(items)
    ensures var once := Written(table, items, now);
            var twice := Written(once, items, later);
            && (session in twice <==> session in once)
            && (session in once ==> twice[session].(updatedAt := 0) == once[session].(updatedAt := 0))
  {
    var once := Written(table, items, now);
    WrittenAt(table, items, now, session);
    WrittenAt(once, items, later, session);
    hide Written;
    if i :| 0 <= i < |items| && items[i].session == session {
      assert once[session] == Upsert(table, items[i], now)[session];
      assert Written(once, items, later)[session] == Upsert(once, items[i], later)[session];
    }
  }
}
