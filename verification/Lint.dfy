/** The lint that finds raw process spawns in production code
    (`backend/examples/lint-no-raw-command.rs`): a visitor that counts how many
    test-marked items it is inside of, against a reference that looks at the
    path from the file to each call. */
module Lint {

  // ---- Attributes ----

  // One entry of a `cfg(...)` list: `name`, `name = value` or `name(entries)`.
  datatype Meta = Word(name: string) | Assigned(name: string, value: string) | Group(name: string, entries: seq<Meta>)

  datatype Attribute = Attribute(isCfg: bool, entries: seq<Meta>)

  const TEST := "test"

  predicate IsAnyOrAll(m: Meta) { m.name == "any" || m.name == "all" }

  // The entry parser stops with an error at the first entry its callback left
  // unread: inside `any` or `all`, anything but a bare word.
  predicate NamesTest(entries: seq<Meta>) {
    entries != [] && (entries[0].name == TEST || (entries[0].Word? && NamesTest(entries[1..])))
  }

  // At the top, `any(...)` and `all(...)` are read too.
  predicate Consumed(m: Meta) { m.Word? || (m.Group? && IsAnyOrAll(m)) }

  predicate Selects(m: Meta) { m.name == TEST || (m.Group? && IsAnyOrAll(m) && NamesTest(m.entries)) }

  predicate IsTestCfg(a: Attribute) {
    a.isCfg && exists i :: 0 <= i < |a.entries| && Selects(a.entries[i])
                           && forall j :: 0 <= j < i ==> Consumed(a.entries[j])
  }

  method ReadsTest(entries: seq<Meta>) returns (found: bool)
    ensures found <==> NamesTest(entries)
  {
    found := false;
    var i, open := 0, true;
    while i < |entries| && open
      invariant i <= |entries|
      invariant NamesTest(entries) <==> found || (open && NamesTest(entries[i..]))
    {
      if entries[i].name == TEST {
        found := true;
      }
      open := entries[i].Word?;
      assert entries[i..][1..] == entries[i + 1..];
      i := i + 1;
    }
  }

  method ReadAttribute(a: Attribute) returns (found: bool)
    ensures found <==> IsTestCfg(a)
  {
    if !a.isCfg {
      return false;
    }
    found := false;
    var i, open := 0, true;
    hide IsAnyOrAll, NamesTest;
    while i < |a.entries| && open
      invariant i <= |a.entries|
      invariant open <==> forall j :: 0 <= j < i ==> Consumed(a.entries[j])
      invariant found <==> exists k :: 0 <= k < i && Selects(a.entries[k]) && forall j :: 0 <= j < k ==> Consumed(a.entries[j])
    {
      var m := a.entries[i];
      if m.name == TEST {
        found := true;
      }
      if m.Group? && IsAnyOrAll(m) {
        var inner := ReadsTest(m.entries);
        found := found || inner;
      }
      open := m.Word? || (m.Group? && IsAnyOrAll(m));
      i := i + 1;
    }
  }

  predicate BareWords(entries: seq<Meta>) {
    forall i :: 0 <= i < |entries| ==> entries[i].Word?
  }

  // `any`/`all` over bare words mark the item exactly when `test` is among them.
  lemma {:induction false} BareWordsNameTest(entries: seq<Meta>)
    requires BareWords(entries)
    ensures NamesTest(entries) <==> Word(TEST) in entries
  {
    if entries != [] {
      BareWordsNameTest(entries[1..]);
      assert entries == [entries[0]] + entries[1..];
    }
  }

  // Entries are read up to the first that is not a bare word, that one included.
  lemma {:induction false} NamesTestExactly(entries: seq<Meta>)
    ensures NamesTest(entries) <==> exists i :: TestAt(entries, i)
  {
    if entries != [] {
      var rest := entries[1..];
      NamesTestExactly(rest);
      if entries[0].name == TEST {
        assert TestAt(entries, 0);
      } else if entries[0].Word? {
        if i :| TestAt(rest, i) {
          assert forall j :: 0 < j <= i ==> entries[j] == rest[j - 1];
          assert TestAt(entries, i + 1);
        }
        if i :| TestAt(entries, i) {
          assert TestAt(rest, i - 1);
        }
      }
    }
  }

  predicate TestAt(entries: seq<Meta>, i: int) {
    0 <= i < |entries| && entries[i].name == TEST && forall j :: 0 <= j < i ==> entries[j].Word?
  }

  // ---- What a `cfg` predicate requires ----

  // The flags, the assignments and any other atoms that hold in a build.
  type Setting = set<Meta>

  predicate Holds(m: Meta, s: Setting) {
    match m
    case Word(_) => m in s
    case Assigned(_, _) => m in s
    case Group(name, entries) =>
      if name == "any" then exists i :: 0 <= i < |entries| && Holds(entries[i], s)
      else if name == "all" then forall i :: 0 <= i < |entries| ==> Holds(entries[i], s)
      else if name == "not" && |entries| == 1 then !Holds(entries[0], s)
      else m in s
  }

  // The item is compiled in no build without `test`.
  ghost predicate RequiresTest(m: Meta) {
    forall s: Setting :: Holds(m, s) ==> Word(TEST) in s
  }

  lemma AtomRequiresItself(m: Meta)
    requires RequiresTest(m) && !m.Group?
    ensures m == Word(TEST)
  {
    assert Holds(m, {m});
  }

  lemma AnyRequiresEach(entries: seq<Meta>, i: nat)
    requires RequiresTest(Group("any", entries)) && i < |entries|
    ensures RequiresTest(entries[i])
  {
    forall s: Setting | Holds(entries[i], s) ensures Word(TEST) in s {
      assert Holds(Group("any", entries), s);
    }
  }

  // A word `test`; `any` that opens with a word; `all` whose `test` comes after words only.
  ghost predicate Seen(m: Meta) {
    || m.Word?
    || (m.Group? && m.name == "any" && m.entries != [] && m.entries[0].Word?)
    || (m.Group? && m.name == "all" && exists i :: TestAt(m.entries, i))
  }

  function Cfg(m: Meta): Attribute { Attribute(true, [m]) }

  /** An item that no build without `test` compiles is marked exactly when its
      `cfg` is one of those three forms. */
  lemma RequiredIsMarkedExactly(m: Meta)
    requires RequiresTest(m)
    ensures IsTestCfg(Cfg(m)) <==> Seen(m)
  {
    CfgSelects(m);
    if !m.Group? {
      AtomRequiresItself(m);
    } else if IsAnyOrAll(m) {
      NamesTestExactly(m.entries);
      if m.name == "any" && m.entries != [] {
        AnyRequiresEach(m.entries, 0);
        AnyOpensWithTest(m.entries);
      }
    } else if m.name == TEST {
      GroupIsNotTheFlag(m);
    }
  }

  lemma CfgSelects(m: Meta)
    ensures IsTestCfg(Cfg(m)) <==> Selects(m)
  {
    hide Selects, Consumed;
    assert Cfg(m).entries[0] == m;
  }

  // An atom called `test(...)` is not the flag.
  lemma GroupIsNotTheFlag(m: Meta)
    requires m.Group? && m.name == TEST
    ensures !RequiresTest(m)
  {
    assert Holds(m, {m});
  }

  lemma AnyOpensWithTest(entries: seq<Meta>)
    requires entries != [] && RequiresTest(entries[0])
    ensures (exists i :: TestAt(entries, i)) <==> entries[0].Word?
  {
    hide Holds;
    if entries[0].Group? {
      if entries[0].name == TEST {
        GroupIsNotTheFlag(entries[0]);
      }
    } else {
      AtomRequiresItself(entries[0]);
      assert TestAt(entries, 0);
    }
  }

  predicate Literals(entries: seq<Meta>) {
    forall i :: 0 <= i < |entries| ==> !entries[i].Group?
  }

  lemma AllRequiresExactly(entries: seq<Meta>)
    requires Literals(entries)
    ensures RequiresTest(Group("all", entries)) <==> Word(TEST) in entries
  {
    var all := Group("all", entries);
    if Word(TEST) in entries {
      var i :| 0 <= i < |entries| && entries[i] == Word(TEST);
      forall s: Setting | Holds(all, s) ensures Word(TEST) in s {
        assert Holds(entries[i], s);
      }
    } else {
      var s: Setting := set e | e in entries;
      assert Holds(all, s);
    }
  }

  // `all` over words and assignments: one that requires `test` is missed exactly
  // when an assignment comes before every entry named `test`.
  lemma AllMissedExactly(entries: seq<Meta>)
    requires Literals(entries) && Word(TEST) in entries
    ensures !IsTestCfg(Cfg(Group("all", entries))) <==>
              exists k :: 0 <= k < |entries| && entries[k].Assigned? && forall j :: 0 <= j <= k ==> entries[j].name != TEST
  {
    var all := Group("all", entries);
    CfgSelects(all);
    NamesTestExactly(entries);
    hide NamesTest, IsTestCfg;
    var i := FirstNamed(entries);
    if forall j :: 0 <= j < i ==> entries[j].Word? {
      assert TestAt(entries, i);
    } else {
      var k :| 0 <= k < i && !entries[k].Word?;
      assert entries[k].Assigned?;
    }
  }

  lemma {:induction false} FirstNamed(entries: seq<Meta>) returns (i: nat)
    requires Word(TEST) in entries
    ensures i < |entries| && entries[i].name == TEST && forall j :: 0 <= j < i ==> entries[j].name != TEST
  {
    if entries[0].name == TEST {
      i := 0;
    } else {
      assert entries == [entries[0]] + entries[1..];
      var k := FirstNamed(entries[1..]);
      i := k + 1;
      assert forall j :: 0 < j <= i ==> entries[j] == entries[1..][j - 1];
    }
  }

  // `all(feature = "x", test)` requires `test` and is missed; `any` that names
  // `test` is seen or missed by the place of its assignment alone.
  lemma TestAfterAssignmentIsMissed(name: string, value: string)
    requires name != TEST
    ensures var missed := Group("all", [Assigned(name, value), Word(TEST)]);
            RequiresTest(missed) && !IsTestCfg(Cfg(missed))
    ensures !IsTestCfg(Cfg(Group("any", [Assigned(name, value), Word(TEST)])))
    ensures IsTestCfg(Cfg(Group("any", [Word(TEST), Assigned(name, value)])))
  {
    var late, early := [Assigned(name, value), Word(TEST)], [Word(TEST), Assigned(name, value)];
    AllRequiresExactly(late);
    assert late[1] == Word(TEST);
    NamesTestExactly(late);
    assert TestAt(early, 0);
    NamesTestExactly(early);
    CfgSelects(Group("all", late));
    CfgSelects(Group("any", late));
    CfgSelects(Group("any", early));
    hide IsTestCfg, NamesTest, RequiresTest;
  }

  // ---- The syntax tree ----

  datatype ItemKind = Fn | Mod | Impl | Struct | Enum | Trait | Const | Static | Type | Use | OtherItem

  datatype ImplItemKind = ImplFn | ImplConst | ImplType | OtherImplItem

  // `path` is the function path of a call, or empty when the callee is not a path.
  datatype Node =
    | Item(item: ItemKind, attrs: seq<Attribute>)
    | ImplItem(implItem: ImplItemKind, attrs: seq<Attribute>)
    | Call(path: seq<string>, line: nat)
    | Other

  // Children are in the order in which the default visitor reaches them.
  datatype Tree = Tree(node: Node, children: seq<Tree>)

  predicate MarkTest(attrs: seq<Attribute>) {
    exists i :: 0 <= i < |attrs| && IsTestCfg(attrs[i])
  }

  // Only these kinds have their attributes looked at.
  predicate Marked(n: Node) {
    match n
    case Item(item, attrs) => !item.OtherItem? && MarkTest(attrs)
    case ImplItem(item, attrs) => !item.OtherImplItem? && MarkTest(attrs)
    case _ => false
  }

  predicate IsCommandNew(n: Node) {
    n.Call? && |n.path| >= 2 && n.path[|n.path| - 2] == "Command" && n.path[|n.path| - 1] == "new"
  }

  datatype Violation = Violation(line: nat, path: seq<string>)

  // ---- Reference: calls and the path that leads to them ----

  datatype Occurrence = Occurrence(node: Node, above: seq<Node>)

  function Occurrences(t: Tree, above: seq<Node>): seq<Occurrence> {
    [Occurrence(t.node, above)] + AllOccurrences(t.children, above + [t.node])
  }

  function AllOccurrences(ts: seq<Tree>, above: seq<Node>): seq<Occurrence> {
    if ts == [] then [] else Occurrences(ts[0], above) + AllOccurrences(ts[1..], above)
  }

  predicate InTest(above: seq<Node>) {
    exists i :: 0 <= i < |above| && Marked(above[i])
  }

  predicate Flagged(o: Occurrence) { IsCommandNew(o.node) && !InTest(o.above) }

  function Violations(os: seq<Occurrence>): seq<Violation> {
    if os == [] then []
    else if Flagged(os[0]) then [Violation(os[0].node.line, os[0].node.path)] + Violations(os[1..])
    else Violations(os[1..])
  }

  function MarkedCount(above: seq<Node>): nat {
    if above == [] then 0
    else MarkedCount(above[..|above| - 1]) + (if Marked(above[|above| - 1]) then 1 else 0)
  }

  // The counter is zero exactly outside every marked item.
  lemma {:induction false} CountedIsInTest(above: seq<Node>)
    ensures MarkedCount(above) > 0 <==> InTest(above)
  {
    hide Marked;
    if above != [] {
      CountedIsInTest(above[..|above| - 1]);
    }
  }

  lemma MarkedMore(above: seq<Node>, n: Node)
    ensures MarkedCount(above + [n]) == MarkedCount(above) + (if Marked(n) then 1 else 0)
  {
    hide Marked;
    assert (above + [n])[..|above|] == above;
  }

  lemma {:induction false} ViolationsConcat(a: seq<Occurrence>, b: seq<Occurrence>)
    ensures Violations(a + b) == Violations(a) + Violations(b)
  {
    hide Flagged;
    if a == [] {
      assert a + b == b;
    } else {
      assert (a + b)[1..] == a[1..] + b;
      ViolationsConcat(a[1..], b);
    }
  }

  lemma {:induction false} OccurrencesConcat(a: seq<Tree>, b: seq<Tree>, above: seq<Node>)
    ensures AllOccurrences(a + b, above) == AllOccurrences(a, above) + AllOccurrences(b, above)
  {
    hide Occurrences;
    if a == [] {
      assert a + b == b;
    } else {
      assert (a + b)[1..] == a[1..] + b;
      OccurrencesConcat(a[1..], b, above);
    }
  }

  lemma NextChild(ts: seq<Tree>, i: nat, above: seq<Node>)
    requires i < |ts|
    ensures Violations(AllOccurrences(ts[..i + 1], above))
         == Violations(AllOccurrences(ts[..i], above)) + Violations(Occurrences(ts[i], above))
  {
    hide Occurrences, Violations;
    assert ts[..i + 1] == ts[..i] + [ts[i]];
    OccurrencesConcat(ts[..i], [ts[i]], above);
    assert AllOccurrences([ts[i]], above) == Occurrences(ts[i], above);
    ViolationsConcat(AllOccurrences(ts[..i], above), Occurrences(ts[i], above));
  }

  // What a subtree adds: its own call, then what its children add.
  lemma SubtreeAdds(t: Tree, above: seq<Node>)
    ensures Violations(Occurrences(t, above))
         == (if Flagged(Occurrence(t.node, above)) then [Violation(t.node.line, t.node.path)] else [])
            + Violations(AllOccurrences(t.children, above + [t.node]))
  {
    hide InTest, AllOccurrences;
    var own := Occurrence(t.node, above);
    ViolationsConcat([own], AllOccurrences(t.children, above + [t.node]));
    assert [own][1..] == [];
    assert Violations([own]) == if Flagged(own) then [Violation(t.node.line, t.node.path)] else [];
  }

  // ---- The visitor ----

  method AttrsMarkTest(attrs: seq<Attribute>) returns (marks: bool)
    ensures marks <==> MarkTest(attrs)
  {
    hide IsTestCfg;
    for i := 0 to |attrs|
      invariant forall j :: 0 <= j < i ==> !IsTestCfg(attrs[j])
    {
      var found := ReadAttribute(attrs[i]);
      if found {
        return true;
      }
    }
    return false;
  }

  /** The lint state: how deep the visit is inside test-marked items, and what
      it has reported. `above` is the path to the visited subtree. */
  class Linter {
    var inTestDepth: nat
    var violations: seq<Violation>

    constructor ()
      ensures inTestDepth == 0 && violations == []
    {
      inTestDepth, violations := 0, [];
    }

    // The default visitor: every child in order.
    method VisitChildren(t: Tree, ghost above: seq<Node>)
      requires inTestDepth == MarkedCount(above)
      modifies this
      ensures inTestDepth == old(inTestDepth)
      ensures violations == old(violations) + Violations(AllOccurrences(t.children, above))
      decreases t, 0
    {
      hide Occurrences, MarkedCount, IsCommandNew, Marked;
      for i := 0 to |t.children|
        invariant inTestDepth == old(inTestDepth)
        invariant violations == old(violations) + Violations(AllOccurrences(t.children[..i], above))
      {
        NextChild(t.children, i, above);
        hide Violations, AllOccurrences;
        Visit(t.children[i], above);
      }
      assert t.children[..|t.children|] == t.children;
    }

    method Visit(t: Tree, ghost above: seq<Node>)
      requires inTestDepth == MarkedCount(above)
      modifies this
      ensures inTestDepth == old(inTestDepth)
      ensures violations == old(violations) + Violations(Occurrences(t, above))
      decreases t, 1
    {
      SubtreeAdds(t, above);
      MarkedMore(above, t.node);
      CountedIsInTest(above);
      hide Occurrences, AllOccurrences, Violations, MarkedCount, InTest, MarkTest;
      match t.node {
        case Item(item, attrs) =>
          var marks := AttrsMarkTest(attrs);
          var entered := !item.OtherItem? && marks;
          if entered { inTestDepth := inTestDepth + 1; }
          VisitChildren(t, above + [t.node]);
          if entered { inTestDepth := inTestDepth - 1; }
        case ImplItem(item, attrs) =>
          var marks := AttrsMarkTest(attrs);
          var entered := !item.OtherImplItem? && marks;
          if entered { inTestDepth := inTestDepth + 1; }
          VisitChildren(t, above + [t.node]);
          if entered { inTestDepth := inTestDepth - 1; }
        case Call(path, line) =>
          if inTestDepth == 0 && IsCommandNew(t.node) {
            violations := violations + [Violation(line, path)];
          }
          VisitChildren(t, above + [t.node]);
        case Other =>
          VisitChildren(t, above + [t.node]);
      }
    }
  }

  // The lint reports exactly the calls that end in `Command::new` and have no
  // test-marked item on the path from the file to them, in visiting order.
  method LintFile(file: Tree) returns (violations: seq<Violation>)
    ensures violations == Violations(Occurrences(file, []))
  {
    var linter := new Linter();
    assert MarkedCount([]) == 0;
    linter.Visit(file, []);
    violations := linter.violations;
  }

  lemma {:induction false} ReportedExactly(os: seq<Occurrence>, v: Violation)
    ensures v in Violations(os) <==>
      exists o :: o in os && Flagged(o) && v == Violation(o.node.line, o.node.path)
  {
    hide Flagged;
    if os != [] {
      ReportedExactly(os[1..], v);
      assert os == [os[0]] + os[1..];
    }
  }

  // Nothing inside a test-marked item is ever reported.
  lemma {:induction false} MarkedSubtreeIsExempt(ts: seq<Tree>, above: seq<Node>)
    requires InTest(above)
    ensures Violations(AllOccurrences(ts, above)) == []
    decreases ts
  {
    hide Marked, IsCommandNew;
    if ts != [] {
      var t := ts[0];
      var i :| 0 <= i < |above| && Marked(above[i]);
      assert (above + [t.node])[i] == above[i];
      SubtreeAdds(t, above);
      MarkedSubtreeIsExempt(t.children, above + [t.node]);
      MarkedSubtreeIsExempt(ts[1..], above);
      ViolationsConcat(Occurrences(t, above), AllOccurrences(ts[1..], above));
      hide Violations, Occurrences;
    }
  }
}
