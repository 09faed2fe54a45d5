/** The configuration options an ACP session advertises, and how a model is
    chosen among them (`backend/src/acp.rs`, `parse_config_options`,
    `collect_config_values`, `set_config_option`, `select_model`). */
module ConfigValues {
  import opened Options
  import opened JsonRpc

  // A JSON field: missing, a string, or anything else.
  datatype Field = Absent | Str(text: string) | NotString {
    function AsStr(): Option<string> { if Str? then Some(text) else None }

    function OrElse(other: Field): Field { if Absent? then other else this }
  }

  // An entry of a select option's list: a value, or a group of entries.
  datatype Node = Node(id: Field, value: Field, name: Field, options: ListField)

  datatype ListField = NoList | List(nodes: seq<Node>) | NotList {
    function OrElse(other: ListField): ListField { if NoList? then other else this }
  }

  datatype ConfigValue = ConfigValue(id: string, name: string)

  // `filter(|id| !id.trim().is_empty())`
  function NotBlank(id: Option<string>): Option<string> {
    if id.Some? && Trim(id.value) != [] then id else None
  }

  function Key(node: Node): Option<string> { NotBlank(node.id.OrElse(node.value).AsStr()) }

  function ValueOf(node: Node, id: string): ConfigValue {
    ConfigValue(id, if node.name.Str? then node.name.text else id)
  }

  // ---- The reference: every selectable value, depth first, each id once ----

  function Leaves(nodes: seq<Node>): seq<ConfigValue> {
    if nodes == [] then [] else LeavesOf(nodes[0]) + Leaves(nodes[1..])
  }

  function LeavesOf(node: Node): seq<ConfigValue> {
    match Key(node)
    case Some(id) => [ValueOf(node, id)]
    case None => if node.options.List? then Leaves(node.options.nodes) else []
  }

  predicate Knows(values: seq<ConfigValue>, id: string) {
    exists i :: 0 <= i < |values| && values[i].id == id
  }

  // The positions of the values whose id no earlier value has.
  function FirstPositions(values: seq<ConfigValue>): seq<nat> {
    if values == [] then []
    else
      var n := |values| - 1;
      if Knows(values[..n], values[n].id) then FirstPositions(values[..n]) else FirstPositions(values[..n]) + [n]
  }

  function FirstOccurrences(values: seq<ConfigValue>): seq<ConfigValue> {
    if values == [] then []
    else
      var n := |values| - 1;
      if Knows(values[..n], values[n].id) then FirstOccurrences(values[..n])
      else FirstOccurrences(values[..n]) + [values[n]]
  }

  predicate IsFirst(values: seq<ConfigValue>, i: nat) {
    i < |values| && !Knows(values[..i], values[i].id)
  }

  lemma {:induction false} PositionsAreTheFirstOnes(values: seq<ConfigValue>)
    ensures forall i :: i in FirstPositions(values) <==> IsFirst(values, i)
    ensures forall a, b :: 0 <= a < b < |FirstPositions(values)| ==> FirstPositions(values)[a] < FirstPositions(values)[b]
  {
    hide Knows;
    if values != [] {
      var n := |values| - 1;
      PositionsAreTheFirstOnes(values[..n]);
      assert forall i :: 0 <= i < n ==> values[..n][..i] == values[..i];
      assert forall i :: 0 <= i < n ==> (IsFirst(values[..n], i) <==> IsFirst(values, i));
      assert forall i: nat :: IsFirst(values, i) ==> i <= n;
      var before := FirstPositions(values[..n]);
      assert forall k :: 0 <= k < |before| ==> before[k] in before && IsFirst(values[..n], before[k]);
    }
  }

  // First-occurrence de-duplication keeps exactly the values at the first
  // positions of their ids, in order: the first name given to an id wins.
  lemma {:induction false} FirstOccurrencesPick(values: seq<ConfigValue>)
    ensures |FirstOccurrences(values)| == |FirstPositions(values)|
    ensures forall k :: 0 <= k < |FirstOccurrences(values)| ==>
      IsFirst(values, FirstPositions(values)[k]) && FirstOccurrences(values)[k] == values[FirstPositions(values)[k]]
  {
    PositionsAreTheFirstOnes(values);
    hide Knows;
    if values != [] {
      var n := |values| - 1;
      PositionsAreTheFirstOnes(values[..n]);
      FirstOccurrencesPick(values[..n]);
    }
  }

  lemma {:induction false} KeptIdsAreTheIds(values: seq<ConfigValue>, id: string)
    ensures Knows(FirstOccurrences(values), id) <==> Knows(values, id)
  {
    if values != [] {
      var n := |values| - 1;
      var last, kept := values[n], FirstOccurrences(values[..n]);
      KeptIdsAreTheIds(values[..n], id);
      KnowsConcat(values[..n], last, id);
      KnowsConcat(kept, last, id);
      assert values == values[..n] + [last];
      hide Knows;
    }
  }

  lemma KnowsConcat(values: seq<ConfigValue>, v: ConfigValue, id: string)
    ensures Knows(values + [v], id) <==> Knows(values, id) || v.id == id
  {
    assert (values + [v])[|values|] == v;
    if Knows(values, id) {
      var i :| 0 <= i < |values| && values[i].id == id;
      assert (values + [v])[i].id == id;
    }
  }

  predicate DistinctIds(values: seq<ConfigValue>) {
    forall a, b :: 0 <= a < b < |values| ==> values[a].id != values[b].id
  }

  lemma {:induction false} KeptIdsAreDistinct(values: seq<ConfigValue>)
    ensures DistinctIds(FirstOccurrences(values))
  {
    if values != [] {
      var n := |values| - 1;
      KeptIdsAreDistinct(values[..n]);
      KeptIdsAreTheIds(values[..n], values[n].id);
    }
  }

  lemma {:induction false} LeavesConcat(a: seq<Node>, b: seq<Node>)
    ensures Leaves(a + b) == Leaves(a) + Leaves(b)
  {
    hide LeavesOf;
    if a == [] {
      assert a + b == b;
    } else {
      assert (a + b)[1..] == a[1..] + b;
      LeavesConcat(a[1..], b);
    }
  }

  lemma LeavesTake(nodes: seq<Node>, i: nat)
    requires i < |nodes|
    ensures Leaves(nodes[..i + 1]) == Leaves(nodes[..i]) + LeavesOf(nodes[i])
  {
    hide LeavesOf;
    assert nodes[..i + 1] == nodes[..i] + [nodes[i]];
    LeavesConcat(nodes[..i], [nodes[i]]);
    assert Leaves([nodes[i]]) == LeavesOf(nodes[i]);
  }

  lemma KeepNext(values: seq<ConfigValue>, v: ConfigValue)
    ensures FirstOccurrences(values + [v]) ==
      if Knows(FirstOccurrences(values), v.id) then FirstOccurrences(values) else FirstOccurrences(values) + [v]
  {
    KeptIdsAreTheIds(values, v.id);
    hide Knows;
    assert (values + [v])[..|values|] == values;
  }

  /** The vector that the recursion over groups pushes into. */
  class Collector {
    var out: seq<ConfigValue>

    constructor ()
      ensures out == []
    {
      out := [];
    }

    method Has(id: string) returns (found: bool)
      ensures found <==> Knows(out, id)
    {
      found := false;
      for i := 0 to |out|
        invariant found <==> Knows(out[..i], id)
      {
        assert out[..i + 1] == out[..i] + [out[i]];
        KnowsConcat(out[..i], out[i], id);
        if out[i].id == id { found := true; }
      }
      assert out[..|out|] == out;
    }

    // `seen` is the list of leaves visited before this call.
    method Collect(nodes: seq<Node>, ghost seen: seq<ConfigValue>)
      requires out == FirstOccurrences(seen)
      modifies this
      ensures out == FirstOccurrences(seen + Leaves(nodes))
      decreases nodes
    {
      assert seen + [] == seen;
      for i := 0 to |nodes|
        invariant out == FirstOccurrences(seen + Leaves(nodes[..i]))
      {
        ghost var before := seen + Leaves(nodes[..i]);
        LeavesTake(nodes, i);
        assert seen + Leaves(nodes[..i + 1]) == before + LeavesOf(nodes[i]);
        hide FirstOccurrences, Leaves;
        match Key(nodes[i]) {
          case Some(id) =>
            var known := Has(id);
            KeepNext(before, ValueOf(nodes[i], id));
            if !known {
              out := out + [ValueOf(nodes[i], id)];
            }
          case None =>
            if nodes[i].options.List? {
              assert (nodes decreases to nodes[i]) && (nodes[i] decreases to nodes[i].options.nodes);
              Collect(nodes[i].options.nodes, before);
            } else {
              assert before + [] == before;
            }
        }
      }
      assert nodes[..|nodes|] == nodes;
    }
  }

  // ---- Options ----

  // An entry of `configOptions`, with every spelling its reader accepts.
  datatype RawOption = RawOption(
    id: Field,
    value: Field, current: Field, currentValue: Field,
    availableValues: ListField, available_values: ListField, values: ListField, options: ListField)

  datatype ConfigOption = ConfigOption(id: string, current: Option<string>, available: seq<ConfigValue>)

  function ListOf(raw: RawOption): seq<Node> {
    var list := raw.availableValues.OrElse(raw.available_values.OrElse(raw.values.OrElse(raw.options)));
    if list.List? then list.nodes else []
  }

  function OptionOf(raw: RawOption, id: string): ConfigOption {
    ConfigOption(id, raw.value.OrElse(raw.current.OrElse(raw.currentValue)).AsStr(), FirstOccurrences(Leaves(ListOf(raw))))
  }

  function Parsed(raws: seq<RawOption>): seq<ConfigOption> {
    if raws == [] then []
    else
      var init, last := Parsed(raws[..|raws| - 1]), raws[|raws| - 1];
      var id := NotBlank(last.id.AsStr());
      if id.Some? then init + [OptionOf(last, id.value)] else init
  }

  // A missing or malformed array gives no options.
  function ParsedReply(reply: Option<seq<RawOption>>): seq<ConfigOption> {
    if reply.Some? then Parsed(reply.value) else []
  }

  method ParseConfigOptions(reply: Option<seq<RawOption>>) returns (options: seq<ConfigOption>)
    ensures options == ParsedReply(reply)
  {
    options := [];
    if reply.Some? {
      var raws := reply.value;
      for i := 0 to |raws|
        invariant options == Parsed(raws[..i])
      {
        assert raws[..i + 1][..i] == raws[..i];
        match NotBlank(raws[i].id.AsStr()) {
          case Some(id) =>
            var collector := new Collector();
            assert [] + Leaves(ListOf(raws[i])) == Leaves(ListOf(raws[i]));
            collector.Collect(ListOf(raws[i]), []);
            hide FirstOccurrences, Leaves, ListOf;
            var current := raws[i].value.OrElse(raws[i].current.OrElse(raws[i].currentValue)).AsStr();
            options := options + [ConfigOption(id, current, collector.out)];
          case None =>
        }
      }
      assert raws[..|raws|] == raws;
    }
  }

  // Every parsed option has a usable id and offers each value once.
  lemma {:induction false} ParsedOptionsAreUsable(raws: seq<RawOption>)
    ensures forall o :: o in Parsed(raws) ==> Trim(o.id) != [] && DistinctIds(o.available)
  {
    if raws != [] {
      ParsedOptionsAreUsable(raws[..|raws| - 1]);
      KeptIdsAreDistinct(Leaves(ListOf(raws[|raws| - 1])));
    }
    hide DistinctIds, FirstOccurrences, Leaves, Trim;
  }

  // ---- Choosing a model ----

  // Lower-casing yields the letters of `model` from their two ASCII cases only.
  predicate ModelAt(id: string, i: nat)
    requires i <= |id|
  {
    var s := id[i..];
    && |s| >= 5
    && (s[0] == 'm' || s[0] == 'M') && (s[1] == 'o' || s[1] == 'O') && (s[2] == 'd' || s[2] == 'D')
    && (s[3] == 'e' || s[3] == 'E') && (s[4] == 'l' || s[4] == 'L')
  }

  predicate IsModelOptionId(id: string) {
    exists i :: 0 <= i <= |id| && ModelAt(id, i)
  }

  predicate Matches(v: ConfigValue, model: string) { v.id == model || v.name == model }

  predicate Offers(o: ConfigOption, model: string) {
    exists k :: 0 <= k < |o.available| && Matches(o.available[k], model)
  }

  function Catalogue(options: seq<ConfigOption>, wanted: bool): seq<ConfigOption> {
    if options == [] then []
    else
      var init, last := Catalogue(options[..|options| - 1], wanted), options[|options| - 1];
      if IsModelOptionId(last.id) == wanted then init + [last] else init
  }

  lemma {:induction false} CatalogueHolds(options: seq<ConfigOption>, wanted: bool)
    ensures forall o :: o in Catalogue(options, wanted) <==> o in options && IsModelOptionId(o.id) == wanted
  {
    hide IsModelOptionId;
    if options != [] {
      CatalogueHolds(options[..|options| - 1], wanted);
      assert options == options[..|options| - 1] + [options[|options| - 1]];
    }
  }

  // `iter_mut().find(|option| option.id == config_id)`
  function WithCurrent(options: seq<ConfigOption>, id: string, value: string): seq<ConfigOption> {
    if options == [] then []
    else if options[0].id == id then [options[0].(current := Some(value))] + options[1..]
    else [options[0]] + WithCurrent(options[1..], id, value)
  }

  lemma {:induction false} CurrentAt(options: seq<ConfigOption>, id: string, value: string, i: nat)
    requires i <= |options| && forall j :: 0 <= j < i ==> options[j].id != id
    ensures i < |options| && options[i].id == id ==>
      WithCurrent(options, id, value) == options[i := options[i].(current := Some(value))]
    ensures i == |options| ==> WithCurrent(options, id, value) == options
  {
    if i > 0 {
      CurrentAt(options[1..], id, value, i - 1);
    }
  }

  // A runtime that echoes its options is authoritative; otherwise the accepted
  // value becomes the current one. A refused request changes nothing.
  function AfterSet(options: seq<ConfigOption>, id: string, value: string, reply: Option<Option<seq<RawOption>>>): seq<ConfigOption> {
    if reply.None? then options
    else if ParsedReply(reply.value) != [] then ParsedReply(reply.value)
    else WithCurrent(options, id, value)
  }

  // The selection that reached the runtime, and what came of it.
  datatype Selection = Nothing | Applied(option: ConfigOption, value: ConfigValue) | Refused(option: ConfigOption, value: ConfigValue)

  function SearchOrder(options: seq<ConfigOption>): seq<ConfigOption> {
    Catalogue(options, true) + Catalogue(options, false)
  }

  ghost predicate FirstMatch(o: ConfigOption, model: string, v: ConfigValue) {
    exists k :: 0 <= k < |o.available| && o.available[k] == v && Matches(v, model)
                && forall j :: 0 <= j < k ==> !Matches(o.available[j], model)
  }

  // The first option of the search order that offers the model, and its first
  // value that is the model.
  ghost predicate Picks(options: seq<ConfigOption>, model: string, o: ConfigOption, v: ConfigValue) {
    && (exists i :: 0 <= i < |SearchOrder(options)| && SearchOrder(options)[i] == o
                    && forall j :: 0 <= j < i ==> !Offers(SearchOrder(options)[j], model))
    && FirstMatch(o, model, v)
  }

  // The first value of an option that is the model, as `find` returns it.
  method FindValue(o: ConfigOption, model: string) returns (found: Option<ConfigValue>)
    ensures found.Some? <==> Offers(o, model)
    ensures found.Some? ==> FirstMatch(o, model, found.value)
  {
    for k := 0 to |o.available|
      invariant forall j :: 0 <= j < k ==> !Matches(o.available[j], model)
    {
      if Matches(o.available[k], model) {
        return Some(o.available[k]);
      }
    }
    return None;
  }

  // A picked option is one of the session's, and it is outside the model
  // catalogue only when no option of the catalogue offers the model.
  lemma CatalogueComesFirst(options: seq<ConfigOption>, model: string, o: ConfigOption, v: ConfigValue)
    requires Picks(options, model, o, v)
    ensures o in options && v in o.available && Matches(v, model)
    ensures !IsModelOptionId(o.id) ==> forall other :: other in options && IsModelOptionId(other.id) ==> !Offers(other, model)
  {
    CatalogueHolds(options, true);
    CatalogueHolds(options, false);
    hide Catalogue, Offers, IsModelOptionId;
    var order, head := SearchOrder(options), |Catalogue(options, true)|;
    var i :| 0 <= i < |order| && order[i] == o && forall j :: 0 <= j < i ==> !Offers(order[j], model);
    assert forall j :: 0 <= j < head ==> order[j] in Catalogue(options, true);
    assert !IsModelOptionId(o.id) ==> head <= i;
    assert forall x :: x in Catalogue(options, true) ==> x in order[..head];
  }

  /** The options of one session, kept as the runtime last reported them. */
  class Session {
    var options: seq<ConfigOption>

    constructor (advertised: seq<ConfigOption>)
      ensures options == advertised
    {
      options := advertised;
    }

    // `reply` is the outcome of `session/set_config_option`: `None` is an error.
    method SetConfigOption(id: string, value: string, reply: Option<Option<seq<RawOption>>>) returns (ok: bool)
      modifies this
      ensures ok <==> reply.Some?
      ensures options == AfterSet(old(options), id, value, reply)
    {
      if reply.None? { return false; }
      var updated := ParseConfigOptions(reply.value);
      if updated != [] {
        options := updated;
      } else {
        SetCurrent(id, value);
      }
      ok := true;
    }

    method SetCurrent(id: string, value: string)
      modifies this
      ensures options == WithCurrent(old(options), id, value)
    {
      var i := 0;
      while i < |options| && options[i].id != id
        invariant i <= |options| && options == old(options)
        invariant forall j :: 0 <= j < i ==> options[j].id != id
      {
        i := i + 1;
      }
      CurrentAt(options, id, value, i);
      hide WithCurrent;
      if i < |options| {
        options := options[i := options[i].(current := Some(value))];
      }
    }

    // A model is applied exactly when some option offers it and the runtime
    // accepts it; nothing is sent when none does.
    method SelectModel(model: string, reply: Option<Option<seq<RawOption>>>) returns (sel: Selection)
      modifies this
      ensures sel.Nothing? <==> !exists o :: o in old(options) && Offers(o, model)
      ensures sel.Applied? <==> (exists o :: o in old(options) && Offers(o, model)) && reply.Some?
      ensures !sel.Nothing? ==> Picks(old(options), model, sel.option, sel.value)
      ensures options == if sel.Applied? then AfterSet(old(options), sel.option.id, sel.value.id, reply) else old(options)
    {
      var order := SearchOrder(options);
      CatalogueHolds(options, true);
      CatalogueHolds(options, false);
      hide Catalogue, Offers, Matches, IsModelOptionId, ParsedReply, WithCurrent, FirstMatch;
      for i := 0 to |order|
        invariant options == old(options)
        invariant forall j :: 0 <= j < i ==> !Offers(order[j], model)
      {
        var found := FindValue(order[i], model);
        if found.Some? {
          assert order[i] in options;
          var ok := SetConfigOption(order[i].id, found.value.id, reply);
          return if ok then Applied(order[i], found.value) else Selection.Refused(order[i], found.value);
        }
      }
      assert forall o :: o in options ==> o in order;
      return Nothing;
    }
  }
}
