/** The JSON converters of converters/automat_converter.cpp over a small JSON value
    type: symbols are written as their label alone, machines as an object whose
    keys do not match the ones the parser reads. */
module Converter {
  import opened Wrappers
  import opened Symbols
  import opened Machines

  datatype Json =
    | JString(str: string)
    | JArray(items: seq<Json>)
    | JObject(members: map<string, Json>)
    | JOther

  /** The member `key` of an object, if there is one. */
  function At(j: Option<Json>, key: string): (r: Option<Json>)
    ensures r.Some? <==> j.Some? && j.value.JObject? && key in j.value.members
  {
    if j.Some? && j.value.JObject? && key in j.value.members then Some(j.value.members[key]) else None
  }

  // ---------------------------------------------------------------------------
  // Symbols

  /** `Serialize(State)` / `Serialize(Signal)`: the label as a JSON string. */
  function SerializeSymbol(s: Symbol): (j: Json)
    ensures j.JString? && j.str == s.id
  {
    JString(s.id)
  }

  /** `Parse(State)` / `Parse(Signal)`: a string becomes a leaf with that label,
      anything else the default "null" symbol. */
  function ParseSymbol(j: Json): (s: Symbol)
    ensures s.sources == []
    ensures j.JString? ==> s == Leaf(j.str)
    ensures !j.JString? ==> s == Null
  {
    if j.JString? then Leaf(j.str) else Null
  }

  /** Writing then reading a symbol keeps its label and drops its sources, so it
      gives the symbol back exactly when the symbol is a leaf. */
  lemma SymbolRoundTrip(s: Symbol)
    ensures ParseSymbol(SerializeSymbol(s)).id == s.id
    ensures ParseSymbol(SerializeSymbol(s)) == s <==> s.sources == []
  {
  }

  /** The unit tests: "something" and the default "null" signal come back equal;
      the pair "id1_id2" of "id1" and "id2" comes back with its label but without
      its sources, so unequal. */
  lemma ConverterTests()
    ensures ParseSymbol(SerializeSymbol(Leaf("something"))) == Leaf("something")
    ensures ParseSymbol(SerializeSymbol(Null)) == Null
    ensures var original := Symbol("id1_id2", [Leaf("id1"), Leaf("id2")]);
            var back := ParseSymbol(SerializeSymbol(original));
            back.id == original.id && back.sources != original.sources && back != original
  {
    SymbolRoundTrip(Symbol("id1_id2", [Leaf("id1"), Leaf("id2")]));
  }

  // ---------------------------------------------------------------------------
  // Serialize(Automat)

  /** One cell of the transition table: `{"state": next, "signal": output}`. */
  function CellJson(cp: ControlPair): Json {
    JObject(map["state" := JString(cp.0.id), "signal" := JString(cp.1.id)])
  }

  /** The cell of the table in `j` for state label `s` and input label `x`. */
  function TableCell(j: Json, s: string, x: string): Option<Json> {
    At(At(At(Some(j), "transition_function"), s), x)
  }

  /** `order` lists each symbol of `symbols` exactly once. */
  ghost predicate Enumerates(order: seq<Symbol>, symbols: set<Symbol>) {
    && (forall s :: s in order <==> s in symbols)
    && (forall i, j :: 0 <= i < j < |order| ==> order[i] != order[j])
  }

  lemma NonEmptyListed(order: seq<Symbol>, symbols: set<Symbol>)
    requires Enumerates(order, symbols)
    ensures order != [] <==> symbols != {}
  {
    if symbols != {} {
      var s :| s in symbols;
      assert s in order;
    }
    if order != [] {
      assert order[0] in symbols;
    }
  }

  /** The serialised labels of `order`, in order. */
  function Labels(order: seq<Symbol>): (r: seq<Json>)
    ensures |r| == |order| && forall i :: 0 <= i < |order| ==> r[i] == SerializeSymbol(order[i])
  {
    if |order| == 0 then [] else Labels(order[..|order| - 1]) + [SerializeSymbol(order[|order| - 1])]
  }

  /** Push the label of every symbol of `symbols` onto `items`, in the order the
      set is walked. */
  method PushLabels(items: seq<Json>, symbols: set<Symbol>) returns (items': seq<Json>, order: seq<Symbol>)
    ensures Enumerates(order, symbols) && items' == items + Labels(order)
  {
    items', order := items, [];
    var rest := symbols;
    while rest != {}
      invariant rest <= symbols
      invariant Enumerates(order, symbols - rest)
      invariant |items'| == |items| + |order|
      invariant forall i :: 0 <= i < |items| ==> items'[i] == items[i]
      invariant forall i :: 0 <= i < |order| ==> items'[|items| + i] == SerializeSymbol(order[i])
      decreases rest
    {
      var s :| s in rest;
      rest := rest - {s};
      items', order := items' + [SerializeSymbol(s)], order + [s];
    }
    assert items' == items + Labels(order);
  }

  /** The inner loop: the cells of one state, one per input label. */
  method WriteRow(m: Automat, s: State) returns (row: map<string, Json>)
    ensures row.Keys == set x | x in m.inputs :: x.id
    ensures LabelKeyed(m.inputs) ==>
              forall x :: x in m.inputs ==> row[x.id] == CellJson(m.delta((s, x)))
  {
    row := map[];
    var pending := m.inputs;
    while pending != {}
      invariant pending <= m.inputs
      invariant row.Keys == set x | x in m.inputs - pending :: x.id
      invariant LabelKeyed(m.inputs) ==>
                  forall x :: x in m.inputs - pending ==> row[x.id] == CellJson(m.delta((s, x)))
      decreases pending
    {
      var x :| x in pending;
      pending := pending - {x};
      row := row[x.id := CellJson(m.delta((s, x)))];
    }
  }

  /** The nested loops writing `table[state.id][signal.id]` for every state and
      input; a later write under the same labels replaces an earlier one, which
      cannot happen when labels are unique. */
  method WriteTable(m: Automat) returns (table: map<string, map<string, Json>>)
    ensures table.Keys == (if m.inputs == {} then {} else set s | s in m.states :: s.id)
    ensures forall k :: k in table ==> table[k].Keys == set x | x in m.inputs :: x.id
    ensures LabelKeyed(m.states) && LabelKeyed(m.inputs) ==>
              forall s, x :: s in m.states && x in m.inputs ==>
                table[s.id][x.id] == CellJson(m.delta((s, x)))
  {
    table := map[];
    var rest := m.states;
    while rest != {}
      invariant rest <= m.states
      invariant table.Keys == (if m.inputs == {} then {} else set s | s in m.states - rest :: s.id)
      invariant forall k :: k in table ==> table[k].Keys == set x | x in m.inputs :: x.id
      invariant LabelKeyed(m.states) && LabelKeyed(m.inputs) ==>
                  forall s, x :: s in m.states - rest && x in m.inputs ==>
                    table[s.id][x.id] == CellJson(m.delta((s, x)))
      decreases rest
    {
      var s :| s in rest;
      rest := rest - {s};
      var row := WriteRow(m, s);
      if m.inputs != {} {
        table := table[s.id := row];
      }
    }
  }

  /** The builder's nested objects for a table of rows. */
  function NestTable(table: map<string, map<string, Json>>): (j: Json)
    ensures j.JObject? && j.members.Keys == table.Keys
    ensures forall k, x :: k in table && x in table[k] ==> At(At(Some(j), k), x) == Some(table[k][x])
  {
    JObject(map k | k in table :: JObject(table[k]))
  }

  /** The `"states"` array: the labels of the states, then of the inputs, then of
      the outputs. */
  method ListSymbols(m: Automat) returns (items: seq<Json>)
    ensures items != [] <==> m.states != {} || m.inputs != {} || m.outputs != {}
    ensures exists o1, o2, o3 ::
              Enumerates(o1, m.states) && Enumerates(o2, m.inputs) && Enumerates(o3, m.outputs) &&
              items == Labels(o1) + Labels(o2) + Labels(o3)
  {
    ghost var o1, o2, o3;
    items, o1 := PushLabels([], m.states);
    items, o2 := PushLabels(items, m.inputs);
    items, o3 := PushLabels(items, m.outputs);
    assert items == Labels(o1) + Labels(o2) + Labels(o3);
    NonEmptyListed(o1, m.states);
    NonEmptyListed(o2, m.inputs);
    NonEmptyListed(o3, m.outputs);
  }

  /** `Serialize(Automat)`: an object with `"initial_state"` (the initial label),
      `"states"` (the labels of the states, then of the inputs, then of the
      outputs; present only when one of the three is non-empty) and
      `"transition_function"` (present only when there are states and inputs). */
  method SerializeAutomat(m: Automat) returns (j: Json)
    ensures j.JObject? && j.members.Keys <= {"initial_state", "states", "transition_function"}
    ensures "initial_state" in j.members && j.members["initial_state"] == JString(m.initial.id)
    ensures "states" in j.members <==> m.states != {} || m.inputs != {} || m.outputs != {}
    ensures "states" in j.members ==>
              exists o1, o2, o3 ::
                Enumerates(o1, m.states) && Enumerates(o2, m.inputs) && Enumerates(o3, m.outputs) &&
                j.members["states"] == JArray(Labels(o1) + Labels(o2) + Labels(o3))
    ensures "transition_function" in j.members <==> m.states != {} && m.inputs != {}
    ensures LabelKeyed(m.states) && LabelKeyed(m.inputs) ==>
              forall s, x :: s in m.states && x in m.inputs ==>
                TableCell(j, s.id, x.id) == Some(CellJson(m.delta((s, x))))
  {
    var items := ListSymbols(m);
    var table := WriteTable(m);
    if m.states != {} && m.inputs != {} {
      var s :| s in m.states;
      assert s.id in table.Keys;
    }
    j := Assemble(m.initial.id, items, table);
    if LabelKeyed(m.states) && LabelKeyed(m.inputs) {
      forall s, x | s in m.states && x in m.inputs
        ensures TableCell(j, s.id, x.id) == Some(CellJson(m.delta((s, x))))
      {
        assert s.id in table && x.id in table[s.id];
      }
    }
  }

  /** The builder's object: the initial label, the `"states"` array when it is
      non-empty and the table when it has rows. */
  function Assemble(initial: string, items: seq<Json>, table: map<string, map<string, Json>>): (j: Json)
    ensures j.JObject? && j.members.Keys <= {"initial_state", "states", "transition_function"}
    ensures "initial_state" in j.members && j.members["initial_state"] == JString(initial)
    ensures "states" in j.members <==> items != []
    ensures "states" in j.members ==> j.members["states"] == JArray(items)
    ensures "transition_function" in j.members <==> table != map[]
    ensures forall k, x :: k in table && x in table[k] ==> TableCell(j, k, x) == Some(table[k][x])
  {
    var withInitial := map["initial_state" := JString(initial)];
    var withStates := if items != [] then withInitial["states" := JArray(items)] else withInitial;
    JObject(if table != map[] then withStates["transition_function" := NestTable(table)] else withStates)
  }

  // ---------------------------------------------------------------------------
  // Parse(Automat)

  /** Why a parse throws: the value is not an object, or a set member is missing
      or not an array. */
  datatype ParseError = NotAnObject | MissingOrNotArray(key: string)

  /** A JSON array read as `std::set<State>` (or `<Signal>`): every element parsed
      as a symbol and inserted by label. */
  function ParseSet(items: seq<Json>): (r: set<Symbol>)
    ensures r == set i | 0 <= i < |items| :: ParseSymbol(items[i])
    decreases |items|
  {
    if |items| == 0 then {}
    else
      var front := ParseSet(items[..|items| - 1]);
      var last := ParseSymbol(items[|items| - 1]);
      assert forall i :: 0 <= i < |items| - 1 ==> items[..|items| - 1][i] == items[i];
      SetInsert(front, last)
  }

  /** `j[key]` exists and is an array. */
  predicate ArrayMember(j: Json, key: string) {
    j.JObject? && key in j.members && j.members[key].JArray?
  }

  function ParseMember(j: Json, key: string): Result<set<Symbol>, ParseError> {
    var member := At(Some(j), key);
    if member.Some? && member.value.JArray? then Success(ParseSet(member.value.items))
    else Failure(MissingOrNotArray(key))
  }

  /** `table[s][x][field]` as a string, the empty string when any step is absent
      (`operator[]` on an `unordered_map` inserts an empty entry). */
  function TableString(table: Option<Json>, s: string, x: string, field: string): (r: string)
    ensures At(At(At(table, s), x), field).Some? && At(At(At(table, s), x), field).value.JString? ==>
              r == At(At(At(table, s), x), field).value.str
    ensures !(At(At(At(table, s), x), field).Some? && At(At(At(table, s), x), field).value.JString?) ==>
              r == ""
  {
    match At(At(At(table, s), x), field)
    case Some(JString(v)) => v
    case _ => ""
  }

  /** The parsed transition function: reads the table under the labels of the
      state and the input and builds leaf symbols from the strings found. */
  function ParsedDelta(table: Option<Json>): Transition {
    (cp: ControlPair) =>
      (Leaf(TableString(table, cp.0.id, cp.1.id, "state")), Leaf(TableString(table, cp.0.id, cp.1.id, "signal")))
  }

  /** `Parse(Automat)`: the initial state from `"initial_state"`, then the sets
      from `"state"`, `"output_signals"` and `"input_signals"` in that order
      (the first missing or non-array one is the error), and a transition
      function over `"transition_function"`. */
  function ParseAutomat(j: Json): (r: Result<Automat, ParseError>)
    ensures !j.JObject? ==> r == Failure(NotAnObject)
    ensures j.JObject? ==>
              (r.Success? <==> ArrayMember(j, "state") && ArrayMember(j, "output_signals") &&
                               ArrayMember(j, "input_signals"))
    ensures j.JObject? && !ArrayMember(j, "state") ==> r == Failure(MissingOrNotArray("state"))
    ensures j.JObject? && ArrayMember(j, "state") && !ArrayMember(j, "output_signals") ==>
              r == Failure(MissingOrNotArray("output_signals"))
    ensures j.JObject? && ArrayMember(j, "state") && ArrayMember(j, "output_signals") &&
            !ArrayMember(j, "input_signals") ==>
              r == Failure(MissingOrNotArray("input_signals"))
    ensures r.Success? ==> r.value.current == None && r.value.initial.sources == []
    ensures r.Success? ==>
              r.value.initial == (if "initial_state" in j.members then ParseSymbol(j.members["initial_state"]) else Null)
  {
    if !j.JObject? then Failure(NotAnObject)
    else
      var initial := if "initial_state" in j.members then ParseSymbol(j.members["initial_state"]) else Null;
      match ParseMember(j, "state")
      case Failure(e) => Failure(e)
      case Success(states) =>
        match ParseMember(j, "output_signals")
        case Failure(e) => Failure(e)
        case Success(outputs) =>
          match ParseMember(j, "input_signals")
          case Failure(e) => Failure(e)
          case Success(inputs) =>
            Success(Automat(inputs, states, initial, ParsedDelta(At(Some(j), "transition_function")), outputs, None))
  }

  /** A parsed machine's transition function returns, for every pair, the leaves
      named at `table[state.id][signal.id]`. */
  lemma ParsedTransitionsAreLeaves(j: Json, cp: ControlPair)
    requires ParseAutomat(j).Success?
    ensures var out := ParseAutomat(j).value.delta(cp);
            var cell := TableCell(j, cp.0.id, cp.1.id);
            && out.0.sources == [] && out.1.sources == []
            && (cell.Some? && cell.value.JObject? && cell.value.members.Keys == {"state", "signal"} &&
                cell.value.members["state"].JString? && cell.value.members["signal"].JString? ==>
                  out == (Leaf(cell.value.members["state"].str), Leaf(cell.value.members["signal"].str)))
  {
  }

  /** What the parser reads: a parsed machine's sets are the parsed elements of the
      three arrays, all of them leaves. */
  lemma ParsedSets(j: Json)
    requires ParseAutomat(j).Success?
    ensures var m := ParseAutomat(j).value;
            && m.states == (set i | 0 <= i < |j.members["state"].items| :: ParseSymbol(j.members["state"].items[i]))
            && m.inputs == (set i | 0 <= i < |j.members["input_signals"].items| ::
                              ParseSymbol(j.members["input_signals"].items[i]))
            && m.outputs == (set i | 0 <= i < |j.members["output_signals"].items| ::
                               ParseSymbol(j.members["output_signals"].items[i]))
  {
  }

  /** The serialiser never writes `"state"`, which the parser requires, so parsing
      what `SerializeAutomat` wrote always fails: the two are not inverses. */
  lemma SerializedDoesNotParse(j: Json)
    requires j.JObject? && j.members.Keys <= {"initial_state", "states", "transition_function"}
    ensures ParseAutomat(j) == Failure(MissingOrNotArray("state"))
  {
    assert "state" !in j.members;
  }

  /** The table half of the encoding does round-trip: reading a cell the
      serialiser wrote gives the labels of the next state and the output, as
      leaves. */
  lemma TableReadsBack(j: Json, m: Automat, s: State, x: Signal)
    requires TableCell(j, s.id, x.id) == Some(CellJson(m.delta((s, x))))
    ensures ParsedDelta(At(Some(j), "transition_function"))((s, x)) ==
            (Leaf(m.delta((s, x)).0.id), Leaf(m.delta((s, x)).1.id))
  {
  }
}
