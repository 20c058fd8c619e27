# Mealy machines: product, reachability and equivalence

This project is a Dafny model of the core of a small C++ web service. Its
subject is deterministic Mealy machines (`Automat`): an input alphabet, states,
an initial state, a transition function `(state, input) -> (next state, output)`
and an output alphabet. The service does four things with them:

- it forms the synchronous product of two machines (`operator*`);
- it trims a machine to its reachable states with a breadth-first search;
- it decides whether two machines are equivalent (`operator==`): in the product,
  every output reachable from the pair of initial states must be stable, meaning
  both halves are equal;
- it writes machines to JSON and reads them back.

A second, hand-written Mealy machine drives the user interface. Its five screens
are `Idle`, `FirstAutomat`, `SecondAutomat`, `Comparison` and `Error`. Its routes
are `""`, `generate`, `regenerate` and `compare`. On its screens it generates two
random machines and compares them.

Modules, one per file:

- `Symbols` (symbols.dfy): states and signals as labelled trees.
  - Deep structural equality.
  - The label-only order that `std::set` and `std::map` use.
  - `is_stable`.
  - Sets that, like a `std::set`, identify symbols by label.
- `Machines` (machine.dfy): the `Automat` record and the product transition. It
  also holds runs over input words (`Dest`, `Outputs`), which give reachability
  and equivalence a meaning.
- `Runs` (runs.dfy): reachability stays inside closed sets, and the product runs
  its operands in lockstep. Hence "every reachable product output is stable"
  holds exactly when "both machines emit the same outputs on every input word".
- `Automata` (automat.dfy): the product's construction loops, the breadth-first
  search, and the equivalence check.
- `Generation` (generator.dfy): `GenerateAutomat`. The random choices are a
  parameter.
- `Controllers` (controller.dfy): the UI controller's transition table.
- `Interact` (interact.dfy): `Trim`, and the `InteractComponent` class with
  `Process` and `MakeScreen`.
- `Converter` (converter.dfy): JSON conversion over a four-case JSON datatype.
- `Wrappers` (wrappers.dfy): `Option` and `Result`. A thrown `AutomatException`
  becomes a `Failure`.

How the model handles labels:

- `std::set<State>` keeps at most one symbol per label. The model therefore
  inserts and looks up by label (`SetInsert`, `SetContains`).
- The search is proved complete under `LabelKeyed`: labels are unique in a finite
  set that contains the initial state and is closed under the transitions.
- The product's pair labels are unique when no operand label contains the
  separator `_`. This holds for every generated machine, so the model proves it
  for every comparison the component actually makes.
- A `std::map<ControlPair, ...>` compares keys by the concatenation
  `state.id + signal.id`, so it is a map keyed by that string.

Where the code and its documentation disagree, the model follows the code. The
comment above the controller's constructor
(src/components/automat_interact_component.cpp:180-188) says that `compare` on the
`Comparison` screen stays on `Comparison`. The map in the code (lines 209-237)
has no entry for it, so the controller goes to `Error`.
`Controllers.DocumentedNextScreen` writes the comment's table down row by row.
`Controllers.TableMatchesDocumentation` proves that this is the only cell on the
five screens where the two tables differ.

## Model

| member | source | states |
|---|---|---|
| `Symbols.NullIsLeaf` | src/models/automat.hpp:38-39 | a default state or signal is the leaf labelled "null" with no sources, and it is no pair |
| `Symbols.PairDecomposes` | src/models/automat.cpp:8-18 | a pair is labelled `a.id + "_" + b.id` and has sources exactly `[a, b]`; two pairs are equal iff their operands are; a pair differs from the leaf that has its label |
| `Symbols.Equals` | src/models/automat.cpp:66-82 | the recursive comparison returns true iff the two symbols are structurally equal (label, length of the source list, sources pairwise) |
| `Symbols.NotEquals` | src/models/automat.cpp:84-86 | `!=` is true iff the symbols differ |
| `Symbols.EquivalentIffSameLabel` | src/models/automat.cpp:94-96 | neither symbol is `<` the other iff their labels are equal |
| `Symbols.LessIsStrictOrder` | src/models/automat.cpp:94-96 | the label order is irreflexive and transitive |
| `Symbols.LeafAndPairIndistinguishableByOrder` | src/models/automat.cpp:94-96 | a leaf and a pair with the same label are unequal, yet neither is `<` the other |
| `Symbols.ControlPairEquivalentIffSameKey` | src/models/automat.cpp:20-22 | control pairs are equivalent under their order iff `state.id + signal.id` agree; ("ab","c") and ("a","bc") collide |
| `Symbols.IsStable` | src/models/automat.cpp:88-92 | the adjacent-source comparison is true iff every source equals the first (so it is true with fewer than two sources) |
| `Symbols.PairStableIffEqual` | src/models/automat.cpp:88-92 | a pair is stable iff its two operands are equal; a leaf is stable |
| `Symbols.SetInsert` | src/models/automat.cpp:145 | inserting into a label-ordered set adds at most the new symbol, leaves its label present, and keeps labels unique |
| `Symbols.LabelOpsAreSetOps` | src/models/automat.cpp:141-145 | when labels are unique in a universe, contains-by-label is membership and insert-by-label is union |
| `Symbols.PairSetLabelKeyed` | src/models/automat.cpp:14-18 | the pairs of two sets with unique, separator-free labels have unique labels |
| `Machines.AutomatException.What` | src/models/automat.hpp:13-19 | `what()` returns the description the exception was built with |
| `Machines.MakeAutomat` | src/models/automat.hpp:53-61 | the five-argument constructor stores every field as given and leaves `current_state` empty |
| `Machines.DefaultAutomat` | src/models/automat.cpp:24-31 | the default machine has no signals and no states, the "null" initial state, and no current state |
| `Machines.ProductStep` | src/models/automat.cpp:54-61 | on `(pair(s1, s2), x)` the product returns `(pair(n1, n2), pair(o1, o2))` built from the operands' steps; that output is stable iff `o1 == o2` |
| `Runs.ProductDest` | src/models/automat.cpp:54-61 | on any word, the product run from `pair(s1, s2)` ends in the pair of the operands' end states |
| `Runs.ProductClosed` | src/models/automat.cpp:46-61 | the pairs of two closed state sets form a set closed under the product transition |
| `Runs.ReachableWithin` | src/models/automat.cpp:133-148 | any set that holds the initial state and is closed under steps holds every reachable state |
| `Runs.StableIffSameOutputs` | src/models/automat.cpp:154-161 | every reachable product output is stable iff the two machines emit the same output sequence on every input word |
| `Runs.SelfProductStable` | src/models/automat.cpp:126-162 | in `m * m` every reachable output is stable |
| `Automata.Product` | src/models/automat.cpp:33-64 | fails with "Input signals are unequal", or else with "Output signals are unequal", exactly when those alphabets differ. Otherwise: alphabets from `lhs`, initial `pair(i1, i2)`, the product transition, no current state, and as states every pair by label (all pairs when pair labels are unique) |
| `Automata.EnqueueSuccessors` | src/models/automat.cpp:139-144 | after the inner loop, every successor of the popped state is visited or queued, the queue only grew, and queued states are reachable |
| `Automata.VisitAdvances` | src/models/automat.cpp:136-146 | one pop-push-insert round keeps every successor of a visited state visited or queued, and decreases the termination measure |
| `Automata.ReachableStates` | src/models/automat.cpp:133-148 | the queue search terminates and visits exactly the reachable states, the initial one included |
| `Automata.AllOutputsStable` | src/models/automat.cpp:154-161 | the final loops return true iff every output from every state on every input is stable |
| `Automata.LabelCollisionHidesState` | src/models/automat.cpp:141-145 | in a product where `pair(a, b_c)` steps to `pair(a_b, c)`, two states share the label "a_b_c". The by-label insert drops the second, whose output alone is unstable, although the two machines differ on the word `x x` |
| `Automata.Equal` | src/models/automat.cpp:126-162 | propagates the product's failure exactly when the alphabets differ. Otherwise it returns true iff every reachable product output is stable, which holds iff the machines emit the same outputs on every input word |
| `Automata.PairBound` | src/models/automat.cpp:46-61 | the pairs of two closed sets hold the product's initial state and are closed under its transitions; their labels are unique when the operands' labels are unique and free of '_' |
| `Automata.DiagonalBound` | src/models/automat.cpp:54-61 | for `m * m`, the pairs `pair(s, s)` of a closed set hold the initial pair, are closed under the product transition, and have unique labels whenever the states do, with or without '_' |
| `Automata.EqualToItself` | src/models/automat.cpp:126-162 | every machine whose reachable states lie in a finite closed set with unique labels is equal to itself |
| `Generation.NatToStringInjective` | src/components/automat_interact_component.cpp:49-51 | distinct indices give distinct decimal numerals, so the inserted state labels are distinct |
| `Generation.GenStatesShape` | src/components/automat_interact_component.cpp:48-52 | the generated states have unique labels, none has '_' when the prefix has none, and `prefix + "0"` is among them when there is at least one |
| `Generation.CellKeysDistinct` | src/components/automat_interact_component.cpp:53-62 | two (state, input) cells with the same concatenated map key are the same cell |
| `Generation.InsertStates` | src/components/automat_interact_component.cpp:48-51 | the insertion loop yields exactly `{prefix + to_string(i) : i < count}` |
| `Generation.InsertCell` | src/components/automat_interact_component.cpp:56-60 | `mapper.insert` for a new cell stores the drawn value and leaves the later cells absent |
| `Generation.FillMapper` | src/components/automat_interact_component.cpp:53-62 | the nested loops store, for every state and input, the drawn next state and output under the cell's key |
| `Generation.GenerateAutomat` | src/components/automat_interact_component.cpp:37-67 | inputs {a, b}, outputs {0, 1}, states `prefix0..prefix(n-1)`, initial `prefix0`, no current state. Each state and input goes to the drawn next state (among the states) and the drawn output (among the outputs) |
| `Controllers.Controller` | src/components/automat_interact_component.cpp:196-208 | the constructor's controller has the four routes as inputs, the five screens as states, the five screen signals as outputs, the table's transition function, and starts in its initial state `Idle` |
| `Controllers.KeySplits` | src/components/automat_interact_component.cpp:92-98 | no screen name is a prefix of another, so `screen + route` determines both |
| `Controllers.ControllerFollowsTable` | src/components/automat_interact_component.cpp:209-237 | from every screen, on every route, the concatenation-keyed map gives the table's next screen, and the output has the same label |
| `Controllers.ControllerStaysOnScreens` | src/components/automat_interact_component.cpp:209-237 | on any pair the controller moves to one of the five screens and emits that screen's signal (`Error` when the key is absent) |
| `Controllers.EmptyRouteGoesIdle` | src/components/automat_interact_component.cpp:211-231 | the empty route leads to `(Idle, Idle)` from every screen |
| `Controllers.TableMatchesDocumentation` | src/components/automat_interact_component.cpp:180-237 | on every screen and route, the code's table and the controller itself agree with the independently written documented table, except on `compare` from `Comparison`, which the code sends to `Error` |
| `Interact.Trim` | src/components/automat_interact_component.cpp:17-35 | only `states` changes, and it becomes exactly the reachable states, the initial state included |
| `Interact.ReachableSetClosed` | src/components/automat_interact_component.cpp:17-35 | the reachable states contain the initial state and are closed under every step |
| `Interact.TrimIdempotent` | src/components/automat_interact_component.cpp:17-35 | a trimmed machine is a valid argument of `Trim` again, and trimming it keeps exactly its states |
| `Interact.ReadyBound` | src/components/automat_interact_component.cpp:266-271 | every machine the component holds (default or generated) has a closed search bound with unique, separator-free labels |
| `Interact.InteractComponent.constructor` | src/components/automat_interact_component.cpp:192-239 | the controller is built in state `Idle`; both machines are default; the component invariant holds |
| `Interact.InteractComponent.Process` | src/components/automat_interact_component.cpp:241-246 | `current_state` becomes the table's next screen and the table's output is returned; nothing else changes; the invariant is kept |
| `Interact.InteractComponent.MakeScreen` | src/components/automat_interact_component.cpp:248-271 | `Idle` shows the idle page. `Comparison` reports whether the two machines are equivalent, or fails exactly when their alphabets differ. `FirstAutomat` regenerates `automat1` ("q", 3 states) and `SecondAutomat` regenerates `automat2` ("S", 2 states) from the draws. Any other signal shows the error page. Nothing else changes |
| `Converter.SerializeSymbol` | src/converters/automat_converter.cpp:47-59 | a state or signal is written as a JSON string holding its label alone |
| `Converter.ParseSymbol` | src/converters/automat_converter.cpp:12-24 | a string is read as a leaf with that label, anything else as the default "null" symbol |
| `Converter.SymbolRoundTrip` | src/converters/automat_converter_test.cpp:6-30 | writing then reading keeps the label, and gives the symbol back iff it has no sources |
| `Converter.ConverterTests` | src/converters/automat_converter_test.cpp:6-30 | "something" and the default signal come back equal; the pair "id1_id2" comes back with its label, without its sources, and unequal |
| `Converter.PushLabels` | src/converters/automat_converter.cpp:65-73 | each loop over a set appends the labels of all its symbols, once each |
| `Converter.ListSymbols` | src/converters/automat_converter.cpp:65-73 | the `"states"` array is the state labels, then the input labels, then the output labels; it is empty iff all three sets are |
| `Converter.WriteRow` | src/converters/automat_converter.cpp:75-80 | the row of a state has one cell per input label, holding the next state's and the output's labels |
| `Converter.WriteTable` | src/converters/automat_converter.cpp:74-81 | the table has a row per state label (none without inputs), and with unique labels `table[s.id][x.id]` is the cell of `delta(s, x)` |
| `Converter.SerializeAutomat` | src/converters/automat_converter.cpp:61-83 | the object holds only `"initial_state"`, `"states"` (present iff some set is non-empty) and `"transition_function"` (present iff there are states and inputs), with every cell `{"state": next, "signal": output}` |
| `Converter.ParseSet` | src/converters/automat_converter.cpp:29-31 | an array read as a set of symbols holds exactly the parsed elements |
| `Converter.TableString` | src/converters/automat_converter.cpp:41-42 | a table lookup returns the string stored at `table[s][x][field]`, and `""` when that entry is absent or not a string |
| `Converter.ParseAutomat` | src/converters/automat_converter.cpp:26-45 | a non-object fails. Otherwise the parse fails, naming the first of `"state"`, `"output_signals"` and `"input_signals"` that is missing or not an array, exactly when one is. A parsed machine has no current state, and its initial state is the parsed `"initial_state"` (the "null" state when absent) |
| `Converter.ParsedTransitionsAreLeaves` | src/converters/automat_converter.cpp:32-43 | a parsed transition returns leaves, namely the ones named at `table[state.id][signal.id]` |
| `Converter.ParsedSets` | src/converters/automat_converter.cpp:29-31 | the parsed states, inputs and outputs are the parsed elements of `"state"`, `"input_signals"` and `"output_signals"` |
| `Converter.SerializedDoesNotParse` | src/converters/automat_converter.cpp:26-73 | an object with only the serialiser's keys fails to parse, because `"state"` is missing: the two are not inverses |
| `Converter.TableReadsBack` | src/converters/automat_converter.cpp:32-80 | reading a cell the serialiser wrote gives back the labels of the next state and of the output, as leaves |

## Left out

- The HTTP handler and the framework wiring: the userver components and logging.
  They are I/O plumbing. The model starts at `Process` and `MakeScreen`.
- HTML rendering is not modelled: the page template, the `Make*Screen` page
  builders, the Mermaid `AutomatDiagram` and the `operator<<` table printer. They
  only format strings. `MakeScreen` returns which page it shows, and for the
  comparison page only the verdict. The product and trimmed diagrams that page
  draws are left out.
- The `#ifdef DEBUG` printing in `operator==` is not modelled: it is output only.
- Randomness (`std::random_device`, `mt19937`) is not modelled. `GenerateAutomat`
  takes the draws as a parameter, one (next-state index, output index) pair per
  (state, input) cell.
- GenerateAutomat: the model numbers draws and states by the numeric index of
  the state. The source walks the states in label order and picks the k-th state
  in label order. The two agree for up to ten states, which covers the 3 and 2
  states the component uses. For more states they differ by a fixed renumbering
  of the draws.
- GenerateAutomat: `count` is unbounded here, while the source takes a
  `uint32_t`. The wrapped `count - 1` bound of the state distribution for
  `count == 0` is never sampled.
- ReachableStates: it requires a finite, closed bound with unique labels. Without
  one the source's loop may not terminate, and a visited label can hide a
  different state that has the same label. `Automata.LabelCollisionHidesState`
  exhibits the second case on two concrete machines whose labels contain '_'.
  Neither behaviour is otherwise modelled.
- Equal: it requires such a bound among the product's states. `PairBound` gives
  one for operands whose labels are free of '_', which covers every machine the
  component holds (`Interact.ReadyBound`); `DiagonalBound` gives one for `m * m`.
- Trim: it has the same requirement as `ReachableStates`.
- Product: the source's transition lambda captures its operands by reference. The
  model captures them by value. On a state with fewer than two sources the
  source's behaviour is undefined (it indexes the sources unchecked). The model
  returns the null pair there, which no run from a pair reaches.
- DefaultAutomat: in the source the default constructor assigns its transition
  lambda to a local variable that shadows the member. The member therefore stays
  an empty `std::function`, and calling it would throw. The model gives it a
  transition that returns the null pair, and no proved property depends on it.
- SerializeAutomat: the source writes the entries of each set in ascending label
  order, and the model in an unspecified order (`Enumerates`). The cell contents
  are stated for sets with unique labels, which every `std::set` has.
- ParseAutomat: the JSON library's own rules are assumed, not modelled. A missing
  or non-array set member is modelled as a failure, and a missing
  `"initial_state"` as the default state. The source parses the transition table
  again on every call and would throw there if the table were malformed. The
  model reads a missing or malformed entry as the empty string, which is what a
  missing entry gives through `unordered_map::operator[]`.
- InteractComponent.Process: it requires the component invariant, which includes
  a current state. The source dereferences the optional current state unchecked.
- Strings are sequences of Unicode characters here, while `std::string` holds
  bytes. The label order and the split at '_' agree under UTF-8, so no property
  of the core depends on the difference.
- The JSON value type is a four-case datatype, and numbers, booleans and null
  fall under `JOther`. The JSON library itself is not modelled.
- `tests/test_basic.py` is not modelled: it is a smoke test of the service's
  `/ping` route.
