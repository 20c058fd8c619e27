/** `GenerateAutomat` from components/automat_interact_component.cpp: a random
    machine over inputs {a, b} and outputs {0, 1} whose states are `prefix`
    followed by a decimal index.  The random choices are a parameter: one draw per
    (state, input) cell, holding the index of the next state and of the output. */
module Generation {
  import opened Wrappers
  import opened Symbols
  import opened Machines

  // ---------------------------------------------------------------------------
  // Decimal numerals (`std::to_string` on an unsigned value)

  function DigitChar(d: nat): (c: char)
    requires d < 10
    ensures '0' <= c <= '9' && c as int - '0' as int == d
  {
    "0123456789"[d]
  }

  function NatToString(n: nat): (s: string)
    ensures 1 <= |s| && (n < 10 <==> |s| == 1)
    ensures forall i :: 0 <= i < |s| ==> '0' <= s[i] <= '9'
    decreases n
  {
    if n < 10 then [DigitChar(n)] else NatToString(n / 10) + [DigitChar(n % 10)]
  }

  /** Distinct numbers have distinct numerals. */
  lemma {:induction false} NatToStringInjective(a: nat, b: nat)
    requires NatToString(a) == NatToString(b)
    ensures a == b
    decreases a
  {
    var s, t := NatToString(a), NatToString(b);
    if a >= 10 && b >= 10 {
      assert s[..|s| - 1] == NatToString(a / 10);
      assert t[..|t| - 1] == NatToString(b / 10);
      NatToStringInjective(a / 10, b / 10);
      assert DigitChar(a % 10) == s[|s| - 1] == DigitChar(b % 10);
    }
  }

  lemma ZeroNumeral()
    ensures NatToString(0) == "0"
  {
  }

  /** A numeral never contains the separator '_'. */
  lemma NumeralSeparatorFree(prefix: string, n: nat)
    requires '_' !in prefix
    ensures '_' !in prefix + NatToString(n)
  {
  }

  // ---------------------------------------------------------------------------
  // The shape of a generated machine

  const InputA: Signal := Leaf("a")
  const InputB: Signal := Leaf("b")
  const Output0: Signal := Leaf("0")
  const Output1: Signal := Leaf("1")

  /** The k-th input (and output) signal in the sets' label order. */
  function GenInput(k: nat): Signal
    requires k < 2
  {
    if k == 0 then InputA else InputB
  }

  function GenOutput(k: nat): Signal
    requires k < 2
  {
    if k == 0 then Output0 else Output1
  }

  /** `State(prefix + std::to_string(i))`. */
  function GenState(prefix: string, i: nat): State {
    Leaf(prefix + NatToString(i))
  }

  function GenStates(prefix: string, count: nat): set<State> {
    set i | 0 <= i < count :: GenState(prefix, i)
  }

  /** The key `state.id + signal.id` of the map cell for state i and input k. */
  function CellKey(prefix: string, i: nat, k: nat): string
    requires k < 2
  {
    PairKey((GenState(prefix, i), GenInput(k)))
  }

  /** The random choices: for each cell, numbered `2 * i + k` for state i and
      input k, the index of its next state (below `count`) and of its output
      (below 2). */
  predicate ValidDraws(count: nat, draws: seq<(nat, nat)>) {
    |draws| == 2 * count &&
    forall t :: 0 <= t < |draws| ==> draws[t].0 < count && draws[t].1 < 2
  }

  /** What every generated machine looks like, whatever the draws. */
  ghost predicate IsGenerated(m: Automat, prefix: string, count: nat) {
    && m.inputs == {InputA, InputB} && m.outputs == {Output0, Output1}
    && m.states == GenStates(prefix, count)
    && m.initial == Leaf(prefix + "0")
    && m.current == None
    && ClosedIn(m, m.states)
    && (forall s, x :: s in m.states && x in m.inputs ==> m.delta((s, x)).1 in m.outputs)
  }

  lemma GenStateLabels(prefix: string, i: nat, j: nat)
    ensures GenState(prefix, i).id == GenState(prefix, j).id ==> i == j
  {
    if GenState(prefix, i).id == GenState(prefix, j).id {
      assert NatToString(i) == (prefix + NatToString(i))[|prefix|..];
      assert NatToString(j) == (prefix + NatToString(j))[|prefix|..];
      NatToStringInjective(i, j);
    }
  }

  /** Generated states have distinct labels, so `count` of them are kept, and with
      a separator-free prefix none has a '_'. */
  lemma GenStatesShape(prefix: string, count: nat)
    ensures LabelKeyed(GenStates(prefix, count))
    ensures '_' !in prefix ==> SeparatorFree(GenStates(prefix, count))
    ensures count > 0 ==> Leaf(prefix + "0") in GenStates(prefix, count)
  {
    forall a, b | a in GenStates(prefix, count) && b in GenStates(prefix, count) && a.id == b.id
      ensures a == b
    {
      var i :| 0 <= i < count && a == GenState(prefix, i);
      var j :| 0 <= j < count && b == GenState(prefix, j);
      GenStateLabels(prefix, i, j);
    }
    if '_' !in prefix {
      forall x | x in GenStates(prefix, count)
        ensures '_' !in x.id
      {
        var i :| 0 <= i < count && x == GenState(prefix, i);
        NumeralSeparatorFree(prefix, i);
      }
    }
    if count > 0 {
      ZeroNumeral();
      assert GenState(prefix, 0) in GenStates(prefix, count);
    }
  }

  /** Distinct cells have distinct keys: the key ends in the input's letter,
      and what precedes it is the state's label. */
  lemma CellKeysDistinct(prefix: string, i: nat, k: nat, j: nat, l: nat)
    requires k < 2 && l < 2
    requires CellKey(prefix, i, k) == CellKey(prefix, j, l)
    ensures i == j && k == l
  {
    var u, v := CellKey(prefix, i, k), CellKey(prefix, j, l);
    assert u[|u| - 1] == GenInput(k).id[0] && v[|v| - 1] == GenInput(l).id[0];
    assert u[..|u| - 1] == GenState(prefix, i).id;
    assert v[..|v| - 1] == GenState(prefix, j).id;
    GenStateLabels(prefix, i, j);
  }

  /** The cell the draws assign to state i and input k. */
  function Cell(prefix: string, count: nat, draws: seq<(nat, nat)>, i: nat, k: nat): ControlPair
    requires ValidDraws(count, draws) && i < count && k < 2
  {
    (GenState(prefix, draws[2 * i + k].0), GenOutput(draws[2 * i + k].1))
  }

  /** The first loop: insert `prefix + to_string(i)` for every i below `count`. */
  method InsertStates(prefix: string, count: nat) returns (states: set<State>)
    ensures states == GenStates(prefix, count)
  {
    GenStatesShape(prefix, count);
    states := {};
    var i := 0;
    while i < count
      invariant 0 <= i <= count
      invariant states == GenStates(prefix, i)
    {
      LabelOpsAreSetOps(states, GenStates(prefix, count), GenState(prefix, i));
      states := SetInsert(states, GenState(prefix, i));
      i := i + 1;
    }
  }

  /** Cells `2 * j + l` below `done` are in the map with their drawn values and
      the cells from `done` on are not in it yet. */
  predicate FilledBelow(mapper: map<string, ControlPair>, prefix: string, count: nat,
                        draws: seq<(nat, nat)>, done: nat)
    requires ValidDraws(count, draws)
  {
    && (forall j, l :: 0 <= j < count && 0 <= l < 2 && 2 * j + l < done ==>
          CellKey(prefix, j, l) in mapper && mapper[CellKey(prefix, j, l)] == Cell(prefix, count, draws, j, l))
    && (forall j, l :: 0 <= j < count && 0 <= l < 2 && 2 * j + l >= done ==>
          CellKey(prefix, j, l) !in mapper)
  }

  /** One `mapper.insert` for state i and input k: the key is new, so the drawn
      cell is stored. */
  method InsertCell(mapper: map<string, ControlPair>, prefix: string, count: nat,
                    draws: seq<(nat, nat)>, i: nat, k: nat) returns (mapper': map<string, ControlPair>)
    requires ValidDraws(count, draws) && i < count && k < 2
    requires FilledBelow(mapper, prefix, count, draws, 2 * i + k)
    ensures FilledBelow(mapper', prefix, count, draws, 2 * i + k + 1)
  {
    mapper' := mapper;
    var key := PairKey((GenState(prefix, i), GenInput(k)));
    if key !in mapper {
      forall j, l | 0 <= j < count && 0 <= l < 2 && CellKey(prefix, j, l) == key
        ensures j == i && l == k
      {
        CellKeysDistinct(prefix, j, l, i, k);
      }
      mapper' := mapper[key := Cell(prefix, count, draws, i, k)];
    }
  }

  /** The nested loops over states and inputs filling the map. */
  method FillMapper(prefix: string, count: nat, draws: seq<(nat, nat)>) returns (mapper: map<string, ControlPair>)
    requires ValidDraws(count, draws)
    ensures forall i, k :: 0 <= i < count && 0 <= k < 2 ==>
              CellKey(prefix, i, k) in mapper && mapper[CellKey(prefix, i, k)] == Cell(prefix, count, draws, i, k)
  {
    mapper := map[];
    var i := 0;
    while i < count
      invariant 0 <= i <= count
      invariant FilledBelow(mapper, prefix, count, draws, 2 * i)
    {
      var k := 0;
      while k < 2
        invariant 0 <= k <= 2
        invariant FilledBelow(mapper, prefix, count, draws, 2 * i + k)
      {
        mapper := InsertCell(mapper, prefix, count, draws, i, k);
        k := k + 1;
      }
      i := i + 1;
    }
  }

  /** Build the machine: insert the `count` states, then for every state and input
      insert the drawn cell into a map keyed by `state.id + signal.id` (an
      existing key is kept); the transition function looks the pair's key up and
      returns the null pair when it is absent. */
  method GenerateAutomat(prefix: string, count: nat, draws: seq<(nat, nat)>) returns (m: Automat)
    requires ValidDraws(count, draws)
    ensures IsGenerated(m, prefix, count)
    ensures forall i, k :: 0 <= i < count && 0 <= k < 2 ==>
              m.delta((GenState(prefix, i), GenInput(k))) == Cell(prefix, count, draws, i, k)
  {
    var states := InsertStates(prefix, count);
    var mapper := FillMapper(prefix, count, draws);
    m := Automat({InputA, InputB}, states, Leaf(prefix + "0"),
                 (cp: ControlPair) => if PairKey(cp) in mapper then mapper[PairKey(cp)] else NullPair,
                 {Output0, Output1}, None);
    forall s, x | s in m.states && x in m.inputs
      ensures m.delta((s, x)).0 in m.states && m.delta((s, x)).1 in m.outputs
    {
      var j :| 0 <= j < count && s == GenState(prefix, j);
      var l := if x == InputA then 0 else 1;
      assert x == GenInput(l);
      assert m.delta((s, x)) == Cell(prefix, count, draws, j, l);
    }
  }
}
