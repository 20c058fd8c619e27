/** The Mealy machine `Automat` and its product transition (models/automat.hpp,
    models/automat.cpp), with the runs of a machine over input words that give the
    reachability and equivalence operations their meaning. */
module Machines {
  import opened Wrappers
  import opened Symbols

  /** `AutomatException`: an error carrying a description. */
  datatype AutomatException = AutomatException(description: string) {
    /** `what()`: the description the exception was built with. */
    function What(): (r: string)
      ensures r == description
    {
      description
    }
  }

  /** A transition function: (state, input) to (next state, output). */
  type Transition = ControlPair -> ControlPair

  /** `Automat`: input and output alphabets, states, the initial state, the
      transition function, and the state a running controller is in.  The
      transition function is held by value. */
  datatype Automat = Automat(
    inputs: set<Signal>,
    states: set<State>,
    initial: State,
    delta: Transition,
    outputs: set<Signal>,
    current: Option<State>)

  /** The pair returned for a default `ControlPair(State(), Signal())`. */
  const NullPair: ControlPair := (Null, Null)

  /** The five-argument constructor: stores each argument in its field and leaves
      `current_state` empty. */
  function MakeAutomat(inputs: set<Signal>, states: set<State>, initial: State,
                       delta: Transition, outputs: set<Signal>): (m: Automat)
    ensures m.inputs == inputs && m.states == states && m.initial == initial
    ensures m.delta == delta && m.outputs == outputs && m.current == None
  {
    Automat(inputs, states, initial, delta, outputs, None)
  }

  /** The default constructor `Automat()`: no signals, no states, the "null"
      initial state, no current state.  (Its transition function is never set in
      the source; here it returns the null pair.) */
  function DefaultAutomat(): (m: Automat)
    ensures m.inputs == {} && m.states == {} && m.outputs == {}
    ensures m.initial == Null && m.initial.id == "null" && m.current == None
  {
    Automat({}, {}, Null, (cp: ControlPair) => NullPair, {}, None)
  }

  // ---------------------------------------------------------------------------
  // The product's transition function

  /** The transition of `lhs * rhs` on a composite state: split the state into
      its first two sources, step each operand on the same input, and pair the two
      next states and the two outputs.  The source indexes the first two sources
      unchecked, so a state must have at least two. */
  function ProductTransition(l: Transition, r: Transition, cp: ControlPair): ControlPair
    requires |cp.0.sources| >= 2
  {
    var first := l((cp.0.sources[0], cp.1));
    var second := r((cp.0.sources[1], cp.1));
    (Pair(first.0, second.0), Pair(first.1, second.1))
  }

  /** The product transition as a function value, capturing both operands'
      transition functions by value.  On a state with fewer than two sources the
      source's behaviour is undefined; that case returns the null pair here and
      never arises from the product's initial state (see `ProductDest`). */
  function ProductDelta(l: Transition, r: Transition): Transition {
    (cp: ControlPair) => if |cp.0.sources| >= 2 then ProductTransition(l, r, cp) else NullPair
  }

  /** One product step from `pair(s1, s2)` on input `x` yields
      `(pair(n1, n2), pair(o1, o2))` where `(n1, o1)` and `(n2, o2)` are the
      operands' steps, and its output is stable exactly when `o1 == o2`. */
  lemma ProductStep(l: Transition, r: Transition, s1: State, s2: State, x: Signal)
    ensures ProductDelta(l, r)((Pair(s1, s2), x)) ==
            (Pair(l((s1, x)).0, r((s2, x)).0), Pair(l((s1, x)).1, r((s2, x)).1))
    ensures IsStable(ProductDelta(l, r)((Pair(s1, s2), x)).1) <==> l((s1, x)).1 == r((s2, x)).1
  {
    PairStableIffEqual(l((s1, x)).1, r((s2, x)).1);
  }

  // ---------------------------------------------------------------------------
  // Runs over input words

  /** Every letter of `w` is in `alphabet`. */
  predicate IsWord(w: seq<Signal>, alphabet: set<Signal>) {
    forall i :: 0 <= i < |w| ==> w[i] in alphabet
  }

  /** The state reached from `s` by feeding the letters of `w` in order. */
  function Dest(delta: Transition, s: State, w: seq<Signal>): State
    decreases |w|
  {
    if |w| == 0 then s else delta((Dest(delta, s, w[..|w| - 1]), w[|w| - 1])).0
  }

  /** The outputs emitted while feeding `w` from `s`, one per letter. */
  function Outputs(delta: Transition, s: State, w: seq<Signal>): (out: seq<Signal>)
    ensures |out| == |w|
    decreases |w|
  {
    if |w| == 0 then []
    else Outputs(delta, s, w[..|w| - 1]) + [delta((Dest(delta, s, w[..|w| - 1]), w[|w| - 1])).1]
  }

  /** Extending a word by one letter takes one more step and emits one more output. */
  lemma Extend(delta: Transition, s: State, w: seq<Signal>, x: Signal)
    ensures Dest(delta, s, w + [x]) == delta((Dest(delta, s, w), x)).0
    ensures Outputs(delta, s, w + [x]) == Outputs(delta, s, w) + [delta((Dest(delta, s, w), x)).1]
  {
    assert (w + [x])[..|w|] == w;
  }

  /** `s` is reached from `init` by some word over `inputs`. */
  ghost predicate ReachesFrom(delta: Transition, init: State, inputs: set<Signal>, s: State) {
    exists w :: IsWord(w, inputs) && Dest(delta, init, w) == s
  }

  /** `s` is reachable in `m` from its initial state. */
  ghost predicate Reaches(m: Automat, s: State) {
    ReachesFrom(m.delta, m.initial, m.inputs, s)
  }

  /** Every step from a state of `bound` on an input stays in `bound`. */
  predicate ClosedUnder(delta: Transition, inputs: set<Signal>, bound: set<State>) {
    forall s, x :: s in bound && x in inputs ==> delta((s, x)).0 in bound
  }

  predicate ClosedIn(m: Automat, bound: set<State>) {
    ClosedUnder(m.delta, m.inputs, bound)
  }

  /** The two machines emit the same outputs on every input word (of `lhs`). */
  ghost predicate SameOutputs(lhs: Automat, rhs: Automat) {
    forall w :: IsWord(w, lhs.inputs) ==>
      Outputs(lhs.delta, lhs.initial, w) == Outputs(rhs.delta, rhs.initial, w)
  }
}
