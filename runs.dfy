/** Facts about runs: reachability stays inside any closed set of states, and the
    product machine runs its two operands in lockstep, so stability of every
    reachable product output is the same as equal outputs on every input word. */
module Runs {
  import opened Symbols
  import opened Machines

  lemma InitialReaches(delta: Transition, init: State, inputs: set<Signal>)
    ensures ReachesFrom(delta, init, inputs, init)
  {
    assert IsWord([], inputs) && Dest(delta, init, []) == init;
  }

  /** One step on an input from a reachable state reaches a reachable state. */
  lemma StepReaches(delta: Transition, init: State, inputs: set<Signal>, s: State, x: Signal)
    requires ReachesFrom(delta, init, inputs, s) && x in inputs
    ensures ReachesFrom(delta, init, inputs, delta((s, x)).0)
  {
    var w :| IsWord(w, inputs) && Dest(delta, init, w) == s;
    Extend(delta, init, w, x);
    assert IsWord(w + [x], inputs);
  }

  lemma {:induction false} DestInBound(delta: Transition, inputs: set<Signal>, init: State,
                                       bound: set<State>, w: seq<Signal>)
    requires init in bound && ClosedUnder(delta, inputs, bound) && IsWord(w, inputs)
    ensures Dest(delta, init, w) in bound
    decreases |w|
  {
    if |w| > 0 {
      var prefix := w[..|w| - 1];
      assert IsWord(prefix, inputs);
      DestInBound(delta, inputs, init, bound, prefix);
      assert w[|w| - 1] in inputs;
    }
  }

  /** A set that holds the initial state and is closed under steps holds every
      reachable state. */
  lemma ReachableWithin(delta: Transition, init: State, inputs: set<Signal>,
                        bound: set<State>, s: State)
    requires init in bound && ClosedUnder(delta, inputs, bound)
    requires ReachesFrom(delta, init, inputs, s)
    ensures s in bound
  {
    var w :| IsWord(w, inputs) && Dest(delta, init, w) == s;
    DestInBound(delta, inputs, init, bound, w);
  }

  // ---------------------------------------------------------------------------
  // The product runs its operands in lockstep

  /** Feeding a word to the product from `pair(s1, s2)` ends in the pair of the
      states each operand reaches on that word; in particular every state reached
      from a pair has two sources. */
  lemma {:induction false} ProductDest(l: Transition, r: Transition, s1: State, s2: State,
                                       w: seq<Signal>)
    ensures Dest(ProductDelta(l, r), Pair(s1, s2), w) == Pair(Dest(l, s1, w), Dest(r, s2, w))
    decreases |w|
  {
    if |w| > 0 {
      var prefix := w[..|w| - 1];
      ProductDest(l, r, s1, s2, prefix);
      ProductStep(l, r, Dest(l, s1, prefix), Dest(r, s2, prefix), w[|w| - 1]);
    }
  }

  /** The pairs of two closed sets form a closed set of the product. */
  lemma ProductClosed(l: Transition, r: Transition, inputs: set<Signal>,
                      lb: set<State>, rb: set<State>)
    requires ClosedUnder(l, inputs, lb) && ClosedUnder(r, inputs, rb)
    ensures ClosedUnder(ProductDelta(l, r), inputs, PairSet(lb, rb))
  {
    forall p, x | p in PairSet(lb, rb) && x in inputs
      ensures ProductDelta(l, r)((p, x)).0 in PairSet(lb, rb)
    {
      var s1, s2 :| s1 in lb && s2 in rb && p == Pair(s1, s2);
      ProductStep(l, r, s1, s2, x);
    }
  }

  /** Every output of the product, from every state reachable from the pair of
      the initial states, on every input, is stable. */
  ghost predicate ProductStable(lhs: Automat, rhs: Automat) {
    forall s, x ::
      ReachesFrom(ProductDelta(lhs.delta, rhs.delta), Pair(lhs.initial, rhs.initial), lhs.inputs, s) &&
      x in lhs.inputs ==>
        IsStable(ProductDelta(lhs.delta, rhs.delta)((s, x)).1)
  }

  lemma {:induction false} OutputsAgree(lhs: Automat, rhs: Automat, w: seq<Signal>)
    requires ProductStable(lhs, rhs) && IsWord(w, lhs.inputs)
    ensures Outputs(lhs.delta, lhs.initial, w) == Outputs(rhs.delta, rhs.initial, w)
    decreases |w|
  {
    if |w| > 0 {
      var prefix, x := w[..|w| - 1], w[|w| - 1];
      assert IsWord(prefix, lhs.inputs);
      OutputsAgree(lhs, rhs, prefix);
      var p := ProductDelta(lhs.delta, rhs.delta);
      var d1, d2 := Dest(lhs.delta, lhs.initial, prefix), Dest(rhs.delta, rhs.initial, prefix);
      ProductDest(lhs.delta, rhs.delta, lhs.initial, rhs.initial, prefix);
      assert ReachesFrom(p, Pair(lhs.initial, rhs.initial), lhs.inputs, Pair(d1, d2));
      assert x in lhs.inputs;
      ProductStep(lhs.delta, rhs.delta, d1, d2, x);
    }
  }

  /** Equal outputs on the word that reaches `s` followed by `x` make the
      product's output at `(s, x)` stable. */
  lemma StableAt(lhs: Automat, rhs: Automat, s: State, x: Signal, w: seq<Signal>)
    requires IsWord(w, lhs.inputs) && x in lhs.inputs
    requires Dest(ProductDelta(lhs.delta, rhs.delta), Pair(lhs.initial, rhs.initial), w) == s
    requires Outputs(lhs.delta, lhs.initial, w + [x]) == Outputs(rhs.delta, rhs.initial, w + [x])
    ensures IsStable(ProductDelta(lhs.delta, rhs.delta)((s, x)).1)
  {
    Extend(lhs.delta, lhs.initial, w, x);
    Extend(rhs.delta, rhs.initial, w, x);
    var d1, d2 := Dest(lhs.delta, lhs.initial, w), Dest(rhs.delta, rhs.initial, w);
    assert Outputs(lhs.delta, lhs.initial, w + [x])[|w|] == lhs.delta((d1, x)).1;
    assert Outputs(rhs.delta, rhs.initial, w + [x])[|w|] == rhs.delta((d2, x)).1;
    ProductDest(lhs.delta, rhs.delta, lhs.initial, rhs.initial, w);
    ProductStep(lhs.delta, rhs.delta, d1, d2, x);
  }

  lemma StableGivesSameOutputs(lhs: Automat, rhs: Automat)
    requires ProductStable(lhs, rhs)
    ensures SameOutputs(lhs, rhs)
  {
    forall w | IsWord(w, lhs.inputs)
      ensures Outputs(lhs.delta, lhs.initial, w) == Outputs(rhs.delta, rhs.initial, w)
    {
      OutputsAgree(lhs, rhs, w);
    }
  }

  lemma SameOutputsGiveStable(lhs: Automat, rhs: Automat)
    requires SameOutputs(lhs, rhs)
    ensures ProductStable(lhs, rhs)
  {
    var p := ProductDelta(lhs.delta, rhs.delta);
    var init := Pair(lhs.initial, rhs.initial);
    forall s, x | ReachesFrom(p, init, lhs.inputs, s) && x in lhs.inputs
      ensures IsStable(p((s, x)).1)
    {
      var w :| IsWord(w, lhs.inputs) && Dest(p, init, w) == s;
      assert IsWord(w + [x], lhs.inputs);
      StableAt(lhs, rhs, s, x, w);
    }
  }

  /** The equivalence criterion: all reachable product outputs are stable exactly
      when the two machines emit the same outputs on every input word. */
  lemma StableIffSameOutputs(lhs: Automat, rhs: Automat)
    ensures ProductStable(lhs, rhs) <==> SameOutputs(lhs, rhs)
  {
    if ProductStable(lhs, rhs) {
      StableGivesSameOutputs(lhs, rhs);
    }
    if SameOutputs(lhs, rhs) {
      SameOutputsGiveStable(lhs, rhs);
    }
  }

  /** A machine compared with itself: every reachable output of `m * m` is stable. */
  lemma SelfProductStable(m: Automat)
    ensures ProductStable(m, m)
  {
    StableIffSameOutputs(m, m);
  }
}
