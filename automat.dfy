/** The operations of models/automat.cpp that work step by step: the product
    `lhs * rhs`, the breadth-first search for reachable states, and the
    equivalence check `lhs == rhs`. */
module Automata {
  import opened Wrappers
  import opened Symbols
  import opened Machines
  import opened Runs

  const InputsUnequal: string := "Input signals are unequal"
  const OutputsUnequal: string := "Output signals are unequal"

  /** `lhs * rhs`: fails when the input alphabets differ, then when the output
      alphabets differ.  Otherwise the product has the alphabets of `lhs`, the pair
      of the initial states, the product transition, and every pair of an `lhs`
      state with an `rhs` state, inserted into a set ordered by label (so pairs
      that share a label are kept once; when no two pairs share a label, the
      states are exactly all the pairs). */
  method Product(lhs: Automat, rhs: Automat) returns (r: Result<Automat, AutomatException>)
    ensures lhs.inputs != rhs.inputs ==> r == Failure(AutomatException(InputsUnequal))
    ensures lhs.inputs == rhs.inputs && lhs.outputs != rhs.outputs ==>
              r == Failure(AutomatException(OutputsUnequal))
    ensures lhs.inputs == rhs.inputs && lhs.outputs == rhs.outputs ==> r.Success?
    ensures r.Success? ==>
              && r.value.inputs == lhs.inputs && r.value.outputs == lhs.outputs
              && r.value.initial == Pair(lhs.initial, rhs.initial)
              && r.value.delta == ProductDelta(lhs.delta, rhs.delta)
              && r.value.current == None
    ensures r.Success? ==>
              && r.value.states <= PairSet(lhs.states, rhs.states)
              && LabelKeyed(r.value.states)
              && (forall s1, s2 :: s1 in lhs.states && s2 in rhs.states ==>
                    SetContains(r.value.states, Pair(s1, s2)))
    ensures r.Success? && LabelKeyed(PairSet(lhs.states, rhs.states)) ==>
              r.value.states == PairSet(lhs.states, rhs.states)
  {
    if lhs.inputs != rhs.inputs {
      return Failure(AutomatException(InputsUnequal));
    }
    if lhs.outputs != rhs.outputs {
      return Failure(AutomatException(OutputsUnequal));
    }
    var states: set<State> := {};
    var rest1 := lhs.states;
    while rest1 != {}
      invariant rest1 <= lhs.states
      invariant states <= PairSet(lhs.states, rhs.states) && LabelKeyed(states)
      invariant forall s1, s2 :: s1 in lhs.states - rest1 && s2 in rhs.states ==>
                  SetContains(states, Pair(s1, s2))
      decreases rest1
    {
      var s1 :| s1 in rest1;
      rest1 := rest1 - {s1};
      var rest2 := rhs.states;
      while rest2 != {}
        invariant rest2 <= rhs.states
        invariant states <= PairSet(lhs.states, rhs.states) && LabelKeyed(states)
        invariant forall a, b :: a in lhs.states - rest1 - {s1} && b in rhs.states ==>
                    SetContains(states, Pair(a, b))
        invariant forall b :: b in rhs.states - rest2 ==> SetContains(states, Pair(s1, b))
        decreases rest2
      {
        var s2 :| s2 in rest2;
        rest2 := rest2 - {s2};
        ghost var before := states;
        states := SetInsert(states, Pair(s1, s2));
        ContainsGrows(before, states);
      }
    }
    var product := Automat(lhs.inputs, states, Pair(lhs.initial, rhs.initial),
                           ProductDelta(lhs.delta, rhs.delta), lhs.outputs, None);
    if LabelKeyed(PairSet(lhs.states, rhs.states)) {
      forall p | p in PairSet(lhs.states, rhs.states)
        ensures p in states
      {
        var s1, s2 :| s1 in lhs.states && s2 in rhs.states && p == Pair(s1, s2);
        assert SetContains(states, Pair(s1, s2));
      }
    }
    return Success(product);
  }

  /** What a set contains by label, a larger set contains too. */
  lemma ContainsGrows(small: set<Symbol>, large: set<Symbol>)
    requires small <= large
    ensures forall x :: SetContains(small, x) ==> SetContains(large, x)
  {
  }

  // ---------------------------------------------------------------------------
  // Breadth-first search

  /** How many entries of `queue` are already in `visited`. */
  function VisitedCount(queue: seq<State>, visited: set<State>): nat {
    if |queue| == 0 then 0
    else (if queue[0] in visited then 1 else 0) + VisitedCount(queue[1..], visited)
  }

  lemma {:induction false} VisitedCountAppend(queue: seq<State>, visited: set<State>, y: State)
    ensures VisitedCount(queue + [y], visited) ==
            VisitedCount(queue, visited) + (if y in visited then 1 else 0)
  {
    if |queue| > 0 {
      assert (queue + [y])[1..] == queue[1..] + [y];
      VisitedCountAppend(queue[1..], visited, y);
    }
  }

  /** The inner loop of the search: for every input, push the successor of
      `state` unless a state with its label has been visited.  Every successor
      ends up visited or queued, the queue only grows, what it holds stays
      reachable, and none of the pushed states has been visited. */
  method EnqueueSuccessors(m: Automat, ghost bound: set<State>, visited: set<State>,
                           state: State, queue: seq<State>) returns (queue': seq<State>)
    requires ClosedIn(m, bound) && LabelKeyed(bound) && visited <= bound
    requires state in bound && Reaches(m, state)
    requires forall q :: q in queue ==> q in bound && Reaches(m, q)
    ensures forall q :: q in queue' ==> q in bound && Reaches(m, q)
    ensures forall q :: q in queue ==> q in queue'
    ensures forall x :: x in m.inputs ==>
              m.delta((state, x)).0 in visited || m.delta((state, x)).0 in queue'
    ensures VisitedCount(queue', visited) == VisitedCount(queue, visited)
  {
    queue' := queue;
    var pending := m.inputs;
    while pending != {}
      invariant pending <= m.inputs
      invariant forall q :: q in queue' ==> q in bound && Reaches(m, q)
      invariant forall q :: q in queue ==> q in queue'
      invariant forall x :: x in m.inputs - pending ==>
                  m.delta((state, x)).0 in visited || m.delta((state, x)).0 in queue'
      invariant VisitedCount(queue', visited) == VisitedCount(queue, visited)
      decreases pending
    {
      var x :| x in pending;
      pending := pending - {x};
      var next := m.delta((state, x)).0;
      StepReaches(m.delta, m.initial, m.inputs, state, x);
      LabelOpsAreSetOps(visited, bound, next);
      if !SetContains(visited, next) {
        VisitedCountAppend(queue', visited, next);
        queue' := queue' + [next];
      }
    }
  }

  /** The search shared by `Trim` and `operator==`: start a queue at the initial
      state; pop a state, push each successor (over every input) whose label has
      not been visited, then mark the popped state visited; stop when the queue is
      empty.  A state can be queued several times before it is first popped.

      The search terminates when the reachable states lie inside a finite set
      `bound` closed under the transition function, and when labels are unique
      in `bound` (lookups in the visited set go by label), it finds exactly the
      reachable states. */
  method ReachableStates(m: Automat, ghost bound: set<State>) returns (visited: set<State>)
    requires m.initial in bound && ClosedIn(m, bound) && LabelKeyed(bound)
    ensures forall s :: s in visited <==> Reaches(m, s)
    ensures m.initial in visited && visited <= bound && LabelKeyed(visited)
  {
    visited := {};
    var queue := [m.initial];
    InitialReaches(m.delta, m.initial, m.inputs);
    while queue != []
      invariant visited <= bound
      invariant forall q :: q in queue ==> q in bound && Reaches(m, q)
      invariant forall s :: s in visited ==> Reaches(m, s)
      invariant m.initial in visited || m.initial in queue
      invariant Frontier(m, visited, queue)
      decreases |bound - visited|, VisitedCount(queue, visited)
    {
      ghost var queued := queue;
      var state := queue[0];
      queue := EnqueueSuccessors(m, bound, visited, state, queue[1..]);
      LabelOpsAreSetOps(visited, bound, state);
      VisitAdvances(m, bound, visited, queued, queue);
      visited := SetInsert(visited, state);
    }
    forall s | Reaches(m, s)
      ensures s in visited
    {
      ReachableWithin(m.delta, m.initial, m.inputs, visited, s);
    }
  }

  /** Every successor of a visited state is visited or queued. */
  predicate Frontier(m: Automat, visited: set<State>, queue: seq<State>) {
    forall v, x :: v in visited && x in m.inputs ==>
      m.delta((v, x)).0 in visited || m.delta((v, x)).0 in queue
  }

  /** Popping `queued[0]`, queuing its successors and marking it visited keeps
      the frontier and either grows the visited set inside `bound` or, when the
      popped state was already visited, shortens the queue's visited part. */
  lemma VisitAdvances(m: Automat, bound: set<State>, visited: set<State>,
                      queued: seq<State>, queue: seq<State>)
    requires |queued| > 0 && queued[0] in bound && visited <= bound
    requires Frontier(m, visited, queued)
    requires forall q :: q in queued[1..] ==> q in queue
    requires forall x :: x in m.inputs ==>
               m.delta((queued[0], x)).0 in visited || m.delta((queued[0], x)).0 in queue
    requires VisitedCount(queue, visited) == VisitedCount(queued[1..], visited)
    ensures Frontier(m, visited + {queued[0]}, queue)
    ensures |bound - (visited + {queued[0]})| < |bound - visited| ||
            (visited + {queued[0]} == visited &&
             VisitedCount(queue, visited) < VisitedCount(queued, visited))
  {
    var state := queued[0];
    assert forall q :: q in queued ==> q == state || q in queued[1..];
    if state !in visited {
      assert bound - (visited + {state}) == (bound - visited) - {state};
    }
  }

  /** Two machines over the input `x` whose product meets two different pair
      states with one label: `a -x/0-> a_b -x/0-> a` and `b_c -x/0-> c -x/1-> b_c`. */
  function CollisionLeft(): Automat {
    Automat({Leaf("x")}, {Leaf("a"), Leaf("a_b")}, Leaf("a"),
            (cp: ControlPair) => if cp.0 == Leaf("a") then (Leaf("a_b"), Leaf("0")) else (Leaf("a"), Leaf("0")),
            {Leaf("0"), Leaf("1")}, None)
  }

  function CollisionRight(): Automat {
    Automat({Leaf("x")}, {Leaf("b_c"), Leaf("c")}, Leaf("b_c"),
            (cp: ControlPair) => if cp.0 == Leaf("b_c") then (Leaf("c"), Leaf("0")) else (Leaf("b_c"), Leaf("1")),
            {Leaf("0"), Leaf("1")}, None)
  }

  /** Why the search needs unique labels.  In the product of the two machines
      above, `pair(a, b_c)` steps to `pair(a_b, c)`, a different state with the
      same label "a_b_c".  After the first state is visited, the by-label insert
      drops the second, so the search keeps only `pair(a, b_c)`, whose output is
      stable; the dropped state's output is not.  Yet the machines differ on the
      word `x x`, so a search keyed by label reports them equal. */
  lemma LabelCollisionHidesState()
    ensures var p0, p1 := Pair(Leaf("a"), Leaf("b_c")), Pair(Leaf("a_b"), Leaf("c"));
            var step := ProductDelta(CollisionLeft().delta, CollisionRight().delta);
            && p0 != p1 && p0.id == p1.id
            && step((p0, Leaf("x"))).0 == p1 && step((p1, Leaf("x"))).0 == p0
            && ReachesFrom(step, p0, {Leaf("x")}, p1)
            && SetInsert({p0}, p1) == {p0}
            && IsStable(step((p0, Leaf("x"))).1) && !IsStable(step((p1, Leaf("x"))).1)
            && !SameOutputs(CollisionLeft(), CollisionRight())
  {
    var p0, p1 := Pair(Leaf("a"), Leaf("b_c")), Pair(Leaf("a_b"), Leaf("c"));
    var l, r := CollisionLeft(), CollisionRight();
    var x := Leaf("x");
    var step := ProductDelta(l.delta, r.delta);
    assert p0.id == p1.id;
    ProductStep(l.delta, r.delta, Leaf("a"), Leaf("b_c"), x);
    ProductStep(l.delta, r.delta, Leaf("a_b"), Leaf("c"), x);
    assert Dest(step, p0, [x]) == p1 by {
      assert [x][..0] == [];
    }
    assert IsWord([x], {x});
    var w := [x, x];
    assert w[..1] == [x] && [x][..0] == [];
    assert Dest(l.delta, l.initial, [x]) == Leaf("a_b");
    assert Dest(r.delta, r.initial, [x]) == Leaf("c");
    assert Outputs(l.delta, l.initial, w)[1] == Leaf("0");
    assert Outputs(r.delta, r.initial, w)[1] == Leaf("1");
    assert IsWord(w, l.inputs);
  }

  // ---------------------------------------------------------------------------
  // Equivalence

  /** `lhs == rhs`: form the product (propagating its failure), keep the states
      the search reaches, and report whether every output from a kept state on
      every input is stable.  That answer is exactly whether the two machines emit
      the same outputs on every input word.

      The search needs a finite set of product states holding the pair of the
      initial states, closed under the product's transitions, and with unique
      labels (`PairBound` and `DiagonalBound` give two such sets). */
  method Equal(lhs: Automat, rhs: Automat, ghost pb: set<State>)
    returns (r: Result<bool, AutomatException>)
    requires lhs.inputs == rhs.inputs && lhs.outputs == rhs.outputs ==>
               && Pair(lhs.initial, rhs.initial) in pb
               && ClosedUnder(ProductDelta(lhs.delta, rhs.delta), lhs.inputs, pb)
               && LabelKeyed(pb)
    ensures lhs.inputs != rhs.inputs ==> r == Failure(AutomatException(InputsUnequal))
    ensures lhs.inputs == rhs.inputs && lhs.outputs != rhs.outputs ==>
              r == Failure(AutomatException(OutputsUnequal))
    ensures lhs.inputs == rhs.inputs && lhs.outputs == rhs.outputs ==> r.Success?
    ensures r.Success? ==> (r.value <==> ProductStable(lhs, rhs))
    ensures r.Success? ==> (r.value <==> SameOutputs(lhs, rhs))
  {
    var merged := Product(lhs, rhs);
    if merged.Failure? {
      return Failure(merged.error);
    }
    var product := merged.value;
    var visited := ReachableStates(product, pb);
    product := product.(states := visited);
    var stable := AllOutputsStable(product);
    StableIffSameOutputs(lhs, rhs);
    return Success(stable);
  }

  /** The pairs of two closed sets bound the product's search; their labels are
      unique when the operands' labels are unique and free of '_'. */
  lemma PairBound(lhs: Automat, rhs: Automat, lb: set<State>, rb: set<State>)
    requires lhs.inputs == rhs.inputs
    requires lhs.initial in lb && ClosedIn(lhs, lb) && rhs.initial in rb && ClosedIn(rhs, rb)
    ensures Pair(lhs.initial, rhs.initial) in PairSet(lb, rb)
    ensures ClosedUnder(ProductDelta(lhs.delta, rhs.delta), lhs.inputs, PairSet(lb, rb))
    ensures LabelKeyed(lb) && LabelKeyed(rb) && SeparatorFree(lb) && SeparatorFree(rb) ==>
              LabelKeyed(PairSet(lb, rb))
  {
    ProductClosed(lhs.delta, rhs.delta, lhs.inputs, lb, rb);
    if LabelKeyed(lb) && LabelKeyed(rb) && SeparatorFree(lb) && SeparatorFree(rb) {
      PairSetLabelKeyed(lb, rb);
    }
  }

  /** The pairs `pair(s, s)` of the states of a bound. */
  function Diagonal(bound: set<State>): set<State> {
    set s | s in bound :: Pair(s, s)
  }

  /** A machine run against itself only ever meets pairs `pair(s, s)`, and these
      have unique labels whenever the states do: `s.id + "_" + s.id` determines
      `s.id`, whatever characters it holds. */
  lemma DiagonalBound(m: Automat, bound: set<State>)
    requires m.initial in bound && ClosedIn(m, bound) && LabelKeyed(bound)
    ensures Pair(m.initial, m.initial) in Diagonal(bound)
    ensures ClosedUnder(ProductDelta(m.delta, m.delta), m.inputs, Diagonal(bound))
    ensures LabelKeyed(Diagonal(bound))
  {
    forall p, x | p in Diagonal(bound) && x in m.inputs
      ensures ProductDelta(m.delta, m.delta)((p, x)).0 in Diagonal(bound)
    {
      var s :| s in bound && p == Pair(s, s);
      ProductStep(m.delta, m.delta, s, s, x);
      assert m.delta((s, x)).0 in bound;
    }
    forall p, q | p in Diagonal(bound) && q in Diagonal(bound) && p.id == q.id
      ensures p == q
    {
      var s :| s in bound && p == Pair(s, s);
      var t :| t in bound && q == Pair(t, t);
      assert |s.id| == |t.id|;
      assert s.id == p.id[..|s.id|] && t.id == q.id[..|t.id|];
    }
  }

  /** Every machine is equal to itself (given a bound for its own search). */
  method EqualToItself(m: Automat, ghost bound: set<State>) returns (r: Result<bool, AutomatException>)
    requires m.initial in bound && ClosedIn(m, bound) && LabelKeyed(bound)
    ensures r == Success(true)
  {
    DiagonalBound(m, bound);
    r := Equal(m, m, Diagonal(bound));
    SelfProductStable(m);
  }

  /** The final loops of `operator==`: every output from every state on every
      input is stable (the loop stops at the first unstable one). */
  method AllOutputsStable(m: Automat) returns (stable: bool)
    ensures stable <==> forall s, x :: s in m.states && x in m.inputs ==> IsStable(m.delta((s, x)).1)
  {
    var rest := m.states;
    while rest != {}
      invariant rest <= m.states
      invariant forall s, x :: s in m.states - rest && x in m.inputs ==> IsStable(m.delta((s, x)).1)
      decreases rest
    {
      var s :| s in rest;
      rest := rest - {s};
      var pending := m.inputs;
      while pending != {}
        invariant pending <= m.inputs
        invariant forall x :: x in m.inputs - pending ==> IsStable(m.delta((s, x)).1)
        decreases pending
      {
        var x :| x in pending;
        pending := pending - {x};
        if !IsStable(m.delta((s, x)).1) {
          return false;
        }
      }
    }
    return true;
  }
}
