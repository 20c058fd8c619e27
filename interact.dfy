/** `Trim` and the `InteractComponent` of components/automat_interact_component.cpp:
    the controller advanced by `Process`, and the two machines that `MakeScreen`
    regenerates and compares. */
module Interact {
  import opened Wrappers
  import opened Symbols
  import opened Machines
  import opened Runs
  import opened Automata
  import opened Generation
  import opened Controllers

  // ---------------------------------------------------------------------------
  // Trim

  /** `Trim`: keep only the states reachable from the initial state; the
      alphabets, the initial state and the transition function are untouched.
      (The search is the one `operator==` runs, see `ReachableStates`.) */
  method Trim(m: Automat, ghost bound: set<State>) returns (r: Automat)
    requires m.initial in bound && ClosedIn(m, bound) && LabelKeyed(bound)
    ensures r == m.(states := r.states)
    ensures forall s :: s in r.states <==> Reaches(m, s)
    ensures r.initial in r.states && LabelKeyed(r.states)
  {
    var visited := ReachableStates(m, bound);
    r := m.(states := visited);
  }

  /** The reachable states contain the initial state and are closed under every
      step. */
  lemma ReachableSetClosed(m: Automat, reach: set<State>)
    requires forall s :: s in reach <==> Reaches(m, s)
    ensures m.initial in reach && ClosedIn(m, reach)
  {
    InitialReaches(m.delta, m.initial, m.inputs);
    forall s, x | s in reach && x in m.inputs
      ensures m.delta((s, x)).0 in reach
    {
      StepReaches(m.delta, m.initial, m.inputs, s, x);
    }
  }

  /** Trimming is idempotent: a trimmed machine is a valid argument of `Trim` with
      its own states as the bound, and its reachable states are exactly those
      states, so trimming it again keeps them all. */
  lemma TrimIdempotent(m: Automat, r: Automat)
    requires r == m.(states := r.states) && LabelKeyed(r.states)
    requires forall s :: s in r.states <==> Reaches(m, s)
    ensures r.initial in r.states && ClosedIn(r, r.states) && LabelKeyed(r.states)
    ensures forall s :: s in r.states <==> Reaches(r, s)
  {
    ReachableSetClosed(m, r.states);
  }

  // ---------------------------------------------------------------------------
  // The component

  /** Which page `MakeScreen` renders (the HTML itself is not modelled); the
      comparison page carries the verdict of `automat1 == automat2`. */
  datatype Screen =
    | IdleScreen
    | ComparisonScreen(equal: bool)
    | FirstAutomatScreen
    | SecondAutomatScreen
    | ErrorScreen

  const FirstPrefix := "q"
  const FirstCount := 3
  const SecondPrefix := "S"
  const SecondCount := 2

  /** A machine the component can hold: the default one, or one generated with
      the given prefix and size. */
  ghost predicate Ready(m: Automat, prefix: string, count: nat) {
    m == DefaultAutomat() || IsGenerated(m, prefix, count)
  }

  /** A finite closed set for the search over a ready machine. */
  ghost function SearchBound(m: Automat): set<State> {
    if m.inputs == {} then {m.initial} else m.states
  }

  lemma ReadyBound(m: Automat, prefix: string, count: nat)
    requires Ready(m, prefix, count) && 0 < count && '_' !in prefix
    ensures m.initial in SearchBound(m) && ClosedIn(m, SearchBound(m))
    ensures LabelKeyed(SearchBound(m)) && SeparatorFree(SearchBound(m))
  {
    GenStatesShape(prefix, count);
  }

  class InteractComponent {
    var controller: Automat
    var automat1: Automat
    var automat2: Automat

    /** The controller is the constructor's machine sitting on one of its five
        screens, and each of the two machines is the default or a generated one. */
    ghost predicate Valid()
      reads this
    {
      && controller == Controller().(current := controller.current)
      && controller.current.Some? && controller.current.value in ScreenStates
      && Ready(automat1, FirstPrefix, FirstCount)
      && Ready(automat2, SecondPrefix, SecondCount)
    }

    constructor ()
      ensures Valid()
      ensures controller == Controller() && controller.current == Some(IdleState)
      ensures automat1 == DefaultAutomat() && automat2 == DefaultAutomat()
    {
      controller := Controller();
      automat1 := DefaultAutomat();
      automat2 := DefaultAutomat();
    }

    /** `Process`: feed the route to the controller, move it to the next state and
        return the output, which is the table's entry for the current screen and
        the route. */
    method Process(input: Signal) returns (output: Signal)
      requires Valid()
      modifies this
      ensures Valid()
      ensures controller == old(controller).(current := controller.current)
      ensures controller.current == Some(old(controller).delta((old(controller).current.value, input)).0)
      ensures output == old(controller).delta((old(controller).current.value, input)).1
      ensures controller.current == Some(Leaf(NextScreen(old(controller).current.value.id, input.id)))
      ensures output.id == NextScreen(old(controller).current.value.id, input.id)
      ensures automat1 == old(automat1) && automat2 == old(automat2)
    {
      ControllerFollowsTable(controller.current.value, input);
      var next := controller.delta((controller.current.value, input));
      controller := controller.(current := Some(next.0));
      output := next.1;
    }

    /** `MakeScreen`: dispatch on the controller's output.  `FirstAutomat`
        regenerates `automat1` from the draws ("q", 3 states), `SecondAutomat`
        regenerates `automat2` ("S", 2 states), `Comparison` compares the two
        (propagating the product's exception when their alphabets differ), and
        every other signal shows the error page; nothing else changes. */
    method MakeScreen(input: Signal, draws: seq<(nat, nat)>) returns (r: Result<Screen, AutomatException>)
      requires Valid()
      requires input == FirstSignal ==> ValidDraws(FirstCount, draws)
      requires input == SecondSignal ==> ValidDraws(SecondCount, draws)
      modifies this
      ensures Valid() && controller == old(controller)
      ensures input == IdleSignal ==> r == Success(IdleScreen)
      ensures input == ComparisonSignal ==>
                (r.Failure? <==> automat1.inputs != automat2.inputs) &&
                (r.Success? ==> r.value.ComparisonScreen? &&
                                (r.value.equal <==> SameOutputs(automat1, automat2)))
      ensures input == FirstSignal ==>
                r == Success(FirstAutomatScreen) && automat2 == old(automat2) &&
                IsGenerated(automat1, FirstPrefix, FirstCount) &&
                forall i, k :: 0 <= i < FirstCount && 0 <= k < 2 ==>
                  automat1.delta((GenState(FirstPrefix, i), GenInput(k))) ==
                  Cell(FirstPrefix, FirstCount, draws, i, k)
      ensures input == SecondSignal ==>
                r == Success(SecondAutomatScreen) && automat1 == old(automat1) &&
                IsGenerated(automat2, SecondPrefix, SecondCount) &&
                forall i, k :: 0 <= i < SecondCount && 0 <= k < 2 ==>
                  automat2.delta((GenState(SecondPrefix, i), GenInput(k))) ==
                  Cell(SecondPrefix, SecondCount, draws, i, k)
      ensures input != FirstSignal && input != SecondSignal ==>
                automat1 == old(automat1) && automat2 == old(automat2)
      ensures input !in {IdleSignal, ComparisonSignal, FirstSignal, SecondSignal} ==>
                r == Success(ErrorScreen)
    {
      var isIdle := Equals(input, IdleSignal);
      if isIdle {
        return Success(IdleScreen);
      }
      var isComparison := Equals(input, ComparisonSignal);
      if isComparison {
        ghost var lb, rb := SearchBound(automat1), SearchBound(automat2);
        ReadyBound(automat1, FirstPrefix, FirstCount);
        ReadyBound(automat2, SecondPrefix, SecondCount);
        assert automat1.outputs == {} <==> automat1.inputs == {};
        if automat1.inputs == automat2.inputs {
          PairBound(automat1, automat2, lb, rb);
        }
        var equal := Equal(automat1, automat2, PairSet(lb, rb));
        if equal.Failure? {
          return Failure(equal.error);
        }
        return Success(ComparisonScreen(equal.value));
      }
      var isFirst := Equals(input, FirstSignal);
      if isFirst {
        automat1 := GenerateAutomat(FirstPrefix, FirstCount, draws);
        return Success(FirstAutomatScreen);
      }
      var isSecond := Equals(input, SecondSignal);
      if isSecond {
        automat2 := GenerateAutomat(SecondPrefix, SecondCount, draws);
        return Success(SecondAutomatScreen);
      }
      return Success(ErrorScreen);
    }
  }
}
