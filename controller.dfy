/** The hand-written Mealy machine that drives the user interface
    (components/automat_interact_component.cpp): five screens, four routes, and a
    transition table held in a map keyed by `ControlPair`, whose order compares
    the concatenation `state.id + signal.id`. */
module Controllers {
  import opened Wrappers
  import opened Symbols
  import opened Machines

  const IdleName := "Idle"
  const FirstName := "FirstAutomat"
  const SecondName := "SecondAutomat"
  const ComparisonName := "Comparison"
  const ErrorName := "Error"

  /** States and signals carry the same five labels. */
  const IdleState: State := Leaf(IdleName)
  const FirstState: State := Leaf(FirstName)
  const SecondState: State := Leaf(SecondName)
  const ComparisonState: State := Leaf(ComparisonName)
  const ErrorState: State := Leaf(ErrorName)

  const IdleSignal: Signal := Leaf(IdleName)
  const FirstSignal: Signal := Leaf(FirstName)
  const SecondSignal: Signal := Leaf(SecondName)
  const ComparisonSignal: Signal := Leaf(ComparisonName)
  const ErrorSignal: Signal := Leaf(ErrorName)

  const EmptyRoute := ""
  const GenerateRoute := "generate"
  const RegenerateRoute := "regenerate"
  const CompareRoute := "compare"

  const ScreenNames: set<string> := {IdleName, FirstName, SecondName, ComparisonName, ErrorName}

  const ScreenStates: set<State> := {IdleState, FirstState, SecondState, ComparisonState, ErrorState}

  /** The ten entries of the map, each under the key the map's order sees. */
  function ControllerMapping(): map<string, ControlPair> {
    map[
      PairKey((IdleState, Leaf(EmptyRoute))) := (IdleState, IdleSignal),
      PairKey((IdleState, Leaf(GenerateRoute))) := (FirstState, FirstSignal),
      PairKey((FirstState, Leaf(EmptyRoute))) := (IdleState, IdleSignal),
      PairKey((FirstState, Leaf(RegenerateRoute))) := (FirstState, FirstSignal),
      PairKey((FirstState, Leaf(GenerateRoute))) := (SecondState, SecondSignal),
      PairKey((SecondState, Leaf(EmptyRoute))) := (IdleState, IdleSignal),
      PairKey((SecondState, Leaf(RegenerateRoute))) := (SecondState, SecondSignal),
      PairKey((SecondState, Leaf(CompareRoute))) := (ComparisonState, ComparisonSignal),
      PairKey((ComparisonState, Leaf(EmptyRoute))) := (IdleState, IdleSignal),
      PairKey((ErrorState, Leaf(EmptyRoute))) := (IdleState, IdleSignal)
    ]
  }

  /** The controller's transition function: the mapped pair when the map holds
      the input's key, `(Error, Error)` otherwise. */
  function ControllerStep(cp: ControlPair): ControlPair {
    var mapping := ControllerMapping();
    if PairKey(cp) in mapping then mapping[PairKey(cp)] else (ErrorState, ErrorSignal)
  }

  const ControllerDelta: Transition := (cp: ControlPair) => ControllerStep(cp)

  /** The controller built by the component's constructor: routes as inputs,
      the five screens as states and outputs, starting in `Idle`. */
  function Controller(): (m: Automat)
    ensures m.inputs == {Leaf(EmptyRoute), Leaf(GenerateRoute), Leaf(RegenerateRoute), Leaf(CompareRoute)}
    ensures m.states == ScreenStates && m.outputs == {IdleSignal, FirstSignal, SecondSignal, ComparisonSignal, ErrorSignal}
    ensures m.initial == IdleState && m.current == Some(IdleState)
    ensures m.delta == ControllerDelta
    ensures m.initial in m.states
  {
    Automat({Leaf(CompareRoute), Leaf(EmptyRoute), Leaf(GenerateRoute), Leaf(RegenerateRoute)},
            ScreenStates, IdleState, ControllerDelta,
            {IdleSignal, FirstSignal, SecondSignal, ComparisonSignal, ErrorSignal},
            Some(IdleState))
  }

  /** The table read pair by pair: the screen reached from `state` on `route`
      (both labels). */
  function NextScreen(state: string, route: string): string {
    if route == EmptyRoute then IdleName
    else if state == IdleName && route == GenerateRoute then FirstName
    else if state == FirstName && route == RegenerateRoute then FirstName
    else if state == FirstName && route == GenerateRoute then SecondName
    else if state == SecondName && route == RegenerateRoute then SecondName
    else if state == SecondName && route == CompareRoute then ComparisonName
    else ErrorName
  }

  /** The table in the comment above the constructor, written down row by row
      (the unnamed first column is the empty route, the last one every other
      route). */
  function DocumentedNextScreen(state: string, route: string): string
    requires state in ScreenNames
  {
    if state == IdleName then
      if route == EmptyRoute then IdleName
      else if route == GenerateRoute then FirstName
      else ErrorName
    else if state == FirstName then
      if route == EmptyRoute then IdleName
      else if route == GenerateRoute then SecondName
      else if route == RegenerateRoute then FirstName
      else ErrorName
    else if state == SecondName then
      if route == EmptyRoute then IdleName
      else if route == RegenerateRoute then SecondName
      else if route == CompareRoute then ComparisonName
      else ErrorName
    else if state == ComparisonName then
      if route == EmptyRoute then IdleName
      else if route == CompareRoute then ComparisonName
      else ErrorName
    else
      if route == EmptyRoute then IdleName
      else ErrorName
  }

  // ---------------------------------------------------------------------------
  // Facts about the table

  /** Splitting a key: the five labels are such that none is a prefix of another,
      so `state.id + route` names the state and the route. */
  lemma KeySplits(s: string, r: string, s': string, r': string)
    requires s in ScreenNames && s' in ScreenNames
    requires s + r == s' + r'
    ensures s == s' && r == r'
  {
    var k := s + r;
    assert k[0] == s[0] == s'[0];
    if s[0] == 'S' || s[0] == 'F' {
      assert s == k[..|s|] && s' == k[..|s'|];
    }
    assert s == s';
    assert r == k[|s|..] == r';
  }

  /** From every screen, on every route, the controller goes where the table
      says, and its output names the same screen.  (The keys are concatenations,
      but no key of one screen is the key of another.) */
  lemma {:induction false} ControllerFollowsTable(s: State, x: Signal)
    requires s in ScreenStates
    ensures ControllerDelta((s, x)) == (Leaf(NextScreen(s.id, x.id)), Leaf(NextScreen(s.id, x.id)))
  {
    var key := PairKey((s, x));
    forall t, r | t in ScreenNames && key == t + r
      ensures t == s.id && r == x.id
    {
      KeySplits(s.id, x.id, t, r);
    }
    assert PairKey((IdleState, Leaf(EmptyRoute))) == IdleName + EmptyRoute;
    assert PairKey((IdleState, Leaf(GenerateRoute))) == IdleName + GenerateRoute;
    assert PairKey((FirstState, Leaf(EmptyRoute))) == FirstName + EmptyRoute;
    assert PairKey((FirstState, Leaf(RegenerateRoute))) == FirstName + RegenerateRoute;
    assert PairKey((FirstState, Leaf(GenerateRoute))) == FirstName + GenerateRoute;
    assert PairKey((SecondState, Leaf(EmptyRoute))) == SecondName + EmptyRoute;
    assert PairKey((SecondState, Leaf(RegenerateRoute))) == SecondName + RegenerateRoute;
    assert PairKey((SecondState, Leaf(CompareRoute))) == SecondName + CompareRoute;
    assert PairKey((ComparisonState, Leaf(EmptyRoute))) == ComparisonName + EmptyRoute;
    assert PairKey((ErrorState, Leaf(EmptyRoute))) == ErrorName + EmptyRoute;
  }

  /** Whatever pair it is given, the controller moves to one of the five screens
      and emits the signal with that screen's label. */
  lemma ControllerStaysOnScreens(cp: ControlPair)
    ensures ControllerDelta(cp).0 in ScreenStates
    ensures ControllerDelta(cp).1 == ControllerDelta(cp).0
  {
  }

  /** The empty route leads to `Idle` from every screen. */
  lemma EmptyRouteGoesIdle(s: State, x: Signal)
    requires s in ScreenStates && x.id == EmptyRoute
    ensures ControllerDelta((s, x)) == (IdleState, IdleSignal)
  {
    ControllerFollowsTable(s, x);
  }

  /** The code agrees with the documented table on every screen and route but
      one: `compare` from `Comparison`, which the comment sends to `Comparison` and
      the code, having no entry for it, sends to `Error`. */
  lemma TableMatchesDocumentation(state: string, route: string)
    requires state in ScreenNames
    ensures NextScreen(state, route) == DocumentedNextScreen(state, route) <==>
            !(state == ComparisonName && route == CompareRoute)
    ensures ControllerDelta((Leaf(state), Leaf(route))).0.id == DocumentedNextScreen(state, route) <==>
            !(state == ComparisonName && route == CompareRoute)
    ensures ControllerDelta((ComparisonState, Leaf(CompareRoute))) == (ErrorState, ErrorSignal)
  {
    ControllerFollowsTable(Leaf(state), Leaf(route));
    ControllerFollowsTable(ComparisonState, Leaf(CompareRoute));
  }
}
