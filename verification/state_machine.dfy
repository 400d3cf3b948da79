/** The generic transition engine of state-machine.ts.

    A machine is built from a definition: an initial state and, per state, a
    table from event names to transitions.  A transition names its target and
    carries a guard (`action()`).  The state's `onEnter`/`onExit` actions are
    side effects the engine only calls, so the model reports the calls it makes
    as a trace of `Callback`s, in order, instead of running them.

    The engine is written in JavaScript and does not check its definition: a
    state missing from the definition makes a property access on `undefined`
    throw.  The model keeps those faults as `Thrown` outcomes. */
module StateMachine {

  import opened Wrappers

  /** One entry of a state's `transitions` table: the target state and the
      verdict the guard `action()` returns when it is called.  (Only the
      truthiness of the guard's return value matters to the engine.) */
  datatype Edge<S> = Edge(target: S, accepts: bool)

  /** A state's definition: its outgoing transitions keyed by event name. */
  datatype StateDef<S(==), E(==)> = StateDef(transitions: map<E, Edge<S>>)

  /** The argument of `createMachine`. */
  datatype Definition<S(==), E(==)> =
    Definition(initialState: S, states: map<S, StateDef<S, E>>)

  /** The object `createMachine` returns; `value` is its only state. */
  datatype Machine<S> = Machine(value: S)

  /** A call the engine makes into the definition, in the order it makes it. */
  datatype Callback<S, E> =
    | Guard(source: S, event: E)   // the transition's `action()`
    | Exit(state: S)               // the source state's `onExit()`
    | Enter(state: S)              // the target state's `onEnter()`

  /** What `transition` hands back: `undefined` (bare `return`), a state
      value, or an exception propagating out of it. */
  datatype Returned<S> = Undefined | Value(state: S) | Thrown

  /** The machine after one call of `transition`, what the call returned and
      the callbacks it made. */
  datatype Step<S, E> = Step(machine: Machine<S>, returned: Returned<S>, trace: seq<Callback<S, E>>)

  /** The machine `createMachine(definition)` builds. */
  function CreateMachine<S(==), E(==)>(def: Definition<S, E>): (m: Machine<S>)
    ensures m.value == def.initialState
  {
    Machine(def.initialState)
  }

  /** The transition the table of `current` holds for `event`, if any.  A
      state missing from the definition has no table at all. */
  function Lookup<S(==), E(==)>(def: Definition<S, E>, current: S, event: E): Option<Edge<S>>
  {
    if current in def.states && event in def.states[current].transitions
    then Some(def.states[current].transitions[event])
    else None
  }

  /** The table of `def` lets `current` move to `target` on `event`: the entry
      exists, its guard accepts, and the target is a defined state. */
  ghost predicate Accepts<S, E>(def: Definition<S, E>, current: S, event: E, target: S)
  {
    && Lookup(def, current, event).Some?
    && Lookup(def, current, event).value.accepts
    && Lookup(def, current, event).value.target == target
    && target in def.states
  }

  /** The state the table of `def` leads to from `s` on `e`; `s` itself when
      the table does not let it move. */
  function Successor<S(==), E(==)>(def: Definition<S, E>, s: S, e: E): S
  {
    match Lookup(def, s, e)
    case Some(edge) => if edge.accepts && edge.target in def.states then edge.target else s
    case None => s
  }

  /** `machine.transition(current, event)`.  The lookup goes through the
      `current` argument; `m.value` is only read when the guard declines and
      only written on commit. */
  function Transition<S(==), E(==)>(def: Definition<S, E>, m: Machine<S>, current: S, event: E): (st: Step<S, E>)
    // an absent entry: a bare `return`, no callback, nothing committed
    ensures (current in def.states && event !in def.states[current].transitions)
              ==> st == Step(m, Undefined, [])
    // no callback at all exactly when there is no entry to follow
    ensures st.trace == [] <==> Lookup(def, current, event).None?
    // the guard runs first, before any action
    ensures st.trace != [] ==> st.trace[0] == Guard(current, event)
    // a declining guard: no action runs and the machine's own value comes back
    ensures (Lookup(def, current, event).Some? && !Lookup(def, current, event).value.accepts)
              ==> st == Step(m, Value(m.value), [Guard(current, event)])
    // an accepted transition: exit the source, then enter the target, once each; commit
    ensures (Lookup(def, current, event).Some? && Lookup(def, current, event).value.accepts
             && Lookup(def, current, event).value.target in def.states)
              ==> var t := Lookup(def, current, event).value.target;
                  st == Step(Machine(t), Value(t), [Guard(current, event), Exit(current), Enter(t)])
    // nothing else commits
    ensures st.machine == m || Accepts(def, current, event, st.machine.value)
    // a current state the definition lacks: the lookup throws before any callback
    ensures current !in def.states ==> st == Step(m, Thrown, [])
    // a target the definition lacks: the guard and `onExit` have run, then it throws
    ensures (Lookup(def, current, event).Some? && Lookup(def, current, event).value.accepts
             && Lookup(def, current, event).value.target !in def.states)
              ==> st == Step(m, Thrown, [Guard(current, event), Exit(current)])
  {
    if current !in def.states then
      // `currentStateDefinition.transitions` on `undefined`
      Step(m, Thrown, [])
    else if event !in def.states[current].transitions then
      Step(m, Undefined, [])
    else
      var edge := def.states[current].transitions[event];
      if !edge.accepts then
        Step(m, Value(m.value), [Guard(current, event)])
      else if edge.target !in def.states then
        // `onExit` has run; `destinationStateDefinition.actions` on `undefined`
        Step(m, Thrown, [Guard(current, event), Exit(current)])
      else
        Step(Machine(edge.target), Value(edge.target), [Guard(current, event), Exit(current), Enter(edge.target)])
  }

  /** Callers that pass `machine.value` as `current` move the machine along
      the table: the committed value is the table's successor of the old one. */
  lemma TransitionFromValue<S, E>(def: Definition<S, E>, m: Machine<S>, e: E)
    ensures Transition(def, m, m.value, e).machine.value == Successor(def, m.value, e)
  {
    var edge := Lookup(def, m.value, e);
    if edge.Some? && edge.value.accepts && edge.value.target in def.states {
      assert Accepts(def, m.value, e, edge.value.target);
    }
  }

  /** The engine decides from the `current` argument alone: two machines
      given the same arguments make the same calls, and when the transition
      commits they end up equal, whatever their values were before. */
  lemma TransitionIgnoresValue<S, E>(def: Definition<S, E>, m1: Machine<S>, m2: Machine<S>, current: S, e: E)
    ensures Transition(def, m1, current, e).trace == Transition(def, m2, current, e).trace
    ensures |Transition(def, m1, current, e).trace| == 3 ==>
              Transition(def, m1, current, e) == Transition(def, m2, current, e)
  {
  }

  /** The machine after the caller hands it `events` one after another,
      each time passing the machine's own value as `current`. */
  function Run<S(==), E(==)>(def: Definition<S, E>, m: Machine<S>, events: seq<E>): Machine<S>
    decreases |events|
  {
    if events == [] then m
    else Run(def, Transition(def, m, m.value, events[0]).machine, events[1..])
  }

  /** The state reached by following the table from `s` along `events`. */
  function Follow<S(==), E(==)>(def: Definition<S, E>, s: S, events: seq<E>): S
    decreases |events|
  {
    if events == [] then s else Follow(def, Successor(def, s, events[0]), events[1..])
  }

  /** Driving the engine with its own value follows the table exactly; events
      without an accepted entry leave the state alone. */
  lemma {:induction false} RunFollowsTable<S, E>(def: Definition<S, E>, m: Machine<S>, events: seq<E>)
    ensures Run(def, m, events).value == Follow(def, m.value, events)
    decreases |events|
  {
    if events != [] {
      var next := Transition(def, m, m.value, events[0]).machine;
      TransitionFromValue(def, m, events[0]);
      RunFollowsTable(def, next, events[1..]);
    }
  }
}
