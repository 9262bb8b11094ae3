/**
  The transition table of the Guidance state machine: the lifecycle states of
  Guidance, the events that drive them and the action announced to listeners on
  each real transition. `Step` is the `switch` of `processEvent` as a pure
  function; `Run` folds it over a sequence of events.
 */
module GuidanceTransitions {

  datatype Option<T> = None | Some(value: T)

  /** The lifecycle states of Guidance (a fresh machine is in STARTUP). */
  datatype GuidanceState = STARTUP | DRIVERS_READY | ACTIVE | ENGAGED | SHUTDOWN

  /** The events fed to the state machine. */
  datatype GuidanceEvent =
    | FOUND_DRIVERS
    | ACTIVATE_ROUTE
    | START_ROUTE
    | LEFT_ROUTE
    | DISENGAGE
    | FINISH_ROUTE
    | PANIC

  /** The action announced to listeners when the state changes (INTIALIZE is the system's own spelling). */
  datatype GuidanceAction = INTIALIZE | ACTIVATE | ENGAGE | RESTART | SHUTDOWN

  /** The new state and the action of one step; `None` where the source leaves its action null. */
  datatype StepResult = StepResult(next: GuidanceState, action: Option<GuidanceAction>)

  /** The transition table of `processEvent`. An event not listed for a state is a no-op. */
  function Step(s: GuidanceState, e: GuidanceEvent): (r: StepResult)
    // an action is produced exactly when the state changes
    ensures r.action.Some? <==> r.next != s
    // no transition ever enters STARTUP
    ensures r.next == STARTUP ==> s == STARTUP
    // SHUTDOWN ignores every event
    ensures s == GuidanceState.SHUTDOWN ==> r == StepResult(s, None)
  {
    match s
    case STARTUP =>
      if e == FOUND_DRIVERS then StepResult(DRIVERS_READY, Some(INTIALIZE))
      else if e == PANIC then StepResult(GuidanceState.SHUTDOWN, Some(GuidanceAction.SHUTDOWN))
      else StepResult(s, None)
    case DRIVERS_READY =>
      if e == ACTIVATE_ROUTE then StepResult(ACTIVE, Some(ACTIVATE))
      else if e == PANIC then StepResult(GuidanceState.SHUTDOWN, Some(GuidanceAction.SHUTDOWN))
      else StepResult(s, None)
    case ACTIVE =>
      if e == START_ROUTE then StepResult(ENGAGED, Some(ENGAGE))
      else if e == LEFT_ROUTE then StepResult(DRIVERS_READY, Some(RESTART))
      else if e == PANIC then StepResult(GuidanceState.SHUTDOWN, Some(GuidanceAction.SHUTDOWN))
      else if e == DISENGAGE then StepResult(DRIVERS_READY, Some(RESTART))
      else StepResult(s, None)
    case ENGAGED =>
      if e == FINISH_ROUTE then StepResult(DRIVERS_READY, Some(RESTART))
      else if e == LEFT_ROUTE then StepResult(DRIVERS_READY, Some(RESTART))
      else if e == PANIC then StepResult(GuidanceState.SHUTDOWN, Some(GuidanceAction.SHUTDOWN))
      else if e == DISENGAGE then StepResult(DRIVERS_READY, Some(RESTART))
      else StepResult(s, None)
    case SHUTDOWN =>
      // the `default` branch: no action on any event
      StepResult(s, None)
  }

  /** One row of the transition table written out as data. */
  datatype Transition = Transition(from: GuidanceState, on: GuidanceEvent, to: GuidanceState, action: GuidanceAction)

  /** Every real transition of the machine, one row per listed (state, event) pair. */
  const Table: seq<Transition> := [
    Transition(STARTUP, FOUND_DRIVERS, DRIVERS_READY, INTIALIZE),
    Transition(STARTUP, PANIC, GuidanceState.SHUTDOWN, GuidanceAction.SHUTDOWN),
    Transition(DRIVERS_READY, ACTIVATE_ROUTE, ACTIVE, ACTIVATE),
    Transition(DRIVERS_READY, PANIC, GuidanceState.SHUTDOWN, GuidanceAction.SHUTDOWN),
    Transition(ACTIVE, START_ROUTE, ENGAGED, ENGAGE),
    Transition(ACTIVE, LEFT_ROUTE, DRIVERS_READY, RESTART),
    Transition(ACTIVE, PANIC, GuidanceState.SHUTDOWN, GuidanceAction.SHUTDOWN),
    Transition(ACTIVE, DISENGAGE, DRIVERS_READY, RESTART),
    Transition(ENGAGED, FINISH_ROUTE, DRIVERS_READY, RESTART),
    Transition(ENGAGED, LEFT_ROUTE, DRIVERS_READY, RESTART),
    Transition(ENGAGED, PANIC, GuidanceState.SHUTDOWN, GuidanceAction.SHUTDOWN),
    Transition(ENGAGED, DISENGAGE, DRIVERS_READY, RESTART)
  ]

  /** True when the table has a row for event `e` in state `s`. */
  predicate Listed(s: GuidanceState, e: GuidanceEvent)
  {
    exists i :: 0 <= i < |Table| && Table[i].from == s && Table[i].on == e
  }

  /** `Step` takes exactly the table's transitions and is a no-op on every unlisted pair. */
  lemma StepFollowsTable(s: GuidanceState, e: GuidanceEvent)
    ensures Step(s, e).action.Some? <==> Listed(s, e)
    ensures Step(s, e).action.Some? ==>
      Transition(s, e, Step(s, e).next, Step(s, e).action.value) in Table
    ensures !Listed(s, e) ==> Step(s, e) == StepResult(s, None)
  {
    var r := Step(s, e);
    if r.action.Some? {
      var t := Transition(s, e, r.next, r.action.value);
      match s
      case STARTUP => assert t == Table[0] || t == Table[1];
      case DRIVERS_READY => assert t == Table[2] || t == Table[3];
      case ACTIVE => assert t == Table[4] || t == Table[5] || t == Table[6] || t == Table[7];
      case ENGAGED => assert t == Table[8] || t == Table[9] || t == Table[10] || t == Table[11];
    } else {
      forall i | 0 <= i < |Table|
        ensures !(Table[i].from == s && Table[i].on == e)
      {
        assert Step(Table[i].from, Table[i].on).action.Some?;
      }
    }
  }

  /** No two rows of the table share a (state, event) pair, so the table is a function. */
  lemma TableIsDeterministic(i: nat, j: nat)
    requires i < |Table| && j < |Table|
    requires Table[i].from == Table[j].from && Table[i].on == Table[j].on
    ensures i == j
  {
  }

  /** The state each action announces: a listener can tell the new state from the action alone. */
  function Announced(a: GuidanceAction): GuidanceState
  {
    match a
    case INTIALIZE => DRIVERS_READY
    case ACTIVATE => ACTIVE
    case ENGAGE => ENGAGED
    case RESTART => DRIVERS_READY
    case SHUTDOWN => GuidanceState.SHUTDOWN
  }

  lemma ActionAnnouncesNewState(s: GuidanceState, e: GuidanceEvent)
    ensures Step(s, e).action.Some? ==> Step(s, e).next == Announced(Step(s, e).action.value)
  {
  }

  /** FOUND_DRIVERS initialises a starting machine; ACTIVATE_ROUTE then activates it. */
  lemma StartupSequence()
    ensures Step(STARTUP, FOUND_DRIVERS) == StepResult(DRIVERS_READY, Some(INTIALIZE))
    ensures Step(DRIVERS_READY, ACTIVATE_ROUTE) == StepResult(ACTIVE, Some(ACTIVATE))
  {
  }

  /** ENGAGED is entered only from ACTIVE on START_ROUTE, announcing ENGAGE. */
  lemma EngagedOnlyFromActive(s: GuidanceState, e: GuidanceEvent)
    requires s != ENGAGED
    ensures Step(s, e).next == ENGAGED <==> s == ACTIVE && e == START_ROUTE
    ensures Step(s, e).next == ENGAGED ==> Step(s, e).action == Some(ENGAGE)
  {
  }

  /** PANIC in any state but SHUTDOWN shuts down and announces SHUTDOWN. */
  lemma PanicShutsDown(s: GuidanceState)
    requires s != GuidanceState.SHUTDOWN
    ensures Step(s, PANIC) == StepResult(GuidanceState.SHUTDOWN, Some(GuidanceAction.SHUTDOWN))
  {
  }

  /** RESTART is announced exactly on LEFT_ROUTE or DISENGAGE in ACTIVE or ENGAGED, and on FINISH_ROUTE in ENGAGED; it always returns to DRIVERS_READY. */
  lemma RestartReturnsToDriversReady(s: GuidanceState, e: GuidanceEvent)
    ensures Step(s, e).action == Some(RESTART) <==>
      ((s == ACTIVE || s == ENGAGED) && (e == LEFT_ROUTE || e == DISENGAGE))
      || (s == ENGAGED && e == FINISH_ROUTE)
    ensures Step(s, e).action == Some(RESTART) ==> Step(s, e).next == DRIVERS_READY
  {
  }

  /** The state reached from `s` after processing `es` in order. */
  function Run(s: GuidanceState, es: seq<GuidanceEvent>): GuidanceState
    decreases |es|
  {
    if es == [] then s else Run(Step(s, es[0]).next, es[1..])
  }

  /** Processing one more event is one more step from the state reached so far. */
  lemma {:induction false} RunSnoc(s: GuidanceState, es: seq<GuidanceEvent>, e: GuidanceEvent)
    ensures Run(s, es + [e]) == Step(Run(s, es), e).next
    decreases |es|
  {
    if es == [] {
      assert Run(Step(s, e).next, []) == Step(s, e).next;
      assert [e][1..] == [];
    } else {
      assert (es + [e])[0] == es[0];
      assert (es + [e])[1..] == es[1..] + [e];
      RunSnoc(Step(s, es[0]).next, es[1..], e);
    }
  }

  /** SHUTDOWN is absorbing: no sequence of events leaves it. */
  lemma {:induction false} ShutdownAbsorbs(es: seq<GuidanceEvent>)
    ensures Run(GuidanceState.SHUTDOWN, es) == GuidanceState.SHUTDOWN
    decreases |es|
  {
    if es != [] {
      ShutdownAbsorbs(es[1..]);
    }
  }

  /** Once a machine has left STARTUP it never returns there. */
  lemma {:induction false} NeverReentersStartup(s: GuidanceState, es: seq<GuidanceEvent>)
    requires s != STARTUP
    ensures Run(s, es) != STARTUP
    decreases |es|
  {
    if es != [] {
      NeverReentersStartup(Step(s, es[0]).next, es[1..]);
    }
  }

  /** A PANIC anywhere in the events ends in SHUTDOWN, whatever follows it. */
  lemma {:induction false} PanicEndsInShutdown(s: GuidanceState, es: seq<GuidanceEvent>)
    requires PANIC in es
    ensures Run(s, es) == GuidanceState.SHUTDOWN
    decreases |es|
  {
    if es[0] == PANIC {
      assert Step(s, PANIC).next == GuidanceState.SHUTDOWN;
      ShutdownAbsorbs(es[1..]);
    } else {
      assert PANIC in es[1..];
      PanicEndsInShutdown(Step(s, es[0]).next, es[1..]);
    }
  }

  /** A machine stays in STARTUP exactly as long as it sees neither FOUND_DRIVERS nor PANIC. */
  lemma {:induction false} StaysInStartup(es: seq<GuidanceEvent>)
    ensures Run(STARTUP, es) == STARTUP <==> FOUND_DRIVERS !in es && PANIC !in es
    decreases |es|
  {
    if es != [] {
      if es[0] == FOUND_DRIVERS || es[0] == PANIC {
        NeverReentersStartup(Step(STARTUP, es[0]).next, es[1..]);
      } else {
        StaysInStartup(es[1..]);
        assert es == [es[0]] + es[1..];
      }
    }
  }

  /** Every state is reachable from STARTUP. */
  lemma EveryStateReachable(t: GuidanceState)
    ensures exists es :: Run(STARTUP, es) == t
  {
    var es := match t
      case STARTUP => []
      case DRIVERS_READY => [FOUND_DRIVERS]
      case ACTIVE => [FOUND_DRIVERS, ACTIVATE_ROUTE]
      case ENGAGED => [FOUND_DRIVERS, ACTIVATE_ROUTE, START_ROUTE]
      case SHUTDOWN => [PANIC];
    RunSnoc(STARTUP, [], FOUND_DRIVERS);
    RunSnoc(STARTUP, [FOUND_DRIVERS], ACTIVATE_ROUTE);
    RunSnoc(STARTUP, [FOUND_DRIVERS, ACTIVATE_ROUTE], START_ROUTE);
    RunSnoc(STARTUP, [], PANIC);
    assert Run(STARTUP, es) == t;
  }
}
