# Guidance state machine (CARMA platform), modelled in Dafny

This project models the state machine that drives the lifecycle of CARMA's
Guidance node, `GuidanceStateMachine` in
`carmajava/guidance/src/main/java/gov/dot/fhwa/saxton/carma/guidance/GuidanceStateMachine.java`.

Guidance starts in STARTUP. It moves through DRIVERS_READY, ACTIVE and ENGAGED
as events arrive: drivers found, a route activated, a route started, the route
left, the driver disengaging, the route finished. A PANIC shuts it down for good.
Each real transition produces an action: INTIALIZE (the system's own spelling),
ACTIVATE, ENGAGE, RESTART or SHUTDOWN. That action goes to every registered
state change listener, but only when the state actually changed.

The project has two modules:

- `GuidanceTransitions` (`guidance_transitions.dfy`) holds the enums and
  `Step`. `Step` is the `switch` of `processEvent` written as a pure function
  from a state and an event to the new state and an optional action. A missing
  action (`null` in the source) is `None`. The module also has the same table
  written out as data (`Table`), the state reached after a sequence of events
  (`Run`), and lemmas about both.
- `GuidanceMachine` (`guidance_state_machine.dfy`) holds the class
  `GuidanceStateMachine`. Its fields are the current state and the listener
  list. Listeners are identified by a `ListenerId`. Calling a listener's
  `onStateChange(action)` is recorded as a `Notification` appended to a ghost
  `log`. A ghost `events` history ties the current state to `Run` from STARTUP.
  `ProcessEvent` takes a snapshot of the listener list and loops over it, as
  the source does. Unregistering removes the first equal entry, as Java's
  `List.remove(Object)` does.

## Model

| member | source | states |
|---|---|---|
| `GuidanceTransitions.Step` | carmajava/guidance/src/main/java/gov/dot/fhwa/saxton/carma/guidance/GuidanceStateMachine.java:43-95 | an action is produced exactly when the state changes; no transition enters STARTUP; in SHUTDOWN (the `default` branch) every event leaves the state unchanged with no action |
| `GuidanceTransitions.StepFollowsTable` | carmajava/guidance/src/main/java/gov/dot/fhwa/saxton/carma/guidance/GuidanceStateMachine.java:43-95 | `Step` takes exactly the 12 transitions of the table written out as data; a (state, event) pair with no row leaves the state unchanged with no action |
| `GuidanceTransitions.TableIsDeterministic` | carmajava/guidance/src/main/java/gov/dot/fhwa/saxton/carma/guidance/GuidanceStateMachine.java:43-95 | no two rows of the table share a (state, event) pair |
| `GuidanceTransitions.ActionAnnouncesNewState` | carmajava/guidance/src/main/java/gov/dot/fhwa/saxton/carma/guidance/GuidanceStateMachine.java:44-91 | each action always goes with the same target state (INTIALIZE and RESTART with DRIVERS_READY, ACTIVATE with ACTIVE, ENGAGE with ENGAGED, SHUTDOWN with SHUTDOWN) |
| `GuidanceTransitions.StartupSequence` | carmajava/guidance/src/main/java/gov/dot/fhwa/saxton/carma/guidance/GuidanceStateMachine.java:44-56 | FOUND_DRIVERS in STARTUP gives DRIVERS_READY with INTIALIZE; ACTIVATE_ROUTE in DRIVERS_READY gives ACTIVE with ACTIVATE |
| `GuidanceTransitions.EngagedOnlyFromActive` | carmajava/guidance/src/main/java/gov/dot/fhwa/saxton/carma/guidance/GuidanceStateMachine.java:62-65 | from any other state, ENGAGED is entered if and only if the state is ACTIVE and the event is START_ROUTE, and the action is then ENGAGE |
| `GuidanceTransitions.PanicShutsDown` | carmajava/guidance/src/main/java/gov/dot/fhwa/saxton/carma/guidance/GuidanceStateMachine.java:44-91 | PANIC in STARTUP, DRIVERS_READY, ACTIVE or ENGAGED gives SHUTDOWN with action SHUTDOWN |
| `GuidanceTransitions.RestartReturnsToDriversReady` | carmajava/guidance/src/main/java/gov/dot/fhwa/saxton/carma/guidance/GuidanceStateMachine.java:62-91 | RESTART is produced if and only if LEFT_ROUTE or DISENGAGE arrives in ACTIVE or ENGAGED, or FINISH_ROUTE arrives in ENGAGED; it always goes back to DRIVERS_READY |
| `GuidanceTransitions.RunSnoc` | carmajava/guidance/src/main/java/gov/dot/fhwa/saxton/carma/guidance/GuidanceStateMachine.java:39-95 | processing one more event is one more `Step` from the state reached so far |
| `GuidanceTransitions.ShutdownAbsorbs` | carmajava/guidance/src/main/java/gov/dot/fhwa/saxton/carma/guidance/GuidanceStateMachine.java:92-94 | no sequence of events leaves SHUTDOWN |
| `GuidanceTransitions.NeverReentersStartup` | carmajava/guidance/src/main/java/gov/dot/fhwa/saxton/carma/guidance/GuidanceStateMachine.java:43-95 | from any state other than STARTUP, no sequence of events leads to STARTUP |
| `GuidanceTransitions.PanicEndsInShutdown` | carmajava/guidance/src/main/java/gov/dot/fhwa/saxton/carma/guidance/GuidanceStateMachine.java:43-95 | a sequence of events that contains PANIC ends in SHUTDOWN from any state, whatever follows the PANIC |
| `GuidanceTransitions.StaysInStartup` | carmajava/guidance/src/main/java/gov/dot/fhwa/saxton/carma/guidance/GuidanceStateMachine.java:44-52 | a fresh machine is still in STARTUP after a sequence of events if and only if the sequence contains neither FOUND_DRIVERS nor PANIC |
| `GuidanceTransitions.EveryStateReachable` | carmajava/guidance/src/main/java/gov/dot/fhwa/saxton/carma/guidance/GuidanceStateMachine.java:43-91 | every state can be reached from STARTUP by some sequence of events |
| `GuidanceMachine.Notifications` | carmajava/guidance/src/main/java/gov/dot/fhwa/saxton/carma/guidance/GuidanceStateMachine.java:101-109 | telling a listener list of an action makes one call per listener, in list order, each with that action |
| `GuidanceMachine.NotificationsFor` | carmajava/guidance/src/main/java/gov/dot/fhwa/saxton/carma/guidance/GuidanceStateMachine.java:97-112 | an event makes calls if and only if it changes the state and the list is non-empty; the calls then go to the whole list, once each and in order, with the transition's action |
| `GuidanceMachine.FirstIndex` | carmajava/guidance/src/main/java/gov/dot/fhwa/saxton/carma/guidance/GuidanceStateMachine.java:134-136 | for a registered listener, the position found holds that listener and no earlier position does (the search `List.remove(Object)` makes) |
| `GuidanceMachine.RemoveFirst` | carmajava/guidance/src/main/java/gov/dot/fhwa/saxton/carma/guidance/GuidanceStateMachine.java:134-136 | removing a listener that is not registered leaves the list as it was; otherwise the result is one shorter, the entries before the first copy stay where they are, every entry after it moves up one place in the same order, and exactly one copy leaves the list (multiset difference) |
| `GuidanceMachine.RegisterThenUnregister` | carmajava/guidance/src/main/java/gov/dot/fhwa/saxton/carma/guidance/GuidanceStateMachine.java:127-136 | unregistering a listener just registered (and not registered before) gives back the original list |
| `GuidanceMachine.GuidanceStateMachine.constructor` | carmajava/guidance/src/main/java/gov/dot/fhwa/saxton/carma/guidance/GuidanceStateMachine.java:31-32 | a new machine is in STARTUP with no listeners, no events processed and no calls made |
| `GuidanceMachine.GuidanceStateMachine.ProcessEvent` | carmajava/guidance/src/main/java/gov/dot/fhwa/saxton/carma/guidance/GuidanceStateMachine.java:39-113 | the new state is `Step` of the old state and the event; the listener list is not changed; the calls made are exactly `NotificationsFor` that step and the listener list at that moment; the state stays equal to `Run` from STARTUP over all events so far |
| `GuidanceMachine.GuidanceStateMachine.GetState` | carmajava/guidance/src/main/java/gov/dot/fhwa/saxton/carma/guidance/GuidanceStateMachine.java:119-121 | returns the current state, which is the state `Run` reaches from STARTUP over every event processed so far |
| `GuidanceMachine.GuidanceStateMachine.RegisterStateChangeListener` | carmajava/guidance/src/main/java/gov/dot/fhwa/saxton/carma/guidance/GuidanceStateMachine.java:127-129 | appends the listener to the end of the list; the state, the event history and the calls made are unchanged |
| `GuidanceMachine.GuidanceStateMachine.UnregisterStateChangeListener` | carmajava/guidance/src/main/java/gov/dot/fhwa/saxton/carma/guidance/GuidanceStateMachine.java:134-136 | removes the first copy of the listener from the list (`RemoveFirst`); the state, the event history and the calls made are unchanged |

## Left out

- Concurrency: `synchronized` on `processEvent`, the `AtomicReference` around the state, the `Vector` and the `synchronized(listeners)` block. The class is modelled as single-threaded. The snapshot the loop iterates over is still modelled.
- Logging (`log.debug`, `log.warn`): it only writes messages and does not change behaviour.
- The bodies of `IStateChangeListener.onStateChange` are not part of this model. Each call is recorded in the ghost `log`. A listener that calls back into the machine while it is being notified is not modelled.
- Listener identity: listeners are `ListenerId` numbers compared by equality. This stands for the `equals` that `List.remove(Object)` uses.
- The `GuidanceState`, `GuidanceEvent` and `GuidanceAction` enum files are not part of this model. The enums are declared with exactly the constants that `GuidanceStateMachine.java` uses, and `default:` is taken to be the SHUTDOWN state.
- ProcessEvent: assumes every `onStateChange` call returns normally. In the source, a listener that throws (including a `null` listener, which `Vector.add` accepts, giving a NullPointerException) ends the notification loop early: later listeners in the snapshot are not called, the exception leaves `processEvent`, and the new state stays set. The model's log always holds the whole snapshot.
- ProcessEvent: a `null` event, which the source treats as a silent no-op (no branch of the `switch` matches it), cannot be expressed, since every `GuidanceEvent` value is one of the seven events.
- The sensor-fusion map-to-odom transform maintainer (floating-point WGS84 geodesy and quaternion algebra) and the autoware trajectory plugin are separate components outside this model. The mock drivers only relay ROS bag messages.
