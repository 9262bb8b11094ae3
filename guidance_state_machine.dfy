/**
  The Guidance state machine object: the current state, the registered state
  change listeners, and the notifications it sends. A listener is identified by
  a `ListenerId`; instead of calling a listener's `onStateChange` the machine
  appends a `Notification` to a ghost log, in the order the calls happen.
 */
module GuidanceMachine {
  import opened GuidanceTransitions

  /** The identity of a registered state change listener. */
  type ListenerId = nat

  /** One call of `onStateChange(action)` on `listener`. */
  datatype Notification = Notification(listener: ListenerId, action: GuidanceAction)

  /** The calls made when every listener of `ls` is told of `a`: each once, in list order. */
  function Notifications(ls: seq<ListenerId>, a: GuidanceAction): (r: seq<Notification>)
    ensures |r| == |ls|
    ensures forall i :: 0 <= i < |ls| ==> r[i] == Notification(ls[i], a)
  {
    if ls == [] then [] else [Notification(ls[0], a)] + Notifications(ls[1..], a)
  }

  /**
    The calls made when event `e` arrives in state `s` with listeners `ls`: all of
    `ls` told of the step's action if the state changed and the action is set, none
    otherwise.
   */
  function NotificationsFor(s: GuidanceState, e: GuidanceEvent, ls: seq<ListenerId>): (r: seq<Notification>)
    // someone is notified exactly when the state changes and someone is listening
    ensures r != [] <==> Step(s, e).next != s && ls != []
    // and then every listener of the list is told of that step's action, once, in order
    ensures Step(s, e).next != s ==> r == Notifications(ls, Step(s, e).action.value)
  {
    var step := Step(s, e);
    if step.next != s && step.action.Some? then Notifications(ls, step.action.value) else []
  }

  /** The position of the first occurrence of `l`, as `indexOf` finds it. */
  function FirstIndex(ls: seq<ListenerId>, l: ListenerId): (i: nat)
    requires l in ls
    ensures i < |ls| && ls[i] == l && l !in ls[..i]
  {
    if ls[0] == l then 0 else FirstIndex(ls[1..], l) + 1
  }

  /**
    The list after `List.remove(Object)`: the first occurrence of `l` is taken out
    and the rest keeps its order; a list without `l` is left as it is.
   */
  function RemoveFirst(ls: seq<ListenerId>, l: ListenerId): (r: seq<ListenerId>)
    ensures l !in ls ==> r == ls
    // a registered listener: the entries before its first copy stay, every later entry moves up by one
    ensures l in ls ==>
              && |r| == |ls| - 1
              && (forall j :: 0 <= j < FirstIndex(ls, l) ==> r[j] == ls[j])
              && (forall j :: FirstIndex(ls, l) <= j < |r| ==> r[j] == ls[j + 1])
    ensures multiset(r) == multiset(ls) - multiset{l}
  {
    if l in ls then
      var i := FirstIndex(ls, l);
      assert ls == ls[..i] + [l] + ls[i + 1..];
      ls[..i] + ls[i + 1..]
    else
      ls
  }

  /** Unregistering a listener just registered, and not registered before, restores the list. */
  lemma RegisterThenUnregister(ls: seq<ListenerId>, l: ListenerId)
    requires l !in ls
    ensures RemoveFirst(ls + [l], l) == ls
  {
    assert FirstIndex(ls + [l], l) == |ls|;
    assert (ls + [l])[..|ls|] == ls;
  }

  class GuidanceStateMachine {
    var state: GuidanceState
    var listeners: seq<ListenerId>
    // every event processed so far, in order
    ghost var events: seq<GuidanceEvent>
    // every `onStateChange` call made so far, in order
    ghost var log: seq<Notification>

    /** The current state is the one reached from STARTUP by the events processed so far. */
    ghost predicate Valid()
      reads this
    {
      state == Run(STARTUP, events)
    }

    constructor ()
      ensures Valid()
      ensures state == STARTUP && listeners == [] && events == [] && log == []
    {
      state := STARTUP;
      listeners := [];
      events := [];
      log := [];
    }

    /** Takes the transition for `e`; if the state changed, tells a snapshot of the listeners of the action. */
    method ProcessEvent(e: GuidanceEvent)
      requires Valid()
      modifies this`state, this`events, this`log
      ensures Valid()
      ensures events == old(events) + [e]
      ensures state == Step(old(state), e).next
      ensures log == old(log) + NotificationsFor(old(state), e, listeners)
    {
      var oldState := state;
      var step := Step(oldState, e);
      state := step.next;
      RunSnoc(STARTUP, events, e);
      events := events + [e];
      if oldState != state {
        if step.action.Some? {
          var action := step.action.value;
          var snapshot := listeners;
          var i := 0;
          while i < |snapshot|
            invariant 0 <= i <= |snapshot|
            invariant state == step.next && events == old(events) + [e]
            invariant log == old(log) + Notifications(snapshot, action)[..i]
          {
            log := log + [Notification(snapshot[i], action)];
            i := i + 1;
          }
        }
      }
    }

    method GetState() returns (s: GuidanceState)
      requires Valid()
      ensures s == state && s == Run(STARTUP, events)
    {
      s := state;
    }

    method RegisterStateChangeListener(l: ListenerId)
      requires Valid()
      modifies this`listeners
      ensures Valid()
      ensures listeners == old(listeners) + [l]
    {
      listeners := listeners + [l];
    }

    method UnregisterStateChangeListener(l: ListenerId)
      requires Valid()
      modifies this`listeners
      ensures Valid()
      ensures listeners == RemoveFirst(old(listeners), l)
    {
      listeners := RemoveFirst(listeners, l);
    }
  }
}
