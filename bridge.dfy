/**
  Model of useStore in src/index.js with the component framework taken out.
  One Bridge is one mounted component calling useStore(mapState):
  - `store` and `mapState` are what the latest render read: the store from
    the context and the selector it was passed;
  - `current` is the state cell that setMappedState writes and that each
    render returns;
  - `rendered` is the value the latest render returned;
  - `prev` is prevMappedStateRef.current, written only by the effect that
    runs after a render commits (undefined until the first commit);
  - `closures` maps every checkForUpdates closure that was subscribed to the
    store and selector it captured; a closure stays callable after its
    cleanup ran, since the cleanup may leave it subscribed;
  - `handler` is the closure of the set-up effect in place, if any;
  - `signals` logs every setMappedState call, in order.
  shallowEqual lives in a file that is not part of this model; it is kept as
  an arrow that no member interprets.
 */
module Bridges {
  import opened Wrappers
  import opened Stores

  /** What a checkForUpdates closure captured: the store and selector of the render whose effect created it. */
  datatype Closure<!S, A, T> = Closure(store: Store<S, A>, mapState: S -> Completion<T>)

  class Bridge<S, A, T> {
    var store: Store<S, A>
    var mapState: S -> Completion<T>
    const shallowEqual: (Option<T>, T) -> bool
    var current: T
    var rendered: T
    var prev: Option<T>
    var closures: map<Handler, Closure<S, A, T>>
    var handler: Option<Handler>
    var signals: seq<T>

    /** The effect in place has a known closure. */
    ghost predicate Valid()
      reads this`handler, this`closures
    {
      handler.Some? ==> handler.value in closures
    }

    /** The store whose unsubscribe closure the effect in place would run as its cleanup. */
    ghost function EffectStore(): Store<S, A>
      reads this`handler, this`closures, this`store
    {
      if handler.Some? && handler.value in closures then closures[handler.value].store else store
    }

    /**
      The mounting render: useState's initialiser maps the store's state.
      A selector that throws here makes the mount fail, so no component
      (and no Bridge) exists in that case.
     */
    constructor (store: Store<S, A>, mapState: S -> Completion<T>, shallowEqual: (Option<T>, T) -> bool)
      requires mapState(store.state).Returned?
      ensures Valid()
      ensures this.store == store && this.mapState == mapState && this.shallowEqual == shallowEqual
      ensures current == mapState(store.state).value && rendered == current
      ensures prev == None && closures == map[] && handler == None && signals == []
    {
      this.store := store;
      this.mapState := mapState;
      this.shallowEqual := shallowEqual;
      var initial := mapState(store.state).value;
      current := initial;
      rendered := initial;
      prev := None;
      closures := map[];
      handler := None;
      signals := [];
    }

    /**
      A later render, reading renderStore from the context and given the
      selector renderMap: the hook returns the current mapped state and that
      store's own dispatch (the state cell is not recomputed).
     */
    method Render(renderStore: Store<S, A>, renderMap: S -> Completion<T>) returns (value: T, dispatcher: Store<S, A>)
      modifies this`store, this`mapState, this`rendered
      ensures store == renderStore && mapState == renderMap
      ensures value == current && rendered == current && dispatcher == renderStore
    {
      store := renderStore;
      mapState := renderMap;
      value := current;
      rendered := current;
      dispatcher := renderStore;
    }

    /** usePreviousRef's effect, run after every committed render. */
    method CommitPrevRef()
      modifies this`prev
      ensures prev == Some(rendered)
    {
      prev := Some(rendered);
    }

    /**
      The body of a checkForUpdates closure that captured store s and
      selector m: map s's present state and call setMappedState only when
      the result is not shallow-equal to the committed value `prev`. A
      selector that throws ends the call before anything is set.
     */
    method CheckForUpdates(s: Store<S, A>, m: S -> Completion<T>) returns (threw: bool)
      modifies this`current, this`signals
      ensures threw <==> m(s.state).Threw?
      ensures threw || shallowEqual(prev, m(s.state).value) ==>
        current == old(current) && signals == old(signals)
      ensures !threw && !shallowEqual(prev, m(s.state).value) ==>
        current == m(s.state).value && signals == old(signals) + [current]
    {
      var nextState := s.GetState();
      var next := m(nextState);
      if next.Threw? {
        return true;
      }
      threw := false;
      if shallowEqual(prev, next.value) {
        return;
      }
      current := next.value;
      signals := signals + [next.value];
    }

    /** The store invoking subscribed closure h: h's body runs with what h captured. */
    method Notify(h: Handler) returns (threw: bool)
      requires h in closures
      modifies this`current, this`signals
      ensures var c := closures[h];
        (threw <==> c.mapState(c.store.state).Threw?) &&
        (threw || shallowEqual(prev, c.mapState(c.store.state).value) ==>
          current == old(current) && signals == old(signals)) &&
        (!threw && !shallowEqual(prev, c.mapState(c.store.state).value) ==>
          current == c.mapState(c.store.state).value && signals == old(signals) + [current])
    {
      threw := CheckForUpdates(closures[h].store, closures[h].mapState);
    }

    /**
      The check the comparison evidently intends: against the last value
      handed to setMappedState (`current`) rather than the last committed one.
     */
    method CheckForUpdatesAgainstCurrent(s: Store<S, A>, m: S -> Completion<T>) returns (threw: bool)
      modifies this`current, this`signals
      ensures threw <==> m(s.state).Threw?
      ensures threw || shallowEqual(Some(old(current)), m(s.state).value) ==>
        current == old(current) && signals == old(signals)
      ensures !threw && !shallowEqual(Some(old(current)), m(s.state).value) ==>
        current == m(s.state).value && signals == old(signals) + [current]
      ensures !threw ==>
        current == m(s.state).value || shallowEqual(Some(current), m(s.state).value)
    {
      var nextState := s.GetState();
      var next := m(nextState);
      if next.Threw? {
        return true;
      }
      threw := false;
      if shallowEqual(Some(current), next.value) {
        return;
      }
      current := next.value;
      signals := signals + [next.value];
    }

    /**
      The set-up effect after a commit: a new checkForUpdates closure h,
      capturing the latest render's store and selector, runs once and is
      then subscribed to that store. A new closure is a new function object,
      so h is not the identity of any earlier closure. If the check throws,
      the effect ends before subscribing.
     */
    method Setup(h: Handler) returns (threw: bool)
      requires Valid() && h !in closures
      modifies this`current, this`signals, this`handler, this`closures, store`subscribers
      ensures Valid()
      ensures threw <==> mapState(store.state).Threw?
      ensures threw || shallowEqual(prev, mapState(store.state).value) ==>
        current == old(current) && signals == old(signals)
      ensures !threw && !shallowEqual(prev, mapState(store.state).value) ==>
        current == mapState(store.state).value && signals == old(signals) + [current]
      ensures threw ==>
        handler == old(handler) && closures == old(closures) && store.subscribers == old(store.subscribers)
      ensures !threw ==>
        handler == Some(h) && closures == old(closures)[h := Closure(store, mapState)] &&
        store.subscribers == old(store.subscribers) + [h]
    {
      threw := CheckForUpdates(store, mapState);
      if threw {
        return;
      }
      store.Subscribe(h);
      closures := closures[h := Closure(store, mapState)];
      handler := Some(h);
    }

    /**
      The set-up effect's cleanup: the unsubscribe closure of the store the
      effect's closure was subscribed to. The closure itself stays known,
      since the store may still hold it.
     */
    method Cleanup()
      requires Valid()
      modifies this`handler, EffectStore()`subscribers
      ensures Valid() && handler == None
      ensures old(handler).None? ==> old(EffectStore()).subscribers == old(EffectStore().subscribers)
      ensures old(handler).Some? ==>
        old(EffectStore()).subscribers == AfterUnsubscribe(old(EffectStore().subscribers), old(handler).value)
    {
      if handler.Some? {
        closures[handler.value].store.Unsubscribe(handler.value);
        handler := None;
      }
    }

    /**
      The commit of a render in which the store or the selector changed:
      the old effect's cleanup runs (unsubscribe from the store it captured),
      then the set-up effect with a new closure h for the latest render's
      store and selector.
     */
    method Reattach(h: Handler) returns (threw: bool)
      requires Valid() && h !in closures
      modifies this`current, this`signals, this`handler, this`closures
      modifies EffectStore()`subscribers, store`subscribers
      ensures Valid()
      ensures threw <==> mapState(store.state).Threw?
      ensures threw || shallowEqual(prev, mapState(store.state).value) ==>
        current == old(current) && signals == old(signals)
      ensures !threw && !shallowEqual(prev, mapState(store.state).value) ==>
        current == mapState(store.state).value && signals == old(signals) + [current]
      ensures handler == (if threw then None else Some(h))
      ensures closures == if threw then old(closures) else old(closures)[h := Closure(store, mapState)]
      ensures var target := old(EffectStore());
        var left := if old(handler).Some?
                    then AfterUnsubscribe(old(target.subscribers), old(handler).value)
                    else old(target.subscribers);
        var added := if threw then [] else [h];
        if target == store
        then store.subscribers == left + added
        else target.subscribers == left && store.subscribers == old(store.subscribers) + added
    {
      Cleanup();
      threw := Setup(h);
    }
  }
}
