/**
  Model of the logic in example/example.js: the counter state, its reducer
  and the inline selector, plus the counter scenario run through the store
  and the bridge. The state the store holds is an Option<Counter>, since a
  reducer call with an unknown action type returns undefined (None).
 */
module Example {
  import opened Wrappers
  import opened Stores
  import opened Bridges

  /** The record `{ count: n }`. */
  datatype Counter = Counter(count: int)

  /** An action record; only its `type` field is read. */
  datatype Action = Action(kind: string)

  /** The example's `initialState`, `{ count: 0 }`. A constant, so its facts are stated where it is used (MountApp, ExampleRunEndsAtOne). */
  const InitialState: Counter := Counter(0)
  const Increment: Action := Action("INCREMENT")
  const Decrement: Action := Action("DECREMENT")

  /**
    The example reducer. The switch has no default case, so any other action
    type returns undefined. Reading `state.count` of an undefined state
    throws, which only the two counter cases do.
   */
  function Reducer(state: Option<Counter>, action: Action): (r: Completion<Option<Counter>>)
    ensures r.Threw? <==> state.None? && (action.kind == "INCREMENT" || action.kind == "DECREMENT")
    ensures state.Some? && (action.kind == "INCREMENT" || action.kind == "DECREMENT") ==> r.Returned? && r.value.Some?
    ensures action.kind != "INCREMENT" && action.kind != "DECREMENT" ==> r == Returned(None)
    ensures r.Returned? && r.value.Some? ==>
      state.Some? && (action.kind == "INCREMENT" || action.kind == "DECREMENT") &&
      r.value.value.count == state.value.count + (if action.kind == "INCREMENT" then 1 else -1)
  {
    if action.kind == "INCREMENT" then
      if state.None? then Threw else Returned(Some(Counter(state.value.count + 1)))
    else if action.kind == "DECREMENT" then
      if state.None? then Threw else Returned(Some(Counter(state.value.count - 1)))
    else
      Returned(None)
  }

  /** The inline selector `state => ({ count: state.count })`; it throws on an undefined state. */
  function Select(state: Option<Counter>): (r: Completion<Counter>)
    ensures r.Returned? <==> state.Some?
    ensures r.Returned? ==> r.value.count == state.value.count
  {
    match state
    case None => Threw
    case Some(c) => Returned(Counter(c.count))
  }

  lemma IncrementAddsOne(c: Counter)
    ensures Reducer(Some(c), Increment) == Returned(Some(Counter(c.count + 1)))
  {
  }

  lemma DecrementSubtractsOne(c: Counter)
    ensures Reducer(Some(c), Decrement) == Returned(Some(Counter(c.count - 1)))
  {
  }

  /** Any other action type yields undefined, whatever the state. */
  lemma OtherActionYieldsUndefined(state: Option<Counter>, action: Action)
    requires action.kind != "INCREMENT" && action.kind != "DECREMENT"
    ensures Reducer(state, action) == Returned(None)
  {
  }

  /** The two counter actions throw on an undefined state. */
  lemma CounterActionOnUndefinedThrows(action: Action)
    requires action.kind == "INCREMENT" || action.kind == "DECREMENT"
    ensures Reducer(None, action) == Threw
  {
  }

  /** INCREMENT followed by DECREMENT restores the count, and so does the reverse order. */
  lemma IncrementDecrementRoundTrip(c: Counter)
    ensures Fold(Reducer, Some(c), [Increment, Decrement]) == Returned(Some(c))
    ensures Fold(Reducer, Some(c), [Decrement, Increment]) == Returned(Some(c))
  {
    var up, down := Counter(c.count + 1), Counter(c.count - 1);
    assert [Increment, Decrement][1..] == [Decrement];
    assert Fold(Reducer, Some(up), [Decrement]) == Returned(Some(c));
    assert [Decrement, Increment][1..] == [Increment];
    assert Fold(Reducer, Some(down), [Increment]) == Returned(Some(c));
  }

  /** The number of INCREMENTs minus the number of other actions. */
  function Net(actions: seq<Action>): int
  {
    if actions == [] then 0
    else (if actions[0].kind == "INCREMENT" then 1 else -1) + Net(actions[1..])
  }

  predicate CounterActions(actions: seq<Action>)
  {
    forall i :: 0 <= i < |actions| ==> actions[i].kind == "INCREMENT" || actions[i].kind == "DECREMENT"
  }

  /** Folding any run of counter actions adds their net count and never throws. */
  lemma {:induction false} FoldCounterActions(c: Counter, actions: seq<Action>)
    requires CounterActions(actions)
    ensures Fold(Reducer, Some(c), actions) == Returned(Some(Counter(c.count + Net(actions))))
    decreases |actions|
  {
    if actions != [] {
      var step := if actions[0].kind == "INCREMENT" then 1 else -1;
      assert Reducer(Some(c), actions[0]) == Returned(Some(Counter(c.count + step)));
      assert CounterActions(actions[1..]) by {
        forall i | 0 <= i < |actions| - 1
          ensures actions[1..][i].kind == "INCREMENT" || actions[1..][i].kind == "DECREMENT"
        {
          assert actions[1..][i] == actions[i + 1];
        }
      }
      FoldCounterActions(Counter(c.count + step), actions[1..]);
    }
  }

  /** From the initial state, two INCREMENTs and one DECREMENT leave count 1. */
  lemma ExampleRunEndsAtOne()
    ensures Fold(Reducer, Some(InitialState), [Increment, Increment, Decrement]) == Returned(Some(Counter(1)))
  {
    var actions := [Increment, Increment, Decrement];
    assert CounterActions(actions);
    assert Net(actions[2..]) == -1;
    assert Net(actions[1..]) == 0;
    FoldCounterActions(InitialState, actions);
  }

  /** The example's store, driven by three dispatches: the state ends at count 1. */
  method CounterScenario() returns (final: Option<Counter>, notified: seq<Handler>)
    ensures final == Some(Counter(1))
    ensures notified == []
  {
    var store := new Store(Reducer, Some(InitialState));
    assert store.initial == Some(InitialState);
    var threw;
    threw, notified := store.Dispatch(Increment);
    threw, notified := store.Dispatch(Increment);
    threw, notified := store.Dispatch(Decrement);
    final := store.GetState();
  }

  /** An unknown action makes the state undefined; the next INCREMENT then throws and changes nothing. */
  method UndefinedStateScenario() returns (afterUnknown: Option<Counter>, threw: bool, final: Option<Counter>)
    ensures afterUnknown == None
    ensures threw && final == None
  {
    var store := new Store(Reducer, Some(InitialState));
    var t, notified := store.Dispatch(Action("RESET"));
    afterUnknown := store.GetState();
    threw, notified := store.Dispatch(Increment);
    final := store.GetState();
  }

  /**
    Subscribing handler 1 twice and calling the first registration's
    unsubscribe closure twice removes both registrations: removal goes by
    value. Handler 5, subscribed first, stays.
   */
  method RemovalByValueScenario() returns (afterOne: seq<Handler>, afterTwo: seq<Handler>)
    ensures afterOne == [5, 1]
    ensures afterTwo == [5]
  {
    var store := new Store(Reducer, Some(InitialState));
    store.Subscribe(5);
    store.Subscribe(1);
    store.Subscribe(1);
    assert IndexOf([5, 1, 1], 1) == 1;
    assert AfterUnsubscribe([5, 1, 1], 1) == [5, 1];
    store.Unsubscribe(1);
    afterOne := store.subscribers;
    SubscribeThenUnsubscribe([5], 1);
    assert [5] + [1] == [5, 1];
    store.Unsubscribe(1);
    afterTwo := store.subscribers;
  }

  /**
    A hypothesis about shallowEqual for the records `{ count: n }`: two of them
    are shallow-equal exactly when their counts are, and undefined is
    shallow-equal to no record. It is an assumption of the scenarios below,
    not a definition of shallowEqual.
   */
  ghost predicate ComparesCounts(eq: (Option<Counter>, Counter) -> bool)
  {
    forall p, n :: eq(p, n) <==> p == Some(n)
  }

  /**
    One component on the example store whose selector keeps its identity
    across renders (so the set-up effect stays in place), with each dispatch
    rendered and committed before the next: the count goes 0, 1, 2, 1, and
    each of the three dispatches signals one update.
   */
  method BridgeScenario(eq: (Option<Counter>, Counter) -> bool) returns (signals: seq<Counter>, shown: Counter)
    requires ComparesCounts(eq)
    ensures signals == [Counter(1), Counter(2), Counter(1)]
    ensures shown == Counter(1)
  {
    var store, bridge := MountApp(eq);
    shown := Click(store, bridge, Increment);
    assert shown == Counter(1) && bridge.signals == [Counter(1)];
    shown := Click(store, bridge, Increment);
    assert shown == Counter(2) && bridge.signals == [Counter(1), Counter(2)];
    shown := Click(store, bridge, Decrement);
    signals := bridge.signals;
  }

  /**
    One button click when one mounted component is the store's only
    subscriber and its effect stays in place: the dispatch notifies that
    component's closure, and the re-render it causes is committed before the
    next click.
   */
  method Click(store: Store<Option<Counter>, Action>, bridge: Bridge<Option<Counter>, Action, Counter>, action: Action)
    returns (shown: Counter)
    requires store.Valid() && store.reducer == Reducer && store.state.Some?
    requires bridge.Valid() && bridge.store == store && bridge.mapState == Select
    requires ComparesCounts(bridge.shallowEqual)
    requires bridge.handler.Some? && store.subscribers == [bridge.handler.value]
    requires bridge.closures[bridge.handler.value] == Closure(store, Select)
    requires bridge.prev == Some(bridge.current) && Select(store.state) == Returned(bridge.current)
    requires action == Increment || action == Decrement
    modifies store`state, store`history
    modifies bridge`current, bridge`signals, bridge`rendered, bridge`prev, bridge`store, bridge`mapState
    ensures store.Valid() && store.state == Some(shown)
    ensures shown.count == old(store.state).value.count + (if action == Increment then 1 else -1)
    ensures bridge.store == store && bridge.mapState == Select
    ensures bridge.prev == Some(bridge.current) && Select(store.state) == Returned(bridge.current)
    ensures bridge.current == shown
    ensures bridge.signals == old(bridge.signals) + [shown]
  {
    var h := bridge.handler.value;
    var threw, notified := store.Dispatch(action);
    assert notified == [h];
    threw := bridge.Notify(h);
    var dispatcher;
    shown, dispatcher := bridge.Render(store, Select);
    bridge.CommitPrevRef();
  }

  /**
    Every handler subscribed to store is one of bridge's checkForUpdates
    closures, and it captured store and the example's selector.
   */
  ghost predicate ListenersSelect(store: Store<Option<Counter>, Action>, bridge: Bridge<Option<Counter>, Action, Counter>)
    reads store`subscribers, bridge`closures
  {
    forall h :: h in store.subscribers ==> h in bridge.closures && bridge.closures[h] == Closure(store, Select)
  }

  /**
    The example app mounted on the example store: the first render maps the
    initial count, the commit fills the ref, and the set-up effect's first
    closure (id 0) checks and subscribes.
   */
  method MountApp(eq: (Option<Counter>, Counter) -> bool)
    returns (store: Store<Option<Counter>, Action>, bridge: Bridge<Option<Counter>, Action, Counter>)
    requires ComparesCounts(eq)
    ensures fresh(store) && fresh(bridge)
    ensures store.Valid() && store.reducer == Reducer && store.state == Some(InitialState)
    ensures store.subscribers == [0]
    ensures bridge.Valid() && bridge.store == store && bridge.mapState == Select && bridge.shallowEqual == eq
    ensures bridge.handler == Some(0) && bridge.closures == map[0 := Closure(store, Select)]
    ensures bridge.prev == Some(InitialState) && bridge.current == InitialState && bridge.signals == []
    ensures ListenersSelect(store, bridge)
  {
    store := new Store(Reducer, Some(InitialState));
    bridge := new Bridge(store, Select, eq);
    bridge.CommitPrevRef();
    var threw := bridge.Setup(0);
  }

  /**
    A dispatch when every listener of the store is one of bridge's closures:
    the store runs the reducer and then calls the listeners in order, as
    `forEach` does, each checking the new state against the committed value
    `prev`. A listener that throws ends the iteration, and the dispatch
    throws with the new state already in place; `threw` says whether the
    dispatch threw and `ran` counts the listeners called.
    - If the reducer throws, nothing changes and no listener runs.
    - If the new state is undefined, the first listener's selector throws.
    - Otherwise every listener runs and, unless the new count is the
      committed one, signals it.
   */
  method DispatchToApp(store: Store<Option<Counter>, Action>, bridge: Bridge<Option<Counter>, Action, Counter>, action: Action)
    returns (threw: bool, ran: nat)
    requires store.Valid() && store.reducer == Reducer
    requires ComparesCounts(bridge.shallowEqual) && ListenersSelect(store, bridge)
    modifies store`state, store`history, bridge`current, bridge`signals
    ensures store.Valid() && ran <= |store.subscribers|
    ensures Reducer(old(store.state), action).Threw? ==>
      threw && ran == 0 && store.state == old(store.state) &&
      bridge.current == old(bridge.current) && bridge.signals == old(bridge.signals)
    ensures Reducer(old(store.state), action) == Returned(None) ==>
      store.state == None && (threw <==> store.subscribers != []) && ran == (if threw then 1 else 0) &&
      bridge.current == old(bridge.current) && bridge.signals == old(bridge.signals)
    ensures Reducer(old(store.state), action).Returned? && store.state.Some? ==>
      var next := store.state.value;
      store.state == Reducer(old(store.state), action).value && !threw && ran == |store.subscribers| &&
      bridge.signals == old(bridge.signals) + (if bridge.prev == Some(next) then [] else seq(ran, _ => next)) &&
      bridge.current == (if bridge.prev == Some(next) || ran == 0 then old(bridge.current) else next)
    ensures old(store.state).Some? && (action == Increment || action == Decrement) ==>
      !threw && store.state == Some(Counter(old(store.state).value.count + (if action == Increment then 1 else -1)))
  {
    var failed, notified := store.Dispatch(action);
    if failed {
      return true, 0;
    }
    var after := store.state;
    threw, ran := false, 0;
    while ran < |notified| && !threw
      modifies bridge`current, bridge`signals
      invariant 0 <= ran <= |notified|
      invariant after.None? ==>
        bridge.current == old(bridge.current) && bridge.signals == old(bridge.signals) &&
        (threw <==> ran > 0) && ran <= 1
      invariant after.Some? ==>
        !threw &&
        bridge.signals == old(bridge.signals) +
          (if bridge.prev == after then [] else seq(ran, _ => after.value)) &&
        bridge.current == (if bridge.prev == after || ran == 0 then old(bridge.current) else after.value)
    {
      assert notified[ran] in store.subscribers;
      threw := bridge.Notify(notified[ran]);
      if after.Some? {
        var next := after.value;
        assert seq(ran + 1, _ => next) == seq(ran, _ => next) + [next];
      }
      ran := ran + 1;
    }
  }


  /**
    A render of the example app and its commit. App's selector is an inline
    arrow, so the render passes a new selector and the commit re-runs the
    set-up effect: the ref takes the rendered value, the old closure's
    cleanup runs, and a new closure h checks and subscribes.
   */
  method RenderInlineSelector(store: Store<Option<Counter>, Action>, bridge: Bridge<Option<Counter>, Action, Counter>, h: Handler)
    returns (shown: Counter)
    requires store.state.Some? && ComparesCounts(bridge.shallowEqual)
    requires bridge.Valid() && bridge.handler.Some? && h !in bridge.closures
    requires bridge.closures[bridge.handler.value].store == store
    modifies bridge`store, bridge`mapState, bridge`rendered, bridge`prev
    modifies bridge`current, bridge`signals, bridge`handler, bridge`closures, store`subscribers
    ensures bridge.Valid() && bridge.store == store && bridge.mapState == Select
    ensures shown == old(bridge.current) && bridge.prev == Some(shown)
    ensures bridge.handler == Some(h) && bridge.closures == old(bridge.closures)[h := Closure(store, Select)]
    ensures store.subscribers == AfterUnsubscribe(old(store.subscribers), old(bridge.handler).value) + [h]
    ensures var next := Counter(store.state.value.count);
      if next == shown
      then bridge.current == shown && bridge.signals == old(bridge.signals)
      else bridge.current == next && bridge.signals == old(bridge.signals) + [next]
  {
    var dispatcher;
    shown, dispatcher := bridge.Render(store, Select);
    bridge.CommitPrevRef();
    assert bridge.EffectStore() == store;
    var threw := bridge.Reattach(h);
  }

  /**
    One button click in the example app while it is settled (the shown count
    is the store's and is committed): the dispatch signals the new count once
    per subscribed closure, the re-render shows it, and the commit replaces
    the current closure by a new closure h.
   */
  method AppClick(store: Store<Option<Counter>, Action>, bridge: Bridge<Option<Counter>, Action, Counter>, action: Action, h: Handler)
    returns (shown: Counter)
    requires store.Valid() && store.reducer == Reducer && store.state.Some?
    requires action == Increment || action == Decrement
    requires bridge.Valid() && bridge.store == store && bridge.mapState == Select
    requires ComparesCounts(bridge.shallowEqual) && ListenersSelect(store, bridge)
    requires bridge.handler.Some? && bridge.handler.value in store.subscribers && h !in bridge.closures
    requires bridge.prev == Some(bridge.current) && store.state == Some(bridge.current)
    modifies store`state, store`history, store`subscribers
    modifies bridge`store, bridge`mapState, bridge`rendered, bridge`prev
    modifies bridge`current, bridge`signals, bridge`handler, bridge`closures
    ensures store.Valid() && store.state == Some(shown)
    ensures shown.count == old(store.state).value.count + (if action == Increment then 1 else -1)
    ensures bridge.Valid() && bridge.store == store && bridge.mapState == Select
    ensures bridge.prev == Some(bridge.current) && bridge.current == shown
    ensures bridge.signals == old(bridge.signals) + seq(|old(store.subscribers)|, _ => shown)
    ensures bridge.handler == Some(h) && bridge.closures == old(bridge.closures)[h := Closure(store, Select)]
    ensures store.subscribers == AfterUnsubscribe(old(store.subscribers), old(bridge.handler).value) + [h]
    ensures ListenersSelect(store, bridge)
  {
    var before := store.subscribers;
    var old_handler := bridge.handler.value;
    var threw, ran := DispatchToApp(store, bridge, action);
    assert bridge.current == store.state.value;
    shown := RenderInlineSelector(store, bridge, h);
    forall x | x in store.subscribers
      ensures x in bridge.closures && bridge.closures[x] == Closure(store, Select)
    {
      if x != h {
        assert x in AfterUnsubscribe(before, old_handler);
        UnsubscribeOnlyRemoves(before, old_handler, x);
      }
    }
  }

  /**
    The example app after its first two clicks, both INCREMENT: closure 0
    signalled 1, then closures 0 and 1 each signalled 2; the commits left
    closures 0 and 2 subscribed.
   */
  method AppTwoIncrements(eq: (Option<Counter>, Counter) -> bool)
    returns (store: Store<Option<Counter>, Action>, bridge: Bridge<Option<Counter>, Action, Counter>)
    requires ComparesCounts(eq)
    ensures fresh(store) && fresh(bridge)
    ensures store.Valid() && store.reducer == Reducer && store.state == Some(Counter(2))
    ensures store.subscribers == [0, 2]
    ensures bridge.Valid() && bridge.store == store && bridge.mapState == Select && bridge.shallowEqual == eq
    ensures bridge.handler == Some(2)
    ensures bridge.closures == map[0 := Closure(store, Select), 1 := Closure(store, Select), 2 := Closure(store, Select)]
    ensures bridge.prev == Some(Counter(2)) && bridge.current == Counter(2)
    ensures bridge.signals == [Counter(1), Counter(2), Counter(2)]
    ensures ListenersSelect(store, bridge)
  {
    store, bridge := MountApp(eq);
    FirstSubscriberNeverRemoved([0], 0);
    var shown := AppClick(store, bridge, Increment, 1);
    assert seq(1, _ => Counter(1)) == [Counter(1)];
    assert store.subscribers == [0, 1] && bridge.signals == [Counter(1)];
    SubscribeThenUnsubscribe([0], 1);
    assert [0] + [1] == [0, 1];
    shown := AppClick(store, bridge, Increment, 2);
    assert seq(2, _ => Counter(2)) == [Counter(2), Counter(2)];
  }

  /**
    The example app itself: its selector is an inline arrow, so every render
    passes a new selector and every commit re-runs the set-up effect (the
    caller does this with Reattach, as function identity is not modelled).
    The first closure (id 0) sits at index 0 and is never removed, so from
    the second click on two closures run per dispatch: the signals are
    1, 2, 2, 1, 1 and the store ends with closures 0 and 3 subscribed.
   */
  method AppScenario(eq: (Option<Counter>, Counter) -> bool)
    returns (signals: seq<Counter>, shown: Counter, subscribed: seq<Handler>)
    requires ComparesCounts(eq)
    ensures signals == [Counter(1), Counter(2), Counter(2), Counter(1), Counter(1)]
    ensures shown == Counter(1)
    ensures subscribed == [0, 3]
  {
    var store, bridge := AppTwoIncrements(eq);
    SubscribeThenUnsubscribe([0], 2);
    assert [0] + [2] == [0, 2];
    shown := AppClick(store, bridge, Decrement, 3);
    assert seq(2, _ => Counter(1)) == [Counter(1), Counter(1)];
    signals := bridge.signals;
    subscribed := store.subscribers;
  }

  /**
    An action with no case in the reducer, dispatched after two INCREMENT
    clicks: the store's state becomes undefined, the first listener's
    selector throws on `state.count`, and the dispatch throws before the
    second of the two subscribed closures is called. Nothing is signalled.
   */
  method UnknownActionInApp(eq: (Option<Counter>, Counter) -> bool)
    returns (threw: bool, ran: nat, listeners: nat, state: Option<Counter>, signals: seq<Counter>)
    requires ComparesCounts(eq)
    ensures threw && ran == 1 && listeners == 2
    ensures state == None
    ensures signals == [Counter(1), Counter(2), Counter(2)]
  {
    var store, bridge := AppTwoIncrements(eq);
    threw, ran := DispatchToApp(store, bridge, Action("RESET"));
    listeners := |store.subscribers|;
    state := store.state;
    signals := bridge.signals;
  }

  /**
    INCREMENT and DECREMENT dispatched before the component re-renders (as
    inside one event handler), with a selector of stable identity: the
    second check compares against the committed count 0, sees no change and
    signals nothing, so the component shows 1 while the store holds 0, and
    nothing corrects it until the next dispatch.
   */
  method StaleAfterBatch(eq: (Option<Counter>, Counter) -> bool) returns (shown: Counter, state: Option<Counter>)
    requires ComparesCounts(eq)
    ensures shown == Counter(1)
    ensures state == Some(Counter(0))
  {
    var store, bridge := MountApp(eq);
    var threw, ran := DispatchToApp(store, bridge, Increment);
    threw, ran := DispatchToApp(store, bridge, Decrement);
    assert bridge.current == Counter(1);
    var dispatcher;
    shown, dispatcher := bridge.Render(store, Select);
    bridge.CommitPrevRef();
    state := store.GetState();
  }

  /**
    The same batch with the example's inline selector: the commit of the
    stale render re-runs the set-up effect, whose check compares the
    committed 1 with the store's 0 and signals 0, so the next render shows
    the store's count.
   */
  method BatchWithInlineSelector(eq: (Option<Counter>, Counter) -> bool)
    returns (firstShown: Counter, nextShown: Counter, signals: seq<Counter>)
    requires ComparesCounts(eq)
    ensures firstShown == Counter(1)
    ensures nextShown == Counter(0)
    ensures signals == [Counter(1), Counter(0)]
  {
    var store, bridge := MountApp(eq);
    var threw, ran := DispatchToApp(store, bridge, Increment);
    assert bridge.signals == [Counter(1)] && bridge.current == Counter(1);
    threw, ran := DispatchToApp(store, bridge, Decrement);
    assert bridge.signals == [Counter(1)] && bridge.current == Counter(1);
    firstShown := RenderInlineSelector(store, bridge, 1);
    var dispatcher;
    nextShown, dispatcher := bridge.Render(store, Select);
    signals := bridge.signals;
  }

  /**
    A dispatch of INCREMENT or DECREMENT followed by the corrected check of
    one component: whatever it showed before, it now holds the store's count.
   */
  method DispatchChecked(store: Store<Option<Counter>, Action>, bridge: Bridge<Option<Counter>, Action, Counter>, action: Action)
    returns (next: Counter)
    requires store.Valid() && store.reducer == Reducer && store.state.Some?
    requires action == Increment || action == Decrement
    requires ComparesCounts(bridge.shallowEqual)
    modifies store`state, store`history, bridge`current, bridge`signals
    ensures store.Valid() && store.state == Some(next)
    ensures next.count == old(store.state).value.count + (if action == Increment then 1 else -1)
    ensures bridge.current == next
  {
    var threw, notified := store.Dispatch(action);
    next := store.state.value;
    threw := bridge.CheckForUpdatesAgainstCurrent(store, Select);
  }

  /** The batch of StaleAfterBatch with the check against the last signalled value: the component shows the store's count. */
  method FreshAfterBatch(eq: (Option<Counter>, Counter) -> bool) returns (shown: Counter, state: Option<Counter>)
    requires ComparesCounts(eq)
    ensures shown == Counter(0)
    ensures state == Some(Counter(0))
  {
    var store := new Store(Reducer, Some(InitialState));
    var bridge := new Bridge(store, Select, eq);
    bridge.CommitPrevRef();
    var threw := bridge.CheckForUpdatesAgainstCurrent(store, Select);
    store.Subscribe(0);
    var next := DispatchChecked(store, bridge, Increment);
    next := DispatchChecked(store, bridge, Decrement);
    var dispatcher;
    shown, dispatcher := bridge.Render(store, Select);
    bridge.CommitPrevRef();
    state := store.GetState();
  }

  /** Two components mounted on the example store, whose set-up effects subscribe closures 1 and 2 in that order. */
  method MountTwo(eq: (Option<Counter>, Counter) -> bool)
    returns (store: Store<Option<Counter>, Action>, first: Bridge<Option<Counter>, Action, Counter>, second: Bridge<Option<Counter>, Action, Counter>)
    ensures fresh(store) && fresh(first) && fresh(second)
    ensures store.Valid() && store.reducer == Reducer && store.state == Some(InitialState)
    ensures store.subscribers == [1, 2]
    ensures first.Valid() && first.handler == Some(1) && first.EffectStore() == store
    ensures second.Valid() && second.handler == Some(2) && second.EffectStore() == store
  {
    store := new Store(Reducer, Some(InitialState));
    first := new Bridge(store, Select, eq);
    second := new Bridge(store, Select, eq);
    first.CommitPrevRef();
    second.CommitPrevRef();
    var threw := first.Setup(1);
    assert store.subscribers == [1] && first.handler == Some(1) && first.closures[1].store == store;
    threw := second.Setup(2);
  }

  /**
    Two components on one store, subscribed as 1 then 2. Unmounting the
    second removes its subscription, and the next dispatch still notifies the
    first; unmounting the first then leaves its subscription in place,
    because it sits at index 0.
   */
  method DetachScenario(eq: (Option<Counter>, Counter) -> bool)
    returns (afterSecond: seq<Handler>, notified: seq<Handler>, afterFirst: seq<Handler>)
    ensures afterSecond == [1]
    ensures notified == [1]
    ensures afterFirst == [1]
  {
    var store, first, second := MountTwo(eq);
    SubscribeThenUnsubscribe([1], 2);
    assert [1] + [2] == [1, 2];
    FirstSubscriberNeverRemoved([1], 1);

    second.Cleanup();
    afterSecond := store.subscribers;
    var t;
    t, notified := store.Dispatch(Increment);
    first.Cleanup();
    afterFirst := store.subscribers;
  }
}
