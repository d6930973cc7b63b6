# use-substate: a Dafny model of the store and the update-decision bridge

This project models the logic of `use-substate`, a small library that connects
a Redux-style store to UI components through a `useStore(mapState)` hook. It
has three parts.

- **Store** (`store.dfy`, module `Stores`). This is `createStore` from
  `example/createStore.js`, modelled as a class. `state` is replaced on every
  `dispatch`. `subscribers` is an ordered `seq` of handler identities:
  `subscribe` grows it and the returned `unsubscribe` closure shrinks it in
  place.
  - A ghost `history` of dispatched actions, with `Valid()`, keeps the
    invariant that the state is the left fold of the reducer over those
    actions.
  - Unsubscribe is modelled exactly as written: it finds the handler with
    `indexOf` and splices it out only when that index is greater than 0. The
    lemmas prove what follows. The first subscriber can never be removed.
    Removal goes by value, so several calls of one registration's closure
    remove several registrations.
- **Bridge** (`bridge.dfy`, module `Bridges`). This is `useStore` from
  `src/index.js` with the component framework stripped away. One `Bridge` is
  one mounted component.
  - `store` and `mapState` are what the latest render read: the context's
    store and the selector it was passed. `Render` takes both as arguments.
  - `current` is the state cell that `setMappedState` writes.
  - `rendered` is what the last render returned.
  - `prev` is `prevMappedStateRef.current`, which only a committed render
    updates.
  - `closures` records, for every `checkForUpdates` closure the set-up effect
    created, the store and selector it captured. A closure therefore goes on
    checking its own store with its own selector, even after a later render
    changed them.
  - `handler` is the closure of the effect in place.
  - `signals` logs every `setMappedState` call.

  Mount, render, the after-render ref commit, the set-up effect (check, then
  subscribe), its cleanup (unsubscribe) and the re-run after a dependency
  change are explicit methods, which callers run in the framework's order.
  `shallowEqual` is an arrow field that the model never interprets.
- **Example** (`example.dfy`, module `Example`). This covers the counter
  `reducer`, `initialState` and the inline selector of `example/example.js`,
  plus scenarios that drive the store and bridges through the example's
  dispatches.

JavaScript calls that can throw are modelled as `Completion` (`wrappers.dfy`):
either `Returned(v)` or `Threw`. Two calls here can throw. The reducer and the
selector read `state.count` and therefore throw on an undefined state. When
the reducer throws, `dispatch` leaves the state alone and notifies nobody,
because the assignment never happens. When the selector throws,
`checkForUpdates` signals nothing and the set-up effect does not subscribe.
`undefined` is `None` of `Option`. The reducer has no `default` case, so an
unknown action makes the store's state `None`.

Handler invocation is a call into code the store cannot see. `Dispatch`
therefore sets the state and returns the handlers that `forEach` is to call,
in array order. The caller then runs them with `Notify`, each against the
store and selector it captured. As `forEach` does, it stops at the first
handler that throws, and the dispatch then throws with the new state already
in place (`Example.DispatchToApp`). The example reaches this: an action with
no case in the reducer makes the state undefined, and the next selector call
throws on `state.count` (`Example.UnknownActionInApp`).

Consequences of the code that the model makes explicit:
- An `unsubscribe` closure is not idempotent. It removes the first entry equal
  to its handler, which may be another registration's, and it never removes
  the entry at index 0.
- `checkForUpdates` compares against the value of the last committed render,
  not against the last value it passed to `setMappedState`.
- The example app's selector is an inline arrow, so every render passes a new
  selector and every commit re-runs the set-up effect. The first closure sits
  at index 0 and is never removed, so from the second click on two closures
  run per dispatch. The counter run 0 → 1 → 2 → 1 signals `{count: 1}`,
  `{count: 2}` twice and `{count: 1}` twice (`Example.AppScenario`). A
  selector of stable identity signals once per step (`Example.BridgeScenario`).

## Model

| member | source | states |
|---|---|---|
| `Stores.IndexOf` | example/createStore.js:16 | the result is -1 exactly when the handler is absent; otherwise it is an index holding the handler with no earlier occurrence |
| `Stores.AfterUnsubscribe` | example/createStore.js:16-19 | the list is unchanged when the handler is absent or first sits at index 0; otherwise it loses exactly one entry |
| `Stores.AfterUnsubscribeIntended` | example/createStore.js:16-19 | with the guard `index >= 0`, one copy of the handler is removed when present, the other handlers keep their order, and an absent handler changes nothing |
| `Stores.Fold` | example/createStore.js:9-10 | no actions leave the state as it was; one action is one reducer call; a throwing call ends the fold |
| `Stores.Store.constructor` | example/createStore.js:3-4 | the initial state is the given argument, the subscriber list is empty, and the fold invariant holds over the empty history |
| `Stores.Store.WithoutState` | example/createStore.js:3 | with the state argument omitted, the initial state is the value that stands for `{}` |
| `Stores.Store.GetState` | example/createStore.js:6-8 | returns the current state, which is the left fold of the reducer, from the initial state, over every dispatched action whose reducer call returned |
| `Stores.FoldSnoc` | example/createStore.js:9-10 | the fold over the actions plus one more equals one reducer call on the earlier fold's result (or a throw when that fold threw) |
| `Stores.Store.Dispatch` | example/createStore.js:9-12 | the new state is the reducer's result on the old state, and the history grows by the action; the handlers for `forEach` to call are every subscriber once, in array order, and the list is unchanged; if the reducer throws, nothing changes and there is nobody to call |
| `Stores.Store.Subscribe` | example/createStore.js:13-14 | appends the handler at the end; earlier entries and the state are unchanged |
| `Stores.Store.Unsubscribe` | example/createStore.js:15-20 | the list becomes `AfterUnsubscribe` of the old list (splice at the first index, only if it is above 0); the state is untouched |
| `Stores.SpliceAt` | example/createStore.js:18 | splicing out one entry equal to h removes exactly one h from the multiset and keeps every other entry in its order |
| `Stores.UnsubscribeRemovesFirstOccurrence` | example/createStore.js:16-18 | when the first index i of h is above 0: the result has one entry fewer, the part before i and the part after it are kept, one copy of h is gone, and the other handlers keep their order |
| `Stores.UnsubscribeOnlyRemoves` | example/createStore.js:16-18 | every handler subscribed after an unsubscribe call was subscribed before it |
| `Stores.UnsubscribeKeepsOthers` | example/createStore.js:16-18 | an unsubscribe call for h keeps every other handler, in its order |
| `Stores.FirstSubscriberNeverRemoved` | example/createStore.js:17 | a handler at index 0 stays subscribed after its unsubscribe |
| `Stores.SubscribeThenUnsubscribe` | example/createStore.js:14-19 | for a new handler, subscribe followed by its unsubscribe restores the list exactly when the list was not empty |
| `Stores.IntendedSubscribeThenUnsubscribe` | example/createStore.js:14-19 | with the guard `index >= 0`, subscribe followed by its unsubscribe restores every list, the empty one included |
| `Stores.UnsubscribeTimes` | example/createStore.js:15-20 | k calls of unsubscribe closures for h never lengthen the list |
| `Stores.UnsubscribeKeepsFrontEntry` | example/createStore.js:16-18 | if h is not first, one call removes one h (or none if h is absent) and h still is not first afterwards |
| `Stores.UnsubscribeTimesKeepsOthers` | example/createStore.js:15-20 | however many unsubscribe calls for h run, the other handlers keep their order |
| `Stores.RepeatedUnsubscribe` | example/createStore.js:15-20 | if h is not first, k calls remove min(k, count of h) copies of h, whichever registration's closure is called, and h never reaches index 0 |
| `Bridges.Bridge.constructor` | src/index.js:11-15 | the mounting render sets the mapped state to `mapState(store.getState())`; the ref is still undefined; nothing is subscribed or signalled yet |
| `Bridges.Bridge.Render` | src/index.js:8-36 | a render reads the given store and selector, returns the current mapped state, and returns that store as its `dispatch` |
| `Bridges.Bridge.CommitPrevRef` | src/index.js:39-44 | after a render commits, the comparison baseline becomes the rendered value; nothing else writes it |
| `Bridges.Bridge.CheckForUpdates` | src/index.js:19-28 | for a closure that captured store s and selector m: maps s's present state with m; if the result is shallow-equal to the committed value, nothing changes; otherwise the mapped state becomes the result and exactly one signal is logged; a throwing selector changes nothing |
| `Bridges.Bridge.Notify` | example/createStore.js:11 | the store calling a subscribed closure runs that closure's own check, with the store and selector it captured |
| `Bridges.Bridge.Setup` | src/index.js:17-31 | a new closure checks the latest render's store and selector once, with the outcome of `CheckForUpdates`, and is then appended to that store's subscribers with that pair recorded; if the check throws, nothing is subscribed |
| `Bridges.Bridge.Cleanup` | src/index.js:31 | the cleanup is the unsubscribe of the store the effect's closure captured: its list becomes `AfterUnsubscribe` of it, and no effect is in place afterwards |
| `Bridges.Bridge.Reattach` | src/index.js:17-34 | after a change of store or selector: the store the old closure captured loses it by the unsubscribe rule, then a new closure checks the new store and selector and is appended to the new store |
| `Bridges.Bridge.CheckForUpdatesAgainstCurrent` | src/index.js:23 | corrected check against the last value given to `setMappedState`: after it, the mapped state equals or is shallow-equal to the store's mapped state |
| `Example.Reducer` | example/example.js:8-15 | `INCREMENT` and `DECREMENT` throw exactly when the state is undefined, and on a defined state return a defined record whose count is 1 more or 1 less; any other action yields undefined |
| `Example.Select` | example/example.js:19-21 | the selector returns a record with the state's count, and throws exactly when the state is undefined |
| `Example.IncrementAddsOne` | example/example.js:10-11 | `INCREMENT` yields `{count: count + 1}` |
| `Example.DecrementSubtractsOne` | example/example.js:12-13 | `DECREMENT` yields `{count: count - 1}` |
| `Example.OtherActionYieldsUndefined` | example/example.js:9-14 | any other action type yields undefined, whatever the state |
| `Example.CounterActionOnUndefinedThrows` | example/example.js:10-13 | the two counter actions throw on an undefined state |
| `Example.IncrementDecrementRoundTrip` | example/example.js:10-13 | `INCREMENT` then `DECREMENT` restores the state, and so does the reverse order |
| `Example.FoldCounterActions` | example/example.js:8-15 | folding any run of counter actions never throws and adds (number of INCREMENTs) minus (number of DECREMENTs) to the count |
| `Example.ExampleRunEndsAtOne` | example/example.js:7-16 | from `initialState`, `{count: 0}`, the fold over two `INCREMENT`s and one `DECREMENT` gives `{count: 1}` |
| `Example.CounterScenario` | example/example.js:16 | the example store after two `INCREMENT` dispatches and one `DECREMENT` reports `{count: 1}`, with no subscribers notified |
| `Example.UndefinedStateScenario` | example/example.js:8-15 | an unknown action makes the store's state undefined; a following `INCREMENT` throws and leaves it undefined |
| `Example.RemovalByValueScenario` | example/createStore.js:13-19 | with handlers [5, 1, 1], the first handle for 1 called twice removes both registrations of 1 |
| `Example.BridgeScenario` | src/index.js:17-44 | one mounted component whose selector keeps its identity, with a render between dispatches: the three dispatches signal `{count: 1}`, `{count: 2}`, `{count: 1}`, and the last render shows 1 |
| `Example.Click` | example/example.js:29-30 | a click while one component with a stable selector is the only subscriber: the dispatch signals the new count once, and the committed re-render shows it |
| `Example.MountApp` | example/example.js:7 | the app mounted on the example store from `initialState` shows `{count: 0}`, commits it, and subscribes its first closure, 0, which captured the store and selector |
| `Example.DispatchToApp` | example/createStore.js:9-12 | a dispatch sets the state and runs the subscribed closures in order, stopping at the first that throws, in which case the dispatch throws: a throwing reducer runs none, an undefined state stops at the first, and a defined one runs them all, each signalling the new count unless it is the committed one |
| `Example.RenderInlineSelector` | src/index.js:17-44 | a render of the app passes a new selector, so its commit replaces the effect's closure: the old one is unsubscribed by the unsubscribe rule, and the new one signals the store's count only if it differs from the rendered one |
| `Example.AppClick` | example/example.js:18-30 | a click in the settled app signals the new count once per subscribed closure; the re-render shows it; the closure in place is replaced by a new one |
| `Example.AppTwoIncrements` | example/example.js:18-29 | after two `INCREMENT` clicks the app has signalled 1, 2, 2, shows 2, and has closures 0 and 2 subscribed |
| `Example.AppScenario` | example/example.js:18-30 | the example app over the counter run 0 → 1 → 2 → 1 signals 1, 2, 2, 1, 1 and ends showing 1, with closures 0 and 3 subscribed |
| `Example.UnknownActionInApp` | example/example.js:9-14 | after two clicks an unknown action makes the state undefined; the dispatch throws after calling only the first of the two subscribed closures, and nothing is signalled |
| `Example.StaleAfterBatch` | src/index.js:23 | with a stable selector and `INCREMENT` and `DECREMENT` dispatched before a re-render, the component shows 1 while the store holds 0 |
| `Example.BatchWithInlineSelector` | src/index.js:17-34 | the same batch with the example's inline selector: the stale render shows 1, its commit's new check signals 0, and the next render shows 0 |
| `Example.DispatchChecked` | src/index.js:23 | with the corrected check, a component shows the store's count after every counter dispatch |
| `Example.FreshAfterBatch` | src/index.js:23 | the batch of `StaleAfterBatch` with the corrected check leaves the component showing 0, matching the store |
| `Example.MountTwo` | src/index.js:29-31 | two components mounted on one store subscribe their closures 1 and 2, in that order |
| `Example.DetachScenario` | example/createStore.js:17 | of two components subscribed as 1, 2, detaching the second removes it and the first is still notified; detaching the first leaves its subscription in place |

The scenarios that compare records take a hypothesis, `ComparesCounts`: for
records `{count: n}`, `shallowEqual` holds exactly when the counts agree, and
never against undefined. That is what shallow equality means for one-field
records of numbers. The model assumes it only in those scenarios, and the
store and bridge members never use it.

## Left out

- Component-framework machinery (`useState`, `useEffect`, `useContext`, `useRef`, `createContext`, `StoreProvider`): replaced by explicit bridge fields and methods, which the caller sequences in the framework's order (render, ref commit, cleanups, set-up effect).
- The framework's bail-out when `setMappedState` receives the value it already holds: `signals` logs every call, whether or not a re-render follows.
- JSX, `ReactDOM.render`, `document.getElementById` and the button markup of `example/example.js` (lines 23-41): UI plumbing. A button click is modelled as the dispatch it makes.
- The body of `shallowEqual`: `src/shallowEqual` is not part of this model. It stays an uninterpreted arrow, and no reflexivity or key-order property is claimed for it.
- Re-entrant `dispatch` from inside a subscriber, and `unsubscribe` during the `forEach` iteration: the code defines no policy for either. `Dispatch` reports the handlers in order, and the caller runs them after the state is set.
- The mismatch of module and export names between `example/example.js` (lines 4-5) and the other files: packaging, not logic.
- Function identity: handlers are `nat` ids that the caller chooses, and closures are compared only by those ids. Whether a render's store or selector differs from the previous one (the effect's dependency list) is the caller's decision: it calls `Reattach` after the commit when they differ.
- Thrown values: a throw is recorded only as `Threw`. What it carries, and how it propagates through the framework, is not modelled.
- JavaScript numbers: `count` is an unbounded `int`. Rounding beyond 2^53 and `NaN` are not modelled.
- Action fields other than `type`, and a `type` that is not a string.
- Stores.Store.Dispatch: does not call the handlers, which are code the store cannot see. It returns them in order, and a handler's throw, which ends `forEach` and makes `dispatch` throw after the state is replaced, is for callers to model: they must stop at the first `Notify` that returns `threw`, as `Example.DispatchToApp` does.
- Stores.Store.constructor: an explicit `undefined` argument also selects the `{}` default in JavaScript. The model routes every omitted or undefined argument to `WithoutState`, where the caller supplies the value that stands for `{}`, because `{}` has no counterpart in the example's state type.
- Bridges.Bridge.constructor: requires the selector to return on the mounting render. A selector that throws there makes the mount fail, so no bridge exists to model.
- Bridges.Bridge.Setup: requires a closure id not used before, since every run of the effect creates a new function object. It does not require a prior cleanup: the framework always runs the cleanup first, and `Reattach` models that order.

## Findings

| source | as written | input that shows it | evidently intended | confidence | as-written member | corrected member |
|---|---|---|---|---|---|---|
| example/createStore.js:17 | `if (index > 0)` before the splice | subscribe h on an empty store, then call its unsubscribe: the list is still [h] | `index >= 0` (any found index) | not executed; high | `Stores.FirstSubscriberNeverRemoved` | `Stores.IntendedSubscribeThenUnsubscribe` |
| src/index.js:23 | compares the new mapped state with `prevMappedStateRef.current`, the last committed value | with a selector of stable identity, `INCREMENT` then `DECREMENT` dispatched before a re-render commits: the component shows 1 while the store holds 0, until the next dispatch. With the example's inline selector, the commit re-runs the check and corrects it to 0 (`Example.BatchWithInlineSelector`) | compare with the last value given to `setMappedState` | not executed; medium, since it needs two dispatches before the after-render effect runs | `Example.StaleAfterBatch` | `Bridges.Bridge.CheckForUpdatesAgainstCurrent` |

The `Store` and `Bridge` classes keep the code as written, since they model
the repository's behaviour. The corrected definitions sit beside them, each
with its intended property proved: `Stores.AfterUnsubscribeIntended` (whose
contract states the intended removal) with
`Stores.IntendedSubscribeThenUnsubscribe`, and
`Bridges.Bridge.CheckForUpdatesAgainstCurrent` with `Example.DispatchChecked`
and `Example.FreshAfterBatch`.
