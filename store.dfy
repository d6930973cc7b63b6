/**
  Model of example/createStore.js: a Redux-style store whose closure holds
  the current state and an ordered array of subscriber callbacks.

  Subscriber callbacks are known only by their identity (a Handler id);
  what a callback does when invoked lies outside the store, so Dispatch
  reports the callbacks it invokes, in order, to its caller.
 */
module Stores {
  import opened Wrappers

  /** The identity of a subscriber callback. */
  type Handler = nat

  /** Array.prototype.indexOf: the first index at which h occurs in s, or -1. */
  function IndexOf(s: seq<Handler>, h: Handler): (i: int)
    ensures -1 <= i < |s|
    ensures i == -1 <==> h !in s
    ensures 0 <= i ==> s[i] == h && h !in s[..i]
  {
    if s == [] then -1
    else if s[0] == h then 0
    else
      var j := IndexOf(s[1..], h);
      if j == -1 then -1
      else
        assert s[..j + 1] == [s[0]] + s[1..][..j];
        j + 1
  }

  /**
    The subscriber array after the `unsubscribe` closure issued for h runs,
    as the code is written: the first occurrence of h is spliced out only
    when its index is greater than 0.
   */
  function AfterUnsubscribe(s: seq<Handler>, h: Handler): (r: seq<Handler>)
    ensures IndexOf(s, h) <= 0 ==> r == s
    ensures IndexOf(s, h) > 0 ==> |r| == |s| - 1
  {
    var i := IndexOf(s, h);
    if i > 0 then s[..i] + s[i + 1..] else s
  }

  /**
    The removal the guard evidently intends (`index >= 0`): the first
    occurrence of h is spliced out wherever it is.
   */
  function AfterUnsubscribeIntended(s: seq<Handler>, h: Handler): (r: seq<Handler>)
    ensures multiset(r) == multiset(s) - multiset{h}
    ensures Others(r, h) == Others(s, h)
    ensures h !in s ==> r == s
  {
    var i := IndexOf(s, h);
    if i >= 0 then (SpliceAt(s, i, h); s[..i] + s[i + 1..]) else s
  }

  /** The entries of s other than h, in their order: a reference view of "the other subscribers". */
  function Others(s: seq<Handler>, h: Handler): (r: seq<Handler>)
    ensures h !in r
    ensures |r| <= |s|
  {
    if s == [] then [] else (if s[0] == h then [] else [s[0]]) + Others(s[1..], h)
  }

  lemma {:induction false} OthersAppend(a: seq<Handler>, b: seq<Handler>, h: Handler)
    ensures Others(a + b, h) == Others(a, h) + Others(b, h)
  {
    if a == [] {
      assert a + b == b;
    } else {
      assert (a + b)[1..] == a[1..] + b;
      OthersAppend(a[1..], b, h);
    }
  }

  /** Splicing out an occurrence of h removes exactly one copy of h. */
  lemma SpliceMultiset(s: seq<Handler>, i: nat, h: Handler)
    requires i < |s| && s[i] == h
    ensures multiset(s[..i] + s[i + 1..]) == multiset(s) - multiset{h}
  {
    var pre, post := s[..i], s[i + 1..];
    assert s == pre + [h] + post;
  }

  /** Splicing out an occurrence of h keeps every other entry, in its order. */
  lemma SpliceOthers(s: seq<Handler>, i: nat, h: Handler)
    requires i < |s| && s[i] == h
    ensures Others(s[..i] + s[i + 1..], h) == Others(s, h)
  {
    var pre, post := s[..i], s[i + 1..];
    assert s == (pre + [h]) + post;
    OthersAppend(pre + [h], post, h);
    OthersAppend(pre, [h], h);
    OthersAppend(pre, post, h);
    assert [h][1..] == [];
    assert Others([h], h) == [];
    assert Others(pre + [h], h) == Others(pre, h);
  }

  /** Both facts about a splice at index i. */
  lemma SpliceAt(s: seq<Handler>, i: nat, h: Handler)
    requires i < |s| && s[i] == h
    ensures multiset(s[..i] + s[i + 1..]) == multiset(s) - multiset{h}
    ensures Others(s[..i] + s[i + 1..], h) == Others(s, h)
  {
    SpliceMultiset(s, i, h);
    SpliceOthers(s, i, h);
  }

  /**
    When the first occurrence of h is at an index i > 0, unsubscribe removes
    exactly that entry: the prefix before it and the suffix after it stay
    as they were, one copy of h disappears, and the other subscribers keep
    their relative order.
   */
  lemma UnsubscribeRemovesFirstOccurrence(s: seq<Handler>, h: Handler)
    requires IndexOf(s, h) > 0
    ensures var i, r := IndexOf(s, h), AfterUnsubscribe(s, h);
      |r| == |s| - 1 && r[..i] == s[..i] && r[i..] == s[i + 1..] &&
      multiset(r) == multiset(s) - multiset{h} &&
      Others(r, h) == Others(s, h)
  {
    var i := IndexOf(s, h);
    var r := s[..i] + s[i + 1..];
    assert AfterUnsubscribe(s, h) == r;
    SpliceAt(s, i, h);
    assert r[..i] == s[..i];
    assert r[i..] == s[i + 1..];
  }

  /** An unsubscribe call never adds a subscriber. */
  lemma UnsubscribeOnlyRemoves(s: seq<Handler>, h: Handler, x: Handler)
    requires x in AfterUnsubscribe(s, h)
    ensures x in s
  {
    var i := IndexOf(s, h);
    if i > 0 {
      assert s == s[..i] + [h] + s[i + 1..];
    }
  }

  /** The subscriber at index 0 can never be removed by its unsubscribe closure. */
  lemma FirstSubscriberNeverRemoved(s: seq<Handler>, h: Handler)
    requires |s| > 0 && s[0] == h
    ensures AfterUnsubscribe(s, h) == s
    ensures h in AfterUnsubscribe(s, h)
  {
  }

  /**
    Subscribing a fresh handler and then calling its unsubscribe closure
    restores the array exactly when the array was not empty before: the
    handler that became the only subscriber stays subscribed.
   */
  lemma SubscribeThenUnsubscribe(s: seq<Handler>, h: Handler)
    requires h !in s
    ensures AfterUnsubscribe(s + [h], h) == s <==> s != []
  {
    var t := s + [h];
    assert IndexOf(t, h) == |s|;
    assert t[..|s|] == s;
    if s == [] {
      assert AfterUnsubscribe(t, h) == [h];
    }
  }

  /** With the intended guard, subscribe followed by its unsubscribe is the identity, also on an empty array. */
  lemma IntendedSubscribeThenUnsubscribe(s: seq<Handler>, h: Handler)
    requires h !in s
    ensures AfterUnsubscribeIntended(s + [h], h) == s
  {
    var t := s + [h];
    assert IndexOf(t, h) == |s|;
    assert t[..|s|] == s;
  }

  /** k successive calls of an unsubscribe closure for h. */
  function UnsubscribeTimes(s: seq<Handler>, h: Handler, k: nat): (r: seq<Handler>)
    ensures |r| <= |s|
    decreases k
  {
    if k == 0 then s else AfterUnsubscribe(UnsubscribeTimes(s, h, k - 1), h)
  }

  /**
    After a call whose first h was not at index 0, the next first h (if any)
    is not at index 0 either: the entry before it is still in front.
   */
  lemma UnsubscribeKeepsFrontEntry(s: seq<Handler>, h: Handler)
    requires IndexOf(s, h) != 0
    ensures IndexOf(AfterUnsubscribe(s, h), h) != 0
    ensures multiset(AfterUnsubscribe(s, h))[h] == (if h in s then multiset(s)[h] - 1 else 0)
  {
    if h in s {
      var i := IndexOf(s, h);
      UnsubscribeRemovesFirstOccurrence(s, h);
      var r := AfterUnsubscribe(s, h);
      assert r[0] == s[0];
    }
  }

  /** An unsubscribe call for h keeps every other subscriber, in its order. */
  lemma UnsubscribeKeepsOthers(s: seq<Handler>, h: Handler)
    ensures Others(AfterUnsubscribe(s, h), h) == Others(s, h)
  {
    if IndexOf(s, h) > 0 {
      UnsubscribeRemovesFirstOccurrence(s, h);
    }
  }

  /** However often unsubscribe closures for h run, the other subscribers keep their order. */
  lemma {:induction false} UnsubscribeTimesKeepsOthers(s: seq<Handler>, h: Handler, k: nat)
    ensures Others(UnsubscribeTimes(s, h, k), h) == Others(s, h)
    decreases k
  {
    if k > 0 {
      UnsubscribeTimesKeepsOthers(s, h, k - 1);
      UnsubscribeKeepsOthers(UnsubscribeTimes(s, h, k - 1), h);
    }
  }

  /**
    Removal goes by value, not by registration: while the first h is not at
    index 0, every call removes one more occurrence of h, whichever
    registration's closure is called, until none is left, and the first h
    never reaches index 0.
   */
  lemma {:induction false} RepeatedUnsubscribe(s: seq<Handler>, h: Handler, k: nat)
    requires IndexOf(s, h) != 0
    ensures multiset(UnsubscribeTimes(s, h, k))[h] == (if k <= multiset(s)[h] then multiset(s)[h] - k else 0)
    ensures IndexOf(UnsubscribeTimes(s, h, k), h) != 0
    decreases k
  {
    if k > 0 {
      RepeatedUnsubscribe(s, h, k - 1);
      var t: seq<Handler> := UnsubscribeTimes(s, h, k - 1);
      UnsubscribeKeepsFrontEntry(t, h);
      var n: nat := multiset(s)[h];
      var m: nat := multiset(t)[h];
      assert m == (if k - 1 <= n then n - (k - 1) else 0);
      assert h in t <==> m > 0;
    }
  }

  /** The left fold of a reducer over actions, stopping at the first call that throws. */
  function Fold<S, A>(reducer: (S, A) -> Completion<S>, s: S, actions: seq<A>): (r: Completion<S>)
    ensures actions == [] ==> r == Returned(s)
    ensures |actions| == 1 ==> r == reducer(s, actions[0])
    ensures actions != [] && reducer(s, actions[0]).Threw? ==> r == Threw
  {
    if actions == [] then Returned(s)
    else
      match reducer(s, actions[0])
      case Threw => Threw
      case Returned(t) => Fold(reducer, t, actions[1..])
  }

  /** One more action extends the fold by one reducer call on its result. */
  lemma {:induction false} FoldSnoc<S, A>(reducer: (S, A) -> Completion<S>, s: S, actions: seq<A>, a: A)
    ensures Fold(reducer, s, actions + [a]) ==
      match Fold(reducer, s, actions)
      case Threw => Threw
      case Returned(t) => reducer(t, a)
  {
    if actions == [] {
      assert actions + [a] == [a];
    } else {
      assert (actions + [a])[1..] == actions[1..] + [a];
      match reducer(s, actions[0])
      case Threw =>
      case Returned(t) => FoldSnoc(reducer, t, actions[1..], a);
    }
  }

  /**
    The object returned by createStore. `state` and `subscribers` are the
    closure's two mutable variables; the ghost `history` lists the actions
    whose reducer call returned, so that Valid() states that the state is
    always the left fold of the reducer over them.
   */
  class Store<S, A> {
    const reducer: (S, A) -> Completion<S>
    var state: S
    var subscribers: seq<Handler>
    ghost const initial: S
    ghost var history: seq<A>

    ghost predicate Valid()
      reads this`state, this`history
    {
      Fold(reducer, initial, history) == Returned(state)
    }

    /** createStore(reducer, state) with a state argument other than undefined. */
    constructor (reducer: (S, A) -> Completion<S>, state: S)
      ensures Valid()
      ensures this.reducer == reducer && this.state == state && initial == state
      ensures subscribers == [] && history == []
    {
      this.reducer := reducer;
      this.state := state;
      subscribers := [];
      initial := state;
      history := [];
    }

    /** createStore(reducer) with the state argument omitted: emptyObject stands for the default `{}`. */
    constructor WithoutState(reducer: (S, A) -> Completion<S>, emptyObject: S)
      ensures Valid()
      ensures this.reducer == reducer && state == emptyObject && initial == emptyObject
      ensures subscribers == [] && history == []
    {
      this.reducer := reducer;
      state := emptyObject;
      subscribers := [];
      initial := emptyObject;
      history := [];
    }

    /** The current state: the left fold of the reducer over the dispatched actions. */
    method GetState() returns (s: S)
      ensures s == state
      ensures Valid() ==> Fold(reducer, initial, history) == Returned(s)
    {
      s := state;
    }

    /**
      The state becomes reducer(state, action) before any subscriber runs;
      then every subscriber is invoked once, in array order. When the reducer
      throws, the error escapes before the assignment: nothing changes and
      nobody is notified.
     */
    method Dispatch(action: A) returns (threw: bool, notified: seq<Handler>)
      requires Valid()
      modifies this`state, this`history
      ensures Valid()
      ensures threw <==> reducer(old(state), action).Threw?
      ensures threw ==> state == old(state) && history == old(history) && notified == []
      ensures !threw ==> state == reducer(old(state), action).value && history == old(history) + [action]
      ensures !threw ==> notified == subscribers
    {
      var next := reducer(state, action);
      if next.Threw? {
        return true, [];
      }
      FoldSnoc(reducer, initial, history, action);
      state := next.value;
      history := history + [action];
      threw := false;
      notified := [];
      var i := 0;
      while i < |subscribers|
        invariant 0 <= i <= |subscribers|
        invariant notified == subscribers[..i]
      {
        notified := notified + [subscribers[i]];
        i := i + 1;
      }
    }

    /** Appends h; the returned unsubscribe closure is modelled by Unsubscribe(h). */
    method Subscribe(h: Handler)
      modifies this`subscribers
      ensures subscribers == old(subscribers) + [h]
    {
      subscribers := subscribers + [h];
    }

    /** The `unsubscribe` closure returned by Subscribe(h). */
    method Unsubscribe(h: Handler)
      modifies this`subscribers
      ensures subscribers == AfterUnsubscribe(old(subscribers), h)
    {
      var index := IndexOf(subscribers, h);
      if index > 0 {
        subscribers := subscribers[..index] + subscribers[index + 1..];
      }
    }
  }
}
