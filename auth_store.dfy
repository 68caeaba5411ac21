/**
 * The client's authentication store: one module-level state cell, a set
 * of subscribed listeners, and a notification to every listener after each
 * login and logout.
 */
module AuthStore {
  import opened Wrappers
  import Seqs

  datatype UserType = Customer | Merchant

  datatype User = User(
    id: string,
    name: Option<string>,
    email: string,
    userType: UserType,
    token: Option<string>,
    phone: Option<string>)

  datatype AuthState = AuthState(user: Option<User>, isAuthenticated: bool)

  /** A listener, known by its identity. */
  type Listener = nat

  /** The state is consistent when it is authenticated exactly when it holds a user. */
  predicate Consistent(s: AuthState) {
    s.isAuthenticated <==> s.user.Some?
  }

  const SignedOut: AuthState := AuthState(None, false)

  /** The snapshot used while rendering on the server: always signed out. */
  function ServerSnapshot(): (s: AuthState)
    ensures Consistent(s) && s.user.None? && !s.isAuthenticated
  {
    AuthState(None, false)
  }

  /** `Set.prototype.add`: appended unless already present; insertion order is kept. */
  function SetAdd(xs: seq<Listener>, x: Listener): (r: seq<Listener>)
    ensures Seqs.NoDuplicates(xs) ==> Seqs.NoDuplicates(r)
    ensures forall y :: y in r <==> y in xs || y == x
    ensures x in xs ==> r == xs
  {
    if x in xs then xs else xs + [x]
  }

  /** `Set.prototype.delete`: the element removed, the others kept in order. */
  function SetDelete(xs: seq<Listener>, x: Listener): (r: seq<Listener>)
    ensures forall y :: y in r <==> y in xs && y != x
    ensures |r| <= |xs|
    ensures Seqs.NoDuplicates(xs) ==> Seqs.NoDuplicates(r)
  {
    if xs == [] then []
    else
      var rest := SetDelete(xs[1..], x);
      assert forall y :: y in rest ==> y in xs[1..];
      assert Seqs.NoDuplicates(xs) ==> Seqs.NoDuplicates(xs[1..]) && xs[0] !in xs[1..] by {
        if Seqs.NoDuplicates(xs) {
          forall k | 0 <= k < |xs[1..]| ensures xs[1..][k] != xs[0] && xs[1..][k] == xs[k + 1] {}
        }
      }
      if xs[0] == x then rest else [xs[0]] + rest
  }

  /** Deleting right after adding gives the set back, for a listener not already in it. */
  lemma {:induction false} DeleteUndoesAdd(xs: seq<Listener>, x: Listener)
    requires x !in xs
    ensures SetDelete(SetAdd(xs, x), x) == xs
  {
    if xs == [] {
      assert SetAdd(xs, x) == [x];
    } else {
      assert SetAdd(xs, x) == xs + [x];
      assert (xs + [x])[1..] == xs[1..] + [x];
      DeleteUndoesAdd(xs[1..], x);
      assert SetAdd(xs[1..], x) == xs[1..] + [x];
    }
  }

  /** The store: the state cell, the listener set and, as a log, every notification delivered. */
  class Store {
    var state: AuthState
    var listeners: seq<Listener>
    var calls: seq<Listener>

    ghost predicate Valid()
      reads this
    {
      Consistent(state) && Seqs.NoDuplicates(listeners)
    }

    constructor ()
      ensures Valid() && state == SignedOut && listeners == [] && calls == []
    {
      state := SignedOut;
      listeners := [];
      calls := [];
    }

    function Get(): (s: AuthState)
      reads this
      requires Valid()
      ensures Consistent(s)
    {
      state
    }

    /** Calls every listener once, in insertion order. */
    method EmitChange()
      modifies this
      ensures calls == old(calls) + listeners
      ensures state == old(state) && listeners == old(listeners)
    {
      var i := 0;
      while i < |listeners|
        invariant 0 <= i <= |listeners|
        invariant calls == old(calls) + listeners[..i]
        invariant state == old(state) && listeners == old(listeners)
      {
        calls := calls + [listeners[i]];
        i := i + 1;
      }
    }

    method Login(user: User)
      requires Valid()
      modifies this
      ensures Valid()
      ensures state == AuthState(Some(user), true)
      ensures listeners == old(listeners) && calls == old(calls) + listeners
    {
      state := AuthState(Some(user), true);
      EmitChange();
    }

    method Logout()
      requires Valid()
      modifies this
      ensures Valid()
      ensures state == SignedOut
      ensures listeners == old(listeners) && calls == old(calls) + listeners
    {
      state := SignedOut;
      EmitChange();
    }

    /** `subscribe`: adds the listener; `Unsubscribe` is the function it returns. */
    method Subscribe(listener: Listener)
      requires Valid()
      modifies this
      ensures Valid()
      ensures listeners == SetAdd(old(listeners), listener)
      ensures state == old(state) && calls == old(calls)
    {
      listeners := SetAdd(listeners, listener);
    }

    /** The unsubscribe function: removes the listener and reports whether it was there. */
    method Unsubscribe(listener: Listener) returns (removed: bool)
      requires Valid()
      modifies this
      ensures Valid()
      ensures removed <==> listener in old(listeners)
      ensures listeners == SetDelete(old(listeners), listener)
      ensures state == old(state) && calls == old(calls)
    {
      removed := listener in listeners;
      listeners := SetDelete(listeners, listener);
    }
  }

  /** A login notifies each subscribed listener exactly once, and no other. */
  lemma NotifiedOnce(listeners: seq<Listener>, before: seq<Listener>, after: seq<Listener>, l: Listener)
    requires Seqs.NoDuplicates(listeners) && after == before + listeners
    ensures multiset(after)[l] - multiset(before)[l] == if l in listeners then 1 else 0
  {
    Seqs.OccursOnce(listeners, l);
  }

  /** Subscribing, logging in and unsubscribing: the listener hears the login once and then nothing. */
  method SubscribeLoginUnsubscribe(store: Store, listener: Listener, user: User)
    requires store.Valid() && listener !in store.listeners
    modifies store
    ensures store.Valid() && store.listeners == old(store.listeners)
    ensures store.state == AuthState(Some(user), true)
    ensures multiset(store.calls)[listener] == multiset(old(store.calls))[listener] + 1
  {
    store.Subscribe(listener);
    ghost var before := store.calls;
    store.Login(user);
    NotifiedOnce(store.listeners, before, store.calls, listener);
    var removed := store.Unsubscribe(listener);
    DeleteUndoesAdd(old(store.listeners), listener);
  }
}
