/**
 * `useObservable` and `useObservedContext`: a registry of listeners keyed by
 * subscriber id, owned by a provider, and the consumer-side guard that refuses
 * a context with no provider.
 *
 * Listeners and payloads are opaque: the model records each call of a
 * listener as a `Delivery` and each call of the owner's join hook as an id
 * appended to `joined`.
 */
module ObservedContext {
  import opened Wrappers
  import opened ListenerMap

  /** One call `fun(lState)` of a listener. */
  datatype Delivery<L, P> = Delivery(listener: L, payload: P)

  /** Calling `listeners.get(id)` when nothing is stored under `id` calls `undefined`. */
  datatype NotifyError = NotAFunction(id: Id)

  /** The error `useObservedContext` throws when the context value is `undefined`. */
  datatype BindError = BindError(message: string)

  const MissingProviderMessage: string :=
    "Context must be used within a provider or context is not observable"

  /**
   * JavaScript truthiness of `notify`'s `id` argument: `null` (the default),
   * `undefined` and the empty string are falsy and select a broadcast.
   */
  predicate Truthy(id: Option<Id>)
  {
    id.Some? && id.value != ""
  }

  /** `listeners.forEach(fun => fun(lState))`: one call per entry, in insertion order. */
  function Broadcast<L, P>(e: Entries<L>, p: P): seq<Delivery<L, P>>
  {
    seq(|e|, i requires 0 <= i < |e| => Delivery(e[i].1, p))
  }

  /** The listener calls `notify(p, id)` makes on the table `e`, or the error it throws. */
  function Notified<L, P>(e: Entries<L>, p: P, id: Option<Id>): (r: Result<seq<Delivery<L, P>>, NotifyError>)
    ensures r.Failure? <==> Truthy(id) && id.value !in Keys(e)
    ensures r.Failure? ==> r.error == NotAFunction(id.value)
    ensures r.Success? && Truthy(id) ==>
              exists k :: 0 <= k < |e| && e[k].0 == id.value && r.value == [Delivery(e[k].1, p)]
    ensures !Truthy(id) ==> r.Success? && |r.value| == |e|
    ensures !Truthy(id) && r.Success? ==> forall i :: 0 <= i < |e| ==> r.value[i] == Delivery(e[i].1, p)
  {
    if Truthy(id) then
      match Get(e, id.value)
      case None => Failure(NotAFunction(id.value))
      case Some(fun) => Success([Delivery(fun, p)])
    else
      Success(Broadcast(e, p))
  }

  /**
   * One call `onListenerAdded(id)` of the owner's join hook, with the table as
   * it stands when the hook runs (a hook that calls `notify` sees this table).
   */
  datatype Join<L> = Join(id: Id, table: Entries<L>)

  /** The closure `subscribe` returns: it deletes `id` from its owner's table. */
  datatype ReleaseHandle<L, P> = ReleaseHandle(owner: Registry<L, P>, id: Id)

  /** The state `useObservable` keeps for one provider. */
  class Registry<L, P> {
    /** The `listeners` map, in insertion order. */
    var listeners: Entries<L>
    /** Every call of the owner's join hook, one per `subscribe` call. */
    ghost var joined: seq<Join<L>>
    /** Every listener call made by `notify`, in call order. */
    ghost var deliveries: seq<Delivery<L, P>>

    ghost predicate Valid()
      reads this
    {
      UniqueIds(listeners)
    }

    /** A fresh provider: an empty table, no joins, no deliveries. */
    constructor ()
      ensures Valid()
      ensures listeners == [] && joined == [] && deliveries == []
    {
      listeners, joined, deliveries := [], [], [];
    }

    /**
     * `subscribe(fun, id)`: store `fun` under `id`, then call the join hook
     * with `id`, then return the release closure for `id`. The hook already
     * finds `fun` stored under `id`.
     */
    method Subscribe(fun: L, id: Id) returns (release: ReleaseHandle<L, P>)
      requires Valid()
      modifies this
      ensures Valid()
      ensures listeners == Set(old(listeners), id, fun)
      ensures joined == old(joined) + [Join(id, listeners)]
      ensures Get(joined[|joined| - 1].table, id) == Some(fun)
      ensures deliveries == old(deliveries)
      ensures release == ReleaseHandle(this, id)
    {
      SetKeepsUnique(listeners, id, fun);
      GetAfterSet(listeners, id, fun, id);
      listeners := Set(listeners, id, fun);
      joined := joined + [Join(id, listeners)];
      release := ReleaseHandle(this, id);
    }

    /**
     * `notify(lState, id)`: call the listener stored under a truthy `id`, or
     * every listener in insertion order when `id` is falsy. The table is not
     * changed; an unknown truthy id fails without calling anything.
     */
    method Notify(p: P, id: Option<Id>) returns (r: Outcome<NotifyError>)
      requires Valid()
      modifies this`deliveries
      ensures Notified(listeners, p, id).Failure? ==>
                r == Fail(Notified(listeners, p, id).error) && deliveries == old(deliveries)
      ensures Notified(listeners, p, id).Success? ==>
                r == Pass && deliveries == old(deliveries) + Notified(listeners, p, id).value
    {
      if Truthy(id) {
        var found := Get(listeners, id.value);
        if found.None? {
          return Fail(NotAFunction(id.value));
        }
        deliveries := deliveries + [Delivery(found.value, p)];
        return Pass;
      }
      var i := 0;
      while i < |listeners|
        invariant 0 <= i <= |listeners|
        invariant deliveries == old(deliveries) + Broadcast(listeners[..i], p)
      {
        assert Broadcast(listeners[..i + 1], p) == Broadcast(listeners[..i], p) + [Delivery(listeners[i].1, p)];
        deliveries := deliveries + [Delivery(listeners[i].1, p)];
        i := i + 1;
      }
      assert listeners[..i] == listeners;
      return Pass;
    }
  }

  /** Invoke a release closure: `listeners.delete(id)` on the table it came from. */
  method Release<L, P>(h: ReleaseHandle<L, P>)
    requires h.owner.Valid()
    modifies h.owner
    ensures h.owner.Valid()
    ensures h.owner.listeners == Delete(old(h.owner.listeners), h.id)
    ensures h.owner.joined == old(h.owner.joined) && h.owner.deliveries == old(h.owner.deliveries)
  {
    DeleteKeepsUnique(h.owner.listeners, h.id);
    h.owner.listeners := Delete(h.owner.listeners, h.id);
  }

  /** The effect `useObservedContext` schedules: `subscribe(fun, id)` on the context's registry. */
  datatype SubscribeEffect<S, L> = SubscribeEffect(subscribe: S, fun: L, id: Id)

  /**
   * The render part of `useObservedContext(fun, ObservedContext, id)`: with no
   * provider (`undefined` context value) it throws the configuration error and
   * schedules no subscription; otherwise it schedules `subscribe(fun, id)`.
   */
  function UseObservedContext<S, L>(context: Option<S>, fun: L, id: Id): (r: Result<SubscribeEffect<S, L>, BindError>)
    ensures r.Failure? <==> context.None?
    ensures r.Failure? ==> r.error.message == MissingProviderMessage
    ensures r.Success? ==> r.value.subscribe == context.value && r.value.fun == fun && r.value.id == id
  {
    match context
    case None => Failure(BindError(MissingProviderMessage))
    case Some(subscribe) => Success(SubscribeEffect(subscribe, fun, id))
  }

  /**
   * One activation of the consumer's effect: the previous activation's release
   * closure runs first, then `subscribe(fun, id)` on the context's registry.
   */
  method RunEffect<L, P>(effect: SubscribeEffect<Registry<L, P>, L>, cleanup: Option<ReleaseHandle<L, P>>)
    returns (release: ReleaseHandle<L, P>)
    requires effect.subscribe.Valid()
    requires cleanup.Some? ==> cleanup.value.owner.Valid()
    modifies effect.subscribe, if cleanup.Some? then {cleanup.value.owner} else {}
    ensures effect.subscribe.Valid()
    ensures effect.subscribe.listeners ==
              Set(if cleanup.Some? && cleanup.value.owner == effect.subscribe
                  then Delete(old(effect.subscribe.listeners), cleanup.value.id)
                  else old(effect.subscribe.listeners),
                  effect.id, effect.fun)
    ensures effect.subscribe.joined == old(effect.subscribe.joined) + [Join(effect.id, effect.subscribe.listeners)]
    ensures effect.subscribe.deliveries == old(effect.subscribe.deliveries)
    ensures cleanup.Some? && cleanup.value.owner != effect.subscribe ==>
              cleanup.value.owner.Valid() &&
              cleanup.value.owner.listeners == Delete(old(cleanup.value.owner.listeners), cleanup.value.id)
    ensures cleanup.Some? && cleanup.value.owner != effect.subscribe ==>
              cleanup.value.owner.joined == old(cleanup.value.owner.joined) &&
              cleanup.value.owner.deliveries == old(cleanup.value.owner.deliveries)
    ensures release == ReleaseHandle(effect.subscribe, effect.id)
  {
    if cleanup.Some? {
      Release(cleanup.value);
    }
    release := effect.subscribe.Subscribe(effect.fun, effect.id);
  }

  /** `notify(p, id)` for a truthy id present in the table calls exactly that id's listener, once. */
  lemma {:induction false} NotifyTargetsOne<L, P>(e: Entries<L>, p: P, k: nat)
    requires UniqueIds(e) && k < |e| && e[k].0 != ""
    ensures Notified(e, p, Some(e[k].0)) == Success([Delivery(e[k].1, p)])
  {
    GetAt(e, k);
  }

  /** After `subscribe(f, id)`, `notify(p, id)` with a truthy id calls `f` once and nothing else. */
  lemma {:induction false} SubscribeThenNotify<L, P>(e: Entries<L>, id: Id, f: L, p: P)
    requires id != ""
    ensures Notified(Set(e, id, f), p, Some(id)) == Success([Delivery(f, p)])
  {
    GetAfterSet(e, id, f, id);
  }

  /**
   * After releasing the subscriber at position `k`, a broadcast reaches every
   * other subscriber in the same order, and not the released one.
   */
  lemma {:induction false} BroadcastAfterRelease<L, P>(e: Entries<L>, k: nat, p: P)
    requires UniqueIds(e) && k < |e|
    ensures Broadcast(Delete(e, e[k].0), p) == Broadcast(e, p)[..k] + Broadcast(e, p)[k + 1..]
  {
    DeletePresent(e, e[k].0, k);
    BroadcastRemoveAt(e, k, p);
  }

  /** Dropping entry `k` from a table drops call `k` from its broadcast. */
  lemma {:induction false} BroadcastRemoveAt<L, P>(e: Entries<L>, k: nat, p: P)
    requires k < |e|
    ensures Broadcast(e[..k] + e[k + 1..], p) == Broadcast(e, p)[..k] + Broadcast(e, p)[k + 1..]
  {
    var r := e[..k] + e[k + 1..];
    assert forall i :: 0 <= i < |r| ==> r[i] == if i < k then e[i] else e[i + 1];
  }

  /**
   * Re-subscribing an id with another listener: a broadcast then reaches the
   * new listener, at that id's old position, and never the old one.
   */
  lemma {:induction false} BroadcastAfterResubscribe<L, P>(e: Entries<L>, k: nat, g: L, p: P)
    requires UniqueIds(e) && k < |e|
    ensures Broadcast(Set(e, e[k].0, g), p) == Broadcast(e, p)[k := Delivery(g, p)]
  {
    SetPresent(e, e[k].0, g, k);
    BroadcastReplaceAt(e, k, (e[k].0, g), p);
  }

  /** Replacing entry `k` of a table replaces call `k` of its broadcast. */
  lemma BroadcastReplaceAt<L, P>(e: Entries<L>, k: nat, x: (Id, L), p: P)
    requires k < |e|
    ensures Broadcast(e[k := x], p) == Broadcast(e, p)[k := Delivery(x.1, p)]
  {
  }

  /**
   * The consumer's activation cycle on one registry: releasing the previous
   * subscription of `id` and subscribing `id` again leaves the latest listener
   * stored under `id`, now last in broadcast order.
   */
  lemma {:induction false} ReactivationMovesToEnd<L, P>(e: Entries<L>, k: nat, f: L, p: P)
    requires UniqueIds(e) && k < |e|
    ensures Get(Set(Delete(e, e[k].0), e[k].0, f), e[k].0) == Some(f)
    ensures Broadcast(Set(Delete(e, e[k].0), e[k].0, f), p) ==
              Broadcast(e[..k] + e[k + 1..], p) + [Delivery(f, p)]
  {
    ReinsertMovesToEnd(e, e[k].0, f, k);
    GetAfterSet(Delete(e, e[k].0), e[k].0, f, e[k].0);
    BroadcastAppend(e[..k] + e[k + 1..], (e[k].0, f), p);
  }

  /** Appending an entry to a table appends its call to the broadcast. */
  lemma BroadcastAppend<L, P>(e: Entries<L>, x: (Id, L), p: P)
    ensures Broadcast(e + [x], p) == Broadcast(e, p) + [Delivery(x.1, p)]
  {
  }

  /**
   * A stale release closure from `subscribe(f, id)` also removes a later
   * `subscribe(g, id)`: together the three calls leave the table as one delete.
   */
  lemma {:induction false} StaleReleaseRemovesLater<L>(e: Entries<L>, id: Id, f: L, g: L)
    ensures Delete(Set(Set(e, id, f), id, g), id) == Delete(e, id)
  {
    SetTwice(e, id, f, g);
    DeleteAfterSet(e, id, g);
  }
}
