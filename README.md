# Observable context registry, modelled in Dafny

`react-observable-context` lets a provider component own a registry of
listeners (`useObservable`) and lets consumer components subscribe a callback
to it through a React context (`useObservedContext`). The registry is a
JavaScript `Map` from subscriber id to listener. `subscribe(fun, id)` stores
the listener, calls the owner's join hook with the id and returns a release
closure that deletes the id again. `notify(lState, id)` calls the one listener
stored under a truthy `id`, or every listener in insertion order when `id` is
falsy.

The model has three modules:

- `Wrappers` (Wrappers.dfy): `Option`, `Result` and `Outcome` for absent
  values and thrown errors.
- `ListenerMap` (ListenerMap.dfy): the `Map` as its entries in insertion
  order, with `Get`, `Set` and `Delete` as defined for `Map.prototype.get`,
  `set` and `delete`. `set` of a present key replaces the value in place,
  `set` of a new key appends, and `delete` of an absent key does nothing.
  The lemmas give the lookup, key-order and uniqueness facts for each.
- `ObservedContext` (ObservedContext.dfy): the `Registry` class holds
  `listeners` and two ghost logs of effects: `joined`, one `Join(id, table)`
  per call of the join hook with the table that call sees, and `deliveries`,
  one entry per listener call. Its methods are `Subscribe` and
  `Notify`. `Release` invokes a release closure (`ReleaseHandle`, the
  registry it came from plus the id). `UseObservedContext` is the
  missing-provider guard. `RunEffect` is one activation of the consumer's
  effect. `Notified` is the specification of what `notify` calls.

Listeners and payloads are opaque type parameters. A call of a listener is
recorded as a `Delivery(listener, payload)`. Calling `listeners.get(id)` for
a truthy id with no entry calls `undefined`, which throws a `TypeError`. The
model returns it as the failure `NotAFunction(id)`, with no delivery and no
change to the table.

## Model

| member | source | states |
|---|---|---|
| `ListenerMap.Keys` | src/ObservedContext.js:29 | the map's keys, position by position in insertion order |
| `ListenerMap.Get` | src/ObservedContext.js:42 | `get(id)` is absent exactly when `id` is not a key; when present it is the listener of an entry with key `id` |
| `ListenerMap.Set` | src/ObservedContext.js:33 | after `set(id, f)` the key order is unchanged when `id` was present, and otherwise is the old order with `id` appended |
| `ListenerMap.Delete` | src/ObservedContext.js:36 | after `delete(id)` the key `id` is absent, the map does not grow, and every remaining entry was already in the map (none was added) |
| `ListenerMap.GetAt` | src/ObservedContext.js:42 | in a map with distinct keys, `get` of the key at position `k` returns the listener at position `k` |
| `ListenerMap.GetAfterSet` | src/ObservedContext.js:33 | after `set(id, f)`, `id` maps to `f` and every other id keeps its listener or stays absent |
| `ListenerMap.SetPresent` | src/ObservedContext.js:33 | `set` of a present id replaces only that entry, at its original position |
| `ListenerMap.SetAbsent` | src/ObservedContext.js:33 | `set` of a new id appends one entry at the end and leaves the others unchanged |
| `ListenerMap.SetKeepsUnique` | src/ObservedContext.js:29-33 | `set` keeps every id in the map at most once |
| `ListenerMap.SetTwice` | src/ObservedContext.js:33 | re-subscribing an id gives the same map as subscribing it once with the later listener (last writer wins) |
| `ListenerMap.GetAfterDelete` | src/ObservedContext.js:36 | after `delete(id)`, `id` is absent and every other id keeps its listener or stays absent |
| `ListenerMap.DeleteAbsent` | src/ObservedContext.js:36 | `delete` of an absent id leaves the map unchanged |
| `ListenerMap.DeletePresent` | src/ObservedContext.js:36 | `delete` of a present id removes exactly that entry and keeps the order of the rest |
| `ListenerMap.DeleteTwice` | src/ObservedContext.js:35-37 | invoking a release a second time changes nothing |
| `ListenerMap.DeleteKeepsUnique` | src/ObservedContext.js:36 | `delete` keeps every id in the map at most once |
| `ListenerMap.DeleteAfterSet` | src/ObservedContext.js:33-36 | releasing an id undoes any earlier `set` of that id, whatever listener it stored |
| `ListenerMap.ReinsertMovesToEnd` | src/ObservedContext.js:33-36 | a delete followed by a set of the same id removes its old entry and appends the new one at the end |
| `ObservedContext.Notified` | src/ObservedContext.js:40-47 | `notify` fails exactly for a truthy id that is not a key; a truthy present id gives one call, to that id's listener; a falsy id gives one call per entry, in insertion order. `Truthy` is the `if (id)` test of line 41 (`null`, `undefined` and `""` are falsy); `Broadcast` is the `forEach` of line 45 |
| `ObservedContext.Registry.constructor` | src/ObservedContext.js:29 | a new registry has an empty table, no joins and no deliveries |
| `ObservedContext.Registry.Subscribe` | src/ObservedContext.js:32-38 | the table becomes `Set(old, id, fun)`; the join hook is called once, with `id`, and sees the table after the insertion, in which `id` already maps to `fun`; no listener is called; the returned handle releases `id` on this registry |
| `ObservedContext.Registry.Notify` | src/ObservedContext.js:40-47 | the table and the join log are unchanged; the calls made are exactly `Notified(...)`, appended in order; an unknown truthy id fails and calls nothing |
| `ObservedContext.Release` | src/ObservedContext.js:35-37 | the handle's registry loses the handle's id and nothing else changes |
| `ObservedContext.UseObservedContext` | src/ObservedContext.js:10-14 | an `undefined` context value gives the missing-provider error and no subscribe effect; otherwise the effect is `subscribe(fun, id)` on the context's value |
| `ObservedContext.RunEffect` | src/ObservedContext.js:15-17 | one activation: the previous release runs, then `subscribe(fun, id)`; the join log grows by one call with `id` and the new table, and the returned handle is the new one; a previous handle from another registry removes its id there and changes nothing else in it |
| `ObservedContext.NotifyTargetsOne` | src/ObservedContext.js:41-42 | `notify(p, id)` with a truthy present id calls exactly that id's listener, once |
| `ObservedContext.SubscribeThenNotify` | src/ObservedContext.js:32-43 | after `subscribe(f, id)` with a truthy id, `notify(p, id)` calls `f` once and nothing else |
| `ObservedContext.BroadcastAfterRelease` | src/ObservedContext.js:35-45 | after releasing one subscriber, a broadcast calls every other subscriber in the same order and not the released one |
| `ObservedContext.BroadcastAfterResubscribe` | src/ObservedContext.js:33-45 | after re-subscribing an id, a broadcast calls the new listener at that id's old position and never the old one |
| `ObservedContext.ReactivationMovesToEnd` | src/ObservedContext.js:15-17 | a consumer's re-activation leaves its latest listener under its id, now called last in a broadcast |
| `ObservedContext.StaleReleaseRemovesLater` | src/ObservedContext.js:32-37 | a stale release from `subscribe(f, id)` also removes a later `subscribe(g, id)`: the three calls amount to one delete |

## Left out

- React machinery (`useState`, `useContext`, `useEffect`, rendering and the commit/cleanup cycle) is not modelled. `RunEffect` stands for one activation: the previous release, then a subscribe.
- The closure-capture detail of `useObservable` is not modelled. Every render builds a new `Map`, but the functions pinned by `useState` use the first render's map. The model has one registry with one table.
- `useFun` from `react-use-fun` is not part of this model. The join hook is modelled only as the `joined` log of the ids it receives.
- `crypto.randomUUID()` default ids are not modelled; ids are explicit parameters. The default of `useObservedContext` is evaluated again on every render. So without a caller-supplied id, each activation subscribes under a new id. In the model that is a different `id` argument to `RunEffect`.
- Listener bodies and reentrancy are not modelled. Listeners are assumed not to touch the registry during `notify`, so the model does not cover `Map.forEach` seeing entries added or removed mid-iteration. The model iterates the table as it stands when `notify` begins.
- Only string ids and `null`/`undefined` are modelled for `notify`'s `id`. Other falsy JavaScript values (`0`, `false`, `NaN`) would also select a broadcast.
- Only `undefined` and a registry are modelled as context values. Another value, such as `null`, passes the guard and would fail only when the effect calls it.
- The guard's thrown `Error` is modelled as a `BindError` value carrying the same message. The unknown-id `TypeError` of `notify` is modelled as the outcome `NotAFunction(id)`, since the code throws rather than doing nothing.
