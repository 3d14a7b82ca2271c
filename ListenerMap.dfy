/**
 * The `listeners` table of `useObservable`: a JavaScript `Map` from subscriber
 * id to listener, modelled as its entries in insertion order. `Get`, `Set` and
 * `Delete` have the meaning of `Map.prototype.get`, `set` and `delete`:
 * `set` on a present key replaces the value in place, on an absent key appends
 * a new entry; `delete` of an absent key changes nothing.
 */
module ListenerMap {
  import opened Wrappers

  /** A subscriber id (`crypto.randomUUID()` or one the caller supplies). */
  type Id = string

  /** The entries of a `Map`, in insertion order. */
  type Entries<L> = seq<(Id, L)>

  /** The keys of the map, in the order `Map` iterates them. */
  function Keys<L>(e: Entries<L>): (ks: seq<Id>)
    ensures |ks| == |e|
    ensures forall i :: 0 <= i < |e| ==> ks[i] == e[i].0
  {
    if e == [] then [] else [e[0].0] + Keys(e[1..])
  }

  /** A `Map` holds each key at most once. */
  predicate UniqueIds<L>(e: Entries<L>)
  {
    forall i, j :: 0 <= i < j < |e| ==> e[i].0 != e[j].0
  }

  /** `Map.prototype.get`: the listener stored under `id`, if any. */
  function Get<L>(e: Entries<L>, id: Id): (r: Option<L>)
    ensures r.None? <==> id !in Keys(e)
    ensures r.Some? ==> exists k :: 0 <= k < |e| && e[k] == (id, r.value)
  {
    if e == [] then None
    else if e[0].0 == id then Some(e[0].1)
    else
      var r := Get(e[1..], id);
      assert r.Some? ==> exists k :: 0 <= k < |e[1..]| && e[1..][k] == (id, r.value);
      r
  }

  /** `Map.prototype.set`: store `f` under `id`. */
  function Set<L>(e: Entries<L>, id: Id, f: L): (r: Entries<L>)
    ensures Keys(r) == if id in Keys(e) then Keys(e) else Keys(e) + [id]
  {
    if e == [] then [(id, f)]
    else if e[0].0 == id then [(id, f)] + e[1..]
    else
      var r := [e[0]] + Set(e[1..], id, f);
      assert Keys(e) == [e[0].0] + Keys(e[1..]);
      assert Keys(r) == [e[0].0] + Keys(Set(e[1..], id, f));
      r
  }

  /** `Map.prototype.delete`: remove the entry for `id`, if there is one. */
  function Delete<L>(e: Entries<L>, id: Id): (r: Entries<L>)
    ensures id !in Keys(r)
    ensures |r| <= |e|
    ensures forall x :: x in r ==> x in e
  {
    if e == [] then []
    else if e[0].0 == id then Delete(e[1..], id)
    else [e[0]] + Delete(e[1..], id)
  }

  /** The entry at position `k` is the one `Get` finds for its key. */
  lemma {:induction false} GetAt<L>(e: Entries<L>, k: nat)
    requires UniqueIds(e) && k < |e|
    ensures Get(e, e[k].0) == Some(e[k].1)
  {
    if k > 0 {
      assert e[0].0 != e[k].0;
      assert e[1..][k - 1] == e[k];
      GetAt(e[1..], k - 1);
    }
  }

  /** After `set(id, f)`, `id` maps to `f` and every other id keeps its listener. */
  lemma {:induction false} GetAfterSet<L>(e: Entries<L>, id: Id, f: L, x: Id)
    ensures Get(Set(e, id, f), x) == if x == id then Some(f) else Get(e, x)
  {
    if e != [] && e[0].0 != id {
      GetAfterSet(e[1..], id, f, x);
    }
  }

  /** `set` on a present id replaces its entry in place: same keys, same position. */
  lemma {:induction false} SetPresent<L>(e: Entries<L>, id: Id, f: L, k: nat)
    requires UniqueIds(e) && k < |e| && e[k].0 == id
    ensures Set(e, id, f) == e[k := (id, f)]
  {
    if k > 0 {
      assert e[0].0 != id;
      assert e[1..][k - 1].0 == id;
      SetPresent(e[1..], id, f, k - 1);
      assert e[k := (id, f)] == [e[0]] + e[1..][k - 1 := (id, f)];
    } else {
      assert e[k := (id, f)] == [(id, f)] + e[1..];
    }
  }

  /** `set` on an absent id appends a new entry and leaves the others as they were. */
  lemma {:induction false} SetAbsent<L>(e: Entries<L>, id: Id, f: L)
    requires id !in Keys(e)
    ensures Set(e, id, f) == e + [(id, f)]
  {
    if e != [] {
      assert e[0].0 == Keys(e)[0];
      assert forall i :: 0 <= i < |e[1..]| ==> Keys(e[1..])[i] == Keys(e)[i + 1];
      SetAbsent(e[1..], id, f);
      assert e + [(id, f)] == [e[0]] + (e[1..] + [(id, f)]);
    }
  }

  /** `set` keeps the keys of the map distinct. */
  lemma {:induction false} SetKeepsUnique<L>(e: Entries<L>, id: Id, f: L)
    requires UniqueIds(e)
    ensures UniqueIds(Set(e, id, f))
  {
    var r := Set(e, id, f);
    assert forall i, j :: 0 <= i < j < |r| ==> r[i].0 == Keys(r)[i] && r[j].0 == Keys(r)[j];
    if id in Keys(e) {
      var k :| 0 <= k < |e| && Keys(e)[k] == id;
      SetPresent(e, id, f, k);
    } else {
      SetAbsent(e, id, f);
    }
  }

  /** Setting the same id twice leaves only the second listener (last writer wins). */
  lemma {:induction false} SetTwice<L>(e: Entries<L>, id: Id, f: L, g: L)
    ensures Set(Set(e, id, f), id, g) == Set(e, id, g)
  {
    if e != [] && e[0].0 != id {
      SetTwice(e[1..], id, f, g);
    }
  }

  /** After `delete(id)`, `id` is absent and every other id keeps its listener. */
  lemma {:induction false} GetAfterDelete<L>(e: Entries<L>, id: Id, x: Id)
    ensures Get(Delete(e, id), x) == if x == id then None else Get(e, x)
  {
    if e != [] {
      GetAfterDelete(e[1..], id, x);
    }
  }

  /** `delete` of an absent id is a no-op. */
  lemma {:induction false} DeleteAbsent<L>(e: Entries<L>, id: Id)
    requires id !in Keys(e)
    ensures Delete(e, id) == e
  {
    if e != [] {
      assert e[0].0 == Keys(e)[0];
      assert forall i :: 0 <= i < |e[1..]| ==> Keys(e[1..])[i] == Keys(e)[i + 1];
      DeleteAbsent(e[1..], id);
    }
  }

  /** `delete` of a present id removes exactly its entry and keeps the order of the rest. */
  lemma {:induction false} DeletePresent<L>(e: Entries<L>, id: Id, k: nat)
    requires UniqueIds(e) && k < |e| && e[k].0 == id
    ensures Delete(e, id) == e[..k] + e[k + 1..]
  {
    if k > 0 {
      assert e[1..][k - 1].0 == id;
      DeletePresent(e[1..], id, k - 1);
      assert e[..k] + e[k + 1..] == [e[0]] + (e[1..][..k - 1] + e[1..][k..]);
    } else {
      assert forall i :: 0 <= i < |e[1..]| ==> Keys(e[1..])[i] == e[i + 1].0 != id;
      DeleteAbsent(e[1..], id);
    }
  }

  /** Deleting twice is the same as deleting once. */
  lemma {:induction false} DeleteTwice<L>(e: Entries<L>, id: Id)
    ensures Delete(Delete(e, id), id) == Delete(e, id)
  {
    DeleteAbsent(Delete(e, id), id);
  }

  /** `delete` keeps the keys of the map distinct. */
  lemma {:induction false} DeleteKeepsUnique<L>(e: Entries<L>, id: Id)
    requires UniqueIds(e)
    ensures UniqueIds(Delete(e, id))
  {
    if id in Keys(e) {
      var k :| 0 <= k < |e| && Keys(e)[k] == id;
      DeletePresent(e, id, k);
      RemoveAtKeepsUnique(e, k);
    } else {
      DeleteAbsent(e, id);
    }
  }

  /** Dropping one entry from a map with distinct keys leaves the keys distinct. */
  lemma {:induction false} RemoveAtKeepsUnique<L>(e: Entries<L>, k: nat)
    requires UniqueIds(e) && k < |e|
    ensures UniqueIds(e[..k] + e[k + 1..])
  {
    var r := e[..k] + e[k + 1..];
    assert forall i :: 0 <= i < |r| ==> r[i] == if i < k then e[i] else e[i + 1];
  }

  /** Deleting an id undoes any `set` of that id: removal is by id, not by listener. */
  lemma {:induction false} DeleteAfterSet<L>(e: Entries<L>, id: Id, f: L)
    ensures Delete(Set(e, id, f), id) == Delete(e, id)
  {
    if e != [] && e[0].0 != id {
      DeleteAfterSet(e[1..], id, f);
    }
  }

  /** A delete followed by a set of the same id moves that id to the end. */
  lemma {:induction false} ReinsertMovesToEnd<L>(e: Entries<L>, id: Id, f: L, k: nat)
    requires UniqueIds(e) && k < |e| && e[k].0 == id
    ensures Set(Delete(e, id), id, f) == e[..k] + e[k + 1..] + [(id, f)]
  {
    DeletePresent(e, id, k);
    SetAbsent(Delete(e, id), id, f);
  }
}
