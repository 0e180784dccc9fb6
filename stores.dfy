/**
 * The entity stores (the vehicle and customer repositories): entries keyed
 * by id, with the ids kept in insertion order so that iterating a store is
 * deterministic.  Inserting, deleting and sweeping a store are given here
 * as functions on store values.
 */
module Stores {

  import opened Wrappers

  datatype Store<E> = Store(ids: seq<int>, items: map<int, E>)

  predicate Distinct(s: seq<int>) {
    forall i, j | 0 <= i < j < |s| :: s[i] != s[j]
  }

  /** The ids list holds every key of the store exactly once. */
  predicate Valid<E>(s: Store<E>) {
    && Distinct(s.ids)
    && (forall id | id in s.items :: id in s.ids)
    && (forall id | id in s.ids :: id in s.items)
  }

  function Empty<E>(): (r: Store<E>)
    ensures Valid(r) && r.ids == [] && r.items == map[]
  {
    Store([], map[])
  }

  /** Stores `e` under `id`; a new id goes to the end of the iteration order. */
  function Put<E>(s: Store<E>, id: int, e: E): (r: Store<E>)
    requires Valid(s)
    ensures Valid(r) && r.items == s.items[id := e]
    ensures r.ids == if id in s.items then s.ids else s.ids + [id]
  {
    if id in s.items then Store(s.ids, s.items[id := e]) else Store(s.ids + [id], s.items[id := e])
  }

  /** `ids` without the members of `gone`, in the same order. */
  function Without(ids: seq<int>, gone: set<int>): (r: seq<int>)
    ensures forall x :: x in r <==> x in ids && x !in gone
    decreases |ids|
  {
    if ids == [] then []
    else
      var last := ids[|ids| - 1];
      var rest := Without(ids[..|ids| - 1], gone);
      assert ids == ids[..|ids| - 1] + [last];
      if last in gone then rest else rest + [last]
  }

  lemma {:induction false} WithoutDistinct(ids: seq<int>, gone: set<int>)
    requires Distinct(ids)
    ensures Distinct(Without(ids, gone))
    decreases |ids|
  {
    if ids != [] {
      var n := |ids| - 1;
      WithoutDistinct(ids[..n], gone);
      assert ids[n] !in ids[..n];
    }
  }

  lemma {:induction false} WithoutNothing(ids: seq<int>)
    ensures Without(ids, {}) == ids
    decreases |ids|
  {
    if ids != [] {
      WithoutNothing(ids[..|ids| - 1]);
      assert ids == ids[..|ids| - 1] + [ids[|ids| - 1]];
    }
  }

  /** Removing two sets of ids one after the other removes their union. */
  lemma {:induction false} WithoutWithout(ids: seq<int>, a: set<int>, b: set<int>)
    ensures Without(Without(ids, a), b) == Without(ids, a + b)
    decreases |ids|
  {
    if ids != [] {
      var n := |ids| - 1;
      var last := ids[n];
      WithoutWithout(ids[..n], a, b);
      if last !in a {
        var q := Without(ids[..n], a);
        assert (q + [last])[..|q|] == q;
      }
    }
  }

  /** Deletes `id` from the store, keeping the order of the others. */
  function Remove<E>(s: Store<E>, id: int): (r: Store<E>)
    requires Valid(s)
    ensures Valid(r) && r.items == s.items - {id} && r.ids == Without(s.ids, {id})
  {
    WithoutDistinct(s.ids, {id});
    Store(Without(s.ids, {id}), s.items - {id})
  }

  /**
   * One pass over the entities named in `order`: each is advanced from the
   * value it had in `s0` (the snapshot the pass iterates) and is then
   * deleted if it is `done`, or stored back otherwise.
   */
  function Sweep<E>(s0: Store<E>, order: seq<int>, advance: E -> E, done: E -> bool): (r: Store<E>)
    requires Valid(s0)
    requires forall id | id in order :: id in s0.items
    ensures Valid(r)
    decreases |order|
  {
    if order == [] then s0
    else
      var id := order[|order| - 1];
      assert forall x | x in order[..|order| - 1] :: x in order;
      var s := Sweep(s0, order[..|order| - 1], advance, done);
      var e := advance(s0.items[id]);
      if done(e) then Remove(s, id) else Put(s, id, e)
  }

  /** The ids of `order` whose entity is done once advanced. */
  function Departed<E>(s0: Store<E>, order: seq<int>, advance: E -> E, done: E -> bool): set<int> {
    set id | id in order && id in s0.items && done(advance(s0.items[id]))
  }

  /** Visiting one more entity adds it to the departed set exactly when it is done. */
  lemma DepartedStep<E>(s0: Store<E>, p: seq<int>, id: int, advance: E -> E, done: E -> bool)
    requires id in s0.items
    ensures Departed(s0, p + [id], advance, done) ==
            Departed(s0, p, advance, done) + (if done(advance(s0.items[id])) then {id} else {})
  {
  }

  /** A sweep deletes exactly the departed entities. */
  lemma {:induction false} SweepKeys<E>(s0: Store<E>, order: seq<int>, advance: E -> E, done: E -> bool)
    requires Valid(s0)
    requires forall id | id in order :: id in s0.items
    ensures Sweep(s0, order, advance, done).items.Keys == s0.items.Keys - Departed(s0, order, advance, done)
    decreases |order|
  {
    if order == [] {
      assert Departed(s0, order, advance, done) == {};
    } else {
      var n := |order| - 1;
      var p := order[..n];
      assert order == p + [order[n]];
      assert forall x | x in p :: x in order;
      SweepKeys(s0, p, advance, done);
      DepartedStep(s0, p, order[n], advance, done);
    }
  }

  /** A sweep keeps the iteration order of the entities it does not delete. */
  lemma {:induction false} SweepIds<E>(s0: Store<E>, order: seq<int>, advance: E -> E, done: E -> bool)
    requires Valid(s0)
    requires forall id | id in order :: id in s0.items
    ensures Sweep(s0, order, advance, done).ids == Without(s0.ids, Departed(s0, order, advance, done))
    decreases |order|
  {
    if order == [] {
      assert Departed(s0, order, advance, done) == {};
      WithoutNothing(s0.ids);
    } else {
      var n := |order| - 1;
      var id := order[n];
      var p := order[..n];
      assert order == p + [id];
      assert forall x | x in p :: x in order;
      SweepIds(s0, p, advance, done);
      var s := Sweep(s0, p, advance, done);
      var e := advance(s0.items[id]);
      var goneP := Departed(s0, p, advance, done);
      DepartedStep(s0, p, id, advance, done);
      if done(e) {
        assert Sweep(s0, order, advance, done) == Remove(s, id);
        WithoutWithout(s0.ids, goneP, {id});
      } else {
        SweepKeys(s0, p, advance, done);
        assert id in s.items;
        assert Departed(s0, order, advance, done) == goneP;
        assert Sweep(s0, order, advance, done) == Put(s, id, e);
      }
    }
  }

  /** A sweep stores every visited survivor advanced and leaves unvisited entities alone. */
  lemma {:induction false} SweepValues<E>(s0: Store<E>, order: seq<int>, advance: E -> E, done: E -> bool)
    requires Valid(s0)
    requires forall id | id in order :: id in s0.items
    ensures var r := Sweep(s0, order, advance, done);
            forall id | id in r.items :: id in s0.items && r.items[id] == if id in order then advance(s0.items[id]) else s0.items[id]
    decreases |order|
  {
    if order != [] {
      var n := |order| - 1;
      var p := order[..n];
      assert order == p + [order[n]];
      assert forall x | x in p :: x in order;
      SweepValues(s0, p, advance, done);
    }
  }

  /**
   * A sweep deletes exactly the entities that are done after advancing,
   * keeps the iteration order of the rest, stores every other swept entity
   * in its advanced state and leaves the entities it did not visit alone.
   */
  lemma SweepRemovesExactlyTheDone<E>(s0: Store<E>, order: seq<int>, advance: E -> E, done: E -> bool)
    requires Valid(s0)
    requires forall id | id in order :: id in s0.items
    ensures var r := Sweep(s0, order, advance, done);
            var gone := Departed(s0, order, advance, done);
            && r.ids == Without(s0.ids, gone)
            && r.items.Keys == s0.items.Keys - gone
            && forall id | id in r.items :: r.items[id] == if id in order then advance(s0.items[id]) else s0.items[id]
  {
    SweepIds(s0, order, advance, done);
    SweepKeys(s0, order, advance, done);
    SweepValues(s0, order, advance, done);
  }

  /** Puts every arrival into the store, in order; a later arrival with the same id wins. */
  function Merge<E>(s: Store<E>, arrivals: seq<(int, E)>): (r: Store<E>)
    requires Valid(s)
    ensures Valid(r)
    decreases |arrivals|
  {
    if arrivals == [] then s
    else
      var last := arrivals[|arrivals| - 1];
      Put(Merge(s, arrivals[..|arrivals| - 1]), last.0, last.1)
  }

  /** The entity of the last arrival carrying `id`, if any. */
  function Latest<E>(arrivals: seq<(int, E)>, id: int): Option<E>
    decreases |arrivals|
  {
    if arrivals == [] then None
    else if arrivals[|arrivals| - 1].0 == id then Some(arrivals[|arrivals| - 1].1)
    else Latest(arrivals[..|arrivals| - 1], id)
  }

  /**
   * After a merge the store holds the old entries plus every arriving id;
   * an arriving id holds exactly the entity of its last arrival, any other
   * entry is unchanged, and the old ids keep their place at the front of the
   * iteration order.
   */
  lemma {:induction false} MergeSpec<E>(s: Store<E>, arrivals: seq<(int, E)>)
    requires Valid(s)
    ensures var r := Merge(s, arrivals);
            && |s.ids| <= |r.ids| && r.ids[..|s.ids|] == s.ids
            && (forall id :: id in r.items <==> id in s.items || Latest(arrivals, id).Some?)
            && (forall id | Latest(arrivals, id).Some? :: r.items[id] == Latest(arrivals, id).value)
            && (forall id | id in s.items && Latest(arrivals, id).None? :: r.items[id] == s.items[id])
    decreases |arrivals|
  {
    if arrivals != [] {
      MergeSpec(s, arrivals[..|arrivals| - 1]);
    }
  }
}
