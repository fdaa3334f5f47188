/** `PooledListContainer`: a list of active list items and a FIFO queue of
    pooled ones, with its own hard cap of 100 items in all.

    `ListState` is the two collections as a value and the functions after it
    say what each operation does to them; the class is proved against those
    functions, and the items' own state changes are stated with the
    functions of `UIElements`. `Start` runs before any other call, so the
    preload happens in the constructor. */
module ListContainer {
  import opened Common
  import opened UIElements

  const PreloadCount: nat := 20
  const MaxCount: nat := 100

  /** `activeItems` and `pooledItems` (head first). */
  datatype ListState<I> = ListState(active: seq<I>, pooled: seq<I>)

  function Total<I>(s: ListState<I>): nat {
    |s.active| + |s.pooled|
  }

  /** The cap holds and no item is filed twice. */
  ghost predicate Bounded<I>(s: ListState<I>) {
    Total(s) <= MaxCount && Distinct(s.active + s.pooled)
  }

  /** `GetListItem` can hand out an item: one is pooled, or there is room
      to make one. */
  predicate CanTake<I>(s: ListState<I>) {
    |s.pooled| > 0 || Total(s) < MaxCount
  }

  /** `GetListItem` with `made` as the item a new instantiation would give:
      the head of the queue if there is one, otherwise `made` while below
      the cap, otherwise nothing. The item handed out becomes active. */
  function Take<I>(s: ListState<I>, made: I): (ListState<I>, Option<I>) {
    if |s.pooled| > 0 then (ListState(s.active + [s.pooled[0]], s.pooled[1..]), Some(s.pooled[0]))
    else if Total(s) < MaxCount then (ListState(s.active + [made], s.pooled), Some(made))
    else (s, None)
  }

  /** `ReturnListItem`: an active item leaves the list (its first occurrence)
      and joins the back of the queue; any other item is ignored. */
  function Return<I(==)>(s: ListState<I>, item: I): ListState<I> {
    if item in s.active then ListState(RemoveFirst(s.active, item), s.pooled + [item]) else s
  }

  /** `ClearAllItems`: every active item, front first, joins the back of the
      queue. */
  function ReturnAll<I>(s: ListState<I>): ListState<I> {
    ListState([], s.pooled + s.active)
  }

  // ---------------------------------------------------------------------
  // Facts about the lists

  /** Taking keeps the cap and the distinctness, creates at most one item,
      and creates one only when nothing is pooled. */
  lemma TakeKeepsBounded<I>(s: ListState<I>, made: I)
    requires Bounded(s) && (|s.pooled| == 0 ==> made !in s.active + s.pooled)
    ensures var (t, item) := Take(s, made);
      && Bounded(t)
      && (item.Some? <==> CanTake(s))
      && (item.None? ==> t == s)
      && (|s.pooled| > 0 ==> item == Some(s.pooled[0]) && Total(t) == Total(s))
      && (|s.pooled| == 0 && CanTake(s) ==> item == Some(made) && Total(t) == Total(s) + 1)
      && (item.Some? ==> t.active == s.active + [item.value])
  {
    var (t, item) := Take(s, made);
    if |s.pooled| > 0 {
      assert t.active + t.pooled == s.active + s.pooled by {
        assert s.pooled == [s.pooled[0]] + s.pooled[1..];
      }
    } else if Total(s) < MaxCount {
      assert t.active + t.pooled == s.active + s.pooled + [made];
    }
  }

  /** A returned item moves from the list to the back of the queue; the
      totals and the cap are kept. Returning an item that is not active
      changes nothing, so a second return is a no-op. */
  lemma ReturnKeepsBounded<I>(s: ListState<I>, item: I)
    requires Bounded(s)
    ensures var t := Return(s, item);
      && Bounded(t) && Total(t) == Total(s)
      && (item !in s.active ==> t == s)
      && (item in s.active ==> item !in t.active && t.pooled == s.pooled + [item])
      && Return(t, item) == t
  {
    var t := Return(s, item);
    if item in s.active {
      DistinctAppend(s.active, s.pooled);
      RemoveFirstDistinct(s.active, item);
      assert multiset(t.active + t.pooled) == multiset(s.active + s.pooled) by {
        assert multiset(t.active) == multiset(s.active) - multiset{item};
      }
      DistinctJoin(t.active, t.pooled, s.active, s.pooled, item);
    }
  }

  lemma {:induction false} DistinctAppend<I>(a: seq<I>, b: seq<I>)
    requires Distinct(a + b)
    ensures Distinct(a) && Distinct(b) && forall x :: x in a ==> x !in b
  {
    forall i, j | 0 <= i < j < |a| ensures a[i] != a[j] {
      assert a[i] == (a + b)[i] && a[j] == (a + b)[j];
    }
    forall i, j | 0 <= i < j < |b| ensures b[i] != b[j] {
      assert b[i] == (a + b)[|a| + i] && b[j] == (a + b)[|a| + j];
    }
    forall x | x in a ensures x !in b {
      var i :| 0 <= i < |a| && a[i] == x;
      assert (a + b)[i] == x;
      forall j | 0 <= j < |b| ensures b[j] != x {
        assert (a + b)[|a| + j] == b[j];
      }
    }
  }

  /** Moving `item` out of the active list and onto the queue keeps the
      two collections free of duplicates. */
  lemma DistinctJoin<I>(ta: seq<I>, tp: seq<I>, sa: seq<I>, sp: seq<I>, item: I)
    requires Distinct(sa) && Distinct(sp) && (forall x :: x in sa ==> x !in sp)
    requires Distinct(ta) && item !in ta && (forall y :: y in ta <==> y in sa && y != item)
    requires item in sa && tp == sp + [item]
    ensures Distinct(ta + tp)
  {
    var u := ta + tp;
    forall i, j | 0 <= i < j < |u| ensures u[i] != u[j] {
      if j < |ta| {
        assert u[i] == ta[i] && u[j] == ta[j];
      } else if i < |ta| {
        assert u[i] in sa;
        if j < |ta| + |sp| {
          assert u[j] == sp[j - |ta|];
        }
      } else {
        if j < |ta| + |sp| {
          assert u[i] == sp[i - |ta|] && u[j] == sp[j - |ta|];
        } else {
          assert u[i] == sp[i - |ta|];
        }
      }
    }
  }

  /** Clearing empties the list, keeps the total, and puts the active items
      behind the pooled ones in their list order. */
  lemma ReturnAllKeepsTotal<I>(s: ListState<I>)
    requires Bounded(s)
    ensures var t := ReturnAll(s);
      t.active == [] && Total(t) == Total(s) && Bounded(t)
      && t.pooled[..|s.pooled|] == s.pooled && t.pooled[|s.pooled|..] == s.active
  {
    var t := ReturnAll(s);
    DistinctAppend(s.active, s.pooled);
    forall i, j | 0 <= i < j < |t.pooled| ensures t.pooled[i] != t.pooled[j] {
      if j < |s.pooled| {
      } else if i < |s.pooled| {
        assert t.pooled[i] in s.pooled && t.pooled[j] in s.active;
      } else {
        assert t.pooled[i] == s.active[i - |s.pooled|] && t.pooled[j] == s.active[j - |s.pooled|];
      }
    }
  }

  /** `ClearAllItems` is `ReturnListItem` of the first active item, repeated
      until the list is empty. */
  lemma ReturnFrontRepeated<I>(s: ListState<I>)
    ensures ReturnAll(s) == if s.active == [] then s else ReturnAll(Return(s, s.active[0]))
  {
    if s.active != [] {
      var x := s.active[0];
      assert s.active == [x] + s.active[1..];
      var t := Return(s, x);
      assert t.active == s.active[1..];
      assert t.pooled + t.active == s.pooled + s.active;
    }
  }

  class PooledListContainer {
    var activeItems: seq<UIElement>
    var pooledItems: seq<UIElement>

    function State(): ListState<UIElement>
      reads this
    {
      ListState(activeItems, pooledItems)
    }

    /** The cap holds, no item is filed twice, and every item is a list item. */
    ghost predicate Valid()
      reads this
    {
      && Bounded(State())
      && (forall x :: x in activeItems ==> x.isListItem)
      && (forall x :: x in pooledItems ==> x.isListItem)
    }

    /** `Start`/`PreloadItems`: 20 new items, each despawned and queued. */
    constructor()
      ensures Valid()
      ensures activeItems == [] && |pooledItems| == PreloadCount
      ensures forall i :: 0 <= i < |pooledItems| ==>
        fresh(pooledItems[i]) && pooledItems[i].Snapshot() == DespawnedState(ElementState(true, true, 0, None, 0, []))
    {
      activeItems := [];
      pooledItems := [];
      new;
      var i := 0;
      while i < PreloadCount
        invariant 0 <= i <= PreloadCount
        invariant activeItems == [] && |pooledItems| == i
        invariant Distinct(pooledItems)
        invariant forall j :: 0 <= j < i ==>
          fresh(pooledItems[j]) && pooledItems[j].isListItem
          && pooledItems[j].Snapshot() == DespawnedState(ElementState(true, true, 0, None, 0, []))
      {
        var item := new UIElement(true, true);
        item.OnDespawn();
        pooledItems := pooledItems + [item];
        i := i + 1;
      }
    }

    /** `GetListItem`: the head of the queue if there is one, otherwise a new
        item while below the cap, spawned and added to the list; at the cap
        null and nothing changes. */
    method GetListItem() returns (item: UIElement?)
      requires Valid()
      modifies this, if |pooledItems| > 0 then {pooledItems[0]} else {}
      ensures Valid()
      ensures item == null <==> !CanTake(old(State()))
      ensures item == null ==> State() == old(State())
      ensures item != null ==> (State(), Some(item)) == Take(old(State()), item)
      ensures item != null && |old(pooledItems)| == 0 ==>
        fresh(item) && item.Snapshot() == SpawnedState(ElementState(true, true, 0, None, 0, []), true)
      ensures item != null && |old(pooledItems)| > 0 ==>
        item.Snapshot() == SpawnedState(old(item.Snapshot()), true)
      ensures item != null ==>
        item.isListItem && item.active && item.blocksRaycasts && item.itemId == 0
    {
      if |pooledItems| > 0 {
        item := pooledItems[0];
        pooledItems := pooledItems[1..];
      } else if |activeItems| + |pooledItems| < MaxCount {
        item := new UIElement(true, true);
      } else {
        return null;
      }
      item.OnSpawn();
      activeItems := activeItems + [item];
      TakeKeepsBounded(old(State()), item);
    }

    /** `ReturnListItem`: an active item is despawned and queued at the back;
        any other item is ignored. */
    method ReturnListItem(item: UIElement)
      requires Valid()
      modifies this, item
      ensures Valid()
      ensures State() == Return(old(State()), item)
      ensures item in old(activeItems) ==> item.Snapshot() == DespawnedState(old(item.Snapshot()))
      ensures item !in old(activeItems) ==> item.Snapshot() == old(item.Snapshot())
    {
      ReturnKeepsBounded(State(), item);
      if item in activeItems {
        activeItems := RemoveFirst(activeItems, item);
        item.OnDespawn();
        pooledItems := pooledItems + [item];
        assert State() == Return(old(State()), item);
        assert Bounded(State());
        assert forall x :: x in activeItems ==> x in old(activeItems) by {
          DistinctAppend(old(activeItems), old(pooledItems));
          RemoveFirstDistinct(old(activeItems), item);
        }
      }
    }

    /** `AddItem`: when `GetListItem` gives an item, that item (now the last
        active one) gets the data; at the cap nothing happens. */
    method AddItem(id: int, name: string, count: int)
      requires Valid()
      modifies this, if |pooledItems| > 0 then {pooledItems[0]} else {}
      ensures Valid()
      ensures !CanTake(old(State())) ==> State() == old(State())
      ensures CanTake(old(State())) ==>
        && |activeItems| > 0
        && var item := activeItems[|activeItems| - 1];
           && (State(), Some(item)) == Take(old(State()), item)
           && (|old(pooledItems)| > 0 ==>
                 item.Snapshot() == WithData(SpawnedState(old(item.Snapshot()), true), id, name, count))
           && (|old(pooledItems)| == 0 ==>
                 && fresh(item)
                 && item.Snapshot() == WithData(SpawnedState(ElementState(true, true, 0, None, 0, []), true), id, name, count))
    {
      var item := GetListItem();
      if item != null {
        item.SetItemData(id, name, count);
      }
    }

    /** `ClearAllItems`: returns the first active item until none is left.
        Every active item ends up despawned at the back of the queue. */
    method ClearAllItems()
      requires Valid()
      modifies this, activeItems
      ensures Valid()
      ensures State() == ReturnAll(old(State()))
      ensures forall x :: x in old(activeItems) ==> x.Snapshot() == DespawnedState(old(x.Snapshot()))
    {
      while |activeItems| > 0
        invariant Valid()
        invariant ReturnAll(State()) == ReturnAll(old(State()))
        invariant forall x :: x in activeItems ==> x in old(activeItems)
        invariant forall x :: x in old(activeItems) && x !in activeItems ==>
          x.Snapshot() == DespawnedState(old(x.Snapshot()))
        invariant forall x :: x in activeItems ==> x.Snapshot() == old(x.Snapshot())
        decreases |activeItems|
      {
        var item := activeItems[0];
        DistinctAppend(activeItems, pooledItems);
        ReturnFrontRepeated(State());
        ReturnListItem(item);
      }
    }

    /** The numbers `GetStats` reports: active, pooled, their sum, and the
        cap, which the sum never exceeds. */
    function GetStats(): (stats: (nat, nat, nat, nat))
      reads this
      requires Valid()
      ensures stats.0 == |activeItems| && stats.1 == |pooledItems|
      ensures stats.2 == stats.0 + stats.1 <= stats.3 == MaxCount
    {
      (|activeItems|, |pooledItems|, |activeItems| + |pooledItems|, MaxCount)
    }

    /** `OnDestroy`: every item's GameObject is destroyed, then both
        collections are emptied. */
    method OnDestroy()
      requires Valid()
      modifies this, activeItems, pooledItems
      ensures State() == ListState([], []) && Valid()
      ensures forall x :: x in old(activeItems) + old(pooledItems) ==>
        x.Snapshot() == old(x.Snapshot()).(trace := old(x.trace) + [GameObjectDestroyed])
    {
      DistinctAppend(activeItems, pooledItems);
      DestroyAll(activeItems);
      DestroyAll(pooledItems);
      activeItems := [];
      pooledItems := [];
    }

    /** One `foreach` of `OnDestroy`: destroys the GameObject of each item. */
    static method DestroyAll(items: seq<UIElement>)
      requires Distinct(items)
      modifies items
      ensures forall x :: x in items ==>
        x.Snapshot() == old(x.Snapshot()).(trace := old(x.trace) + [GameObjectDestroyed])
    {
      var i := 0;
      while i < |items|
        invariant 0 <= i <= |items|
        invariant forall j :: 0 <= j < i ==>
          items[j].Snapshot() == old(items[j].Snapshot()).(trace := old(items[j].trace) + [GameObjectDestroyed])
        invariant forall j :: i <= j < |items| ==> items[j].Snapshot() == old(items[j].Snapshot())
      {
        items[i].DestroyGameObject();
        i := i + 1;
      }
    }
  }
}
