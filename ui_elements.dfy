/** Pooled UI elements that are not whole panels: `BasePoolableUIElement`
    and its list-item subclass `PooledListItem`, flattened into one class
    whose constant `isListItem` selects the overridden hooks.

    The element's GameObject active flag and its `CanvasGroup` raycast flag
    are fields of the element; `Awake` always leaves a `CanvasGroup` in
    place, so the raycast flag always exists. The label texts and the
    delete button's listener are display wiring and are not modelled. */
module UIElements {
  import opened Common

  /** The calls an element receives, in order. */
  datatype ElementEvent =
    | Shown           // gameObject.SetActive(true)
    | Hidden          // gameObject.SetActive(false)
    | UIReset         // ResetUIElement
    | UICleanedUp     // CleanupUIElement
    | GameObjectDestroyed  // Object.Destroy(item.gameObject)

  /** The mutable fields of an element, as one value. `itemName` is `None`
      while the C# field still holds its default null. */
  datatype ElementState = ElementState(
    active: bool,
    blocksRaycasts: bool,
    itemId: int,
    itemName: Option<string>,
    itemCount: int,
    trace: seq<ElementEvent>)

  /** `ResetUIElement`: nothing by default; a list item forgets its data. */
  function ResetState(s: ElementState, isListItem: bool): ElementState {
    if isListItem then s.(itemId := 0, itemName := Some(""), itemCount := 0, trace := s.trace + [UIReset])
    else s.(trace := s.trace + [UIReset])
  }

  /** `OnSpawn`: active and blocking raycasts, then `ResetUIElement`. */
  function SpawnedState(s: ElementState, isListItem: bool): ElementState {
    ResetState(s.(active := true, blocksRaycasts := true, trace := s.trace + [Shown]), isListItem)
  }

  /** `OnDespawn`: inactive, then `CleanupUIElement`, which does nothing in
      either class. */
  function DespawnedState(s: ElementState): ElementState {
    s.(active := false, trace := s.trace + [Hidden, UICleanedUp])
  }

  /** `SetItemData`. */
  function WithData(s: ElementState, id: int, name: string, count: int): ElementState {
    s.(itemId := id, itemName := Some(name), itemCount := count)
  }

  /** A spawned list item always starts empty, whatever it held before:
      `GetItemId` is 0 right after every spawn. */
  lemma SpawnClearsItem(s: ElementState)
    ensures var t := SpawnedState(s, true);
      t.itemId == 0 && t.itemName == Some("") && t.itemCount == 0
      && t.active && t.blocksRaycasts
      && t.trace[|s.trace|..] == [Shown, UIReset]
  {
  }

  /** Despawn keeps a list item's data: the old values stay while it is
      pooled, until the next spawn resets them. */
  lemma DespawnKeepsItem(s: ElementState, id: int, name: string, count: int)
    ensures var t := DespawnedState(WithData(s, id, name, count));
      t.itemId == id && t.itemName == Some(name) && t.itemCount == count && !t.active
    ensures SpawnedState(DespawnedState(WithData(s, id, name, count)), true).itemId == 0
  {
  }

  /** The default hooks change nothing but the trace: spawning and despawning
      a plain element touch only its two flags. */
  lemma BaseHooksNeutral(s: ElementState)
    ensures var t := SpawnedState(s, false);
      t == s.(active := true, blocksRaycasts := true, trace := s.trace + [Shown, UIReset])
    ensures var t := DespawnedState(s);
      t.itemId == s.itemId && t.itemName == s.itemName && t.itemCount == s.itemCount
      && t.blocksRaycasts == s.blocksRaycasts
  {
  }

  /** Despawning twice hides twice but leaves the same fields as once. */
  lemma DespawnTwice(s: ElementState)
    ensures var once := DespawnedState(s);
      DespawnedState(once) == once.(trace := once.trace + [Hidden, UICleanedUp])
  {
  }

  class UIElement {
    /** The element is a `PooledListItem`. */
    const isListItem: bool

    var active: bool
    var blocksRaycasts: bool
    var itemId: int
    var itemName: Option<string>
    var itemCount: int
    ghost var trace: seq<ElementEvent>

    ghost function Snapshot(): ElementState
      reads this
    {
      ElementState(active, blocksRaycasts, itemId, itemName, itemCount, trace)
    }

    /** An instantiated element after `Awake`: its GameObject's active flag
        as instantiated, a `CanvasGroup` blocking raycasts, and the list
        item's fields at their C# defaults. */
    constructor(isListItem: bool, active: bool)
      ensures this.isListItem == isListItem
      ensures Snapshot() == ElementState(active, true, 0, None, 0, [])
    {
      this.isListItem := isListItem;
      this.active := active;
      blocksRaycasts := true;
      itemId := 0;
      itemName := None;
      itemCount := 0;
      trace := [];
    }

    method ResetUIElement()
      modifies this
      ensures Snapshot() == ResetState(old(Snapshot()), isListItem)
    {
      if isListItem {
        itemId := 0;
        itemName := Some("");
        itemCount := 0;
      }
      trace := trace + [UIReset];
    }

    method CleanupUIElement()
      modifies this
      ensures Snapshot() == old(Snapshot()).(trace := old(trace) + [UICleanedUp])
    {
      trace := trace + [UICleanedUp];
    }

    method OnSpawn()
      modifies this
      ensures Snapshot() == SpawnedState(old(Snapshot()), isListItem)
    {
      active := true;
      trace := trace + [Shown];
      blocksRaycasts := true;
      ResetUIElement();
    }

    method OnDespawn()
      modifies this
      ensures Snapshot() == DespawnedState(old(Snapshot()))
    {
      active := false;
      trace := trace + [Hidden];
      CleanupUIElement();
    }

    /** `Destroy` is `OnDespawn` and nothing more: no pool or container
        hears about it. */
    method Destroy()
      modifies this
      ensures Snapshot() == DespawnedState(old(Snapshot()))
    {
      OnDespawn();
    }

    /** `Object.Destroy(item.gameObject)`. */
    method DestroyGameObject()
      modifies this
      ensures Snapshot() == old(Snapshot()).(trace := old(trace) + [GameObjectDestroyed])
    {
      trace := trace + [GameObjectDestroyed];
    }

    method SetItemData(id: int, name: string, count: int)
      requires isListItem
      modifies this
      ensures Snapshot() == WithData(old(Snapshot()), id, name, count)
    {
      itemId := id;
      itemName := Some(name);
      itemCount := count;
    }

    method GetItemId() returns (id: int)
      ensures id == itemId
    {
      id := itemId;
    }

    /** The delete button calls `Destroy` and nothing else. */
    method OnDeleteButtonClicked()
      requires isListItem
      modifies this
      ensures Snapshot() == DespawnedState(old(Snapshot()))
    {
      Destroy();
    }
  }
}
