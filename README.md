# EasyUIFramework object recycling, in Dafny

This project models the object-recycling part of EasyUIFramework, a Unity UI framework.

- **`UIObjectPool<T>`** is a generic pool. It has a FIFO queue of available objects, a set of objects in use, and a creation counter. It preloads `PreloadCount` objects and grows `ExpandStep` at a time up to `MaxCount`.
- **`PoolConfig`** is the record that sizes a pool.
- **`PoolManager`** is the pool registry. It keeps one pool per pooled type and maps UI type names to those types.
- **`PanelManagerService`** is the panel directory. It keeps three dictionaries: instantiated GameObjects, live panels, and a cache of closed reusable panels.
- **Panel lifecycle policies:**
  - `BaseReusablePanel`: activate, deactivate, force-destroy.
  - `BasePoolablePanel`: spawn, despawn, return to the pool on exit.
  - Two example panels: `ExampleReusablePanel` and `PooledPanelExample`.
- **`PooledListContainer`** is a second, self-contained pool. It holds list items and has a hard cap.
- **Pooled UI elements:** `BasePoolableUIElement` and its `PooledListItem`.

## How each part is modelled

Every stateful entity is a Dafny `class` with the source's fields:

| file | module | classes |
|---|---|---|
| `object_pool.dfy` | `ObjectPool` | `UIObjectPool` |
| `pool_manager.dfy` | `PoolRegistry` | `PoolManager` |
| `panel_manager_service.dfy` | `PanelDirectory` | `PanelManagerService` |
| `panels.dfy` | `Panels` | `Panel`, `Visual` (a GameObject's active flag) |
| `list_container.dfy` | `ListContainer` | `PooledListContainer` |
| `ui_elements.dfy` | `UIElements` | `UIElement` |

Each class is proved against pure functions on a value snapshot of its state. For example:

- `Spawn` ensures `State() == AfterSpawn(PoolSetup(), old(State())).0`.
- `RemovePanel` ensures `Dicts() == Close(old(Dicts()), name, ...)`.

The lemmas beside those functions state what the source promises:

- **Invariants the operations keep:**
  - no object is both queued and in use;
  - the creation count is within `max(MaxCount, PreloadCount)`;
  - no name is both live and cached;
  - the list container's cap holds.
- **FIFO order, round trips and idempotence.**
- **The exact conditions under which a count is conserved or a name is left stale.**

`PoolConfig` is pure and is a datatype with two functions (`pool_config.dfy`). `common.dfy` holds `Option` (null), `List.Remove` and `String.Contains`.

### Panel classes

The panel class hierarchy becomes one `Panel` class with two tags:

- `base` says which base class the panel derives from.
- `example` says whether it is one of the two example panels.

Overridden virtual methods dispatch on these tags.

### Engine calls

Engine calls become parameters or recorded events:

- **Resources and canvas:** whether `Resources.Load` finds the prefab and whether `GameObject.Find("Canvas")` finds the canvas are two boolean arguments of `AddPanel`.
- **Instantiated GameObjects:** `Instantiate` yields a fresh `Visual` that starts active.
- **The factory:** a pool's factory is an injective function `nat -> T`, and its k-th call yields `factory(k)`.
- **Pool hooks:** the `IPoolable` hooks and the two callbacks a pool invokes are recorded, in order, in a ghost effects log.
- **Panel events:** showing, hiding, pausing, clearing `EventBus` listeners and similar calls are recorded in each panel's ghost trace.

## Model

| member | source | states |
|---|---|---|
| `Common.RemoveFirst` | EasyUIFramework/Assets/Scripts/UI/Example/PooledListContainer.cs:76 | `List.Remove(x)` removes exactly one occurrence of `x` (multiset difference), and leaves a list without `x` unchanged |
| `Common.RemoveFirstDistinct` | EasyUIFramework/Assets/Scripts/UI/Example/PooledListContainer.cs:72-79 | on a duplicate-free list, `Remove(x)` keeps it duplicate-free, drops exactly `x`, and shortens it by one when `x` was present |
| `Common.RemoveFirstAppended` | EasyUIFramework/Assets/Scripts/UI/Example/PooledListContainer.cs:76 | removing an element just appended to a list without it gives back the list |
| `Common.Contains` | EasyUIFramework/Assets/Scripts/UI/Services/PanelManagerService.cs:23 | `Name.Contains("Reusable")` holds iff the marker occurs at some index of the name |
| `PoolConfigs.Default` | EasyUIFramework/Assets/Scripts/UI/Pool/Core/PoolConfig.cs:15-32 | the parameterless config has no UI type name, preload 10, max 100, step 5 |
| `PoolConfigs.Create` | EasyUIFramework/Assets/Scripts/UI/Pool/Core/PoolConfig.cs:34-40 | the parameterised constructor stores each argument unchanged |
| `PoolConfigs.CreateDefaultsMatchDefault` | EasyUIFramework/Assets/Scripts/UI/Pool/Core/PoolConfig.cs:20-34 | the constructor's default arguments equal the field initialisers |
| `ObjectPool.LastHook` | EasyUIFramework/Assets/Scripts/UI/Pool/Core/UIObjectPool.cs:44-110 | the last `OnSpawn`/`OnDespawn` recorded for an object was invoked on that object, and `None` means it never received one |
| `ObjectPool.Minted` | EasyUIFramework/Assets/Scripts/UI/Pool/Core/UIObjectPool.cs:46-51 | a batch of `n` factory calls yields `n` objects, the i-th being call number `from + i` |
| `ObjectPool.Despawned` | EasyUIFramework/Assets/Scripts/UI/Pool/Core/UIObjectPool.cs:46-52 | a batch gets one `OnDespawn` per object, in order |
| `ObjectPool.MadeCardinality` | EasyUIFramework/Assets/Scripts/UI/Pool/Core/UIObjectPool.cs:58-83 | `n` calls of a factory that makes a new object every time yield `n` distinct objects |
| `ObjectPool.MintedBatch` | EasyUIFramework/Assets/Scripts/UI/Pool/Core/UIObjectPool.cs:69-75 | a growth batch is duplicate-free and consists of objects never made before |
| `ObjectPool.LastHookUntouched` | EasyUIFramework/Assets/Scripts/UI/Pool/Core/UIObjectPool.cs:85-87 | hooks invoked on other objects do not change an object's last hook |
| `ObjectPool.LastHookSuffix` | EasyUIFramework/Assets/Scripts/UI/Pool/Core/UIObjectPool.cs:85-109 | the most recent hook invoked on an object decides its last hook whatever came before |
| `ObjectPool.LastHookOfDespawned` | EasyUIFramework/Assets/Scripts/UI/Pool/Core/UIObjectPool.cs:44-75 | every object of a preload or growth batch has `OnDespawn` as its last hook |
| `ObjectPool.CheckoutHooks` | EasyUIFramework/Assets/Scripts/UI/Pool/Core/UIObjectPool.cs:85-87 | the object handed out gets `OnSpawn` as its last hook, and no other object's last hook changes |
| `ObjectPool.PreloadedStart` | EasyUIFramework/Assets/Scripts/UI/Pool/Core/UIObjectPool.cs:28-53 | after construction the queue holds `max(0, preloadCount)` new objects in creation order, each last given `OnDespawn`, nothing is in use, the count is conserved, and the invariants hold |
| `ObjectPool.CheckoutKeepsInv` | EasyUIFramework/Assets/Scripts/UI/Pool/Core/UIObjectPool.cs:85-87 | recording a made, untracked object as in use keeps the pool invariant |
| `ObjectPool.SpawnKeepsInv` | EasyUIFramework/Assets/Scripts/UI/Pool/Core/UIObjectPool.cs:58-90 | `Spawn` never hands out an object already in use, adds exactly that object to the in-use set, leaves it out of the queue, and keeps the invariant (no object both queued and in use, count within capacity) |
| `ObjectPool.QueuedSpawnKeepsInv` | EasyUIFramework/Assets/Scripts/UI/Pool/Core/UIObjectPool.cs:62-65 | a spawn from a non-empty queue keeps the invariant and hands out an object that was neither in use nor left queued |
| `ObjectPool.GrowthSpawnKeepsInv` | EasyUIFramework/Assets/Scripts/UI/Pool/Core/UIObjectPool.cs:66-78 | a spawn that grows the pool keeps the invariant and hands out an object that was neither in use nor left queued |
| `ObjectPool.OverflowSpawnKeepsInv` | EasyUIFramework/Assets/Scripts/UI/Pool/Core/UIObjectPool.cs:77-83 | a spawn past capacity keeps the invariant and hands out a fresh object that is neither in use nor queued |
| `ObjectPool.CheckoutKeepsHooks` | EasyUIFramework/Assets/Scripts/UI/Pool/Core/UIObjectPool.cs:85-87 | checking out an unqueued object keeps "queued objects last got `OnDespawn`, objects in use last got `OnSpawn`" |
| `ObjectPool.GrowthKeepsHooks` | EasyUIFramework/Assets/Scripts/UI/Pool/Core/UIObjectPool.cs:69-75 | a growth step on an empty queue keeps that hook agreement |
| `ObjectPool.GrowthSpawnKeepsHooks` | EasyUIFramework/Assets/Scripts/UI/Pool/Core/UIObjectPool.cs:66-78 | a spawn that grows the pool keeps that hook agreement |
| `ObjectPool.SpawnKeepsHooks` | EasyUIFramework/Assets/Scripts/UI/Pool/Core/UIObjectPool.cs:58-90 | every spawn keeps that hook agreement, so a returned object is in use and has had `OnSpawn` invoked |
| `ObjectPool.SpawnKeepsOwned` | EasyUIFramework/Assets/Scripts/UI/Pool/Core/UIObjectPool.cs:58-90 | every object the factory made stays queued or in use across a spawn |
| `ObjectPool.QueuedSpawnKeepsOwned` | EasyUIFramework/Assets/Scripts/UI/Pool/Core/UIObjectPool.cs:62-65 | taking the queue head keeps every made object queued or in use |
| `ObjectPool.GrowthSpawnKeepsOwned` | EasyUIFramework/Assets/Scripts/UI/Pool/Core/UIObjectPool.cs:66-78 | a growth spawn keeps every made object, old and new, queued or in use |
| `ObjectPool.SpawnTakesOldest` | EasyUIFramework/Assets/Scripts/UI/Pool/Core/UIObjectPool.cs:62-65 | with a non-empty queue, `Spawn` returns its head and creates nothing |
| `ObjectPool.SpawnGrowth` | EasyUIFramework/Assets/Scripts/UI/Pool/Core/UIObjectPool.cs:66-78 | growth raises `totalCreated` to `min(maxCount, totalCreated + expandStep)`, queues all but the first new object, and hands out the first |
| `ObjectPool.SpawnOverflowUntracked` | EasyUIFramework/Assets/Scripts/UI/Pool/Core/UIObjectPool.cs:77-83 | when growth creates nothing, `Spawn` hands out a brand-new object that `totalCreated` does not count, but it is still added to the in-use set |
| `ObjectPool.SpawnConservation` | EasyUIFramework/Assets/Scripts/UI/Pool/Core/UIObjectPool.cs:58-90 | from a conserved state, `available + inUse == totalCreated` survives a spawn iff the spawn does not take the untracked branch |
| `ObjectPool.ConservedIffCounted` | EasyUIFramework/Assets/Scripts/UI/Pool/Core/UIObjectPool.cs:44-83 | while every made object is tracked, the count is conserved iff every factory call was counted |
| `ObjectPool.SpawnRun` | EasyUIFramework/Assets/Scripts/UI/Pool/Core/UIObjectPool.cs:58-90 | `n` spawns in a row hand out `n` objects |
| `ObjectPool.SpawnRunFifo` | EasyUIFramework/Assets/Scripts/UI/Pool/Core/UIObjectPool.cs:62-65 | `n` spawns from a queue of at least `n` objects hand out its first `n` in order and create nothing |
| `ObjectPool.DespawnIdempotent` | EasyUIFramework/Assets/Scripts/UI/Pool/Core/UIObjectPool.cs:95-104 | despawning null or an object not in use changes nothing, so a second despawn is a no-op |
| `ObjectPool.DespawnKeepsInv` | EasyUIFramework/Assets/Scripts/UI/Pool/Core/UIObjectPool.cs:95-110 | despawn keeps the invariant, ownership and a conserved count; an object in use leaves the in-use set and joins the back of the queue |
| `ObjectPool.ReturnKeepsInv` | EasyUIFramework/Assets/Scripts/UI/Pool/Core/UIObjectPool.cs:106-109 | returning an object in use to the back of the queue keeps the queue duplicate-free and disjoint from the in-use set |
| `ObjectPool.ReturnKeepsCounts` | EasyUIFramework/Assets/Scripts/UI/Pool/Core/UIObjectPool.cs:106-109 | moving an object from the in-use set to the queue keeps ownership and a conserved count |
| `ObjectPool.DespawnKeepsHooks` | EasyUIFramework/Assets/Scripts/UI/Pool/Core/UIObjectPool.cs:106-109 | a despawned object's last hook is `OnDespawn`, and the hook agreement is kept |
| `ObjectPool.DespawnedComesOutLast` | EasyUIFramework/Assets/Scripts/UI/Pool/Core/UIObjectPool.cs:58-109 | a despawned object is handed out again only after every object queued before it |
| `ObjectPool.ClearForgets` | EasyUIFramework/Assets/Scripts/UI/Pool/Core/UIObjectPool.cs:115-120 | after `Clear` both collections are empty, the count is 0, no hook ran, every earlier object's despawn is ignored, and the next spawn makes a new object |
| `ObjectPool.CapacityScenario` | EasyUIFramework/Assets/Scripts/UI/Pool/Core/UIObjectPool.cs:66-83 | with preload 2, max 3 and step 1, four spawns make four objects but `totalCreated` stops at 3, so the count is not conserved |
| `ObjectPool.UIObjectPool.constructor` | EasyUIFramework/Assets/Scripts/UI/Pool/Core/UIObjectPool.cs:28-53 | copies the limits from the config and leaves the state `Preloaded` (the loop proved against it) |
| `ObjectPool.UIObjectPool.Grow` | EasyUIFramework/Assets/Scripts/UI/Pool/Core/UIObjectPool.cs:69-75 | the growth loop makes exactly `GrowthCount` new objects, despawns them and queues them |
| `ObjectPool.UIObjectPool.Spawn` | EasyUIFramework/Assets/Scripts/UI/Pool/Core/UIObjectPool.cs:58-90 | new state and result are `AfterSpawn` of the old state; the invariants are kept |
| `ObjectPool.UIObjectPool.Acquire` | EasyUIFramework/Assets/Scripts/UI/Pool/Core/UIObjectPool.cs:62-83 | picks the object by the three branches: what is left plus that object checked out is exactly `AfterSpawn` of the old state |
| `ObjectPool.UIObjectPool.CheckOut` | EasyUIFramework/Assets/Scripts/UI/Pool/Core/UIObjectPool.cs:85-87 | the object joins the in-use set and gets `OnSpawn`, then the spawn callback when one is set |
| `ObjectPool.UIObjectPool.Despawn` | EasyUIFramework/Assets/Scripts/UI/Pool/Core/UIObjectPool.cs:95-110 | new state is `AfterDespawn` of the old state; the invariants are kept |
| `ObjectPool.UIObjectPool.Release` | EasyUIFramework/Assets/Scripts/UI/Pool/Core/UIObjectPool.cs:106-109 | an object in use leaves the in-use set, gets `OnDespawn` and the callback, and joins the back of the queue: the state is `AfterDespawn` |
| `ObjectPool.UIObjectPool.Clear` | EasyUIFramework/Assets/Scripts/UI/Pool/Core/UIObjectPool.cs:115-120 | new state is `AfterClear` of the old state; the pool is valid and conserved |
| `ObjectPool.UIObjectPool.GetStats` | EasyUIFramework/Assets/Scripts/UI/Pool/Core/UIObjectPool.cs:125-134 | reports the queue length, in-use count, `totalCreated` (within capacity) and `maxCount` without changing state |
| `PoolRegistry.Shifted` | EasyUIFramework/Assets/Scripts/UI/Pool/Core/PoolManager.cs:58-73 | after the probe call, the pool's k-th factory call is the factory's call k + 1 |
| `PoolRegistry.ShiftedInjective` | EasyUIFramework/Assets/Scripts/UI/Pool/Core/PoolManager.cs:67-73 | the shifted factory still makes a new object every call |
| `PoolRegistry.PoolManager.constructor` | EasyUIFramework/Assets/Scripts/UI/Pool/Core/PoolManager.cs:13-18 | an empty, uninitialised registry |
| `PoolRegistry.PoolManager.Initialize` | EasyUIFramework/Assets/Scripts/UI/Pool/Core/PoolManager.cs:23-33 | the first call stores the collaborators; once initialised, a later call changes nothing |
| `PoolRegistry.PoolManager.InitializePool` | EasyUIFramework/Assets/Scripts/UI/Pool/Core/PoolManager.cs:38-51 | an existing key is skipped and the first pool stays; otherwise exactly one preloaded pool is added from the config and the config's name is mapped to the key (a null name throws after the pool was added) |
| `PoolRegistry.PoolManager.InitializePoolByUIType` | EasyUIFramework/Assets/Scripts/UI/Pool/Core/PoolManager.cs:56-78 | the factory is called once before the duplicate check; an existing key is skipped with nothing else changed; otherwise exactly one fresh pool is added under the probed key, set up from the config with the factory shifted past the probe call and no callbacks, preloaded, and the `uiTypeName` argument, not the config's name, is mapped to the key |
| `PoolRegistry.PoolManager.AddPool` | EasyUIFramework/Assets/Scripts/UI/Pool/Core/PoolManager.cs:47-47 | a valid pool registered under a free key becomes the only new entry, and the registry stays valid |
| `PoolRegistry.PoolManager.KeyOf` | EasyUIFramework/Assets/Scripts/UI/Pool/Core/PoolManager.cs:100-107 | a name resolves iff it is mapped, to its mapped key |
| `PoolRegistry.PoolManager.Spawn` | EasyUIFramework/Assets/Scripts/UI/Pool/Core/PoolManager.cs:83-93 | null for an unregistered key; otherwise exactly that pool's `Spawn`, and only that pool changes |
| `PoolRegistry.PoolManager.SpawnByUIType` | EasyUIFramework/Assets/Scripts/UI/Pool/Core/PoolManager.cs:98-115 | null for an unknown name or a name whose key has no pool; otherwise exactly `Spawn` on the mapped key |
| `PoolRegistry.PoolManager.Despawn` | EasyUIFramework/Assets/Scripts/UI/Pool/Core/PoolManager.cs:120-130 | a no-op for an unregistered key; otherwise exactly that pool's `Despawn` |
| `PoolRegistry.PoolManager.DespawnByUIType` | EasyUIFramework/Assets/Scripts/UI/Pool/Core/PoolManager.cs:134-151 | a no-op for an unknown name; otherwise exactly `Despawn` on the mapped key |
| `PoolRegistry.PoolManager.GetPoolStats` | EasyUIFramework/Assets/Scripts/UI/Pool/Core/PoolManager.cs:157-166 | nothing for an unregistered key, otherwise that pool's four numbers |
| `PoolRegistry.PoolManager.ClearEach` | EasyUIFramework/Assets/Scripts/UI/Pool/Core/PoolManager.cs:197-200 | the loop clears every pool it is given |
| `PoolRegistry.PoolManager.ClearAllPools` | EasyUIFramework/Assets/Scripts/UI/Pool/Core/PoolManager.cs:195-207 | every pool is cleared, both maps are emptied and `initialized` is reset, so every later spawn returns null until pools are registered again |
| `Panels.ReopenCountsUses` | EasyUIFramework/Assets/Scripts/UI/Example/ExampleReusablePanel.cs:35-53 | `n` deactivate/activate rounds raise `useCount` by exactly `n`, never re-run `Init`, and leave the text empty |
| `Panels.ExitAfterForceDestroy` | EasyUIFramework/Assets/Scripts/UI/Base/BaseReusablePanel.cs:69-98 | after `ForceDestroy`, or with `isReusable` false, every `OnExit` destroys; with `isReusable` true, `OnExit` deactivates without destroying |
| `Panels.PoolCycleResetsData` | EasyUIFramework/Assets/Scripts/UI/Example/PooledPanelExample.cs:21-54 | after a despawn the example data is 0 whatever was set, and each spawn runs `Init` once more; closing a pooled example panel never destroys it and leaves its data 0 iff the pool took it back or it was 0 already |
| `Panels.HookOrder` | EasyUIFramework/Assets/Scripts/UI/Pool/Base/BasePoolablePanel.cs:24-59 | deactivation closes children, hides, then resets; despawn closes children, clears the name's listeners, hides, then resets; activation shows, then resumes |
| `Panels.TeardownFinal` | EasyUIFramework/Assets/Scripts/UI/Services/PanelManagerService.cs:211-223 | a torn-down cached panel is never left reusable; its trace grows; it is sent to the pool iff it is a pooled poolable panel, and otherwise destroyed with one event; a panel sent to the pool is despawned exactly when the pool held it |
| `Panels.PooledExampleNotReusable` | EasyUIFramework/Assets/Scripts/UI/Example/PooledPanelExample.cs:13-16 | the name "PooledPanelExample" does not contain "Reusable" |
| `Panels.AdoptThenUnlink` | EasyUIFramework/Assets/Scripts/UI/Services/PanelManagerService.cs:75-144 | adding a child and removing it again restores the child list; a top-level panel that had no children is resumed again, any other stays paused |
| `Panels.ExitsKeepOthersInUse` | EasyUIFramework/Assets/Scripts/UI/Services/PanelManagerService.cs:210-222 | a run of exits of other panels does not change whether the pool holds a panel in use |
| `Panels.ExitsReturnHeld` | EasyUIFramework/Assets/Scripts/UI/Services/PanelManagerService.cs:210-222 | after the exits of distinct panels, every pooled panel the pool held in use is queued and no longer in use, the in-use set only shrinks and the queue only grows at the back |
| `Panels.Panel.ReusableByName` | EasyUIFramework/Assets/Scripts/UI/Services/PanelManagerService.cs:147 | a panel's class counts as reusable iff "Reusable" occurs in its name |
| `Panels.Panel.ReusableFlag` | EasyUIFramework/Assets/Scripts/UI/Services/PanelManagerService.cs:150-156 | the `isReusable` field where the class has one, true otherwise |
| `Panels.Panel.constructor` | EasyUIFramework/Assets/Scripts/UI/Base/BaseReusablePanel.cs:12-18 | a new panel starts reusable and, when poolable, pooled, with no parent, children or uses |
| `Panels.Panel.ExampleReusablePanel` | EasyUIFramework/Assets/Scripts/UI/Example/ExampleReusablePanel.cs:11-17 | registered under "ExampleReusablePanel", reusable by name, no text, use count 0 |
| `Panels.Panel.PooledPanelExample` | EasyUIFramework/Assets/Scripts/UI/Example/PooledPanelExample.cs:11-16 | always registered under "PooledPanelExample", pooled, data 0, not reusable by name |
| `Panels.Panel.OnActivate` | EasyUIFramework/Assets/Scripts/UI/Base/BaseReusablePanel.cs:24-35 | shows the GameObject and resumes (`Activated`); the example panel counts one use |
| `Panels.Panel.OnDeactivate` | EasyUIFramework/Assets/Scripts/UI/Base/BaseReusablePanel.cs:41-55 | closes children, hides, then `ResetForReuse` (`Deactivated`) |
| `Panels.Panel.ResetForReuse` | EasyUIFramework/Assets/Scripts/UI/Example/ExampleReusablePanel.cs:48-53 | clears the example panel's text and keeps its use count |
| `Panels.Panel.SetReusable` | EasyUIFramework/Assets/Scripts/UI/Base/BaseReusablePanel.cs:86-89 | sets `isReusable` and nothing else |
| `Panels.Panel.ForceDestroy` | EasyUIFramework/Assets/Scripts/UI/Base/BaseReusablePanel.cs:94-98 | the panel becomes `TornDown`: `isReusable` is cleared for good, then the panel is destroyed |
| `Panels.Panel.SetDisplayText` | EasyUIFramework/Assets/Scripts/UI/Example/ExampleReusablePanel.cs:58-62 | sets the text and nothing else |
| `Panels.Panel.GetUseCount` | EasyUIFramework/Assets/Scripts/UI/Example/ExampleReusablePanel.cs:67-70 | returns `useCount` without side effects |
| `Panels.Panel.OnSpawn` | EasyUIFramework/Assets/Scripts/UI/Pool/Base/BasePoolablePanel.cs:24-38 | shows, resumes, then runs `Init` again (`Spawned`) |
| `Panels.Panel.OnDespawn` | EasyUIFramework/Assets/Scripts/UI/Pool/Base/BasePoolablePanel.cs:44-59 | closes children, clears the listeners of the panel's name, hides, then `ResetPoolableState` |
| `Panels.Panel.ResetPoolableState` | EasyUIFramework/Assets/Scripts/UI/Example/PooledPanelExample.cs:21-25 | zeroes the example panel's data |
| `Panels.Panel.SetData` | EasyUIFramework/Assets/Scripts/UI/Example/PooledPanelExample.cs:45-49 | sets the data and nothing else |
| `Panels.Panel.GetData` | EasyUIFramework/Assets/Scripts/UI/Example/PooledPanelExample.cs:51-54 | returns the data without side effects |
| `Panels.Panel.OnExit` | EasyUIFramework/Assets/Scripts/UI/Pool/Base/BasePoolablePanel.cs:73-84 | the panel becomes `Exited`: a reusable panel still marked reusable deactivates; a pooled panel is handed to the registry's `Despawn` under the `BasePoolablePanel` key, which despawns it (its own `OnDespawn`, GameObject hidden) exactly when that pool holds it in use and changes the pool by `AfterDespawn`; anything else is destroyed |
| `Panels.Panel.ReturnToPool` | EasyUIFramework/Assets/Scripts/UI/Pool/Base/BasePoolablePanel.cs:76-79 | the pooled branch of `OnExit`: the panel is sent, takes `OnDespawn` iff the pool holds it in use, and the pool changes by `AfterDespawn` |
| `Panels.Panel.SentOff` | EasyUIFramework/Assets/Scripts/UI/Pool/Base/BasePoolablePanel.cs:44-59 | the panel's side of a return to the pool: `SentToPool` is recorded, and `OnDespawn` runs (hiding the GameObject) iff the pool held it |
| `PanelDirectory.OperationsKeepGood` | EasyUIFramework/Assets/Scripts/UI/Services/PanelManagerService.cs:20-255 | every dictionary operation keeps "no name both live and cached, every live or cached name has a GameObject" |
| `PanelDirectory.FreshFailsOnlyOnDuplicate` | EasyUIFramework/Assets/Scripts/UI/Services/PanelManagerService.cs:64-65 | on consistent dictionaries a fresh open fails iff the name already has a GameObject, and then changes nothing |
| `PanelDirectory.CacheRoundTrip` | EasyUIFramework/Assets/Scripts/UI/Services/PanelManagerService.cs:28-162 | closing a live reusable panel into the cache and reopening it restores all three dictionaries, and the GameObject entry is kept throughout |
| `PanelDirectory.FreshRoundTrip` | EasyUIFramework/Assets/Scripts/UI/Services/PanelManagerService.cs:64-188 | opening a new name and destroying it restores all three dictionaries |
| `PanelDirectory.EvictLeavesStale` | EasyUIFramework/Assets/Scripts/UI/Services/PanelManagerService.cs:238-255 | evicting a cached panel leaves its GameObject entry with no live or cached panel |
| `PanelDirectory.StaleStaysStale` | EasyUIFramework/Assets/Scripts/UI/Services/PanelManagerService.cs:64-131 | no single operation clears a stale name, and a fresh open of it fails |
| `PanelDirectory.StaleForever` | EasyUIFramework/Assets/Scripts/UI/Services/PanelManagerService.cs:64-255 | after a force-destroy or cache clear, the name stays stale along any sequence of operations, so it can never be opened fresh again |
| `PanelDirectory.AddResultOutcomes` | EasyUIFramework/Assets/Scripts/UI/Services/PanelManagerService.cs:20-70 | `AddPanel` keeps the dictionaries consistent, throws exactly when nothing is reused, the prefab and canvas are found and the name already has a GameObject, files what it returns as live under the name, and changes nothing when it throws or returns null |
| `PanelDirectory.ReuseRoundTrip` | EasyUIFramework/Assets/Scripts/UI/Services/PanelManagerService.cs:22-162 | reusing a cached panel and closing it back into the cache restores the dictionaries, so the next `AddPanel` reuses it again |
| `PanelDirectory.ClosedOutcomes` | EasyUIFramework/Assets/Scripts/UI/Services/PanelManagerService.cs:146-191 | a panel closed into the cache is not destroyed and keeps its reusable flag; otherwise it is destroyed, sent to the pool, or deactivated by its own `OnExit`; its trace only grows, and its GameObject is hidden iff a `Hidden` event is recorded |
| `PanelDirectory.PanelManagerService.constructor` | EasyUIFramework/Assets/Scripts/UI/Services/PanelManagerService.cs:14-18 | three empty dictionaries |
| `PanelDirectory.PanelManagerService.GetPanelInstanceGameObject` | EasyUIFramework/Assets/Scripts/UI/Services/PanelManagerService.cs:104-124 | the GameObject filed under the name, or null iff there is none |
| `PanelDirectory.PanelManagerService.GetPanelInstance` | EasyUIFramework/Assets/Scripts/UI/Services/PanelManagerService.cs:112-116 | the live panel under the name, or null iff there is none (a cached panel is not found) |
| `PanelDirectory.PanelManagerService.GetPanel` | EasyUIFramework/Assets/Scripts/UI/Services/PanelManagerService.cs:196-203 | the live panel iff it exists and is of the requested type, null otherwise |
| `PanelDirectory.PanelManagerService.GetCacheStats` | EasyUIFramework/Assets/Scripts/UI/Services/PanelManagerService.cs:230-233 | the number of cached panels, zero iff the cache is empty |
| `PanelDirectory.PanelManagerService.AddPanel` | EasyUIFramework/Assets/Scripts/UI/Services/PanelManagerService.cs:20-70 | the outcome and new dictionaries are `AddResult` of the old ones: a cache hit for a "Reusable" class returns the cached panel and moves it back to the live map; otherwise a missing prefab or canvas gives null with nothing changed, a name that already has a GameObject throws with nothing changed, and a new name is filed with a fresh active GameObject; the panel states are `AddedState`: the reused panel, when it is a reusable panel, is activated with its GameObject shown and runs no `Init`, and a newly filed panel runs `Init` once; the GameObject already filed under the name is touched only when a cached reusable panel is activated (the frame `AddFrame`), so the null, throwing and non-reusable reuse paths leave it as it was |
| `PanelDirectory.PanelManagerService.AddPanelWithParent` | EasyUIFramework/Assets/Scripts/UI/Services/PanelManagerService.cs:72-82 | the dictionaries and outcome are those of `AddPanel` (`AddResult`); when it threw, neither panel changed; otherwise, even when null was returned, the panel is in its `AddedState` with the parent set, and the parent is in its `AddedState` with the panel appended to its children and paused (`Adopted`), including when a panel is its own parent; the GameObject filed under the name is framed as in `AddPanel` |
| `PanelDirectory.PanelManagerService.AsyncAddPanel` | EasyUIFramework/Assets/Scripts/UI/Services/PanelManagerService.cs:84-90 | exactly the contract of `AddPanel`: the same `AddResult`, the same panel states and GameObjects |
| `PanelDirectory.PanelManagerService.AsyncAddPanelWithParent` | EasyUIFramework/Assets/Scripts/UI/Services/PanelManagerService.cs:92-102 | exactly the contract of `AddPanelWithParent` |
| `PanelDirectory.PanelManagerService.Attach` | EasyUIFramework/Assets/Scripts/UI/Services/PanelManagerService.cs:75-79 | the panel's parent is set, and the parent appends the panel to its children and pauses (`Adopted`), also when the two are the same panel |
| `PanelDirectory.PanelManagerService.RemovePanel` | EasyUIFramework/Assets/Scripts/UI/Services/PanelManagerService.cs:126-194 | a name without both a GameObject and a live panel changes neither the dictionaries nor the pool; otherwise the dictionaries are `Close` of the old ones, the parent is `Unlinked` (child removed, resumed iff left with no children and no parent), the panel is `Closed`: cached (deactivated with its GameObject hidden when a reusable panel) or taken through its own `OnExit`, which for a pooled panel despawns it when the pool holds it in use, and the `BasePoolablePanel` pool changes by `PoolAfterExit` exactly when the panel is not cached; a panel that is its own parent is unlinked first, then closed |
| `PanelDirectory.PanelManagerService.RemoveLive` | EasyUIFramework/Assets/Scripts/UI/Services/PanelManagerService.cs:133-191 | the removal of a live panel, detach then dispatch, with the same dictionaries, parent, panel, GameObject and pool states as `RemovePanel` |
| `PanelDirectory.PanelManagerService.Detach` | EasyUIFramework/Assets/Scripts/UI/Services/PanelManagerService.cs:133-144 | the parent becomes `Unlinked`: the panel leaves its child list, and it resumes iff it has no children left and no parent; the dictionaries, the pools and what decides the panel's dispatch are untouched |
| `PanelDirectory.PanelManagerService.Dispose` | EasyUIFramework/Assets/Scripts/UI/Services/PanelManagerService.cs:146-191 | the dictionaries become `Close` of the old ones, the panel `Closed` and its GameObject hidden iff `CloseHides`; the pool changes by `PoolAfterExit` only when the panel is not cached |
| `PanelDirectory.PanelManagerService.Shelve` | EasyUIFramework/Assets/Scripts/UI/Services/PanelManagerService.cs:158-172 | the panel moves to the cache, is deactivated with its GameObject hidden when it is a reusable panel, and the registry and its pool are unchanged |
| `PanelDirectory.PanelManagerService.Destroy` | EasyUIFramework/Assets/Scripts/UI/Services/PanelManagerService.cs:173-191 | the panel takes its own `OnExit` (`Exited`, GameObject hidden iff `ExitHides`, pool by `PoolAfterExit`), then it and its GameObject are forgotten |
| `PanelDirectory.PanelManagerService.Cache` | EasyUIFramework/Assets/Scripts/UI/Services/PanelManagerService.cs:161-162 | the live panel moves to the cache and its GameObject stays filed |
| `PanelDirectory.PanelManagerService.Forget` | EasyUIFramework/Assets/Scripts/UI/Services/PanelManagerService.cs:177-178 | the live panel and its GameObject are both forgotten |
| `PanelDirectory.PanelManagerService.Deactivate` | EasyUIFramework/Assets/Scripts/UI/Services/PanelManagerService.cs:165-169 | `OnDeactivate` on a cached panel hides its GameObject and leaves the pools untouched |
| `PanelDirectory.PanelManagerService.TearDown` | EasyUIFramework/Assets/Scripts/UI/Services/PanelManagerService.cs:213-221 | the panel becomes `TornDown`: `ForceDestroy` where the class has it, `OnExit` otherwise; its GameObject is hidden iff the pool takes it back, and the pool changes by `PoolAfterExit` |
| `PanelDirectory.PanelManagerService.ForceDestroyCachedPanel` | EasyUIFramework/Assets/Scripts/UI/Services/PanelManagerService.cs:238-255 | a cached panel is `TornDown` and its GameObject hidden iff the pool takes it back; only its cache entry is dropped (`Evict`), and the pool changes by `PoolAfterExit` of that panel; an uncached name changes nothing |
| `PanelDirectory.PanelManagerService.TearDownEach` | EasyUIFramework/Assets/Scripts/UI/Services/PanelManagerService.cs:210-222 | every panel of the set is torn down once, in the returned order: `AllTornDown` holds (each panel `TornDown` from its old state, and each GameObject of the map active exactly when it was before and no teardown of the order hid it, `HiddenBy`), and the pool is `PoolAfterExits` of that order |
| `PanelDirectory.PanelManagerService.TearDownStep` | EasyUIFramework/Assets/Scripts/UI/Services/PanelManagerService.cs:211-221 | one turn of the loop: `Progress` moves the panel from the remaining set to the end of the order, its GameObject's flag follows its teardown exactly and every other GameObject is untouched, and the pool advances by its `PoolAfterExit` |
| `PanelDirectory.PanelManagerService.TearDownNamed` | EasyUIFramework/Assets/Scripts/UI/Services/PanelManagerService.cs:211-221 | `TearDown` of one panel with its GameObject looked up by name: that GameObject is active exactly when it was and the teardown does not hide it, nothing else in the map changes, and no other panel changes |
| `PanelDirectory.PanelManagerService.TearDownLoop` | EasyUIFramework/Assets/Scripts/UI/Services/PanelManagerService.cs:210-222 | the `foreach` itself: from nothing torn down to every panel torn down (`Progress` with nothing remaining), the pool advancing by `PoolAfterExits` of the order |
| `PanelDirectory.PanelManagerService.HiddenByAny` | EasyUIFramework/Assets/Scripts/UI/Services/PanelManagerService.cs:210-222 | whatever the order, a GameObject is hidden by the teardowns exactly when one of the panels filed under it has a hiding teardown |
| `PanelDirectory.PanelManagerService.HiddenOnlyOwn` | EasyUIFramework/Assets/Scripts/UI/Services/PanelManagerService.cs:210-222 | with one GameObject per name, clearing the cache changes only the GameObjects of cached pooled panels the pool takes back: live panels' and force-destroyed reusable panels' GameObjects stay as they were |
| `PanelDirectory.PanelManagerService.EmptyCache` | EasyUIFramework/Assets/Scripts/UI/Services/PanelManagerService.cs:223 | the cache is emptied and the other dictionaries stay (`EvictAll`) |
| `PanelDirectory.PanelManagerService.ClearReusablePanelCache` | EasyUIFramework/Assets/Scripts/UI/Services/PanelManagerService.cs:208-225 | every cached panel is torn down exactly once (`AllTornDown`), in the dictionary's enumeration order `order`, each GameObject of `panelDict` stays as it was unless one of these teardowns hid it, the `BasePoolablePanel` pool is `PoolAfterExits` of that order, and the cache is emptied with `panelDict` untouched (`EvictAll`) |
| `UIElements.SpawnClearsItem` | EasyUIFramework/Assets/Scripts/UI/Example/PooledListItem.cs:47-82 | right after every spawn a list item is active, blocks raycasts and holds id 0, name "" and count 0 |
| `UIElements.DespawnKeepsItem` | EasyUIFramework/Assets/Scripts/UI/Example/PooledListItem.cs:59-90 | a despawned item keeps its data while pooled, until the next spawn resets it |
| `UIElements.BaseHooksNeutral` | EasyUIFramework/Assets/Scripts/UI/Pool/Base/BasePoolableUIElement.cs:27-63 | the default hooks change nothing: a plain element's spawn and despawn touch only its two flags |
| `UIElements.DespawnTwice` | EasyUIFramework/Assets/Scripts/UI/Pool/Base/BasePoolableUIElement.cs:41-45 | a second despawn leaves the same fields as the first |
| `UIElements.UIElement.constructor` | EasyUIFramework/Assets/Scripts/UI/Pool/Base/BasePoolableUIElement.cs:14-22 | after `Awake` the element blocks raycasts and the item fields hold their defaults |
| `UIElements.UIElement.ResetUIElement` | EasyUIFramework/Assets/Scripts/UI/Example/PooledListItem.cs:71-82 | a list item forgets its data; a plain element changes nothing |
| `UIElements.UIElement.CleanupUIElement` | EasyUIFramework/Assets/Scripts/UI/Example/PooledListItem.cs:87-90 | changes nothing |
| `UIElements.UIElement.OnSpawn` | EasyUIFramework/Assets/Scripts/UI/Pool/Base/BasePoolableUIElement.cs:27-36 | active and blocking raycasts, then `ResetUIElement` |
| `UIElements.UIElement.OnDespawn` | EasyUIFramework/Assets/Scripts/UI/Pool/Base/BasePoolableUIElement.cs:41-45 | inactive, then `CleanupUIElement` |
| `UIElements.UIElement.Destroy` | EasyUIFramework/Assets/Scripts/UI/Pool/Base/BasePoolableUIElement.cs:68-71 | exactly `OnDespawn`, and no container or pool hears of it |
| `UIElements.UIElement.DestroyGameObject` | EasyUIFramework/Assets/Scripts/UI/Example/PooledListContainer.cs:119-119 | destroying the GameObject is recorded and changes none of the element's fields |
| `UIElements.UIElement.SetItemData` | EasyUIFramework/Assets/Scripts/UI/Example/PooledListItem.cs:23-30 | stores the three values |
| `UIElements.UIElement.GetItemId` | EasyUIFramework/Assets/Scripts/UI/Example/PooledListItem.cs:105-108 | returns the stored id |
| `UIElements.UIElement.OnDeleteButtonClicked` | EasyUIFramework/Assets/Scripts/UI/Example/PooledListItem.cs:95-100 | only `Destroy`, that is `OnDespawn`; the item stays in its container's active list |
| `ListContainer.TakeKeepsBounded` | EasyUIFramework/Assets/Scripts/UI/Example/PooledListContainer.cs:45-67 | `GetListItem` takes the queue's head when there is one, creates exactly one item only below the cap, returns nothing and changes nothing at the cap, and keeps `active + pooled <= 100` |
| `ListContainer.ReturnKeepsBounded` | EasyUIFramework/Assets/Scripts/UI/Example/PooledListContainer.cs:72-79 | a returned active item moves to the back of the queue, the total and the cap are kept, and returning a non-active item (or the same item twice) changes nothing |
| `ListContainer.DistinctAppend` | EasyUIFramework/Assets/Scripts/UI/Example/PooledListContainer.cs:15-16 | an item filed once across both lists is in at most one of them |
| `ListContainer.DistinctJoin` | EasyUIFramework/Assets/Scripts/UI/Example/PooledListContainer.cs:76-77 | moving one item from the list to the queue keeps every item filed once |
| `ListContainer.ReturnAllKeepsTotal` | EasyUIFramework/Assets/Scripts/UI/Example/PooledListContainer.cs:96-104 | clearing empties the active list, keeps the total, and queues the active items in list order behind the pooled ones |
| `ListContainer.ReturnFrontRepeated` | EasyUIFramework/Assets/Scripts/UI/Example/PooledListContainer.cs:98-103 | clearing is returning the first active item until none is left |
| `ListContainer.PooledListContainer.constructor` | EasyUIFramework/Assets/Scripts/UI/Example/PooledListContainer.cs:21-40 | `Start` preloads 20 new, inactive list items into the queue, with the active list empty |
| `ListContainer.PooledListContainer.GetListItem` | EasyUIFramework/Assets/Scripts/UI/Example/PooledListContainer.cs:45-67 | null exactly at the cap, with nothing changed; otherwise the result and new state are `Take` of the old state, the item is the queue's head or, with an empty queue, a new item, and it has had `OnSpawn`: active, blocking raycasts, id 0 |
| `ListContainer.PooledListContainer.ReturnListItem` | EasyUIFramework/Assets/Scripts/UI/Example/PooledListContainer.cs:72-79 | new state is `Return` of the old state; an active item is despawned, any other item untouched |
| `ListContainer.PooledListContainer.AddItem` | EasyUIFramework/Assets/Scripts/UI/Example/PooledListContainer.cs:84-91 | at the cap nothing changes; otherwise the state is `Take` of the old state and the new last active item, the queue's old head or a new item, is spawned and then holds the three values |
| `ListContainer.PooledListContainer.ClearAllItems` | EasyUIFramework/Assets/Scripts/UI/Example/PooledListContainer.cs:96-104 | new state is `ReturnAll` of the old state, and every formerly active item is despawned |
| `ListContainer.PooledListContainer.GetStats` | EasyUIFramework/Assets/Scripts/UI/Example/PooledListContainer.cs:109-112 | the active count, the pooled count, their sum (at most 100) and the cap |
| `ListContainer.PooledListContainer.OnDestroy` | EasyUIFramework/Assets/Scripts/UI/Example/PooledListContainer.cs:114-129 | every item's GameObject is destroyed, then both collections are emptied |
| `ListContainer.PooledListContainer.DestroyAll` | EasyUIFramework/Assets/Scripts/UI/Example/PooledListContainer.cs:116-127 | the loop destroys each item's GameObject once |

## Left out

- **`BasePanel`** is not part of this model. The `Panel` class assumes the following behaviour, which is not verified against any source:
  - `SetParentPanel`, `AddChildPanel`, `RemoveChildPanel` (as `List.Remove`) and `ChildPanelCount` behave as their names say;
  - `OnPause`/`OnResume` set a paused flag;
  - `Init` runs the three init steps, which only log, and is counted;
  - `CloseAllChildPanels` is recorded as an event;
  - `OnExit` destroys the panel.
- **Reflection and runtime types** are replaced by explicit data:
  - **Class name:** the panel's runtime class name is the `typeName` field.
  - **Base class:** which base class it derives from is the `base` tag. The tag decides whether `GetMethod("OnDeactivate")`, `GetMethod("ForceDestroy")` and `GetField("isReusable")` find a member.
  - **`GetPanel<T>`:** `T` is a `PanelType` value: any panel, one of the two base classes, or an exact class name. A panel of a subclass of a concrete class `T` is not accepted as a `T`, while the `as T` cast of the source accepts it.
  - **Pool registry keys:** a runtime `Type` key of the pool registry is its name.
  - **Pools:** the registry holds pools of one element type, and the generic-instantiation and cast steps always succeed. The type mismatch of handing a `Func<BasePanel>` to a pool of a derived type is not modelled.
- **`IPoolable`** becomes a type parameter of the pool. The hooks a pool invokes are recorded in its effects log, not run. Their effect on a panel or element is stated separately by that entity's `OnSpawn`/`OnDespawn`.
  - The one hook that reaches a panel here is the pooled `OnExit`: the `BasePoolablePanel` pool takes the panel back and runs its `OnDespawn` exactly when it holds the panel in use, and the model applies that `OnDespawn` to the panel.
- **Unity engine calls:**
  - `Resources.Load` and `GameObject.Find("Canvas")` become two flags.
  - `Instantiate` becomes a fresh object.
  - `SetActive` becomes an active flag.
  - `CanvasGroup.alpha` and `interactable` are left out. Only `blocksRaycasts` is kept.
  - `Object.Destroy` is recorded as an event.
  - The `EventBus` listener clearing is recorded as an event naming the panel.
- **Singletons:** `PoolManager.Instance` and `EventBus.Instance` are passed explicitly or recorded.
- **Not modelled at all:**
  - `Debug.Log` output;
  - the stats strings of `GetAllPoolStats`, `GetCacheStats`, `GetPoolStats` and `ToString` (only the numbers are modelled);
  - the `UnityEvent` button wiring of `PooledListItem`;
  - its label texts.
- **Integers** are unbounded. The 32-bit wrap-around of `totalCreated`, `useCount` and the counters is not modelled, since no count here can reach it.
- **Asynchrony:** `AsyncAddPanel` only delegates to the synchronous path, and nothing is concurrent.
- **Pool factories** are assumed to make a new object on every call (an injective factory). `UIObjectPool.Clear` requires this too, because a cleared pool is only valid again under that assumption.
- `ObjectPool.UIObjectPool.Clear`: requires the factory to make a new object on every call, which the source does not demand, so that the cleared pool satisfies the pool invariant.
- `PanelDirectory.PanelManagerService.HiddenOnlyOwn`: takes one GameObject per name as a hypothesis. The service invariant does not carry it, although `AddPanel` files a new GameObject for every new name. Without it, `ClearReusablePanelCache` states each GameObject's flag by `HiddenBy`, which also covers two names that share one GameObject.
