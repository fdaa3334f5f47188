/** Panels and their lifecycles: the `BasePanel` operations the framework
    relies on, the reusable lifecycle of `BaseReusablePanel`, the pooled
    lifecycle of `BasePoolablePanel`, and the two example panels
    `ExampleReusablePanel` and `PooledPanelExample`.

    One class `Panel` stands for the whole hierarchy: the constants `base`
    and `example` say which base class and which example class a panel
    is, and each virtual method dispatches on them. The pure functions on
    `PanelState` say what each lifecycle step does to a panel; the methods
    are proved against them.

    `BasePanel` itself is not part of this model: its operations are given
    the minimal behaviour their names state (a parent link, a child list, a
    paused flag, an `Init` counter, a destroyed flag), and `CloseAllChildPanels`
    is only recorded. The GameObject a panel finds through the panel
    manager is passed in as a `Visual` that may be null. */
module Panels {
  import opened Common
  import opened ObjectPool
  import opened PoolRegistry

  /** A panel's instantiated GameObject; only its active flag is modelled. */
  class Visual {
    var active: bool

    constructor(active: bool)
      ensures this.active == active
    {
      this.active := active;
    }
  }

  /** The framework base class a panel class derives from. */
  datatype Base = PlainPanel | ReusablePanel | PoolablePanel

  /** The two example classes; `OtherPanel` is any other concrete class. */
  datatype Example = OtherPanel | ExampleReusable | PooledExample

  /** The calls a panel receives, in order. */
  datatype PanelEvent =
    | Shown                            // its GameObject was activated
    | Hidden                           // its GameObject was deactivated
    | Paused                           // OnPause
    | Resumed                          // OnResume
    | Initialised                      // Init
    | ChildrenClosed                   // CloseAllChildPanels
    | ListenersCleared(panelName: string)  // EventBus.ClearListenersForPanel
    | ReusableReset                    // ResetForReuse
    | PoolableReset                    // ResetPoolableState
    | Destroyed                        // BasePanel.OnExit
    | SentToPool                       // PoolManager.Despawn<BasePoolablePanel>

  /** The registry key `OnExit` of a pooled panel despawns under:
      `typeof(BasePoolablePanel)`. */
  const PoolableKey: string := "BasePoolablePanel"

  /** The word the panel manager looks for in a panel's class name. */
  const ReusableMarker: string := "Reusable"

  /** The mutable fields of a panel, as one value. */
  datatype PanelState = PanelState(
    parent: Panel?,
    children: seq<Panel>,
    paused: bool,
    initCount: nat,
    destroyed: bool,
    isReusable: bool,
    displayText: string,
    useCount: int,
    exampleData: int,
    trace: seq<PanelEvent>)

  // ---------------------------------------------------------------------
  // What each lifecycle step does

  function ShowIf(shown: bool): seq<PanelEvent> {
    if shown then [Shown] else []
  }

  function HideIf(shown: bool): seq<PanelEvent> {
    if shown then [Hidden] else []
  }

  /** `BaseReusablePanel.OnActivate`: show, then `OnResume`; the example
      panel then counts the use. */
  function Activated(s: PanelState, example: Example, shown: bool): PanelState {
    s.(paused := false,
       useCount := if example == ExampleReusable then s.useCount + 1 else s.useCount,
       trace := s.trace + ShowIf(shown) + [Resumed])
  }

  /** `BaseReusablePanel.OnDeactivate`: close the children, hide, then
      `ResetForReuse`, which clears the example panel's text. */
  function Deactivated(s: PanelState, example: Example, shown: bool): PanelState {
    s.(displayText := if example == ExampleReusable then "" else s.displayText,
       trace := s.trace + [ChildrenClosed] + HideIf(shown) + [ReusableReset])
  }

  /** `BasePanel.OnExit`, the destroying exit. */
  function DestroyedState(s: PanelState): PanelState {
    s.(destroyed := true, trace := s.trace + [Destroyed])
  }

  /** `BasePoolablePanel.OnSpawn`: show, `OnResume`, then `Init`. */
  function Spawned(s: PanelState, shown: bool): PanelState {
    s.(paused := false, initCount := s.initCount + 1,
       trace := s.trace + ShowIf(shown) + [Resumed, Initialised])
  }

  /** `BasePoolablePanel.OnDespawn`: close the children, clear the event
      listeners of the panel's name, hide, then `ResetPoolableState`, which
      zeroes the example panel's data. */
  function DespawnedState(s: PanelState, example: Example, name: string, shown: bool): PanelState {
    s.(exampleData := if example == PooledExample then 0 else s.exampleData,
       trace := s.trace + [ChildrenClosed, ListenersCleared(name)] + HideIf(shown) + [PoolableReset])
  }

  /** A child panel is added under a panel: it joins the child list and
      the parent pauses. */
  function Adopted(s: PanelState, child: Panel): PanelState {
    s.(children := s.children + [child], paused := true, trace := s.trace + [Paused])
  }

  /** A child panel is removed from under a panel: its first entry leaves
      the child list, and the parent resumes when no child is left and it
      has no parent of its own. */
  function Unlinked(s: PanelState, child: Panel): PanelState {
    var kids := RemoveFirst(s.children, child);
    if |kids| == 0 && s.parent == null then s.(children := kids, paused := false, trace := s.trace + [Resumed])
    else s.(children := kids)
  }

  /** Adding a new child and removing it again restores the child list; a
      top-level panel that had no children is resumed again, and a panel
      that had children stays paused. */
  lemma AdoptThenUnlink(s: PanelState, child: Panel)
    requires child !in s.children
    ensures var t := Unlinked(Adopted(s, child), child);
      && t.children == s.children && t.parent == s.parent
      && (s.children == [] && s.parent == null ==> !t.paused && t.trace == s.trace + [Paused, Resumed])
      && (s.children != [] || s.parent != null ==> t.paused && t.trace == s.trace + [Paused])
  {
    RemoveFirstAppended(s.children, child);
  }

  /** The virtual `OnExit`: a reusable panel still marked reusable
      deactivates; a pooled panel goes back to the registry, whose pool runs
      the panel's own `OnDespawn` when it holds the panel in use
      (`reclaimed`); anything else is destroyed. */
  function Exited(s: PanelState, base: Base, isPooled: bool, example: Example, name: string,
                  shown: bool, reclaimed: bool): PanelState {
    if base == ReusablePanel && s.isReusable then Deactivated(s, example, shown)
    else if base == PoolablePanel && isPooled then
      var sent := s.(trace := s.trace + [SentToPool]);
      if reclaimed then DespawnedState(sent, example, name, shown) else sent
    else DestroyedState(s)
  }

  /** `OnExit` hides the panel's GameObject: on deactivation, and when the
      pool takes the panel back. */
  predicate ExitHides(s: PanelState, base: Base, isPooled: bool, reclaimed: bool) {
    (base == ReusablePanel && s.isReusable) || (base == PoolablePanel && isPooled && reclaimed)
  }

  /** `ForceDestroy` on a reusable panel, otherwise `OnExit`: what the panel
      manager does to each cached panel it tears down. */
  function TornDown(s: PanelState, base: Base, isPooled: bool, example: Example, name: string,
                    shown: bool, reclaimed: bool): PanelState {
    if base == ReusablePanel then DestroyedState(s.(isReusable := false))
    else Exited(s, base, isPooled, example, name, shown, reclaimed)
  }

  /** The teardown hides the GameObject only when the pool takes the panel
      back: a reusable panel is force-destroyed, not deactivated. */
  predicate TearDownHides(base: Base, isPooled: bool, reclaimed: bool) {
    base == PoolablePanel && isPooled && reclaimed
  }

  /** `n` rounds of deactivation followed by activation, as a cached
      reusable panel goes through when it is closed and reopened `n` times. */
  function Reopened(s: PanelState, example: Example, shown: bool, n: nat): PanelState
    decreases n
  {
    if n == 0 then s
    else Activated(Deactivated(Reopened(s, example, shown, n - 1), example, shown), example, shown)
  }

  // ---------------------------------------------------------------------
  // Facts about the lifecycles

  /** Each reopening counts exactly one use of the example panel, clears its
      text, and leaves `Init` alone; nothing else resets the count. */
  lemma {:induction false} ReopenCountsUses(s: PanelState, shown: bool, n: nat)
    ensures Reopened(s, ExampleReusable, shown, n).useCount == s.useCount + n
    ensures Reopened(s, ExampleReusable, shown, n).initCount == s.initCount
    ensures n > 0 ==> Reopened(s, ExampleReusable, shown, n).displayText == ""
    ensures n > 0 ==> !Reopened(s, ExampleReusable, shown, n).paused
    decreases n
  {
    if n > 0 {
      ReopenCountsUses(s, shown, n - 1);
    }
  }

  /** A reusable panel that was force-destroyed, or marked not reusable,
      takes the destroying branch of every later exit. */
  lemma ExitAfterForceDestroy(s: PanelState, example: Example, name: string, shown: bool, reclaimed: bool)
    ensures var t := TornDown(s, ReusablePanel, false, example, name, shown, reclaimed);
      !t.isReusable && t.destroyed
      && Exited(t, ReusablePanel, false, example, name, shown, reclaimed) == DestroyedState(t)
    ensures !s.isReusable ==> Exited(s, ReusablePanel, false, example, name, shown, reclaimed).destroyed
    ensures s.isReusable ==> !Exited(s, ReusablePanel, false, example, name, shown, reclaimed).destroyed || s.destroyed
  {
  }

  /** A despawned example panel reports zero data whatever was set, and
      every spawn runs `Init` once more. Closing the example panel zeroes its
      data exactly when the pool takes it back. */
  lemma PoolCycleResetsData(s: PanelState, name: string, data: int, shown: bool, reclaimed: bool)
    ensures DespawnedState(s.(exampleData := data), PooledExample, name, shown).exampleData == 0
    ensures Spawned(DespawnedState(s, PooledExample, name, shown), shown).initCount == s.initCount + 1
    ensures Spawned(DespawnedState(s, PooledExample, name, shown), shown).exampleData == 0
    ensures var t := Exited(s.(exampleData := data), PoolablePanel, true, PooledExample, name, shown, reclaimed);
      && !t.destroyed == !s.destroyed
      && (t.exampleData == 0 <==> reclaimed || data == 0)
  {
  }

  /** The hooks run in the documented order: deactivation closes children
      before hiding and resets last; despawn closes children, clears the
      listeners, hides, and resets last. */
  lemma HookOrder(s: PanelState, example: Example, name: string)
    ensures var d := Deactivated(s, example, true).trace;
      d[|s.trace|..] == [ChildrenClosed, Hidden, ReusableReset]
    ensures var p := DespawnedState(s, example, name, true).trace;
      p[|s.trace|..] == [ChildrenClosed, ListenersCleared(name), Hidden, PoolableReset]
    ensures var a := Activated(s, example, true).trace;
      a[|s.trace|..] == [Shown, Resumed]
  {
  }

  /** The cached-panel teardown never leaves a panel marked reusable, and it
      leaves every panel either destroyed or sent to the pool; a panel sent
      to the pool is despawned by it exactly when the pool held it in use. */
  lemma TeardownFinal(s: PanelState, base: Base, isPooled: bool, example: Example, name: string,
                      shown: bool, reclaimed: bool)
    ensures var t := TornDown(s, base, isPooled, example, name, shown, reclaimed);
      && (base == ReusablePanel ==> !t.isReusable)
      && |t.trace| > |s.trace|
      && (t.trace[|s.trace|] == SentToPool <==> base == PoolablePanel && isPooled)
      && (t.trace[|s.trace|] != SentToPool ==> t.destroyed && |t.trace| == |s.trace| + 1)
      && (t.trace[|s.trace|] == SentToPool ==>
            t.trace[|s.trace|..] == [SentToPool] +
              (if reclaimed then [ChildrenClosed, ListenersCleared(name)] + HideIf(shown) + [PoolableReset] else []))
  {
  }

  /** "PooledPanelExample" has no 'R', so it does not contain "Reusable". */
  lemma PooledExampleNotReusable()
    ensures !Contains("PooledPanelExample", ReusableMarker)
  {
    var n := "PooledPanelExample";
    assert forall i :: 0 <= i < |n| ==> n[i] != 'R';
    MissingFirstChar(n, ReusableMarker);
  }

  /** The registry pool `OnExit` may change: the one under `PoolableKey`. */
  function PoolFrame(registry: PoolManager<Panel>): set<UIObjectPool<Panel>>
    reads registry
  {
    if PoolableKey in registry.pools then {registry.pools[PoolableKey]} else {}
  }

  /** The pool under `PoolableKey` holds `p` in use, so that `OnExit`
      hands `p` back to it and it runs `p`'s `OnDespawn`. */
  ghost predicate HeldInUse(registry: PoolManager<Panel>, p: Panel)
    reads registry, PoolFrame(registry)
  {
    PoolableKey in registry.pools && p in registry.pools[PoolableKey].inUseObjects
  }

  /** The panels the pool under `PoolableKey` holds in use; none when there
      is no such pool. */
  ghost function HeldSet(registry: PoolManager<Panel>): set<Panel>
    reads registry, PoolFrame(registry)
  {
    if PoolableKey in registry.pools then registry.pools[PoolableKey].inUseObjects else {}
  }

  /** What `OnExit` of `p` does to the pool under `PoolableKey`: a pooled
      panel is despawned into it; any other panel leaves it as it was. */
  function PoolAfterExit(setup: Setup<Panel>, s: PoolState<Panel>, p: Panel): PoolState<Panel> {
    if p.base == PoolablePanel && p.isPooled then AfterDespawn(setup, s, Some(p)) else s
  }

  /** `PoolAfterExit` for each panel of `ps` in turn. */
  function PoolAfterExits(setup: Setup<Panel>, s: PoolState<Panel>, ps: seq<Panel>): PoolState<Panel>
    decreases |ps|
  {
    if ps == [] then s else PoolAfterExit(setup, PoolAfterExits(setup, s, ps[..|ps| - 1]), ps[|ps| - 1])
  }

  /** An exit takes only the exiting panel out of the in-use set, so for
      distinct panels the order of their exits does not decide which of
      them the pool takes back. */
  lemma {:induction false} ExitsKeepOthersInUse(setup: Setup<Panel>, s: PoolState<Panel>, ps: seq<Panel>, q: Panel)
    requires q !in ps
    ensures q in PoolAfterExits(setup, s, ps).inUse <==> q in s.inUse
    decreases |ps|
  {
    if ps != [] {
      ExitsKeepOthersInUse(setup, s, ps[..|ps| - 1], q);
    }
  }

  /** Exiting pooled panels one after another: each one the pool held in
      use ends up queued and out of the in-use set, and the queue only
      grows at the back. */
  lemma {:induction false} ExitsReturnHeld(setup: Setup<Panel>, s: PoolState<Panel>, ps: seq<Panel>)
    requires Distinct(ps)
    ensures var t := PoolAfterExits(setup, s, ps);
      && s.available <= t.available
      && t.inUse <= s.inUse
      && forall p :: p in ps && p.base == PoolablePanel && p.isPooled && p in s.inUse ==>
           p in t.available && p !in t.inUse
    decreases |ps|
  {
    if ps != [] {
      var init := ps[..|ps| - 1];
      var last := ps[|ps| - 1];
      assert Distinct(init) by {
        forall i, j | 0 <= i < j < |init| ensures init[i] != init[j] {
          assert init[i] == ps[i] && init[j] == ps[j];
        }
      }
      ExitsReturnHeld(setup, s, init);
      assert last !in init by {
        forall i | 0 <= i < |init| ensures init[i] != last {
          assert init[i] == ps[i];
        }
      }
      ExitsKeepOthersInUse(setup, s, init, last);
      var m := PoolAfterExits(setup, s, init);
      var t := PoolAfterExits(setup, s, ps);
      assert t == PoolAfterExit(setup, m, last);
      assert m.available <= t.available;
      forall p | p in ps && p.base == PoolablePanel && p.isPooled && p in s.inUse
        ensures p in t.available && p !in t.inUse
      {
        if p != last {
          assert p in init by {
            var i :| 0 <= i < |ps| && ps[i] == p;
            assert i < |init|;
            assert init[i] == p;
          }
          assert p in m.available;
          assert p in t.available by {
            var k :| 0 <= k < |m.available| && m.available[k] == p;
            assert t.available[k] == p;
          }
        }
      }
    }
  }

  // ---------------------------------------------------------------------
  // The panel object

  class Panel {
    /** `UIType.Name`, the key the panel manager files the panel under. */
    const name: string
    /** The name of the panel's runtime class. */
    const typeName: string
    const base: Base
    const example: Example
    /** `BasePoolablePanel.isPooled`: set by the constructor, never changed. */
    const isPooled: bool

    var parent: Panel?
    var children: seq<Panel>
    var paused: bool
    var initCount: nat
    var destroyed: bool
    /** `BaseReusablePanel.isReusable`; meaningful only for reusable panels. */
    var isReusable: bool
    /** `ExampleReusablePanel.displayText`. */
    var displayText: string
    /** `ExampleReusablePanel.useCount`. */
    var useCount: int
    /** `PooledPanelExample.exampleData`. */
    var exampleData: int
    ghost var trace: seq<PanelEvent>

    ghost function Snapshot(): PanelState
      reads this
    {
      PanelState(parent, children, paused, initCount, destroyed, isReusable, displayText, useCount, exampleData, trace)
    }

    /** The panel manager caches panels whose class name contains "Reusable". */
    function ReusableByName(): (r: bool)
      ensures r <==> exists i :: OccursAt(typeName, ReusableMarker, i)
    {
      Contains(typeName, ReusableMarker)
    }

    /** The `isReusable` value the panel manager reads: the field where the
        class has one, `true` otherwise. */
    function ReusableFlag(): (r: bool)
      reads this
      ensures base == ReusablePanel ==> r == isReusable
      ensures base != ReusablePanel ==> r
    {
      if base == ReusablePanel then isReusable else true
    }

    /** A panel of a class outside the two examples. A reusable panel starts
        reusable; a poolable panel starts pooled. */
    constructor(name: string, typeName: string, base: Base)
      ensures this.name == name && this.typeName == typeName && this.base == base && example == OtherPanel
      ensures isPooled == (base == PoolablePanel)
      ensures Snapshot() == PanelState(null, [], false, 0, false, true, "", 0, 0, [])
    {
      this.name := name;
      this.typeName := typeName;
      this.base := base;
      example := OtherPanel;
      isPooled := base == PoolablePanel;
      parent := null;
      children := [];
      paused := false;
      initCount := 0;
      destroyed := false;
      isReusable := true;
      displayText := "";
      useCount := 0;
      exampleData := 0;
      trace := [];
    }

    /** `new ExampleReusablePanel(...)`: registered as "ExampleReusablePanel",
        with no text and no use yet. */
    constructor ExampleReusablePanel()
      ensures name == "ExampleReusablePanel" && typeName == "ExampleReusablePanel"
      ensures base == ReusablePanel && example == ExampleReusable && !isPooled
      ensures ReusableByName()
      ensures Snapshot() == PanelState(null, [], false, 0, false, true, "", 0, 0, [])
    {
      name := "ExampleReusablePanel";
      typeName := "ExampleReusablePanel";
      base := ReusablePanel;
      example := ExampleReusable;
      isPooled := false;
      parent := null;
      children := [];
      paused := false;
      initCount := 0;
      destroyed := false;
      isReusable := true;
      displayText := "";
      useCount := 0;
      exampleData := 0;
      trace := [];
      new;
      assert OccursAt(typeName, ReusableMarker, 7);
    }

    /** `new PooledPanelExample(...)`: always registered as
        "PooledPanelExample", pooled, with data 0. */
    constructor PooledPanelExample()
      ensures name == "PooledPanelExample" && typeName == "PooledPanelExample"
      ensures base == PoolablePanel && example == PooledExample && isPooled
      ensures !ReusableByName()
      ensures Snapshot() == PanelState(null, [], false, 0, false, true, "", 0, 0, [])
    {
      name := "PooledPanelExample";
      typeName := "PooledPanelExample";
      base := PoolablePanel;
      example := PooledExample;
      isPooled := true;
      parent := null;
      children := [];
      paused := false;
      initCount := 0;
      destroyed := false;
      isReusable := true;
      displayText := "";
      useCount := 0;
      exampleData := 0;
      trace := [];
      new;
      assert Snapshot() == PanelState(null, [], false, 0, false, true, "", 0, 0, []);
      PooledExampleNotReusable();
      assert !ReusableByName();
    }

    // -------------------------------------------------------------------
    // BasePanel (assumed behaviour)

    method SetParentPanel(p: Panel?)
      modifies this
      ensures Snapshot() == old(Snapshot()).(parent := p)
    {
      parent := p;
    }

    method AddChildPanel(child: Panel)
      modifies this
      ensures Snapshot() == old(Snapshot()).(children := old(children) + [child])
    {
      children := children + [child];
    }

    method RemoveChildPanel(child: Panel)
      modifies this
      ensures Snapshot() == old(Snapshot()).(children := RemoveFirst(old(children), child))
    {
      children := RemoveFirst(children, child);
    }

    method OnPause()
      modifies this
      ensures Snapshot() == old(Snapshot()).(paused := true, trace := old(trace) + [Paused])
    {
      paused := true;
      trace := trace + [Paused];
    }

    method OnResume()
      modifies this
      ensures Snapshot() == old(Snapshot()).(paused := false, trace := old(trace) + [Resumed])
    {
      paused := false;
      trace := trace + [Resumed];
    }

    method Init()
      modifies this
      ensures Snapshot() == old(Snapshot()).(initCount := old(initCount) + 1, trace := old(trace) + [Initialised])
    {
      initCount := initCount + 1;
      trace := trace + [Initialised];
    }

    method CloseAllChildPanels()
      modifies this
      ensures Snapshot() == old(Snapshot()).(trace := old(trace) + [ChildrenClosed])
    {
      trace := trace + [ChildrenClosed];
    }

    /** `BasePanel.OnExit`: the panel is destroyed. */
    method BaseExit()
      modifies this
      ensures Snapshot() == DestroyedState(old(Snapshot()))
    {
      destroyed := true;
      trace := trace + [Destroyed];
    }

    // -------------------------------------------------------------------
    // BaseReusablePanel and ExampleReusablePanel

    /** Shows the panel's GameObject if there is one, then resumes; the
        example panel then counts one more use. */
    method OnActivate(go: Visual?)
      requires base == ReusablePanel
      modifies this, go
      ensures go != null ==> go.active
      ensures Snapshot() == Activated(old(Snapshot()), example, go != null)
    {
      if go != null {
        go.active := true;
        trace := trace + [Shown];
      }
      OnResume();
      if example == ExampleReusable {
        useCount := useCount + 1;
      }
    }

    /** Closes the children, hides the GameObject if there is one, then
        resets the panel for reuse. */
    method OnDeactivate(go: Visual?)
      requires base == ReusablePanel
      modifies this, go
      ensures go != null ==> !go.active
      ensures Snapshot() == Deactivated(old(Snapshot()), example, go != null)
    {
      CloseAllChildPanels();
      if go != null {
        go.active := false;
        trace := trace + [Hidden];
      }
      ResetForReuse();
    }

    /** Empty by default; the example panel clears its display text. The
        use count is kept. */
    method ResetForReuse()
      requires base == ReusablePanel
      modifies this
      ensures Snapshot() == old(Snapshot()).(
        displayText := if example == ExampleReusable then "" else old(displayText),
        trace := old(trace) + [ReusableReset])
    {
      if example == ExampleReusable {
        displayText := "";
      }
      trace := trace + [ReusableReset];
    }

    method SetReusable(reusable: bool)
      requires base == ReusablePanel
      modifies this
      ensures Snapshot() == old(Snapshot()).(isReusable := reusable)
    {
      isReusable := reusable;
    }

    /** Clears `isReusable` for good, then destroys the panel. */
    method ForceDestroy()
      requires base == ReusablePanel
      modifies this
      ensures Snapshot() == TornDown(old(Snapshot()), base, isPooled, example, name, false, false)
      ensures !isReusable && destroyed
    {
      isReusable := false;
      BaseExit();
    }

    method SetDisplayText(text: string)
      requires example == ExampleReusable
      modifies this
      ensures Snapshot() == old(Snapshot()).(displayText := text)
    {
      displayText := text;
    }

    method GetUseCount() returns (n: int)
      ensures n == useCount
    {
      n := useCount;
    }

    // -------------------------------------------------------------------
    // BasePoolablePanel and PooledPanelExample

    /** Shows the GameObject if there is one, resumes, then runs `Init`
        again. */
    method OnSpawn(go: Visual?)
      requires base == PoolablePanel
      modifies this, go
      ensures go != null ==> go.active
      ensures Snapshot() == Spawned(old(Snapshot()), go != null)
    {
      if go != null {
        go.active := true;
        trace := trace + [Shown];
      }
      OnResume();
      Init();
    }

    /** Closes the children, clears the panel's event listeners, hides the
        GameObject if there is one, then resets the pooled state. */
    method OnDespawn(go: Visual?)
      requires base == PoolablePanel
      modifies this, go
      ensures go != null ==> !go.active
      ensures Snapshot() == DespawnedState(old(Snapshot()), example, name, go != null)
    {
      CloseAllChildPanels();
      trace := trace + [ListenersCleared(name)];
      if go != null {
        go.active := false;
        trace := trace + [Hidden];
      }
      ResetPoolableState();
    }

    /** Empty by default; the example panel zeroes its data. */
    method ResetPoolableState()
      requires base == PoolablePanel
      modifies this
      ensures Snapshot() == old(Snapshot()).(
        exampleData := if example == PooledExample then 0 else old(exampleData),
        trace := old(trace) + [PoolableReset])
    {
      if example == PooledExample {
        exampleData := 0;
      }
      trace := trace + [PoolableReset];
    }

    method SetData(data: int)
      requires example == PooledExample
      modifies this
      ensures Snapshot() == old(Snapshot()).(exampleData := data)
    {
      exampleData := data;
    }

    method GetData() returns (data: int)
      ensures data == exampleData
    {
      data := exampleData;
    }

    // -------------------------------------------------------------------
    // The virtual OnExit

    /** A reusable panel marked reusable deactivates instead of being
        destroyed; a pooled panel is handed to the registry's
        `Despawn<BasePoolablePanel>`, which does nothing unless a pool is
        registered under exactly that key and holds the panel in use, and
        then runs the panel's own `OnDespawn`; every other panel is
        destroyed. */
    method OnExit(go: Visual?, registry: PoolManager<Panel>)
      requires registry.Valid()
      modifies this, go, PoolFrame(registry)
      ensures registry.Valid()
      ensures Snapshot() == Exited(old(Snapshot()), base, isPooled, example, name, go != null, old(HeldInUse(registry, this)))
      ensures go != null ==> go.active == (old(go.active) && !ExitHides(old(Snapshot()), base, isPooled, old(HeldInUse(registry, this))))
      ensures PoolableKey in registry.pools ==>
        var pool := registry.pools[PoolableKey];
        pool.State() == PoolAfterExit(pool.PoolSetup(), old(pool.State()), this)
    {
      if base == ReusablePanel {
        if isReusable {
          OnDeactivate(go);
        } else {
          BaseExit();
        }
      } else if base == PoolablePanel && isPooled {
        ReturnToPool(go, registry);
      } else {
        BaseExit();
      }
    }

    /** The pooled branch of `OnExit`: `Despawn<BasePoolablePanel>` runs the
        panel's `OnDespawn` and queues it when the pool under `PoolableKey`
        holds it in use, and does nothing else. */
    method ReturnToPool(go: Visual?, registry: PoolManager<Panel>)
      requires base == PoolablePanel && registry.Valid()
      modifies this, go, PoolFrame(registry)
      ensures registry.Valid()
      ensures var sent := old(Snapshot()).(trace := old(trace) + [SentToPool]);
        Snapshot() == if old(HeldInUse(registry, this)) then DespawnedState(sent, example, name, go != null) else sent
      ensures go != null ==> go.active == (old(go.active) && !old(HeldInUse(registry, this)))
      ensures PoolableKey in registry.pools ==>
        var pool := registry.pools[PoolableKey];
        pool.State() == AfterDespawn(pool.PoolSetup(), old(pool.State()), Some(this))
    {
      var held := PoolableKey in registry.pools && this in registry.pools[PoolableKey].inUseObjects;
      SentOff(go, held);
      registry.Despawn(PoolableKey, Some(this));
    }

    /** The panel's side of `ReturnToPool`: it is handed over, and takes its
        own `OnDespawn` when the pool `held` it in use. */
    method SentOff(go: Visual?, held: bool)
      requires base == PoolablePanel
      modifies this, go
      ensures var sent := old(Snapshot()).(trace := old(trace) + [SentToPool]);
        Snapshot() == if held then DespawnedState(sent, example, name, go != null) else sent
      ensures go != null ==> go.active == (old(go.active) && !held)
    {
      trace := trace + [SentToPool];
      if held {
        OnDespawn(go);
      }
    }
  }
}
