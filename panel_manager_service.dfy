/** The panel manager service: three dictionaries keyed by a panel's UI
    name — the instantiated GameObjects, the live panels, and the cache of
    closed reusable panels kept for reuse.

    `Maps` is the three dictionaries as a value and the functions after it
    say what each operation does to them; the class `PanelManagerService`
    is proved against those functions. Loading a prefab and finding the
    canvas are engine calls, passed in as two flags; each instantiated
    GameObject is a fresh `Visual`. */
module PanelDirectory {
  import opened Common
  import opened ObjectPool
  import opened PoolRegistry
  import opened Panels

  /** `panelDict`, `panelInstanceDict` and `reusablePanelCache`. */
  datatype Maps<V, P> = Maps(visuals: map<string, V>, live: map<string, P>, cache: map<string, P>)

  /** The result of the fresh path of `AddPanel`: the dictionaries after it,
      and whether it got past both `Dictionary.Add` calls. */
  datatype Added<V, P> = Added(maps: Maps<V, P>, ok: bool)

  /** Every live or cached name has a GameObject, and no name is both live
      and cached. */
  predicate Good<V, P>(d: Maps<V, P>) {
    && d.live.Keys <= d.visuals.Keys
    && d.cache.Keys <= d.visuals.Keys
    && d.live.Keys !! d.cache.Keys
  }

  /** A name whose GameObject entry is left behind with no panel, live or
      cached, to go with it. */
  predicate Stale<V, P>(d: Maps<V, P>, key: string) {
    key in d.visuals && key !in d.live && key !in d.cache
  }

  /** Cache hit of `AddPanel`: the cached panel moves back to the live map. */
  function OpenCached<V, P>(d: Maps<V, P>, key: string): Maps<V, P>
    requires key in d.cache
  {
    Maps(d.visuals, d.live[key := d.cache[key]], d.cache - {key})
  }

  /** Fresh path of `AddPanel`: `panelDict.Add` throws on a name it already
      has; otherwise it succeeds and `panelInstanceDict.Add` may still throw,
      leaving the GameObject registered. */
  function OpenFresh<V, P>(d: Maps<V, P>, key: string, v: V, p: P): Added<V, P> {
    if key in d.visuals then Added(d, false)
    else if key in d.live then Added(d.(visuals := d.visuals[key := v]), false)
    else Added(d.(visuals := d.visuals[key := v], live := d.live[key := p]), true)
  }

  /** `RemovePanel`: nothing unless the name has both a GameObject and a
      live panel; then the panel is either moved to the cache (GameObject
      kept) or forgotten together with its GameObject. */
  function Close<V, P>(d: Maps<V, P>, key: string, toCache: bool): Maps<V, P> {
    if key !in d.visuals || key !in d.live then d
    else if toCache then Maps(d.visuals, d.live - {key}, d.cache[key := d.live[key]])
    else Maps(d.visuals - {key}, d.live - {key}, d.cache)
  }

  /** `ForceDestroyCachedPanel`: only the cache entry goes. */
  function Evict<V, P>(d: Maps<V, P>, key: string): Maps<V, P> {
    if key in d.cache then d.(cache := d.cache - {key}) else d
  }

  /** `ClearReusablePanelCache`: the cache is emptied, nothing else. */
  function EvictAll<V, P>(d: Maps<V, P>): Maps<V, P> {
    d.(cache := map[])
  }

  // ---------------------------------------------------------------------
  // Facts about the dictionaries

  /** Every operation keeps the dictionaries consistent. */
  lemma OperationsKeepGood<V, P>(d: Maps<V, P>, key: string, v: V, p: P, toCache: bool)
    requires Good(d)
    ensures key in d.cache ==> Good(OpenCached(d, key))
    ensures Good(OpenFresh(d, key, v, p).maps)
    ensures Good(Close(d, key, toCache))
    ensures Good(Evict(d, key)) && Good(EvictAll(d))
  {
  }

  /** On consistent dictionaries the fresh path fails exactly when the name
      already has a GameObject, and then changes nothing. */
  lemma FreshFailsOnlyOnDuplicate<V, P>(d: Maps<V, P>, key: string, v: V, p: P)
    requires Good(d)
    ensures OpenFresh(d, key, v, p).ok <==> key !in d.visuals
    ensures !OpenFresh(d, key, v, p).ok ==> OpenFresh(d, key, v, p).maps == d
  {
  }

  /** Closing a live panel into the cache and reopening it restores the
      dictionaries exactly, and the GameObject is never lost. */
  lemma CacheRoundTrip<V, P>(d: Maps<V, P>, key: string)
    requires Good(d) && key in d.live
    ensures key in Close(d, key, true).cache
    ensures Close(d, key, true).visuals == d.visuals
    ensures OpenCached(Close(d, key, true), key) == d
  {
    var c := Close(d, key, true);
    assert key !in d.cache;
    assert c.cache - {key} == d.cache;
    assert c.live[key := c.cache[key]] == d.live;
  }

  /** Opening a new panel under an unused name and destroying it restores
      the dictionaries exactly. */
  lemma FreshRoundTrip<V, P>(d: Maps<V, P>, key: string, v: V, p: P)
    requires Good(d) && key !in d.visuals
    ensures OpenFresh(d, key, v, p).ok
    ensures Close(OpenFresh(d, key, v, p).maps, key, false) == d
  {
    var a := OpenFresh(d, key, v, p).maps;
    assert key !in d.live;
    assert a.visuals - {key} == d.visuals;
    assert a.live - {key} == d.live;
  }

  /** Evicting a cached panel leaves its GameObject entry behind, and from
      then on no operation clears it: the fresh path always fails on that
      name, the cache never holds it again, and `RemovePanel` ignores it. */
  lemma EvictLeavesStale<V, P>(d: Maps<V, P>, key: string)
    requires Good(d) && key in d.cache
    ensures Stale(Evict(d, key), key) && Stale(EvictAll(d), key)
  {
  }

  /** No single operation clears a stale name, and a fresh open of it fails. */
  lemma StaleStaysStale<V, P>(d: Maps<V, P>, key: string, other: string, v: V, p: P, toCache: bool)
    requires Stale(d, key)
    ensures !OpenFresh(d, key, v, p).ok
    ensures Stale(OpenFresh(d, other, v, p).maps, key)
    ensures other in d.cache ==> Stale(OpenCached(d, other), key)
    ensures Stale(Close(d, other, toCache), key)
    ensures Stale(Evict(d, other), key) && Stale(EvictAll(d), key)
  {
  }

  /** One call on the dictionaries, for stating facts about sequences of them. */
  datatype Op = OpenCachedOp(key: string) | OpenFreshOp(key: string) | CloseOp(key: string, toCache: bool) | EvictOp(key: string) | EvictAllOp

  /** The dictionaries after `ops`, each fresh path using `v` and `p`. */
  function Run<V, P>(d: Maps<V, P>, ops: seq<Op>, v: V, p: P): Maps<V, P>
    decreases |ops|
  {
    if ops == [] then d
    else
      var d1 := match ops[0]
        case OpenCachedOp(k) => if k in d.cache then OpenCached(d, k) else d
        case OpenFreshOp(k) => OpenFresh(d, k, v, p).maps
        case CloseOp(k, toCache) => Close(d, k, toCache)
        case EvictOp(k) => Evict(d, k)
        case EvictAllOp => EvictAll(d);
      Run(d1, ops[1..], v, p)
  }

  /** A stale name stays stale along any sequence of operations, so a fresh
      open of it fails for ever. */
  lemma {:induction false} StaleForever<V, P>(d: Maps<V, P>, key: string, ops: seq<Op>, v: V, p: P)
    requires Stale(d, key)
    ensures Stale(Run(d, ops, v, p), key)
    ensures !OpenFresh(Run(d, ops, v, p), key, v, p).ok
    decreases |ops|
  {
    if ops != [] {
      var d1 := match ops[0]
        case OpenCachedOp(k) => if k in d.cache then OpenCached(d, k) else d
        case OpenFreshOp(k) => OpenFresh(d, k, v, p).maps
        case CloseOp(k, toCache) => Close(d, k, toCache)
        case EvictOp(k) => Evict(d, k)
        case EvictAllOp => EvictAll(d);
      match ops[0] {
        case OpenCachedOp(k) => StaleStaysStale(d, key, k, v, p, false);
        case OpenFreshOp(k) => StaleStaysStale(d, key, k, v, p, false);
        case CloseOp(k, toCache) => StaleStaysStale(d, key, k, v, p, toCache);
        case EvictOp(k) => StaleStaysStale(d, key, k, v, p, false);
        case EvictAllOp => StaleStaysStale(d, key, key, v, p, false);
      }
      assert Run(d, ops, v, p) == Run(d1, ops[1..], v, p);
      StaleForever(d1, key, ops[1..], v, p);
    }
  }

  /** What `RemovePanel` leaves of a live panel in state `s`: on the way to
      the cache a reusable panel deactivates and any other panel is left as
      it is; otherwise the panel takes its own `OnExit`, with its GameObject
      at hand. */
  function Closed(toCache: bool, s: PanelState, base: Base, isPooled: bool, example: Example,
                  name: string, reclaimed: bool): PanelState {
    if toCache then (if base == ReusablePanel then Deactivated(s, example, true) else s)
    else Exited(s, base, isPooled, example, name, true, reclaimed)
  }

  /** `RemovePanel` hides the panel's GameObject: a reusable panel going to
      the cache deactivates, and otherwise `OnExit` may hide it. */
  predicate CloseHides(toCache: bool, s: PanelState, base: Base, isPooled: bool, reclaimed: bool) {
    if toCache then base == ReusablePanel else ExitHides(s, base, isPooled, reclaimed)
  }

  /** A panel closed into the cache is never destroyed and keeps its
      reusable flag, so reopening it finds it intact; a panel closed
      otherwise is destroyed, sent to the pool, or (a reusable panel whose
      class name lacks the marker) deactivated by its own `OnExit`. Its
      GameObject is hidden exactly when its hooks record `Hidden`. */
  lemma ClosedOutcomes(toCache: bool, s: PanelState, base: Base, isPooled: bool, example: Example,
                       name: string, reclaimed: bool)
    ensures var t := Closed(toCache, s, base, isPooled, example, name, reclaimed);
      && (toCache ==> t.destroyed == s.destroyed && t.isReusable == s.isReusable)
      && (!toCache ==>
            || t.destroyed
            || SentToPool in t.trace[|s.trace|..]
            || (base == ReusablePanel && s.isReusable && !t.destroyed == !s.destroyed))
      && |t.trace| >= |s.trace| && t.trace[..|s.trace|] == s.trace
      && (CloseHides(toCache, s, base, isPooled, reclaimed) <==> Hidden in t.trace[|s.trace|..])
  {
    var t := Closed(toCache, s, base, isPooled, example, name, reclaimed);
    var added := t.trace[|s.trace|..];
    if toCache {
      assert added == if base == ReusablePanel then [ChildrenClosed, Hidden, ReusableReset] else [];
    } else if base == ReusablePanel && s.isReusable {
      assert added == [ChildrenClosed, Hidden, ReusableReset];
    } else if base == PoolablePanel && isPooled {
      assert added == [SentToPool] + if reclaimed then [ChildrenClosed, ListenersCleared(name), Hidden, PoolableReset] else [];
    } else {
      assert added == [Destroyed];
    }
  }

  // ---------------------------------------------------------------------
  // The service object

  /** What `AddPanel` ended with: a returned panel (null when the prefab or
      the canvas is missing) or the exception of a duplicate name. */
  datatype AddOutcome = Returned(panel: Panel?) | DuplicateName

  /** `AddPanel(panel)` finds a cached panel to reuse. */
  predicate CacheHit(d: Maps<Visual, Panel>, panel: Panel) {
    panel.ReusableByName() && panel.name in d.cache
  }

  /** The outcome of `AddPanel(panel)` on the dictionaries `d0`, and the
      dictionaries `d1` it leaves: the cached panel back live; null and no
      change without a prefab or a canvas; the exception and no change on a
      name that already has a GameObject; otherwise the panel filed live
      with a new GameObject. */
  predicate AddResult(d0: Maps<Visual, Panel>, d1: Maps<Visual, Panel>, panel: Panel,
                      prefabFound: bool, canvasFound: bool, outcome: AddOutcome) {
    if CacheHit(d0, panel) then outcome == Returned(d0.cache[panel.name]) && d1 == OpenCached(d0, panel.name)
    else if !prefabFound || !canvasFound then outcome == Returned(null) && d1 == d0
    else if panel.name in d0.visuals then outcome == DuplicateName && d1 == d0
    else
      && outcome == Returned(panel) && panel.name in d1.visuals
      && d1 == OpenFresh(d0, panel.name, d1.visuals[panel.name], panel).maps
  }

  /** What `AddPanel(panel)` on the dictionaries `d0` does to the state `s`
      of a panel `x`: a reused reusable panel is activated with its
      GameObject shown, a newly filed panel runs `Init`, and every other
      panel is left as it was. */
  function AddedState(d0: Maps<Visual, Panel>, panel: Panel, prefabFound: bool, canvasFound: bool,
                      x: Panel, s: PanelState): PanelState {
    if CacheHit(d0, panel) then
      if x == d0.cache[panel.name] && x.base == ReusablePanel then Activated(s, x.example, true) else s
    else if prefabFound && canvasFound && panel.name !in d0.visuals && x == panel then
      s.(initCount := s.initCount + 1, trace := s.trace + [Initialised])
    else s
  }

  /** On consistent dictionaries `AddPanel` keeps them consistent; it throws
      exactly when it neither reuses a panel nor misses the prefab or the
      canvas and the name already has a GameObject; and what it returns is
      filed live under the name. */
  lemma AddResultOutcomes(d0: Maps<Visual, Panel>, d1: Maps<Visual, Panel>, panel: Panel,
                          prefabFound: bool, canvasFound: bool, outcome: AddOutcome)
    requires Good(d0) && AddResult(d0, d1, panel, prefabFound, canvasFound, outcome)
    ensures Good(d1)
    ensures outcome == DuplicateName <==>
      !CacheHit(d0, panel) && prefabFound && canvasFound && panel.name in d0.visuals
    ensures outcome.Returned? && outcome.panel != null ==>
      panel.name in d1.live && d1.live[panel.name] == outcome.panel
    ensures outcome == DuplicateName || outcome == Returned(null) ==> d1 == d0
  {
    if !CacheHit(d0, panel) && prefabFound && canvasFound && panel.name !in d0.visuals {
      OperationsKeepGood(d0, panel.name, d1.visuals[panel.name], panel, false);
    } else if CacheHit(d0, panel) {
      OperationsKeepGood(d0, panel.name, d0.visuals[panel.name], panel, false);
    }
  }

  /** Reusing a cached panel and closing it again into the cache restores
      the dictionaries, and an `AddPanel` of the same panel reuses it once
      more. */
  lemma ReuseRoundTrip(d0: Maps<Visual, Panel>, panel: Panel, d1: Maps<Visual, Panel>, outcome: AddOutcome,
                       prefabFound: bool, canvasFound: bool)
    requires Good(d0) && CacheHit(d0, panel) && AddResult(d0, d1, panel, prefabFound, canvasFound, outcome)
    ensures Close(d1, panel.name, true) == d0
    ensures CacheHit(Close(d1, panel.name, true), panel)
  {
    var c := Close(d1, panel.name, true);
    assert panel.name !in d0.live;
    assert c.live == d0.live;
    assert c.cache == d0.cache;
  }

  /** The class `GetPanel<T>` casts to: `BasePanel`, one of the two
      framework base classes, or a concrete panel class named by its type
      name. A concrete class is taken to have no subclasses of its own. */
  datatype PanelType = AnyPanel | ReusableBase | PoolableBase | ExactType(typeName: string)

  /** `panel as T` succeeds. */
  predicate IsA(p: Panel, t: PanelType) {
    match t
    case AnyPanel => true
    case ReusableBase => p.base == ReusablePanel
    case PoolableBase => p.base == PoolablePanel
    case ExactType(n) => p.typeName == n
  }

  /** Where a panel goes when `RemovePanel` closes it: into the cache when
      its class name contains "Reusable" and its `isReusable` reads true. */
  predicate GoesToCache(p: Panel)
    reads p
  {
    p.ReusableByName() && p.ReusableFlag()
  }

  class PanelManagerService {
    var panelDict: map<string, Visual>
    var panelInstanceDict: map<string, Panel>
    var reusablePanelCache: map<string, Panel>

    ghost function Dicts(): Maps<Visual, Panel>
      reads this
    {
      Maps(panelDict, panelInstanceDict, reusablePanelCache)
    }

    /** The dictionaries are consistent, and every live or cached panel is
        filed under its own UI name. */
    ghost predicate Valid()
      reads this
    {
      && Good(Dicts())
      && (forall k :: k in panelInstanceDict ==> panelInstanceDict[k].name == k)
      && (forall k :: k in reusablePanelCache ==> reusablePanelCache[k].name == k)
    }

    constructor()
      ensures Dicts() == Maps(map[], map[], map[]) && Valid()
    {
      panelDict := map[];
      panelInstanceDict := map[];
      reusablePanelCache := map[];
    }

    /** `GetDictPanel` and `GetPanelInstanceGameObject`: the GameObject
        filed under `name`, or null. */
    function GetPanelInstanceGameObject(name: string): (go: Visual?)
      reads this
      ensures go != null <==> name in panelDict
      ensures go != null ==> go == panelDict[name]
    {
      if name in panelDict then panelDict[name] else null
    }

    /** The live panel filed under `name`, or null; a cached panel is not
        found. */
    function GetPanelInstance(name: string): (p: Panel?)
      reads this
      ensures p != null <==> name in panelInstanceDict
      ensures p != null ==> p == panelInstanceDict[name]
    {
      if name in panelInstanceDict then panelInstanceDict[name] else null
    }

    /** `GetPanel<T>`: the live panel, or null when there is none or it is
        not a `T`. */
    function GetPanel(name: string, t: PanelType): (p: Panel?)
      reads this
      ensures p != null <==> name in panelInstanceDict && IsA(panelInstanceDict[name], t)
      ensures p != null ==> p == panelInstanceDict[name]
    {
      if name in panelInstanceDict && IsA(panelInstanceDict[name], t) then panelInstanceDict[name] else null
    }

    /** The number `GetCacheStats` reports. */
    function GetCacheStats(): (n: nat)
      reads this
      ensures n == |reusablePanelCache.Keys|
      ensures n == 0 <==> reusablePanelCache == map[]
    {
      assert reusablePanelCache != map[] ==> exists k :: k in reusablePanelCache.Keys;
      |reusablePanelCache|
    }

    /** What `AddPanel(panel)` may change besides the dictionaries: the
        panel, the panel cached under its name, and the GameObject filed
        under its name only when a cached reusable panel is activated. */
    ghost function AddFrame(panel: Panel): set<object>
      reads this
    {
      {panel}
      + (if panel.name in reusablePanelCache then {reusablePanelCache[panel.name]} else {})
      + (if CacheHit(Dicts(), panel) && reusablePanelCache[panel.name].base == ReusablePanel && panel.name in panelDict
         then {panelDict[panel.name]} else {})
    }

    /** `AddPanel`. A panel whose class name contains "Reusable" and whose
        UI name is cached gets the cached panel back, live again and, when it
        is a reusable panel, activated. Otherwise a missing prefab or canvas
        gives null and changes nothing; a name that already has a
        GameObject throws; and a new panel gets a fresh GameObject, is
        filed live and runs `Init`. */
    method AddPanel(panel: Panel, prefabFound: bool, canvasFound: bool) returns (outcome: AddOutcome)
      requires Valid()
      modifies this, AddFrame(panel)
      ensures Valid()
      ensures AddResult(old(Dicts()), Dicts(), panel, prefabFound, canvasFound, outcome)
      ensures panel.Snapshot() == AddedState(old(Dicts()), panel, prefabFound, canvasFound, panel, old(panel.Snapshot()))
      ensures panel.name in old(reusablePanelCache) ==>
        var cached := old(reusablePanelCache[panel.name]);
        cached.Snapshot() == AddedState(old(Dicts()), panel, prefabFound, canvasFound, cached, old(cached.Snapshot()))
      ensures CacheHit(old(Dicts()), panel) && old(reusablePanelCache[panel.name]).base == ReusablePanel ==>
        panelDict[panel.name].active
      ensures outcome == Returned(panel) && !CacheHit(old(Dicts()), panel) ==>
        fresh(panelDict[panel.name]) && panelDict[panel.name].active
    {
      if panel.ReusableByName() && panel.name in reusablePanelCache {
        var key := panel.name;
        var cached := reusablePanelCache[key];
        reusablePanelCache := reusablePanelCache - {key};
        panelInstanceDict := panelInstanceDict[key := cached];
        if cached.base == ReusablePanel {
          var go := GetPanelInstanceGameObject(cached.name);
          cached.OnActivate(go);
        }
        return Returned(cached);
      }
      if !prefabFound || !canvasFound {
        return Returned(null);
      }
      var go := new Visual(true);
      if panel.name in panelDict {
        return DuplicateName;
      }
      panelDict := panelDict[panel.name := go];
      panelInstanceDict := panelInstanceDict[panel.name := panel];
      panel.Init();
      outcome := Returned(panel);
    }

    /** `AddPanel(panel, parent)`: unless `AddPanel` threw, the panel is made
        a child of `parent` and `parent` is paused, whether or not a panel
        came back. */
    method AddPanelWithParent(panel: Panel, parent: Panel, prefabFound: bool, canvasFound: bool)
      returns (outcome: AddOutcome)
      requires Valid()
      modifies this, AddFrame(panel), parent
      ensures Valid()
      ensures AddResult(old(Dicts()), Dicts(), panel, prefabFound, canvasFound, outcome)
      ensures outcome == DuplicateName ==>
        panel.Snapshot() == old(panel.Snapshot()) && parent.Snapshot() == old(parent.Snapshot())
      ensures outcome != DuplicateName ==>
        var a := AddedState(old(Dicts()), panel, prefabFound, canvasFound, panel, old(panel.Snapshot()));
        var b := AddedState(old(Dicts()), panel, prefabFound, canvasFound, parent, old(parent.Snapshot()));
        && (parent != panel ==> panel.Snapshot() == a.(parent := parent) && parent.Snapshot() == Adopted(b, panel))
        && (parent == panel ==> panel.Snapshot() == Adopted(a.(parent := parent), panel))
      ensures panel.name in old(reusablePanelCache) && old(reusablePanelCache[panel.name]) !in {panel, parent} ==>
        var cached := old(reusablePanelCache[panel.name]);
        cached.Snapshot() == AddedState(old(Dicts()), panel, prefabFound, canvasFound, cached, old(cached.Snapshot()))
      ensures CacheHit(old(Dicts()), panel) && old(reusablePanelCache[panel.name]).base == ReusablePanel ==>
        panelDict[panel.name].active
      ensures outcome == Returned(panel) && !CacheHit(old(Dicts()), panel) ==>
        fresh(panelDict[panel.name]) && panelDict[panel.name].active
    {
      outcome := AddPanel(panel, prefabFound, canvasFound);
      if outcome.DuplicateName? {
        return;
      }
      ghost var d0 := old(Dicts());
      assert parent.Snapshot() == AddedState(d0, panel, prefabFound, canvasFound, parent, old(parent.Snapshot()));
      Attach(panel, parent);
    }

    /** `AsyncAddPanel`: logs a warning, then the synchronous `AddPanel`. */
    method AsyncAddPanel(panel: Panel, prefabFound: bool, canvasFound: bool) returns (outcome: AddOutcome)
      requires Valid()
      modifies this, AddFrame(panel)
      ensures Valid()
      ensures AddResult(old(Dicts()), Dicts(), panel, prefabFound, canvasFound, outcome)
      ensures panel.Snapshot() == AddedState(old(Dicts()), panel, prefabFound, canvasFound, panel, old(panel.Snapshot()))
      ensures panel.name in old(reusablePanelCache) ==>
        var cached := old(reusablePanelCache[panel.name]);
        cached.Snapshot() == AddedState(old(Dicts()), panel, prefabFound, canvasFound, cached, old(cached.Snapshot()))
      ensures CacheHit(old(Dicts()), panel) && old(reusablePanelCache[panel.name]).base == ReusablePanel ==>
        panelDict[panel.name].active
      ensures outcome == Returned(panel) && !CacheHit(old(Dicts()), panel) ==>
        fresh(panelDict[panel.name]) && panelDict[panel.name].active
    {
      outcome := AddPanel(panel, prefabFound, canvasFound);
    }

    /** `AsyncAddPanel(panel, parent)`: `AsyncAddPanel`, then the same wiring
        as `AddPanelWithParent`. */
    method AsyncAddPanelWithParent(panel: Panel, parent: Panel, prefabFound: bool, canvasFound: bool)
      returns (outcome: AddOutcome)
      requires Valid()
      modifies this, AddFrame(panel), parent
      ensures Valid()
      ensures AddResult(old(Dicts()), Dicts(), panel, prefabFound, canvasFound, outcome)
      ensures outcome == DuplicateName ==>
        panel.Snapshot() == old(panel.Snapshot()) && parent.Snapshot() == old(parent.Snapshot())
      ensures outcome != DuplicateName ==>
        var a := AddedState(old(Dicts()), panel, prefabFound, canvasFound, panel, old(panel.Snapshot()));
        var b := AddedState(old(Dicts()), panel, prefabFound, canvasFound, parent, old(parent.Snapshot()));
        && (parent != panel ==> panel.Snapshot() == a.(parent := parent) && parent.Snapshot() == Adopted(b, panel))
        && (parent == panel ==> panel.Snapshot() == Adopted(a.(parent := parent), panel))
      ensures panel.name in old(reusablePanelCache) && old(reusablePanelCache[panel.name]) !in {panel, parent} ==>
        var cached := old(reusablePanelCache[panel.name]);
        cached.Snapshot() == AddedState(old(Dicts()), panel, prefabFound, canvasFound, cached, old(cached.Snapshot()))
      ensures CacheHit(old(Dicts()), panel) && old(reusablePanelCache[panel.name]).base == ReusablePanel ==>
        panelDict[panel.name].active
      ensures outcome == Returned(panel) && !CacheHit(old(Dicts()), panel) ==>
        fresh(panelDict[panel.name]) && panelDict[panel.name].active
    {
      outcome := AsyncAddPanel(panel, prefabFound, canvasFound);
      if outcome.DuplicateName? {
        return;
      }
      ghost var d0 := old(Dicts());
      assert parent.Snapshot() == AddedState(d0, panel, prefabFound, canvasFound, parent, old(parent.Snapshot()));
      Attach(panel, parent);
    }

    /** The wiring both `AddPanel(panel, parent)` overloads do once the panel
        is added: the panel's parent is set, and the parent records the child
        and pauses. */
    method Attach(panel: Panel, parent: Panel)
      modifies panel, parent
      ensures parent != panel ==>
        panel.Snapshot() == old(panel.Snapshot()).(parent := parent)
        && parent.Snapshot() == Adopted(old(parent.Snapshot()), panel)
      ensures parent == panel ==> panel.Snapshot() == Adopted(old(panel.Snapshot()).(parent := parent), panel)
    {
      panel.SetParentPanel(parent);
      parent.AddChildPanel(panel);
      parent.OnPause();
    }

    /** What `RemovePanel(name)` may change besides the dictionaries. */
    ghost function RemoveFrame(name: string): set<object>
      reads this, if name in panelInstanceDict then {panelInstanceDict[name]} else {}
    {
      if name in panelInstanceDict then
        var p := panelInstanceDict[name];
        {p}
        + (if p.parent != null then {p.parent} else {})
        + (if name in panelDict then {panelDict[name]} else {})
      else {}
    }

    /** `RemovePanel`. A name with a GameObject and a live panel: the panel
        is detached from its parent, which resumes when it has no children
        left and no parent of its own; then it goes to the cache
        (deactivated when it is a reusable panel) or takes its own `OnExit`
        and is forgotten with its GameObject. Any other name is ignored. */
    method RemovePanel(name: string, registry: PoolManager<Panel>)
      requires Valid() && registry.Valid()
      modifies this, RemoveFrame(name), PoolFrame(registry)
      ensures Valid() && registry.Valid()
      ensures !(name in old(panelDict) && name in old(panelInstanceDict)) ==>
        && Dicts() == old(Dicts())
        && (PoolableKey in old(registry.pools) ==>
              var pool := old(registry.pools[PoolableKey]);
              pool.State() == old(pool.State()))
      ensures name in old(panelDict) && name in old(panelInstanceDict) ==>
        var p := old(panelInstanceDict[name]);
        var go := old(panelDict[name]);
        var parent := old(p.parent);
        var toCache := old(GoesToCache(p));
        var held := old(HeldInUse(registry, p));
        var mid := if parent == p then Unlinked(old(p.Snapshot()), p) else old(p.Snapshot());
        && Dicts() == Close(old(Dicts()), name, toCache)
        && (parent != null && parent != p ==> parent.Snapshot() == Unlinked(old(parent.Snapshot()), p))
        && p.Snapshot() == Closed(toCache, mid, p.base, p.isPooled, p.example, name, held)
        && go.active == (old(go.active) && !CloseHides(toCache, mid, p.base, p.isPooled, held))
        && (PoolableKey in old(registry.pools) ==>
              var pool := old(registry.pools[PoolableKey]);
              pool.State() == if toCache then old(pool.State()) else PoolAfterExit(pool.PoolSetup(), old(pool.State()), p))
    {
      if name !in panelDict {
        return;
      }
      var p := GetPanelInstance(name);
      if p == null {
        return;
      }
      RemoveLive(name, p, registry);
    }

    /** `RemovePanel` on a name with a GameObject and a live panel `p`. */
    method RemoveLive(name: string, p: Panel, registry: PoolManager<Panel>)
      requires Valid() && registry.Valid()
      requires name in panelDict && name in panelInstanceDict && panelInstanceDict[name] == p
      modifies this, p, (if p.parent != null then {p.parent} else {}), panelDict[name], PoolFrame(registry)
      ensures Valid() && registry.Valid()
      ensures Dicts() == Close(old(Dicts()), name, old(GoesToCache(p)))
      ensures var parent := old(p.parent);
        parent != null && parent != p ==> parent.Snapshot() == Unlinked(old(parent.Snapshot()), p)
      ensures var parent := old(p.parent);
        var mid := if parent == p then Unlinked(old(p.Snapshot()), p) else old(p.Snapshot());
        var held := old(HeldInUse(registry, p));
        && p.Snapshot() == Closed(old(GoesToCache(p)), mid, p.base, p.isPooled, p.example, name, held)
        && old(panelDict[name]).active ==
             (old(panelDict[name].active) && !CloseHides(old(GoesToCache(p)), mid, p.base, p.isPooled, held))
      ensures PoolableKey in old(registry.pools) ==>
        var pool := old(registry.pools[PoolableKey]);
        pool.State() == if old(GoesToCache(p)) then old(pool.State()) else PoolAfterExit(pool.PoolSetup(), old(pool.State()), p)
    {
      ghost var parent := p.parent;
      Detach(p, registry);
      ghost var linked := if parent != null then parent.Snapshot() else p.Snapshot();
      Dispose(name, p, registry);
      assert parent != null && parent != p ==> parent.Snapshot() == linked;
    }

    /** The first step of `RemovePanel`: the panel leaves its parent's child
        list, and the parent resumes when it has no children left and no
        parent of its own. The pools of `registry` are not touched. */
    method Detach(p: Panel, ghost registry: PoolManager<Panel>)
      requires Valid() && registry.Valid()
      modifies if p.parent != null then {p.parent} else {}
      ensures Valid() && Dicts() == old(Dicts())
      ensures registry.Valid() && PoolFrame(registry) == old(PoolFrame(registry))
      ensures old(p.parent) != p ==> p.Snapshot() == old(p.Snapshot())
      ensures GoesToCache(p) == old(GoesToCache(p)) && HeldInUse(registry, p) == old(HeldInUse(registry, p))
      ensures PoolableKey in registry.pools ==>
        registry.pools[PoolableKey].State() == old(registry.pools[PoolableKey].State())
      ensures var parent := old(p.parent);
        parent != null ==> parent.Snapshot() == Unlinked(old(parent.Snapshot()), p)
    {
      var parent := p.parent;
      if parent != null {
        parent.RemoveChildPanel(p);
        if |parent.children| == 0 && parent.parent == null {
          parent.OnResume();
        }
      }
    }

    /** The second step of `RemovePanel`: the live panel under `name` goes to
        the cache or takes its own `OnExit` and is forgotten. */
    method Dispose(name: string, p: Panel, registry: PoolManager<Panel>)
      requires Valid() && registry.Valid()
      requires name in panelDict && name in panelInstanceDict && panelInstanceDict[name] == p
      modifies this, p, panelDict[name], PoolFrame(registry)
      ensures Valid()
      ensures registry.Valid()
      ensures var go := old(panelDict[name]);
        var toCache := old(GoesToCache(p));
        var held := old(HeldInUse(registry, p));
        && Dicts() == Close(old(Dicts()), name, toCache)
        && p.Snapshot() == Closed(toCache, old(p.Snapshot()), p.base, p.isPooled, p.example, name, held)
        && go.active == (old(go.active) && !CloseHides(toCache, old(p.Snapshot()), p.base, p.isPooled, held))
        && (PoolableKey in old(registry.pools) ==>
              var pool := old(registry.pools[PoolableKey]);
              pool.State() == if toCache then old(pool.State()) else PoolAfterExit(pool.PoolSetup(), old(pool.State()), p))
    {
      var go := GetPanelInstanceGameObject(p.name);
      if p.ReusableByName() && p.ReusableFlag() {
        Shelve(name, p, go, registry);
      } else {
        Destroy(name, p, go, registry);
      }
    }

    /** The caching branch of `Dispose`: the panel moves to the cache and,
        when it is a reusable panel, deactivates; the pools are not touched. */
    method Shelve(name: string, p: Panel, go: Visual, ghost registry: PoolManager<Panel>)
      requires Valid() && registry.Valid()
      requires name in panelDict && name in panelInstanceDict && panelInstanceDict[name] == p && go == panelDict[name]
      modifies this, p, go
      ensures Valid() && registry.Valid()
      ensures Dicts() == Close(old(Dicts()), name, true)
      ensures p.Snapshot() == Closed(true, old(p.Snapshot()), p.base, p.isPooled, p.example, name, false)
      ensures go.active == (old(go.active) && !CloseHides(true, old(p.Snapshot()), p.base, p.isPooled, false))
      ensures unchanged(registry)
      ensures PoolableKey in registry.pools ==> unchanged(registry.pools[PoolableKey])
    {
      Cache(name);
      if p.base == ReusablePanel {
        Deactivate(p, go, registry);
      }
    }

    /** The destroying branch of `Dispose`: the panel's own `OnExit`, then
        the panel and its GameObject are forgotten. */
    method Destroy(name: string, p: Panel, go: Visual, registry: PoolManager<Panel>)
      requires Valid() && registry.Valid()
      requires name in panelDict && name in panelInstanceDict && go == panelDict[name]
      modifies this, p, go, PoolFrame(registry)
      ensures Valid() && registry.Valid()
      ensures Dicts() == Close(old(Dicts()), name, false)
      ensures var held := old(HeldInUse(registry, p));
        && p.Snapshot() == Exited(old(p.Snapshot()), p.base, p.isPooled, p.example, p.name, true, held)
        && go.active == (old(go.active) && !ExitHides(old(p.Snapshot()), p.base, p.isPooled, held))
      ensures PoolableKey in registry.pools ==>
        var pool := registry.pools[PoolableKey];
        pool.State() == PoolAfterExit(pool.PoolSetup(), old(pool.State()), p)
    {
      p.OnExit(go, registry);
      Forget(name);
    }

    /** `OnDeactivate` on a panel going to the cache; the pools of
        `registry` are not touched. */
    static method Deactivate(p: Panel, go: Visual?, ghost registry: PoolManager<Panel>)
      requires p.base == ReusablePanel && registry.Valid()
      modifies p, go
      ensures registry.Valid()
      ensures go != null ==> !go.active
      ensures p.Snapshot() == Deactivated(old(p.Snapshot()), p.example, go != null)
    {
      p.OnDeactivate(go);
    }

    /** The cache branch of `RemovePanel`'s dictionary work: the live panel
        moves to the cache and its GameObject stays filed. */
    method Cache(name: string)
      requires Valid() && name in panelDict && name in panelInstanceDict
      modifies this
      ensures Valid() && Dicts() == Close(old(Dicts()), name, true)
    {
      var p := panelInstanceDict[name];
      panelInstanceDict := panelInstanceDict - {name};
      reusablePanelCache := reusablePanelCache[name := p];
    }

    /** The other branch: the panel and its GameObject are both forgotten. */
    method Forget(name: string)
      requires Valid() && name in panelDict && name in panelInstanceDict
      modifies this
      ensures Valid() && Dicts() == Close(old(Dicts()), name, false)
    {
      panelDict := panelDict - {name};
      panelInstanceDict := panelInstanceDict - {name};
    }

    /** What the service does to a cached panel it drops: `ForceDestroy`
        where the class has it, `OnExit` otherwise. `go` is the panel's
        GameObject, which a pooled panel's `OnDespawn` looks up. */
    static method TearDown(p: Panel, go: Visual?, registry: PoolManager<Panel>)
      requires registry.Valid()
      modifies p, go, PoolFrame(registry)
      ensures registry.Valid()
      ensures p.Snapshot() == TornDown(old(p.Snapshot()), p.base, p.isPooled, p.example, p.name, go != null, old(HeldInUse(registry, p)))
      ensures go != null ==> go.active == (old(go.active) && !TearDownHides(p.base, p.isPooled, old(HeldInUse(registry, p))))
      ensures PoolableKey in registry.pools ==>
        var pool := registry.pools[PoolableKey];
        pool.State() == PoolAfterExit(pool.PoolSetup(), old(pool.State()), p)
    {
      if p.base == ReusablePanel {
        p.ForceDestroy();
      } else {
        p.OnExit(go, registry);
      }
    }

    /** `ForceDestroyCachedPanel`: a cached panel is torn down and dropped
        from the cache; its GameObject entry stays. Any other name is
        ignored. */
    method ForceDestroyCachedPanel(name: string, registry: PoolManager<Panel>)
      requires Valid() && registry.Valid()
      modifies this, (if name in reusablePanelCache then {reusablePanelCache[name]} else {}),
        (if name in reusablePanelCache && name in panelDict then {panelDict[name]} else {}), PoolFrame(registry)
      ensures Valid() && registry.Valid()
      ensures Dicts() == Evict(old(Dicts()), name)
      ensures name in old(reusablePanelCache) ==>
        var p := old(reusablePanelCache[name]);
        var go := old(panelDict[name]);
        var held := old(HeldInUse(registry, p));
        && p.Snapshot() == TornDown(old(p.Snapshot()), p.base, p.isPooled, p.example, name, true, held)
        && go.active == (old(go.active) && !TearDownHides(p.base, p.isPooled, held))
      ensures PoolableKey in registry.pools ==>
        var pool := registry.pools[PoolableKey];
        pool.State() == if name in old(reusablePanelCache)
          then PoolAfterExit(pool.PoolSetup(), old(pool.State()), old(reusablePanelCache[name]))
          else old(pool.State())
    {
      if name in reusablePanelCache {
        var p := reusablePanelCache[name];
        TearDown(p, GetPanelInstanceGameObject(name), registry);
        reusablePanelCache := reusablePanelCache - {name};
      }
    }

    static ghost predicate TornDownFrom(p: Panel, s: PanelState, reclaimed: bool)
      reads p
    {
      p.Snapshot() == TornDown(s, p.base, p.isPooled, p.example, p.name, true, reclaimed)
    }

    /** Tearing down the panels of `order`, in turn, hides the GameObject
        `v`: one of them is filed in `visuals` under `v` and its teardown
        hides it, the pool holding `held` in use. */
    static ghost predicate HiddenBy(order: seq<Panel>, v: Visual, visuals: map<string, Visual>, held: set<Panel>)
      decreases |order|
    {
      && order != []
      && var p := order[|order| - 1];
         || HiddenBy(order[..|order| - 1], v, visuals, held)
         || (p.name in visuals && visuals[p.name] == v && TearDownHides(p.base, p.isPooled, p in held))
    }

    /** `HiddenBy` does not depend on the order: `v` is hidden exactly when
        some panel of `order` filed under it has a hiding teardown. */
    static lemma {:induction false} HiddenByAny(order: seq<Panel>, v: Visual, visuals: map<string, Visual>, held: set<Panel>)
      ensures HiddenBy(order, v, visuals, held) <==>
        exists i :: 0 <= i < |order| && order[i].name in visuals && visuals[order[i].name] == v
          && TearDownHides(order[i].base, order[i].isPooled, order[i] in held)
      decreases |order|
    {
      if order != [] {
        var init := order[..|order| - 1];
        HiddenByAny(init, v, visuals, held);
        forall i | 0 <= i < |init| ensures init[i] == order[i] { }
      }
    }

    /** When every name has a GameObject of its own, as `AddPanel` gives
        each new panel, the teardowns `order` hide the GameObject filed under
        `k` exactly when a panel named `k` among them has a hiding teardown:
        the GameObjects of other names stay as they were. */
    static lemma HiddenOnlyOwn(order: seq<Panel>, visuals: map<string, Visual>, held: set<Panel>, k: string)
      requires k in visuals
      requires forall k1, k2 :: k1 in visuals && k2 in visuals && k1 != k2 ==> visuals[k1] != visuals[k2]
      ensures HiddenBy(order, visuals[k], visuals, held) <==>
        exists i :: 0 <= i < |order| && order[i].name == k
          && TearDownHides(order[i].base, order[i].isPooled, order[i] in held)
    {
      HiddenByAny(order, visuals[k], visuals, held);
    }

    /** Every panel of `ps` is torn down from its state in the old heap, and
        each GameObject of `visuals` is active exactly when it was active
        before and the teardowns `order` did not hide it. */
    static twostate predicate AllTornDown(ps: set<Panel>, new order: seq<Panel>, visuals: map<string, Visual>,
                                          registry: PoolManager<Panel>)
      reads ps, visuals.Values
    {
      && (forall p :: p in ps ==> TornDownFrom(p, old(p.Snapshot()), old(HeldInUse(registry, p))))
      && (forall k :: k in visuals ==>
            visuals[k].active == (old(visuals[k].active) && !HiddenBy(order, visuals[k], visuals, old(HeldSet(registry)))))
    }

    /** The loop of `ClearReusablePanelCache`: tears down each panel of `ps`,
        whose GameObjects `visuals` files under their names, in the order
        `order`. */
    static method TearDownEach(ps: set<Panel>, visuals: map<string, Visual>, registry: PoolManager<Panel>)
      returns (ghost order: seq<Panel>)
      requires registry.Valid()
      requires forall p :: p in ps ==> p.name in visuals
      modifies ps, visuals.Values, PoolFrame(registry)
      ensures registry.Valid()
      ensures Distinct(order) && forall p :: p in order <==> p in ps
      ensures AllTornDown(ps, order, visuals, registry)
      ensures PoolableKey in registry.pools ==>
        var pool := registry.pools[PoolableKey];
        pool.State() == PoolAfterExits(pool.PoolSetup(), old(pool.State()), order)
    {
      ghost var pool0 := if PoolableKey in registry.pools then registry.pools[PoolableKey].State()
        else PoolState([], {}, 0, 0, []);
      ghost var held0 := if PoolableKey in registry.pools then pool0.inUse else {};
      ghost var s0 := map p | p in ps :: p.Snapshot();
      ghost var a0 := map k | k in visuals :: visuals[k].active;
      order := TearDownLoop(ps, visuals, registry, pool0, s0, a0, held0);
      assert held0 == old(HeldSet(registry));
      assert PoolableKey in registry.pools ==> pool0 == old(registry.pools[PoolableKey].State());
    }

    /** The loop of `TearDownEach`, from the panel states `s0`, the
        GameObject flags `a0` and the pool state `pool0`, whose in-use
        panels are `held`. */
    static method TearDownLoop(ps: set<Panel>, visuals: map<string, Visual>, registry: PoolManager<Panel>,
                               ghost pool0: PoolState<Panel>, ghost s0: map<Panel, PanelState>,
                               ghost a0: map<string, bool>, ghost held: set<Panel>)
      returns (ghost order: seq<Panel>)
      requires registry.Valid()
      requires forall p :: p in ps ==> p.name in visuals
      requires held == if PoolableKey in registry.pools then pool0.inUse else {}
      requires Progress(ps, ps, [], visuals, s0, a0, held)
      requires PoolableKey in registry.pools ==> registry.pools[PoolableKey].State() == pool0
      modifies ps, visuals.Values, PoolFrame(registry)
      ensures registry.Valid()
      ensures Progress(ps, {}, order, visuals, s0, a0, held)
      ensures PoolableKey in registry.pools ==>
        var pool := registry.pools[PoolableKey];
        pool.State() == PoolAfterExits(pool.PoolSetup(), pool0, order)
    {
      order := [];
      var remaining := ps;
      ghost var pf := PoolFrame(registry);
      while remaining != {}
        invariant pf == PoolFrame(registry)
        invariant registry.Valid()
        invariant Progress(ps, remaining, order, visuals, s0, a0, held)
        invariant PoolableKey in registry.pools ==>
          var pool := registry.pools[PoolableKey];
          pool.State() == PoolAfterExits(pool.PoolSetup(), pool0, order)
        decreases remaining
      {
        var p :| p in remaining;
        TearDownStep(p, ps, remaining, order, visuals, registry, pool0, s0, a0, held);
        order := order + [p];
        remaining := remaining - {p};
      }
    }

    /** Where `TearDownEach` stands: the panels of `ps` not in `remaining`
        were torn down, each once, in the order `order`; the panels of
        `remaining` still hold their states `s0`, and every other one is torn
        down from its state in `s0`, reclaimed by the pool when it is in
        `held`; each GameObject of `visuals` is active exactly when it was
        in `a0` and no teardown so far hid it. */
    static ghost predicate Progress(ps: set<Panel>, remaining: set<Panel>, order: seq<Panel>,
                                    visuals: map<string, Visual>, s0: map<Panel, PanelState>,
                                    a0: map<string, bool>, held: set<Panel>)
      reads ps, visuals.Values
    {
      && remaining <= ps
      && Distinct(order)
      && (forall p :: p in order ==> p in ps && p !in remaining)
      && (forall p :: p in ps && p !in remaining ==> p in order)
      && (forall p :: p in ps ==>
        && p in s0
        && if p in remaining then p.Snapshot() == s0[p] else TornDownFrom(p, s0[p], p in held))
      && forall k :: k in visuals ==>
        k in a0 && visuals[k].active == (a0[k] && !HiddenBy(order, visuals[k], visuals, held))
    }

    /** One turn of the loop of `TearDownEach`: the panel `p` is torn down,
        after the panels `order`, from the pool state `pool0`. */
    static method TearDownStep(p: Panel, ps: set<Panel>, remaining: set<Panel>, ghost order: seq<Panel>,
                               visuals: map<string, Visual>, registry: PoolManager<Panel>, ghost pool0: PoolState<Panel>,
                               ghost s0: map<Panel, PanelState>, ghost a0: map<string, bool>, ghost held: set<Panel>)
      requires registry.Valid() && p in remaining
      requires forall q :: q in ps ==> q.name in visuals
      requires held == if PoolableKey in registry.pools then pool0.inUse else {}
      requires Progress(ps, remaining, order, visuals, s0, a0, held)
      requires PoolableKey in registry.pools ==>
        var pool := registry.pools[PoolableKey];
        pool.State() == PoolAfterExits(pool.PoolSetup(), pool0, order)
      modifies p, visuals[p.name], PoolFrame(registry)
      ensures registry.Valid() && unchanged(registry)
      ensures Progress(ps, remaining - {p}, order + [p], visuals, s0, a0, held)
      ensures PoolableKey in registry.pools ==>
        var pool := registry.pools[PoolableKey];
        pool.State() == PoolAfterExits(pool.PoolSetup(), pool0, order + [p])
    {
      if PoolableKey in registry.pools {
        ExitsKeepOthersInUse(registry.pools[PoolableKey].PoolSetup(), pool0, order, p);
      }
      assert HeldInUse(registry, p) == (p in held);
      TearDownNamed(p, visuals, registry, order, pool0, ps);
      assert (order + [p])[..|order|] == order;
      forall k | k in visuals
        ensures visuals[k].active == (a0[k] && !HiddenBy(order + [p], visuals[k], visuals, held))
      {
      }
    }

    /** `TearDown` with the GameObject filed under the panel's name: only
        that GameObject changes, exactly as `TearDown` says, and no panel of
        `others` but `p` changes. `order` are the panels torn down before
        `p`, from the pool state `pool0`. */
    static method TearDownNamed(p: Panel, visuals: map<string, Visual>, registry: PoolManager<Panel>,
                                ghost order: seq<Panel>, ghost pool0: PoolState<Panel>, ghost others: set<Panel>)
      requires registry.Valid() && p.name in visuals
      requires PoolableKey in registry.pools ==>
        var pool := registry.pools[PoolableKey];
        pool.State() == PoolAfterExits(pool.PoolSetup(), pool0, order)
      modifies p, visuals[p.name], PoolFrame(registry)
      ensures registry.Valid()
      ensures p.Snapshot() == TornDown(old(p.Snapshot()), p.base, p.isPooled, p.example, p.name, true, old(HeldInUse(registry, p)))
      ensures visuals[p.name].active == (old(visuals[p.name].active) && !TearDownHides(p.base, p.isPooled, old(HeldInUse(registry, p))))
      ensures forall r :: r in others && r != p ==> unchanged(r)
      ensures PoolableKey in registry.pools ==>
        var pool := registry.pools[PoolableKey];
        pool.State() == PoolAfterExits(pool.PoolSetup(), pool0, order + [p])
    {
      TearDown(p, visuals[p.name], registry);
      assert (order + [p])[..|order|] == order;
    }

    /** `ClearReusablePanelCache`: every cached panel is torn down, in the
        dictionary's enumeration order `order`, and the cache emptied; their
        GameObject entries stay. */
    method ClearReusablePanelCache(registry: PoolManager<Panel>) returns (ghost order: seq<Panel>)
      requires Valid() && registry.Valid()
      modifies this, reusablePanelCache.Values, panelDict.Values, PoolFrame(registry)
      ensures Valid() && registry.Valid()
      ensures Dicts() == EvictAll(old(Dicts()))
      ensures Distinct(order) && forall p :: p in order <==> p in old(reusablePanelCache.Values)
      ensures AllTornDown(old(reusablePanelCache.Values), order, panelDict, registry)
      ensures PoolableKey in registry.pools ==>
        var pool := registry.pools[PoolableKey];
        pool.State() == PoolAfterExits(pool.PoolSetup(), old(pool.State()), order)
    {
      order := TearDownEach(reusablePanelCache.Values, panelDict, registry);
      EmptyCache();
    }

    /** The dictionary work of `ClearReusablePanelCache`: the cache is
        emptied and the other two dictionaries stay. */
    method EmptyCache()
      requires Valid()
      modifies this
      ensures Valid() && Dicts() == EvictAll(old(Dicts()))
    {
      reusablePanelCache := map[];
    }
  }
}
