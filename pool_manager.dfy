/** The pool registry `PoolManager`: one `UIObjectPool` per pooled type, and
    a second map from UI type names to those types.

    A runtime `Type` key is modelled by its name, a string. The registry keeps
    its pools in a map of pool objects over one element type `E`; the casts
    and reflective calls the framework uses to reach a pool of the right
    generic instantiation always succeed in this model. */
module PoolRegistry {
  import opened Common
  import opened PoolConfigs
  import opened ObjectPool

  /** What `InitializePool` and `InitializePoolByUIType` ended with. */
  datatype InitOutcome =
    | Skipped          // a pool for the key already existed; nothing changed
    | Created          // the pool was added and the name mapped to its key
    | NameMissing      // the pool was added, then the null config name threw

  /** The factory a pool gets after one call was spent on a probe: its
      k-th call is the original factory's call number k + 1. */
  function Shifted<E>(factory: nat -> E): (wrapped: nat -> E)
    ensures forall i: nat :: wrapped(i) == factory(i + 1)
  {
    (i: nat) => factory(i + 1)
  }

  lemma ShiftedInjective<E>(factory: nat -> E)
    requires Injective(factory)
    ensures Injective(Shifted(factory))
  {
  }

  class PoolManager<E(==)> {
    var pools: map<string, UIObjectPool<E>>
    var uiTypeNameToType: map<string, string>
    var panelManager: object?
    var uiTool: object?
    var initialized: bool
    /** Objects `InitializePoolByUIType` made only to learn their type. */
    ghost var probes: seq<E>

    /** Every pool is valid, and no pool object is registered twice, so
        changing one pool leaves the others as they were. */
    ghost predicate Valid()
      reads this, pools.Values
    {
      && (forall k :: k in pools ==> pools[k].Valid())
      && (forall k1, k2 :: k1 in pools && k2 in pools && k1 != k2 ==> pools[k1] != pools[k2])
    }

    /** Every UI type name leads to a registered pool. */
    ghost predicate NamesResolve()
      reads this
    {
      forall n :: n in uiTypeNameToType ==> uiTypeNameToType[n] in pools
    }

    constructor()
      ensures pools == map[] && uiTypeNameToType == map[] && !initialized
      ensures panelManager == null && uiTool == null && probes == []
      ensures Valid() && NamesResolve()
    {
      pools := map[];
      uiTypeNameToType := map[];
      panelManager := null;
      uiTool := null;
      initialized := false;
      probes := [];
    }

    /** Stores the two collaborators on the first call; later calls change
        nothing until `ClearAllPools` resets the flag. */
    method Initialize(panelManager: object?, uiTool: object?)
      modifies this
      ensures initialized
      ensures old(initialized) ==> this.panelManager == old(this.panelManager) && this.uiTool == old(this.uiTool)
      ensures !old(initialized) ==> this.panelManager == panelManager && this.uiTool == uiTool
      ensures pools == old(pools) && uiTypeNameToType == old(uiTypeNameToType) && probes == old(probes)
    {
      if initialized {
        return;
      }
      this.panelManager := panelManager;
      this.uiTool := uiTool;
      initialized := true;
    }

    /** Registers a new pool under a key that has none. */
    method AddPool(key: string, pool: UIObjectPool<E>)
      requires Valid() && pool.Valid() && key !in pools
      requires forall k :: k in pools ==> pools[k] != pool
      modifies this
      ensures pools == old(pools)[key := pool] && Valid()
      ensures uiTypeNameToType == old(uiTypeNameToType) && initialized == old(initialized) && probes == old(probes)
      ensures old(NamesResolve()) ==> NamesResolve()
    {
      pools := pools[key := pool];
    }

    /** `InitializePool<T>`: `key` stands for `typeof(T)`. A key that already
        has a pool is skipped, and the first pool stays. Otherwise a pool is
        built from `config` and `factory` and registered under `key`, and
        `config`'s UI type name is mapped to `key`; a config without a name
        makes that last step throw, after the pool was registered. */
    method InitializePool(key: string, config: PoolConfig, factory: nat -> E) returns (outcome: InitOutcome)
      requires Valid() && Injective(factory)
      modifies this
      ensures Valid()
      ensures old(NamesResolve()) ==> NamesResolve()
      ensures initialized == old(initialized) && probes == old(probes)
      ensures key in old(pools) ==> outcome == Skipped && pools == old(pools) && uiTypeNameToType == old(uiTypeNameToType)
      ensures key !in old(pools) ==>
        && key in pools && fresh(pools[key]) && pools == old(pools)[key := pools[key]]
        && pools[key].PoolSetup() == Setup(factory, LimitsOf(config), false, false)
        && pools[key].State() == Preloaded(pools[key].PoolSetup())
        && (config.uiTypeName.Some? ==> outcome == Created && uiTypeNameToType == old(uiTypeNameToType)[config.uiTypeName.value := key])
        && (config.uiTypeName.None? ==> outcome == NameMissing && uiTypeNameToType == old(uiTypeNameToType))
    {
      if key in pools {
        return Skipped;
      }
      var pool := new UIObjectPool(factory, config, false, false);
      AddPool(key, pool);
      if config.uiTypeName.None? {
        return NameMissing;
      }
      uiTypeNameToType := uiTypeNameToType[config.uiTypeName.value := key];
      outcome := Created;
    }

    /** `InitializePoolByUIType`: the factory is called once, before the
        duplicate check, to learn the key (`typeOf` stands for `GetType`);
        that object is discarded. A new pool keeps calling the same factory,
        and the `uiTypeName` argument, not the config's name, is mapped. */
    method InitializePoolByUIType(uiTypeName: string, config: PoolConfig, factory: nat -> E, typeOf: E -> string)
      returns (outcome: InitOutcome)
      requires Valid() && Injective(factory)
      modifies this
      ensures Valid()
      ensures old(NamesResolve()) ==> NamesResolve()
      ensures initialized == old(initialized) && probes == old(probes) + [factory(0)]
      ensures var key := typeOf(factory(0));
        && (key in old(pools) ==> outcome == Skipped && pools == old(pools) && uiTypeNameToType == old(uiTypeNameToType))
        && (key !in old(pools) ==>
             && outcome == Created
             && key in pools && fresh(pools[key]) && pools == old(pools)[key := pools[key]]
             && pools[key].PoolSetup() == Setup(Shifted(factory), LimitsOf(config), false, false)
             && pools[key].State() == Preloaded(pools[key].PoolSetup())
             && uiTypeNameToType == old(uiTypeNameToType)[uiTypeName := key])
    {
      var probe := factory(0);
      probes := probes + [probe];
      var key := typeOf(probe);
      if key in pools {
        return Skipped;
      }
      ShiftedInjective(factory);
      var pool := new UIObjectPool(Shifted(factory), config, false, false);
      AddPool(key, pool);
      uiTypeNameToType := uiTypeNameToType[uiTypeName := key];
      outcome := Created;
    }

    /** The key a UI type name is mapped to, if any. */
    function KeyOf(uiTypeName: string): (key: Option<string>)
      reads this
      ensures key.Some? <==> uiTypeName in uiTypeNameToType
      ensures key.Some? ==> key.value == uiTypeNameToType[uiTypeName]
    {
      if uiTypeName in uiTypeNameToType then Some(uiTypeNameToType[uiTypeName]) else None
    }

    /** `Spawn<T>`: null for a key without a pool, otherwise the pool's
        `Spawn`. Only that pool changes. */
    method Spawn(key: string) returns (obj: Option<E>)
      requires Valid()
      modifies if key in pools then {pools[key]} else {}
      ensures Valid()
      ensures key !in pools ==> obj == None
      ensures key in pools ==>
        var r := AfterSpawn(pools[key].PoolSetup(), old(pools[key].State()));
        obj == Some(r.1) && pools[key].State() == r.0
    {
      if key !in pools {
        return None;
      }
      var pool := pools[key];
      var x := pool.Spawn();
      obj := Some(x);
    }

    /** `SpawnByUIType`: null for an unknown name or a name whose key has no
        pool; otherwise exactly `Spawn` on the mapped key. */
    method SpawnByUIType(uiTypeName: string) returns (obj: Option<E>)
      requires Valid()
      modifies if uiTypeName in uiTypeNameToType && uiTypeNameToType[uiTypeName] in pools
        then {pools[uiTypeNameToType[uiTypeName]]} else {}
      ensures Valid()
      ensures KeyOf(uiTypeName).None? ==> obj == None
      ensures KeyOf(uiTypeName).Some? ==>
        var key := KeyOf(uiTypeName).value;
        && (key !in pools ==> obj == None)
        && (key in pools ==>
              var r := AfterSpawn(pools[key].PoolSetup(), old(pools[key].State()));
              obj == Some(r.1) && pools[key].State() == r.0)
    {
      if uiTypeName !in uiTypeNameToType {
        return None;
      }
      var key := uiTypeNameToType[uiTypeName];
      obj := Spawn(key);
    }

    /** `Despawn<T>`: a no-op for a key without a pool, otherwise the pool's
        `Despawn`. */
    method Despawn(key: string, obj: Option<E>)
      requires Valid()
      modifies if key in pools then {pools[key]} else {}
      ensures Valid()
      ensures key in pools ==>
        pools[key].State() == AfterDespawn(pools[key].PoolSetup(), old(pools[key].State()), obj)
    {
      if key !in pools {
        return;
      }
      var pool := pools[key];
      pool.Despawn(obj);
    }

    /** `DespawnByUIType`: a no-op for an unknown name or a name whose key
        has no pool; otherwise exactly `Despawn` on the mapped key. */
    method DespawnByUIType(uiTypeName: string, obj: Option<E>)
      requires Valid()
      modifies if uiTypeName in uiTypeNameToType && uiTypeNameToType[uiTypeName] in pools
        then {pools[uiTypeNameToType[uiTypeName]]} else {}
      ensures Valid()
      ensures KeyOf(uiTypeName).Some? && KeyOf(uiTypeName).value in pools ==>
        var key := KeyOf(uiTypeName).value;
        pools[key].State() == AfterDespawn(pools[key].PoolSetup(), old(pools[key].State()), obj)
    {
      if uiTypeName !in uiTypeNameToType {
        return;
      }
      var key := uiTypeNameToType[uiTypeName];
      Despawn(key, obj);
    }

    /** `GetPoolStats<T>`: the numbers of the pool under `key`, or nothing
        when there is none. */
    method GetPoolStats(key: string) returns (stats: Option<PoolStats>)
      requires Valid()
      ensures key !in pools ==> stats == None
      ensures key in pools ==>
        && stats.Some?
        && stats.value.availableCount == |pools[key].availableObjects|
        && stats.value.inUseCount == |pools[key].inUseObjects|
        && stats.value.totalCreated == pools[key].totalCreated
        && stats.value.maxCount == pools[key].maxCount
    {
      if key !in pools {
        return None;
      }
      var pool := pools[key];
      var s := pool.GetStats();
      stats := Some(s);
    }

    /** The loop of `ClearAllPools`: `Clear` on each pool of `ps`. */
    static method ClearEach(ps: set<UIObjectPool<E>>)
      requires forall p :: p in ps ==> Injective(p.objectFactory)
      modifies ps
      ensures forall p :: p in ps ==> p.State() == AfterClear(old(p.State())) && p.Valid()
    {
      var remaining := ps;
      while remaining != {}
        invariant remaining <= ps
        invariant forall p :: p in ps && p !in remaining ==> p.State() == AfterClear(old(p.State())) && p.Valid()
        invariant forall p :: p in remaining ==> p.State() == old(p.State())
        decreases remaining
      {
        var pool :| pool in remaining;
        pool.Clear();
        remaining := remaining - {pool};
      }
    }

    /** `ClearAllPools`: clears every registered pool, then forgets all pools
        and names and resets `initialized`. The collaborators are kept. */
    method ClearAllPools()
      requires Valid()
      modifies this, pools.Values
      ensures pools == map[] && uiTypeNameToType == map[] && !initialized
      ensures panelManager == old(panelManager) && uiTool == old(uiTool) && probes == old(probes)
      ensures forall k :: k in old(pools) ==>
        old(pools)[k].State() == AfterClear(old(pools[k].State())) && old(pools)[k].Valid()
      ensures Valid() && NamesResolve()
    {
      ClearEach(pools.Values);
      pools := map[];
      uiTypeNameToType := map[];
      initialized := false;
    }
  }
}
