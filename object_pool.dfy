/** The generic recycling pool `UIObjectPool<T>`: a FIFO queue of available
    objects, a set of objects in use, and a creation counter bounded by
    `maxCount`, grown `expandStep` objects at a time.

    The factory is an oracle `nat -> T`: its k-th call yields `factory(k)`.
    It is required to be injective, i.e. to make a new object on every call,
    which is what a factory such as `() => new Panel(...)` does. The hooks the
    pool invokes on its objects (`OnSpawn`, `OnDespawn` and the two optional
    callbacks) are recorded, in call order, in an effects log; what a hook
    does to its object is modelled by the entity classes themselves.

    The pure functions `Preloaded`, `AfterSpawn`, `AfterDespawn` and
    `AfterClear` specify the pool on values; the class `UIObjectPool` is
    proved against them, and the lemmas below state what they guarantee. */
module ObjectPool {
  import opened Common
  import opened PoolConfigs

  /** A call the pool makes on one of its objects. */
  datatype Effect<T> =
    | OnSpawn(obj: T)          // IPoolable.OnSpawn
    | OnDespawn(obj: T)        // IPoolable.OnDespawn
    | SpawnCallback(obj: T)    // the optional onSpawn delegate
    | DespawnCallback(obj: T)  // the optional onDespawn delegate

  /** `e` is one of the two IPoolable hooks, invoked on `x`. */
  predicate IsHookOn<T(==)>(e: Effect<T>, x: T) {
    (e.OnSpawn? || e.OnDespawn?) && e.obj == x
  }

  /** The last IPoolable hook in `effects` that was invoked on `x`. */
  function LastHook<T(==)>(effects: seq<Effect<T>>, x: T): (r: Option<Effect<T>>)
    ensures r.Some? ==> IsHookOn(r.value, x) && r.value in effects
    ensures r.None? ==> forall k :: 0 <= k < |effects| ==> !IsHookOn(effects[k], x)
    decreases |effects|
  {
    if effects == [] then None
    else if IsHookOn(effects[|effects| - 1], x) then Some(effects[|effects| - 1])
    else LastHook(effects[..|effects| - 1], x)
  }

  /** The three sizing numbers copied from the `PoolConfig`. */
  datatype Limits = Limits(preloadCount: int, maxCount: int, expandStep: int)

  /** What a pool is built from: the factory, its limits, and whether the
      optional spawn and despawn delegates were supplied. */
  datatype Setup<T> = Setup(factory: nat -> T, limits: Limits, spawnCallback: bool, despawnCallback: bool)

  /** The mutable part of a pool. `factoryCalls` counts the objects the
      factory has made for the pool; `totalCreated` is the pool's own count. */
  datatype PoolState<T> = PoolState(
    available: seq<T>,
    inUse: set<T>,
    totalCreated: int,
    factoryCalls: nat,
    effects: seq<Effect<T>>)

  /** `PoolStats`: the numbers `GetStats` reports. */
  datatype PoolStats = PoolStats(availableCount: nat, inUseCount: nat, totalCreated: int, maxCount: int)

  function LimitsOf(config: PoolConfig): Limits {
    Limits(config.preloadCount, config.maxCount, config.expandStep)
  }

  /** The factory makes a distinct object on every call. */
  ghost predicate Injective<T>(f: nat -> T) {
    forall i: nat, j: nat :: i != j ==> f(i) != f(j)
  }

  /** The objects made by the first `n` factory calls. */
  ghost function Made<T>(f: nat -> T, n: nat): set<T> {
    set i: nat | i < n :: f(i)
  }

  /** The objects made by `n` factory calls starting with call number `from`. */
  function Minted<T>(f: nat -> T, from: nat, n: nat): (objs: seq<T>)
    ensures |objs| == n && forall i :: 0 <= i < n ==> objs[i] == f(from + i)
  {
    seq(n, i requires 0 <= i < n => f(from + i))
  }

  /** `OnDespawn` invoked on each of `objs`, in order. */
  function Despawned<T>(objs: seq<T>): (hooks: seq<Effect<T>>)
    ensures |hooks| == |objs| && forall i :: 0 <= i < |objs| ==> hooks[i] == OnDespawn(objs[i])
  {
    seq(|objs|, i requires 0 <= i < |objs| => OnDespawn(objs[i]))
  }

  /** The largest value `totalCreated` can reach: preloading may exceed
      `maxCount`, growth never does. */
  function Capacity(limits: Limits): int {
    Max(0, Max(limits.maxCount, limits.preloadCount))
  }

  /** How many objects one growth step creates when the queue is empty. */
  function GrowthCount(limits: Limits, totalCreated: int): nat {
    if limits.expandStep <= 0 || totalCreated >= limits.maxCount then 0
    else Min(limits.expandStep, limits.maxCount - totalCreated)
  }

  /** The queue is empty and growth creates nothing, so `Spawn` hands out an
      object the pool does not count. */
  predicate Overflows<T>(setup: Setup<T>, s: PoolState<T>) {
    |s.available| == 0 && GrowthCount(setup.limits, s.totalCreated) == 0
  }

  // ---------------------------------------------------------------------
  // Reference definitions of the operations

  /** The state the constructor leaves: `preloadCount` objects made and
      despawned, queued in creation order. */
  function Preloaded<T>(setup: Setup<T>): PoolState<T> {
    var n: nat := if setup.limits.preloadCount < 0 then 0 else setup.limits.preloadCount;
    var objs := Minted(setup.factory, 0, n);
    PoolState(objs, {}, n, n, Despawned(objs))
  }

  /** Recording `obj` as in use and invoking its spawn hook and callback. */
  function Checkout<T(==)>(setup: Setup<T>, s: PoolState<T>, obj: T): (PoolState<T>, T) {
    var callback := if setup.spawnCallback then [SpawnCallback(obj)] else [];
    (s.(inUse := s.inUse + {obj}, effects := s.effects + [OnSpawn(obj)] + callback), obj)
  }

  /** `Spawn`: the head of the queue; else, below `maxCount`, a growth step
      of `GrowthCount` objects followed by taking the first of them; else a
      fresh object that `totalCreated` does not count. */
  function AfterSpawn<T(==)>(setup: Setup<T>, s: PoolState<T>): (PoolState<T>, T) {
    if |s.available| > 0 then
      Checkout(setup, s.(available := s.available[1..]), s.available[0])
    else if GrowthCount(setup.limits, s.totalCreated) > 0 then
      var n := GrowthCount(setup.limits, s.totalCreated);
      var objs := Minted(setup.factory, s.factoryCalls, n);
      var grown := PoolState(objs[1..], s.inUse, s.totalCreated + n, s.factoryCalls + n, s.effects + Despawned(objs));
      Checkout(setup, grown, objs[0])
    else
      Checkout(setup, s.(factoryCalls := s.factoryCalls + 1), setup.factory(s.factoryCalls))
  }

  /** `Despawn`: ignored for null and for objects not in use; otherwise the
      object leaves the in-use set, gets its despawn hook and callback, and
      joins the back of the queue. */
  function AfterDespawn<T(==)>(setup: Setup<T>, s: PoolState<T>, obj: Option<T>): PoolState<T> {
    if obj.None? || obj.value !in s.inUse then s
    else
      var x := obj.value;
      var callback := if setup.despawnCallback then [DespawnCallback(x)] else [];
      s.(available := s.available + [x], inUse := s.inUse - {x},
         effects := s.effects + [OnDespawn(x)] + callback)
  }

  /** `Clear`: forgets every object and resets the count; no hook is called. */
  function AfterClear<T>(s: PoolState<T>): PoolState<T> {
    s.(available := [], inUse := {}, totalCreated := 0)
  }

  // ---------------------------------------------------------------------
  // Invariants

  /** What every operation preserves: no object queued twice, none both
      queued and in use, everything tracked was made by the factory, and the
      creation count within `Capacity`. */
  ghost predicate Inv<T>(setup: Setup<T>, s: PoolState<T>) {
    && Injective(setup.factory)
    && Distinct(s.available)
    && (forall x :: x in s.available ==> x !in s.inUse)
    && (forall x :: x in s.available ==> x in Made(setup.factory, s.factoryCalls))
    && s.inUse <= Made(setup.factory, s.factoryCalls)
    && 0 <= s.totalCreated <= s.factoryCalls
    && s.totalCreated <= Capacity(setup.limits)
  }

  /** Every queued object last received `OnDespawn`, every object in use
      last received `OnSpawn`. */
  ghost predicate HooksAgree<T>(s: PoolState<T>) {
    && (forall x :: x in s.available ==> LastHook(s.effects, x) == Some(OnDespawn(x)))
    && (forall x :: x in s.inUse ==> LastHook(s.effects, x) == Some(OnSpawn(x)))
  }

  /** Every object the factory made is either queued or in use (true from
      construction until the pool is cleared). */
  ghost predicate Owned<T>(setup: Setup<T>, s: PoolState<T>) {
    (set x | x in s.available) + s.inUse == Made(setup.factory, s.factoryCalls)
  }

  /** Queued plus in use equals the pool's own creation count. */
  predicate Conserved<T>(s: PoolState<T>) {
    |s.available| + |s.inUse| == s.totalCreated
  }

  // ---------------------------------------------------------------------
  // Facts about the factory

  lemma MadeExcludesLater<T>(f: nat -> T, n: nat, k: nat)
    requires Injective(f) && n <= k
    ensures f(k) !in Made(f, n)
  {
  }

  lemma MadeStep<T>(f: nat -> T, n: nat)
    ensures Made(f, n + 1) == Made(f, n) + {f(n)}
  {
    assert f(n) in Made(f, n + 1);
  }

  /** An injective factory has made exactly as many objects as calls. */
  lemma {:induction false} MadeCardinality<T>(f: nat -> T, n: nat)
    requires Injective(f)
    ensures |Made(f, n)| == n
  {
    if n > 0 {
      MadeCardinality(f, n - 1);
      MadeStep(f, n - 1);
      MadeExcludesLater(f, n - 1, n - 1);
    }
  }

  /** A batch of consecutive calls yields distinct objects that are new and
      extends `Made` by exactly that batch. */
  lemma MintedBatch<T>(f: nat -> T, from: nat, n: nat)
    requires Injective(f)
    ensures Distinct(Minted(f, from, n))
    ensures forall x :: x in Minted(f, from, n) ==> x !in Made(f, from) && x in Made(f, from + n)
    ensures Made(f, from + n) == Made(f, from) + set x | x in Minted(f, from, n)
  {
    var objs := Minted(f, from, n);
    forall x | x in objs ensures x !in Made(f, from) && x in Made(f, from + n) {
      var i :| 0 <= i < n && objs[i] == x;
      MadeExcludesLater(f, from, from + i);
    }
    forall x | x in Made(f, from + n) ensures x in Made(f, from) || x in objs {
      var i: nat :| i < from + n && f(i) == x;
      if i >= from { assert objs[i - from] == x; }
    }
  }

  // ---------------------------------------------------------------------
  // Facts about the effects log

  lemma LastHookAppendOne<T>(e: seq<Effect<T>>, h: Effect<T>, x: T)
    ensures LastHook(e + [h], x) == if IsHookOn(h, x) then Some(h) else LastHook(e, x)
  {
    assert (e + [h])[..|e|] == e;
  }

  /** Effects that call no hook on `x` leave its last hook as it was. */
  lemma {:induction false} LastHookUntouched<T>(e: seq<Effect<T>>, t: seq<Effect<T>>, x: T)
    requires forall k :: 0 <= k < |t| ==> !IsHookOn(t[k], x)
    ensures LastHook(e + t, x) == LastHook(e, x)
    decreases |t|
  {
    if t != [] {
      var t' := t[..|t| - 1];
      assert t == t' + [t[|t| - 1]];
      assert e + t == (e + t') + [t[|t| - 1]];
      assert !IsHookOn(t[|t| - 1], x);
      LastHookAppendOne(e + t', t[|t| - 1], x);
      assert forall k :: 0 <= k < |t'| ==> t'[k] == t[k];
      LastHookUntouched(e, t', x);
    } else {
      assert e + t == e;
    }
  }

  /** Once later effects call a hook on `x`, earlier ones no longer matter. */
  lemma {:induction false} LastHookSuffix<T>(e: seq<Effect<T>>, t: seq<Effect<T>>, x: T)
    requires LastHook(t, x).Some?
    ensures LastHook(e + t, x) == LastHook(t, x)
    decreases |t|
  {
    var t' := t[..|t| - 1];
    assert t == t' + [t[|t| - 1]];
    assert e + t == (e + t') + [t[|t| - 1]];
    LastHookAppendOne(e + t', t[|t| - 1], x);
    LastHookAppendOne(t', t[|t| - 1], x);
    if !IsHookOn(t[|t| - 1], x) {
      LastHookSuffix(e, t', x);
    }
  }

  /** After despawning a batch, each object of the batch last received
      `OnDespawn`. */
  lemma {:induction false} LastHookOfDespawned<T>(objs: seq<T>, x: T)
    requires x in objs
    ensures LastHook(Despawned(objs), x) == Some(OnDespawn(x))
    decreases |objs|
  {
    var init := objs[..|objs| - 1];
    assert Despawned(objs) == Despawned(init) + [OnDespawn(objs[|objs| - 1])];
    LastHookAppendOne(Despawned(init), OnDespawn(objs[|objs| - 1]), x);
    if objs[|objs| - 1] != x {
      assert objs == init + [objs[|objs| - 1]];
      LastHookOfDespawned(init, x);
    }
  }

  lemma CheckoutHooks<T>(setup: Setup<T>, s: PoolState<T>, obj: T)
    ensures var s' := Checkout(setup, s, obj).0;
      LastHook(s'.effects, obj) == Some(OnSpawn(obj))
      && forall x :: x != obj ==> LastHook(s'.effects, x) == LastHook(s.effects, x)
  {
    var s' := Checkout(setup, s, obj).0;
    var callback := if setup.spawnCallback then [SpawnCallback(obj)] else [];
    assert s'.effects == (s.effects + [OnSpawn(obj)]) + callback;
    LastHookAppendOne(s.effects, OnSpawn(obj), obj);
    LastHookUntouched(s.effects + [OnSpawn(obj)], callback, obj);
    forall x | x != obj
      ensures LastHook(s'.effects, x) == LastHook(s.effects, x)
    {
      assert s'.effects == s.effects + ([OnSpawn(obj)] + callback);
      LastHookUntouched(s.effects, [OnSpawn(obj)] + callback, x);
    }
  }

  // ---------------------------------------------------------------------
  // Construction

  /** The preloaded pool satisfies every invariant, keeps all its objects
      queued in creation order, and has called `OnDespawn` on each. */
  lemma PreloadedStart<T>(setup: Setup<T>)
    requires Injective(setup.factory)
    ensures var s := Preloaded(setup);
      && Inv(setup, s) && HooksAgree(s) && Owned(setup, s) && Conserved(s)
      && s.inUse == {}
      && |s.available| == Max(0, setup.limits.preloadCount)
      && s.available == Minted(setup.factory, 0, |s.available|)
  {
    var s := Preloaded(setup);
    MintedBatch(setup.factory, 0, |s.available|);
    assert Made(setup.factory, 0) == {};
    forall x | x in s.available ensures LastHook(s.effects, x) == Some(OnDespawn(x)) {
      LastHookOfDespawned(s.available, x);
    }
  }

  // ---------------------------------------------------------------------
  // Spawn

  /** Checking out an object that the factory made and that is neither
      queued nor in use keeps `Inv`. */
  lemma CheckoutKeepsInv<T>(setup: Setup<T>, s: PoolState<T>, obj: T)
    requires Inv(setup, s)
    requires obj !in s.inUse && obj !in s.available && obj in Made(setup.factory, s.factoryCalls)
    ensures Inv(setup, Checkout(setup, s, obj).0)
  {
  }

  /** `Spawn` never hands out an object that is already in use, records the
      object it hands out as in use and not queued, and keeps `Inv`. */
  lemma SpawnKeepsInv<T>(setup: Setup<T>, s: PoolState<T>)
    requires Inv(setup, s)
    ensures var r := AfterSpawn(setup, s);
      && Inv(setup, r.0)
      && r.1 !in s.inUse && r.0.inUse == s.inUse + {r.1} && r.1 !in r.0.available
      && s.factoryCalls <= r.0.factoryCalls
  {
    if |s.available| > 0 {
      QueuedSpawnKeepsInv(setup, s);
    } else if GrowthCount(setup.limits, s.totalCreated) > 0 {
      GrowthSpawnKeepsInv(setup, s);
    } else {
      OverflowSpawnKeepsInv(setup, s);
    }
  }

  lemma QueuedSpawnKeepsInv<T>(setup: Setup<T>, s: PoolState<T>)
    requires Inv(setup, s) && |s.available| > 0
    ensures var r := AfterSpawn(setup, s);
      Inv(setup, r.0) && r.1 !in s.inUse && r.1 !in r.0.available
  {
    var obj := s.available[0];
    var s1 := s.(available := s.available[1..]);
    assert s.available == [obj] + s1.available;
    CheckoutKeepsInv(setup, s1, obj);
  }

  lemma GrowthSpawnKeepsInv<T>(setup: Setup<T>, s: PoolState<T>)
    requires Inv(setup, s) && |s.available| == 0 && GrowthCount(setup.limits, s.totalCreated) > 0
    ensures var r := AfterSpawn(setup, s);
      Inv(setup, r.0) && r.1 !in s.inUse && r.1 !in r.0.available
  {
    var f := setup.factory;
    var n := GrowthCount(setup.limits, s.totalCreated);
    var objs := Minted(f, s.factoryCalls, n);
    MintedBatch(f, s.factoryCalls, n);
    var grown := PoolState(objs[1..], s.inUse, s.totalCreated + n, s.factoryCalls + n, s.effects + Despawned(objs));
    assert objs == [objs[0]] + objs[1..];
    assert Inv(setup, grown);
    CheckoutKeepsInv(setup, grown, objs[0]);
  }

  lemma OverflowSpawnKeepsInv<T>(setup: Setup<T>, s: PoolState<T>)
    requires Inv(setup, s) && Overflows(setup, s)
    ensures var r := AfterSpawn(setup, s);
      Inv(setup, r.0) && r.1 !in s.inUse && r.1 !in r.0.available
  {
    var f := setup.factory;
    var s1 := s.(factoryCalls := s.factoryCalls + 1);
    MadeExcludesLater(f, s.factoryCalls, s.factoryCalls);
    MadeStep(f, s.factoryCalls);
    CheckoutKeepsInv(setup, s1, f(s.factoryCalls));
  }

  /** Checking out an object that is not queued keeps the hook invariant. */
  lemma CheckoutKeepsHooks<T>(setup: Setup<T>, s: PoolState<T>, obj: T)
    requires HooksAgree(s) && obj !in s.available
    ensures HooksAgree(Checkout(setup, s, obj).0)
  {
    CheckoutHooks(setup, s, obj);
  }

  /** A growth step on an empty queue leaves each new object with
      `OnDespawn` as its last hook and changes no older object's hooks. */
  lemma GrowthKeepsHooks<T>(setup: Setup<T>, s: PoolState<T>, n: nat)
    requires Inv(setup, s) && HooksAgree(s) && |s.available| == 0
    ensures var objs := Minted(setup.factory, s.factoryCalls, n);
      HooksAgree(PoolState(objs, s.inUse, s.totalCreated + n, s.factoryCalls + n, s.effects + Despawned(objs)))
  {
    var f := setup.factory;
    var objs := Minted(f, s.factoryCalls, n);
    MintedBatch(f, s.factoryCalls, n);
    var e := s.effects + Despawned(objs);
    forall x | x in objs ensures LastHook(e, x) == Some(OnDespawn(x)) {
      LastHookOfDespawned(objs, x);
      LastHookSuffix(s.effects, Despawned(objs), x);
    }
    forall x | x in s.inUse ensures LastHook(e, x) == LastHook(s.effects, x) {
      assert forall k :: 0 <= k < |objs| ==> objs[k] != x;
      LastHookUntouched(s.effects, Despawned(objs), x);
    }
  }

  /** A growth step followed by handing out its first object keeps the
      hook invariant. */
  lemma GrowthSpawnKeepsHooks<T>(setup: Setup<T>, s: PoolState<T>)
    requires Inv(setup, s) && HooksAgree(s)
    requires |s.available| == 0 && GrowthCount(setup.limits, s.totalCreated) > 0
    ensures HooksAgree(AfterSpawn(setup, s).0)
  {
    var f := setup.factory;
    var n := GrowthCount(setup.limits, s.totalCreated);
    var objs := Minted(f, s.factoryCalls, n);
    GrowthKeepsHooks(setup, s, n);
    var full := PoolState(objs, s.inUse, s.totalCreated + n, s.factoryCalls + n, s.effects + Despawned(objs));
    var grown := full.(available := objs[1..]);
    MintedBatch(f, s.factoryCalls, n);
    assert objs == [objs[0]] + objs[1..];
    assert HooksAgree(grown);
    CheckoutKeepsHooks(setup, grown, objs[0]);
  }

  /** `Spawn` keeps the hook invariant: the object handed out last received
      `OnSpawn`, objects made by a growth step and still queued last received
      `OnDespawn`, and no other object's hooks change. */
  lemma SpawnKeepsHooks<T>(setup: Setup<T>, s: PoolState<T>)
    requires Inv(setup, s) && HooksAgree(s)
    ensures HooksAgree(AfterSpawn(setup, s).0)
  {
    var f := setup.factory;
    if |s.available| > 0 {
      var s1 := s.(available := s.available[1..]);
      assert s.available == [s.available[0]] + s1.available;
      CheckoutKeepsHooks(setup, s1, s.available[0]);
    } else if GrowthCount(setup.limits, s.totalCreated) > 0 {
      GrowthSpawnKeepsHooks(setup, s);
    } else {
      var s1 := s.(factoryCalls := s.factoryCalls + 1);
      MadeExcludesLater(f, s.factoryCalls, s.factoryCalls);
      CheckoutKeepsHooks(setup, s1, f(s.factoryCalls));
    }
  }

  /** While the pool has not been cleared, every object the factory made is
      still queued or in use, including one `Spawn` made beyond the limit. */
  lemma SpawnKeepsOwned<T>(setup: Setup<T>, s: PoolState<T>)
    requires Inv(setup, s) && Owned(setup, s)
    ensures Owned(setup, AfterSpawn(setup, s).0)
  {
    if |s.available| > 0 {
      QueuedSpawnKeepsOwned(setup, s);
    } else if GrowthCount(setup.limits, s.totalCreated) > 0 {
      GrowthSpawnKeepsOwned(setup, s);
    } else {
      MadeStep(setup.factory, s.factoryCalls);
    }
  }

  lemma QueuedSpawnKeepsOwned<T>(setup: Setup<T>, s: PoolState<T>)
    requires |s.available| > 0 && Owned(setup, s)
    ensures Owned(setup, AfterSpawn(setup, s).0)
  {
    var s' := AfterSpawn(setup, s).0;
    assert s.available == [s.available[0]] + s.available[1..];
    assert (set x | x in s'.available) + s'.inUse == (set x | x in s.available) + s.inUse;
  }

  lemma GrowthSpawnKeepsOwned<T>(setup: Setup<T>, s: PoolState<T>)
    requires Injective(setup.factory) && Owned(setup, s)
    requires |s.available| == 0 && GrowthCount(setup.limits, s.totalCreated) > 0
    ensures Owned(setup, AfterSpawn(setup, s).0)
  {
    var f := setup.factory;
    var s' := AfterSpawn(setup, s).0;
    var n := GrowthCount(setup.limits, s.totalCreated);
    var objs := Minted(f, s.factoryCalls, n);
    MintedBatch(f, s.factoryCalls, n);
    assert objs == [objs[0]] + objs[1..];
    assert (set x | x in s'.available) + {objs[0]} == set x | x in objs;
  }

  /** The queue is first in, first out: while it holds objects, `Spawn`
      hands out its head and calls no factory. */
  lemma SpawnTakesOldest<T>(setup: Setup<T>, s: PoolState<T>)
    requires |s.available| > 0
    ensures var (s', obj) := AfterSpawn(setup, s);
      obj == s.available[0] && s'.available == s.available[1..]
      && s'.factoryCalls == s.factoryCalls && s'.totalCreated == s.totalCreated
  {
  }

  /** A growth step happens only on an empty queue below `maxCount`; it
      raises `totalCreated` by `expandStep` objects, or up to `maxCount` if
      that is nearer, and queues all but the one handed out. */
  lemma SpawnGrowth<T>(setup: Setup<T>, s: PoolState<T>)
    requires |s.available| == 0 && s.totalCreated < setup.limits.maxCount && setup.limits.expandStep > 0
    ensures var (s', obj) := AfterSpawn(setup, s);
      && s'.totalCreated == Min(setup.limits.maxCount, s.totalCreated + setup.limits.expandStep)
      && s'.totalCreated <= setup.limits.maxCount
      && |s'.available| == s'.totalCreated - s.totalCreated - 1
      && obj == setup.factory(s.factoryCalls)
      && s'.factoryCalls - s.factoryCalls == s'.totalCreated - s.totalCreated
  {
  }

  /** At the limit (queue empty, nothing to grow), `Spawn` still hands out a
      new object, but `totalCreated` does not count it. */
  lemma SpawnOverflowUntracked<T>(setup: Setup<T>, s: PoolState<T>)
    requires Inv(setup, s) && Overflows(setup, s)
    ensures var (s', obj) := AfterSpawn(setup, s);
      && obj == setup.factory(s.factoryCalls) && obj !in Made(setup.factory, s.factoryCalls)
      && s'.totalCreated == s.totalCreated && s'.factoryCalls == s.factoryCalls + 1
      && obj in s'.inUse && s'.available == []
  {
    MadeExcludesLater(setup.factory, s.factoryCalls, s.factoryCalls);
  }

  /** `Spawn` keeps `|available| + |inUse| == totalCreated` exactly when it
      does not overflow. */
  lemma SpawnConservation<T>(setup: Setup<T>, s: PoolState<T>)
    requires Inv(setup, s) && Conserved(s)
    ensures Conserved(AfterSpawn(setup, s).0) <==> !Overflows(setup, s)
  {
    SpawnKeepsInv(setup, s);
  }

  /** While every made object is tracked, the pool's count is conserved
      exactly when every factory call was counted. */
  lemma ConservedIffCounted<T>(setup: Setup<T>, s: PoolState<T>)
    requires Inv(setup, s) && Owned(setup, s)
    ensures Conserved(s) <==> s.totalCreated == s.factoryCalls
  {
    var queued := set x | x in s.available;
    DistinctCardinality(s.available);
    MadeCardinality(setup.factory, s.factoryCalls);
    assert queued * s.inUse == {};
    assert |queued + s.inUse| == |queued| + |s.inUse|;
  }

  /** `n` consecutive calls to `Spawn`, with the objects handed out in order. */
  function SpawnRun<T(==)>(setup: Setup<T>, s: PoolState<T>, n: nat): (r: (PoolState<T>, seq<T>))
    ensures |r.1| == n
    decreases n
  {
    if n == 0 then (s, [])
    else
      var step := AfterSpawn(setup, s);
      var rest := SpawnRun(setup, step.0, n - 1);
      (rest.0, [step.1] + rest.1)
  }

  /** Queued objects come out in queue order, without factory calls. */
  lemma {:induction false} SpawnRunFifo<T>(setup: Setup<T>, s: PoolState<T>, n: nat)
    requires n <= |s.available|
    ensures SpawnRun(setup, s, n).1 == s.available[..n]
    ensures SpawnRun(setup, s, n).0.available == s.available[n..]
    ensures SpawnRun(setup, s, n).0.factoryCalls == s.factoryCalls
    ensures SpawnRun(setup, s, n).0.totalCreated == s.totalCreated
    decreases n
  {
    if n > 0 {
      var s1 := AfterSpawn(setup, s).0;
      SpawnRunFifo(setup, s1, n - 1);
      assert s1.available[..n - 1] == s.available[1..n];
      assert s1.available[n - 1..] == s.available[n..];
      assert s.available[..n] == [s.available[0]] + s.available[1..n];
    }
  }

  // ---------------------------------------------------------------------
  // Despawn

  /** A null object, or one that is not in use (foreign, already returned,
      or forgotten by `Clear`), is ignored, so returning twice is the same as
      returning once. */
  lemma DespawnIdempotent<T>(setup: Setup<T>, s: PoolState<T>, obj: Option<T>)
    requires Inv(setup, s)
    ensures obj.None? || obj.value !in s.inUse ==> AfterDespawn(setup, s, obj) == s
    ensures var s' := AfterDespawn(setup, s, obj);
      AfterDespawn(setup, s', obj) == s'
  {
  }

  /** Returning an object in use queues it at the back and keeps `Inv`,
      the ownership invariant and the conserved count. */
  lemma DespawnKeepsInv<T>(setup: Setup<T>, s: PoolState<T>, obj: Option<T>)
    requires Inv(setup, s)
    ensures var s' := AfterDespawn(setup, s, obj);
      && Inv(setup, s')
      && (Owned(setup, s) ==> Owned(setup, s'))
      && (Conserved(s) ==> Conserved(s'))
      && (obj.Some? && obj.value in s.inUse ==>
            s'.available == s.available + [obj.value] && obj.value !in s'.inUse)
  {
    if obj.Some? && obj.value in s.inUse {
      ReturnKeepsInv(setup, s, obj.value);
      ReturnKeepsCounts(setup, s, obj.value);
    }
  }

  lemma ReturnKeepsInv<T>(setup: Setup<T>, s: PoolState<T>, x: T)
    requires Inv(setup, s) && x in s.inUse
    ensures Inv(setup, AfterDespawn(setup, s, Some(x)))
  {
    var s' := AfterDespawn(setup, s, Some(x));
    assert x !in s.available;
    forall i, j | 0 <= i < j < |s'.available| ensures s'.available[i] != s'.available[j] {
      if j == |s.available| {
        assert s'.available[i] in s.available;
      }
    }
  }

  lemma ReturnKeepsCounts<T>(setup: Setup<T>, s: PoolState<T>, x: T)
    requires x in s.inUse && x !in s.available
    ensures var s' := AfterDespawn(setup, s, Some(x));
      && (Owned(setup, s) ==> Owned(setup, s'))
      && (Conserved(s) ==> Conserved(s'))
  {
    var s' := AfterDespawn(setup, s, Some(x));
    assert (set y | y in s'.available) == (set y | y in s.available) + {x};
  }

  /** Returning an object in use makes `OnDespawn` its last hook and
      changes no other object's hooks. */
  lemma DespawnKeepsHooks<T>(setup: Setup<T>, s: PoolState<T>, obj: Option<T>)
    requires Inv(setup, s) && HooksAgree(s)
    ensures var s' := AfterDespawn(setup, s, obj);
      && HooksAgree(s')
      && (obj.Some? && obj.value in s.inUse ==> LastHook(s'.effects, obj.value) == Some(OnDespawn(obj.value)))
  {
    if obj.Some? && obj.value in s.inUse {
      var x := obj.value;
      var s' := AfterDespawn(setup, s, obj);
      var callback := if setup.despawnCallback then [DespawnCallback(x)] else [];
      assert s'.effects == (s.effects + [OnDespawn(x)]) + callback;
      LastHookAppendOne(s.effects, OnDespawn(x), x);
      LastHookUntouched(s.effects + [OnDespawn(x)], callback, x);
      forall y | y != x ensures LastHook(s'.effects, y) == LastHook(s.effects, y) {
        assert s'.effects == s.effects + ([OnDespawn(x)] + callback);
        LastHookUntouched(s.effects, [OnDespawn(x)] + callback, y);
      }
    }
  }

  /** A returned object comes out again only after everything that was
      queued before it. */
  lemma DespawnedComesOutLast<T>(setup: Setup<T>, s: PoolState<T>, x: T)
    requires x in s.inUse
    ensures SpawnRun(setup, AfterDespawn(setup, s, Some(x)), |s.available| + 1).1 == s.available + [x]
  {
    var s' := AfterDespawn(setup, s, Some(x));
    SpawnRunFifo(setup, s', |s.available| + 1);
    assert s'.available[..|s.available| + 1] == s'.available;
  }

  // ---------------------------------------------------------------------
  // Clear

  /** `Clear` empties the pool and resets the count without calling any
      hook; objects it forgot are ignored if returned, and the next `Spawn`
      makes a new object rather than reuse one of them. */
  lemma ClearForgets<T>(setup: Setup<T>, s: PoolState<T>)
    requires Inv(setup, s)
    ensures var s' := AfterClear(s);
      && Inv(setup, s') && HooksAgree(s') && Conserved(s')
      && s'.effects == s.effects && s'.totalCreated == 0
      && (forall x :: AfterDespawn(setup, s', Some(x)) == s')
      && AfterSpawn(setup, s').1 !in Made(setup.factory, s.factoryCalls)
  {
    var s' := AfterClear(s);
    var f := setup.factory;
    if GrowthCount(setup.limits, 0) > 0 {
      MintedBatch(f, s.factoryCalls, GrowthCount(setup.limits, 0));
    } else {
      MadeExcludesLater(f, s.factoryCalls, s.factoryCalls);
    }
  }

  // ---------------------------------------------------------------------
  // A concrete run

  /** With preload 2, maximum 3 and step 1: two spawns drain the preload,
      the third grows the pool to its maximum, and the fourth overflows, so
      four objects are in use while `totalCreated` stays at 3. */
  lemma CapacityScenario<T>(f: nat -> T)
    requires Injective(f)
    ensures var setup := Setup(f, Limits(2, 3, 1), false, false);
      var (s, objs) := SpawnRun(setup, Preloaded(setup), 4);
      && objs == [f(0), f(1), f(2), f(3)]
      && s.totalCreated == 3 && s.factoryCalls == 4 && |s.inUse| == 4
      && !Conserved(s)
  {
    var setup := Setup(f, Limits(2, 3, 1), false, false);
    var s0 := Preloaded(setup);
    assert s0.available == [f(0), f(1)];
    var (s1, o1) := AfterSpawn(setup, s0);
    var (s2, o2) := AfterSpawn(setup, s1);
    var (s3, o3) := AfterSpawn(setup, s2);
    var (s4, o4) := AfterSpawn(setup, s3);
    assert o1 == f(0) && o2 == f(1);
    assert s2.available == [] && s2.totalCreated == 2;
    assert Minted(f, 2, 1) == [f(2)];
    assert o3 == f(2) && s3.totalCreated == 3 && s3.factoryCalls == 3;
    assert o4 == f(3) && s4.totalCreated == 3;
    assert s4.inUse == {f(0), f(1), f(2), f(3)};
    assert AfterSpawn(setup, s3) == (s4, o4);
    assert SpawnRun(setup, s4, 0) == (s4, []);
    assert SpawnRun(setup, s3, 1).1 == [o4];
    assert SpawnRun(setup, s3, 1).0 == s4;
    assert AfterSpawn(setup, s2) == (s3, o3);
    assert SpawnRun(setup, s2, 2).1 == [o3, o4] && SpawnRun(setup, s2, 2).0 == s4;
    assert AfterSpawn(setup, s1) == (s2, o2);
    assert SpawnRun(setup, s1, 3).1 == [o2, o3, o4] && SpawnRun(setup, s1, 3).0 == s4;
    assert AfterSpawn(setup, s0) == (s1, o1);
  }

  // ---------------------------------------------------------------------
  // The pool object

  /** `UIObjectPool<T>`. `availableObjects` is the queue (head first),
      `factoryCalls` is how many objects `objectFactory` has made so far, and
      the ghost `effects` log records the hooks the pool has invoked. */
  class UIObjectPool<T(==)> {
    var availableObjects: seq<T>
    var inUseObjects: set<T>
    var totalCreated: int
    var factoryCalls: nat
    ghost var effects: seq<Effect<T>>

    const objectFactory: nat -> T
    const hasSpawnCallback: bool
    const hasDespawnCallback: bool
    const preloadCount: int
    const maxCount: int
    const expandStep: int

    ghost function PoolSetup(): Setup<T> {
      Setup(objectFactory, Limits(preloadCount, maxCount, expandStep), hasSpawnCallback, hasDespawnCallback)
    }

    ghost function State(): PoolState<T>
      reads this
    {
      PoolState(availableObjects, inUseObjects, totalCreated, factoryCalls, effects)
    }

    ghost predicate Valid()
      reads this
    {
      Inv(PoolSetup(), State()) && HooksAgree(State())
    }

    /** Copies the limits out of `config` and preloads `preloadCount`
        objects, despawning each before queueing it. */
    constructor(factory: nat -> T, config: PoolConfig, onSpawnCallback: bool, onDespawnCallback: bool)
      requires Injective(factory)
      ensures PoolSetup() == Setup(factory, LimitsOf(config), onSpawnCallback, onDespawnCallback)
      ensures State() == Preloaded(PoolSetup())
      ensures Valid() && Owned(PoolSetup(), State()) && Conserved(State())
    {
      objectFactory := factory;
      hasSpawnCallback := onSpawnCallback;
      hasDespawnCallback := onDespawnCallback;
      preloadCount := config.preloadCount;
      maxCount := config.maxCount;
      expandStep := config.expandStep;
      availableObjects := [];
      inUseObjects := {};
      totalCreated := 0;
      factoryCalls := 0;
      effects := [];
      new;
      var i := 0;
      while i < preloadCount
        invariant 0 <= i <= Max(0, preloadCount)
        invariant availableObjects == Minted(objectFactory, 0, i)
        invariant effects == Despawned(availableObjects)
        invariant totalCreated == i && factoryCalls == i && inUseObjects == {}
      {
        var obj := objectFactory(factoryCalls);
        factoryCalls := factoryCalls + 1;
        effects := effects + [OnDespawn(obj)];
        availableObjects := availableObjects + [obj];
        totalCreated := totalCreated + 1;
        i := i + 1;
      }
      PreloadedStart(PoolSetup());
    }

    /** The growth loop of `Spawn`: up to `expandStep` new objects, each
        despawned and queued, while `totalCreated` is below `maxCount`. */
    method Grow()
      modifies this
      ensures var n := GrowthCount(PoolSetup().limits, old(totalCreated));
        var objs := Minted(objectFactory, old(factoryCalls), n);
        && availableObjects == old(availableObjects) + objs
        && effects == old(effects) + Despawned(objs)
        && totalCreated == old(totalCreated) + n && factoryCalls == old(factoryCalls) + n
        && inUseObjects == old(inUseObjects)
    {
      var i := 0;
      while i < expandStep && totalCreated < maxCount
        invariant 0 <= i <= GrowthCount(PoolSetup().limits, old(totalCreated))
        invariant availableObjects == old(availableObjects) + Minted(objectFactory, old(factoryCalls), i)
        invariant effects == old(effects) + Despawned(Minted(objectFactory, old(factoryCalls), i))
        invariant totalCreated == old(totalCreated) + i && factoryCalls == old(factoryCalls) + i
        invariant inUseObjects == old(inUseObjects)
      {
        var newObj := objectFactory(factoryCalls);
        ghost var batch := Minted(objectFactory, old(factoryCalls), i);
        assert Minted(objectFactory, old(factoryCalls), i + 1) == batch + [newObj];
        assert Despawned(batch + [newObj]) == Despawned(batch) + [OnDespawn(newObj)];
        factoryCalls := factoryCalls + 1;
        effects := effects + [OnDespawn(newObj)];
        availableObjects := availableObjects + [newObj];
        totalCreated := totalCreated + 1;
        i := i + 1;
      }
    }

    /** Takes the head of the queue; on an empty queue below `maxCount`,
        first grows the pool by up to `expandStep` objects; failing both,
        makes an object the pool does not count. The object is then checked
        out. */
    method Spawn() returns (obj: T)
      requires Valid()
      modifies this
      ensures State() == AfterSpawn(PoolSetup(), old(State())).0
      ensures obj == AfterSpawn(PoolSetup(), old(State())).1
      ensures Valid()
    {
      ghost var s0 := State();
      obj := Acquire();
      CheckOut(obj);
      SpawnKeepsInv(PoolSetup(), s0);
      SpawnKeepsHooks(PoolSetup(), s0);
    }

    /** The branches of `Spawn` that pick the object: the queue's head, the
        first object of a growth step, or an untracked new object. */
    method Acquire() returns (obj: T)
      modifies this
      ensures Checkout(PoolSetup(), State(), obj) == AfterSpawn(PoolSetup(), old(State()))
    {
      ghost var s0 := State();
      ghost var setup := PoolSetup();
      if |availableObjects| > 0 {
        obj := availableObjects[0];
        availableObjects := availableObjects[1..];
        assert AfterSpawn(setup, s0) == Checkout(setup, State(), obj);
      } else if totalCreated < maxCount {
        Grow();
        ghost var n := GrowthCount(setup.limits, s0.totalCreated);
        assert availableObjects == Minted(objectFactory, s0.factoryCalls, n);
        if |availableObjects| > 0 {
          ghost var objs := availableObjects;
          obj := availableObjects[0];
          availableObjects := availableObjects[1..];
          assert State() == PoolState(objs[1..], s0.inUse, s0.totalCreated + n, s0.factoryCalls + n, s0.effects + Despawned(objs));
          assert AfterSpawn(setup, s0) == Checkout(setup, State(), obj);
        } else {
          assert n == 0;
          assert Despawned(Minted(objectFactory, s0.factoryCalls, n)) == [];
          assert effects == s0.effects;
          obj := objectFactory(factoryCalls);
          factoryCalls := factoryCalls + 1;
          assert AfterSpawn(setup, s0) == Checkout(setup, State(), obj);
        }
      } else {
        obj := objectFactory(factoryCalls);
        factoryCalls := factoryCalls + 1;
        assert AfterSpawn(setup, s0) == Checkout(setup, State(), obj);
      }
    }

    /** The bookkeeping that ends `Spawn`: the object is recorded as in use,
        then its `OnSpawn` hook and the spawn callback are invoked. */
    method CheckOut(obj: T)
      modifies this
      ensures State() == Checkout(PoolSetup(), old(State()), obj).0
    {
      inUseObjects := inUseObjects + {obj};
      effects := effects + [OnSpawn(obj)];
      if hasSpawnCallback {
        effects := effects + [SpawnCallback(obj)];
      }
    }

    /** Ignores null and objects not in use; otherwise moves the object
        from the in-use set to the back of the queue, calling its despawn
        hook and callback. */
    method Despawn(obj: Option<T>)
      requires Valid()
      modifies this
      ensures State() == AfterDespawn(PoolSetup(), old(State()), obj)
      ensures Valid()
    {
      if obj.None? {
        return;
      }
      if obj.value !in inUseObjects {
        return;
      }
      ghost var s0 := State();
      Release(obj.value);
      DespawnKeepsInv(PoolSetup(), s0, obj);
      DespawnKeepsHooks(PoolSetup(), s0, obj);
    }

    /** The part of `Despawn` that runs for an object in use. */
    method Release(x: T)
      requires x in inUseObjects
      modifies this
      ensures State() == AfterDespawn(PoolSetup(), old(State()), Some(x))
    {
      inUseObjects := inUseObjects - {x};
      effects := effects + [OnDespawn(x)];
      if hasDespawnCallback {
        effects := effects + [DespawnCallback(x)];
      }
      availableObjects := availableObjects + [x];
    }

    /** Empties the queue and the in-use set and resets the count. */
    method Clear()
      requires Injective(objectFactory)
      modifies this
      ensures State() == AfterClear(old(State()))
      ensures Valid() && Conserved(State())
    {
      availableObjects := [];
      inUseObjects := {};
      totalCreated := 0;
    }

    /** `GetStats`: the queue length, the in-use count, `totalCreated` and
        `maxCount`. */
    method GetStats() returns (stats: PoolStats)
      requires Valid()
      ensures stats.availableCount == |availableObjects| && stats.inUseCount == |inUseObjects|
      ensures stats.totalCreated == totalCreated && stats.maxCount == maxCount
      ensures 0 <= stats.totalCreated <= Capacity(PoolSetup().limits)
      ensures stats.availableCount + stats.inUseCount == stats.totalCreated <==> Conserved(State())
    {
      stats := PoolStats(|availableObjects|, |inUseObjects|, totalCreated, maxCount);
    }
  }
}
