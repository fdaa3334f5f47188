/** The per-pool configuration record: a UI type name and three sizing numbers. */
module PoolConfigs {
  import opened Common

  const DefaultPreloadCount: int := 10
  const DefaultMaxCount: int := 100
  const DefaultExpandStep: int := 5

  /** `PoolConfig`. `uiTypeName` is `None` when the field was never assigned. */
  datatype PoolConfig = PoolConfig(
    uiTypeName: Option<string>,
    preloadCount: int,
    maxCount: int,
    expandStep: int)

  /** The parameterless constructor: field initialisers only, name left unset. */
  function Default(): (c: PoolConfig)
    ensures c.uiTypeName == None
    ensures c.preloadCount == 10 && c.maxCount == 100 && c.expandStep == 5
  {
    PoolConfig(None, DefaultPreloadCount, DefaultMaxCount, DefaultExpandStep)
  }

  /** The parameterised constructor: stores every argument as given and
      checks nothing (a preload above the maximum or a step of zero or less
      is accepted). */
  function Create(uiTypeName: Option<string>, preloadCount: int := DefaultPreloadCount,
                  maxCount: int := DefaultMaxCount, expandStep: int := DefaultExpandStep): (c: PoolConfig)
    ensures c.uiTypeName == uiTypeName
    ensures c.preloadCount == preloadCount && c.maxCount == maxCount && c.expandStep == expandStep
  {
    PoolConfig(uiTypeName, preloadCount, maxCount, expandStep)
  }

  /** The default arguments of the parameterised constructor equal the field
      initialisers, so naming a config changes only its name. */
  lemma CreateDefaultsMatchDefault(name: Option<string>)
    ensures Create(name) == Default().(uiTypeName := name)
    ensures Create(None) == Default()
  {
  }
}
