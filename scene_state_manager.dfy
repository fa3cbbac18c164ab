/**
 * The scene-side state manager: the same registry values and defaults as
 * the level-side manager, but `increment` and `decrement` read a missing
 * value as `undefined`, and `set`, `increment` and `decrement` return what
 * they stored.
 */
module SceneState {
  import opened JsValues
  import opened Registry

  /** `current + amount`, with no fallback for a missing value. */
  function Increased(current: Value, amount: int): (r: Value)
    ensures current.Num? ==> r == Num(current.n + amount as real)
    ensures current == Undefined ==> r == NaN
  {
    AddInt(current, amount)
  }

  /** `Math.max(0, current - amount)`. */
  function Decreased(current: Value, amount: int): (r: Value)
    ensures r.Num? ==> r.n >= 0.0
    ensures r.Num? <==> ToNumber(current).Some?
    ensures current.Num? && current.n >= amount as real ==> r == Num(current.n - amount as real)
    ensures current.Num? && current.n < amount as real ==> r == Num(0.0)
  {
    MaxZero(SubInt(current, amount))
  }

  /** The seven set-if-absent writes of `initializeGameState`, in source order. */
  function InitializeAll(reg: Registry.Store): Registry.Store
  {
    SetIfAbsent(SetIfAbsent(SetIfAbsent(SetIfAbsent(SetIfAbsent(SetIfAbsent(SetIfAbsent(
      reg, "score"), "lives"), "playerHP"), "bitcoins"), "musicEnabled"), "gameStarted"), "stamina")
  }

  /** The written-out initialization agrees with the level-side loop over the defaults. */
  lemma InitializeAllIsSetMissing(reg: Registry.Store)
    ensures InitializeAll(reg) == SetMissing(reg, DefaultOrder)
  {
  }

  class StateManager {
    var registry: Registry.Store

    constructor (registry: Registry.Store)
      ensures this.registry == registry
    {
      this.registry := registry;
    }

    /** Seven set-if-absent writes, one per default. */
    method InitializeGameState()
      modifies this
      ensures registry == InitializeAll(old(registry))
    {
      ghost var r0 := registry;
      SetIfMissing("score", Num(0.0));
      ghost var r1 := registry;
      assert r1 == SetIfAbsent(r0, "score");
      SetIfMissing("lives", Num(3.0));
      ghost var r2 := registry;
      assert r2 == SetIfAbsent(r1, "lives");
      SetIfMissing("playerHP", Num(100.0));
      ghost var r3 := registry;
      assert r3 == SetIfAbsent(r2, "playerHP");
      SetIfMissing("bitcoins", Num(0.0));
      ghost var r4 := registry;
      assert r4 == SetIfAbsent(r3, "bitcoins");
      SetIfMissing("musicEnabled", Bool(true));
      ghost var r5 := registry;
      assert r5 == SetIfAbsent(r4, "musicEnabled");
      SetIfMissing("gameStarted", Bool(false));
      ghost var r6 := registry;
      assert r6 == SetIfAbsent(r5, "gameStarted");
      SetIfMissing("stamina", Num(100.0));
      assert registry == SetIfAbsent(r6, "stamina");
    }

    /** `if (!this.registry.has(key)) this.registry.set(key, value)`. */
    method SetIfMissing(key: string, value: Value)
      modifies this`registry
      ensures key in old(registry) ==> registry == old(registry)
      ensures key !in old(registry) ==> registry == old(registry)[key := value]
    {
      if key !in registry {
        registry := registry[key := value];
      }
    }

    method Get(key: string) returns (v: Value)
      ensures v == Lookup(registry, key)
    {
      v := if key in registry then registry[key] else Undefined;
    }

    /** Writes the registry and returns the value written. */
    method Set(key: string, value: Value) returns (r: Value)
      modifies this
      ensures registry == old(registry)[key := value]
      ensures r == value && Lookup(registry, key) == r
    {
      registry := registry[key := value];
      r := value;
    }

    method Increment(key: string, amount: int) returns (newValue: Value)
      modifies this
      ensures newValue == Increased(Lookup(old(registry), key), amount)
      ensures registry == old(registry)[key := newValue]
    {
      var current := Get(key);
      newValue := AddInt(current, amount);
      registry := registry[key := newValue];
    }

    method Decrement(key: string, amount: int) returns (newValue: Value)
      modifies this
      ensures newValue == Decreased(Lookup(old(registry), key), amount)
      ensures registry == old(registry)[key := newValue]
    {
      var current := Get(key);
      newValue := MaxZero(SubInt(current, amount));
      registry := registry[key := newValue];
    }

    /** `reset(key)`: as on the level side, but without announcements. */
    method Reset(key: Option<string>)
      modifies this
      ensures key.Some? && key.value != "" ==> registry == old(registry)[key.value := DefaultOf(key.value)]
      ensures key.None? || key.value == "" ==> registry == SetAll(old(registry), DefaultOrder)
    {
      if key.Some? && key.value != "" {
        var _ := Set(key.value, DefaultOf(key.value));
      } else {
        ResetAll(DefaultOrder);
      }
    }

    /** The `forEach` of `reset()`: every listed key is set to its default, in order. */
    method ResetAll(keys: seq<string>)
      modifies this
      ensures registry == SetAll(old(registry), keys)
    {
      var i := 0;
      while i < |keys|
        invariant 0 <= i <= |keys|
        invariant SetAll(registry, keys[i..]) == SetAll(old(registry), keys)
      {
        SetAllStep(registry, keys, i);
        var _ := Set(keys[i], DefaultOf(keys[i]));
        i := i + 1;
      }
      assert keys[i..] == [];
    }
  }

  /** Unlike the level-side manager, incrementing a key that was never set stores NaN. */
  lemma IncrementOfMissingKeyIsNaN(reg: Registry.Store, key: string, amount: int)
    requires key !in reg
    ensures Increased(Lookup(reg, key), amount) == NaN
  {
  }
}
