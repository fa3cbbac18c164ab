/**
 * The level-side game state manager: game-wide values kept in Phaser's
 * registry, every write announced on the scene's event manager, and a
 * missing value read as 0 by increment and decrement.
 */
module LevelGameState {
  import opened JsValues
  import opened Registry

  /** What the manager announces on the scene's event manager. */
  datatype Announcement =
    | StateInitialized(defaults: Value)
    | StateChanged(key: string, value: Value)
    | GameOverAnnounced

  /** The `defaults` object literal. */
  function DefaultsObject(): (v: Value)
    ensures v.Obj? && v.fields.Keys == DefaultKeys
  {
    Obj(map k | k in DefaultKeys :: DefaultOf(k))
  }

  /** `(current || 0) + amount`. */
  function Incremented(current: Value, amount: int): (r: Value)
    ensures !Truthy(current) ==> r == Num(amount as real)
    ensures current.Num? ==> r == Num(current.n + amount as real)
  {
    AddInt(OrElse(current, Num(0.0)), amount)
  }

  /** `Math.max(0, (current || 0) - amount)`. */
  function Decremented(current: Value, amount: int): (r: Value)
    ensures r.Num? ==> r.n >= 0.0
    ensures r.Num? <==> ToNumber(OrElse(current, Num(0.0))).Some?
    ensures !Truthy(current) ==> r == Num(RealMax(0.0, -amount as real))
    ensures current.Num? && amount >= 0 && current.n >= amount as real ==> r == Num(current.n - amount as real)
  {
    MaxZero(SubInt(OrElse(current, Num(0.0)), amount))
  }

  /** Decrementing a whole number never leaves a negative count. */
  lemma DecrementStaysNatural(n: nat, amount: nat)
    ensures Decremented(Num(n as real), amount) == Num(if n >= amount then (n - amount) as real else 0.0)
  {
  }

  /** The announcements `reset()` makes: one `StateChanged` per default, in order. */
  function ResetAnnouncements(keys: seq<string>): (r: seq<Announcement>)
    ensures |r| == |keys|
    ensures forall i :: 0 <= i < |keys| ==> r[i] == StateChanged(keys[i], DefaultOf(keys[i]))
  {
    seq(|keys|, i requires 0 <= i < |keys| => StateChanged(keys[i], DefaultOf(keys[i])))
  }

  class GameStateManager {
    var registry: Registry.Store
    var announcements: seq<Announcement>

    constructor (registry: Registry.Store)
      ensures this.registry == registry && announcements == []
    {
      this.registry := registry;
      announcements := [];
    }

    /** Writes each default whose key is absent, then announces the defaults. */
    method InitializeGameState()
      modifies this
      ensures registry == SetMissing(old(registry), DefaultOrder)
      ensures announcements == old(announcements) + [StateInitialized(DefaultsObject())]
    {
      FillMissing(DefaultOrder);
      announcements := announcements + [StateInitialized(DefaultsObject())];
    }

    /** The `forEach` of `initializeGameState`: each listed key that is absent gets its default. */
    method FillMissing(keys: seq<string>)
      modifies this`registry
      ensures registry == SetMissing(old(registry), keys)
    {
      var i := 0;
      while i < |keys|
        invariant 0 <= i <= |keys|
        invariant SetMissing(registry, keys[i..]) == SetMissing(old(registry), keys)
      {
        var key := keys[i];
        SetMissingStep(registry, keys, i);
        if key !in registry {
          registry := registry[key := DefaultOf(key)];
        }
        i := i + 1;
      }
      assert keys[i..] == [];
    }

    method Get(key: string) returns (v: Value)
      ensures v == Lookup(registry, key)
    {
      v := if key in registry then registry[key] else Undefined;
    }

    /** Writes the registry and announces the change. */
    method Set(key: string, value: Value)
      modifies this
      ensures registry == old(registry)[key := value]
      ensures Lookup(registry, key) == value
      ensures announcements == old(announcements) + [StateChanged(key, value)]
    {
      registry := registry[key := value];
      announcements := announcements + [StateChanged(key, value)];
    }

    method Increment(key: string, amount: int)
      modifies this
      ensures registry == old(registry)[key := Incremented(Lookup(old(registry), key), amount)]
      ensures announcements == old(announcements) + [StateChanged(key, registry[key])]
    {
      var current := Get(key);
      Set(key, AddInt(OrElse(current, Num(0.0)), amount));
    }

    method Decrement(key: string, amount: int)
      modifies this
      ensures registry == old(registry)[key := Decremented(Lookup(old(registry), key), amount)]
      ensures announcements == old(announcements) + [StateChanged(key, registry[key])]
    {
      var current := Get(key);
      Set(key, MaxZero(SubInt(OrElse(current, Num(0.0)), amount)));
    }

    /**
     * `reset(key)`: a non-empty key gets its default (`undefined` for a key
     * without one); no key, or the empty string, resets all seven defaults.
     */
    method Reset(key: Option<string>)
      modifies this
      ensures key.Some? && key.value != "" ==>
        && registry == old(registry)[key.value := DefaultOf(key.value)]
        && announcements == old(announcements) + [StateChanged(key.value, DefaultOf(key.value))]
      ensures key.None? || key.value == "" ==>
        && registry == SetAll(old(registry), DefaultOrder)
        && announcements == old(announcements) + ResetAnnouncements(DefaultOrder)
    {
      if key.Some? && key.value != "" {
        Set(key.value, DefaultOf(key.value));
      } else {
        ResetAll(DefaultOrder);
      }
    }

    /** The `forEach` of `reset()`: every listed key is set to its default and announced, in order. */
    method ResetAll(keys: seq<string>)
      modifies this
      ensures registry == SetAll(old(registry), keys)
      ensures announcements == old(announcements) + ResetAnnouncements(keys)
    {
      var i := 0;
      while i < |keys|
        invariant 0 <= i <= |keys|
        invariant SetAll(registry, keys[i..]) == SetAll(old(registry), keys)
        invariant announcements == old(announcements) + ResetAnnouncements(keys[..i])
      {
        var k := keys[i];
        assert keys[i..][1..] == keys[i + 1..];
        assert ResetAnnouncements(keys[..i + 1]) == ResetAnnouncements(keys[..i]) + [StateChanged(k, DefaultOf(k))];
        Set(k, DefaultOf(k));
        i := i + 1;
      }
      assert keys[..i] == keys;
    }

    method HandleGameOver()
      modifies this
      ensures registry == old(registry)
      ensures announcements == old(announcements) + [GameOverAnnounced]
    {
      announcements := announcements + [GameOverAnnounced];
    }
  }
}
