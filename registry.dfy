/**
 * Phaser's game-wide registry as the two registry-backed state managers use
 * it: a map from keys to values, where a missing key reads as `undefined`,
 * and the seven defaults both managers share.
 */
module Registry {
  import opened JsValues

  type Store = map<string, Value>

  /** `registry.get(key)`. */
  function Lookup(reg: Store, key: string): (v: Value)
    ensures key !in reg ==> v == Undefined
    ensures key in reg ==> v == reg[key]
  {
    if key in reg then reg[key] else Undefined
  }

  /** The keys with defaults, in the order of the object literal that lists them. */
  const DefaultOrder: seq<string> := ["score", "lives", "playerHP", "bitcoins", "musicEnabled", "gameStarted", "stamina"]

  const DefaultKeys: set<string> := {"score", "lives", "playerHP", "bitcoins", "musicEnabled", "gameStarted", "stamina"}

  /** `defaults[key]`: the key's default, or `undefined` for any other key. */
  function DefaultOf(key: string): (v: Value)
    ensures key in DefaultKeys <==> v != Undefined
    ensures key == "lives" ==> v == Num(3.0)
    ensures key == "playerHP" || key == "stamina" ==> v == Num(100.0)
    ensures key == "score" || key == "bitcoins" ==> v == Num(0.0)
  {
    if key == "score" then Num(0.0)
    else if key == "lives" then Num(3.0)
    else if key == "playerHP" then Num(100.0)
    else if key == "bitcoins" then Num(0.0)
    else if key == "musicEnabled" then Bool(true)
    else if key == "gameStarted" then Bool(false)
    else if key == "stamina" then Num(100.0)
    else Undefined
  }

  /** The defaults of the listed keys, written one after another. */
  function SetAll(reg: Store, keys: seq<string>): Store
    decreases |keys|
  {
    if keys == [] then reg
    else SetAll(reg[keys[0] := DefaultOf(keys[0])], keys[1..])
  }

  /** `if (!registry.has(key)) registry.set(key, defaults[key])`. */
  function SetIfAbsent(reg: Store, key: string): (r: Store)
    ensures key in reg ==> r == reg
    ensures key !in reg ==> r == reg[key := DefaultOf(key)]
  {
    if key in reg then reg else reg[key := DefaultOf(key)]
  }

  /** The defaults of the listed keys that are absent, written one after another. */
  function SetMissing(reg: Store, keys: seq<string>): Store
    decreases |keys|
  {
    if keys == [] then reg
    else SetMissing(SetIfAbsent(reg, keys[0]), keys[1..])
  }

  lemma SetMissingStep(reg: Store, keys: seq<string>, i: nat)
    requires i < |keys|
    ensures SetMissing(reg, keys[i..]) == SetMissing(SetIfAbsent(reg, keys[i]), keys[i + 1..])
  {
    assert keys[i..][1..] == keys[i + 1..];
  }

  lemma SetAllStep(reg: Store, keys: seq<string>, i: nat)
    requires i < |keys|
    ensures SetAll(reg, keys[i..]) == SetAll(reg[keys[i] := DefaultOf(keys[i])], keys[i + 1..])
  {
    assert keys[i..][1..] == keys[i + 1..];
  }

  /** Writing defaults gives each listed key its default and leaves every other key alone. */
  lemma {:induction false} SetAllWritesDefaults(reg: Store, keys: seq<string>)
    ensures SetAll(reg, keys).Keys == reg.Keys + set k | k in keys
    ensures forall k :: k in keys ==> SetAll(reg, keys)[k] == DefaultOf(k)
    ensures forall k :: k !in keys ==> Lookup(SetAll(reg, keys), k) == Lookup(reg, k)
    decreases |keys|
  {
    if keys != [] {
      SetAllWritesDefaults(reg[keys[0] := DefaultOf(keys[0])], keys[1..]);
      assert forall k :: k in keys <==> k == keys[0] || k in keys[1..];
    }
  }

  /** Filling in gives each absent listed key its default and changes no key already present. */
  lemma {:induction false} SetMissingKeepsPresent(reg: Store, keys: seq<string>)
    ensures SetMissing(reg, keys).Keys == reg.Keys + set k | k in keys
    ensures forall k :: k in reg ==> SetMissing(reg, keys)[k] == reg[k]
    ensures forall k :: k in keys && k !in reg ==> SetMissing(reg, keys)[k] == DefaultOf(k)
    decreases |keys|
  {
    if keys != [] {
      assert forall k :: k in keys <==> k == keys[0] || k in keys[1..];
      SetMissingKeepsPresent(SetIfAbsent(reg, keys[0]), keys[1..]);
    }
  }

  lemma DefaultOrderListsDefaultKeys()
    ensures (set k | k in DefaultOrder) == DefaultKeys
    ensures forall k :: k in DefaultOrder <==> k in DefaultKeys
  {
  }

  /**
   * Initializing the registry gives every default key a value, its default
   * when it was absent, and changes no value already present.
   */
  lemma InitializeFillsDefaults(reg: Store)
    ensures SetMissing(reg, DefaultOrder).Keys == reg.Keys + DefaultKeys
    ensures forall k :: k in reg ==> SetMissing(reg, DefaultOrder)[k] == reg[k]
    ensures forall k :: k in DefaultKeys && k !in reg ==> SetMissing(reg, DefaultOrder)[k] == DefaultOf(k)
  {
    SetMissingKeepsPresent(reg, DefaultOrder);
    DefaultOrderListsDefaultKeys();
  }

  /** After `reset()` every default key holds its default and no other key is touched. */
  lemma ResetRestoresDefaults(reg: Store)
    ensures forall k :: k in DefaultKeys ==> Lookup(SetAll(reg, DefaultOrder), k) == DefaultOf(k)
    ensures forall k :: k !in DefaultKeys ==> Lookup(SetAll(reg, DefaultOrder), k) == Lookup(reg, k)
  {
    SetAllWritesDefaults(reg, DefaultOrder);
    DefaultOrderListsDefaultKeys();
  }
}
