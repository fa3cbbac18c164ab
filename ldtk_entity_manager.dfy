/**
 * The LDtk entity manager: entities of a level's "Entities" layers become
 * sprites, each at most once per world position ("x,y" keys that outlive
 * level cleanup); created sprites are indexed by their LDtk iid and grouped
 * by layer. A texture that is not loaded yet schedules up to five retries.
 *
 * The manager's state is kept in the class; `Tracking` is the same state as
 * a value, and the specification functions below say what each operation
 * does to it.
 */
module LdtkEntities {
  import opened JsValues

  /** An entity instance of an LDtk layer: its iid, its type name, its pixel position and its fields. */
  datatype LdtkEntity = LdtkEntity(iid: string, identifier: string, px0: int, px1: int, fieldInstances: Option<seq<Value>>)

  /** An LDtk layer instance: `__identifier`, `__type` and its entities. */
  datatype Layer = Layer(identifier: string, layerType: string, entityInstances: seq<LdtkEntity>)

  /** A level: its layer instances, which may be missing. */
  datatype LevelData = LevelData(layerInstances: Option<seq<Layer>>)

  /** A sprite added to the scene; `serial` tells sprites apart. */
  datatype Sprite = Sprite(serial: nat, x: int, y: int, texture: string)

  /** A creation attempt waiting on a timer: the entity, its world offset and the attempt number. */
  datatype Retry = Retry(entity: LdtkEntity, worldX: int, worldY: int, retryCount: nat)

  /** What the asset side provides: the loaded textures and the spritesheet chosen for a type name. */
  datatype Env = Env(textures: set<string>, sheetFor: string -> string)

  /** The manager's state as a value. */
  datatype Tracking = Tracking(
    instances: map<string, Sprite>,
    layers: map<string, seq<Sprite>>,
    loaded: set<string>,
    nextSerial: nat,
    retries: seq<Retry>)

  const MaxRetries := 5
  const FallbackTexture := "default_sprite"

  // ---------------------------------------------------------------------------
  // Position keys
  // ---------------------------------------------------------------------------

  /** "x,y" of the entity's world position. */
  function PositionKey(e: LdtkEntity, worldX: int, worldY: int): (k: string)
    ensures var x, y := IntToString(e.px0 + worldX), IntToString(e.px1 + worldY);
      && |k| == |x| + 1 + |y| && k[..|x|] == x && k[|x|] == ',' && k[|x| + 1..] == y
      && ',' !in k[..|x|] && ',' !in k[|x| + 1..]
  {
    IntToStringHasNoComma(e.px0 + worldX);
    IntToStringHasNoComma(e.px1 + worldY);
    IntToString(e.px0 + worldX) + "," + IntToString(e.px1 + worldY)
  }

  /** The key of a sprite's position. */
  function SpriteKey(s: Sprite): string
  {
    IntToString(s.x) + "," + IntToString(s.y)
  }

  /** Two entities share a key exactly when they share a world position. */
  lemma PositionKeyInjective(a: LdtkEntity, wa: int, ha: int, b: LdtkEntity, wb: int, hb: int)
    ensures PositionKey(a, wa, ha) == PositionKey(b, wb, hb) <==>
      a.px0 + wa == b.px0 + wb && a.px1 + ha == b.px1 + hb
  {
    var xa, ya, xb, yb := a.px0 + wa, a.px1 + ha, b.px0 + wb, b.px1 + hb;
    var k := PositionKey(a, wa, ha);
    if k == PositionKey(b, wb, hb) {
      var sa, sb := IntToString(xa), IntToString(xb);
      assert |sa| == |sb|;
      assert sa == sb && IntToString(ya) == IntToString(yb) by {
        assert sa == k[..|sa|] && sb == k[..|sb|];
        assert IntToString(ya) == k[|sa| + 1..] && IntToString(yb) == k[|sb| + 1..];
      }
      IntToStringInjective(xa, xb);
      IntToStringInjective(ya, yb);
    }
  }

  /** Joining two comma-free strings with a comma can be undone. */
  lemma CommaJoinInjective(s1: string, t1: string, s2: string, t2: string)
    requires ',' !in s1 && ',' !in s2
    requires s1 + "," + t1 == s2 + "," + t2
    ensures s1 == s2 && t1 == t2
  {
    var j1, j2 := s1 + "," + t1, s2 + "," + t2;
    assert forall i :: 0 <= i < |s1| ==> j1[i] == s1[i];
    assert forall i :: 0 <= i < |s2| ==> j2[i] == s2[i];
    assert j1[|s1|] == ',' && j2[|s2|] == ',';
    assert |s1| == |s2|;
    assert s1 == j1[..|s1|] && s2 == j2[..|s2|];
    assert t1 == j1[|s1| + 1..] && t2 == j2[|s2| + 1..];
  }

  function Keys(sprites: seq<Sprite>): (ks: seq<string>)
    ensures |ks| == |sprites| && forall i :: 0 <= i < |ks| ==> ks[i] == SpriteKey(sprites[i])
  {
    seq(|sprites|, i requires 0 <= i < |sprites| => SpriteKey(sprites[i]))
  }

  // ---------------------------------------------------------------------------
  // Identifiers and fields
  // ---------------------------------------------------------------------------

  /** `toLowerCase` on ASCII letters. */
  function ToLower(s: string): (r: string)
    ensures |r| == |s|
    ensures forall i :: 0 <= i < |s| ==> r[i] == if 'A' <= s[i] <= 'Z' then s[i] - 'A' + 'a' else s[i]
  {
    seq(|s|, i requires 0 <= i < |s| => if 'A' <= s[i] <= 'Z' then s[i] - 'A' + 'a' else s[i])
  }

  /** The property name a field is stored under, if its `__identifier` is truthy. */
  function FieldKey(field: Value): (k: Option<string>)
    ensures k.Some? ==> field.Obj? && "__identifier" in field.fields && Truthy(field.fields["__identifier"])
  {
    if field.Obj? && "__identifier" in field.fields then
      match field.fields["__identifier"]
      case Str(s) => if s != "" then Some(s) else None
      case Bool(b) => if b then Some("true") else None
      case Num(n) => if n != 0.0 && n == n.Floor as real then Some(IntToString(n.Floor)) else None
      case Obj(_) => Some("[object Object]")
      case _ => None
    else None
  }

  /** `field.__value`, undefined when absent. */
  function FieldValue(field: Value): Value
  {
    if field.Obj? && "__value" in field.fields then field.fields["__value"] else Undefined
  }

  /** The index of the last field stored under `k` among the first n, if any. */
  function LastFieldFor(fields: seq<Value>, k: string, n: nat): (r: Option<nat>)
    requires n <= |fields|
    ensures r.Some? ==>
      && r.value < n && FieldKey(fields[r.value]) == Some(k)
      && forall j :: r.value < j < n ==> FieldKey(fields[j]) != Some(k)
    ensures r.None? ==> forall j :: 0 <= j < n ==> FieldKey(fields[j]) != Some(k)
  {
    if n == 0 then None
    else if FieldKey(fields[n - 1]) == Some(k) then Some(n - 1)
    else LastFieldFor(fields, k, n - 1)
  }

  // ---------------------------------------------------------------------------
  // The operations on the state, as functions
  // ---------------------------------------------------------------------------

  /** The spritesheet for an entity: chosen by its lower-cased type name. */
  function Sheet(env: Env, e: LdtkEntity): string
  {
    env.sheetFor(ToLower(e.identifier))
  }

  predicate Creatable(env: Env, e: LdtkEntity)
  {
    Sheet(env, e) in env.textures
  }

  /**
   * createEntityInstance: a sprite at the world position when the texture
   * is loaded; otherwise nothing, and a retry is scheduled unless this was
   * already the fifth retry.
   */
  function CreateInstance(env: Env, t: Tracking, e: LdtkEntity, worldX: int, worldY: int, retryCount: nat): (r: (Tracking, Option<Sprite>))
    ensures r.1.Some? <==> Creatable(env, e)
    ensures r.1.Some? ==> r.1.value.serial == t.nextSerial && SpriteKey(r.1.value) == PositionKey(e, worldX, worldY)
    ensures r.0.loaded == t.loaded && r.0.instances == t.instances && r.0.layers == t.layers
  {
    if Creatable(env, e) then
      (t.(nextSerial := t.nextSerial + 1), Some(Sprite(t.nextSerial, e.px0 + worldX, e.px1 + worldY, Sheet(env, e))))
    else if retryCount < MaxRetries then
      (t.(retries := t.retries + [Retry(e, worldX, worldY, retryCount + 1)]), None)
    else
      (t, None)
  }

  /** registerEntity: index by iid, add to the layer's set, mark the position loaded. */
  function Register(t: Tracking, s: Sprite, e: LdtkEntity, layerId: string, key: string): (r: Tracking)
    ensures r.loaded == t.loaded + {key} && r.instances == t.instances[e.iid := s]
    ensures layerId in r.layers && s in r.layers[layerId]
  {
    var members := if layerId in t.layers then t.layers[layerId] else [];
    t.(instances := t.instances[e.iid := s],
       layers := t.layers[layerId := SetAdd(members, s)],
       loaded := t.loaded + {key})
  }

  /** One entity of a layer: skipped when its position is loaded, else created and registered. */
  function StepEntity(env: Env, t: Tracking, layerId: string, e: LdtkEntity, worldX: int, worldY: int): (r: (Tracking, seq<Sprite>))
    ensures |r.1| <= 1
    ensures r.1 == [] ==> r.0.loaded == t.loaded
    ensures r.1 != [] ==> var key := PositionKey(e, worldX, worldY);
      SpriteKey(r.1[0]) == key && key !in t.loaded && r.0.loaded == t.loaded + {key}
    ensures PositionKey(e, worldX, worldY) in r.0.loaded || !Creatable(env, e)
  {
    var key := PositionKey(e, worldX, worldY);
    if key in t.loaded then (t, [])
    else
      var made := CreateInstance(env, t, e, worldX, worldY, 0);
      if made.1.None? then (made.0, [])
      else (Register(made.0, made.1.value, e, layerId, key), [made.1.value])
  }

  /** The entities of a layer, one after the other. */
  function ProcessEntities(env: Env, t: Tracking, layerId: string, es: seq<LdtkEntity>, worldX: int, worldY: int): (r: (Tracking, seq<Sprite>))
  {
    if es == [] then (t, [])
    else
      var before := ProcessEntities(env, t, layerId, es[..|es| - 1], worldX, worldY);
      var step := StepEntity(env, before.0, layerId, es[|es| - 1], worldX, worldY);
      (step.0, before.1 + step.1)
  }

  /** One more entity of a prefix is processed from where the prefix left off. */
  lemma ProcessEntitiesStep(env: Env, t: Tracking, layerId: string, es: seq<LdtkEntity>, i: nat, worldX: int, worldY: int)
    requires i < |es|
    ensures var before := ProcessEntities(env, t, layerId, es[..i], worldX, worldY);
      var step := StepEntity(env, before.0, layerId, es[i], worldX, worldY);
      ProcessEntities(env, t, layerId, es[..i + 1], worldX, worldY) == (step.0, before.1 + step.1)
  {
    assert es[..i + 1][..i] == es[..i];
  }

  /** processEntityLayer: the layer's set starts empty, then every entity is processed. */
  function ProcessLayer(env: Env, t: Tracking, layer: Layer, worldX: int, worldY: int): (r: (Tracking, seq<Sprite>))
  {
    ProcessEntities(env, t.(layers := t.layers[layer.identifier := []]), layer.identifier, layer.entityInstances, worldX, worldY)
  }

  /** createEntities over a list of layers: only "Entities" layers are processed. */
  function ProcessLayers(env: Env, t: Tracking, layers: seq<Layer>, worldX: int, worldY: int): (r: (Tracking, seq<Sprite>))
  {
    if layers == [] then (t, [])
    else
      var before := ProcessLayers(env, t, layers[..|layers| - 1], worldX, worldY);
      var layer := layers[|layers| - 1];
      if layer.layerType == "Entities" then
        var step := ProcessLayer(env, before.0, layer, worldX, worldY);
        (step.0, before.1 + step.1)
      else before
  }

  function LayersOf(level: LevelData): seq<Layer>
  {
    if level.layerInstances.Some? then level.layerInstances.value else []
  }

  /** cleanup: instances and layers are forgotten, loaded positions are kept. */
  function Cleanup(t: Tracking): (r: Tracking)
    ensures r.loaded == t.loaded && r.instances == map[] && r.layers == map[]
  {
    t.(instances := map[], layers := map[])
  }

  // ---------------------------------------------------------------------------
  // What the operations guarantee
  // ---------------------------------------------------------------------------

  /**
   * Going from `before` to `after` created `sprites`, one per newly loaded
   * position: their keys are distinct, none was loaded before, and the
   * loaded set grew by exactly those keys.
   */
  predicate LoadsOnce(before: set<string>, sprites: seq<Sprite>, after: set<string>)
  {
    FreshKeys(before, Keys(sprites), after)
  }

  /** `keys` are distinct, none is in `before`, and `after` is `before` plus them. */
  predicate FreshKeys(before: set<string>, keys: seq<string>, after: set<string>)
  {
    && NoDuplicates(keys)
    && (forall k :: k in keys ==> k !in before)
    && after == before + set k | k in keys
  }

  lemma LoadsOnceCompose(l0: set<string>, c1: seq<Sprite>, l1: set<string>, c2: seq<Sprite>, l2: set<string>)
    requires LoadsOnce(l0, c1, l1) && LoadsOnce(l1, c2, l2)
    ensures LoadsOnce(l0, c1 + c2, l2)
  {
    KeysConcat(c1, c2);
    FreshKeysCompose(l0, Keys(c1), l1, Keys(c2), l2);
  }

  lemma FreshKeysCompose(l0: set<string>, k1: seq<string>, l1: set<string>, k2: seq<string>, l2: set<string>)
    requires FreshKeys(l0, k1, l1) && FreshKeys(l1, k2, l2)
    ensures FreshKeys(l0, k1 + k2, l2)
  {
    var ks := k1 + k2;
    forall i, j | 0 <= i < j < |ks|
      ensures ks[i] != ks[j]
    {
      if i < |k1| <= j {
        assert ks[i] in l1 && ks[j] == k2[j - |k1|];
      } else if |k1| <= i {
        assert ks[i] == k2[i - |k1|] && ks[j] == k2[j - |k1|];
      }
    }
    assert (set k | k in ks) == (set k | k in k1) + (set k | k in k2);
  }

  lemma KeysConcat(a: seq<Sprite>, b: seq<Sprite>)
    ensures Keys(a + b) == Keys(a) + Keys(b)
  {
  }

  lemma StepLoadsOnce(env: Env, t: Tracking, layerId: string, e: LdtkEntity, worldX: int, worldY: int)
    ensures var r := StepEntity(env, t, layerId, e, worldX, worldY);
      LoadsOnce(t.loaded, r.1, r.0.loaded)
  {
    var r := StepEntity(env, t, layerId, e, worldX, worldY);
    if r.1 != [] {
      assert Keys(r.1) == [SpriteKey(r.1[0])];
    } else {
      assert Keys(r.1) == [];
    }
  }

  /** Processing a layer's entities loads each position at most once. */
  lemma {:induction false} EntitiesLoadEachPositionOnce(env: Env, t: Tracking, layerId: string, es: seq<LdtkEntity>, worldX: int, worldY: int)
    ensures var r := ProcessEntities(env, t, layerId, es, worldX, worldY);
      LoadsOnce(t.loaded, r.1, r.0.loaded)
  {
    if es != [] {
      var init := es[..|es| - 1];
      EntitiesLoadEachPositionOnce(env, t, layerId, init, worldX, worldY);
      var before := ProcessEntities(env, t, layerId, init, worldX, worldY);
      StepLoadsOnce(env, before.0, layerId, es[|es| - 1], worldX, worldY);
      var step := StepEntity(env, before.0, layerId, es[|es| - 1], worldX, worldY);
      LoadsOnceCompose(t.loaded, before.1, before.0.loaded, step.1, step.0.loaded);
    } else {
      assert Keys([]) == [];
    }
  }

  /** The same over whole levels: no position is ever given two sprites. */
  lemma {:induction false} LayersLoadEachPositionOnce(env: Env, t: Tracking, layers: seq<Layer>, worldX: int, worldY: int)
    ensures var r := ProcessLayers(env, t, layers, worldX, worldY);
      LoadsOnce(t.loaded, r.1, r.0.loaded)
  {
    if layers != [] {
      var init := layers[..|layers| - 1];
      LayersLoadEachPositionOnce(env, t, init, worldX, worldY);
      var before := ProcessLayers(env, t, init, worldX, worldY);
      var layer := layers[|layers| - 1];
      if layer.layerType == "Entities" {
        var t1 := before.0.(layers := before.0.layers[layer.identifier := []]);
        EntitiesLoadEachPositionOnce(env, t1, layer.identifier, layer.entityInstances, worldX, worldY);
        var step := ProcessLayer(env, before.0, layer, worldX, worldY);
        LoadsOnceCompose(t.loaded, before.1, before.0.loaded, step.1, step.0.loaded);
      }
    } else {
      assert Keys([]) == [];
    }
  }

  /** Every entity is left either at a loaded position or without a loaded texture. */
  predicate Settled(env: Env, loaded: set<string>, es: seq<LdtkEntity>, worldX: int, worldY: int)
  {
    forall i :: 0 <= i < |es| ==> PositionKey(es[i], worldX, worldY) in loaded || !Creatable(env, es[i])
  }

  /** Settled entities stay settled as more positions load, and one more settled entity can join them. */
  lemma SettledExtend(env: Env, l0: set<string>, l1: set<string>, es: seq<LdtkEntity>, worldX: int, worldY: int)
    requires es != [] && Settled(env, l0, es[..|es| - 1], worldX, worldY) && l0 <= l1
    requires PositionKey(es[|es| - 1], worldX, worldY) in l1 || !Creatable(env, es[|es| - 1])
    ensures Settled(env, l1, es, worldX, worldY)
  {
    forall i | 0 <= i < |es| - 1
      ensures PositionKey(es[i], worldX, worldY) in l1 || !Creatable(env, es[i])
    {
      assert es[i] == es[..|es| - 1][i];
    }
  }

  /** Dropping the last of settled entities leaves them settled. */
  lemma SettledInit(env: Env, loaded: set<string>, es: seq<LdtkEntity>, worldX: int, worldY: int)
    requires es != [] && Settled(env, loaded, es, worldX, worldY)
    ensures Settled(env, loaded, es[..|es| - 1], worldX, worldY)
    ensures PositionKey(es[|es| - 1], worldX, worldY) in loaded || !Creatable(env, es[|es| - 1])
  {
    var init := es[..|es| - 1];
    forall i | 0 <= i < |init|
      ensures PositionKey(init[i], worldX, worldY) in loaded || !Creatable(env, init[i])
    {
      assert init[i] == es[i];
    }
  }

  /** Both parts of a settled sequence are settled. */
  lemma SettledSplit(env: Env, loaded: set<string>, a: seq<LdtkEntity>, b: seq<LdtkEntity>, worldX: int, worldY: int)
    requires Settled(env, loaded, a + b, worldX, worldY)
    ensures Settled(env, loaded, a, worldX, worldY) && Settled(env, loaded, b, worldX, worldY)
  {
    forall i | 0 <= i < |a|
      ensures PositionKey(a[i], worldX, worldY) in loaded || !Creatable(env, a[i])
    {
      assert a[i] == (a + b)[i];
    }
    forall i | 0 <= i < |b|
      ensures PositionKey(b[i], worldX, worldY) in loaded || !Creatable(env, b[i])
    {
      assert b[i] == (a + b)[|a| + i];
    }
  }

  lemma {:induction false} ProcessingSettles(env: Env, t: Tracking, layerId: string, es: seq<LdtkEntity>, worldX: int, worldY: int)
    ensures var r := ProcessEntities(env, t, layerId, es, worldX, worldY);
      t.loaded <= r.0.loaded && Settled(env, r.0.loaded, es, worldX, worldY)
  {
    if es != [] {
      var init, e := es[..|es| - 1], es[|es| - 1];
      ProcessingSettles(env, t, layerId, init, worldX, worldY);
      var before := ProcessEntities(env, t, layerId, init, worldX, worldY);
      var step := StepEntity(env, before.0, layerId, e, worldX, worldY);
      SettledExtend(env, before.0.loaded, step.0.loaded, es, worldX, worldY);
    }
  }

  /** Processing settled entities creates nothing and loads nothing. */
  lemma {:induction false} SettledCreatesNothing(env: Env, t: Tracking, layerId: string, es: seq<LdtkEntity>, worldX: int, worldY: int)
    requires Settled(env, t.loaded, es, worldX, worldY)
    ensures var r := ProcessEntities(env, t, layerId, es, worldX, worldY);
      r.1 == [] && r.0.loaded == t.loaded
  {
    if es != [] {
      SettledInit(env, t.loaded, es, worldX, worldY);
      SettledCreatesNothing(env, t, layerId, es[..|es| - 1], worldX, worldY);
    }
  }

  /** The entities of a level's "Entities" layers. */
  function LevelEntities(layers: seq<Layer>): seq<LdtkEntity>
  {
    if layers == [] then []
    else
      var layer := layers[|layers| - 1];
      LevelEntities(layers[..|layers| - 1]) + (if layer.layerType == "Entities" then layer.entityInstances else [])
  }

  /** A settled sequence stays settled when more positions are loaded. */
  lemma SettledGrows(env: Env, l0: set<string>, l1: set<string>, es: seq<LdtkEntity>, worldX: int, worldY: int)
    requires Settled(env, l0, es, worldX, worldY) && l0 <= l1
    ensures Settled(env, l1, es, worldX, worldY)
  {
  }

  /** Settled groups of entities join into one settled sequence. */
  lemma SettledJoin(env: Env, loaded: set<string>, a: seq<LdtkEntity>, b: seq<LdtkEntity>, worldX: int, worldY: int)
    requires Settled(env, loaded, a, worldX, worldY) && Settled(env, loaded, b, worldX, worldY)
    ensures Settled(env, loaded, a + b, worldX, worldY)
  {
    var all := a + b;
    forall i | 0 <= i < |all|
      ensures PositionKey(all[i], worldX, worldY) in loaded || !Creatable(env, all[i])
    {
      if i < |a| {
        assert all[i] == a[i];
      } else {
        assert all[i] == b[i - |a|];
      }
    }
  }

  lemma {:induction false} LayersSettle(env: Env, t: Tracking, layers: seq<Layer>, worldX: int, worldY: int)
    ensures var r := ProcessLayers(env, t, layers, worldX, worldY);
      t.loaded <= r.0.loaded && Settled(env, r.0.loaded, LevelEntities(layers), worldX, worldY)
  {
    if layers != [] {
      var init := layers[..|layers| - 1];
      LayersSettle(env, t, init, worldX, worldY);
      var before := ProcessLayers(env, t, init, worldX, worldY);
      var layer := layers[|layers| - 1];
      if layer.layerType == "Entities" {
        var t1 := before.0.(layers := before.0.layers[layer.identifier := []]);
        ProcessingSettles(env, t1, layer.identifier, layer.entityInstances, worldX, worldY);
        var after := ProcessLayer(env, before.0, layer, worldX, worldY).0.loaded;
        SettledGrows(env, before.0.loaded, after, LevelEntities(init), worldX, worldY);
        SettledJoin(env, after, LevelEntities(init), layer.entityInstances, worldX, worldY);
      } else {
        assert LevelEntities(layers) == LevelEntities(init) + [];
      }
    }
  }

  lemma {:induction false} SettledLayersCreateNothing(env: Env, t: Tracking, layers: seq<Layer>, worldX: int, worldY: int)
    requires Settled(env, t.loaded, LevelEntities(layers), worldX, worldY)
    ensures var r := ProcessLayers(env, t, layers, worldX, worldY);
      r.1 == [] && r.0.loaded == t.loaded
  {
    if layers != [] {
      var init := layers[..|layers| - 1];
      var layer := layers[|layers| - 1];
      var extra := if layer.layerType == "Entities" then layer.entityInstances else [];
      assert LevelEntities(layers) == LevelEntities(init) + extra;
      SettledSplit(env, t.loaded, LevelEntities(init), extra, worldX, worldY);
      SettledLayersCreateNothing(env, t, init, worldX, worldY);
      if layer.layerType == "Entities" {
        var before := ProcessLayers(env, t, init, worldX, worldY);
        var t1 := before.0.(layers := before.0.layers[layer.identifier := []]);
        SettledCreatesNothing(env, t1, layer.identifier, extra, worldX, worldY);
      }
    }
  }

  /**
   * Loading a level, cleaning up and loading it again at the same offset
   * creates no sprite the second time: cleanup keeps the loaded positions.
   */
  lemma ReloadAfterCleanupCreatesNothing(env: Env, t: Tracking, level: LevelData, worldX: int, worldY: int)
    ensures var first := ProcessLayers(env, t, LayersOf(level), worldX, worldY);
      ProcessLayers(env, Cleanup(first.0), LayersOf(level), worldX, worldY).1 == []
  {
    LayersSettle(env, t, LayersOf(level), worldX, worldY);
    var first := ProcessLayers(env, t, LayersOf(level), worldX, worldY);
    SettledLayersCreateNothing(env, Cleanup(first.0), LayersOf(level), worldX, worldY);
  }

  // ---------------------------------------------------------------------------
  // The manager
  // ---------------------------------------------------------------------------

  class LdtkEntityManager {
    const env: Env
    var entityInstances: map<string, Sprite>
    var entityLayers: map<string, seq<Sprite>>
    var entityFactories: map<string, nat>
    var loadedEntityPositions: set<string>
    var nextSerial: nat
    var pendingRetries: seq<Retry>

    /** The tracked state as a value. */
    function Snapshot(): Tracking
      reads this
    {
      Tracking(entityInstances, entityLayers, loadedEntityPositions, nextSerial, pendingRetries)
    }

    /** Every scheduled retry is one of the five allowed attempts. */
    predicate Valid()
      reads this
    {
      forall i :: 0 <= i < |pendingRetries| ==> 1 <= pendingRetries[i].retryCount <= MaxRetries
    }

    constructor (env: Env)
      ensures this.env == env && Valid()
      ensures entityInstances == map[] && entityLayers == map[] && entityFactories == map[]
      ensures loadedEntityPositions == {} && pendingRetries == []
    {
      this.env := env;
      entityInstances := map[];
      entityLayers := map[];
      entityFactories := map[];
      loadedEntityPositions := {};
      nextSerial := 0;
      pendingRetries := [];
    }

    /** registerEntityFactories: each (type, factory) entry is stored, later entries winning. */
    method RegisterEntityFactories(factories: seq<(string, nat)>)
      modifies this
      ensures forall k :: k in entityFactories <==> k in old(entityFactories) || exists i :: 0 <= i < |factories| && factories[i].0 == k
      ensures forall i :: 0 <= i < |factories| && (forall j :: i < j < |factories| ==> factories[j].0 != factories[i].0) ==>
        entityFactories[factories[i].0] == factories[i].1
      ensures Snapshot() == old(Snapshot())
    {
      var n := 0;
      while n < |factories|
        invariant n <= |factories|
        invariant forall k :: k in entityFactories <==> k in old(entityFactories) || exists i :: 0 <= i < n && factories[i].0 == k
        invariant forall i :: 0 <= i < n && (forall j :: i < j < n ==> factories[j].0 != factories[i].0) ==>
          entityFactories[factories[i].0] == factories[i].1
        invariant Snapshot() == old(Snapshot())
      {
        entityFactories := entityFactories[factories[n].0 := factories[n].1];
        n := n + 1;
      }
    }

    /** createEntityInstance (the texture check, the retry timer and the sprite). */
    method CreateEntityInstance(e: LdtkEntity, worldX: int, worldY: int, retryCount: nat) returns (instance: Option<Sprite>)
      requires Valid() && retryCount <= MaxRetries
      modifies this
      ensures Valid() && entityFactories == old(entityFactories)
      ensures (Snapshot(), instance) == CreateInstance(env, old(Snapshot()), e, worldX, worldY, retryCount)
    {
      var spritesheet := env.sheetFor(ToLower(e.identifier));
      if spritesheet !in env.textures {
        if retryCount < MaxRetries {
          pendingRetries := pendingRetries + [Retry(e, worldX, worldY, retryCount + 1)];
        }
        return None;
      }
      instance := Some(Sprite(nextSerial, e.px0 + worldX, e.px1 + worldY, spritesheet));
      nextSerial := nextSerial + 1;
    }

    /** The timer of the oldest scheduled retry fires: the attempt is repeated and its sprite is not registered. */
    method FireRetry()
      requires Valid() && |pendingRetries| > 0
      modifies this
      ensures Valid() && entityFactories == old(entityFactories)
      ensures var r := old(pendingRetries[0]);
        Snapshot() == CreateInstance(env, old(Snapshot()).(retries := old(pendingRetries[1..])), r.entity, r.worldX, r.worldY, r.retryCount).0
    {
      var r := pendingRetries[0];
      pendingRetries := pendingRetries[1..];
      var _ := CreateEntityInstance(r.entity, r.worldX, r.worldY, r.retryCount);
    }

    /** tryCreateEntity: a first attempt; a thrown error is not modelled. */
    method TryCreateEntity(e: LdtkEntity, worldX: int, worldY: int, key: string) returns (instance: Option<Sprite>)
      requires Valid()
      modifies this
      ensures Valid() && entityFactories == old(entityFactories)
      ensures (Snapshot(), instance) == CreateInstance(env, old(Snapshot()), e, worldX, worldY, 0)
    {
      instance := CreateEntityInstance(e, worldX, worldY, 0);
    }

    /** registerEntity: records the iid, the layer membership and the position, and appends to `created`. */
    method RegisterEntity(instance: Sprite, e: LdtkEntity, layerId: string, key: string, created: seq<Sprite>) returns (created': seq<Sprite>)
      modifies this
      ensures created' == created + [instance]
      ensures Snapshot() == Register(old(Snapshot()), instance, e, layerId, key)
      ensures entityFactories == old(entityFactories) && pendingRetries == old(pendingRetries)
    {
      entityInstances := entityInstances[e.iid := instance];
      var members := if layerId in entityLayers then entityLayers[layerId] else [];
      entityLayers := entityLayers[layerId := SetAdd(members, instance)];
      loadedEntityPositions := loadedEntityPositions + {key};
      created' := created + [instance];
    }

    /** processEntityLayer */
    method ProcessEntityLayer(layer: Layer, worldX: int, worldY: int) returns (created: seq<Sprite>)
      requires Valid()
      modifies this
      ensures Valid() && entityFactories == old(entityFactories)
      ensures (Snapshot(), created) == ProcessLayer(env, old(Snapshot()), layer, worldX, worldY)
    {
      created := [];
      entityLayers := entityLayers[layer.identifier := []];
      ghost var start := Snapshot();
      var i := 0;
      while i < |layer.entityInstances|
        invariant i <= |layer.entityInstances| && Valid() && entityFactories == old(entityFactories)
        invariant (Snapshot(), created) == ProcessEntities(env, start, layer.identifier, layer.entityInstances[..i], worldX, worldY)
      {
        ProcessEntitiesStep(env, start, layer.identifier, layer.entityInstances, i, worldX, worldY);
        created := ProcessEntity(layer.entityInstances[i], layer.identifier, worldX, worldY, created);
        i := i + 1;
      }
      assert layer.entityInstances[..i] == layer.entityInstances;
    }

    /** The body of processEntityLayer's loop: one entity, skipped when its position is loaded. */
    method ProcessEntity(e: LdtkEntity, layerId: string, worldX: int, worldY: int, created: seq<Sprite>) returns (created': seq<Sprite>)
      requires Valid()
      modifies this
      ensures Valid() && entityFactories == old(entityFactories)
      ensures var step := StepEntity(env, old(Snapshot()), layerId, e, worldX, worldY);
        Snapshot() == step.0 && created' == created + step.1
    {
      created' := created;
      var positionKey := PositionKey(e, worldX, worldY);
      if positionKey !in loadedEntityPositions {
        var instance := TryCreateEntity(e, worldX, worldY, positionKey);
        if instance.Some? {
          created' := RegisterEntity(instance.value, e, layerId, positionKey, created);
        }
      }
    }

    /** createEntities: every "Entities" layer of the level, in order. */
    method CreateEntities(level: LevelData, worldX: int, worldY: int) returns (created: seq<Sprite>)
      requires Valid()
      modifies this
      ensures Valid() && entityFactories == old(entityFactories)
      ensures (Snapshot(), created) == ProcessLayers(env, old(Snapshot()), LayersOf(level), worldX, worldY)
    {
      var layers := if level.layerInstances.Some? then level.layerInstances.value else [];
      created := [];
      var i := 0;
      while i < |layers|
        invariant i <= |layers| && Valid() && entityFactories == old(entityFactories)
        invariant (Snapshot(), created) == ProcessLayers(env, old(Snapshot()), layers[..i], worldX, worldY)
      {
        var layer := layers[i];
        assert layers[..i + 1][..i] == layers[..i];
        if layer.layerType == "Entities" {
          var layerEntities := ProcessEntityLayer(layer, worldX, worldY);
          created := created + layerEntities;
        }
        i := i + 1;
      }
      assert layers[..i] == layers;
    }

    /** createFallbackEntity: a sprite with the fallback texture at the world position. */
    method CreateFallbackEntity(e: LdtkEntity, worldX: int, worldY: int) returns (s: Sprite)
      modifies this
      ensures s == Sprite(old(nextSerial), e.px0 + worldX, e.px1 + worldY, FallbackTexture)
      ensures nextSerial == old(nextSerial) + 1
      ensures Snapshot() == old(Snapshot()).(nextSerial := nextSerial) && entityFactories == old(entityFactories)
    {
      s := Sprite(nextSerial, e.px0 + worldX, e.px1 + worldY, FallbackTexture);
      nextSerial := nextSerial + 1;
    }

    /** getEntityById */
    function GetEntityById(iid: string): (r: Option<Sprite>)
      reads this
      ensures r.Some? <==> iid in entityInstances
      ensures r.Some? ==> r.value == entityInstances[iid]
    {
      if iid in entityInstances then Some(entityInstances[iid]) else None
    }

    /** getEntitiesByLayer: an unknown layer reads as an empty set. */
    function GetEntitiesByLayer(layerName: string): (r: seq<Sprite>)
      reads this
      ensures layerName in entityLayers ==> r == entityLayers[layerName]
      ensures layerName !in entityLayers ==> r == []
    {
      if layerName in entityLayers then entityLayers[layerName] else []
    }

    /** cleanup */
    method CleanupEntities()
      modifies this
      ensures Snapshot() == Cleanup(old(Snapshot())) && entityFactories == old(entityFactories)
    {
      entityInstances := map[];
      entityLayers := map[];
    }
  }

  /**
   * processEntityFields: for an array, each field with a truthy identifier
   * stores its value under that name (a later field with the same name
   * wins); anything else gives an empty object.
   */
  method ProcessEntityFields(fieldInstances: Option<seq<Value>>) returns (properties: map<string, Value>)
    ensures fieldInstances.None? ==> properties == map[]
    ensures fieldInstances.Some? ==> forall k ::
      k in properties <==> LastFieldFor(fieldInstances.value, k, |fieldInstances.value|).Some?
    ensures fieldInstances.Some? ==> forall k :: k in properties ==>
      properties[k] == FieldValue(fieldInstances.value[LastFieldFor(fieldInstances.value, k, |fieldInstances.value|).value])
  {
    properties := map[];
    if fieldInstances.Some? {
      var fields := fieldInstances.value;
      var i := 0;
      while i < |fields|
        invariant i <= |fields|
        invariant forall k :: k in properties <==> LastFieldFor(fields, k, i).Some?
        invariant forall k :: k in properties ==> properties[k] == FieldValue(fields[LastFieldFor(fields, k, i).value])
      {
        var key := FieldKey(fields[i]);
        if key.Some? {
          properties := properties[key.value := FieldValue(fields[i])];
        }
        i := i + 1;
      }
    }
  }
}
