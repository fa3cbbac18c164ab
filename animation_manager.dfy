/**
 * The animation manager: the game's animations are registered in the
 * scene's animation table once, at start-up, each only if its key is free
 * (and, for textures loaded from sheets, only if the texture is loaded);
 * the HUD's health bar steps frame by frame through a temporary animation
 * that is removed again when it completes.
 */
module Animations {
  import opened JsValues

  /** A frame of an animation: a texture, and a frame index unless the whole texture is the frame. */
  datatype Frame = Frame(texture: string, index: Option<int>)

  datatype Anim = Anim(frames: seq<Frame>, frameRate: int, repeat: int)

  /** The scene's animation table. */
  type AnimTable = map<string, Anim>

  /** An entry of the sheet-based animation lists. */
  datatype AnimSpec = AnimSpec(key: string, texture: string, start: int, end: int, frameRate: int, repeat: int)

  /** What `once('animationcomplete')` was given: the key to remove, the frame to show, and whether there is a callback. */
  datatype Completion = Completion(animKey: string, targetFrame: int, hasCallback: bool)

  const HealthTexture := "health"
  const TransitionFrameRate := 8

  const CharacterAnimations: seq<AnimSpec> := [
    AnimSpec("character_Idle", "character_idle", 0, 3, 8, -1),
    AnimSpec("character_Walk", "character_walk", 0, 5, 10, -1),
    AnimSpec("character_Death", "character_death", 0, 5, 8, 0),
    AnimSpec("character_Jump", "character_jump", 0, 1, 10, 0),
    AnimSpec("character_Fall", "character_fall", 0, 1, 10, 0),
    AnimSpec("character_Roll", "character_roll", 0, 3, 15, 0)
  ]

  const EnemyAnimations: seq<AnimSpec> := [
    AnimSpec("meleewarrior_attack1", "melee_warrior_attack1", 0, 6, 8, 0),
    AnimSpec("meleewarrior_attack2", "melee_warrior_attack2", 0, 6, 8, 0),
    AnimSpec("meleewarrior_attack3", "melee_warrior_attack3", 0, 6, 8, 0),
    AnimSpec("meleewarrior_death", "melee_warrior_death", 0, 8, 8, 0),
    AnimSpec("meleewarrior_defend", "melee_warrior_defend", 0, 3, 8, 0),
    AnimSpec("meleewarrior_walk", "melee_warrior_walk", 0, 7, 8, -1),
    AnimSpec("meleewarrior_hurt", "melee_warrior_hurt", 0, 3, 8, 0),
    AnimSpec("meleewarrior_jump", "melee_warrior_jump", 0, 3, 8, 0),
    AnimSpec("meleewarrior_idle", "melee_warrior_idle", 0, 5, 8, -1),
    AnimSpec("zapper_idle", "zapper_idle", 0, 0, 8, -1),
    AnimSpec("zapper_wake", "zapper_wake", 0, 5, 8, 0),
    AnimSpec("zapper_walk", "zapper_walk", 0, 5, 8, -1),
    AnimSpec("zapper_attack", "zapper_attack", 0, 9, 15, 0),
    AnimSpec("zapper_shock", "zapper_shock", 0, 3, 8, 0),
    AnimSpec("zapper_death", "zapper_death", 0, 7, 8, 0)
  ]

  const BulletSpec := AnimSpec("bullet_animation", "bullet_animation", 0, 3, 10, -1)
  const PreloaderSpec := AnimSpec("loading", "preloader", 0, 15, 12, -1)

  // ---------------------------------------------------------------------------
  // The animation table as values
  // ---------------------------------------------------------------------------

  /**
   * `generateFrameNumbers(texture, {start, end})`: the frames start..end
   * the texture has (`textures` maps each loaded texture to its frame count).
   */
  function FrameNumbers(textures: map<string, nat>, texture: string, start: int, end: int): (fs: seq<Frame>)
    ensures forall f :: f in fs ==> f.texture == texture && f.index.Some? && start <= f.index.value <= end
    ensures texture in textures ==> forall f :: f in fs ==> f.index.value < textures[texture]
    ensures texture !in textures ==> fs == []
    ensures texture in textures ==>
      forall i :: start <= i <= end && 0 <= i < textures[texture] ==> Frame(texture, Some(i)) in fs
    decreases end - start
  {
    if texture !in textures || end < start then []
    else
      var last := if 0 <= end < textures[texture] then [Frame(texture, Some(end))] else [];
      FrameNumbers(textures, texture, start, end - 1) + last
  }

  /** `anims.create` keeps an animation already registered under the key. */
  function CreateIfAbsent(table: AnimTable, key: string, a: Anim): (r: AnimTable)
    ensures key in r && (key in table ==> r == table) && (key !in table ==> r[key] == a)
    ensures forall k :: k in r <==> k in table || k == key
    ensures Extends(table, r)
  {
    if key in table then table else table[key := a]
  }

  function SheetAnim(textures: map<string, nat>, s: AnimSpec): Anim
  {
    Anim(FrameNumbers(textures, s.texture, s.start, s.end), s.frameRate, s.repeat)
  }

  /** One character animation: skipped when its texture is not loaded. */
  function CharacterStep(textures: map<string, nat>, table: AnimTable, s: AnimSpec): AnimTable
  {
    if s.texture !in textures then table else CreateIfAbsent(table, s.key, SheetAnim(textures, s))
  }

  /** One enemy animation: skipped too when the texture yields no frames. */
  function EnemyStep(textures: map<string, nat>, table: AnimTable, s: AnimSpec): AnimTable
  {
    if s.texture !in textures || s.key in table || SheetAnim(textures, s).frames == [] then table
    else table[s.key := SheetAnim(textures, s)]
  }

  function Characters(textures: map<string, nat>, table: AnimTable, specs: seq<AnimSpec>): AnimTable
  {
    if specs == [] then table
    else CharacterStep(textures, Characters(textures, table, specs[..|specs| - 1]), specs[|specs| - 1])
  }

  function Enemies(textures: map<string, nat>, table: AnimTable, specs: seq<AnimSpec>): AnimTable
  {
    if specs == [] then table
    else EnemyStep(textures, Enemies(textures, table, specs[..|specs| - 1]), specs[|specs| - 1])
  }

  const BitcoinSpin := Anim([
    Frame("bitcoin_1", None), Frame("bitcoin_2", None), Frame("bitcoin_3", None), Frame("bitcoin_4", None),
    Frame("bitcoin_5", None), Frame("bitcoin_6", None), Frame("bitcoin_7", None), Frame("bitcoin_8", None)], 10, -1)

  /** The still animations `<name>_0` .. `<name>_(n-1)`, one frame each. */
  function HudFrames(table: AnimTable, name: string, n: nat): AnimTable
  {
    if n == 0 then table
    else CreateIfAbsent(HudFrames(table, name, n - 1), name + "_" + IntToString(n - 1), Anim([Frame(name, Some(n - 1))], 0, 0))
  }

  /** The ten still frames of a HUD bar, unless `<name>_0` is already registered. */
  function HudBar(table: AnimTable, name: string): AnimTable
  {
    if name + "_0" in table then table else HudFrames(table, name, 10)
  }

  /** createAllAnimations, group by group, over the given character and enemy lists. */
  function CreateAllFrom(textures: map<string, nat>, table: AnimTable, characters: seq<AnimSpec>, enemies: seq<AnimSpec>): AnimTable
  {
    var bullets := CreateIfAbsent(table, BulletSpec.key, SheetAnim(textures, BulletSpec));
    var withCharacters := Characters(textures, bullets, characters);
    var withEnemies := Enemies(textures, withCharacters, enemies);
    var bitcoin := CreateIfAbsent(withEnemies, "bitcoin_spin", BitcoinSpin);
    var hud := HudBar(HudBar(bitcoin, "health"), "stamina");
    CreateIfAbsent(hud, PreloaderSpec.key, SheetAnim(textures, PreloaderSpec))
  }

  /** createAllAnimations with the game's lists. */
  function CreateAll(textures: map<string, nat>, table: AnimTable): AnimTable
  {
    CreateAllFrom(textures, table, CharacterAnimations, EnemyAnimations)
  }

  // ---------------------------------------------------------------------------
  // Creating everything twice changes nothing
  // ---------------------------------------------------------------------------

  /** `b` keeps every animation of `a`. */
  predicate Extends(a: AnimTable, b: AnimTable)
  {
    forall k :: k in a ==> k in b && b[k] == a[k]
  }

  /** The animations of the list that would be created are all registered. */
  predicate HasCharacters(textures: map<string, nat>, table: AnimTable, specs: seq<AnimSpec>)
  {
    forall i :: 0 <= i < |specs| ==> specs[i].texture !in textures || specs[i].key in table
  }

  predicate HasEnemies(textures: map<string, nat>, table: AnimTable, specs: seq<AnimSpec>)
  {
    forall i :: 0 <= i < |specs| ==>
      specs[i].texture !in textures || SheetAnim(textures, specs[i]).frames == [] || specs[i].key in table
  }

  lemma {:induction false} CharactersRegister(textures: map<string, nat>, table: AnimTable, specs: seq<AnimSpec>)
    ensures Extends(table, Characters(textures, table, specs))
    ensures HasCharacters(textures, Characters(textures, table, specs), specs)
  {
    if specs != [] {
      var init := specs[..|specs| - 1];
      CharactersRegister(textures, table, init);
      var before := Characters(textures, table, init);
      assert forall i :: 0 <= i < |init| ==> specs[i] == init[i];
    }
  }

  lemma {:induction false} CharactersSettled(textures: map<string, nat>, table: AnimTable, specs: seq<AnimSpec>)
    requires HasCharacters(textures, table, specs)
    ensures Characters(textures, table, specs) == table
  {
    if specs != [] {
      var init := specs[..|specs| - 1];
      assert HasCharacters(textures, table, init) by {
        assert forall i :: 0 <= i < |init| ==> init[i] == specs[i];
      }
      CharactersSettled(textures, table, init);
    }
  }

  lemma {:induction false} EnemiesRegister(textures: map<string, nat>, table: AnimTable, specs: seq<AnimSpec>)
    ensures Extends(table, Enemies(textures, table, specs))
    ensures HasEnemies(textures, Enemies(textures, table, specs), specs)
  {
    if specs != [] {
      var init := specs[..|specs| - 1];
      EnemiesRegister(textures, table, init);
      assert forall i :: 0 <= i < |init| ==> specs[i] == init[i];
    }
  }

  lemma {:induction false} EnemiesSettled(textures: map<string, nat>, table: AnimTable, specs: seq<AnimSpec>)
    requires HasEnemies(textures, table, specs)
    ensures Enemies(textures, table, specs) == table
  {
    if specs != [] {
      var init := specs[..|specs| - 1];
      assert HasEnemies(textures, table, init) by {
        assert forall i :: 0 <= i < |init| ==> init[i] == specs[i];
      }
      EnemiesSettled(textures, table, init);
    }
  }

  lemma {:induction false} HudFramesExtend(table: AnimTable, name: string, n: nat)
    ensures Extends(table, HudFrames(table, name, n))
    ensures n > 0 ==> name + "_0" in HudFrames(table, name, n)
  {
    if n > 0 {
      HudFramesExtend(table, name, n - 1);
      if n == 1 {
        assert IntToString(0) == "0";
      }
    }
  }

  lemma HudBarRegisters(table: AnimTable, name: string)
    ensures Extends(table, HudBar(table, name)) && name + "_0" in HudBar(table, name)
  {
    HudFramesExtend(table, name, 10);
  }

  lemma ExtendsTransitive(a: AnimTable, b: AnimTable, c: AnimTable)
    requires Extends(a, b) && Extends(b, c)
    ensures Extends(a, c)
  {
  }

  lemma HasCharactersKept(textures: map<string, nat>, a: AnimTable, b: AnimTable, specs: seq<AnimSpec>)
    requires HasCharacters(textures, a, specs) && Extends(a, b)
    ensures HasCharacters(textures, b, specs)
  {
  }

  lemma HasEnemiesKept(textures: map<string, nat>, a: AnimTable, b: AnimTable, specs: seq<AnimSpec>)
    requires HasEnemies(textures, a, specs) && Extends(a, b)
    ensures HasEnemies(textures, b, specs)
  {
  }

  /** The first pass keeps every existing animation and registers every group it creates. */
  lemma CreateAllFromRegisters(textures: map<string, nat>, table: AnimTable, characters: seq<AnimSpec>, enemies: seq<AnimSpec>)
    ensures var done := CreateAllFrom(textures, table, characters, enemies);
      && Extends(table, done)
      && HasCharacters(textures, done, characters) && HasEnemies(textures, done, enemies)
      && BulletSpec.key in done && "bitcoin_spin" in done && "health" + "_0" in done && "stamina" + "_0" in done
      && PreloaderSpec.key in done
  {
    var bullets := CreateIfAbsent(table, BulletSpec.key, SheetAnim(textures, BulletSpec));
    var withCharacters := Characters(textures, bullets, characters);
    var withEnemies := Enemies(textures, withCharacters, enemies);
    var bitcoin := CreateIfAbsent(withEnemies, "bitcoin_spin", BitcoinSpin);
    var health := HudBar(bitcoin, "health");
    var hud := HudBar(health, "stamina");
    var done := CreateIfAbsent(hud, PreloaderSpec.key, SheetAnim(textures, PreloaderSpec));
    CharactersRegister(textures, bullets, characters);
    EnemiesRegister(textures, withCharacters, enemies);
    HudBarRegisters(bitcoin, "health");
    HudBarRegisters(health, "stamina");
    ExtendsTransitive(health, hud, done);
    ExtendsTransitive(bitcoin, health, done);
    ExtendsTransitive(withEnemies, bitcoin, done);
    ExtendsTransitive(withCharacters, withEnemies, done);
    ExtendsTransitive(bullets, withCharacters, done);
    ExtendsTransitive(table, bullets, done);
    HasCharactersKept(textures, withCharacters, done, characters);
    HasEnemiesKept(textures, withEnemies, done, enemies);
  }

  /** Running the whole registration over its own result changes nothing, whatever the lists. */
  lemma CreateAllFromIdempotent(textures: map<string, nat>, table: AnimTable, characters: seq<AnimSpec>, enemies: seq<AnimSpec>)
    ensures Extends(table, CreateAllFrom(textures, table, characters, enemies))
    ensures var done := CreateAllFrom(textures, table, characters, enemies);
      CreateAllFrom(textures, done, characters, enemies) == done
  {
    var done := CreateAllFrom(textures, table, characters, enemies);
    CreateAllFromRegisters(textures, table, characters, enemies);
    // the second pass finds every key in place
    assert CreateIfAbsent(done, BulletSpec.key, SheetAnim(textures, BulletSpec)) == done;
    CharactersSettled(textures, done, characters);
    EnemiesSettled(textures, done, enemies);
    assert CreateIfAbsent(done, "bitcoin_spin", BitcoinSpin) == done;
    assert HudBar(HudBar(done, "health"), "stamina") == done;
  }

  /** Registering the animations a second time leaves the table as the first time left it. */
  lemma CreateAllIdempotent(textures: map<string, nat>, table: AnimTable)
    ensures Extends(table, CreateAll(textures, table))
    ensures CreateAll(textures, CreateAll(textures, table)) == CreateAll(textures, table)
  {
    CreateAllFromIdempotent(textures, table, CharacterAnimations, EnemyAnimations);
  }

  // ---------------------------------------------------------------------------
  // The health bar transition's frame list
  // ---------------------------------------------------------------------------

  function Abs(n: int): nat
  {
    if n < 0 then -n else n
  }

  /** +1 when counting up to the target, -1 otherwise. */
  function Step(prevFrame: int, targetFrame: int): int
  {
    if targetFrame > prevFrame then 1 else -1
  }

  /**
   * The frame list of a transition: prevFrame to targetFrame inclusive,
   * one frame at a time, so |target - prev| + 1 frames.
   */
  method BuildFrames(prevFrame: int, targetFrame: int) returns (frames: seq<Frame>)
    ensures |frames| == Abs(targetFrame - prevFrame) + 1
    ensures forall i :: 0 <= i < |frames| ==> frames[i] == Frame(HealthTexture, Some(prevFrame + i * Step(prevFrame, targetFrame)))
    ensures frames[0].index == Some(prevFrame) && frames[|frames| - 1].index == Some(targetFrame)
  {
    frames := [];
    if targetFrame > prevFrame {
      var i := prevFrame;
      while i <= targetFrame
        invariant prevFrame <= i <= targetFrame + 1 && |frames| == i - prevFrame
        invariant forall j :: 0 <= j < |frames| ==> frames[j] == Frame(HealthTexture, Some(prevFrame + j))
      {
        frames := frames + [Frame(HealthTexture, Some(i))];
        i := i + 1;
      }
    } else {
      var i := prevFrame;
      while i >= targetFrame
        invariant targetFrame - 1 <= i <= prevFrame && |frames| == prevFrame - i
        invariant forall j :: 0 <= j < |frames| ==> frames[j] == Frame(HealthTexture, Some(prevFrame - j))
      {
        frames := frames + [Frame(HealthTexture, Some(i))];
        i := i - 1;
      }
    }
  }

  /** A sprite's animation state: its frame, its current animation and its pending completion listeners. */
  class AnimatedSprite {
    var frame: int
    var currentAnim: Option<string>
    var isPlaying: bool
    var onceComplete: seq<Completion>

    constructor (frame: int)
      ensures this.frame == frame && currentAnim == None && !isPlaying && onceComplete == []
    {
      this.frame := frame;
      currentAnim := None;
      isPlaying := false;
      onceComplete := [];
    }

    /** `sprite.play(key, ignoreIfPlaying)`: kept when that animation is already playing and asked to be kept. */
    method Play(key: string, ignoreIfPlaying: bool)
      modifies this
      ensures if ignoreIfPlaying && old(isPlaying) && old(currentAnim) == Some(key)
        then currentAnim == old(currentAnim) && isPlaying
        else currentAnim == Some(key) && isPlaying
      ensures frame == old(frame) && onceComplete == old(onceComplete)
    {
      if !(ignoreIfPlaying && isPlaying && currentAnim == Some(key)) {
        currentAnim := Some(key);
        isPlaying := true;
      }
    }
  }

  /** The frame the last listener shows, or the given frame when there is none. */
  function LastTarget(listeners: seq<Completion>, otherwise: int): int
  {
    if listeners == [] then otherwise else listeners[|listeners| - 1].targetFrame
  }

  function CallbackCount(listeners: seq<Completion>): (n: nat)
    ensures n <= |listeners|
  {
    if listeners == [] then 0
    else CallbackCount(listeners[..|listeners| - 1]) + (if listeners[|listeners| - 1].hasCallback then 1 else 0)
  }

  /** The table once every listener has removed its animation, in order. */
  function WithoutListeners(table: AnimTable, listeners: seq<Completion>): AnimTable
  {
    if listeners == [] then table
    else WithoutListeners(table, listeners[..|listeners| - 1]) - {listeners[|listeners| - 1].animKey}
  }

  /** Exactly the listeners' keys are gone, and every other entry is as it was. */
  lemma {:induction false} WithoutListenersRemovesTheirKeys(table: AnimTable, listeners: seq<Completion>)
    ensures forall k :: k in WithoutListeners(table, listeners) <==> k in table && forall c :: c in listeners ==> c.animKey != k
    ensures forall k :: k in WithoutListeners(table, listeners) ==> WithoutListeners(table, listeners)[k] == table[k]
  {
    if listeners != [] {
      var init := listeners[..|listeners| - 1];
      WithoutListenersRemovesTheirKeys(table, init);
      assert listeners == init + [listeners[|listeners| - 1]];
    }
  }

  /** Running one more listener: its target is the last, its callback counts and its key goes. */
  lemma ListenerStep(listeners: seq<Completion>, i: nat, table: AnimTable, frame: int)
    requires i < |listeners|
    ensures LastTarget(listeners[..i + 1], frame) == listeners[i].targetFrame
    ensures CallbackCount(listeners[..i + 1]) == CallbackCount(listeners[..i]) + (if listeners[i].hasCallback then 1 else 0)
    ensures WithoutListeners(table, listeners[..i + 1]) == WithoutListeners(table, listeners[..i]) - {listeners[i].animKey}
  {
    assert listeners[..i + 1][..i] == listeners[..i];
  }

  class AnimationManager {
    const textures: map<string, nat>
    var anims: AnimTable
    var initialized: bool
    /** How many times the animation lists have been registered. */
    var creations: nat
    /** How many `onComplete` callbacks have run. */
    var callbacksRun: nat

    /** The animation lists are registered exactly when the manager is initialized, and at most once. */
    predicate Valid()
      reads this
    {
      creations == if initialized then 1 else 0
    }

    constructor (textures: map<string, nat>, anims: AnimTable)
      ensures this.textures == textures && this.anims == anims
      ensures !initialized && creations == 0 && callbacksRun == 0 && Valid()
    {
      this.textures := textures;
      this.anims := anims;
      initialized := false;
      creations := 0;
      callbacksRun := 0;
    }

    /** initialize: the first call registers everything, later calls do nothing. */
    method Initialize()
      requires Valid()
      modifies this
      ensures Valid() && initialized && creations == 1
      ensures anims == if old(initialized) then old(anims) else CreateAll(textures, old(anims))
      ensures callbacksRun == old(callbacksRun)
    {
      if !initialized {
        CreateAllAnimations();
        initialized := true;
      }
    }

    function HasAnimation(key: string): (b: bool)
      reads this
      ensures b <==> key in anims
    {
      key in anims
    }

    /** play: starts a registered animation on the sprite; false for an unknown key. */
    method PlayOn(sprite: AnimatedSprite, key: string, ignoreIfPlaying: bool) returns (played: bool)
      modifies sprite
      ensures played <==> key in anims
      ensures !played ==> sprite.currentAnim == old(sprite.currentAnim) && sprite.isPlaying == old(sprite.isPlaying)
      ensures played && !(ignoreIfPlaying && old(sprite.isPlaying) && old(sprite.currentAnim) == Some(key)) ==>
        sprite.currentAnim == Some(key) && sprite.isPlaying
      ensures sprite.frame == old(sprite.frame) && sprite.onceComplete == old(sprite.onceComplete)
    {
      if HasAnimation(key) {
        sprite.Play(key, ignoreIfPlaying);
        return true;
      }
      return false;
    }

    /** createAllAnimations */
    method CreateAllAnimations()
      modifies this
      ensures anims == CreateAll(textures, old(anims)) && creations == old(creations) + 1
      ensures initialized == old(initialized) && callbacksRun == old(callbacksRun)
    {
      anims := CreateIfAbsent(anims, BulletSpec.key, SheetAnim(textures, BulletSpec));
      CreateFromList(CharacterAnimations, false);
      CreateFromList(EnemyAnimations, true);
      anims := CreateIfAbsent(anims, "bitcoin_spin", BitcoinSpin);
      CreateHudBar("health");
      CreateHudBar("stamina");
      anims := CreateIfAbsent(anims, PreloaderSpec.key, SheetAnim(textures, PreloaderSpec));
      creations := creations + 1;
    }

    /** The loops of createCharacterAnimations (`enemies` false) and createEnemyAnimations (`enemies` true). */
    method CreateFromList(specs: seq<AnimSpec>, enemies: bool)
      modifies this
      ensures anims == if enemies then Enemies(textures, old(anims), specs) else Characters(textures, old(anims), specs)
      ensures creations == old(creations) && initialized == old(initialized) && callbacksRun == old(callbacksRun)
    {
      var i := 0;
      while i < |specs|
        invariant i <= |specs|
        invariant anims == if enemies then Enemies(textures, old(anims), specs[..i]) else Characters(textures, old(anims), specs[..i])
        invariant creations == old(creations) && initialized == old(initialized) && callbacksRun == old(callbacksRun)
      {
        var s := specs[i];
        assert specs[..i + 1][..i] == specs[..i];
        if s.texture in textures && s.key !in anims {
          var frames := FrameNumbers(textures, s.texture, s.start, s.end);
          if !enemies || frames != [] {
            anims := anims[s.key := Anim(frames, s.frameRate, s.repeat)];
          }
        }
        i := i + 1;
      }
      assert specs[..i] == specs;
    }

    /** The still frames `<name>_0` .. `<name>_9`, unless `<name>_0` is registered. */
    method CreateHudBar(name: string)
      modifies this
      ensures anims == HudBar(old(anims), name)
      ensures creations == old(creations) && initialized == old(initialized) && callbacksRun == old(callbacksRun)
    {
      if name + "_0" !in anims {
        var i := 0;
        while i <= 9
          invariant 0 <= i <= 10 && anims == HudFrames(old(anims), name, i)
          invariant creations == old(creations) && initialized == old(initialized) && callbacksRun == old(callbacksRun)
        {
          anims := CreateIfAbsent(anims, name + "_" + IntToString(i), Anim([Frame(name, Some(i))], 0, 0));
          i := i + 1;
        }
      }
    }

    /**
     * playHealthTransition: equal frames are set at once (and the callback
     * runs); otherwise a temporary animation keyed by the clock steps
     * through the frames and a completion listener is left on the sprite.
     * The shortcut for a frame list of at most one entry is proved dead.
     */
    method PlayHealthTransition(sprite: AnimatedSprite, prevFrame: int, targetFrame: int, hasCallback: bool, now: int)
      modifies this, sprite
      ensures prevFrame == targetFrame ==>
        && sprite.frame == targetFrame && anims == old(anims) && sprite.onceComplete == old(sprite.onceComplete)
        && callbacksRun == old(callbacksRun) + (if hasCallback then 1 else 0)
        && sprite.currentAnim == old(sprite.currentAnim) && sprite.isPlaying == old(sprite.isPlaying)
      ensures prevFrame != targetFrame ==> var key := "health_change_" + IntToString(now);
        && key in anims
        && (key !in old(anims) ==>
              && |anims[key].frames| == Abs(targetFrame - prevFrame) + 1
              && anims[key].frameRate == TransitionFrameRate && anims[key].repeat == 0
              && forall i :: 0 <= i < |anims[key].frames| ==>
                   anims[key].frames[i] == Frame(HealthTexture, Some(prevFrame + i * Step(prevFrame, targetFrame))))
        && anims == CreateIfAbsent(old(anims), key, anims[key])
        && sprite.currentAnim == Some(key) && sprite.isPlaying && sprite.frame == old(sprite.frame)
        && sprite.onceComplete == old(sprite.onceComplete) + [Completion(key, targetFrame, hasCallback)]
        && callbacksRun == old(callbacksRun)
      ensures initialized == old(initialized) && creations == old(creations)
    {
      if prevFrame == targetFrame {
        sprite.frame := targetFrame;
        if hasCallback {
          callbacksRun := callbacksRun + 1;
        }
        return;
      }
      var frames := BuildFrames(prevFrame, targetFrame);
      if |frames| <= 1 {
        // the shortcut for a list of at most one frame: two different frames give two or more
        assert false;
      }
      var animKey := "health_change_" + IntToString(now);
      anims := CreateIfAbsent(anims, animKey, Anim(frames, TransitionFrameRate, 0));
      sprite.Play(animKey, false);
      sprite.onceComplete := sprite.onceComplete + [Completion(animKey, targetFrame, hasCallback)];
    }

    /**
     * The sprite's animation completes: every pending listener runs in
     * order, removing its temporary animation, showing its target frame and
     * running its callback; the sprite ends on the last listener's target.
     */
    method AnimationComplete(sprite: AnimatedSprite)
      modifies this, sprite
      ensures sprite.frame == LastTarget(old(sprite.onceComplete), old(sprite.frame))
      ensures sprite.onceComplete == [] && !sprite.isPlaying
      ensures forall k :: k in anims <==> k in old(anims) && forall c :: c in old(sprite.onceComplete) ==> c.animKey != k
      ensures forall k :: k in anims ==> anims[k] == old(anims[k])
      ensures callbacksRun == old(callbacksRun) + CallbackCount(old(sprite.onceComplete))
      ensures initialized == old(initialized) && creations == old(creations)
    {
      var listeners := sprite.onceComplete;
      sprite.onceComplete := [];
      sprite.isPlaying := false;
      var i := 0;
      while i < |listeners|
        invariant i <= |listeners| && sprite.onceComplete == [] && !sprite.isPlaying
        invariant sprite.frame == LastTarget(listeners[..i], old(sprite.frame))
        invariant anims == WithoutListeners(old(anims), listeners[..i])
        invariant callbacksRun == old(callbacksRun) + CallbackCount(listeners[..i])
        invariant initialized == old(initialized) && creations == old(creations)
      {
        ListenerStep(listeners, i, old(anims), old(sprite.frame));
        RunListener(sprite, listeners[i]);
        i := i + 1;
      }
      assert listeners[..i] == listeners;
      WithoutListenersRemovesTheirKeys(old(anims), listeners);
    }

    /** One listener: its animation is removed, the sprite shows its target frame and its callback runs. */
    method RunListener(sprite: AnimatedSprite, c: Completion)
      modifies this`anims, this`callbacksRun, sprite`frame
      ensures anims == old(anims) - {c.animKey} && sprite.frame == c.targetFrame
      ensures callbacksRun == old(callbacksRun) + (if c.hasCallback then 1 else 0)
    {
      anims := anims - {c.animKey};
      sprite.frame := c.targetFrame;
      if c.hasCallback {
        callbacksRun := callbacksRun + 1;
      }
    }
  }
}
