/**
 * The enemy health table of a level scene: enemies keyed by their sprite,
 * a count of enemies still to defeat, score awarded through the scene's
 * state manager, and the next scene chosen once the count reaches zero.
 */
module Enemies {
  import opened JsValues
  import opened Registry
  import opened SceneState

  type Sprite = nat

  datatype EnemyRecord = EnemyRecord(isBoss: bool, currentHealth: int)

  datatype Bullet = Bullet(id: nat, x: real, y: real)

  /** What a hit asks the scene's effects manager to do. */
  datatype Effect = HitEffect(x: real, y: real) | PlaySound(key: string)

  const BossPoints: int := 50
  const EnemyPoints: int := 10
  const FinalScene: string := "GameScene5"

  /** `parseInt(c)` for a single character (or none): a digit's value, NaN otherwise. */
  function ParseDigit(c: string): (r: Option<nat>)
    ensures r.Some? <==> |c| == 1 && '0' <= c[0] <= '9'
    ensures r.Some? ==> r.value < 10 && DigitChar(r.value) == c[0]
  {
    if |c| == 1 && '0' <= c[0] <= '9' then Some((c[0] - '0') as nat) else None
  }

  /** `GameScene${parseInt(key.slice(-1)) + 1}`. */
  function NextSceneName(key: string): (r: string)
    ensures |r| > 9 && r[..9] == "GameScene"
    ensures |key| > 0 && '0' <= key[|key| - 1] <= '9' ==>
      r == "GameScene" + NatToString((key[|key| - 1] - '0') as nat + 1)
    ensures !(|key| > 0 && '0' <= key[|key| - 1] <= '9') ==> r == "GameSceneNaN"
  {
    var last := if |key| == 0 then "" else key[|key| - 1..];
    match ParseDigit(last)
    case Some(d) => "GameScene" + NatToString(d + 1)
    case None => "GameSceneNaN"
  }

  /** Scenes 1 to 4 lead to the scene numbered one higher. */
  lemma NextSceneFollowsNumbering(n: nat)
    requires 1 <= n <= 4
    ensures NextSceneName("GameScene" + NatToString(n)) == "GameScene" + NatToString(n + 1)
  {
    var key := "GameScene" + NatToString(n);
    assert key[|key| - 1] == DigitChar(n);
  }

  class EnemyManager {
    const sceneKey: string
    const stateManager: StateManager
    var enemies: map<Sprite, EnemyRecord>
    var remainingEnemies: int
    var nextSceneName: Option<string>
    var destroyedSprites: seq<Sprite>
    var destroyedBullets: seq<Bullet>
    var effects: seq<Effect>

    /** The count never falls below the number of enemies still in the table. */
    ghost predicate Valid()
      reads this
    {
      remainingEnemies >= |enemies|
    }

    constructor (sceneKey: string, stateManager: StateManager)
      ensures Valid()
      ensures this.sceneKey == sceneKey && this.stateManager == stateManager
      ensures enemies == map[] && remainingEnemies == 0 && nextSceneName == None
      ensures destroyedSprites == [] && destroyedBullets == [] && effects == []
    {
      this.sceneKey := sceneKey;
      this.stateManager := stateManager;
      enemies := map[];
      remainingEnemies := 0;
      nextSceneName := None;
      destroyedSprites := [];
      destroyedBullets := [];
      effects := [];
    }

    /** Stores (or replaces) the sprite's entry; the count goes up either way. */
    method AddEnemy(isBoss: bool, sprite: Sprite, health: int)
      requires Valid()
      modifies this`enemies, this`remainingEnemies
      ensures Valid()
      ensures enemies == old(enemies)[sprite := EnemyRecord(isBoss, health)]
      ensures remainingEnemies == old(remainingEnemies) + 1
    {
      enemies := enemies[sprite := EnemyRecord(isBoss, health)];
      remainingEnemies := remainingEnemies + 1;
    }

    /**
     * A hit on a known enemy plays the hit effect, destroys the bullet and
     * takes one point of health; at zero or below the enemy is destroyed and
     * removed, the count goes down, the score goes up by 50 for a boss and 10
     * otherwise, and the level-complete check runs.
     */
    method HandleBulletHit(bullet: Bullet, sprite: Sprite)
      requires Valid()
      modifies this, stateManager
      ensures Valid()
      ensures sprite !in old(enemies) ==>
        && enemies == old(enemies) && remainingEnemies == old(remainingEnemies)
        && nextSceneName == old(nextSceneName) && effects == old(effects)
        && destroyedBullets == old(destroyedBullets) && destroyedSprites == old(destroyedSprites)
        && stateManager.registry == old(stateManager.registry)
      ensures sprite in old(enemies) ==>
        var e := old(enemies)[sprite];
        var hp := e.currentHealth - 1;
        var points := if e.isBoss then BossPoints else EnemyPoints;
        && effects == old(effects) + [HitEffect(bullet.x, bullet.y), PlaySound("hit")]
        && destroyedBullets == old(destroyedBullets) + [bullet]
        && (hp > 0 ==>
              && enemies == old(enemies)[sprite := e.(currentHealth := hp)]
              && remainingEnemies == old(remainingEnemies)
              && destroyedSprites == old(destroyedSprites)
              && nextSceneName == old(nextSceneName)
              && stateManager.registry == old(stateManager.registry))
        && (hp <= 0 ==>
              && enemies == old(enemies) - {sprite}
              && remainingEnemies == old(remainingEnemies) - 1
              && destroyedSprites == old(destroyedSprites) + [sprite]
              && stateManager.registry == old(stateManager.registry)["score" := Increased(Lookup(old(stateManager.registry), "score"), points)]
              && nextSceneName == LevelCompleteOutcome(old(nextSceneName), remainingEnemies, sceneKey))
    {
      if sprite !in enemies {
        return;
      }
      var enemy := enemies[sprite];
      effects := effects + [HitEffect(bullet.x, bullet.y), PlaySound("hit")];
      destroyedBullets := destroyedBullets + [bullet];
      enemy := enemy.(currentHealth := enemy.currentHealth - 1);
      enemies := enemies[sprite := enemy];
      if enemy.currentHealth <= 0 {
        Defeat(sprite, enemy.isBoss);
      }
    }

    /**
     * The defeat branch of a hit: the sprite is destroyed and leaves the
     * table, the count drops, the score rises by the enemy's points and the
     * level-complete check runs.
     */
    method Defeat(sprite: Sprite, isBoss: bool)
      requires Valid() && sprite in enemies
      modifies this`destroyedSprites, this`enemies, this`remainingEnemies, this`nextSceneName, stateManager
      ensures Valid()
      ensures destroyedSprites == old(destroyedSprites) + [sprite]
      ensures enemies == old(enemies) - {sprite} && remainingEnemies == old(remainingEnemies) - 1
      ensures stateManager.registry ==
        old(stateManager.registry)["score" := Increased(Lookup(old(stateManager.registry), "score"), if isBoss then BossPoints else EnemyPoints)]
      ensures nextSceneName == LevelCompleteOutcome(old(nextSceneName), remainingEnemies, sceneKey)
    {
      destroyedSprites := destroyedSprites + [sprite];
      enemies := enemies - {sprite};
      remainingEnemies := remainingEnemies - 1;
      var points := if isBoss then BossPoints else EnemyPoints;
      var _ := stateManager.Increment("score", points);
      CheckLevelComplete();
    }

    /** Once nothing is left, every scene but the last names its successor. */
    method CheckLevelComplete()
      modifies this`nextSceneName
      ensures nextSceneName == LevelCompleteOutcome(old(nextSceneName), remainingEnemies, sceneKey)
    {
      if remainingEnemies <= 0 {
        if sceneKey != FinalScene {
          nextSceneName := Some(NextSceneName(sceneKey));
        }
      }
    }

    method Cleanup()
      modifies this`enemies, this`remainingEnemies
      ensures Valid() && enemies == map[] && remainingEnemies == 0
    {
      enemies := map[];
      remainingEnemies := 0;
    }
  }

  /** The next scene after the level-complete check. */
  function LevelCompleteOutcome(current: Option<string>, remaining: int, sceneKey: string): (r: Option<string>)
    ensures remaining > 0 || sceneKey == FinalScene ==> r == current
    ensures remaining <= 0 && sceneKey != FinalScene ==> r == Some(NextSceneName(sceneKey))
  {
    if remaining <= 0 && sceneKey != FinalScene then Some(NextSceneName(sceneKey)) else current
  }

  /** While the count bounds the table, a completed level has no enemy left in it. */
  lemma CompleteMeansCleared(enemies: map<Sprite, EnemyRecord>, remaining: int)
    requires remaining >= |enemies| && remaining <= 0
    ensures enemies == map[]
  {
  }
}
