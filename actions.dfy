/**
 * Action types, game statuses and player states of the Redux-like store, and
 * the action creators that wrap a payload in an action of one type.
 */
module Actions {
  import opened JsValues

  // Action types
  const UPDATE_SCORE: string := "UPDATE_SCORE"
  const UPDATE_LIVES: string := "UPDATE_LIVES"
  const UPDATE_HEALTH: string := "UPDATE_HEALTH"
  const UPDATE_BITCOINS: string := "UPDATE_BITCOINS"
  const UPDATE_STAMINA: string := "UPDATE_STAMINA"
  const UPDATE_LEVEL: string := "UPDATE_LEVEL"
  const UPDATE_CHECKPOINT: string := "UPDATE_CHECKPOINT"
  const UPDATE_SETTINGS: string := "UPDATE_SETTINGS"
  const UPDATE_PLAYER_STATE: string := "UPDATE_PLAYER_STATE"
  const UPDATE_GAME_STATUS: string := "UPDATE_GAME_STATUS"

  // Game statuses
  const MENU: Value := Str("MENU")
  const PLAYING: Value := Str("PLAYING")
  const PAUSED: Value := Str("PAUSED")
  const GAME_OVER: Value := Str("GAME_OVER")

  /** `Object.values(GameStatus)` */
  const GameStatuses: seq<Value> := [MENU, PLAYING, PAUSED, GAME_OVER]

  // Player states
  const IDLE: Value := Str("IDLE")
  const WALKING: Value := Str("WALKING")
  const JUMPING: Value := Str("JUMPING")
  const FALLING: Value := Str("FALLING")
  const ROLLING: Value := Str("ROLLING")
  const DEAD: Value := Str("DEAD")

  /** `Object.values(PlayerState)` */
  const PlayerStates: seq<Value> := [IDLE, WALKING, JUMPING, FALLING, ROLLING, DEAD]

  /** `{ type, payload }`; `type` is a reserved word here, so the field is `kind`. */
  datatype Action = Action(kind: string, payload: Value)

  /** The ten action creators, one per action type. */
  datatype Creator =
    | ScoreCreator | LivesCreator | HealthCreator | StaminaCreator | BitcoinsCreator
    | LevelCreator | CheckpointCreator | SettingsCreator | PlayerStateCreator | GameStatusCreator

  /** The action type each creator stamps on its action. */
  function KindOf(c: Creator): string
  {
    match c
    case ScoreCreator => UPDATE_SCORE
    case LivesCreator => UPDATE_LIVES
    case HealthCreator => UPDATE_HEALTH
    case StaminaCreator => UPDATE_STAMINA
    case BitcoinsCreator => UPDATE_BITCOINS
    case LevelCreator => UPDATE_LEVEL
    case CheckpointCreator => UPDATE_CHECKPOINT
    case SettingsCreator => UPDATE_SETTINGS
    case PlayerStateCreator => UPDATE_PLAYER_STATE
    case GameStatusCreator => UPDATE_GAME_STATUS
  }

  /** The ten exported creators: each is `Create` with its own creator. */
  function UpdateScore(score: Value): Action { Create(ScoreCreator, score) }
  function UpdateLives(lives: Value): Action { Create(LivesCreator, lives) }
  function UpdateHealth(health: Value): Action { Create(HealthCreator, health) }
  function UpdateStamina(stamina: Value): Action { Create(StaminaCreator, stamina) }
  function UpdateBitcoins(bitcoins: Value): Action { Create(BitcoinsCreator, bitcoins) }
  function UpdateLevel(level: Value): Action { Create(LevelCreator, level) }
  function UpdateCheckpoint(checkpoint: Value): Action { Create(CheckpointCreator, checkpoint) }
  function UpdateSettings(settings: Value): Action { Create(SettingsCreator, settings) }
  function UpdatePlayerState(state: Value): Action { Create(PlayerStateCreator, state) }
  function UpdateGameStatus(status: Value): Action { Create(GameStatusCreator, status) }

  /** The creator of each kind, applied to a payload. */
  function Create(c: Creator, payload: Value): (a: Action)
    ensures a.kind == KindOf(c)
    ensures a.payload == payload
  {
    match c
    case ScoreCreator => Action(UPDATE_SCORE, payload)
    case LivesCreator => Action(UPDATE_LIVES, payload)
    case HealthCreator => Action(UPDATE_HEALTH, payload)
    case StaminaCreator => Action(UPDATE_STAMINA, payload)
    case BitcoinsCreator => Action(UPDATE_BITCOINS, payload)
    case LevelCreator => Action(UPDATE_LEVEL, payload)
    case CheckpointCreator => Action(UPDATE_CHECKPOINT, payload)
    case SettingsCreator => Action(UPDATE_SETTINGS, payload)
    case PlayerStateCreator => Action(UPDATE_PLAYER_STATE, payload)
    case GameStatusCreator => Action(UPDATE_GAME_STATUS, payload)
  }

  /**
   * Every creator hands its payload through untouched (an object payload such as
   * a settings record is the same value), and no two creators share an action
   * type, so the action alone tells which creator made it.
   */
  lemma CreatorsAreDistinguishable(c1: Creator, c2: Creator, p1: Value, p2: Value)
    ensures Create(c1, p1).payload == p1
    ensures Create(c1, p1) == Create(c2, p2) <==> c1 == c2 && p1 == p2
  {
    if c1 != c2 {
      assert KindOf(c1) != KindOf(c2);
    }
  }
}
