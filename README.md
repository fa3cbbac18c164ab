# ShooterGTU game-state core in Dafny

This project is a Dafny model of the non-rendering core of ShooterGTU, a Phaser platform shooter. It covers the game's state and data-structure code, one module per source file:

- **State.** The Redux-like store, its action creators and the `GameStateManager` facade over it. The registry-backed state managers (level `GameStateManager` and scene `StateManager`).
- **Containers.** The object pool, the event bus, the two service containers, the entity registry and the enemy health table.
- **Game rules.** The HUD frame rules, the player's stamina cost tiers and HP/lives handling, and the health-bar animation frames.
- **Grid algorithms.** The A* platform path finder, the procedural level generator, trap placement and LDtk entity loading.
- **Audio.** The audio manager's mute flag, sound cache and single music track.

JavaScript values are modelled by `JsValues.Value`: undefined, null, booleans, numbers as reals, NaN, strings and objects as maps. Phaser sprites, sounds and the registry become records, numeric ids or maps. Math.random and Phaser's shuffle become nondeterministic choices. A class whose fields the game updates in place is a Dafny `class` with the same fields. Its methods state the new state through specification functions, and lemmas prove the properties the game relies on about those functions.

## Model

| member | source | states |
|---|---|---|
| Actions.Create | src/modules/state/actions.js:16-93 | every creator returns its own action type and passes the payload through unchanged |
| Actions.CreatorsAreDistinguishable | src/modules/state/actions.js:16-93 | two creators give equal actions exactly when they are the same creator with the same payload, so each uses a distinct type constant |
| ReduxStore.InitialState | src/modules/state/Store.js:26-49 | the initial state has status MENU, score 0, lives 3, health 100 and stamina 100 |
| ReduxStore.Reduce | src/modules/state/Store.js:92-168 | a single-field update writes its payload to that field and leaves every other field and the settings alone; UPDATE_SETTINGS merges the payload's entries over the settings and keeps the keys it does not mention; any other type returns the state unchanged |
| ReduxStore.LevelAndCheckpointAreIgnored | src/modules/state/Store.js:166-167 | UPDATE_LEVEL and UPDATE_CHECKPOINT fall through to the default case and change nothing |
| ReduxStore.AddToHistory | src/modules/state/Store.js:176-183 | the history never exceeds 100 entries, ends with the new entry, and is the last 100 of the old history plus that entry |
| ReduxStore.RecordAllKeepsNewest | src/modules/state/Store.js:176-183 | after any run of dispatches the history is the 100 most recent entries in order: the oldest are the ones dropped |
| ReduxStore.NotifyAll | src/modules/state/Store.js:186-188 | one call per subscriber, in subscription order, each with the new state and the action |
| ReduxStore.NotifiedExactlyOnce | src/modules/state/Store.js:83-86 | a callback that is not subscribed (for instance after unsubscribing) is never called; a subscribed one is called, and no call is repeated |
| ReduxStore.Store.constructor | src/modules/state/Store.js:14-20 | a new store holds the initial state, no subscribers and an empty history |
| ReduxStore.Store.GetState | src/modules/state/Store.js:56-58 | returns the current state |
| ReduxStore.Store.Dispatch | src/modules/state/Store.js:70-80 | the new state is the reducer's result; one history entry is appended whose next state is the new state; every subscriber is notified once and `stateChanged` is emitted once |
| ReduxStore.Store.AddEntry | src/modules/state/Store.js:176-183 | push, then drop the oldest entry when the cap is exceeded |
| ReduxStore.Store.Subscribe | src/modules/state/Store.js:83-84 | the callback is added once; adding it again changes nothing |
| ReduxStore.Store.Unsubscribe | src/modules/state/Store.js:85 | the callback is no longer subscribed and the others keep their order |
| ReduxStore.Store.GetHistory | src/modules/state/Store.js:191-193 | returns the history |
| ReduxStore.Store.Reset | src/modules/state/Store.js:200-203 | the state is the initial state again, subscribers are told with a RESET action, and the history stays |
| GameStateFacade.StaminaPayload | src/modules/state/GameStateManager.js:68-71 | the dispatched stamina is always in [0, 100] (NaN for a non-number), and a value already in range passes unchanged |
| GameStateFacade.DecrementLivesState | src/modules/state/GameStateManager.js:53-62 | a life is taken only when lives > 0; the status becomes GAME_OVER exactly when lives - 1 <= 0; nothing else changes |
| GameStateFacade.DecrementLivesOnCount | src/modules/state/GameStateManager.js:53-62 | with a whole number of lives the count never drops below zero, and the game is over exactly when at most one life was left (or it already was) |
| GameStateFacade.ThreeLivesThreeDecrements | src/modules/state/GameStateManager.js:53-62 | from three lives the game is still playing after two decrements and over, with zero lives, after the third |
| GameStateFacade.PauseThenResume | src/modules/state/GameStateManager.js:110-116 | pausing a running game and resuming it gives back exactly the same state, with status PLAYING |
| GameStateFacade.GameStateManager.constructor | src/modules/state/GameStateManager.js:12-27 | a new store with the persistence subscriber registered |
| GameStateFacade.GameStateManager.Dispatch | src/modules/state/GameStateManager.js:22-27 | every dispatch is followed by a save of the new state |
| GameStateFacade.GameStateManager.UpdateScore | src/modules/state/GameStateManager.js:39-41 | the score becomes the argument |
| GameStateFacade.GameStateManager.IncrementScore | src/modules/state/GameStateManager.js:43-47 | a numeric score grows by exactly the amount |
| GameStateFacade.GameStateManager.UpdateLives | src/modules/state/GameStateManager.js:49-51 | the lives become the argument |
| GameStateFacade.GameStateManager.DecrementLives | src/modules/state/GameStateManager.js:53-62 | the store ends in DecrementLivesState of the old state |
| GameStateFacade.GameStateManager.UpdateHealth | src/modules/state/GameStateManager.js:64-66 | the health becomes the argument |
| GameStateFacade.GameStateManager.UpdateStamina | src/modules/state/GameStateManager.js:68-71 | the stored stamina is clamped to [0, 100] |
| GameStateFacade.GameStateManager.UpdateBitcoins | src/modules/state/GameStateManager.js:73-75 | the bitcoins become the argument |
| GameStateFacade.GameStateManager.UpdatePlayerState | src/modules/state/GameStateManager.js:82-87 | a valid player state is dispatched; an invalid one leaves state, history and notifications unchanged |
| GameStateFacade.GameStateManager.UpdateGameStatus | src/modules/state/GameStateManager.js:94-99 | only GameStatus values are dispatched; anything else leaves state, history, notifications and the saved state unchanged |
| GameStateFacade.GameStateManager.UpdateSettings | src/modules/state/GameStateManager.js:101-104 | the settings are merged with the argument |
| GameStateFacade.GameStateManager.StartGame | src/modules/state/GameStateManager.js:106-108 | the status becomes PLAYING |
| GameStateFacade.GameStateManager.PauseGame | src/modules/state/GameStateManager.js:110-112 | the status becomes PAUSED |
| GameStateFacade.GameStateManager.ResumeGame | src/modules/state/GameStateManager.js:114-116 | the status becomes PLAYING |
| GameStateFacade.GameStateManager.HandleGameOver | src/modules/state/GameStateManager.js:118-120 | the status becomes GAME_OVER |
| GameStateFacade.GameStateManager.GetState | src/modules/state/GameStateManager.js:127-130 | returns the store's state |
| GameStateFacade.GameStateManager.Reset | src/modules/state/GameStateManager.js:137-140 | back to the initial state, which the persistence subscriber saves; the history stays |
| GameStateFacade.GameStateManager.Subscribe | src/modules/state/GameStateManager.js:142-145 | the callback is subscribed and the state is untouched |
| GameStateFacade.GameStateManager.Unsubscribe | src/modules/state/GameStateManager.js:142-145 | the callback is no longer subscribed and the state is untouched |
| GameStateFacade.GameStateManager.GetStateHistory | src/modules/state/GameStateManager.js:151-154 | returns the store's history |
| ObjectPools.GameObject.constructor | src/modules/managers/ObjectPool.js:43-45 | what a subclass's createNewObject returns: a new live object |
| ObjectPools.ObjectPool.constructor | src/modules/managers/ObjectPool.js:13-34 | the pool holds initialSize distinct new objects, all inactive and hidden, and nothing is active |
| ObjectPools.ObjectPool.Get | src/modules/managers/ObjectPool.js:52-68 | pops the last pooled object when there is one, otherwise creates one; the result is active, visible and in the active set |
| ObjectPools.ObjectPool.Release | src/modules/managers/ObjectPool.js:75-83 | a missing object changes nothing; otherwise the object is deactivated, hidden, leaves the active set and is pushed on the pool |
| ObjectPools.ObjectPool.ReleaseAll | src/modules/managers/ObjectPool.js:89-92 | every active object goes back on the pool, deactivated and hidden, and the active set is empty |
| ObjectPools.ObjectPool.Destroy | src/modules/managers/ObjectPool.js:98-102 | every pooled and active object is destroyed and both collections are empty |
| ObjectPools.RemoveAppended | src/modules/managers/ObjectPool.js:66-81 | deleting from the active set an object just added to it gives the set back |
| ObjectPools.GetThenReleaseRestores | src/modules/managers/ObjectPool.js:56-82 | get followed by release of the same pooled object restores both the pool and the active set |
| Events.Deliveries | src/modules/events/EventBus.js:53-62 | emit calls each listener of the event once with the data, in registration order, and calls nobody for an unknown event |
| Events.DeliveredIffListening | src/modules/events/EventBus.js:53-62 | a callback is called by emit exactly when it is registered for that event |
| Events.DeliveredOnce | src/modules/events/EventBus.js:28-62 | since a Set holds each callback once, no callback is called twice by one emit |
| Events.EventBus.constructor | src/modules/events/EventBus.js:19-21 | no listeners |
| Events.EventBus.On | src/modules/events/EventBus.js:28-33 | the event's set is created on first use and holds the callback once; other events are untouched |
| Events.EventBus.Off | src/modules/events/EventBus.js:40-44 | the callback leaves that event's set; an unknown event is a no-op |
| Events.EventBus.Emit | src/modules/events/EventBus.js:53-62 | the calls made are exactly Deliveries: every listener is reached, a throwing one included |
| DiContainer.NotFound | src/modules/di/ServiceContainer.js:11-13 | the not-found error message names the key |
| DiContainer.NotFoundNamesTheKey | src/modules/di/ServiceContainer.js:11-13 | distinct keys give distinct not-found errors |
| DiContainer.ServiceContainer.constructor | src/modules/di/ServiceContainer.js:2-4 | no services |
| DiContainer.ServiceContainer.Register | src/modules/di/ServiceContainer.js:6-8 | the key maps to the new service, replacing an earlier one; other keys are unchanged |
| DiContainer.ServiceContainer.Get | src/modules/di/ServiceContainer.js:10-15 | succeeds exactly for a registered key, with its service; otherwise the not-found error |
| CoreContainer.Register | src/managers/core/ServiceContainer.js:21-29 | succeeds exactly for a string key and a service that is neither null nor undefined; each rejection gives its TypeError; success adds only that key |
| CoreContainer.Lookup | src/managers/core/ServiceContainer.js:37-45 | a non-string key is a TypeError; a missing key is the not-found error; otherwise the stored service |
| CoreContainer.RegisterThenLookup | src/managers/core/ServiceContainer.js:28-44 | after a valid register, get of that key returns the service, and every other key answers as before |
| CoreContainer.LookupNeverNull | src/managers/core/ServiceContainer.js:25-45 | a container filled through register never hands out null or undefined |
| CoreContainer.ServiceContainer.constructor | src/managers/core/ServiceContainer.js:12-14 | no services |
| CoreContainer.ServiceContainer.RegisterService | src/managers/core/ServiceContainer.js:21-29 | the new services are Register's result; on a rejection nothing changes and the error is Register's |
| CoreContainer.ServiceContainer.Get | src/managers/core/ServiceContainer.js:37-45 | the result is Lookup of the current services |
| EntityManagement.Having | src/modules/managers/entities/EntityManager.js:62-66 | exactly the entities of a group that have the hook, in order |
| EntityManagement.HavingConcat | src/modules/managers/entities/EntityManager.js:61-67 | walking two runs of entities one after the other calls the hooks of the first, then of the second |
| EntityManagement.Members | src/modules/managers/entities/EntityManager.js:61-75 | an entity is listed exactly when it belongs to one of the groups in the order, and no list is shorter than any of its groups |
| EntityManagement.MembersGroupByGroup | src/modules/managers/entities/EntityManager.js:61-67 | each group's members come, in their own order, right after the members of the groups before it in Map insertion order |
| EntityManagement.EntityManager.constructor | src/modules/managers/entities/EntityManager.js:14-19 | no groups, no calls, attached to the bus |
| EntityManagement.EntityManager.Add | src/modules/managers/entities/EntityManager.js:25-33 | the entity joins its type's set (created on first use, type order recorded) and entityAdded is emitted on the bus with the entity and type |
| EntityManagement.EntityManager.Remove | src/modules/managers/entities/EntityManager.js:39-46 | only an existing type's set loses the entity and entityRemoved is emitted; an unknown type changes nothing and emits nothing |
| EntityManagement.EntityManager.GetAll | src/modules/managers/entities/EntityManager.js:52-54 | the type's entities in insertion order, without repeats; none for an unknown type |
| EntityManagement.EntityManager.Update | src/modules/managers/entities/EntityManager.js:60-68 | update() is called on exactly the entities that have it, group by group, each once |
| EntityManagement.EntityManager.Cleanup | src/modules/managers/entities/EntityManager.js:74-84 | destroy() is called on every entity that has it, then no entity of any type remains |
| EntityManagement.CallHooks | src/modules/managers/entities/EntityManager.js:62-80 | the inner walk calls exactly Having of the group |
| EntityManagement.CallAllHooks | src/modules/managers/entities/EntityManager.js:61-67 | the outer walk calls exactly Having of every group's entities, group by group in type order |
| EntityManagement.AddedIsListed | src/modules/managers/entities/EntityManager.js:25-42 | an added entity is among its type's entities, and removing it takes it out |
| Enemies.ParseDigit | src/modules/managers/EnemyManager.js:48 | parseInt of one character is defined exactly for a decimal digit, and gives that digit's value |
| Enemies.NextSceneName | src/modules/managers/EnemyManager.js:48-49 | a key ending in digit d names GameScene(d+1); any other key names GameSceneNaN |
| Enemies.NextSceneFollowsNumbering | src/modules/managers/EnemyManager.js:47-49 | GameScene1 to GameScene4 lead to the scene numbered one higher |
| Enemies.EnemyManager.constructor | src/modules/managers/EnemyManager.js:2-6 | an empty table and a zero count |
| Enemies.EnemyManager.AddEnemy | src/modules/managers/EnemyManager.js:8-14 | the sprite's entry holds the health, and the count goes up by one even when the sprite replaces an entry |
| Enemies.EnemyManager.HandleBulletHit | src/modules/managers/EnemyManager.js:16-41 | a hit on an unknown sprite changes nothing; otherwise effects and the bullet's destruction happen and the health drops by exactly 1; at 0 or below the entry is removed, the count drops, the score rises by 50 for a boss and 10 otherwise, and the level-complete check runs |
| Enemies.EnemyManager.Defeat | src/modules/managers/EnemyManager.js:29-39 | the sprite is destroyed and leaves the table, the count drops by one, the score grows by 50 for a boss and 10 otherwise, and the level-complete check follows |
| Enemies.EnemyManager.CheckLevelComplete | src/modules/managers/EnemyManager.js:43-52 | the next scene is LevelCompleteOutcome of the count and scene key |
| Enemies.EnemyManager.Cleanup | src/modules/managers/EnemyManager.js:54-57 | an empty table and a zero count |
| Enemies.LevelCompleteOutcome | src/modules/managers/EnemyManager.js:43-52 | with enemies left, or in GameScene5, the next scene is unchanged; otherwise it is the successor scene |
| Enemies.CompleteMeansCleared | src/modules/managers/EnemyManager.js:13-44 | while the count bounds the table, a completed level has no enemy left in it |
| Registry.Lookup | src/managers/level/GameStateManager.js:54-56 | a missing key reads as undefined; a present key reads its value |
| Registry.DefaultOf | src/managers/level/GameStateManager.js:29-37 | exactly the seven default keys have a default: lives 3, playerHP and stamina 100, score and bitcoins 0 |
| Registry.SetIfAbsent | src/managers/level/GameStateManager.js:40-42 | a present key is left alone; an absent one gets its default |
| Registry.SetAllWritesDefaults | src/managers/level/GameStateManager.js:108-110 | writing the defaults gives each listed key its default and leaves every other key alone |
| Registry.SetMissingKeepsPresent | src/managers/level/GameStateManager.js:39-43 | filling in the defaults changes no key already present and gives each absent listed key its default |
| Registry.InitializeFillsDefaults | src/managers/level/GameStateManager.js:39-43 | after initialization every default key has a value, its default where it was absent, and no existing value changed |
| Registry.ResetRestoresDefaults | src/managers/level/GameStateManager.js:107-111 | after reset() every default key holds its default and no other key is touched |
| LevelGameState.DefaultsObject | src/managers/level/GameStateManager.js:29-37 | the announced defaults object has exactly the seven default keys |
| LevelGameState.Incremented | src/managers/level/GameStateManager.js:74-77 | a missing or falsy value counts as 0; a number grows by the amount |
| LevelGameState.Decremented | src/managers/level/GameStateManager.js:84-88 | the result is never negative; a missing value counts as 0; a number at least the amount drops by exactly the amount |
| LevelGameState.DecrementStaysNatural | src/managers/level/GameStateManager.js:84-88 | decrementing a whole count gives the difference, or 0 when the amount is larger |
| LevelGameState.ResetAnnouncements | src/managers/level/GameStateManager.js:107-111 | reset() announces one stateChanged per default key, in the order of the defaults |
| LevelGameState.GameStateManager.constructor | src/managers/level/GameStateManager.js:15-21 | the manager wraps the given registry and has announced nothing |
| LevelGameState.GameStateManager.InitializeGameState | src/managers/level/GameStateManager.js:27-47 | only absent default keys are written, then the defaults are announced once |
| LevelGameState.GameStateManager.FillMissing | src/managers/level/GameStateManager.js:39-43 | the registry becomes SetMissing of the old one: only absent listed keys get their defaults |
| LevelGameState.GameStateManager.Get | src/managers/level/GameStateManager.js:54-56 | the registry's value, undefined when absent |
| LevelGameState.GameStateManager.Set | src/managers/level/GameStateManager.js:63-67 | get after set returns the value, and the change is announced |
| LevelGameState.GameStateManager.Increment | src/managers/level/GameStateManager.js:74-77 | the key becomes Incremented of its old value, announced |
| LevelGameState.GameStateManager.Decrement | src/managers/level/GameStateManager.js:84-88 | the key becomes Decremented of its old value, never below 0, announced |
| LevelGameState.GameStateManager.Reset | src/managers/level/GameStateManager.js:94-112 | reset(key) restores that key's default; reset() restores all seven, announcing each |
| LevelGameState.GameStateManager.ResetAll | src/managers/level/GameStateManager.js:108-110 | every listed key gets its default through set, announced once each in list order |
| LevelGameState.GameStateManager.HandleGameOver | src/managers/level/GameStateManager.js:177-180 | announces game over and changes no state |
| SceneState.Increased | src/modules/managers/StateManager.js:73-78 | a number grows by the amount; a missing value gives NaN |
| SceneState.Decreased | src/modules/managers/StateManager.js:86-91 | never negative; a number at least the amount drops by it, a smaller one goes to 0 |
| SceneState.InitializeAllIsSetMissing | src/modules/managers/StateManager.js:22-45 | the seven written-out set-if-absent steps equal filling in the defaults, so existing keys are untouched |
| SceneState.StateManager.constructor | src/modules/managers/StateManager.js:12-16 | the manager wraps the given registry |
| SceneState.StateManager.InitializeGameState | src/modules/managers/StateManager.js:22-45 | each default key is written only when absent |
| SceneState.StateManager.SetIfMissing | src/modules/managers/StateManager.js:24-26 | a present key leaves the registry unchanged; an absent one gets the value and nothing else changes |
| SceneState.StateManager.Get | src/modules/managers/StateManager.js:52-54 | the registry's value, undefined when absent |
| SceneState.StateManager.Set | src/modules/managers/StateManager.js:62-65 | stores the value and returns what it stored |
| SceneState.StateManager.Increment | src/modules/managers/StateManager.js:73-78 | returns current + amount and stores exactly that |
| SceneState.StateManager.Decrement | src/modules/managers/StateManager.js:86-91 | returns max(0, current - amount) and stores exactly that |
| SceneState.StateManager.Reset | src/modules/managers/StateManager.js:98-116 | reset(key) restores that key's default; reset() restores all seven defaults |
| SceneState.StateManager.ResetAll | src/modules/managers/StateManager.js:112-114 | the registry becomes SetAll of the old one: every listed key gets its default |
| SceneState.IncrementOfMissingKeyIsNaN | src/modules/managers/StateManager.js:74-75 | unlike the level-side manager, incrementing a key that was never set stores NaN |
| Hud.HealthFrame | src/managers/ui/PlayerHUD.js:134-146 | the frame is in 0..9; it is 9 exactly when health is at most 0, 0 exactly above 80%, and otherwise frame f covers the band (10(8-f), 10(9-f)] |
| Hud.HealthFrameMonotone | src/managers/ui/PlayerHUD.js:134-146 | more health never shows an emptier bar |
| Hud.StaminaFrame | src/managers/ui/PlayerHUD.js:218-222 | the frame is in 0..9, 9 exactly at stamina 10 or less, otherwise floor((max - stamina)/10) |
| Hud.PlayerHUD.constructor | src/managers/ui/PlayerHUD.js:41-96 | full health and stamina, both bars on frame 0, not animating or dying |
| Hud.PlayerHUD.Reset | src/managers/ui/PlayerHUD.js:102-121 | current and previous health and stamina back to the maximum, both bars on frame 0, animating and dying cleared |
| Hud.PlayerHUD.UpdateHealth | src/managers/ui/PlayerHUD.js:152-209 | the old health becomes previousHealth and the new one is clamped to [0, 100]; same frame shows it, a drop to 0 sets dying, a running transition is left alone, no animation manager shows the frame, otherwise exactly one transition from the old frame to the new is requested |
| Hud.PlayerHUD.TransitionComplete | src/managers/ui/PlayerHUD.js:203-207 | the bar rests on the requested target frame and animating ends |
| Hud.PlayerHUD.UpdateStamina | src/managers/ui/PlayerHUD.js:214-224 | the old stamina becomes previousStamina, the new one is clamped, and the bar shows StaminaFrame of it |
| PlayerRules.TierCost | src/prefabs/Player.js:64-80 | the cost is always one of the table's costs |
| PlayerRules.TierCostIsFirstOpenTier | src/prefabs/Player.js:322-329 | the cost is that of the first tier whose time the elapsed time has not exceeded |
| PlayerRules.TierCostAfterLastTier | src/prefabs/Player.js:329 | past every tier's time the last tier's cost applies |
| PlayerRules.TierCostMonotone | src/prefabs/Player.js:322-344 | on a table with rising times and costs, a longer move never costs less per second |
| PlayerRules.CostTablesAscend | src/prefabs/Player.js:64-80 | both the roll and the hover table rise in time and cost |
| PlayerRules.CostBounds | src/prefabs/Player.js:322-344 | roll costs stay within 45..120 and hover costs within 35..90, never falling as the move goes on |
| PlayerRules.TierCostBetween | src/prefabs/Player.js:322-344 | on a rising table every cost lies between the first and the last tier's |
| PlayerRules.TableBounds | src/prefabs/Player.js:322-344 | on a rising table the cost lies between the first and last tier's and never falls as the elapsed time grows |
| PlayerRules.GetStaminaCost | src/prefabs/Player.js:322-344 | the early-return loop returns exactly the tier rule's cost |
| PlayerRules.InitialLivesAsWritten | src/prefabs/Player.js:104-105 | a stored non-zero count is kept; otherwise the fallback setting does not exist and the count is undefined |
| PlayerRules.DieAsWritten | src/prefabs/Player.js:232-236 | an undefined count stays undefined and never reaches game over; a number drops by one and is over at 0 or below |
| PlayerRules.NoGameOverWithoutStoredLives | src/prefabs/Player.js:104-105 | starting without a stored count, no number of deaths ever reaches game over |
| PlayerRules.InitialLives | src/prefabs/Player.js:104-105 | a stored non-zero count is kept, otherwise the player starts with 3 lives |
| PlayerRules.DefaultLivesEndInGameOver | src/prefabs/Player.js:227-237 | with the intended start of 3 lives, the third death is game over and the second is not |
| PlayerRules.SecondHitLandsAsWritten | src/prefabs/Player.js:187-203 | two hits of the default 25 damage, 1.5 s apart, on a player they leave alive: both take their damage and each announces its HP and plays the hit sound, although the second falls inside the configured 2 s window |
| PlayerRules.HitInvulnerability | src/prefabs/Player.js:192 | the intended window lasts exactly INVULNERABLE_DURATION, longer than the feedback window |
| PlayerRules.SecondHitIgnoredAsIntended | src/prefabs/Player.js:174-194 | with the intended window the same two hits cost only the first hit's damage, and the player stays invulnerable for 2 s after it |
| PlayerRules.Player.constructor | src/prefabs/Player.js:46-106 | falsy stored hit points and stamina fall back to their maxima; lives follow InitialLivesAsWritten, so without a stored count they are undefined; stamina and lives are written back |
| PlayerRules.Player.MakeInvulnerable | src/prefabs/Player.js:201-219 | a one-second window from now and the hit sound |
| PlayerRules.Player.Respawn | src/prefabs/Player.js:297-313 | controls back on, hit points full in the player and the registry, the change announced, then one second of invulnerability; lives untouched |
| PlayerRules.Player.Die | src/prefabs/Player.js:227-262 | ignored while dying, with nothing changed; otherwise the lives become DieAsWritten of the old count (one fewer, or NaN for a count that is not a number) and are stored, then either game over (controls off, still dying, invulnerability window untouched) or a death event followed by a respawn with full stored HP, controls on and a 1 s window |
| PlayerRules.Player.TakeDamage | src/prefabs/Player.js:174-203 | ignored while dying or invulnerable, with nothing changed; otherwise the damage is recorded and hit points drop by the amount but not below 0 and are stored and announced; then at 0 HP the player dies as Die does (registry, events, controls and window of the game-over or respawn case), else the player is invulnerable for only the 1 s of makeInvulnerable, which overwrites the configured 2 s |
| PlayerRules.Player.TakeDamageIntended | src/prefabs/Player.js:174-194 | the same hit with the same ignored and death cases, registry writes, controls and events, except that a survived hit leaves the configured INVULNERABLE_DURATION of invulnerability |
| PlayerRules.Player.FallDeath | src/prefabs/Player.js:270-289 | ignored while dying; the stored count (not the player's own) drops by one only with a lives display and a positive count; then a respawn |
| PlayerRules.Player.RegenerateStamina | src/prefabs/Player.js:543-559 | stamina never falls and never passes 100; after the 500 ms delay and while neither rolling nor hovering it rises at 12/s, 20/s on the ground, and is stored |
| PlayerRules.Player.TouchGround | src/prefabs/Player.js:568-572 | coyote time restarts now and the jumps refill to maxJumps |
| PlayerRules.Player.HandleJump | src/prefabs/Player.js:488-520 | a jump starts exactly when both grace windows are open, a jump is left and no jump or hover is under way; it spends one jump; the floor ends the jump |
| Pathfinding.IsValidPosition | src/modules/pathfinding/PathFinder.js:279-281 | true exactly when the row is inside the grid and the column inside the first row's width |
| Pathfinding.ToCell | src/modules/pathfinding/PathFinder.js:307-310 | the cell of a pixel position is the floor of each coordinate divided by the grid size: the cell's span of grid-size pixels holds the coordinate |
| Pathfinding.IsGrounded | src/modules/pathfinding/PathFinder.js:112-114 | true exactly when the cell below exists and is not walkable |
| Pathfinding.Heuristic | src/modules/pathfinding/PathFinder.js:290-294 | never negative, 0 exactly between equal cells, and at least each axis distance |
| Pathfinding.Reach | src/modules/pathfinding/PathFinder.js:199-226 | a jump or fall of d rows reaches 1 or 2 columns sideways, 1 exactly for d up to 2 |
| Pathfinding.MovementCost | src/modules/pathfinding/PathFinder.js:391-400 | the Euclidean distance, unchanged onto a plain node, 1.5 times it onto a jump node, 1.2 times onto a fall node and 1.8 times onto a node that is both |
| Pathfinding.MoveLandsElsewhere | src/modules/pathfinding/PathFinder.js:156-244 | every neighbour offered is walkable and differs from the node left |
| Pathfinding.PointsOf | src/modules/pathfinding/PathFinder.js:371-376 | one point per cell of the walk, in order, each the cell scaled by the grid size with its jump and fall flags |
| Pathfinding.SameTerrainLandings | src/modules/pathfinding/PathFinder.js:122-154 | marking jump and fall nodes changes neither the grid's shape nor which cells are walkable or landings |
| Pathfinding.CellsFor | src/modules/pathfinding/PathFinder.js:58-59 | the number of cells is the pixel size divided by the cell size, rounded up |
| Pathfinding.FreshGrid | src/modules/pathfinding/PathFinder.js:18-64 | a rectangular grid of the given size whose nodes are walkable unless a collision tile covers them, and unmarked |
| Pathfinding.PlatformPathFinder.constructor | src/modules/pathfinding/PathFinder.js:43-51 | an empty grid, empty open and closed lists and no parent links |
| Pathfinding.PlatformPathFinder.InitializeGrid | src/modules/pathfinding/PathFinder.js:57-84 | the grid covers the scene, exactly the collision tiles are unwalkable, the jump and fall marks are those the platform analysis gives, and no node has a parent |
| Pathfinding.PlatformPathFinder.AnalyzePlatforms | src/modules/pathfinding/PathFinder.js:90-106 | the terrain is unchanged, and a node is a jump (fall) node exactly when it was one or is a landing inside the jump (fall) window of some landing |
| Pathfinding.PlatformPathFinder.MarkJumpNodes | src/modules/pathfinding/PathFinder.js:122-132 | every walkable grounded node up to four rows above and two columns either side becomes a jump node; nothing else changes |
| Pathfinding.PlatformPathFinder.MarkFallNodes | src/modules/pathfinding/PathFinder.js:139-149 | every walkable grounded node up to eight rows below and two columns either side becomes a fall node; nothing else changes |
| Pathfinding.PlatformPathFinder.MarkJumpRow | src/modules/pathfinding/PathFinder.js:124-129 | on one row of the jump window, exactly the walkable grounded nodes within two columns become jump nodes; terrain and every other mark are unchanged |
| Pathfinding.PlatformPathFinder.MarkFallRow | src/modules/pathfinding/PathFinder.js:141-146 | on one row of the fall window, exactly the walkable grounded nodes within two columns become fall nodes; terrain and every other mark are unchanged |
| Pathfinding.PlatformPathFinder.ScanNode | src/modules/pathfinding/PathFinder.js:92-103 | after one more node of the scan, the marks are exactly those of the landings scanned so far |
| Pathfinding.SourceStep | src/modules/pathfinding/PathFinder.js:92-103 | scanning one more node adds exactly that node's windows when it is a landing |
| Pathfinding.SourceRowWrap | src/modules/pathfinding/PathFinder.js:91-92 | the end of one row and the start of the next have scanned the same nodes |
| Pathfinding.ScanStep | src/modules/pathfinding/PathFinder.js:93-102 | scanning one node, which marks its windows only when it is walkable and grounded, extends the scanned prefix by exactly that node |
| Pathfinding.ScannedRowWraps | src/modules/pathfinding/PathFinder.js:91-92 | a grid scanned to the end of a row is scanned to the start of the next |
| Pathfinding.PlatformPathFinder.ScanRow | src/modules/pathfinding/PathFinder.js:92-103 | after one more row of the scan, the marks are exactly those of the landings in the rows scanned so far |
| Pathfinding.PlatformPathFinder.HasValidJumpPath | src/modules/pathfinding/PathFinder.js:246-271 | clear exactly when every sample strictly between the ends is inside the grid and walkable |
| Pathfinding.PlatformPathFinder.GetNeighbors | src/modules/pathfinding/PathFinder.js:156-186 | the neighbours are exactly the horizontal steps, the jumps from a grounded node and the falls |
| Pathfinding.PlatformPathFinder.AddJumpNeighbors | src/modules/pathfinding/PathFinder.js:192-213 | the list is extended, keeping its prefix, by exactly the jump targets |
| Pathfinding.PlatformPathFinder.AddFallNeighbors | src/modules/pathfinding/PathFinder.js:219-240 | the list is extended, keeping its prefix, by exactly the fall targets |
| Pathfinding.PlatformPathFinder.LowestCostNode | src/modules/pathfinding/PathFinder.js:326-327 | the first open node of least total cost |
| Pathfinding.PlatformPathFinder.CloseLowestCostNode | src/modules/pathfinding/PathFinder.js:326-330 | that node leaves the open list and is appended to the closed list; every other open node stays open |
| Pathfinding.CloseKeepsInvariants | src/modules/pathfinding/PathFinder.js:333-334 | moving an open node to the closed list keeps both lists duplicate-free, disjoint and walkable, keeps every node linked by a move to an earlier closed node, and leaves only that node's moves unexplored |
| Pathfinding.PlatformPathFinder.CloseNode | src/modules/pathfinding/PathFinder.js:333-334 | the node leaves the open list and follows the start in the closed list; the lists stay well formed and linked, and only its own moves are unexplored |
| Pathfinding.PlatformPathFinder.ExpandNeighbors | src/modules/pathfinding/PathFinder.js:336-353 | afterwards every neighbour is open or closed, no open node was dropped and closed nodes keep their parent links |
| Pathfinding.PlatformPathFinder.VisitNeighbor | src/modules/pathfinding/PathFinder.js:337-352 | a closed neighbour is skipped; otherwise it ends up open and closed parent links are kept |
| Pathfinding.PlatformPathFinder.VisitNeighborAt | src/modules/pathfinding/PathFinder.js:341-356 | after the j-th neighbour every neighbour up to it is open or closed, no open node was dropped and closed nodes keep their links |
| Pathfinding.PlatformPathFinder.Adopt | src/modules/pathfinding/PathFinder.js:342-350 | the neighbour gets the new cost, the estimate to the end, the current node as parent, and joins the open list once |
| Pathfinding.AdoptKeepsInvariants | src/modules/pathfinding/PathFinder.js:346-354 | linking an unclosed neighbour to the current closed node and opening it keeps the lists well formed and every open node linked by a move to a closed one |
| Pathfinding.PlatformPathFinder.Search | src/modules/pathfinding/PathFinder.js:323-356 | either the end is the last node closed, or the open list ran dry without closing the end and no move leads out of the closed nodes |
| Pathfinding.PlatformPathFinder.SearchStep | src/modules/pathfinding/PathFinder.js:329-356 | one iteration closes a node not closed before, reports the end exactly when that node is the end, and otherwise leaves every move out of the closed nodes explored |
| Pathfinding.PlatformPathFinder.SearchAndReconstruct | src/modules/pathfinding/PathFinder.js:327-359 | from the start alone the search never loops; a path is a walk of moves from the start to the end with one point per cell; null only when no walk from the start reaches the end |
| Pathfinding.ChainIsWalk | src/modules/pathfinding/PathFinder.js:347-381 | following the parent links of one search back from a closed node is a walk of moves from the start |
| Pathfinding.ClosedSetBlocksWalks | src/modules/pathfinding/PathFinder.js:323-356 | a walk starting in a set closed under moves never leaves it, so an exhausted search proves no path |
| Pathfinding.IndexOf | src/modules/pathfinding/PathFinder.js:328 | the first position of the element |
| Pathfinding.Chain | src/modules/pathfinding/PathFinder.js:367-381 | the nodes met following the links run from the start to the given closed node |
| Pathfinding.ChainBack | src/modules/pathfinding/PathFinder.js:373-379 | one step back along the links: the chain to the parent, then the node, then the points gathered so far make up the whole chain; a node without a parent begins it |
| Pathfinding.PlatformPathFinder.ReconstructPath | src/modules/pathfinding/PathFinder.js:367-382 | on the links of one search, the points of the walk from the start to the end |
| Pathfinding.PlatformPathFinder.FindPath | src/modules/pathfinding/PathFinder.js:305-359 | off-grid or blocked ends give null; a path found is a walk of moves from the start cell to the end cell; null for walkable ends means no walk reaches the end; reconstruction always ends |
| Pathfinding.ParentTrail | src/modules/pathfinding/PathFinder.js:367-381 | a trail that ends in time finishes at the given node and passes only parent-linked nodes |
| Pathfinding.TrailResult | src/modules/pathfinding/PathFinder.js:367-382 | the as-written reconstruction never gives null, and it diverges exactly when the trail does |
| Pathfinding.ParentCycleDiverges | src/modules/pathfinding/PathFinder.js:373-379 | two nodes linked to each other make the reconstruction loop forever |
| Pathfinding.PlatformPathFinder.ReconstructPathAsWritten | src/modules/pathfinding/PathFinder.js:367-382 | follows whatever links the nodes hold, giving exactly TrailResult |
| Pathfinding.PlatformPathFinder.FindPathAsWritten | src/modules/pathfinding/PathFinder.js:305-359 | the same null cases, but a found end is reconstructed over the links left by earlier searches too, and the start keeps its old link |
| Pathfinding.ReverseSearchCirclesAsWritten | src/modules/pathfinding/PathFinder.js:319-382 | on two floor cells, the search there gives a path, the search back never returns, and the search back with cleared links gives a path |
| Pathfinding.TwoCellFloor | src/modules/pathfinding/PathFinder.js:57-84 | a 64 by 64 scene over a solid bottom row has exactly two walkable cells, each a move from the other |
| Pathfinding.SearchLeftToRight | src/modules/pathfinding/PathFinder.js:319-359 | on the two-cell floor, the search from the left cell to the right one finds a path and links the right cell to the left |
| Pathfinding.SearchBackAsWritten | src/modules/pathfinding/PathFinder.js:319-382 | with that link left in place, the search back from the right cell to the left one never returns |
| Pathfinding.LastLinkIsTheOtherCell | src/modules/pathfinding/PathFinder.js:347 | with only two walkable cells, the one closed last is linked to the start |
| ProceduralGeneration.PaintedSnoc | src/scripts/ProceduralGenerator.js:105-106 | painting one more platform adds exactly its cells |
| ProceduralGeneration.PaintedCons | src/scripts/ProceduralGenerator.js:67-106 | a platform painted first adds exactly its cells to the later ones' |
| ProceduralGeneration.FirstPlatformPainted | src/scripts/ProceduralGenerator.js:67-72 | a cell of the start platform is painted once the list is painted |
| ProceduralGeneration.WidthRoll | src/scripts/ProceduralGenerator.js:77-80 | a platform's width lies in [minPlatformWidth, maxPlatformWidth] |
| ProceduralGeneration.HeightRoll | src/scripts/ProceduralGenerator.js:83-86 | a platform's row is a row of the grid between half and five sixths of its height: floor(h/2) <= y < 5h/6 |
| ProceduralGeneration.MinGap | src/scripts/ProceduralGenerator.js:89-92 | the narrowest gap is never negative and at least one tile when minGapWidth is 32 pixels or more |
| ProceduralGeneration.GapRoll | src/scripts/ProceduralGenerator.js:89-92 | every gap is at least the narrowest gap and at most maxGapWidth / 32 tiles, strictly below it when the range is not empty |
| ProceduralGeneration.SpawnPoint | src/scripts/ProceduralGenerator.js:130-137 | two rows above the first platform and two columns into it, inside it when it is wider than two |
| ProceduralGeneration.EndPoint | src/scripts/ProceduralGenerator.js:139-146 | two rows above the last platform, at column x + floor(width / 2): 2 * (p.x - x) is the width or one less |
| ProceduralGeneration.EnemyCount | src/scripts/ProceduralGenerator.js:169-170 | one or two enemies, two exactly on platforms six or more tiles wide |
| ProceduralGeneration.EnemySlots | src/scripts/ProceduralGenerator.js:172-180 | EnemyCount places, each one row above the platform and on it |
| ProceduralGeneration.SlotAt | src/scripts/ProceduralGenerator.js:174-177 | one row above the platform and within its columns |
| ProceduralGeneration.EndsGetNoEnemies | src/scripts/ProceduralGenerator.js:157-161 | what the first and last platforms are never changes the enemies placed |
| ProceduralGeneration.SameSlotsUpTo | src/scripts/ProceduralGenerator.js:157-161 | platforms that agree except at the ends give the same enemy places up to any point |
| ProceduralGeneration.EligiblePlatformSlots | src/scripts/ProceduralGenerator.js:164-180 | a platform far enough from the spawn point adds exactly its EnemyCount places, after the earlier ones |
| ProceduralGeneration.ValidateLevel | src/scripts/ProceduralGenerator.js:191-202 | valid exactly with at least three platforms and both points present |
| ProceduralGeneration.ProceduralGenerator.CheckCollision | src/scripts/ProceduralGenerator.js:204-209 | outside the grid is solid; inside, solid exactly when the tile is non-zero |
| ProceduralGeneration.ProceduralGenerator.constructor | src/scripts/ProceduralGenerator.js:6-26 | an all-empty grid of the configured size |
| ProceduralGeneration.ProceduralGenerator.AddPlatform | src/scripts/ProceduralGenerator.js:115-128 | every cell of the rectangle inside the grid gets a tile from the solid list; every other cell is unchanged |
| ProceduralGeneration.ProceduralGenerator.PlaceRandomPlatforms | src/scripts/ProceduralGenerator.js:74-110 | the platforms kept fit the grid and the configured ranges, each a minimal gap after the one before, and the grid changes exactly at their cells |
| ProceduralGeneration.FitsAfter | src/scripts/ProceduralGenerator.js:94-103 | a platform inside the grid and the ranges, a minimal gap after the previous one, keeps the list fitting |
| ProceduralGeneration.ProceduralGenerator.GeneratePlatformsAsWritten | src/scripts/ProceduralGenerator.js:62-113 | the start platform comes first and the rest fit, but only the later platforms' cells are painted |
| ProceduralGeneration.ProceduralGenerator.GeneratePlatforms | src/scripts/ProceduralGenerator.js:62-113 | the start platform comes first, the rest fit, and the grid is painted at exactly every platform's cells |
| ProceduralGeneration.ProceduralGenerator.GenerateEnemyPositions | src/scripts/ProceduralGenerator.js:153-185 | exactly the places of the eligible platforms, in platform order |
| ProceduralGeneration.ProceduralGenerator.GenerateLevel | src/scripts/ProceduralGenerator.js:33-56 | a fresh grid painted at exactly the platforms' cells, the spawn above the start platform, the end above the last, the enemies on eligible platforms; every cell of the start platform is solid, and so is the tile two rows under the spawn point when the start platform is wider than two tiles |
| ProceduralGeneration.ProceduralGenerator.GenerateLevelAsWritten | src/scripts/ProceduralGenerator.js:33-72 | the platforms fit, the spawn, end and enemies are placed as in GenerateLevel, but only the platforms after the start one are painted; with gaps of a tile or more column 0 stays empty in every row, so the start platform's cell there is not solid |
| ProceduralGeneration.ColumnZeroUnpainted | src/scripts/ProceduralGenerator.js:94-106 | platforms that all start a minimal gap of at least one tile in never cover column 0 |
| TrapPlacement.Slice | src/modules/managers/TrapManager.js:54 | JavaScript's slice: from k on for k >= 0, the last -k elements for negative k |
| TrapPlacement.Take | src/modules/managers/TrapManager.js:46-57 | the first min(count, length) elements, none for count <= 0 |
| TrapPlacement.AlarmPoints | src/modules/managers/TrapManager.js:45-51 | as many alarm places as the count allows, at most one per point |
| TrapPlacement.TrapPoints | src/modules/managers/TrapManager.js:53-62 | the traps never outnumber the points left after the alarms' share |
| TrapPlacement.AlarmsAndTrapsApart | src/modules/managers/TrapManager.js:45-62 | with distinct points and a non-negative alarm count, no point gets both an alarm and a trap |
| TrapPlacement.PermutationKeepsDistinct | src/modules/managers/TrapManager.js:42 | shuffling distinct spawn points keeps them distinct |
| TrapPlacement.PermutationKeepsElements | src/modules/managers/TrapManager.js:42 | a shuffle holds exactly the same points |
| TrapPlacement.TrapManager.constructor | src/modules/managers/TrapManager.js:5-12 | both groups start empty |
| TrapPlacement.TrapManager.FindSpawnPoints | src/modules/managers/TrapManager.js:14-35 | exactly the lattice points inside the margin away from every platform, each once |
| TrapPlacement.TrapManager.CreateTraps | src/modules/managers/TrapManager.js:37-63 | nothing without spawn points; otherwise the free points are shuffled, the alarms take the first ones and the traps the ones after, a missing setting counting as 0 |
| TrapPlacement.TrapManager.PlaceAlarms | src/modules/managers/TrapManager.js:45-51 | exactly AlarmPoints are appended to the alarms; the traps are untouched |
| TrapPlacement.TrapManager.PlaceTraps | src/modules/managers/TrapManager.js:53-62 | exactly TrapPoints are appended to the traps; the alarms are untouched |
| LdtkEntities.PositionKey | src/modules/managers/LDTKEntityManager.js:108-110 | the key is the decimal world x, a comma, then the decimal world y, and that comma is the only one in the key |
| LdtkEntities.PositionKeyInjective | src/modules/managers/LDTKEntityManager.js:108-110 | two entities get the same position key exactly when they sit at the same world position |
| LdtkEntities.CommaJoinInjective | src/modules/managers/LDTKEntityManager.js:109 | joining two comma-free numbers with a comma can be undone |
| LdtkEntities.Keys | src/modules/managers/LDTKEntityManager.js:108-153 | one key per sprite, the key of its position |
| LdtkEntities.ToLower | src/modules/managers/LDTKEntityManager.js:176-216 | same length; upper-case ASCII letters become lower case and every other character is kept |
| LdtkEntities.FieldKey | src/modules/managers/LDTKEntityManager.js:271 | a field is stored only when it is an object with a truthy identifier |
| LdtkEntities.LastFieldFor | src/modules/managers/LDTKEntityManager.js:270-273 | the last field among the first n stored under the name, or none when no field is |
| LdtkEntities.CreateInstance | src/modules/managers/LDTKEntityManager.js:165-210 | a sprite exactly when the texture is loaded, at the world position; the tracking is untouched |
| LdtkEntities.Register | src/modules/managers/LDTKEntityManager.js:145-155 | the position becomes loaded, the iid maps to the sprite and the sprite joins its layer |
| LdtkEntities.StepEntity | src/modules/managers/LDTKEntityManager.js:86-99 | at most one sprite; a skipped or failed entity loads nothing; afterwards its position is loaded or it cannot be created |
| LdtkEntities.StepLoadsOnce | src/modules/managers/LDTKEntityManager.js:86-99 | one entity loads at most one new position, with a sprite at it |
| LdtkEntities.EntitiesLoadEachPositionOnce | src/modules/managers/LDTKEntityManager.js:75-106 | processing a layer creates one sprite per newly loaded position: distinct keys, none loaded before |
| LdtkEntities.LayersLoadEachPositionOnce | src/modules/managers/LDTKEntityManager.js:53-65 | the same over a whole level: no position gets two registered sprites |
| LdtkEntities.LoadsOnceCompose | src/modules/managers/LDTKEntityManager.js:53-65 | two rounds that each load positions once together load them once |
| LdtkEntities.FreshKeysCompose | src/modules/managers/LDTKEntityManager.js:53-65 | two sets of fresh distinct keys added one after the other are fresh and distinct together |
| LdtkEntities.KeysConcat | src/modules/managers/LDTKEntityManager.js:62 | the keys of concatenated sprite lists are the concatenated keys |
| LdtkEntities.ProcessingSettles | src/modules/managers/LDTKEntityManager.js:84-100 | after a layer, every entity is at a loaded position or has no loaded texture, and no position was unloaded |
| LdtkEntities.SettledCreatesNothing | src/modules/managers/LDTKEntityManager.js:88-98 | settled entities create nothing and load nothing |
| LdtkEntities.LayersSettle | src/modules/managers/LDTKEntityManager.js:53-65 | after a level every entity of its Entities layers is settled |
| LdtkEntities.SettledLayersCreateNothing | src/modules/managers/LDTKEntityManager.js:53-65 | a settled level creates nothing on a second load |
| LdtkEntities.Cleanup | src/modules/managers/LDTKEntityManager.js:303-306 | instances and layers are forgotten; the loaded positions are kept |
| LdtkEntities.ReloadAfterCleanupCreatesNothing | src/modules/managers/LDTKEntityManager.js:53-65 | loading a level, cleaning up and loading it again at the same offset creates no sprite the second time |
| LdtkEntities.LdtkEntityManager.constructor | src/modules/managers/LDTKEntityManager.js:12-32 | empty instance, layer and factory maps, no loaded positions, no pending retries |
| LdtkEntities.LdtkEntityManager.RegisterEntityFactories | src/modules/managers/LDTKEntityManager.js:39-43 | every listed type gets its last listed factory; other types keep theirs; the tracking is untouched |
| LdtkEntities.LdtkEntityManager.CreateEntityInstance | src/modules/managers/LDTKEntityManager.js:165-210 | the state and result are CreateInstance's: a sprite with a loaded texture, else a retry scheduled below five attempts |
| LdtkEntities.LdtkEntityManager.FireRetry | src/modules/managers/LDTKEntityManager.js:187-189 | the oldest retry is taken off and repeated; its sprite is not registered |
| LdtkEntities.LdtkEntityManager.TryCreateEntity | src/modules/managers/LDTKEntityManager.js:120-135 | a first attempt: CreateInstance with retry count 0 |
| LdtkEntities.LdtkEntityManager.RegisterEntity | src/modules/managers/LDTKEntityManager.js:145-155 | the tracking becomes Register's and the sprite is appended to the created list |
| LdtkEntities.LdtkEntityManager.ProcessEntity | src/modules/managers/LDTKEntityManager.js:85-99 | one loop step: the state and created list follow StepEntity |
| LdtkEntities.LdtkEntityManager.ProcessEntityLayer | src/modules/managers/LDTKEntityManager.js:75-106 | the layer's set starts empty and the state and result follow ProcessLayer |
| LdtkEntities.LdtkEntityManager.CreateEntities | src/modules/managers/LDTKEntityManager.js:53-65 | only Entities layers are processed, in order, a missing layer list counting as empty |
| LdtkEntities.LdtkEntityManager.CreateFallbackEntity | src/modules/managers/LDTKEntityManager.js:218-247 | one new sprite with the fallback texture at the world position and nothing else tracked |
| LdtkEntities.LdtkEntityManager.GetEntityById | src/modules/managers/LDTKEntityManager.js:285-287 | the sprite stored under the iid, none when absent |
| LdtkEntities.LdtkEntityManager.GetEntitiesByLayer | src/modules/managers/LDTKEntityManager.js:295-297 | the layer's sprites, an empty set for an unknown layer |
| LdtkEntities.LdtkEntityManager.CleanupEntities | src/modules/managers/LDTKEntityManager.js:303-306 | the tracking becomes Cleanup's; factories are kept |
| LdtkEntities.ProcessEntityFields | src/modules/managers/LDTKEntityManager.js:267-277 | for an array, exactly the names of fields with a truthy identifier, each holding the last such field's value; anything else gives an empty object |
| Animations.FrameNumbers | src/managers/graphics/AnimationManager.js:148-151 | exactly the frames of the named texture that it has with indices in start..end: none outside, and every such index present; none for a texture that is not loaded |
| Animations.CreateIfAbsent | src/managers/graphics/AnimationManager.js:117-196 | the key is registered afterwards; an existing animation is kept and nothing else is added |
| Animations.CharactersRegister | src/managers/graphics/AnimationManager.js:141-202 | the character step only adds animations, and afterwards every character animation with a loaded texture is registered |
| Animations.CharactersSettled | src/managers/graphics/AnimationManager.js:189-191 | when they are all registered already, the character step changes nothing |
| Animations.EnemiesRegister | src/managers/graphics/AnimationManager.js:207-254 | the enemy step only adds animations, and afterwards every enemy animation whose texture gives frames is registered |
| Animations.EnemiesSettled | src/managers/graphics/AnimationManager.js:233-234 | when they are all registered already, the enemy step changes nothing |
| Animations.HudFramesExtend | src/managers/graphics/AnimationManager.js:398-411 | the still frames only add animations, and name_0 is among them |
| Animations.HudBarRegisters | src/managers/graphics/AnimationManager.js:391-415 | a HUD bar only adds animations and name_0 is registered afterwards |
| Animations.ExtendsTransitive | src/managers/graphics/AnimationManager.js:434-454 | adding animations in two steps adds them in one |
| Animations.HasCharactersKept | src/managers/graphics/AnimationManager.js:434-454 | registered character animations stay registered when more are added |
| Animations.HasEnemiesKept | src/managers/graphics/AnimationManager.js:434-454 | registered enemy animations stay registered when more are added |
| Animations.CreateAllFromIdempotent | src/managers/graphics/AnimationManager.js:434-454 | creating everything only adds animations, and a second run over the result changes nothing |
| Animations.CreateAllFromRegisters | src/managers/graphics/AnimationManager.js:434-454 | creating everything only adds animations, and afterwards every character and enemy animation, the bullet, the coin, both HUD bars and the preloader are registered |
| Animations.CreateAllIdempotent | src/managers/graphics/AnimationManager.js:434-454 | with the game's own lists, createAllAnimations only adds and a second run changes nothing |
| Animations.BuildFrames | src/managers/graphics/AnimationManager.js:68-77 | one frame per step from prevFrame to targetFrame inclusive, each on the health texture, moving by one toward the target |
| Animations.CallbackCount | src/managers/graphics/AnimationManager.js:99-103 | never more callbacks than listeners |
| Animations.AnimatedSprite.constructor | src/managers/graphics/AnimationManager.js:98 | a sprite resting on the given frame with no animation and no listener |
| Animations.AnimatedSprite.Play | src/managers/graphics/AnimationManager.js:98 | with ignoreIfPlaying and the same animation running nothing changes; otherwise the animation becomes current and plays |
| Animations.AnimationManager.constructor | src/managers/graphics/AnimationManager.js:12-15 | the textures and animations given, not initialized |
| Animations.AnimationManager.Initialize | src/managers/graphics/AnimationManager.js:20-25 | creates every animation on the first call only; later calls change nothing |
| Animations.AnimationManager.HasAnimation | src/managers/graphics/AnimationManager.js:30-32 | true exactly when the key is registered |
| Animations.AnimationManager.PlayOn | src/managers/graphics/AnimationManager.js:37-43 | plays exactly when the key is registered, and leaves the sprite alone otherwise |
| Animations.AnimationManager.CreateAllAnimations | src/managers/graphics/AnimationManager.js:434-454 | the table becomes CreateAll of the old one |
| Animations.AnimationManager.CreateFromList | src/managers/graphics/AnimationManager.js:187-252 | the loops give exactly Characters or Enemies of the old table |
| Animations.AnimationManager.CreateHudBar | src/managers/graphics/AnimationManager.js:391-415 | the table becomes HudBar of the old one |
| Animations.AnimationManager.PlayHealthTransition | src/managers/graphics/AnimationManager.js:59-104 | equal frames set the frame and run the callback at once; otherwise a health_change animation keyed by the time is created if absent, with frames prevFrame to targetFrame stepping by one on the health texture, frame rate 8 and no repeat, then played, and one completion listener for the target is added |
| Animations.AnimationManager.AnimationComplete | src/managers/graphics/AnimationManager.js:99-103 | the sprite rests on the last listener's target, every listener's animation is removed and nothing else, and each callback runs once |
| Animations.WithoutListenersRemovesTheirKeys | src/managers/graphics/AnimationManager.js:99-100 | after the listeners run, a key is registered exactly when it was and no listener removes it, each with its old animation |
| Animations.ListenerStep | src/managers/graphics/AnimationManager.js:99-103 | one more listener sets the frame to its target, adds its callback to the count and removes exactly its key |
| Animations.AnimationManager.RunListener | src/managers/graphics/AnimationManager.js:99-103 | the listener's animation is removed, the sprite rests on its target frame and its callback, if any, is run once |
| Audio.NewSound | src/modules/managers/AudioManager.js:52-55 | a new sound is stopped, never started, and takes the config's volume and loop where given, else the manager's |
| Audio.Paused | src/modules/managers/AudioManager.js:101-109 | only a playing sound is paused; any other is left alone |
| Audio.Resumed | src/modules/managers/AudioManager.js:116-124 | only a paused sound resumes; any other is left alone |
| Audio.MapSounds | src/modules/managers/AudioManager.js:88-131 | the same keys, each sound transformed |
| Audio.PauseThenResume | src/modules/managers/AudioManager.js:98-125 | a sound not already paused comes back unchanged from a mute and unmute, and a playing one plays again |
| Audio.MuteThenUnmuteRestores | src/modules/managers/AudioManager.js:98-125 | with no sound paused beforehand, muting then unmuting restores every cached sound exactly |
| Audio.AudioManager.constructor | src/modules/managers/AudioManager.js:14-26 | the stored volumes, or 1 where none is stored; no sounds, no music, not muted |
| Audio.AudioManager.ForEachSound | src/modules/managers/AudioManager.js:88-105 | every cached sound is transformed and nothing else changes |
| Audio.AudioManager.Add | src/modules/managers/AudioManager.js:50-58 | a new key gets a stopped sound at the manager's volume unless the config says otherwise; an existing key is left alone |
| Audio.AudioManager.Play | src/modules/managers/AudioManager.js:61-76 | muted does nothing; otherwise the sound is created if needed and is playing afterwards, and a sound already playing is not restarted |
| Audio.AudioManager.Stop | src/modules/managers/AudioManager.js:79-84 | the cached sound, if any, is stopped; nothing else changes |
| Audio.AudioManager.StopAll | src/modules/managers/AudioManager.js:87-91 | every cached sound is stopped and none is paused |
| Audio.AudioManager.Mute | src/modules/managers/AudioManager.js:98-110 | muted, and every playing sound and the playing music paused |
| Audio.AudioManager.Unmute | src/modules/managers/AudioManager.js:113-125 | not muted, and every paused sound and paused music resumed |
| Audio.AudioManager.OnSoundVolumeChanged | src/modules/managers/AudioManager.js:28-33 | the volume becomes the new value, and when it differed every cached sound takes it |
| Audio.AudioManager.OnMusicVolumeChanged | src/modules/managers/AudioManager.js:35-42 | the music volume becomes the new value, and when it differed the current track takes it |
| Audio.AudioManager.UpdateAllSoundVolumes | src/modules/managers/AudioManager.js:128-132 | every cached sound takes the manager's volume |
| Audio.AudioManager.SetSoundVolumeAsWritten | src/modules/managers/AudioManager.js:139-143 | the volume is stored and written to the registry, but the listener then sees no change, so cached sounds keep their old volume |
| Audio.AudioManager.SetSoundVolume | src/modules/managers/AudioManager.js:139-143 | a changed volume is stored, written to the registry, and taken by every cached sound |
| Audio.AudioManager.SetMusicVolumeAsWritten | src/modules/managers/AudioManager.js:150-154 | the music volume is stored and written, but the current track keeps its old volume |
| Audio.AudioManager.SetMusicVolume | src/modules/managers/AudioManager.js:150-154 | a changed music volume is stored, written, and taken by the current track |
| Audio.AudioManager.PlayMusic | src/modules/managers/AudioManager.js:170-187 | the same track already playing only takes the music volume; otherwise the old track is stopped and destroyed and a new looping track at the music volume starts unless muted |
| Audio.AudioManager.StopMusic | src/modules/managers/AudioManager.js:190-196 | no current track afterwards; a track there before is stopped and destroyed |
| Audio.AudioManager.PlayBackgroundMusic | src/modules/managers/AudioManager.js:199-201 | the given track is current, looping unless it was already playing, and playing when not muted |
| ReduxStore.LastNOfLastN | src/modules/state/Store.js:176-183 | trimming the history to its newest 100 entries before appending gives the same history as trimming only afterwards |

## Left out

- Phaser rendering, tweens, physics bodies, cameras, input and console logging are not modelled. The calls the core makes into them are left out or recorded as fields.
- JavaScript numbers are modelled as mathematical reals or integers. IEEE rounding and overflow are not modelled.
- JsValues.ToNumber: a string reads as a number only when it is a plain decimal digit string ("" is 0). Signs, fractions, exponents and surrounding whitespace read as NaN, whereas `Number` accepts them.
- Property lookups never reach `Object.prototype`: an object's keys are exactly its own entries.
- Store.persist, Store.hydrate and localStorage are not modelled. The persistence subscriber of `GameStateFacade.GameStateManager` is modelled as a `savedState` field that it overwrites with the new state.
- Events.EventBus.Emit: a listener is a non-throwing delivery record. A throwing listener is caught and the remaining listeners are still called, but the thrown error and its log line are not modelled.
- ObjectPools.ObjectPool: `createNewObject` is abstract and yields a fresh, live object.
- DiContainer.ServiceContainer: keys are strings, whereas a JavaScript `Map` also accepts other keys.
- PlayerRules.Player: the movement, roll and hover physics are not modelled; only their stamina cost tiers are. The constructor takes the stored registry values as parameters.
- PlayerRules.Player.TakeDamage: the `amount` argument is always given; its default `GameConfig.PLAYER.DAMAGE` (25, the `Damage` constant) is not modelled as a default.
- ObjectPools.ObjectPool.constructor: `initialSize` is always given; its default of 20 is not modelled as a default.
- LevelGameState.GameStateManager.Increment, LevelGameState.GameStateManager.Decrement, SceneState.StateManager.Increment and SceneState.StateManager.Decrement: the `amount` argument is always given; its default of 1 is not modelled as a default.
- PlayerRules.Player.constructor requires a non-negative stored HP and a stored stamina within [0, 100], the only values the game stores.
- Pathfinding.MovementCost: `Math.sqrt` is a parameter, so the cost bounds are stated for a non-negative square root only.
- Pathfinding.PlatformPathFinder.ReconstructPathAsWritten: following parent links is cut off after one more step than there are cells. The trail is then reported as `Diverges`, where the program loops forever.
- Pathfinding: the debug drawing of the path is not modelled, and the tilemap is given as its set of colliding cells.
- ProceduralGeneration.ProceduralGenerator: configuration overrides are passed as one whole `Config`, and `platformDensity` is never read by the program.
- ProceduralGeneration.Usable requires 1 <= minPlatformWidth <= maxPlatformWidth, 0 <= minGapWidth <= maxGapWidth and a non-empty list of solid tiles. A negative gap, or a zero minimum width with gaps below one tile, can make `generatePlatforms` loop forever. Usable also excludes configurations on which the program does terminate: inverted width or gap ranges, and a zero minimum width with gaps of at least one tile (32 px). The configurations the game passes (the generator's defaults, the 3..8 width and 3..5 gap setting of the TheZucc scene and its difficulty presets) all satisfy it.
- ProceduralGeneration.ProceduralGenerator.AddPlatform requires non-negative corners. The generator only ever passes such corners.
- ProceduralGeneration.ProceduralGenerator.GeneratePlatforms (corrected) requires a grid at least two rows high, so that the start platform fits.
- ProceduralGeneration: the random enemy type, tile index, widths, gaps and heights are nondeterministic choices within the program's ranges.
- TrapPlacement.TrapManager: the alarm and trap settings are integers. Collision setup, the alarm's `setSize` and the log lines are not modelled. The shuffle is any permutation.
- LdtkEntities.LdtkEntityManager: the try/catch around entity creation is not modelled, so an error thrown by Phaser is not modelled either. `px` has exactly two entries.
- LdtkEntities.FieldKey: a truthy identifier that is a fractional number is skipped, whereas JavaScript would use its decimal text as the key. Strings, booleans, integral numbers and objects are converted as JavaScript converts them, and falsy identifiers are skipped as in the program.
- LdtkEntities.ToLower: maps only the ASCII letters A to Z, whereas `toLowerCase` also maps non-ASCII letters. LDtk entity identifiers are ASCII names, so the sheet chosen for them is the same.
- LayersLoadEachPositionOnce: covers registered sprites only. A sprite created by a retry (FireRetry) is neither registered nor marked loaded, so a later entity at the same position can add a second sprite there.
- LdtkEntities: `setupEntityBehavior` and the debug labels are not modelled. The asset manager is the `sheetFor` function of the environment, with `default_sprite` as the fallback texture.
- Animations.AnimationManager: `Date.now()` is a parameter, and the `animationcomplete` listener runs through an explicit call (AnimationComplete). `ignoreIfPlaying` is a parameter of Play and PlayOn; PlayHealthTransition passes false, as `sprite.play(animKey)` does, and texture frames through their frame counts. Animation groups other than the health bar are modelled as tables of keys and frame ranges.
- Audio.AudioManager: the `play(config)` config applies only when a sound is created. Sounds are records. `registry.set` is recorded as a list of writes, and the `changedata` listener is invoked explicitly after each write. A stopped and destroyed music track is recorded in `destroyedMusic`.
- Audio.AudioManager: the volume getters are plain field reads.
- Copies of modelled files are not modelled: src/managers/ldtk/LDTKEntityManager.js, src/prefabs/ui/PlayerHUD.js (including its handleRespawn), src/modules/managers/AnimationManager.js, the pools under src/pools and src/modules/managers/pools, HazardManager, src/modules/managers/state, src/managers/entities/EnemyManager.js, and the SoundManager and MusicManager.

## Findings

| source | as written | input that shows it | evidently intended | confidence | as-written member | corrected member |
|---|---|---|---|---|---|---|
| src/prefabs/Player.js:192-203 | after a survived hit the 2-second invulnerability is overwritten by a 1-second `makeInvulnerable` window | a second hit 1.5 s after a survived hit lands | the player stays invulnerable for the configured 2 seconds | not executed | PlayerRules.SecondHitLandsAsWritten | PlayerRules.SecondHitIgnoredAsIntended |
| src/prefabs/Player.js:104-105 | lives start at `GameConfig.PLAYER.INITIAL_LIVES`, which the configuration does not define, so they are `undefined` and decrement to NaN | a first game with no stored lives: no number of deaths ever reaches game over | lives start at the default 3 | not executed | PlayerRules.NoGameOverWithoutStoredLives | PlayerRules.DefaultLivesEndInGameOver |
| src/modules/pathfinding/PathFinder.js:305-382 | `findPath` never clears the nodes' parent links between searches, so `reconstructPath` can follow a stale cycle | on a 64x64 scene with a solid bottom row, findPath from (0,0) to (32,0) and then from (32,0) to (0,0): the second reconstruction never ends | every search starts from clean parent links | not executed | Pathfinding.ReverseSearchCirclesAsWritten | Pathfinding.PlatformPathFinder.FindPath |
| src/scripts/ProceduralGenerator.js:67-72, src/scripts/ProceduralGenerator.js:105-106 | the start platform is pushed to the list but never painted into the grid | the default configuration: cell (0,10) stays 0 | every platform in the list is painted | not executed | ProceduralGeneration.ColumnZeroUnpainted | ProceduralGeneration.ProceduralGenerator.GeneratePlatforms |
| src/modules/managers/AudioManager.js:139-154, src/modules/managers/AudioManager.js:28-42 | the volume setters store the new value before `registry.set`, so the `changedata` listener sees no change and cached sounds and the music keep their old volume | add('jump') at volume 1, then setSoundVolume(0.5): jump stays at 1 | the new volume reaches the cached sounds and the current track | not executed | Audio.AudioManager.SetSoundVolumeAsWritten | Audio.AudioManager.SetSoundVolume |
