/**
 * The facade over the Redux-like store that scenes use: typed updates,
 * validation of statuses and player states, stamina clamping, lives and
 * game over, and a persistence subscriber that saves every new state.
 */
module GameStateFacade {
  import opened JsValues
  import opened Actions
  import opened ReduxStore

  /** The callback registered at construction, which saves the state after every notification. */
  const PersistCallback: Subscriber := 0

  /** `Math.max(0, Math.min(100, v))`. */
  function StaminaPayload(v: Value): (r: Value)
    ensures r.Num? || r == NaN
    ensures r == NaN <==> ToNumber(v).None?
    ensures r.Num? ==> 0.0 <= r.n <= 100.0
    ensures r.Num? && 0.0 <= ToNumber(v).value <= 100.0 ==> r.n == ToNumber(v).value
  {
    match ToNumber(v)
    case None => NaN
    case Some(x) => Num(RealMax(0.0, RealMin(100.0, x)))
  }

  /** `currentLives - 1 <= 0`, which is false when the subtraction gives NaN. */
  predicate LosesLastLife(lives: Value)
  {
    SubInt(lives, 1).Num? && SubInt(lives, 1).n <= 0.0
  }

  /**
   * The state after `decrementLives`: one life is taken when there is one to
   * take, and the game is over when the count before the call was at most one.
   */
  function DecrementLivesState(s: State): (r: State)
    ensures Get(r, Lives) == if GreaterThanZero(Get(s, Lives)) then SubInt(Get(s, Lives), 1) else Get(s, Lives)
    ensures Get(r, Status) == if LosesLastLife(Get(s, Lives)) then GAME_OVER else Get(s, Status)
    ensures forall f :: f != Lives && f != Status ==> Get(r, f) == Get(s, f)
    ensures r.settings == s.settings
  {
    var lives := Get(s, Lives);
    var s1 := if GreaterThanZero(lives) then Reduce(s, UpdateLives(SubInt(lives, 1))) else s;
    if LosesLastLife(lives) then Reduce(s1, UpdateGameStatus(GAME_OVER)) else s1
  }

  /**
   * With a whole number of lives the count never drops below zero, and the
   * game ends exactly when the count reaches zero.
   */
  lemma DecrementLivesOnCount(s: State, k: nat)
    requires Get(s, Lives) == Num(k as real)
    ensures Get(DecrementLivesState(s), Lives) == Num(if k == 0 then 0.0 else (k - 1) as real)
    ensures Get(DecrementLivesState(s), Status) == GAME_OVER <==> (k <= 1 || Get(s, Status) == GAME_OVER)
  {
  }

  /** Three lives last exactly three decrements before the game is over. */
  lemma ThreeLivesThreeDecrements(s: State)
    requires Get(s, Lives) == Num(3.0) && Get(s, Status) == PLAYING
    ensures Get(DecrementLivesState(s), Status) == PLAYING
    ensures Get(DecrementLivesState(DecrementLivesState(s)), Status) == PLAYING
    ensures Get(DecrementLivesState(DecrementLivesState(DecrementLivesState(s))), Status) == GAME_OVER
    ensures Get(DecrementLivesState(DecrementLivesState(DecrementLivesState(s))), Lives) == Num(0.0)
  {
    DecrementLivesOnCount(s, 3);
    var s1 := DecrementLivesState(s);
    DecrementLivesOnCount(s1, 2);
    var s2 := DecrementLivesState(s1);
    DecrementLivesOnCount(s2, 1);
  }

  /** Pausing a running game and resuming it gives back exactly the state it was in. */
  lemma PauseThenResume(s: State)
    requires Get(s, Status) == PLAYING
    ensures var paused := Reduce(s, Actions.UpdateGameStatus(PAUSED));
      && Get(paused, Status) == PAUSED
      && Reduce(paused, Actions.UpdateGameStatus(PLAYING)) == s
  {
    var paused := Reduce(s, Actions.UpdateGameStatus(PAUSED));
    assert paused == s.(game := s.game.(status := PAUSED));
  }

  class GameStateManager {
    const store: Store
    /** What local storage holds under `gameState`. */
    var savedState: Option<State>

    /**
     * The persistence subscriber stays registered, every notification has
     * been followed by a save, and the status and player state only ever
     * take their enumerated values.
     */
    ghost predicate Valid()
      reads this, store
    {
      && store.Valid()
      && PersistCallback in store.subscribers
      && (store.notifications != [] ==> savedState == Some(store.state))
      && Get(store.state, Status) in GameStatuses
      && Get(store.state, PlayerStateField) in PlayerStates
    }

    constructor (saved: Option<State>)
      ensures Valid()
      ensures store.state == InitialState() && store.subscribers == [PersistCallback]
      ensures savedState == saved && fresh(store)
    {
      store := new Store();
      savedState := saved;
      new;
      store.Subscribe(PersistCallback);
    }

    /** Dispatch through the store; the persistence subscriber saves the result. */
    method Dispatch(a: Action, now: int)
      requires Valid()
      requires a.kind == UPDATE_GAME_STATUS ==> a.payload in GameStatuses
      requires a.kind == UPDATE_PLAYER_STATE ==> a.payload in PlayerStates
      modifies this, store
      ensures Valid()
      ensures store.state == Reduce(old(store.state), a) && savedState == Some(store.state)
      ensures store.subscribers == old(store.subscribers)
      ensures store.history == AddToHistory(old(store.history), HistoryEntry(a, old(store.state), store.state, now))
    {
      var _ := store.Dispatch(a, now);
      savedState := Some(store.state);
    }

    method UpdateScore(score: Value, now: int)
      requires Valid()
      modifies this, store
      ensures Valid()
      ensures store.state == Reduce(old(store.state), Actions.UpdateScore(score)) && Get(store.state, Score) == score
      ensures savedState == Some(store.state)
    {
      Dispatch(Actions.UpdateScore(score), now);
    }

    /** Adds `amount` to the score with JavaScript's `+`. */
    method IncrementScore(amount: int, now: int)
      requires Valid()
      modifies this, store
      ensures Valid()
      ensures store.state == Reduce(old(store.state), Actions.UpdateScore(AddInt(Get(old(store.state), Score), amount)))
      ensures old(Get(store.state, Score)).Num? ==> Get(store.state, Score) == Num(old(Get(store.state, Score)).n + amount as real)
    {
      var current := Get(store.state, Score);
      UpdateScore(AddInt(current, amount), now);
    }

    method UpdateLives(lives: Value, now: int)
      requires Valid()
      modifies this, store
      ensures Valid()
      ensures store.state == Reduce(old(store.state), Actions.UpdateLives(lives)) && Get(store.state, Lives) == lives
    {
      Dispatch(Actions.UpdateLives(lives), now);
    }

    method DecrementLives(now: int)
      requires Valid()
      modifies this, store
      ensures Valid()
      ensures store.state == DecrementLivesState(old(store.state))
    {
      var current := Get(store.state, Lives);
      if GreaterThanZero(current) {
        UpdateLives(SubInt(current, 1), now);
      }
      if LosesLastLife(current) {
        HandleGameOver(now);
      }
    }

    method UpdateHealth(health: Value, now: int)
      requires Valid()
      modifies this, store
      ensures Valid()
      ensures store.state == Reduce(old(store.state), Actions.UpdateHealth(health)) && Get(store.state, Health) == health
    {
      Dispatch(Actions.UpdateHealth(health), now);
    }

    method UpdateStamina(stamina: Value, now: int)
      requires Valid()
      modifies this, store
      ensures Valid()
      ensures store.state == Reduce(old(store.state), Actions.UpdateStamina(StaminaPayload(stamina)))
      ensures Get(store.state, Stamina).Num? ==> 0.0 <= Get(store.state, Stamina).n <= 100.0
    {
      Dispatch(Actions.UpdateStamina(StaminaPayload(stamina)), now);
    }

    method UpdateBitcoins(bitcoins: Value, now: int)
      requires Valid()
      modifies this, store
      ensures Valid()
      ensures store.state == Reduce(old(store.state), Actions.UpdateBitcoins(bitcoins)) && Get(store.state, Bitcoins) == bitcoins
    {
      Dispatch(Actions.UpdateBitcoins(bitcoins), now);
    }

    /** Only one of the enumerated player states is dispatched; anything else changes nothing. */
    method UpdatePlayerState(st: Value, now: int)
      requires Valid()
      modifies this, store
      ensures Valid()
      ensures st in PlayerStates ==> store.state == Reduce(old(store.state), Actions.UpdatePlayerState(st))
      ensures st !in PlayerStates ==> store.state == old(store.state) && store.history == old(store.history)
                                       && store.notifications == old(store.notifications) && savedState == old(savedState)
    {
      if st in PlayerStates {
        Dispatch(Actions.UpdatePlayerState(st), now);
      }
    }

    /** Only one of the enumerated game statuses is dispatched; anything else changes nothing. */
    method UpdateGameStatus(status: Value, now: int)
      requires Valid()
      modifies this, store
      ensures Valid()
      ensures status in GameStatuses ==> store.state == Reduce(old(store.state), Actions.UpdateGameStatus(status))
      ensures status !in GameStatuses ==> store.state == old(store.state) && store.history == old(store.history)
                                          && store.notifications == old(store.notifications) && savedState == old(savedState)
    {
      if status in GameStatuses {
        Dispatch(Actions.UpdateGameStatus(status), now);
      }
    }

    method UpdateSettings(settings: Value, now: int)
      requires Valid()
      modifies this, store
      ensures Valid()
      ensures store.state == Reduce(old(store.state), Actions.UpdateSettings(settings))
    {
      Dispatch(Actions.UpdateSettings(settings), now);
    }

    method StartGame(now: int)
      requires Valid()
      modifies this, store
      ensures Valid()
      ensures store.state == Reduce(old(store.state), Actions.UpdateGameStatus(PLAYING))
    {
      UpdateGameStatus(PLAYING, now);
    }

    method PauseGame(now: int)
      requires Valid()
      modifies this, store
      ensures Valid()
      ensures store.state == Reduce(old(store.state), Actions.UpdateGameStatus(PAUSED))
    {
      UpdateGameStatus(PAUSED, now);
    }

    method ResumeGame(now: int)
      requires Valid()
      modifies this, store
      ensures Valid()
      ensures store.state == Reduce(old(store.state), Actions.UpdateGameStatus(PLAYING))
    {
      UpdateGameStatus(PLAYING, now);
    }

    method HandleGameOver(now: int)
      requires Valid()
      modifies this, store
      ensures Valid()
      ensures store.state == Reduce(old(store.state), Actions.UpdateGameStatus(GAME_OVER))
    {
      UpdateGameStatus(GAME_OVER, now);
    }

    method GetState() returns (s: State)
      ensures s == store.state
    {
      s := store.state;
    }

    /** Back to the initial state; the persistence subscriber saves it. */
    method Reset()
      requires Valid()
      modifies this, store
      ensures Valid()
      ensures store.state == InitialState() && savedState == Some(InitialState())
      ensures store.history == old(store.history) && store.subscribers == old(store.subscribers)
    {
      store.Reset();
      savedState := Some(store.state);
    }

    /** Callers' callbacks are distinct from the private persistence callback. */
    method Subscribe(cb: Subscriber)
      requires Valid() && cb != PersistCallback
      modifies store
      ensures Valid()
      ensures cb in store.subscribers && store.state == old(store.state)
    {
      store.Subscribe(cb);
    }

    /** Calling the function that `subscribe` returned. */
    method Unsubscribe(cb: Subscriber)
      requires Valid() && cb != PersistCallback
      modifies store
      ensures Valid()
      ensures cb !in store.subscribers && store.state == old(store.state)
    {
      store.Unsubscribe(cb);
    }

    method GetStateHistory() returns (h: seq<HistoryEntry>)
      ensures h == store.history
    {
      h := store.history;
    }
  }
}
