/**
 * The Redux-like store: a nested state record, a reducer over it, a bounded
 * history of dispatched actions, and subscribers notified after every
 * dispatch and reset.
 */
module ReduxStore {
  import opened JsValues
  import opened Actions

  datatype GameSlice = GameSlice(status: Value, score: Value, lives: Value, level: Value, checkpoint: Value)
  datatype PlayerSlice = PlayerSlice(health: Value, stamina: Value, bitcoins: Value, state: Value, position: Value)
  datatype State = State(game: GameSlice, player: PlayerSlice, settings: map<string, Value>)

  /** The scalar fields of the state, one per leaf of `game` and `player`. */
  datatype Field =
    | Status | Score | Lives | Level | Checkpoint
    | Health | Stamina | Bitcoins | PlayerStateField | Position

  function Get(s: State, f: Field): Value
  {
    match f
    case Status => s.game.status
    case Score => s.game.score
    case Lives => s.game.lives
    case Level => s.game.level
    case Checkpoint => s.game.checkpoint
    case Health => s.player.health
    case Stamina => s.player.stamina
    case Bitcoins => s.player.bitcoins
    case PlayerStateField => s.player.state
    case Position => s.player.position
  }

  /** The field that each single-field action type writes; the other types write none. */
  function FieldOf(kind: string): Option<Field>
  {
    if kind == UPDATE_SCORE then Some(Score)
    else if kind == UPDATE_LIVES then Some(Lives)
    else if kind == UPDATE_HEALTH then Some(Health)
    else if kind == UPDATE_STAMINA then Some(Stamina)
    else if kind == UPDATE_BITCOINS then Some(Bitcoins)
    else if kind == UPDATE_PLAYER_STATE then Some(PlayerStateField)
    else if kind == UPDATE_GAME_STATUS then Some(Status)
    else None
  }

  /** The state a new store starts from and returns to on reset. */
  function InitialState(): (s: State)
    ensures Get(s, Status) == MENU && Get(s, Score) == Num(0.0) && Get(s, Lives) == Num(3.0)
    ensures Get(s, Health) == Num(100.0) && Get(s, Stamina) == Num(100.0)
  {
    State(
      GameSlice(MENU, Num(0.0), Num(3.0), Num(1.0), Null),
      PlayerSlice(Num(100.0), Num(100.0), Num(0.0), IDLE,
                  Obj(map["x" := Num(0.0), "y" := Num(0.0)])),
      map["musicEnabled" := Bool(true), "soundEnabled" := Bool(true),
          "musicVolume" := Num(0.7), "soundVolume" := Num(1.0)])
  }

  /** The own enumerable entries of `...v` in an object literal. */
  function SpreadEntries(v: Value): map<string, Value>
  {
    match v
    case Obj(m) => m
    case Str(s) =>
      IndexKeysInjective();
      map i | 0 <= i < |s| :: IntToString(i) := Str([s[i]])
    case _ => map[]
  }

  lemma IndexKeysInjective()
    ensures forall i: int, j: int :: IntToString(i) == IntToString(j) ==> i == j
  {
    forall i: int, j: int | IntToString(i) == IntToString(j) ensures i == j {
      IntToStringInjective(i, j);
    }
  }

  /**
   * The reducer. A single-field update writes its payload to that field only;
   * UPDATE_SETTINGS merges the payload's entries over the settings and keeps
   * the keys it does not mention; every other type (UPDATE_LEVEL and
   * UPDATE_CHECKPOINT included) leaves the state as it is.
   */
  function Reduce(s: State, a: Action): (r: State)
    ensures FieldOf(a.kind).Some? ==>
      && Get(r, FieldOf(a.kind).value) == a.payload
      && (forall f :: f != FieldOf(a.kind).value ==> Get(r, f) == Get(s, f))
      && r.settings == s.settings
    ensures a.kind == UPDATE_SETTINGS ==>
      && (forall f :: Get(r, f) == Get(s, f))
      && r.settings.Keys == s.settings.Keys + SpreadEntries(a.payload).Keys
      && (forall k :: k in SpreadEntries(a.payload) ==> r.settings[k] == SpreadEntries(a.payload)[k])
      && (forall k :: k in s.settings && k !in SpreadEntries(a.payload) ==> r.settings[k] == s.settings[k])
    ensures FieldOf(a.kind).None? && a.kind != UPDATE_SETTINGS ==> r == s
  {
    var p := a.payload;
    if a.kind == UPDATE_SCORE then s.(game := s.game.(score := p))
    else if a.kind == UPDATE_LIVES then s.(game := s.game.(lives := p))
    else if a.kind == UPDATE_HEALTH then s.(player := s.player.(health := p))
    else if a.kind == UPDATE_STAMINA then s.(player := s.player.(stamina := p))
    else if a.kind == UPDATE_BITCOINS then s.(player := s.player.(bitcoins := p))
    else if a.kind == UPDATE_PLAYER_STATE then s.(player := s.player.(state := p))
    else if a.kind == UPDATE_GAME_STATUS then s.(game := s.game.(status := p))
    else if a.kind == UPDATE_SETTINGS then s.(settings := s.settings + SpreadEntries(p))
    else s
  }

  /** Level and checkpoint actions reach the reducer, which has no case for them. */
  lemma LevelAndCheckpointAreIgnored(s: State, v: Value)
    ensures Reduce(s, UpdateLevel(v)) == s && Reduce(s, UpdateCheckpoint(v)) == s
  {
  }

  // ---------------------------------------------------------------------------
  // History
  // ---------------------------------------------------------------------------

  const MaxHistoryLength: nat := 100

  datatype HistoryEntry = HistoryEntry(action: Action, prevState: State, nextState: State, timestamp: int)

  /** The last (at most) n elements of s. */
  function LastN<T>(s: seq<T>, n: nat): (r: seq<T>)
    ensures |r| == if |s| <= n then |s| else n
  {
    if |s| <= n then s else s[|s| - n..]
  }

  /** `addToHistory`: push the entry, then drop the oldest one if the cap is exceeded. */
  function AddToHistory(h: seq<HistoryEntry>, e: HistoryEntry): (r: seq<HistoryEntry>)
    requires |h| <= MaxHistoryLength
    ensures |r| <= MaxHistoryLength && |r| > 0 && r[|r| - 1] == e
    ensures r == LastN(h + [e], MaxHistoryLength)
  {
    var pushed := h + [e];
    if |pushed| > MaxHistoryLength then pushed[1..] else pushed
  }

  /** The history after recording a run of entries one dispatch at a time. */
  function RecordAll(h: seq<HistoryEntry>, es: seq<HistoryEntry>): seq<HistoryEntry>
    requires |h| <= MaxHistoryLength
    decreases |es|
  {
    if es == [] then h else RecordAll(AddToHistory(h, es[0]), es[1..])
  }

  /**
   * However many dispatches happen, the history holds the most recent
   * MaxHistoryLength entries in order: the oldest are the ones dropped.
   */
  lemma {:induction false} RecordAllKeepsNewest(h: seq<HistoryEntry>, es: seq<HistoryEntry>)
    requires |h| <= MaxHistoryLength
    ensures RecordAll(h, es) == LastN(h + es, MaxHistoryLength)
    ensures |RecordAll(h, es)| <= MaxHistoryLength
    decreases |es|
  {
    if es != [] {
      var h1 := AddToHistory(h, es[0]);
      RecordAllKeepsNewest(h1, es[1..]);
      LastNOfLastN(h + [es[0]], es[1..]);
      assert h + es == (h + [es[0]]) + es[1..];
    }
  }

  lemma LastNOfLastN<T>(s: seq<T>, t: seq<T>)
    ensures LastN(LastN(s, MaxHistoryLength) + t, MaxHistoryLength) == LastN(s + t, MaxHistoryLength)
  {
    var n := MaxHistoryLength;
    if |s| > n {
      var u := s[|s| - n..] + t;
      var v := s + t;
      assert LastN(u, n) == LastN(v, n) by {
        assert |u| >= n;
        assert u[|u| - n..] == v[|v| - n..];
      }
    }
  }

  // ---------------------------------------------------------------------------
  // Subscribers
  // ---------------------------------------------------------------------------

  /** A subscribed callback, by identity. */
  type Subscriber = nat

  /** One call `callback(state, action)` made while notifying subscribers. */
  datatype Notification = Notification(subscriber: Subscriber, state: State, action: Action)

  /** `notifySubscribers`: one call per subscriber, in subscription order. */
  function NotifyAll(subs: seq<Subscriber>, st: State, a: Action): (r: seq<Notification>)
    ensures |r| == |subs|
    ensures forall i :: 0 <= i < |r| ==> r[i] == Notification(subs[i], st, a)
  {
    seq(|subs|, i requires 0 <= i < |subs| => Notification(subs[i], st, a))
  }

  /** Exactly the current subscribers are called, each once per notification round. */
  lemma NotifiedExactlyOnce(subs: seq<Subscriber>, st: State, a: Action, cb: Subscriber)
    requires NoDuplicates(subs)
    ensures cb !in subs ==> forall n :: n in NotifyAll(subs, st, a) ==> n.subscriber != cb
    ensures cb in subs ==> exists i :: 0 <= i < |subs| && NotifyAll(subs, st, a)[i] == Notification(cb, st, a)
    ensures forall i, j :: 0 <= i < j < |subs| ==> NotifyAll(subs, st, a)[i] != NotifyAll(subs, st, a)[j]
  {
    var r := NotifyAll(subs, st, a);
    if cb !in subs {
      forall n | n in r ensures n.subscriber != cb {
        var i :| 0 <= i < |r| && r[i] == n;
      }
    }
  }

  class Store {
    var state: State
    var subscribers: seq<Subscriber>
    var history: seq<HistoryEntry>
    /** Every call made to a subscriber so far, oldest first. */
    var notifications: seq<Notification>
    /** The payloads of the `stateChanged` events emitted so far. */
    var stateChanges: seq<State>

    ghost predicate Valid()
      reads this
    {
      |history| <= MaxHistoryLength && NoDuplicates(subscribers)
    }

    constructor ()
      ensures Valid()
      ensures state == InitialState() && subscribers == [] && history == []
      ensures notifications == [] && stateChanges == []
    {
      state := InitialState();
      subscribers := [];
      history := [];
      notifications := [];
      stateChanges := [];
    }

    /** A copy of the current state. */
    method GetState() returns (s: State)
      ensures s == state
    {
      s := state;
    }

    /**
     * Reduce, record the transition in the history (stamped with `now`), store
     * the new state, notify every subscriber and emit `stateChanged`.
     */
    method Dispatch(action: Action, now: int) returns (nextState: State)
      requires Valid()
      modifies this
      ensures Valid()
      ensures nextState == Reduce(old(state), action) && state == nextState
      ensures history == AddToHistory(old(history), HistoryEntry(action, old(state), nextState, now))
      ensures history[|history| - 1].nextState == state
      ensures subscribers == old(subscribers)
      ensures notifications == old(notifications) + NotifyAll(subscribers, state, action)
      ensures stateChanges == old(stateChanges) + [state]
    {
      var prevState := state;
      nextState := Reduce(prevState, action);
      AddEntry(HistoryEntry(action, prevState, nextState, now));
      state := nextState;
      notifications := notifications + NotifyAll(subscribers, state, action);
      stateChanges := stateChanges + [state];
    }

    method AddEntry(e: HistoryEntry)
      requires Valid()
      modifies this`history
      ensures Valid()
      ensures history == AddToHistory(old(history), e)
    {
      history := history + [e];
      if |history| > MaxHistoryLength {
        history := history[1..];
      }
    }

    /** Register a callback; a Set ignores one that is already present. */
    method Subscribe(cb: Subscriber)
      requires Valid()
      modifies this`subscribers
      ensures Valid()
      ensures subscribers == if cb in old(subscribers) then old(subscribers) else old(subscribers) + [cb]
    {
      if cb !in subscribers {
        subscribers := subscribers + [cb];
      }
    }

    /** The function that `subscribe` returns. */
    method Unsubscribe(cb: Subscriber)
      requires Valid()
      modifies this`subscribers
      ensures Valid()
      ensures subscribers == Remove(old(subscribers), cb) && cb !in subscribers
    {
      subscribers := Remove(subscribers, cb);
    }

    method GetHistory() returns (h: seq<HistoryEntry>)
      ensures h == history
    {
      h := history;
    }

    /** Back to the initial state, announced to subscribers as a `RESET` action; the history stays. */
    method Reset()
      requires Valid()
      modifies this`state, this`notifications
      ensures Valid()
      ensures state == InitialState()
      ensures notifications == old(notifications) + NotifyAll(subscribers, state, Action("RESET", Undefined))
    {
      state := InitialState();
      notifications := notifications + NotifyAll(subscribers, state, Action("RESET", Undefined));
    }
  }
}
