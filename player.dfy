/**
 * The player character's rules: stamina cost tiers for rolling and
 * hovering, hit points and invulnerability, lives, death and respawn, and
 * the jump counter with coyote time and jump buffering.
 */
module PlayerRules {
  import opened JsValues
  import opened Registry

  // ---------------------------------------------------------------------------
  // Stamina cost tiers
  // ---------------------------------------------------------------------------

  /** Up to `time` milliseconds into the move, it drains `cost` stamina per second. */
  datatype Tier = Tier(time: int, cost: int)

  const RollStaminaCosts: seq<Tier> := [Tier(300, 45), Tier(600, 60), Tier(900, 85), Tier(1200, 120)]
  const HoverStaminaCosts: seq<Tier> := [Tier(500, 35), Tier(1000, 45), Tier(1500, 65), Tier(2000, 90)]

  /** Times and costs both rise from tier to tier. */
  predicate Ascending(tiers: seq<Tier>)
  {
    forall i, j :: 0 <= i < j < |tiers| ==> tiers[i].time < tiers[j].time && tiers[i].cost <= tiers[j].cost
  }

  /** The cost of the first tier whose time is not yet exceeded, else the last tier's cost. */
  function TierCost(tiers: seq<Tier>, elapsed: real): (c: int)
    requires |tiers| > 0
    ensures exists i :: 0 <= i < |tiers| && c == tiers[i].cost
  {
    if elapsed <= tiers[0].time as real || |tiers| == 1 then tiers[0].cost
    else
      var c := TierCost(tiers[1..], elapsed);
      assert exists i :: 1 <= i < |tiers| && c == tiers[i].cost by {
        var k :| 0 <= k < |tiers[1..]| && c == tiers[1..][k].cost;
        assert tiers[k + 1].cost == c;
      }
      c
  }

  /** The tier rule: the cost is that of the first tier not yet exceeded, or the last one. */
  lemma {:induction false} TierCostIsFirstOpenTier(tiers: seq<Tier>, elapsed: real, i: nat)
    requires i < |tiers| && elapsed <= tiers[i].time as real
    requires forall j :: 0 <= j < i ==> elapsed > tiers[j].time as real
    ensures TierCost(tiers, elapsed) == tiers[i].cost
  {
    if i > 0 {
      TierCostIsFirstOpenTier(tiers[1..], elapsed, i - 1);
    }
  }

  lemma {:induction false} TierCostAfterLastTier(tiers: seq<Tier>, elapsed: real)
    requires |tiers| > 0 && forall j :: 0 <= j < |tiers| ==> elapsed > tiers[j].time as real
    ensures TierCost(tiers, elapsed) == tiers[|tiers| - 1].cost
  {
    if |tiers| > 1 {
      TierCostAfterLastTier(tiers[1..], elapsed);
    }
  }

  /** On an ascending table the cost never falls as the move goes on. */
  lemma {:induction false} TierCostMonotone(tiers: seq<Tier>, e1: real, e2: real)
    requires |tiers| > 0 && Ascending(tiers) && e1 <= e2
    ensures TierCost(tiers, e1) <= TierCost(tiers, e2)
  {
    if e1 <= tiers[0].time as real || |tiers| == 1 {
      // the first tier is the cheapest
    } else {
      TierCostMonotone(tiers[1..], e1, e2);
    }
  }

  lemma CostTablesAscend()
    ensures Ascending(RollStaminaCosts) && Ascending(HoverStaminaCosts)
  {
  }

  /** Roll costs run 45 to 120 and never fall; hover costs run 35 to 90 and never fall. */
  lemma CostBounds(e1: real, e2: real)
    requires e1 <= e2
    ensures 45 <= TierCost(RollStaminaCosts, e1) <= TierCost(RollStaminaCosts, e2) <= 120
    ensures 35 <= TierCost(HoverStaminaCosts, e1) <= TierCost(HoverStaminaCosts, e2) <= 90
  {
    CostTablesAscend();
    TableBounds(RollStaminaCosts, e1, e2);
    TableBounds(HoverStaminaCosts, e1, e2);
  }

  /** On a rising table, costs rise with time and stay between the first and the last tier's. */
  lemma TableBounds(tiers: seq<Tier>, e1: real, e2: real)
    requires |tiers| > 0 && Ascending(tiers) && e1 <= e2
    ensures tiers[0].cost <= TierCost(tiers, e1) <= TierCost(tiers, e2) <= tiers[|tiers| - 1].cost
  {
    TierCostMonotone(tiers, e1, e2);
    TierCostBetween(tiers, e1);
    TierCostBetween(tiers, e2);
  }

  /** On a rising table every cost lies between the first and the last tier's. */
  lemma {:induction false} TierCostBetween(tiers: seq<Tier>, elapsed: real)
    requires |tiers| > 0 && Ascending(tiers)
    ensures tiers[0].cost <= TierCost(tiers, elapsed) <= tiers[|tiers| - 1].cost
  {
    if elapsed <= tiers[0].time as real || |tiers| == 1 {
      assert |tiers| == 1 || tiers[0].cost <= tiers[|tiers| - 1].cost;
    } else {
      var rest := tiers[1..];
      assert Ascending(rest) by {
        forall i, j | 0 <= i < j < |rest|
          ensures rest[i].time < rest[j].time && rest[i].cost <= rest[j].cost
        {
          assert rest[i] == tiers[i + 1] && rest[j] == tiers[j + 1];
        }
      }
      TierCostBetween(rest, elapsed);
      assert tiers[0].cost <= tiers[1].cost;
    }
  }

  /** The early-return loop of `getRollStaminaCost` and `getHoverStaminaCost`. */
  method GetStaminaCost(tiers: seq<Tier>, elapsed: real) returns (cost: int)
    requires |tiers| > 0
    ensures cost == TierCost(tiers, elapsed)
  {
    var i := 0;
    while i < |tiers|
      invariant 0 <= i <= |tiers|
      invariant forall j :: 0 <= j < i ==> elapsed > tiers[j].time as real
    {
      if elapsed <= tiers[i].time as real {
        TierCostIsFirstOpenTier(tiers, elapsed, i);
        return tiers[i].cost;
      }
      i := i + 1;
    }
    TierCostAfterLastTier(tiers, elapsed);
    return tiers[|tiers| - 1].cost;
  }

  // ---------------------------------------------------------------------------
  // Hit points, lives, death and respawn
  // ---------------------------------------------------------------------------

  const InitialHP: real := 100.0
  const Damage: real := 25.0
  const InvulnerableDuration: int := 2000
  /** The window `makeInvulnerable` sets. */
  const FeedbackInvulnerability: int := 1000
  const DefaultLives: int := 3
  const CoyoteTime: int := 80
  const JumpBufferTime: int := 200
  const MaxJumps: int := 1
  const MaxStamina: real := 100.0
  const StaminaRegenRate: real := 12.0
  const GroundRegenBonus: real := 8.0
  const StaminaRegenDelay: int := 500

  /**
   * `registry.get('playerLives') || GameConfig.PLAYER.INITIAL_LIVES` as
   * written: the fallback names a setting the configuration does not have,
   * so a registry without a life count gives `undefined` (None here).
   */
  function InitialLivesAsWritten(stored: Option<int>): (r: Option<int>)
    ensures stored.Some? && stored.value != 0 ==> r == stored
    ensures stored.None? || stored.value == 0 ==> r.None?
  {
    if stored.Some? && stored.value != 0 then stored else None
  }

  /** `playerLives--` then `playerLives <= 0`: with no count the result is NaN, which is never `<= 0`. */
  function DieAsWritten(lives: Option<int>): (r: (Option<int>, bool))
    ensures lives.None? ==> r == (None, false)
    ensures lives.Some? ==> r == (Some(lives.value - 1), lives.value - 1 <= 0)
  {
    match lives
    case None => (None, false)
    case Some(n) => (Some(n - 1), n - 1 <= 0)
  }

  /** The lives after k deaths as written. */
  function LivesAfterDeaths(lives: Option<int>, k: nat): Option<int>
  {
    if k == 0 then lives else DieAsWritten(LivesAfterDeaths(lives, k - 1)).0
  }

  /** As written, a first game without a stored life count never reaches game over, however often the player dies. */
  lemma {:induction false} NoGameOverWithoutStoredLives(k: nat)
    ensures LivesAfterDeaths(InitialLivesAsWritten(None), k) == None
    ensures !DieAsWritten(LivesAfterDeaths(InitialLivesAsWritten(None), k)).1
  {
    if k > 0 {
      NoGameOverWithoutStoredLives(k - 1);
    }
  }

  /** The intended start: a stored non-zero count, else the three lives the UI settings give. */
  function InitialLives(stored: Option<int>): (r: int)
    ensures stored.Some? && stored.value != 0 ==> r == stored.value
    ensures stored.None? || stored.value == 0 ==> r == DefaultLives
  {
    if stored.Some? && stored.value != 0 then stored.value else DefaultLives
  }

  /** The intended window after a survived hit: the configured duration. */
  function HitInvulnerability(now: int): (until: int)
    ensures until - now == InvulnerableDuration && until > now + FeedbackInvulnerability
  {
    now + InvulnerableDuration
  }

  /** What `registry.set('playerLives', ...)` stores: the count, or `missing` when it is not a number. */
  function StoredLives(lives: Option<int>, missing: Value): (v: Value)
    ensures lives.Some? ==> v == Num(lives.value as real)
    ensures lives.None? ==> v == missing
  {
    if lives.Some? then Num(lives.value as real) else missing
  }

  datatype PlayerEvent = HpChanged(hp: real) | GameOver | PlayerDeath | HitSound

  /** Whether `handleJump` starts a jump at `now`. */
  predicate CanJump(now: int, lastOnGround: int, lastJumpPressed: int, jumpsAvailable: int, isJumping: bool, isHovering: bool)
  {
    now - lastOnGround < CoyoteTime && now - lastJumpPressed < JumpBufferTime
    && jumpsAvailable > 0 && !isJumping && !isHovering
  }

  class Player {
    var playerHP: real
    var currentStamina: real
    var lastStaminaUseTime: int
    var isRolling: bool
    var lastDamageTaken: real
    /** None while the count is `undefined` or NaN. */
    var playerLives: Option<int>
    var isDying: bool
    var invulnerableUntil: int
    var controlsEnabled: bool
    var moves: bool
    var registry: Registry.Store
    var events: seq<PlayerEvent>
    var jumpsAvailable: int
    var isJumping: bool
    var isHovering: bool
    var lastOnGroundTime: int
    var lastJumpPressedTime: int
    var canStartHover: bool

    ghost predicate Valid()
      reads this
    {
      0.0 <= playerHP && 0.0 <= currentStamina <= MaxStamina && 0 <= jumpsAvailable <= MaxJumps
    }

    /**
     * Hit points, stamina and lives from the registry (a falsy value falls
     * back to the default); stamina and lives are written back.
     */
    constructor (registry: Registry.Store, storedHP: real, storedStamina: real, storedLives: Option<int>)
      requires storedHP >= 0.0 && 0.0 <= storedStamina <= MaxStamina
      ensures Valid()
      ensures playerHP == (if storedHP != 0.0 then storedHP else InitialHP)
      ensures currentStamina == (if storedStamina != 0.0 then storedStamina else MaxStamina)
      ensures playerLives == InitialLivesAsWritten(storedLives)
      ensures this.registry == registry["stamina" := Num(currentStamina)]["playerLives" := StoredLives(playerLives, Undefined)]
      ensures !isRolling && lastStaminaUseTime == 0
      ensures !isDying && invulnerableUntil == 0 && jumpsAvailable == MaxJumps && !isJumping && !isHovering
      ensures lastOnGroundTime == 0 && lastJumpPressedTime == 0 && events == []
    {
      playerHP := if storedHP != 0.0 then storedHP else InitialHP;
      lastDamageTaken := 0.0;
      var stamina := if storedStamina != 0.0 then storedStamina else MaxStamina;
      currentStamina := stamina;
      lastStaminaUseTime := 0;
      isRolling := false;
      playerLives := InitialLivesAsWritten(storedLives);
      this.registry := registry["stamina" := Num(stamina)]["playerLives" := StoredLives(InitialLivesAsWritten(storedLives), Undefined)];
      isDying := false;
      invulnerableUntil := 0;
      controlsEnabled := true;
      moves := true;
      events := [];
      jumpsAvailable := MaxJumps;
      isJumping := false;
      isHovering := false;
      lastOnGroundTime := 0;
      lastJumpPressedTime := 0;
      canStartHover := true;
    }

    /** `makeInvulnerable`: a one-second window and the hit sound. */
    method MakeInvulnerable(now: int)
      modifies this`invulnerableUntil, this`events
      ensures invulnerableUntil == now + FeedbackInvulnerability
      ensures events == old(events) + [HitSound]
    {
      invulnerableUntil := now + FeedbackInvulnerability;
      events := events + [HitSound];
    }

    /** `respawn`: back in control with full hit points and a short invulnerability. */
    method Respawn(now: int)
      requires Valid()
      modifies this
      ensures Valid()
      ensures !isDying && controlsEnabled && moves && playerHP == InitialHP
      ensures registry == old(registry)["playerHP" := Num(InitialHP)]
      ensures invulnerableUntil == now + FeedbackInvulnerability
      ensures events == old(events) + [HpChanged(InitialHP), HitSound]
      ensures playerLives == old(playerLives) && jumpsAvailable == old(jumpsAvailable)
      ensures lastDamageTaken == old(lastDamageTaken) && currentStamina == old(currentStamina)
    {
      isDying := false;
      moves := true;
      controlsEnabled := true;
      playerHP := InitialHP;
      registry := registry["playerHP" := Num(InitialHP)];
      events := events + [HpChanged(InitialHP)];
      MakeInvulnerable(now);
    }

    /**
     * `die`: ignored while already dying; otherwise one life is lost, and the
     * player either stays down at game over or respawns at once. A count that
     * is not a number becomes NaN, which never reaches game over.
     */
    method Die(now: int)
      requires Valid()
      modifies this
      ensures Valid()
      ensures old(isDying) ==> unchanged(this)
      ensures !old(isDying) ==> playerLives == DieAsWritten(old(playerLives)).0
      ensures !old(isDying) && DieAsWritten(old(playerLives)).1 ==>
        && isDying && !controlsEnabled && !moves
        && events == old(events) + [GameOver]
        && registry == old(registry)["playerLives" := StoredLives(playerLives, NaN)]
        && playerHP == old(playerHP) && invulnerableUntil == old(invulnerableUntil)
      ensures !old(isDying) && !DieAsWritten(old(playerLives)).1 ==>
        && !isDying && controlsEnabled && moves && playerHP == InitialHP
        && events == old(events) + [PlayerDeath, HpChanged(InitialHP), HitSound]
        && registry == old(registry)["playerLives" := StoredLives(playerLives, NaN)]["playerHP" := Num(InitialHP)]
        && invulnerableUntil == now + FeedbackInvulnerability
      ensures jumpsAvailable == old(jumpsAvailable) && lastDamageTaken == old(lastDamageTaken)
      ensures currentStamina == old(currentStamina)
    {
      if isDying {
        return;
      }
      isDying := true;
      var gameOver;
      playerLives, gameOver := DieAsWritten(playerLives).0, DieAsWritten(playerLives).1;
      registry := registry["playerLives" := StoredLives(playerLives, NaN)];
      if gameOver {
        events := events + [GameOver];
        controlsEnabled := false;
        moves := false;
        return;
      }
      events := events + [PlayerDeath];
      controlsEnabled := false;
      moves := false;
      Respawn(now);
    }

    /**
     * `takeDamage`: ignored while dying or invulnerable; otherwise hit points
     * drop by the amount (not below 0), and the player either dies or is
     * invulnerable. The configured two seconds are set first and then
     * overwritten by the one second of `makeInvulnerable`.
     */
    method TakeDamage(amount: real, now: int)
      requires Valid()
      modifies this
      ensures Valid()
      ensures old(isDying) || now < old(invulnerableUntil) ==> unchanged(this)
      ensures !old(isDying) && now >= old(invulnerableUntil) ==>
        var hp := RealMax(0.0, old(playerHP) - amount);
        var hit := old(registry)["playerHP" := Num(hp)];
        lastDamageTaken == amount
        && (hp > 0.0 ==>
              && playerHP == hp && playerLives == old(playerLives) && !isDying
              && controlsEnabled == old(controlsEnabled) && moves == old(moves)
              && invulnerableUntil == now + FeedbackInvulnerability
              && events == old(events) + [HpChanged(hp), HitSound]
              && registry == hit)
        && (hp <= 0.0 ==>
              && playerLives == DieAsWritten(old(playerLives)).0
              && (DieAsWritten(old(playerLives)).1 ==>
                    && isDying && !controlsEnabled && !moves && playerHP == 0.0
                    && invulnerableUntil == old(invulnerableUntil)
                    && events == old(events) + [HpChanged(0.0), GameOver]
                    && registry == hit["playerLives" := StoredLives(playerLives, NaN)])
              && (!DieAsWritten(old(playerLives)).1 ==>
                    && !isDying && controlsEnabled && moves && playerHP == InitialHP
                    && invulnerableUntil == now + FeedbackInvulnerability
                    && events == old(events) + [HpChanged(0.0), PlayerDeath, HpChanged(InitialHP), HitSound]
                    && registry == hit["playerLives" := StoredLives(playerLives, NaN)]["playerHP" := Num(InitialHP)]))
      ensures jumpsAvailable == old(jumpsAvailable) && currentStamina == old(currentStamina)
    {
      if isDying {
        return;
      }
      if now < invulnerableUntil {
        return;
      }
      lastDamageTaken := amount;
      playerHP := RealMax(0.0, playerHP - amount);
      registry := registry["playerHP" := Num(playerHP)];
      events := events + [HpChanged(playerHP)];
      if playerHP <= 0.0 {
        Die(now);
        return;
      }
      invulnerableUntil := now + InvulnerableDuration;
      MakeInvulnerable(now);
    }

    /** `takeDamage` with the intended window: a survived hit leaves the configured two seconds of invulnerability. */
    method TakeDamageIntended(amount: real, now: int)
      requires Valid()
      modifies this
      ensures Valid()
      ensures old(isDying) || now < old(invulnerableUntil) ==> unchanged(this)
      ensures !old(isDying) && now >= old(invulnerableUntil) ==>
        var hp := RealMax(0.0, old(playerHP) - amount);
        var hit := old(registry)["playerHP" := Num(hp)];
        lastDamageTaken == amount
        && (hp > 0.0 ==>
              && playerHP == hp && playerLives == old(playerLives) && !isDying
              && controlsEnabled == old(controlsEnabled) && moves == old(moves)
              && invulnerableUntil == HitInvulnerability(now)
              && events == old(events) + [HpChanged(hp), HitSound]
              && registry == hit)
        && (hp <= 0.0 ==>
              && playerLives == DieAsWritten(old(playerLives)).0
              && (DieAsWritten(old(playerLives)).1 ==>
                    && isDying && !controlsEnabled && !moves && playerHP == 0.0
                    && invulnerableUntil == old(invulnerableUntil)
                    && events == old(events) + [HpChanged(0.0), GameOver]
                    && registry == hit["playerLives" := StoredLives(playerLives, NaN)])
              && (!DieAsWritten(old(playerLives)).1 ==>
                    && !isDying && controlsEnabled && moves && playerHP == InitialHP
                    && invulnerableUntil == now + FeedbackInvulnerability
                    && events == old(events) + [HpChanged(0.0), PlayerDeath, HpChanged(InitialHP), HitSound]
                    && registry == hit["playerLives" := StoredLives(playerLives, NaN)]["playerHP" := Num(InitialHP)]))
      ensures jumpsAvailable == old(jumpsAvailable) && currentStamina == old(currentStamina)
    {
      var survives := !isDying && now >= invulnerableUntil && RealMax(0.0, playerHP - amount) > 0.0;
      TakeDamage(amount, now);
      if survives {
        invulnerableUntil := HitInvulnerability(now);
      }
    }

    /**
     * `fallDeath`: ignored while dying; the life count in the registry (not
     * the player's own count) drops by one when a lives display exists and
     * the stored count is above 0; then the player respawns.
     */
    method FallDeath(now: int, hasGameUI: bool)
      requires Valid()
      modifies this
      ensures Valid()
      ensures old(isDying) ==> registry == old(registry) && events == old(events) && isDying
      ensures !old(isDying) ==>
        var lives := Registry.Lookup(old(registry), "playerLives");
        var reg := if hasGameUI && GreaterThanZero(lives) then old(registry)["playerLives" := SubInt(lives, 1)] else old(registry);
        && registry == reg["playerHP" := Num(InitialHP)]
        && !isDying && controlsEnabled && playerHP == InitialHP
        && events == old(events) + [HpChanged(InitialHP), HitSound]
      ensures playerLives == old(playerLives)
    {
      if isDying {
        return;
      }
      isDying := true;
      moves := false;
      controlsEnabled := false;
      if hasGameUI {
        var currentLives := Registry.Lookup(registry, "playerLives");
        if GreaterThanZero(currentLives) {
          registry := registry["playerLives" := SubInt(currentLives, 1)];
        }
      }
      Respawn(now);
    }

    /**
     * The stamina step of `update`: after the regeneration delay and while
     * neither rolling nor hovering, stamina refills at 12 per second (20 on
     * the ground), capped at the maximum.
     */
    method RegenerateStamina(now: int, delta: real, onFloor: bool)
      requires Valid() && delta >= 0.0
      modifies this`currentStamina, this`registry
      ensures Valid()
      ensures old(currentStamina) <= currentStamina <= MaxStamina
      ensures !isHovering && !isRolling && now - lastStaminaUseTime >= StaminaRegenDelay ==>
        var rate := if onFloor then StaminaRegenRate + GroundRegenBonus else StaminaRegenRate;
        currentStamina == RealMin(MaxStamina, old(currentStamina) + rate * delta / 1000.0)
        && registry == old(registry)["stamina" := Num(currentStamina)]
      ensures isHovering || isRolling || now - lastStaminaUseTime < StaminaRegenDelay ==>
        currentStamina == old(currentStamina) && registry == old(registry)
    {
      if !isHovering && !isRolling && now - lastStaminaUseTime >= StaminaRegenDelay {
        var rate := StaminaRegenRate;
        if onFloor {
          rate := rate + GroundRegenBonus;
        }
        currentStamina := RealMin(MaxStamina, currentStamina + rate * delta / 1000.0);
        registry := registry["stamina" := Num(currentStamina)];
      }
    }

    /** The ground contact step of `update`: coyote time restarts and the jumps refill. */
    method TouchGround(now: int)
      requires Valid()
      modifies this`lastOnGroundTime, this`jumpsAvailable, this`canStartHover
      ensures Valid()
      ensures lastOnGroundTime == now && jumpsAvailable == MaxJumps && !canStartHover
    {
      lastOnGroundTime := now;
      jumpsAvailable := MaxJumps;
      canStartHover := false;
    }

    /**
     * `handleJump`: a held key refreshes the jump buffer; a jump starts only
     * inside both grace windows with a jump left and no jump or hover under
     * way, and spends one jump; landing ends the jump.
     */
    method HandleJump(now: int, jumpKeyDown: bool, onFloor: bool) returns (jumped: bool)
      requires Valid()
      modifies this`lastJumpPressedTime, this`isJumping, this`jumpsAvailable
      ensures Valid()
      ensures lastJumpPressedTime == if jumpKeyDown then now else old(lastJumpPressedTime)
      ensures jumped <==> CanJump(now, lastOnGroundTime, lastJumpPressedTime, old(jumpsAvailable), old(isJumping), isHovering)
      ensures jumped ==> old(jumpsAvailable) > 0 && jumpsAvailable == old(jumpsAvailable) - 1
      ensures !jumped ==> jumpsAvailable == old(jumpsAvailable)
      ensures isJumping == if onFloor then false else (jumped || old(isJumping))
    {
      if jumpKeyDown {
        lastJumpPressedTime := now;
      }
      jumped := CanJump(now, lastOnGroundTime, lastJumpPressedTime, jumpsAvailable, isJumping, isHovering);
      if jumped {
        isJumping := true;
        jumpsAvailable := jumpsAvailable - 1;
      }
      if onFloor {
        isJumping := false;
      }
    }
  }

  /** The intended start reaches game over after exactly as many deaths as lives. */
  lemma DefaultLivesEndInGameOver()
    ensures InitialLives(None) == DefaultLives
    ensures DieAsWritten(LivesAfterDeaths(Some(InitialLives(None)), 2)).1
    ensures !DieAsWritten(LivesAfterDeaths(Some(InitialLives(None)), 1)).1
  {
  }

  /**
   * As written, a second hit 1.5 s after a survived hit lands, although it is
   * inside the configured two-second window: both hits take their damage.
   */
  method SecondHitLandsAsWritten(p: Player, t: int)
    requires p.Valid() && !p.isDying && t >= p.invulnerableUntil && p.playerHP > 2.0 * Damage
    modifies p
    ensures p.playerHP == old(p.playerHP) - 2.0 * Damage && !p.isDying
    ensures p.events == old(p.events) + [HpChanged(old(p.playerHP) - Damage), HitSound, HpChanged(old(p.playerHP) - 2.0 * Damage), HitSound]
  {
    p.TakeDamage(Damage, t);
    p.TakeDamage(Damage, t + 1500);
  }

  /** With the intended window the same second hit is ignored: only the first takes its damage. */
  method SecondHitIgnoredAsIntended(p: Player, t: int)
    requires p.Valid() && !p.isDying && t >= p.invulnerableUntil && p.playerHP > 2.0 * Damage
    modifies p
    ensures p.playerHP == old(p.playerHP) - Damage && !p.isDying
    ensures p.events == old(p.events) + [HpChanged(old(p.playerHP) - Damage), HitSound]
    ensures p.invulnerableUntil == t + InvulnerableDuration
  {
    p.TakeDamageIntended(Damage, t);
    p.TakeDamageIntended(Damage, t + 1500);
  }
}
