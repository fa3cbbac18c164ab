/**
 * The player's heads-up display: a ten-frame health bar and a ten-frame
 * stamina bar (frame 0 full, frame 9 empty), with stepped health
 * transitions delegated to the animation manager.
 */
module Hud {
  import opened JsValues

  const MaxHealth: real := 100.0
  const MaxStamina: real := 100.0
  const EmptyFrame: int := 9

  /** `getHealthFrame`: the bar frame for a health value, by 10% bands. */
  function HealthFrame(health: real): (f: int)
    ensures 0 <= f <= EmptyFrame
    ensures health <= 0.0 <==> f == 9
    ensures health > 80.0 <==> f == 0
    ensures 0.0 < health <= 80.0 ==> 10.0 * (8 - f) as real < health <= 10.0 * (9 - f) as real
  {
    var percent := health / MaxHealth * 100.0;
    if percent <= 0.0 then 9
    else if percent <= 10.0 then 8
    else if percent <= 20.0 then 7
    else if percent <= 30.0 then 6
    else if percent <= 40.0 then 5
    else if percent <= 50.0 then 4
    else if percent <= 60.0 then 3
    else if percent <= 70.0 then 2
    else if percent <= 80.0 then 1
    else 0
  }

  /** More health never shows an emptier bar. */
  lemma HealthFrameMonotone(h1: real, h2: real)
    requires h1 <= h2
    ensures HealthFrame(h1) >= HealthFrame(h2)
  {
  }

  /** The stamina bar frame: `min(9, floor((max - stamina) / 10))`. */
  function StaminaFrame(stamina: real): (f: int)
    requires 0.0 <= stamina <= MaxStamina
    ensures 0 <= f <= EmptyFrame
    ensures f == 9 <==> stamina <= 10.0
    ensures stamina > 10.0 ==> 10.0 * f as real <= MaxStamina - stamina < 10.0 * (f + 1) as real
  {
    var steps := ((MaxStamina - stamina) / 10.0).Floor;
    if steps < 9 then steps else 9
  }

  class PlayerHUD {
    var currentHealth: real
    var previousHealth: real
    var currentStamina: real
    var previousStamina: real
    var isAnimating: bool
    var isDying: bool
    var currentFrame: int
    /** The frame the health sprite shows. */
    var healthFrame: int
    /** The frame the stamina sprite shows. */
    var staminaFrame: int
    /** Whether the scene has an animation manager with `playHealthTransition`. */
    const hasAnimations: bool
    /** The `playHealthTransition(sprite, from, to, onComplete)` requests made, oldest first. */
    var transitions: seq<(int, int)>

    ghost predicate Valid()
      reads this
    {
      && 0.0 <= currentHealth <= MaxHealth && 0.0 <= previousHealth <= MaxHealth
      && 0.0 <= currentStamina <= MaxStamina && 0.0 <= previousStamina <= MaxStamina
      && 0 <= healthFrame <= EmptyFrame
      && staminaFrame == StaminaFrame(currentStamina)
      && (isAnimating ==> |transitions| > 0)
      && (forall i :: 0 <= i < |transitions| ==> 0 <= transitions[i].1 <= EmptyFrame)
    }

    /** Full bars, then the initial health and stamina updates. */
    constructor (hasAnimations: bool)
      ensures Valid()
      ensures currentHealth == previousHealth == MaxHealth && currentStamina == previousStamina == MaxStamina
      ensures !isAnimating && !isDying && currentFrame == 0 && healthFrame == 0 && staminaFrame == 0
      ensures this.hasAnimations == hasAnimations && transitions == []
    {
      this.hasAnimations := hasAnimations;
      currentHealth := MaxHealth;
      previousHealth := MaxHealth;
      currentStamina := MaxStamina;
      previousStamina := MaxStamina;
      isAnimating := false;
      isDying := false;
      currentFrame := 0;
      healthFrame := 0;
      staminaFrame := 0;
      transitions := [];
    }

    /** `reset`: stops any animation and restores full bars. */
    method Reset()
      requires Valid()
      modifies this
      ensures Valid()
      ensures currentHealth == previousHealth == MaxHealth && currentStamina == previousStamina == MaxStamina
      ensures !isAnimating && !isDying && currentFrame == 0 && healthFrame == 0 && staminaFrame == 0
      ensures transitions == old(transitions)
    {
      isAnimating := false;
      isDying := false;
      healthFrame := 0;
      staminaFrame := 0;
      currentHealth := MaxHealth;
      previousHealth := MaxHealth;
      currentStamina := MaxStamina;
      previousStamina := MaxStamina;
      currentFrame := 0;
    }

    /**
     * `updateHealth`: records the clamped health, then either shows the new
     * frame at once (same frame, death, or no animation manager), does
     * nothing more while a transition is running, or starts a transition.
     */
    method UpdateHealth(health: real)
      requires Valid()
      modifies this
      ensures Valid()
      ensures previousHealth == old(currentHealth) && currentHealth == Clamp(health, 0.0, MaxHealth)
      ensures currentStamina == old(currentStamina) && staminaFrame == old(staminaFrame)
      ensures var pf := HealthFrame(previousHealth); var tf := HealthFrame(currentHealth);
        if pf == tf then
          healthFrame == tf && isDying == old(isDying) && isAnimating == old(isAnimating) && transitions == old(transitions)
        else if currentHealth == 0.0 && previousHealth > 0.0 then
          isDying && healthFrame == tf && isAnimating == old(isAnimating) && transitions == old(transitions)
        else if old(isAnimating) || !hasAnimations then
          healthFrame == (if old(isAnimating) then old(healthFrame) else tf)
          && isDying == old(isDying) && isAnimating == old(isAnimating) && transitions == old(transitions)
        else
          isAnimating && healthFrame == old(healthFrame) && isDying == old(isDying)
          && transitions == old(transitions) + [(pf, tf)]
    {
      previousHealth := currentHealth;
      currentHealth := Clamp(health, 0.0, MaxHealth);
      var prevFrame := HealthFrame(previousHealth);
      var targetFrame := HealthFrame(currentHealth);
      if prevFrame == targetFrame {
        healthFrame := targetFrame;
        return;
      }
      if currentHealth == 0.0 && previousHealth > 0.0 {
        isDying := true;
        healthFrame := targetFrame;
        return;
      }
      if isAnimating {
        return;
      }
      if !hasAnimations {
        healthFrame := targetFrame;
        return;
      }
      isAnimating := true;
      transitions := transitions + [(prevFrame, targetFrame)];
    }

    /** The transition's completion: the sprite rests on its target frame and animating ends. */
    method TransitionComplete()
      requires Valid() && isAnimating
      modifies this`healthFrame, this`isAnimating
      ensures Valid()
      ensures healthFrame == transitions[|transitions| - 1].1 && !isAnimating
    {
      healthFrame := transitions[|transitions| - 1].1;
      isAnimating := false;
    }

    /** `updateStamina`: records the clamped stamina and shows its frame. */
    method UpdateStamina(stamina: real)
      requires Valid()
      modifies this`previousStamina, this`currentStamina, this`staminaFrame
      ensures Valid()
      ensures previousStamina == old(currentStamina) && currentStamina == Clamp(stamina, 0.0, MaxStamina)
      ensures staminaFrame == StaminaFrame(currentStamina)
    {
      previousStamina := currentStamina;
      currentStamina := Clamp(stamina, 0.0, MaxStamina);
      staminaFrame := StaminaFrame(currentStamina);
    }
  }
}
