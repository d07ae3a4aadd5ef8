/**
 The player record the game mutates: health, gold, location, inventory and
 the flag that keeps the game loop running.
 */
module Player {
  import opened Items

  /** The five places of the game; the village is the hub. */
  datatype Location = Village | Blacksmith | Market | Forest | Mountains

  datatype State = State(health: int, gold: int, location: Location, inventory: seq<Item>, running: bool)

  const MaxHealth := 100

  /** A fresh game: full health, 20 gold, in the village, empty-handed. */
  const NewGame := State(MaxHealth, 20, Village, [], true)

  /** The bounds the rules keep: health within [0, 100], gold never negative,
      and only catalog copies in the inventory. */
  predicate Valid(s: State) {
    && 0 <= s.health <= MaxHealth
    && s.gold >= 0
    && FromCatalog(s.inventory)
  }

  lemma NewGameValid()
    ensures Valid(NewGame) && NewGame.running
  {
  }

  function Clamp(h: int): int {
    if h > MaxHealth then MaxHealth else if h < 0 then 0 else h
  }

  /** Adds `amount` to the health and clamps the result to [0, 100]
      (the program's `updateHealth`; the new health is `r.health`). */
  function UpdateHealth(s: State, amount: int): (r: State)
    ensures 0 <= r.health <= MaxHealth
    ensures 0 <= s.health + amount <= MaxHealth ==> r.health == s.health + amount
    ensures s.health + amount > MaxHealth ==> r.health == MaxHealth
    ensures s.health + amount < 0 ==> r.health == 0
    ensures r.(health := s.health) == s
  {
    s.(health := Clamp(s.health + amount))
  }

  /** A larger change never leaves less health. */
  lemma UpdateHealthMonotone(s: State, a: int, b: int)
    requires a <= b
    ensures UpdateHealth(s, a).health <= UpdateHealth(s, b).health
  {
  }

  /** Healing never hurts and damage never heals, starting from a health in range. */
  lemma UpdateHealthDirection(s: State, amount: int)
    requires 0 <= s.health <= MaxHealth
    ensures amount >= 0 ==> UpdateHealth(s, amount).health >= s.health
    ensures amount <= 0 ==> UpdateHealth(s, amount).health <= s.health
  {
  }

  /** Applies a sequence of health changes in order. */
  function ApplyHealthChanges(s: State, amounts: seq<int>): State
    decreases |amounts|
  {
    if |amounts| == 0 then s
    else ApplyHealthChanges(UpdateHealth(s, amounts[0]), amounts[1..])
  }

  /** Any sequence of health changes keeps the health within [0, 100] and
      touches nothing but the health. */
  lemma {:induction false} HealthStaysInRange(s: State, amounts: seq<int>)
    requires 0 <= s.health <= MaxHealth
    ensures 0 <= ApplyHealthChanges(s, amounts).health <= MaxHealth
    ensures ApplyHealthChanges(s, amounts).(health := s.health) == s
    decreases |amounts|
  {
    if |amounts| > 0 {
      HealthStaysInRange(UpdateHealth(s, amounts[0]), amounts[1..]);
    }
  }

  /** The game-over test of the main loop. */
  predicate IsDead(s: State) {
    s.health <= 0
  }

  /** Within the bounds, the game is over exactly at zero health. */
  lemma IsDeadAtZero(s: State)
    requires Valid(s)
    ensures IsDead(s) <==> s.health == 0
  {
  }
}
