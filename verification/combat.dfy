/**
 The single-round combat resolver: equipment selection, the two entry gates,
 the damage the player takes, and the reward.
 */
module Combat {
  import opened Items
  import opened Inventory
  import opened Player

  const MonsterDamage := 10
  const DragonDamage := 20
  const MonsterReward := 10
  const DragonReward := 100
  /** Health lost for facing the dragon without a Steel Sword and armor. */
  const UnpreparedPenalty := 30
  /** Health lost for entering a fight with no weapon. */
  const UnarmedPenalty := 20

  /** What a fight leaves behind, and whether the player won. */
  datatype Outcome = Outcome(after: State, won: bool)

  /** Ready for the dragon: a weapon named "Steel Sword" and any armor
      (the program's `hasGoodEquipment`). */
  predicate HasGoodEquipment(inv: seq<Item>) {
    HasSteelSword(inv) && HasItemType(inv, Armor)
  }

  /** The protection of the best armor, or 0 without armor. */
  function Protection(inv: seq<Item>): (p: nat)
    ensures !HasItemType(inv, Armor) ==> p == 0
    ensures HasItemType(inv, Armor) ==>
      (exists i :: 0 <= i < |inv| && inv[i].kind == Armor && inv[i].effect == p)
    ensures forall i :: 0 <= i < |inv| && inv[i].kind == Armor ==> inv[i].effect <= p
  {
    match BestItem(inv, Armor)
    case None => 0
    case Some(a) => a.effect
  }

  /** Damage the player takes in an armed fight: the monster's damage less the
      protection, but never below 1. */
  function DamageTaken(isDragon: bool, inv: seq<Item>): (d: int)
    ensures d >= 1
    ensures d >= (if isDragon then DragonDamage else MonsterDamage) - Protection(inv)
    ensures d == 1 || d == (if isDragon then DragonDamage else MonsterDamage) - Protection(inv)
  {
    var monsterDamage := if isDragon then DragonDamage else MonsterDamage;
    var protection := Protection(inv);
    if 1 > monsterDamage - protection then 1 else monsterDamage - protection
  }

  /** Resolves one fight against a monster or, when `isDragon`, the dragon
      (the program's `handleCombat`). The dragon gate is checked before the
      weapon gate; an armed fight always wins. */
  function HandleCombat(s: State, isDragon: bool): (r: Outcome)
    ensures r.after.inventory == s.inventory && r.after.location == s.location
    ensures r.won <==> (isDragon ==> HasGoodEquipment(s.inventory)) && HasItemType(s.inventory, Weapon)
    ensures isDragon && !HasGoodEquipment(s.inventory) ==>
      r.after == UpdateHealth(s, -UnpreparedPenalty)
    ensures !isDragon && !HasItemType(s.inventory, Weapon) ==>
      r.after == UpdateHealth(s, -UnarmedPenalty)
    ensures r.won ==>
      && r.after.health == UpdateHealth(s, -DamageTaken(isDragon, s.inventory)).health
      && r.after.gold == s.gold + (if isDragon then DragonReward else MonsterReward)
      && r.after.running == (s.running && !isDragon)
  {
    var weapon := BestItem(s.inventory, Weapon);
    if isDragon && !HasGoodEquipment(s.inventory) then
      Outcome(UpdateHealth(s, -UnpreparedPenalty), false)
    else if weapon.None? then
      Outcome(UpdateHealth(s, -UnarmedPenalty), false)
    else
      var hurt := UpdateHealth(s, -DamageTaken(isDragon, s.inventory));
      if isDragon then
        Outcome(hurt.(gold := hurt.gold + DragonReward, running := false), true)
      else
        Outcome(hurt.(gold := hurt.gold + MonsterReward), true)
  }

  /** Being ready for the dragon implies being armed, so a dragon fight never
      reaches the weapon gate: a lost fight costs 30 against the dragon and 20
      against a monster, and changes nothing but the health. */
  lemma LostFightPenalty(s: State, isDragon: bool)
    ensures var r := HandleCombat(s, isDragon);
      !r.won ==> r.after == UpdateHealth(s, -(if isDragon then UnpreparedPenalty else UnarmedPenalty))
  {
    var r := HandleCombat(s, isDragon);
    if isDragon && HasGoodEquipment(s.inventory) {
      var i :| 0 <= i < |s.inventory| && s.inventory[i].kind == Weapon && s.inventory[i].name == "Steel Sword";
      assert HasItemType(s.inventory, Weapon);
    }
  }

  /** An armed fight costs health unless the player is already at zero. */
  lemma WonFightHurts(s: State, isDragon: bool)
    requires 0 <= s.health <= MaxHealth
    ensures var r := HandleCombat(s, isDragon);
      r.won ==> r.after.health < s.health || r.after.health == 0
  {
  }

  /** Winning against the dragon ends the game; no other fight does. */
  lemma OnlyDragonEndsGame(s: State, isDragon: bool)
    ensures var r := HandleCombat(s, isDragon);
      r.after.running != s.running <==> s.running && isDragon && r.won
  {
  }

  /** A fight keeps health in range, never loses gold, and keeps the inventory. */
  lemma CombatPreservesValid(s: State, isDragon: bool)
    requires Valid(s)
    ensures Valid(HandleCombat(s, isDragon).after)
    ensures HandleCombat(s, isDragon).after.gold >= s.gold
  {
  }

  /** An empty-handed player retreats from a monster with exactly 20 health
      lost and the gold kept. */
  lemma EmptyHandedRetreat()
    ensures HandleCombat(NewGame, false) == Outcome(NewGame.(health := 80), false)
  {
  }

  /** A Steel Sword and an Iron Shield beat the dragon for 10 damage and
      100 gold, and the game ends. */
  lemma DragonSlain(s: State)
    requires s.health == 100 && s.inventory == [SteelSword, IronShield]
    ensures HandleCombat(s, true) == Outcome(s.(health := 90, gold := s.gold + 100, running := false), true)
  {
    assert HasSteelSword(s.inventory) by { assert s.inventory[0] == SteelSword; }
    assert HasItemType(s.inventory, Armor) by { assert s.inventory[1].kind == Armor; }
    assert Protection(s.inventory) == 10;
  }

  /** Any number of other weapons does not make up for a missing Steel Sword. */
  lemma DragonNeedsSteelSword(s: State)
    requires !HasSteelSword(s.inventory)
    ensures HandleCombat(s, true) == Outcome(UpdateHealth(s, -30), false)
  {
  }
}
