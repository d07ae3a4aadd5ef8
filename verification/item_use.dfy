/**
 Using an inventory entry by its position: drinking a potion heals and
 consumes that one entry; readying a weapon succeeds without changing
 anything; nothing else has an effect.
 */
module ItemUse {
  import opened Items
  import opened Inventory
  import opened Player

  /** The state after the attempt, and whether the program reports success. */
  datatype Use = Use(after: State, used: bool)

  /** Uses the entry at the 0-based `index` (the program's `useItem`, once the
      typed number has been parsed and reduced by one). */
  function UseItem(s: State, index: int): (r: Use)
    ensures r.used <==> 0 <= index < |s.inventory| && s.inventory[index].kind != Armor
    ensures 0 <= index < |s.inventory| && s.inventory[index].kind == Potion ==>
      && r.after.health == UpdateHealth(s, s.inventory[index].effect).health
      && r.after.inventory == RemoveAt(s.inventory, index)
      && r.after.(health := s.health, inventory := s.inventory) == s
    ensures !(0 <= index < |s.inventory| && s.inventory[index].kind == Potion) ==> r.after == s
  {
    if |s.inventory| == 0 then Use(s, false)
    else if 0 <= index < |s.inventory| then
      var item := s.inventory[index];
      match item.kind
      case Potion => Use(UpdateHealth(s, item.effect).(inventory := RemoveAt(s.inventory, index)), true)
      case Weapon => Use(s, true)
      case Armor => Use(s, false)
    else Use(s, false)
  }

  /** Drinking a potion consumes exactly one potion and no other entry, and
      never lowers a health that is within range. */
  lemma DrinkConsumesOnePotion(s: State, index: int)
    requires 0 <= s.health <= MaxHealth
    requires 0 <= index < |s.inventory| && s.inventory[index].kind == Potion
    ensures var r := UseItem(s, index).after;
      && CountKind(r.inventory, Potion) + 1 == CountKind(s.inventory, Potion)
      && CountKind(r.inventory, Weapon) == CountKind(s.inventory, Weapon)
      && CountKind(r.inventory, Armor) == CountKind(s.inventory, Armor)
      && r.health >= s.health
  {
    var inv := s.inventory;
    var r := UseItem(s, index).after;
    assert inv == inv[..index] + [inv[index]] + inv[index + 1..];
    assert r.inventory == inv[..index] + inv[index + 1..];
    ItemsByTypeAppend(inv[..index] + [inv[index]], inv[index + 1..], Potion);
    ItemsByTypeAppend(inv[..index], [inv[index]], Potion);
    ItemsByTypeAppend(inv[..index], inv[index + 1..], Potion);
    ItemsByTypeAppend(inv[..index] + [inv[index]], inv[index + 1..], Weapon);
    ItemsByTypeAppend(inv[..index], [inv[index]], Weapon);
    ItemsByTypeAppend(inv[..index], inv[index + 1..], Weapon);
    ItemsByTypeAppend(inv[..index] + [inv[index]], inv[index + 1..], Armor);
    ItemsByTypeAppend(inv[..index], [inv[index]], Armor);
    ItemsByTypeAppend(inv[..index], inv[index + 1..], Armor);
    UpdateHealthDirection(s, inv[index].effect);
  }

  /** Using an item keeps the state valid. */
  lemma UseItemPreservesValid(s: State, index: int)
    requires Valid(s)
    ensures Valid(UseItem(s, index).after)
  {
    if 0 <= index < |s.inventory| && s.inventory[index].kind == Potion {
      RemoveAtFromCatalog(s.inventory, index);
    }
  }

  /** At full health, drinking the only potion leaves health at 100 and
      empties the inventory. */
  lemma PotionAtFullHealth(s: State)
    requires s.health == MaxHealth && s.inventory == [HealthPotion]
    ensures UseItem(s, 0) == Use(s.(inventory := []), true)
  {
  }
}
