/**
 The item catalog of The Dragon's Quest: the kinds of item a player can own,
 the item record, and the five fixed templates that shops copy into the
 inventory.
 */
module Items {

  /** The closed set of item types (a string tag in the program). */
  datatype Kind = Potion | Weapon | Armor

  /** An item record. `cost` is the gold price (called `value` in the program);
      `effect` is the healing amount of a potion, the damage of a weapon and
      the protection of a piece of armor. The description text is display-only
      and is not part of the model. */
  datatype Item = Item(name: string, kind: Kind, cost: nat, effect: nat)

  /** An item, or no item where the program answers `null`. */
  datatype Option<T> = None | Some(value: T)

  const HealthPotion := Item("Health Potion", Potion, 5, 30)
  const Sword := Item("Sword", Weapon, 10, 10)
  const SteelSword := Item("Steel Sword", Weapon, 20, 15)
  const WoodenShield := Item("Wooden Shield", Armor, 8, 5)
  const IronShield := Item("Iron Shield", Armor, 15, 10)

  /** Every template a shop can hand out. */
  const Catalog: set<Item> := {HealthPotion, Sword, SteelSword, WoodenShield, IronShield}

  /** Every inventory entry is a copy of some catalog template. */
  predicate FromCatalog(inv: seq<Item>) {
    forall i :: 0 <= i < |inv| ==> inv[i] in Catalog
  }

  /** Templates are told apart by name alone. */
  lemma CatalogNamesUnique(x: Item, y: Item)
    requires x in Catalog && y in Catalog
    ensures x.name == y.name <==> x == y
  {
  }
}
