/**
 Gold-for-item exchanges at the blacksmith and the market.
 */
module Shop {
  import opened Items
  import opened Player

  /** The summed price of a list of items. */
  function TotalCost(items: seq<Item>): nat {
    if |items| == 0 then 0 else items[0].cost + TotalCost(items[1..])
  }

  lemma {:induction false} TotalCostAppend(a: seq<Item>, b: seq<Item>)
    ensures TotalCost(a + b) == TotalCost(a) + TotalCost(b)
  {
    if |a| == 0 {
      assert a + b == b;
    } else {
      assert (a + b)[1..] == a[1..] + b;
      TotalCostAppend(a[1..], b);
    }
  }

  /** Buys one copy of `item` when the player can afford it; otherwise
      nothing changes. */
  function Purchase(s: State, item: Item): (r: State)
    ensures s.gold >= item.cost <==> |r.inventory| == |s.inventory| + 1
    ensures s.gold < item.cost ==> r == s
    ensures s.gold >= item.cost ==> r.inventory == s.inventory + [item] && r.gold == s.gold - item.cost
    ensures s.gold >= item.cost ==> r.inventory[|s.inventory|] == item
    ensures r.inventory[..|s.inventory|] == s.inventory
    ensures r.gold + TotalCost(r.inventory) == s.gold + TotalCost(s.inventory)
    ensures s.gold >= 0 ==> r.gold >= 0
    ensures r.health == s.health && r.location == s.location && r.running == s.running
  {
    if s.gold >= item.cost then
      TotalCostAppend(s.inventory, [item]);
      assert TotalCost([item]) == item.cost;
      assert (s.inventory + [item])[..|s.inventory|] == s.inventory;
      s.(inventory := s.inventory + [item], gold := s.gold - item.cost)
    else s
  }

  /** The blacksmith's stock by menu number; None for any other number. */
  function BlacksmithItem(choice: int): (r: Option<Item>)
    ensures r.Some? <==> 0 <= choice <= 3
    ensures r.Some? ==> r.value in Catalog && r.value.kind != Potion
  {
    if choice == 0 then Some(SteelSword)
    else if choice == 1 then Some(Sword)
    else if choice == 2 then Some(WoodenShield)
    else if choice == 3 then Some(IronShield)
    else None
  }

  /** Every weapon and every armor of the catalog is on the blacksmith's menu. */
  lemma BlacksmithSellsAllEquipment(x: Item)
    requires x in Catalog && x.kind != Potion
    ensures exists c :: 0 <= c <= 3 && BlacksmithItem(c) == Some(x)
  {
    if x == SteelSword { assert BlacksmithItem(0) == Some(x); }
    else if x == Sword { assert BlacksmithItem(1) == Some(x); }
    else if x == WoodenShield { assert BlacksmithItem(2) == Some(x); }
    else { assert BlacksmithItem(3) == Some(x); }
  }

  /** Buying at the blacksmith; an unknown menu number is rejected (None). */
  function BuyFromBlacksmith(s: State, choice: int): (r: Option<State>)
    ensures r.None? <==> !(0 <= choice <= 3)
    ensures r.Some? ==> r.value == Purchase(s, BlacksmithItem(choice).value)
  {
    match BlacksmithItem(choice)
    case None => None
    case Some(item) => Some(Purchase(s, item))
  }

  /** Buying a health potion at the market when the player answers yes. */
  function BuyFromMarket(s: State, yes: bool): (r: State)
    ensures !yes || s.gold < HealthPotion.cost ==> r == s
    ensures yes && s.gold >= HealthPotion.cost ==>
      r.inventory == s.inventory + [HealthPotion] && r.gold == s.gold - HealthPotion.cost
    ensures r.health == s.health && r.location == s.location && r.running == s.running
  {
    if yes then Purchase(s, HealthPotion) else s
  }

  /** Buying a catalog item keeps the state valid. */
  lemma PurchasePreservesValid(s: State, item: Item)
    requires Valid(s) && item in Catalog
    ensures Valid(Purchase(s, item))
  {
    var r := Purchase(s, item);
    if s.gold >= item.cost {
      forall i | 0 <= i < |r.inventory|
        ensures r.inventory[i] in Catalog
      {
        if i < |s.inventory| {
          assert r.inventory[i] == r.inventory[..|s.inventory|][i];
        }
      }
    }
  }
}
