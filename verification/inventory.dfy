/**
 Queries over the player's inventory, an insertion-ordered sequence of item
 records in which duplicates are separate entries.
 */
module Inventory {
  import opened Items

  /** Some entry has type `t` (the program's `hasItemType`). */
  predicate HasItemType(inv: seq<Item>, t: Kind) {
    exists i :: 0 <= i < |inv| && inv[i].kind == t
  }

  /** Some entry is a weapon named "Steel Sword". */
  predicate HasSteelSword(inv: seq<Item>) {
    exists i :: 0 <= i < |inv| && inv[i].kind == Weapon && inv[i].name == "Steel Sword"
  }

  /** The entries of type `t`, in inventory order (the program's `getItemsByType`). */
  function ItemsByType(inv: seq<Item>, t: Kind): (r: seq<Item>)
    ensures |r| <= |inv|
    ensures forall x :: x in r <==> x in inv && x.kind == t
  {
    if |inv| == 0 then []
    else
      assert inv == [inv[0]] + inv[1..];
      if inv[0].kind == t then [inv[0]] + ItemsByType(inv[1..], t)
      else ItemsByType(inv[1..], t)
  }

  /** The number of entries of type `t`. */
  function CountKind(inv: seq<Item>, t: Kind): nat {
    |ItemsByType(inv, t)|
  }

  /** Each entry of type `t` is kept as often as it occurs; no other is kept. */
  lemma {:induction false} ItemsByTypeCount(inv: seq<Item>, t: Kind, x: Item)
    ensures multiset(ItemsByType(inv, t))[x] == if x.kind == t then multiset(inv)[x] else 0
  {
    if |inv| > 0 {
      assert inv == [inv[0]] + inv[1..];
      ItemsByTypeCount(inv[1..], t, x);
    }
  }

  /** Filtering distributes over concatenation, so relative order is kept. */
  lemma {:induction false} ItemsByTypeAppend(a: seq<Item>, b: seq<Item>, t: Kind)
    ensures ItemsByType(a + b, t) == ItemsByType(a, t) + ItemsByType(b, t)
  {
    if |a| == 0 {
      assert a + b == b;
    } else {
      assert (a + b)[0] == a[0];
      assert (a + b)[1..] == a[1..] + b;
      ItemsByTypeAppend(a[1..], b, t);
    }
  }

  /** There is a type-`t` entry exactly when the filtered list is non-empty. */
  lemma HasItemTypeFiltered(inv: seq<Item>, t: Kind)
    ensures HasItemType(inv, t) <==> |ItemsByType(inv, t)| > 0
  {
    var r := ItemsByType(inv, t);
    if HasItemType(inv, t) {
      var i :| 0 <= i < |inv| && inv[i].kind == t;
      assert inv[i] in r;
    }
    if |r| > 0 {
      assert r[0] in r;
      assert r[0] in inv;
      var i :| 0 <= i < |inv| && inv[i] == r[0];
    }
  }

  /** One step of the program's reduce: a later item replaces the current best
      only when its effect is strictly greater. */
  function KeepBetter(best: Item, item: Item): Item {
    if item.effect > best.effect then item else best
  }

  /** Left fold of `KeepBetter` over `items`, starting from `best`. */
  function Reduce(items: seq<Item>, best: Item): (r: Item)
    ensures r == best || r in items
    ensures r.effect >= best.effect
    ensures forall x :: x in items ==> x.effect <= r.effect
  {
    if |items| == 0 then best
    else Reduce(items[1..], KeepBetter(best, items[0]))
  }

  /** `x` is the first entry of type `t` whose effect is not beaten by any
      other entry of type `t`. */
  ghost predicate LeftmostBest(inv: seq<Item>, t: Kind, x: Item) {
    && x.kind == t
    && (forall j :: 0 <= j < |inv| && inv[j].kind == t ==> inv[j].effect <= x.effect)
    && exists i :: 0 <= i < |inv| && inv[i] == x
                   && forall j :: 0 <= j < i && inv[j].kind == t ==> inv[j].effect < x.effect
  }

  /** At most one item is the leftmost best one. */
  lemma LeftmostBestUnique(inv: seq<Item>, t: Kind, x: Item, y: Item)
    requires LeftmostBest(inv, t, x) && LeftmostBest(inv, t, y)
    ensures x == y
  {
    var i :| 0 <= i < |inv| && inv[i] == x
             && forall j :: 0 <= j < i && inv[j].kind == t ==> inv[j].effect < x.effect;
    var k :| 0 <= k < |inv| && inv[k] == y
             && forall j :: 0 <= j < k && inv[j].kind == t ==> inv[j].effect < y.effect;
    assert i == k;
  }

  /** What a fold seeded with `b` over the type-`t` entries of `inv` yields:
      `r` beats or ties every entry of type `t`, and either is the seed itself
      or is an inventory entry that beats the seed and every earlier entry of
      type `t` strictly. */
  ghost predicate FoldResult(inv: seq<Item>, t: Kind, b: Item, r: Item) {
    && (forall j :: 0 <= j < |inv| && inv[j].kind == t ==> inv[j].effect <= r.effect)
    && (|| r == b
        || (&& r.kind == t && r.effect > b.effect
            && exists i :: 0 <= i < |inv| && inv[i] == r
                           && forall j :: 0 <= j < i && inv[j].kind == t ==> inv[j].effect < r.effect))
  }

  /** A fold result for the tail is one for the whole inventory when the head
      is not of type `t`. */
  lemma FoldResultSkip(inv: seq<Item>, t: Kind, b: Item, r: Item)
    requires |inv| > 0 && inv[0].kind != t
    requires FoldResult(inv[1..], t, b, r)
    ensures FoldResult(inv, t, b, r)
  {
    var rest := inv[1..];
    forall j | 0 <= j < |inv| && inv[j].kind == t
      ensures inv[j].effect <= r.effect
    {
      assert inv[j] == rest[j - 1];
    }
    if r != b {
      var i :| 0 <= i < |rest| && rest[i] == r
               && forall j :: 0 <= j < i && rest[j].kind == t ==> rest[j].effect < r.effect;
      assert inv[i + 1] == r;
      forall j | 0 <= j < i + 1 && inv[j].kind == t
        ensures inv[j].effect < r.effect
      {
        assert inv[j] == rest[j - 1];
      }
    }
  }

  /** A fold result for the tail, seeded with the head when the head beats
      `b`, is one for the whole inventory seeded with `b`. */
  lemma FoldResultTake(inv: seq<Item>, t: Kind, b: Item, r: Item)
    requires |inv| > 0 && inv[0].kind == t
    requires FoldResult(inv[1..], t, KeepBetter(b, inv[0]), r)
    requires r.effect >= KeepBetter(b, inv[0]).effect
    ensures FoldResult(inv, t, b, r)
  {
    var rest := inv[1..];
    var b' := KeepBetter(b, inv[0]);
    forall j | 0 <= j < |inv| && inv[j].kind == t
      ensures inv[j].effect <= r.effect
    {
      if j > 0 {
        assert inv[j] == rest[j - 1];
      }
    }
    if r == b' {
      if b' != b {
        assert inv[0] == r;
      }
    } else {
      var i :| 0 <= i < |rest| && rest[i] == r
               && forall j :: 0 <= j < i && rest[j].kind == t ==> rest[j].effect < r.effect;
      assert inv[i + 1] == r;
      forall j | 0 <= j < i + 1 && inv[j].kind == t
        ensures inv[j].effect < r.effect
      {
        if j > 0 {
          assert inv[j] == rest[j - 1];
        }
      }
    }
  }

  /** Folding `KeepBetter` over the filtered inventory yields a fold result. */
  lemma {:induction false} ReduceOverType(inv: seq<Item>, t: Kind, b: Item)
    ensures FoldResult(inv, t, b, Reduce(ItemsByType(inv, t), b))
  {
    if |inv| > 0 {
      var rest := inv[1..];
      if inv[0].kind == t {
        var f := ItemsByType(inv, t);
        assert f[1..] == ItemsByType(rest, t);
        ReduceOverType(rest, t, KeepBetter(b, inv[0]));
        FoldResultTake(inv, t, b, Reduce(f, b));
      } else {
        ReduceOverType(rest, t, b);
        FoldResultSkip(inv, t, b, Reduce(ItemsByType(inv, t), b));
      }
    }
  }

  /** The head of the filtered list is the first inventory entry of type `t`. */
  lemma {:induction false} FirstOfType(inv: seq<Item>, t: Kind)
    requires |ItemsByType(inv, t)| > 0
    ensures exists i :: 0 <= i < |inv| && inv[i] == ItemsByType(inv, t)[0]
                        && forall j :: 0 <= j < i ==> inv[j].kind != t
  {
    if inv[0].kind == t {
      assert ItemsByType(inv, t)[0] == inv[0];
    } else {
      var rest := inv[1..];
      assert ItemsByType(inv, t) == ItemsByType(rest, t);
      FirstOfType(rest, t);
      var i :| 0 <= i < |rest| && rest[i] == ItemsByType(rest, t)[0]
               && forall j :: 0 <= j < i ==> rest[j].kind != t;
      assert inv[i + 1] == rest[i];
      forall j | 0 <= j < i + 1
        ensures inv[j].kind != t
      {
        if j > 0 {
          assert inv[j] == rest[j - 1];
        }
      }
    }
  }

  /** The entry of type `t` with the highest effect, the earliest one on ties,
      or None when there is none (the program's `getBestItem`). */
  function BestItem(inv: seq<Item>, t: Kind): (r: Option<Item>)
    ensures r.None? <==> !HasItemType(inv, t)
    ensures r.Some? ==> r.value in inv && LeftmostBest(inv, t, r.value)
  {
    var items := ItemsByType(inv, t);
    HasItemTypeFiltered(inv, t);
    if |items| == 0 then None
    else
      var best := Reduce(items, items[0]);
      BestItemIsLeftmost(inv, t);
      Some(best)
  }

  /** The fold seeded with the first entry of type `t` finds the leftmost best. */
  lemma BestItemIsLeftmost(inv: seq<Item>, t: Kind)
    requires |ItemsByType(inv, t)| > 0
    ensures var items := ItemsByType(inv, t);
      LeftmostBest(inv, t, Reduce(items, items[0]))
  {
    var items := ItemsByType(inv, t);
    var r := Reduce(items, items[0]);
    assert items[0] in items;
    ReduceOverType(inv, t, items[0]);
    if r == items[0] {
      FirstOfType(inv, t);
    }
  }

  /** Whatever is in stock, the best item of a type is one of its entries and
      no entry of that type beats it. */
  lemma BestItemDominates(inv: seq<Item>, t: Kind, i: int)
    requires 0 <= i < |inv| && inv[i].kind == t
    ensures BestItem(inv, t).Some?
    ensures inv[i].effect <= BestItem(inv, t).value.effect
  {
  }

  /** Removes exactly the entry at index `i`, shifting the later ones down
      (the program's `splice(i, 1)`). */
  function RemoveAt(inv: seq<Item>, i: nat): (r: seq<Item>)
    requires i < |inv|
    ensures |r| == |inv| - 1
    ensures forall j :: 0 <= j < i ==> r[j] == inv[j]
    ensures forall j :: i <= j < |r| ==> r[j] == inv[j + 1]
    ensures multiset(r) + multiset{inv[i]} == multiset(inv)
  {
    assert inv == inv[..i] + [inv[i]] + inv[i + 1..];
    inv[..i] + inv[i + 1..]
  }

  /** Putting the removed entry back at its index restores the inventory. */
  lemma RemoveAtRoundTrip(inv: seq<Item>, i: nat)
    requires i < |inv|
    ensures var r := RemoveAt(inv, i); r[..i] + [inv[i]] + r[i..] == inv
  {
    var r := RemoveAt(inv, i);
    assert r[..i] == inv[..i];
    assert r[i..] == inv[i + 1..];
    assert inv == inv[..i] + [inv[i]] + inv[i + 1..];
  }

  /** Removing an entry keeps every other entry a catalog copy. */
  lemma RemoveAtFromCatalog(inv: seq<Item>, i: nat)
    requires i < |inv| && FromCatalog(inv)
    ensures FromCatalog(RemoveAt(inv, i))
  {
    var r := RemoveAt(inv, i);
    forall j | 0 <= j < |r|
      ensures r[j] in Catalog
    {
      if j >= i {
        assert r[j] == inv[j + 1];
      }
    }
  }
}
