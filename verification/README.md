# The Dragon's Quest — game-state engine in Dafny

This project models the rules engine of *The Dragon's Quest*, a single-player
text adventure (`AdventureGame.js`). There is one player record: health, gold,
current location, an ordered inventory of item records and the flag that keeps
the game loop running. The pure rules that change it are modelled as functions
over an immutable `State`:

- the health clamp (`updateHealth`);
- the inventory queries (`getItemsByType`, `getBestItem`, `hasItemType`,
  `hasGoodEquipment`);
- the single-round combat resolver (`handleCombat`);
- the purchase branches of the blacksmith and the market;
- the potion branch of `useItem`;
- the location state machine (`move`).

The string tags the program uses for item types and locations become the
datatypes `Items.Kind` and `Player.Location`. The five item templates become
the constants of module `Items`.

Modules, leaf first:

| file | module | contents |
|---|---|---|
| items.dfy | `Items` | `Kind`, `Item`, `Option`, the five templates, `Catalog` |
| inventory.dfy | `Inventory` | type filter, leftmost-best fold, `RemoveAt` |
| player.dfy | `Player` | `Location`, `State`, `Valid`, `UpdateHealth`, `IsDead` |
| combat.dfy | `Combat` | readiness gate, damage, `HandleCombat` |
| shop.dfy | `Shop` | `Purchase`, blacksmith menu, market |
| item_use.dfy | `ItemUse` | `UseItem` |
| movement.dfy | `Movement` | `Move`, its destination table |
| game.dfy | `Game` | the intents the input loop dispatches, and the invariant they keep |

`getBestItem` is modelled the way the program computes it. `ItemsByType`
filters the inventory. `Reduce` then folds over the result, seeded with the
first match, and replaces the current best only on a strictly greater effect.
`BestItem`'s contract then states the independent property: the result is the
leftmost entry whose effect no other entry of that type beats. A
lemma shows that at most one entry has that property.

Points where the model follows the code's exact behaviour:

- `IsDead` is `health <= 0`, as in the main loop. `Player.IsDeadAtZero` shows
  that within the bounds this is the same as `health == 0`.
- `move` accepts both 1 and 2 as "return to village" at the blacksmith, the
  market and the forest, whatever the menus say.
- `useItem` on a weapon reports success without changing anything. On armor
  it reports failure.
- Iron Shield costs 15 and protects by 10, as its template says. The
  blacksmith's menu text advertises 20 and 15.
- An invalid item number is not an error value. The state is simply left
  unchanged.

## Model

| member | source | states |
|---|---|---|
| Items.CatalogNamesUnique | AdventureGame.js:22-62 | the five templates have pairwise different names, so a name identifies a template |
| Inventory.ItemsByType | AdventureGame.js:327-330 | the result holds exactly the entries of the given type and nothing else, and is no longer than the inventory |
| Inventory.ItemsByTypeCount | AdventureGame.js:327-330 | each entry of the type is kept as often as it occurs in the inventory, and no other entry is kept |
| Inventory.ItemsByTypeAppend | AdventureGame.js:327-330 | filtering distributes over concatenation, so the entries keep their inventory order |
| Inventory.HasItemTypeFiltered | AdventureGame.js:169-171 | some entry has the type exactly when the filtered list is non-empty |
| Inventory.Reduce | AdventureGame.js:346-348 | the fold returns the seed or one of the items, never less effective than the seed, and no item beats it |
| Inventory.ReduceOverType | AdventureGame.js:339-348 | a fold over the type's entries keeps the seed, or lands on an entry that strictly beats the seed and every earlier entry of the type |
| Inventory.FirstOfType | AdventureGame.js:339-348 | the head of the filtered list is the first inventory entry of that type, so the fold's seed is the leftmost candidate |
| Inventory.BestItem | AdventureGame.js:338-350 | None exactly when no entry has the type; otherwise an entry of the type that no entry of the type beats, with every earlier entry of the type strictly worse |
| Inventory.BestItemIsLeftmost | AdventureGame.js:346-348 | the reduce seeded with the first match finds the leftmost best entry, since a tie never replaces the current best |
| Inventory.LeftmostBestUnique | AdventureGame.js:338-350 | at most one item is the leftmost best of a type, so the contract of BestItem fixes its result |
| Inventory.BestItemDominates | AdventureGame.js:338-350 | whenever some entry has the type, a best item exists and beats or ties that entry |
| Inventory.RemoveAt | AdventureGame.js:309 | removing at an index drops exactly that entry, keeps the others in order, and shrinks the multiset by that one entry |
| Inventory.RemoveAtRoundTrip | AdventureGame.js:309 | inserting the removed entry back at its index gives back the original inventory |
| Inventory.RemoveAtFromCatalog | AdventureGame.js:309 | removing an entry keeps every remaining entry a catalog copy |
| Player.NewGameValid | AdventureGame.js:10-14 | the starting player (health 100, gold 20, village, empty inventory, running) is within the bounds |
| Player.UpdateHealth | AdventureGame.js:246-260 | the new health is the old one plus the change when that lies in [0, 100], 100 above, 0 below, and nothing else changes |
| Player.UpdateHealthMonotone | AdventureGame.js:246-260 | a larger change never gives less health |
| Player.UpdateHealthDirection | AdventureGame.js:246-260 | from a health in range, a non-negative change never lowers health and a non-positive one never raises it |
| Player.HealthStaysInRange | AdventureGame.js:246-260 | any sequence of health changes keeps health in [0, 100] and leaves every other field alone |
| Player.IsDeadAtZero | AdventureGame.js:684-687 | for a valid player the game-over test holds exactly at health 0 |
| Combat.Protection | AdventureGame.js:186 | the protection is 0 without armor, and otherwise the effect of an armor entry that no armor entry exceeds |
| Combat.DamageTaken | AdventureGame.js:217-218 | the damage taken is at least 1, and it is the larger of 1 and the monster's damage (20 dragon, 10 monster) less the protection |
| Combat.HandleCombat | AdventureGame.js:178-239 | a fight is won exactly when the player is armed and, against the dragon, ready; the unready dragon costs 30 health, the unarmed monster fight 20; a won fight costs the computed damage and pays 100 (dragon, ending the game) or 10; inventory and location never change |
| Combat.LostFightPenalty | AdventureGame.js:189-200 | a lost fight changes only health: by 30 against the dragon and 20 against a monster, since readiness implies a weapon |
| Combat.WonFightHurts | AdventureGame.js:217-221 | a won fight lowers health unless it is already 0 |
| Combat.OnlyDragonEndsGame | AdventureGame.js:225-236 | a fight stops a running game exactly when it is a won dragon fight |
| Combat.CombatPreservesValid | AdventureGame.js:178-239 | a fight keeps the player within the bounds and never lowers gold |
| Combat.EmptyHandedRetreat | AdventureGame.js:196-200 | a fresh player fighting a monster retreats at 80 health with gold unchanged |
| Combat.DragonSlain | AdventureGame.js:178-239 | with Steel Sword and Iron Shield at full health, the dragon fight is won at 90 health, pays 100 gold and ends the game |
| Combat.DragonNeedsSteelSword | AdventureGame.js:360-367 | without a Steel Sword the dragon fight is lost for 30 health whatever other weapons are held |
| Shop.Purchase | AdventureGame.js:406-412 | an affordable item is appended once at the end and exactly its cost is deducted; otherwise nothing changes; gold plus the summed price of the inventory is conserved, so gold stays non-negative |
| Shop.BlacksmithItem | AdventureGame.js:393-404 | menu numbers 0 to 3 and no others name an item, always a weapon or armor template |
| Shop.BlacksmithSellsAllEquipment | AdventureGame.js:393-404 | every weapon and armor template is on the blacksmith's menu |
| Shop.BuyFromBlacksmith | AdventureGame.js:391-412 | a menu number outside 0 to 3 is rejected; any other is a purchase of the item it names |
| Shop.BuyFromMarket | AdventureGame.js:424-431 | answering yes with at least 5 gold appends one health potion and costs 5 gold; anything else changes nothing; health, location and the running flag never change |
| Shop.PurchasePreservesValid | AdventureGame.js:406-412 | buying a catalog item keeps the player within the bounds |
| ItemUse.UseItem | AdventureGame.js:302-319 | success is reported exactly for a valid index holding a potion or a weapon; a potion heals by its effect (clamped) and is removed; every other case changes nothing |
| ItemUse.DrinkConsumesOnePotion | AdventureGame.js:306-311 | drinking removes exactly one potion and no weapon or armor, and does not lower health |
| ItemUse.UseItemPreservesValid | AdventureGame.js:302-319 | using an item keeps the player within the bounds |
| ItemUse.PotionAtFullHealth | AdventureGame.js:306-311 | a potion drunk at full health leaves health at 100 and is still consumed |
| Movement.Move | AdventureGame.js:489-515 | the new location is the one the destination table gives; the inventory never changes; a move that starts no fight changes only the location |
| Movement.MoveFollowsTable | AdventureGame.js:495-511 | entering the forest runs a monster fight there, and choice 1 in the mountains runs a dragon fight in place |
| Movement.VillageIsHub | AdventureGame.js:489-515 | every move stays put, starts from the village or ends in the village |
| Movement.AllConnected | AdventureGame.js:489-515 | choice 2 returns to the village from anywhere else, and the village reaches each place in one step |
| Movement.MovePreservesValid | AdventureGame.js:489-515 | a move keeps the player within the bounds |
| Game.Step | AdventureGame.js:571-675 | quitting only clears the running flag, a rejected blacksmith number changes nothing, and only a move changes location |
| Game.StepPreservesValid | AdventureGame.js:571-675 | every dispatched intent keeps the player within the bounds |
| Game.PlayPreservesValid | AdventureGame.js:550-688 | any sequence of intents keeps health in [0, 100], gold non-negative and the inventory made of catalog copies |
| Game.StoppedStaysStopped | AdventureGame.js:550-688 | once the running flag is cleared, no intent sets it again |
| Game.FromNewGame | AdventureGame.js:10-14 | every game from the starting state stays within the bounds |

## Left out

- Console output and prompts are not modelled because they are presentation only. This covers `showStatus`, `showLocation`, `showHelp`, `checkInventory` and the menu listings in `useItem` and the shops.
- The main input loop is not modelled: the `readline` reading, the `parseInt`/`isNaN` checks, the exception-driven retry and `isValidChoice`. `Game.Step` takes the intents it dispatches as already-validated values, and `Game.Play` applies any sequence of them (see the `Game.Play` line below).
- The player's name and the item descriptions are not modelled. Both are display text only.
- `weaponDamage`, `monsterDefense`, `healingPotionValue`, `monsterHealth` and `damageDealt` are not modelled. No rule reads them.
- Game.Play: accepts more intent sequences than the program's loop does, in four ways. It keeps applying intents after `running` is false, where the loop at AdventureGame.js:550 stops. It does not clear `running` when health reaches 0, as the loop does at AdventureGame.js:684-687. It accepts `BuyEquipment` and `BuyPotion` at any location, where the loop offers them only at the blacksmith and the market. It applies `Go(c)` even where the loop's menu gives `c` to another action, such as choice 1 at the market or the blacksmith (a purchase) or choice 2 in the forest (the status display). The invariants proved over `Play` therefore cover every sequence the loop can run and more.
- `useItem` takes the 0-based index directly. The "cancel" answer and a non-numeric answer are input handling.
- `buyFromMarket` takes the player's yes/no answer as a boolean. The case-insensitive comparison with "yes" is input handling.
- `buyFromBlacksmith` with an unknown menu number: the program leaves the item undefined and then fails when it reads the price. The model rejects such a number instead (`Shop.BuyFromBlacksmith` returns None) and leaves the state unchanged.
- Health and gold are unbounded integers. The program's numbers are doubles, but every value the rules can produce is a small integer.
