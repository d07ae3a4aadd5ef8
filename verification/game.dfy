/**
 The intents the main loop hands to the engine once a menu number has been
 read and checked, and the invariant every sequence of them keeps.
 */
module Game {
  import opened Items
  import opened Player
  import opened Combat
  import opened Shop
  import opened ItemUse
  import opened Movement

  datatype Action =
    | Go(choice: int)
    | UseEntry(index: int)
    | BuyEquipment(choice: int)
    | BuyPotion(yes: bool)
    | Quit

  /** The state after one intent; a rejected blacksmith number changes nothing. */
  function Step(s: State, a: Action): (r: State)
    ensures a.Quit? ==> r == s.(running := false)
    ensures a.BuyEquipment? && !(0 <= a.choice <= 3) ==> r == s
    ensures !a.Go? ==> r.location == s.location
  {
    match a
    case Go(c) => Move(s, c)
    case UseEntry(i) => UseItem(s, i).after
    case BuyEquipment(c) =>
      (match BuyFromBlacksmith(s, c)
       case None => s
       case Some(t) => t)
    case BuyPotion(yes) => BuyFromMarket(s, yes)
    case Quit => s.(running := false)
  }

  function Play(s: State, actions: seq<Action>): State
    decreases |actions|
  {
    if |actions| == 0 then s else Play(Step(s, actions[0]), actions[1..])
  }

  /** One intent keeps health in [0, 100], gold non-negative and the
      inventory made of catalog copies. */
  lemma StepPreservesValid(s: State, a: Action)
    requires Valid(s)
    ensures Valid(Step(s, a))
  {
    match a
    case Go(c) => MovePreservesValid(s, c);
    case UseEntry(i) => UseItemPreservesValid(s, i);
    case BuyEquipment(c) =>
      if 0 <= c <= 3 {
        PurchasePreservesValid(s, BlacksmithItem(c).value);
      }
    case BuyPotion(yes) => PurchasePreservesValid(s, HealthPotion);
    case Quit =>
  }

  /** Every game, whatever the player chooses, stays within the bounds. */
  lemma {:induction false} PlayPreservesValid(s: State, actions: seq<Action>)
    requires Valid(s)
    ensures Valid(Play(s, actions))
    decreases |actions|
  {
    if |actions| > 0 {
      StepPreservesValid(s, actions[0]);
      PlayPreservesValid(Step(s, actions[0]), actions[1..]);
    }
  }

  /** Once the game has stopped running, no intent restarts it. */
  lemma {:induction false} StoppedStaysStopped(s: State, actions: seq<Action>)
    requires !s.running
    ensures !Play(s, actions).running
    decreases |actions|
  {
    if |actions| > 0 {
      var a := actions[0];
      if a.Go? {
        var r := Move(s, a.choice);
        if StartsFight(s.location, a.choice) {
          MoveFollowsTable(s, a.choice);
          OnlyDragonEndsGame(s.(location := Destination(s.location, a.choice)), s.location == Mountains);
        }
      }
      StoppedStaysStopped(Step(s, a), actions[1..]);
    }
  }

  /** Every game from the start stays within the bounds. */
  lemma FromNewGame(actions: seq<Action>)
    ensures Valid(Play(NewGame, actions))
  {
    NewGameValid();
    PlayPreservesValid(NewGame, actions);
  }
}
