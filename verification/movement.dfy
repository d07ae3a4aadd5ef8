/**
 The location state machine: numbered menu choices move the player between
 the village hub and the four places around it; entering the forest and
 fighting in the mountains start a fight.
 */
module Movement {
  import opened Player
  import opened Combat

  /** Applies the numbered choice made at the current location (the
      program's `move`). A choice with no meaning there changes nothing. */
  function Move(s: State, choice: int): (r: State)
    ensures r.location == Destination(s.location, choice)
    ensures r.inventory == s.inventory
    ensures !StartsFight(s.location, choice) ==> r == s.(location := r.location)
  {
    match s.location
    case Village =>
      if choice == 1 then s.(location := Blacksmith)
      else if choice == 2 then s.(location := Market)
      else if choice == 3 then HandleCombat(s.(location := Forest), false).after
      else if choice == 8 then s.(location := Mountains)
      else s
    case Blacksmith | Market | Forest =>
      if choice == 2 || choice == 1 then s.(location := Village) else s
    case Mountains =>
      if choice == 2 then s.(location := Village)
      else if choice == 1 then HandleCombat(s, true).after
      else s
  }

  /** The destination table: where a choice leads from each location. */
  function Destination(from: Location, choice: int): Location {
    match from
    case Village =>
      if choice == 1 then Blacksmith
      else if choice == 2 then Market
      else if choice == 3 then Forest
      else if choice == 8 then Mountains
      else Village
    case Blacksmith | Market | Forest => if choice == 1 || choice == 2 then Village else from
    case Mountains => if choice == 2 then Village else Mountains
  }

  /** The choices that start a fight: entering the forest (a monster) and
      choice 1 in the mountains (the dragon). */
  predicate StartsFight(from: Location, choice: int) {
    (from == Village && choice == 3) || (from == Mountains && choice == 1)
  }

  /** A choice that starts a fight moves the player first and then runs the
      fight: a monster in the forest, the dragon in the mountains. */
  lemma MoveFollowsTable(s: State, choice: int)
    ensures StartsFight(s.location, choice) ==>
      Move(s, choice) == HandleCombat(s.(location := Destination(s.location, choice)), s.location == Mountains).after
  {
  }

  /** Every move either stays put or goes through the village: the map is a
      star around the hub. */
  lemma VillageIsHub(s: State, choice: int)
    ensures var to := Move(s, choice).location;
      to == s.location || to == Village || s.location == Village
  {
    MoveFollowsTable(s, choice);
  }

  /** Choice 2 leads back to the village from anywhere outside it, and the
      village reaches every other place in one step. */
  lemma AllConnected(s: State, to: Location)
    ensures s.location != Village ==> Move(s, 2).location == Village
    ensures s.location == Village && to != Village ==>
      exists c :: c in {1, 2, 3, 8} && Move(s, c).location == to
  {
    MoveFollowsTable(s, 2);
    if s.location == Village && to != Village {
      var c := match to
        case Blacksmith => 1
        case Market => 2
        case Forest => 3
        case _ => 8;
      MoveFollowsTable(s, c);
      assert Move(s, c).location == to;
    }
  }

  /** Moving never changes the inventory and keeps the state valid. */
  lemma MovePreservesValid(s: State, choice: int)
    requires Valid(s)
    ensures Valid(Move(s, choice))
  {
    MoveFollowsTable(s, choice);
    if StartsFight(s.location, choice) {
      CombatPreservesValid(s.(location := Destination(s.location, choice)), s.location == Mountains);
    }
  }
}
