/** The Truck: drives streets and signals under any light, waits at a red
    crosswalk, and never stays dead. When choosing a heading it shuffles
    straight, left and right and takes the first that is road. The shuffle
    is a parameter: `order` is the list after shuffling. */
module Trucks {
  import opened Compass
  import opened Neighbors

  const DeathTime: int := 0

  /** Passes only onto road; unless the light is red onto all of it, on
      red onto everything but a crosswalk. */
  function CanPass(t: Terrain, l: Light): (r: bool)
    ensures r ==> Accepts(Road, Some(t))
    ensures l != Red ==> (r <==> Accepts(Road, Some(t)))
    ensures l == Red ==> (r <==> t == Street || t == Terrain.Light)
  {
    match t
    case Street | Light => true
    case Crosswalk => l != Red
    case _ => false
  }

  /** What the strategy returns for a given shuffle. */
  function Choice(heading: Direction, nb: NeighborMap, order: seq<Direction>): (r: Direction)
    ensures r == Reverse(heading) || (r in order && AcceptsAt(Road, nb, r))
    ensures (exists i :: 0 <= i < |order| && AcceptsAt(Road, nb, order[i])) ==> r in order
  {
    FirstOr(order, nb, Road, Reverse(heading))
  }

  method ChooseDirection(heading: Direction, nb: NeighborMap, order: seq<Direction>) returns (r: Direction)
    ensures r == Choice(heading, nb, order)
  {
    r := Reverse(heading);
    var i := 0;
    while i < |order|
      invariant 0 <= i <= |order|
      invariant r == Reverse(heading)
      invariant forall j :: 0 <= j < i ==> !AcceptsAt(Road, nb, order[j])
    {
      var terrain := Get(nb, order[i]);
      if terrain == Some(Street) || terrain == Some(Terrain.Light) || terrain == Some(Crosswalk) {
        r := order[i];
        ghost var found := First(order, nb, Road);
        assert found.Some? && found.value == r by {
          var k :| 0 <= k < |order| && order[k] == found.value && AcceptsAt(Road, nb, order[k])
                   && forall j :: 0 <= j < k ==> !AcceptsAt(Road, nb, order[j]);
          assert k == i;
        }
        break;
      }
      i := i + 1;
    }
  }

  /** For every shuffle, the result is a candidate whose neighbour is road,
      or, exactly when no candidate is road, the reverse heading. */
  lemma ChoiceIsRoadOrReverse(heading: Direction, nb: NeighborMap, order: seq<Direction>)
    requires IsShuffle(order, heading)
    ensures var r := Choice(heading, nb, order);
            (r == Reverse(heading) <==> forall c :: c in Candidates(heading) ==> !AcceptsAt(Road, nb, c))
            && (r != Reverse(heading) ==> r in Candidates(heading) && AcceptsAt(Road, nb, r))
  {
  }

  /** When exactly one of straight, left, right is road, the shuffle does not
      matter: that one is returned. */
  lemma SingleRoadIgnoresShuffle(heading: Direction, nb: NeighborMap, order: seq<Direction>, d: Direction)
    requires IsShuffle(order, heading)
    requires d in Candidates(heading) && AcceptsAt(Road, nb, d)
    requires forall c :: c in Candidates(heading) && c != d ==> !AcceptsAt(Road, nb, c)
    ensures Choice(heading, nb, order) == d
  {
  }
}
