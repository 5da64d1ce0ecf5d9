/** The Bicycle: rides streets and trails freely, enters a signal or a
    crosswalk only on green, and prefers trails when choosing a heading. */
module Bicycles {
  import opened Compass
  import opened Neighbors

  const DeathTime: int := 35

  /** Passes only onto road or trail; on green onto all of it, otherwise
      only onto a street or a trail. */
  function CanPass(t: Terrain, l: Light): (r: bool)
    ensures r ==> Accepts(Road, Some(t)) || Accepts(TrailOnly, Some(t))
    ensures l == Green ==> (r <==> Accepts(Road, Some(t)) || Accepts(TrailOnly, Some(t)))
    ensures l != Green ==> (r <==> t == Street || t == Trail)
  {
    match t
    case Street | Trail => true
    case Light | Crosswalk => l == Green
    case _ => false
  }

  /** The Bicycle's non-trail movement test: STREET, LIGHT or CROSSWALK. */
  function CanMoveTo(nb: NeighborMap, d: Direction): (r: bool)
    ensures r <==> AcceptsAt(Road, nb, d)
    ensures d !in nb ==> !r
  {
    var terrain := Get(nb, d);
    terrain == Some(Street) || terrain == Some(Terrain.Light) || terrain == Some(Crosswalk)
  }

  /** A TRAIL straight, left or right (in that order) wins; otherwise the
      first of straight, left, right that is road; otherwise reverse. */
  function ChooseDirection(heading: Direction, nb: NeighborMap): (r: Direction)
    ensures r == FirstOr(Candidates(heading), nb, TrailOnly,
                         FirstOr(Candidates(heading), nb, Road, Reverse(heading)))
    ensures r == Reverse(heading) <==>
              forall c :: c in Candidates(heading) ==> !AcceptsAt(TrailOnly, nb, c) && !AcceptsAt(Road, nb, c)
    ensures r != Reverse(heading) ==> AcceptsAt(TrailOnly, nb, r) || AcceptsAt(Road, nb, r)
  {
    if Get(nb, heading) == Some(Trail) then
      heading
    else
      var left := Left(heading);
      var right := Right(heading);
      FirstOfThree(heading, left, right, nb, TrailOnly);
      FirstOfThree(heading, left, right, nb, Road);
      if Get(nb, left) == Some(Trail) then left
      else if Get(nb, right) == Some(Trail) then right
      else if CanMoveTo(nb, heading) then heading
      else if CanMoveTo(nb, left) then left
      else if CanMoveTo(nb, right) then right
      else Reverse(heading)
  }

  /** A trail to either side beats a street straight ahead. */
  lemma SideTrailBeatsStraightStreet(heading: Direction, nb: NeighborMap, side: Direction)
    requires side == Left(heading) || side == Right(heading)
    requires Get(nb, side) == Some(Trail) && Get(nb, heading) == Some(Street)
    ensures Get(nb, ChooseDirection(heading, nb)) == Some(Trail)
    ensures ChooseDirection(heading, nb) != heading
  {
  }
}
