/** The Car: drives on streets, stops at red signals and crosses a crosswalk
    only on green; when blocked it tries straight, then left, then right, and
    turns around only when none of them is road. */
module Cars {
  import opened Compass
  import opened Neighbors

  const DeathTime: int := 15

  /** Passes only onto road; on green onto all of it, on red only onto a
      street. */
  function CanPass(t: Terrain, l: Light): (r: bool)
    ensures r ==> Accepts(Road, Some(t))
    ensures l == Green ==> (r <==> Accepts(Road, Some(t)))
    ensures l == Red ==> (r <==> t == Street)
  {
    match t
    case Street => true
    case Light => l != Red
    case Crosswalk => l == Green
    case _ => false
  }

  /** Straight, else left, else right onto STREET, LIGHT or CROSSWALK; else
      reverse. Deterministic and free of side effects. */
  function ChooseDirection(heading: Direction, nb: NeighborMap): (r: Direction)
    ensures r == FirstOr(Candidates(heading), nb, Road, Reverse(heading))
    ensures r == Reverse(heading) <==> forall c :: c in Candidates(heading) ==> !AcceptsAt(Road, nb, c)
    ensures r != Reverse(heading) ==> AcceptsAt(Road, nb, r)
  {
    var preferred := heading;
    var left := Left(heading);
    var right := Right(heading);
    FirstOfThree(heading, left, right, nb, Road);
    if Get(nb, preferred) == Some(Street)
       || Get(nb, preferred) == Some(Terrain.Light)
       || Get(nb, preferred) == Some(Crosswalk) then
      preferred
    else if Get(nb, left) == Some(Street)
            || Get(nb, left) == Some(Terrain.Light)
            || Get(nb, left) == Some(Crosswalk) then
      left
    else if Get(nb, right) == Some(Street)
            || Get(nb, right) == Some(Terrain.Light)
            || Get(nb, right) == Some(Crosswalk) then
      right
    else
      Reverse(heading)
  }
}
