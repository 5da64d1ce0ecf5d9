/** The Human: walks on grass, and crosses a crosswalk only while the light
    is not green. When choosing a heading it takes an adjacent crosswalk if
    there is one (straight, left, right in that order); otherwise it shuffles
    the three candidates and takes the first that is grass or crosswalk. The
    shuffle is a parameter: `order` is the list after shuffling. */
module Humans {
  import opened Compass
  import opened Neighbors

  const DeathTime: int := 45

  /** Passes only onto grass or a crosswalk; while the light is not green
      onto both, on green only onto grass. */
  function CanPass(t: Terrain, l: Light): (r: bool)
    ensures r ==> Accepts(GrassOrCrosswalk, Some(t))
    ensures l != Green ==> (r <==> Accepts(GrassOrCrosswalk, Some(t)))
    ensures l == Green ==> (r <==> t == Grass)
  {
    match t
    case Grass => true
    case Crosswalk => l != Green
    case _ => false
  }

  /** What the strategy returns for a given shuffle. */
  function Choice(heading: Direction, nb: NeighborMap, order: seq<Direction>): (r: Direction)
    ensures r != Reverse(heading) ==> AcceptsAt(GrassOrCrosswalk, nb, r)
    ensures (exists c :: c in Candidates(heading) && AcceptsAt(CrosswalkOnly, nb, c))
              ==> r in Candidates(heading) && AcceptsAt(CrosswalkOnly, nb, r)
  {
    match First(Candidates(heading), nb, CrosswalkOnly)
    case Some(d) => d
    case None => FirstOr(order, nb, GrassOrCrosswalk, Reverse(heading))
  }

  method ChooseDirection(heading: Direction, nb: NeighborMap, order: seq<Direction>) returns (r: Direction)
    ensures r == Choice(heading, nb, order)
  {
    r := Reverse(heading);
    var fixed := [heading, Left(heading), Right(heading)];
    var i := 0;
    while i < |fixed|
      invariant 0 <= i <= |fixed|
      invariant r == Reverse(heading)
      invariant forall j :: 0 <= j < i ==> !AcceptsAt(CrosswalkOnly, nb, fixed[j])
    {
      if Get(nb, fixed[i]) == Some(Crosswalk) {
        r := fixed[i];
        ghost var found := First(fixed, nb, CrosswalkOnly);
        assert found.Some? && found.value == r by {
          var k :| 0 <= k < |fixed| && fixed[k] == found.value && AcceptsAt(CrosswalkOnly, nb, fixed[k])
                   && forall j :: 0 <= j < k ==> !AcceptsAt(CrosswalkOnly, nb, fixed[j]);
          assert k == i;
        }
        break;
      }
      i := i + 1;
    }
    assert r == Reverse(heading) <==> First(fixed, nb, CrosswalkOnly).None?;

    if r == Reverse(heading) {
      var j := 0;
      while j < |order|
        invariant 0 <= j <= |order|
        invariant r == Reverse(heading)
        invariant forall m :: 0 <= m < j ==> !AcceptsAt(GrassOrCrosswalk, nb, order[m])
      {
        var terrain := Get(nb, order[j]);
        if terrain == Some(Grass) || terrain == Some(Crosswalk) {
          r := order[j];
          ghost var found := First(order, nb, GrassOrCrosswalk);
          assert found.Some? && found.value == r by {
            var k :| 0 <= k < |order| && order[k] == found.value && AcceptsAt(GrassOrCrosswalk, nb, order[k])
                     && forall m :: 0 <= m < k ==> !AcceptsAt(GrassOrCrosswalk, nb, order[m]);
            assert k == j;
          }
          break;
        }
        j := j + 1;
      }
    }
  }

  /** An adjacent crosswalk decides, whatever the shuffle: the first of
      straight, left, right that is a crosswalk. */
  lemma CrosswalkFirst(heading: Direction, nb: NeighborMap, order: seq<Direction>, d: Direction)
    requires First(Candidates(heading), nb, CrosswalkOnly) == Some(d)
    ensures Choice(heading, nb, order) == d
    ensures Get(nb, d) == Some(Crosswalk)
  {
  }

  /** With no crosswalk adjacent, a grass candidate is taken whenever there is
      one; which one depends on the shuffle. */
  lemma GrassOtherwise(heading: Direction, nb: NeighborMap, order: seq<Direction>)
    requires IsShuffle(order, heading)
    requires forall c :: c in Candidates(heading) ==> Get(nb, c) != Some(Crosswalk)
    requires exists c :: c in Candidates(heading) && Get(nb, c) == Some(Grass)
    ensures Choice(heading, nb, order) in Candidates(heading)
    ensures Get(nb, Choice(heading, nb, order)) == Some(Grass)
  {
  }

  /** The reverse heading is returned exactly when none of straight, left,
      right is grass or crosswalk; any other result stands on one of them. */
  lemma ReverseIffStuck(heading: Direction, nb: NeighborMap, order: seq<Direction>)
    requires IsShuffle(order, heading)
    ensures var r := Choice(heading, nb, order);
            (r == Reverse(heading) <==> forall c :: c in Candidates(heading) ==> !AcceptsAt(GrassOrCrosswalk, nb, c))
            && (r != Reverse(heading) ==> r in Candidates(heading) && AcceptsAt(GrassOrCrosswalk, nb, r))
  {
    ShuffleMembers(order, heading);
    var found := First(Candidates(heading), nb, CrosswalkOnly);
    if found.Some? {
      assert AcceptsAt(GrassOrCrosswalk, nb, found.value);
    } else {
      assert Reverse(heading) !in order;
      if forall c :: c in Candidates(heading) ==> !AcceptsAt(GrassOrCrosswalk, nb, c) {
        assert forall i :: 0 <= i < |order| ==> !AcceptsAt(GrassOrCrosswalk, nb, order[i]);
      }
    }
  }
}
