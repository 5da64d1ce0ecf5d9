/** The neighbour map a vehicle is handed when it must choose a heading, and
    the first-match search the direction strategies are built from. A
    direction with no entry in the map reads as "no terrain" (the source's
    map lookup yields null), which matches no terrain class. */
module Neighbors {
  import opened Compass

  datatype Option<T> = None | Some(value: T)

  type NeighborMap = map<Direction, Terrain>

  /** The map lookup: the terrain in direction d, or None when d is absent. */
  function Get(nb: NeighborMap, d: Direction): (r: Option<Terrain>)
    ensures r.Some? <==> d in nb
    ensures r.Some? ==> r.value == nb[d]
  {
    if d in nb then Some(nb[d]) else None
  }

  /** The terrain classes the strategies look for. */
  datatype Accept =
    | Road              // STREET, LIGHT or CROSSWALK
    | TrailOnly         // TRAIL
    | CrosswalkOnly     // CROSSWALK
    | GrassOrCrosswalk  // GRASS or CROSSWALK

  predicate Accepts(a: Accept, t: Option<Terrain>) {
    match a
    case Road => t == Some(Street) || t == Some(Terrain.Light) || t == Some(Crosswalk)
    case TrailOnly => t == Some(Trail)
    case CrosswalkOnly => t == Some(Crosswalk)
    case GrassOrCrosswalk => t == Some(Grass) || t == Some(Crosswalk)
  }

  /** The neighbour in direction d belongs to class a. */
  predicate AcceptsAt(a: Accept, nb: NeighborMap, d: Direction) {
    Accepts(a, Get(nb, d))
  }

  /** A missing neighbour belongs to no class. */
  lemma MissingNeverAccepted(a: Accept, nb: NeighborMap, d: Direction)
    requires d !in nb
    ensures !AcceptsAt(a, nb, d)
  {
  }

  /** The first candidate, in list order, whose neighbour belongs to class a. */
  function First(cands: seq<Direction>, nb: NeighborMap, a: Accept): (r: Option<Direction>)
    ensures r.None? <==> forall i :: 0 <= i < |cands| ==> !AcceptsAt(a, nb, cands[i])
    ensures r.Some? ==> exists i :: 0 <= i < |cands| && cands[i] == r.value && AcceptsAt(a, nb, cands[i])
                                    && forall j :: 0 <= j < i ==> !AcceptsAt(a, nb, cands[j])
  {
    if cands == [] then None
    else if AcceptsAt(a, nb, cands[0]) then Some(cands[0])
    else
      var r := First(cands[1..], nb, a);
      if r.Some? then
        var i :| 0 <= i < |cands[1..]| && cands[1..][i] == r.value && AcceptsAt(a, nb, cands[1..][i])
                 && forall j :: 0 <= j < i ==> !AcceptsAt(a, nb, cands[1..][j]);
        assert cands[i + 1] == r.value;
        r
      else r
  }

  /** The search over a three-element list, spelled out. */
  lemma FirstOfThree(d0: Direction, d1: Direction, d2: Direction, nb: NeighborMap, a: Accept)
    ensures First([d0, d1, d2], nb, a) ==
              if AcceptsAt(a, nb, d0) then Some(d0)
              else if AcceptsAt(a, nb, d1) then Some(d1)
              else if AcceptsAt(a, nb, d2) then Some(d2)
              else None
  {
    assert [d0, d1, d2][1..] == [d1, d2];
    assert [d1, d2][1..] == [d2];
    assert [d2][1..] == [];
    if !AcceptsAt(a, nb, d0) {
      assert First([d0, d1, d2], nb, a) == First([d1, d2], nb, a);
      if !AcceptsAt(a, nb, d1) {
        assert First([d1, d2], nb, a) == First([d2], nb, a);
        if !AcceptsAt(a, nb, d2) {
          assert First([d2], nb, a) == First([], nb, a);
        }
      }
    }
  }

  /** First, falling back to a default when no candidate qualifies. */
  function FirstOr(cands: seq<Direction>, nb: NeighborMap, a: Accept, fallback: Direction): (r: Direction)
    ensures r == fallback || (r in cands && AcceptsAt(a, nb, r))
    ensures (forall i :: 0 <= i < |cands| ==> !AcceptsAt(a, nb, cands[i])) ==> r == fallback
    ensures fallback !in cands ==>
              (r == fallback <==> forall i :: 0 <= i < |cands| ==> !AcceptsAt(a, nb, cands[i]))
  {
    match First(cands, nb, a)
    case Some(d) => d
    case None => fallback
  }

  /** When exactly one candidate qualifies, the search finds it, wherever it
      stands in the list. */
  lemma FirstUnique(cands: seq<Direction>, nb: NeighborMap, a: Accept, d: Direction)
    requires d in cands && AcceptsAt(a, nb, d)
    requires forall e :: e in cands && e != d ==> !AcceptsAt(a, nb, e)
    ensures First(cands, nb, a) == Some(d)
  {
  }

  lemma FoundInPermutation(c1: seq<Direction>, c2: seq<Direction>, nb: NeighborMap, a: Accept)
    requires multiset(c1) == multiset(c2)
    requires First(c1, nb, a).Some?
    ensures First(c2, nb, a).Some?
  {
    var d := First(c1, nb, a).value;
    assert d in multiset(c2);
    var k :| 0 <= k < |c2| && c2[k] == d;
  }

  /** Two lists holding the same candidates find something in the same cases. */
  lemma SameCandidatesSameOutcome(c1: seq<Direction>, c2: seq<Direction>, nb: NeighborMap, a: Accept)
    requires multiset(c1) == multiset(c2)
    ensures First(c1, nb, a).Some? <==> First(c2, nb, a).Some?
  {
    if First(c1, nb, a).Some? {
      FoundInPermutation(c1, c2, nb, a);
    }
    if First(c2, nb, a).Some? {
      FoundInPermutation(c2, c1, nb, a);
    }
  }

  /** `order` is a shuffle of straight, left and right: the candidate list
      after the source's in-place random shuffle. */
  predicate IsShuffle(order: seq<Direction>, heading: Direction) {
    |order| == 3 && multiset(order) == multiset(Candidates(heading))
  }

  /** A shuffle holds exactly the three candidates. */
  lemma ShuffleMembers(order: seq<Direction>, heading: Direction)
    requires IsShuffle(order, heading)
    ensures forall d :: d in order <==> d in Candidates(heading)
  {
  }
}
