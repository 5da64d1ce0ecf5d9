/** The all-terrain vehicle: goes anywhere but into a wall, ignoring every
    light. To choose a heading it draws random directions until one is
    neither the reverse of its heading nor a wall. The draws are a
    parameter: `draws` lists the directions the random source yields, in
    order. */
module Atvs {
  import opened Compass
  import opened Neighbors

  const DeathTime: int := 25

  /** Passes everything but a wall, under every light. */
  function CanPass(t: Terrain, l: Light): (r: bool)
    ensures r <==> t != Wall
  {
    t != Wall
  }

  /** A draw the loop stops at: not the reverse heading, and not a wall. A
      direction missing from the map is not a wall. */
  predicate Acceptable(heading: Direction, nb: NeighborMap, d: Direction) {
    d != Reverse(heading) && Get(nb, d) != Some(Wall)
  }

  /** The draws reach an acceptable direction, so the loop ends. */
  predicate Ends(heading: Direction, nb: NeighborMap, draws: seq<Direction>) {
    exists i :: 0 <= i < |draws| && Acceptable(heading, nb, draws[i])
  }

  /** What the strategy returns for given draws: the first acceptable one. */
  function Choice(heading: Direction, nb: NeighborMap, draws: seq<Direction>): (r: Direction)
    requires Ends(heading, nb, draws)
    ensures Acceptable(heading, nb, r)
    ensures exists i :: 0 <= i < |draws| && draws[i] == r
                        && forall j :: 0 <= j < i ==> !Acceptable(heading, nb, draws[j])
    decreases |draws|
  {
    if Acceptable(heading, nb, draws[0]) then draws[0]
    else
      assert Ends(heading, nb, draws[1..]) by {
        var i :| 0 <= i < |draws| && Acceptable(heading, nb, draws[i]);
        assert draws[1..][i - 1] == draws[i];
      }
      var r := Choice(heading, nb, draws[1..]);
      var i :| 0 <= i < |draws[1..]| && draws[1..][i] == r
               && forall j :: 0 <= j < i ==> !Acceptable(heading, nb, draws[1..][j]);
      assert draws[i + 1] == r;
      r
  }

  method ChooseDirection(heading: Direction, nb: NeighborMap, draws: seq<Direction>) returns (r: Direction)
    requires Ends(heading, nb, draws)
    ensures r == Choice(heading, nb, draws)
  {
    var n := 0;
    var atvDirection := draws[n];
    while atvDirection == Reverse(heading) || Get(nb, atvDirection) == Some(Wall)
      invariant 0 <= n < |draws| && atvDirection == draws[n]
      invariant forall j :: 0 <= j < n ==> !Acceptable(heading, nb, draws[j])
      decreases |draws| - n
    {
      n := n + 1;
      atvDirection := draws[n];
    }
    r := atvDirection;
    ChoiceIsFirstAcceptable(heading, nb, draws, n);
  }

  /** The first acceptable draw is the one the strategy returns. */
  lemma ChoiceIsFirstAcceptable(heading: Direction, nb: NeighborMap, draws: seq<Direction>, n: nat)
    requires n < |draws| && Acceptable(heading, nb, draws[n])
    requires forall j :: 0 <= j < n ==> !Acceptable(heading, nb, draws[j])
    ensures Ends(heading, nb, draws) && Choice(heading, nb, draws) == draws[n]
  {
  }

  /** The loop can end only if some direction other than the reverse is not
      a wall; and any such direction, drawn, ends it. */
  lemma EndsIffExit(heading: Direction, nb: NeighborMap, draws: seq<Direction>)
    ensures Ends(heading, nb, draws) ==> exists d :: Acceptable(heading, nb, d)
    ensures forall d :: Acceptable(heading, nb, d) ==> Ends(heading, nb, draws + [d])
    ensures forall d :: d !in nb && d != Reverse(heading) ==> Acceptable(heading, nb, d)
  {
    forall d | Acceptable(heading, nb, d)
      ensures Ends(heading, nb, draws + [d])
    {
      assert (draws + [d])[|draws|] == d;
    }
  }

  /** When exactly one direction is acceptable, every terminating run of
      draws returns it. */
  lemma OnlyExit(heading: Direction, nb: NeighborMap, draws: seq<Direction>, d: Direction)
    requires Acceptable(heading, nb, d)
    requires forall e :: e != d ==> !Acceptable(heading, nb, e)
    requires Ends(heading, nb, draws)
    ensures Choice(heading, nb, draws) == d
  {
  }
}
