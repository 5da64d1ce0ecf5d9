/** The Taxi: the Car's street rules, except that a red crosswalk is waited
    out. Its passability query carries state: every RED-crosswalk query
    before the wait counter reaches WaitTicksAtRed is refused and counts one
    tick; the next one is allowed and clears the counter. */
module Taxis {
  import opened Compass
  import opened Neighbors

  const DeathTime: int := 15

  /** Ticks waited at a red crosswalk before going through. */
  const WaitTicksAtRed: int := 3

  /** The answer to a passability query and the wait counter after it. */
  datatype Verdict = Verdict(pass: bool, waitCounter: int)

  function CanPass(t: Terrain, l: Light, waitCounter: int): (r: Verdict)
    ensures !(t == Crosswalk && l == Red) ==> r.waitCounter == waitCounter
    ensures 0 <= waitCounter <= WaitTicksAtRed ==> 0 <= r.waitCounter <= WaitTicksAtRed
    ensures t == Crosswalk && l == Red ==> (r.pass <==> waitCounter >= WaitTicksAtRed)
    ensures t == Crosswalk && l == Red && r.pass ==> r.waitCounter == 0
    ensures t == Crosswalk && l == Red && !r.pass ==> r.waitCounter == waitCounter + 1
  {
    var allowedToPass :=
      match t
      case Street | Light => true
      case Crosswalk => l == Green || l == Yellow
      case _ => false;
    var allowedToPass := if t == Terrain.Light && l == Red then false else allowedToPass;
    if t == Crosswalk && l == Red then
      if waitCounter >= WaitTicksAtRed then Verdict(true, 0)
      else Verdict(allowedToPass, waitCounter + 1)
    else
      Verdict(allowedToPass, waitCounter)
  }

  /** The answers to n consecutive RED-crosswalk queries starting from wait
      counter c, and the counter after the last one. */
  function RedCrosswalkRun(c: int, n: nat): (r: (seq<bool>, int))
    decreases n
    ensures |r.0| == n
    ensures 0 <= c <= WaitTicksAtRed ==> 0 <= r.1 <= WaitTicksAtRed
    ensures 0 <= c && c + n <= WaitTicksAtRed ==> forall k :: 0 <= k < n ==> !r.0[k]
  {
    if n == 0 then ([], c)
    else
      var v := CanPass(Crosswalk, Red, c);
      var rest := RedCrosswalkRun(v.waitCounter, n - 1);
      ([v.pass] + rest.0, rest.1)
  }

  /** From counter c in 0..3, the k-th of consecutive RED-crosswalk queries
      is allowed exactly when (c + k) mod 4 == 3: from a fresh Taxi the
      answers run false, false, false, true and then repeat. */
  lemma {:induction false} RedCrosswalkCycle(c: int, n: nat)
    requires 0 <= c <= WaitTicksAtRed
    ensures forall k :: 0 <= k < n ==> RedCrosswalkRun(c, n).0[k] == ((c + k) % 4 == 3)
    ensures RedCrosswalkRun(c, n).1 == (c + n) % 4
    decreases n
  {
    if n > 0 {
      var v := CanPass(Crosswalk, Red, c);
      assert v.waitCounter == (c + 1) % 4;
      RedCrosswalkCycle(v.waitCounter, n - 1);
      var run := RedCrosswalkRun(c, n);
      var rest := RedCrosswalkRun(v.waitCounter, n - 1);
      forall k | 0 <= k < n
        ensures run.0[k] == ((c + k) % 4 == 3)
      {
        if k > 0 {
          assert run.0[k] == rest.0[k - 1];
          assert (v.waitCounter + (k - 1)) % 4 == (c + k) % 4;
        }
      }
      assert (v.waitCounter + (n - 1)) % 4 == (c + n) % 4;
    }
  }

  /** The Taxi's movement test: the neighbour is STREET, LIGHT or CROSSWALK. */
  function CanMoveTo(nb: NeighborMap, d: Direction): (r: bool)
    ensures r <==> AcceptsAt(Road, nb, d)
    ensures d !in nb ==> !r
  {
    var terrain := Get(nb, d);
    terrain == Some(Street) || terrain == Some(Terrain.Light) || terrain == Some(Crosswalk)
  }

  /** Straight, else left, else right wherever CanMoveTo holds; else reverse. */
  function ChooseDirection(heading: Direction, nb: NeighborMap): (r: Direction)
    ensures r == FirstOr(Candidates(heading), nb, Road, Reverse(heading))
    ensures r == Reverse(heading) <==> forall c :: c in Candidates(heading) ==> !CanMoveTo(nb, c)
    ensures r != Reverse(heading) ==> CanMoveTo(nb, r)
  {
    var chosenDirection := Reverse(heading);
    var preferredDirection := heading;
    var left := Left(heading);
    var right := Right(heading);
    FirstOfThree(heading, left, right, nb, Road);
    if CanMoveTo(nb, preferredDirection) then preferredDirection
    else if CanMoveTo(nb, left) then left
    else if CanMoveTo(nb, right) then right
    else chosenDirection
  }
}
