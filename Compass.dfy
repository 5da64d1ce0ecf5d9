/** The three small value types every vehicle decision is made over: the
    compass heading, the classification of a grid cell and the state of a
    traffic signal. The rotations are the usual compass ones: turning left
    from NORTH faces WEST, turning right faces EAST. */
module Compass {

  datatype Direction = North | South | East | West

  datatype Terrain = Street | Light | Crosswalk | Trail | Grass | Wall

  datatype Light = Red | Yellow | Green

  /** The opposite heading. */
  function Reverse(d: Direction): Direction {
    match d
    case North => South
    case South => North
    case East => West
    case West => East
  }

  /** A quarter turn counter-clockwise. */
  function Left(d: Direction): Direction {
    match d
    case North => West
    case West => South
    case South => East
    case East => North
  }

  /** A quarter turn clockwise. */
  function Right(d: Direction): Direction {
    match d
    case North => East
    case East => South
    case South => West
    case West => North
  }

  /** The three headings a vehicle considers before turning around, in the
      order the deterministic strategies try them: straight, left, right. */
  function Candidates(heading: Direction): (cs: seq<Direction>)
    ensures |cs| == 3 && cs[0] == heading
    ensures Reverse(heading) !in cs
  {
    [heading, Left(heading), Right(heading)]
  }

  lemma ReverseInvolution(d: Direction)
    ensures Reverse(Reverse(d)) == d
  {
  }

  lemma LeftRightInverse(d: Direction)
    ensures Left(Right(d)) == d && Right(Left(d)) == d
  {
  }

  lemma TwoTurnsReverse(d: Direction)
    ensures Left(Left(d)) == Reverse(d) && Right(Right(d)) == Reverse(d)
  {
  }

  /** Straight, left, right and reverse are the four headings, each once. */
  lemma HeadingsDistinct(d: Direction)
    ensures d != Left(d) && d != Right(d) && d != Reverse(d)
    ensures Left(d) != Right(d) && Left(d) != Reverse(d) && Right(d) != Reverse(d)
    ensures {d, Left(d), Right(d), Reverse(d)} == {North, South, East, West}
  {
  }
}
