/** The behaviour shared by every vehicle: position, heading, the ALIVE/DEAD
    state machine with its revival timer, the collision rule, reset to the
    construction-time snapshot, and dispatch of the two per-type decisions
    (may I enter this cell now? which way do I turn?) on a kind tag. */
module Vehicles {
  import opened Compass
  import opened Neighbors
  import Atvs
  import Bicycles
  import Cars
  import Humans
  import Taxis
  import Trucks

  datatype Kind = Atv | Bicycle | Car | Human | Taxi | Truck

  /** Cycles a dead vehicle of kind k waits before it revives. */
  function DeathTime(k: Kind): (t: int)
    ensures t >= 0
    ensures t == 0 <==> k == Truck
  {
    match k
    case Atv => Atvs.DeathTime
    case Bicycle => Bicycles.DeathTime
    case Car => Cars.DeathTime
    case Human => Humans.DeathTime
    case Taxi => Taxis.DeathTime
    case Truck => Trucks.DeathTime
  }

  // ---------------------------------------------------------------------
  // Passability

  /** One passability query by a vehicle of kind k. Only the Taxi's answer
      depends on, and changes, its wait counter. */
  function Passes(k: Kind, t: Terrain, l: Light, waitCounter: int): (r: Taxis.Verdict)
    ensures k != Taxi ==> r.waitCounter == waitCounter
  {
    match k
    case Atv => Taxis.Verdict(Atvs.CanPass(t, l), waitCounter)
    case Bicycle => Taxis.Verdict(Bicycles.CanPass(t, l), waitCounter)
    case Car => Taxis.Verdict(Cars.CanPass(t, l), waitCounter)
    case Human => Taxis.Verdict(Humans.CanPass(t, l), waitCounter)
    case Taxi => Taxis.CanPass(t, l, waitCounter)
    case Truck => Taxis.Verdict(Trucks.CanPass(t, l), waitCounter)
  }

  /** An entry of the rule table. */
  datatype Rule = Pass | Blocked | OnGreen | UnlessRed | UnlessGreen | WaitOutRed

  /** The rule table: one row per kind, one column per terrain. */
  function Table(k: Kind, t: Terrain): Rule {
    match (k, t)
    case (_, Wall) => Blocked
    case (Atv, _) => Pass
    case (Bicycle, Street) => Pass
    case (Bicycle, Trail) => Pass
    case (Bicycle, Light) => OnGreen
    case (Bicycle, Crosswalk) => OnGreen
    case (Car, Street) => Pass
    case (Car, Light) => UnlessRed
    case (Car, Crosswalk) => OnGreen
    case (Human, Grass) => Pass
    case (Human, Crosswalk) => UnlessGreen
    case (Taxi, Street) => Pass
    case (Taxi, Light) => UnlessRed
    case (Taxi, Crosswalk) => WaitOutRed
    case (Truck, Street) => Pass
    case (Truck, Light) => Pass
    case (Truck, Crosswalk) => UnlessRed
    case _ => Blocked
  }

  /** What a table entry admits under light l. A WaitOutRed entry admits
      green and yellow outright; under red it defers to the wait counter. */
  predicate Admits(rule: Rule, l: Light) {
    match rule
    case Pass => true
    case Blocked => false
    case OnGreen => l == Green
    case UnlessRed | WaitOutRed => l != Red
    case UnlessGreen => l != Green
  }

  /** Every kind's passability agrees with the rule table; the one entry
      the table leaves to state, a Taxi at a red crosswalk, passes exactly
      when the wait is over. */
  lemma PassesMatchesTable(k: Kind, t: Terrain, l: Light, waitCounter: int)
    ensures !(k == Taxi && t == Crosswalk && l == Red) ==>
              Passes(k, t, l, waitCounter).pass == Admits(Table(k, t), l)
    ensures k == Taxi && t == Crosswalk && l == Red ==>
              Passes(k, t, l, waitCounter).pass == (waitCounter >= Taxis.WaitTicksAtRed)
  {
  }

  /** No vehicle enters a wall, whatever the light. */
  lemma WallStopsEveryone(k: Kind, l: Light, waitCounter: int)
    ensures !Passes(k, Wall, l, waitCounter).pass
  {
  }

  /** Lights matter only on LIGHT and CROSSWALK cells. */
  lemma LightMattersOnlyAtSignals(k: Kind, t: Terrain, l1: Light, l2: Light, waitCounter: int)
    requires t != Terrain.Light && t != Crosswalk
    ensures Passes(k, t, l1, waitCounter) == Passes(k, t, l2, waitCounter)
  {
  }

  /** For every kind but the Human, a greener light never blocks what a
      redder one lets through; the Human is the reverse at a crosswalk. */
  lemma GreenerNeverNarrows(k: Kind, t: Terrain, waitCounter: int)
    ensures k != Human ==>
              (Passes(k, t, Red, waitCounter).pass ==> Passes(k, t, Yellow, waitCounter).pass)
              && (Passes(k, t, Yellow, waitCounter).pass ==> Passes(k, t, Green, waitCounter).pass)
    ensures k == Human ==>
              (Passes(k, t, Green, waitCounter).pass ==> Passes(k, t, Yellow, waitCounter).pass)
              && (Passes(k, t, Yellow, waitCounter).pass ==> Passes(k, t, Red, waitCounter).pass)
  {
  }

  /** A Car or a Bicycle never has the crosswalk at the same light as a
      Human. */
  lemma CrosswalkExclusion(k: Kind, l: Light, waitCounter: int)
    requires k == Car || k == Bicycle
    ensures !(Passes(k, Crosswalk, l, waitCounter).pass && Passes(Human, Crosswalk, l, waitCounter).pass)
  {
  }

  /** A Truck may go wherever a Car may. */
  lemma TruckPassesWhereCarPasses(t: Terrain, l: Light, waitCounter: int)
    ensures Passes(Car, t, l, waitCounter).pass ==> Passes(Truck, t, l, waitCounter).pass
  {
  }

  // ---------------------------------------------------------------------
  // Direction choice

  /** The neighbour classes kind k is willing to turn onto (the Atv's own
      test also excludes the reverse heading). */
  predicate Usable(k: Kind, heading: Direction, nb: NeighborMap, d: Direction) {
    match k
    case Atv => Atvs.Acceptable(heading, nb, d)
    case Bicycle => AcceptsAt(TrailOnly, nb, d) || AcceptsAt(Road, nb, d)
    case Car | Taxi | Truck => AcceptsAt(Road, nb, d)
    case Human => AcceptsAt(GrassOrCrosswalk, nb, d)
  }

  /** The random inputs of one direction choice are of the form the source
      draws: a shuffle of straight, left and right for the Truck and the
      Human, a run of draws that ends for the Atv. */
  predicate Draws(k: Kind, heading: Direction, nb: NeighborMap, order: seq<Direction>, draws: seq<Direction>) {
    && (k == Truck || k == Human ==> IsShuffle(order, heading))
    && (k == Atv ==> Atvs.Ends(heading, nb, draws))
  }

  /** The heading kind k chooses, given the outcome of its random source. */
  function Strategy(k: Kind, heading: Direction, nb: NeighborMap, order: seq<Direction>, draws: seq<Direction>): Direction
    requires Draws(k, heading, nb, order, draws)
  {
    match k
    case Atv => Atvs.Choice(heading, nb, draws)
    case Bicycle => Bicycles.ChooseDirection(heading, nb)
    case Car => Cars.ChooseDirection(heading, nb)
    case Human => Humans.Choice(heading, nb, order)
    case Taxi => Taxis.ChooseDirection(heading, nb)
    case Truck => Trucks.Choice(heading, nb, order)
  }

  /** Every kind turns only onto a neighbour it may use, and turns around
      only when none of straight, left and right is usable; the Atv never
      turns around. */
  lemma StrategyIsSound(k: Kind, heading: Direction, nb: NeighborMap, order: seq<Direction>, draws: seq<Direction>)
    requires Draws(k, heading, nb, order, draws)
    ensures var r := Strategy(k, heading, nb, order, draws);
            && (r != Reverse(heading) ==> Usable(k, heading, nb, r))
            && (k != Atv ==> (r == Reverse(heading) <==> forall c :: c in Candidates(heading) ==> !Usable(k, heading, nb, c)))
            && (k == Atv ==> r != Reverse(heading))
  {
    match k
    case Atv =>
    case Bicycle =>
    case Car =>
    case Human => Humans.ReverseIffStuck(heading, nb, order);
    case Taxi =>
    case Truck => Trucks.ChoiceIsRoadOrReverse(heading, nb, order);
  }

  /** The Car and the Taxi choose alike. */
  lemma CarAndTaxiChooseAlike(heading: Direction, nb: NeighborMap)
    ensures Cars.ChooseDirection(heading, nb) == Taxis.ChooseDirection(heading, nb)
  {
  }

  // ---------------------------------------------------------------------
  // Death, revival and collision

  /** The part of a vehicle's state the revival timer drives. */
  datatype LifeState = LifeState(alive: bool, deathCounter: int, direction: Direction)

  /** One poke: a live vehicle is untouched; a dead one counts a cycle and,
      once the count reaches its death time, revives facing `draw`. */
  function Poked(s: LifeState, deathTime: int, draw: Direction): (r: LifeState)
    ensures s.alive ==> r == s
    ensures !s.alive ==> (r.alive <==> s.deathCounter + 1 >= deathTime)
    ensures !s.alive && r.alive ==> r.deathCounter == 0 && r.direction == draw
    ensures !r.alive ==> r.deathCounter == s.deathCounter + 1 && r.direction == s.direction
  {
    if s.alive then s
    else if s.deathCounter + 1 >= deathTime then LifeState(true, 0, draw)
    else s.(deathCounter := s.deathCounter + 1)
  }

  /** Successive pokes, the i-th reviving (if it does) facing draws[i]. */
  function PokedAll(s: LifeState, deathTime: int, draws: seq<Direction>): LifeState
    decreases |draws|
  {
    if draws == [] then s
    else Poked(PokedAll(s, deathTime, draws[..|draws| - 1]), deathTime, draws[|draws| - 1])
  }

  /** The invariant the timer keeps: a live vehicle's counter is 0, and the
      counter never exceeds the death time. */
  ghost predicate LifeValid(s: LifeState, deathTime: int) {
    (s.alive ==> s.deathCounter == 0) && 0 <= s.deathCounter <= deathTime
  }

  lemma PokeKeepsLifeValid(s: LifeState, deathTime: int, draw: Direction)
    requires LifeValid(s, deathTime)
    ensures LifeValid(Poked(s, deathTime, draw), deathTime)
    ensures s.alive ==> Poked(s, deathTime, draw) == s
  {
  }

  /** Before its death time runs out, a vehicle killed c cycles ago stays
      dead, counting, with its heading unchanged. */
  lemma {:induction false} StaysDeadBeforeDeathTime(c: int, deathTime: int, d: Direction, draws: seq<Direction>)
    requires 0 <= c && c + |draws| < deathTime
    ensures PokedAll(LifeState(false, c, d), deathTime, draws) == LifeState(false, c + |draws|, d)
    decreases |draws|
  {
    if draws != [] {
      StaysDeadBeforeDeathTime(c, deathTime, d, draws[..|draws| - 1]);
    }
  }

  /** A freshly killed vehicle with death time N >= 1 is dead after N - 1
      pokes and alive, counter cleared, after the N-th; with death time 0
      the first poke revives it. Position is not part of the timer's state,
      so it is left alone. */
  lemma RevivalTiming(deathTime: int, d: Direction, draws: seq<Direction>)
    requires deathTime >= 0 && |draws| == if deathTime == 0 then 1 else deathTime
    ensures deathTime > 0 ==> !PokedAll(LifeState(false, 0, d), deathTime, draws[..|draws| - 1]).alive
    ensures PokedAll(LifeState(false, 0, d), deathTime, draws) == LifeState(true, 0, draws[|draws| - 1])
  {
    if deathTime > 0 {
      StaysDeadBeforeDeathTime(0, deathTime, d, draws[..|draws| - 1]);
    }
  }

  /** Whether a vehicle is alive after it collides with another: it dies
      only when both are alive and its death time is strictly larger. */
  function Survives(alive: bool, deathTime: int, otherAlive: bool, otherDeathTime: int): (r: bool)
    ensures r ==> alive
    ensures r != alive <==> alive && otherAlive && deathTime > otherDeathTime
  {
    if alive && otherAlive && deathTime > otherDeathTime then false else alive
  }

  /** Colliding never revives. */
  lemma CollisionNeverRevives(deathTime: int, otherAlive: bool, otherDeathTime: int)
    ensures !Survives(false, deathTime, otherAlive, otherDeathTime)
  {
  }

  /** Two live vehicles each told of the collision, in either order: the one
      with the strictly larger death time dies, the other lives; on equal
      death times both live. */
  lemma CollisionPair(dtA: int, dtB: int)
    ensures var a := Survives(true, dtA, true, dtB);
            var b := Survives(true, dtB, a, dtA);
            a == (dtA <= dtB) && b == (dtB <= dtA)
    ensures var b := Survives(true, dtB, true, dtA);
            var a := Survives(true, dtA, b, dtB);
            a == (dtA <= dtB) && b == (dtB <= dtA)
  {
  }

  /** A Truck is never killed by a collision with any kind. */
  lemma TruckNeverKilled(alive: bool, other: Kind, otherAlive: bool)
    ensures Survives(alive, DeathTime(Truck), otherAlive, DeathTime(other)) == alive
  {
  }

  // ---------------------------------------------------------------------
  // Image name

  /** The lower-case type name, standing in for the class-name lookup. */
  function BaseName(k: Kind): string {
    match k
    case Atv => "atv"
    case Bicycle => "bicycle"
    case Car => "car"
    case Human => "human"
    case Taxi => "taxi"
    case Truck => "truck"
  }

  function ImageName(k: Kind, alive: bool): string {
    BaseName(k) + (if alive then ".gif" else "_dead.gif")
  }

  /** The image name tells both the kind and the alive state. */
  lemma ImageNameInjective(k1: Kind, a1: bool, k2: Kind, a2: bool)
    requires ImageName(k1, a1) == ImageName(k2, a2)
    ensures k1 == k2 && a1 == a2
  {
    var n := ImageName(k1, a1);
    var b1, b2 := BaseName(k1), BaseName(k2);
    assert |n| == |b1| + (if a1 then 4 else 9) == |b2| + (if a2 then 4 else 9);
    assert 3 <= |b1| <= 7 && 3 <= |b2| <= 7;
    assert a1 == a2;
    assert b1 == n[..|b1|] && b2 == n[..|b2|];
  }

  // ---------------------------------------------------------------------
  // The vehicle

  class Vehicle {
    const kind: Kind
    const deathTime: int
    const initialX: int
    const initialY: int
    const initialDirection: Direction
    var x: int
    var y: int
    var direction: Direction
    var alive: bool
    var deathCounter: int
    /** Ticks waited at a red crosswalk; used by the Taxi only. */
    var waitCounter: int

    ghost predicate Valid()
      reads this
    {
      && deathTime == DeathTime(kind)
      && LifeValid(Life(), deathTime)
      && 0 <= waitCounter <= Taxis.WaitTicksAtRed
      && (kind != Taxi ==> waitCounter == 0)
    }

    function Life(): LifeState
      reads this
    {
      LifeState(alive, deathCounter, direction)
    }

    constructor (kind: Kind, x: int, y: int, dir: Direction)
      ensures Valid()
      ensures this.kind == kind && deathTime == DeathTime(kind)
      ensures this.x == x && this.y == y && direction == dir
      ensures initialX == x && initialY == y && initialDirection == dir
      ensures alive && deathCounter == 0 && waitCounter == 0
    {
      this.kind := kind;
      this.x := x;
      this.y := y;
      initialX := x;
      initialY := y;
      direction := dir;
      initialDirection := dir;
      deathTime := DeathTime(kind);
      alive := true;
      deathCounter := 0;
      waitCounter := 0;
    }

    /** Advance the revival timer by one cycle; `draw` is the random heading
        a revival takes. */
    method Poke(draw: Direction)
      requires Valid()
      modifies this`alive, this`direction, this`deathCounter
      ensures Valid()
      ensures Life() == Poked(old(Life()), deathTime, draw)
      ensures old(alive) ==> Life() == old(Life())
    {
      if !alive {
        deathCounter := deathCounter + 1;
        if deathCounter >= deathTime {
          Revive(draw);
        }
      }
    }

    /** Back to life, counter cleared, facing `draw`. */
    method Revive(draw: Direction)
      requires deathTime == DeathTime(kind) && 0 <= waitCounter <= Taxis.WaitTicksAtRed
      requires kind != Taxi ==> waitCounter == 0
      modifies this`alive, this`direction, this`deathCounter
      ensures Valid()
      ensures alive && direction == draw && deathCounter == 0
    {
      alive := true;
      direction := draw;
      deathCounter := 0;
    }

    /** This vehicle's side of a collision with `other`; `other` is not
        changed. */
    method Collide(other: Vehicle)
      requires Valid()
      modifies this`alive
      ensures Valid()
      ensures alive == Survives(old(alive), deathTime, old(other.alive), other.deathTime)
      ensures other != this ==> other.alive == old(other.alive)
    {
      if alive && other.alive && deathTime > other.deathTime {
        alive := false;
      }
    }

    /** Back to the construction-time position and heading, alive. The
        Taxi's wait counter is not part of the reset. */
    method Reset()
      requires Valid()
      modifies this`x, this`y, this`direction, this`alive, this`deathCounter
      ensures Valid()
      ensures x == initialX && y == initialY && direction == initialDirection
      ensures alive && deathCounter == 0
      ensures waitCounter == old(waitCounter)
    {
      x := initialX;
      y := initialY;
      direction := initialDirection;
      alive := true;
      deathCounter := 0;
    }

    method SetX(newX: int)
      requires Valid()
      modifies this`x
      ensures Valid() && x == newX
    {
      x := newX;
    }

    method SetY(newY: int)
      requires Valid()
      modifies this`y
      ensures Valid() && y == newY
    {
      y := newY;
    }

    method SetDirection(dir: Direction)
      requires Valid()
      modifies this`direction
      ensures Valid() && direction == dir
    {
      direction := dir;
    }

    /** The passability query; for a Taxi at a red crosswalk it also moves
        the wait counter. */
    method CanPass(t: Terrain, l: Light) returns (r: bool)
      requires Valid()
      modifies this`waitCounter
      ensures Valid()
      ensures Taxis.Verdict(r, waitCounter) == Passes(kind, t, l, old(waitCounter))
    {
      var v := Passes(kind, t, l, waitCounter);
      r := v.pass;
      waitCounter := v.waitCounter;
    }

    /** The heading this vehicle turns to, given its random source's
        outcome; nothing changes. */
    method ChooseDirection(nb: NeighborMap, order: seq<Direction>, draws: seq<Direction>) returns (r: Direction)
      requires Draws(kind, direction, nb, order, draws)
      ensures r == Strategy(kind, direction, nb, order, draws)
    {
      match kind
      case Atv => r := Atvs.ChooseDirection(direction, nb, draws);
      case Bicycle => r := Bicycles.ChooseDirection(direction, nb);
      case Car => r := Cars.ChooseDirection(direction, nb);
      case Human => r := Humans.ChooseDirection(direction, nb, order);
      case Taxi => r := Taxis.ChooseDirection(direction, nb);
      case Truck => r := Trucks.ChooseDirection(direction, nb, order);
    }

    /** The image name: the type name, with "_dead" before ".gif" when dead. */
    function ImageFileName(): (r: string)
      reads this
      ensures |r| > |BaseName(kind)| && r[..|BaseName(kind)|] == BaseName(kind)
      ensures alive <==> r[|BaseName(kind)|..] == ".gif"
      ensures !alive <==> r[|BaseName(kind)|..] == "_dead.gif"
    {
      ImageName(kind, alive)
    }
  }
}
