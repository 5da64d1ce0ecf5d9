# Vehicle behaviour engine of a grid traffic simulation, in Dafny

This project models the core of a city traffic simulation: the vehicles. Every
vehicle has a position, a heading and an ALIVE/DEAD state. A collision can kill
it, and a revival timer, advanced by `poke`, brings it back. `reset` returns it
to where it was built. On top of that shared state machine, each of six kinds
(all-terrain vehicle, bicycle, car, human, taxi, truck) answers two questions:

- may it enter a cell of a given terrain under a given light (`canPass`)?
- which heading does it take when its way is blocked (`chooseDirection`)?

Layout, one module per source file:

- `Compass.dfy` (`Compass`): the `Direction`, `Terrain` and `Light` values, and the rotations `Reverse`, `Left`, `Right`.
- `Neighbors.dfy` (`Neighbors`): the neighbour map, and the first-match search the strategies are built from.
  A direction missing from the map reads as `None`, like the source's `null`, and matches no terrain class.
- `Atv.dfy`, `Bicycle.dfy`, `Car.dfy`, `Human.dfy`, `Taxi.dfy`, `Truck.dfy` (`Atvs`, `Bicycles`, …): per kind, the death time, `CanPass` and the direction strategy.
- `Vehicle.dfy` (`Vehicles`): the `Kind` tag and `class Vehicle`.
  The class holds the mutable fields and the construction-time snapshot.
  Its methods `Poke`, `Revive`, `Collide`, `Reset`, the setters and the Taxi's stateful `CanPass` update those fields in place.
  The module also holds the rule table (kind by terrain) and the lemmas that relate all kinds.

Random choices come in as parameters:

- `order` is the Truck's or the Human's candidate list after its shuffle.
- `draws` is the sequence of directions the Atv's random source yields.
- `draw` is the heading a revival picks.

The Car, Taxi and Bicycle strategies are if/else chains in the source, so they are functions here.
The Truck, Human and Atv strategies loop, so they are methods with loop invariants.
Each method is proved equal to a specification function (`Choice`), and the lemmas are stated about that function.

Two consequences of the source's constants are worth stating:

- A Taxi waits `WAIT_TICKS_AT_RED` = 3 ticks at a red crosswalk (Taxi.java:21-22).
  With the test `counter >= 3`, it refuses the first three consecutive RED-crosswalk queries and passes on the fourth.
  See `Taxis.RedCrosswalkCycle`.
- The Truck "does not have a death time" (Truck.java:16-17): its death time is 0, so it can never lose a collision (`Vehicles.TruckNeverKilled`).
  A dead Truck can therefore not arise through `collide`.
  `Vehicles.RevivalTiming` covers the death-time-0 case for any vehicle that is dead.

## Model

| member | source | states |
|---|---|---|
| `Compass.Candidates` | src/edu/uw/tcss/model/Car.java:69-71 | the candidates are straight, left, right, straight first; the reverse heading is not among them |
| `Neighbors.First` | src/edu/uw/tcss/model/Truck.java:83-90 | returns the first candidate in list order whose neighbour is in the class; returns None exactly when no candidate qualifies |
| `Neighbors.FirstOr` | src/edu/uw/tcss/model/Truck.java:81-92 | the result is the fallback or a qualifying candidate; it is the fallback when none qualifies, and, if the fallback is not a candidate, only then |
| `Neighbors.FirstOfThree` | src/edu/uw/tcss/model/Car.java:73-85 | a search over three candidates is the straight, else left, else right chain |
| `Neighbors.FirstUnique` | src/edu/uw/tcss/model/Truck.java:83-89 | when exactly one candidate qualifies, the search returns it wherever it stands in the list |
| `Neighbors.SameCandidatesSameOutcome` | src/edu/uw/tcss/model/Truck.java:77-79 | two orderings of the same candidates (a shuffle) find a match in the same cases |
| `Neighbors.ShuffleMembers` | src/edu/uw/tcss/model/Truck.java:77-79 | a shuffled candidate list holds exactly straight, left and right |
| `Cars.ChooseDirection` | src/edu/uw/tcss/model/Car.java:65-88 | straight, else left, else right onto STREET/LIGHT/CROSSWALK; reverse exactly when none of the three is; a non-reverse result is road |
| `Taxis.ChooseDirection` | src/edu/uw/tcss/model/Taxi.java:85-101 | the same priority chain through `canMoveTo`; reverse exactly when no candidate can be moved to |
| `Taxis.CanPass` | src/edu/uw/tcss/model/Taxi.java:53-74 | the counter is untouched except at a RED crosswalk; the counter stays in 0..3; a RED crosswalk passes exactly when the counter has reached 3; passing clears the counter and a refusal adds one to it |
| `Taxis.RedCrosswalkRun` | src/edu/uw/tcss/model/Taxi.java:64-70 | n consecutive RED-crosswalk queries give n answers; from a counter in 0..3 the counter stays in 0..3; from counter c, the first 3 - c queries are all refused |
| `Taxis.RedCrosswalkCycle` | src/edu/uw/tcss/model/Taxi.java:64-70 | from counter c, the k-th RED-crosswalk query passes iff (c+k) mod 4 = 3, and the counter ends at (c+n) mod 4: false, false, false, true, repeating |
| `Bicycles.ChooseDirection` | src/edu/uw/tcss/model/Bicycle.java:68-93 | a TRAIL straight, left, right in that order wins, then road in the same order, else reverse; reverse exactly when none of the three is trail or road |
| `Bicycles.SideTrailBeatsStraightStreet` | src/edu/uw/tcss/model/Bicycle.java:77-82 | a trail to either side is preferred over a street straight ahead |
| `Trucks.ChooseDirection` | src/edu/uw/tcss/model/Truck.java:76-93 | the loop over the shuffled list returns the first road candidate, else the reverse |
| `Trucks.ChoiceIsRoadOrReverse` | src/edu/uw/tcss/model/Truck.java:77-92 | for every shuffle: reverse exactly when none of straight, left, right is road; otherwise a road candidate |
| `Trucks.SingleRoadIgnoresShuffle` | src/edu/uw/tcss/model/Truck.java:83-89 | when exactly one candidate is road, every shuffle returns it |
| `Humans.ChooseDirection` | src/edu/uw/tcss/model/Human.java:71-97 | the two loops return the first adjacent crosswalk in fixed order, else the first grass-or-crosswalk candidate of the shuffle, else the reverse |
| `Humans.CrosswalkFirst` | src/edu/uw/tcss/model/Human.java:74-80 | an adjacent crosswalk decides, whatever the shuffle |
| `Humans.GrassOtherwise` | src/edu/uw/tcss/model/Human.java:82-93 | with no crosswalk adjacent and some grass candidate, the result is a grass candidate |
| `Humans.ReverseIffStuck` | src/edu/uw/tcss/model/Human.java:72-94 | reverse exactly when no candidate is grass or crosswalk; a non-reverse result stands on grass or crosswalk |
| `Atvs.Choice` | src/edu/uw/tcss/model/Atv.java:60-69 | the result is the first draw that is neither the reverse heading nor a wall |
| `Atvs.ChooseDirection` | src/edu/uw/tcss/model/Atv.java:60-69 | the resampling loop, given draws that reach an acceptable direction, returns the first acceptable draw |
| `Atvs.ChoiceIsFirstAcceptable` | src/edu/uw/tcss/model/Atv.java:63-66 | the draw at which the loop stops is the one the specification picks |
| `Atvs.EndsIffExit` | src/edu/uw/tcss/model/Atv.java:63-66 | the loop can stop only if some non-reverse, non-wall direction exists; drawing any such direction stops it; a non-reverse direction missing from the map is such a direction |
| `Atvs.OnlyExit` | src/edu/uw/tcss/model/Atv.java:63-66 | when exactly one direction is acceptable, it is the result for every terminating run of draws |
| `Vehicles.DeathTime` | src/edu/uw/tcss/model/Truck.java:25 | death times are non-negative, and 0 exactly for the Truck (Atv 25, Bicycle 35, Car 15, Human 45, Taxi 15) |
| `Vehicles.Passes` | src/edu/uw/tcss/model/AbstractVehicle.java:247-248 | dispatch of `canPass` by kind; only the Taxi's query changes the wait counter |
| `Vehicles.PassesMatchesTable` | src/edu/uw/tcss/model/Car.java:47-54 | every kind's `canPass` (Atv, Bicycle, Car, Human, Taxi, Truck) agrees with the rule table (one entry per kind and terrain); a Taxi at a red crosswalk passes iff its wait is over |
| `Vehicles.WallStopsEveryone` | src/edu/uw/tcss/model/Atv.java:44-46 | no kind passes a WALL under any light |
| `Vehicles.LightMattersOnlyAtSignals` | src/edu/uw/tcss/model/Bicycle.java:48-54 | off LIGHT and CROSSWALK cells, the light never changes an answer |
| `Vehicles.GreenerNeverNarrows` | src/edu/uw/tcss/model/Human.java:54-60 | for every kind but the Human, what passes under red passes under yellow, and what passes under yellow passes under green; the Human is the reverse |
| `Vehicles.CrosswalkExclusion` | src/edu/uw/tcss/model/Car.java:51 | a Car or a Bicycle never has a crosswalk under the same light as a Human |
| `Vehicles.TruckPassesWhereCarPasses` | src/edu/uw/tcss/model/Truck.java:55-61 | a Truck may enter every cell a Car may |
| `Vehicles.StrategyIsSound` | src/edu/uw/tcss/model/AbstractVehicle.java:258-259 | every kind turns only onto a neighbour it may use; non-Atv kinds reverse exactly when none of straight, left, right is usable; the Atv never reverses |
| `Vehicles.CarAndTaxiChooseAlike` | src/edu/uw/tcss/model/Taxi.java:85-101 | the Car and the Taxi choose the same heading for every heading and neighbour map |
| `Vehicles.PokeKeepsLifeValid` | src/edu/uw/tcss/model/AbstractVehicle.java:125-141 | a poke keeps "alive implies counter 0" and 0 <= counter <= death time; poking a live vehicle changes nothing |
| `Vehicles.StaysDeadBeforeDeathTime` | src/edu/uw/tcss/model/AbstractVehicle.java:126-129 | before the death time runs out, pokes only count, with the heading unchanged |
| `Vehicles.RevivalTiming` | src/edu/uw/tcss/model/AbstractVehicle.java:125-141 | with death time N >= 1 the vehicle is dead after N-1 pokes and alive with counter 0 after the N-th, facing the last draw; with N = 0 one poke revives |
| `Vehicles.CollisionNeverRevives` | src/edu/uw/tcss/model/AbstractVehicle.java:150-154 | a dead vehicle stays dead through a collision |
| `Vehicles.CollisionPair` | src/edu/uw/tcss/model/AbstractVehicle.java:150-154 | two live vehicles, each told of the collision in either order: the one with the strictly larger death time dies, the other lives; on equal death times both live |
| `Vehicles.TruckNeverKilled` | src/edu/uw/tcss/model/Truck.java:25 | a collision never changes a Truck's alive state, whatever the other kind |
| `Vehicles.ImageNameInjective` | src/edu/uw/tcss/model/AbstractVehicle.java:164-173 | the image name (type name plus `.gif` or `_dead.gif`) determines both the kind and the alive state |
| `Vehicles.Vehicle.constructor` | src/edu/uw/tcss/model/AbstractVehicle.java:57-69 | position, heading and the snapshot are the arguments; the vehicle is alive with counter 0; the death time is the kind's |
| `Vehicles.Vehicle.Poke` | src/edu/uw/tcss/model/AbstractVehicle.java:125-132 | the new alive/counter/heading is `Poked` of the old; a live vehicle is untouched; position is untouched; the invariant is kept |
| `Vehicles.Vehicle.Revive` | src/edu/uw/tcss/model/AbstractVehicle.java:137-141 | alive, counter 0, heading the drawn direction; position untouched; the class invariant holds afterwards |
| `Vehicles.Vehicle.Collide` | src/edu/uw/tcss/model/AbstractVehicle.java:150-154 | only this vehicle's alive flag changes: it dies iff both are alive and its death time is strictly larger; the other vehicle is not changed |
| `Vehicles.Vehicle.Reset` | src/edu/uw/tcss/model/AbstractVehicle.java:181-187 | position and heading return to the snapshot, alive with counter 0, whatever came before; the Taxi's wait counter is kept |
| `Vehicles.Vehicle.SetX` | src/edu/uw/tcss/model/AbstractVehicle.java:195-197 | sets x and nothing else |
| `Vehicles.Vehicle.SetY` | src/edu/uw/tcss/model/AbstractVehicle.java:205-207 | sets y and nothing else |
| `Vehicles.Vehicle.SetDirection` | src/edu/uw/tcss/model/AbstractVehicle.java:215-217 | sets the heading and nothing else |
| `Vehicles.Vehicle.CanPass` | src/edu/uw/tcss/model/Taxi.java:53-74 | the answer and the new wait counter are those of `Passes` for this kind; only the wait counter may change |
| `Vehicles.Vehicle.ChooseDirection` | src/edu/uw/tcss/model/AbstractVehicle.java:258-259 | the result is this kind's strategy for the current heading; nothing changes |
| `Atvs.CanPass` | src/edu/uw/tcss/model/Atv.java:43-46 | passes every terrain but WALL, under every light; `Vehicles.PassesMatchesTable` proves it against the rule table |
| `Bicycles.CanPass` | src/edu/uw/tcss/model/Bicycle.java:47-54 | passes only road or trail; on green all of it, otherwise only STREET and TRAIL; `Vehicles.PassesMatchesTable` proves it against the rule table |
| `Bicycles.CanMoveTo` | src/edu/uw/tcss/model/Bicycle.java:105-110 | holds exactly when the neighbour is STREET, LIGHT or CROSSWALK (the road class); never for a missing neighbour |
| `Cars.CanPass` | src/edu/uw/tcss/model/Car.java:47-54 | passes only road; on green all of it, on red only STREET; `Vehicles.PassesMatchesTable` proves it against the rule table |
| `Humans.CanPass` | src/edu/uw/tcss/model/Human.java:53-60 | passes only GRASS or CROSSWALK; unless green both, on green only GRASS; `Vehicles.PassesMatchesTable` proves it against the rule table |
| `Humans.Choice` | src/edu/uw/tcss/model/Human.java:71-97 | a non-reverse result is grass or crosswalk; whenever straight, left or right is a crosswalk, the result is such a crosswalk |
| `Taxis.CanMoveTo` | src/edu/uw/tcss/model/Taxi.java:113-118 | holds exactly when the neighbour is STREET, LIGHT or CROSSWALK (the road class); never for a missing neighbour |
| `Trucks.CanPass` | src/edu/uw/tcss/model/Truck.java:54-61 | passes only road; unless red all of it, on red STREET and LIGHT but not CROSSWALK; `Vehicles.PassesMatchesTable` proves it against the rule table |
| `Trucks.Choice` | src/edu/uw/tcss/model/Truck.java:76-93 | the result is the reverse or a road candidate of the shuffled list; it is a candidate whenever one is road |
| `Vehicles.Poked` | src/edu/uw/tcss/model/AbstractVehicle.java:125-141 | a live vehicle is unchanged; a dead one revives exactly when the incremented counter reaches the death time, then with counter 0 facing the draw; otherwise it stays dead, one count further, same heading |
| `Vehicles.Survives` | src/edu/uw/tcss/model/AbstractVehicle.java:150-154 | a collision never revives; the alive state changes exactly when both are alive and this death time is strictly larger |
| `Vehicles.Vehicle.ImageFileName` | src/edu/uw/tcss/model/AbstractVehicle.java:164-173 | the name starts with the type name, followed by `.gif` exactly when alive and `_dead.gif` exactly when dead |

## Left out

- Randomness (`Direction.random()`, `Collections.shuffle`, the `Random` instances): the outcomes are parameters (`draw`, `order`, `draws`); their distribution is not modelled.
- Atvs.ChooseDirection: runs of random draws that never reach an acceptable direction are not modelled. The source loops forever on them. The method requires the draws to reach one.
- `Direction`, `Terrain`, `Light` and the `Vehicle` interface are not part of this model; they are re-declared minimally. The rotations are assumed to be the usual compass ones, with left of NORTH being WEST and right being EAST.
- `toString` (in the base class and the Truck): string formatting, not modelled.
- `getImageFileName`'s class-name lookup by reflection is replaced by a fixed name per kind (`BaseName`); only the `.gif` / `_dead.gif` suffix rule is modelled.
- The getters (`getX`, `getY`, `getDirection`, `isAlive`, `getDeathTime`) are plain reads of the class's fields.
- The base constructor accepts any death time; here the death time is always the kind's own constant, which is how every subclass calls it.
- The wait counter is a field of every vehicle here, held at 0 except for the Taxi; in the source only the Taxi has it.
- Coordinates are unbounded integers. The source's 32-bit `int` never overflows in this core, because positions are only stored and the death counter is bounded by the death time.
- The map, the light-cycle scheduler, the GUI and the controller are outside the core.
