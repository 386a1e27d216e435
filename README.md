# Space traffic control: a verified model of the proximity monitor

This project models the core of a small space-traffic simulation. Each
spacecraft is a point with an identifier, a position and a velocity. A
traffic controller keeps an ordered list of spacecraft and a collision
threshold, and it does four things:

- it advances every craft one forward-Euler step (`x += vx * dt` on each axis);
- it scans every pair of list positions `i < j` and reports the pairs closer
  than the threshold;
- it adds crafts at the end of the list and removes the first craft with a
  given identifier;
- it projects the crafts' x and y onto a 20 by 20 character grid.

The Dafny files:

- `Kinematics.dfy` (module `Kinematics`) holds a craft's state as a value
  (`CraftState`), the Euler step `Advance`, its repetition `AdvanceTimes` and
  `SquaredDistance`. It also holds `WithinThreshold`, the closeness test
  written without a square root, and the lemmas about them.
- `Spacecraft.dfy` (module `Crafts`) holds the class `Spacecraft`. Its fields
  are the source's attributes. `UpdatePosition` moves the craft in place.
- `Proximity.dfy` (module `Proximity`) gives the result of the pairwise scan
  as index pairs. `RowPairs` is the inner loop, `PairsBefore` the outer loop
  and `ClosePairs` the whole scan. It proves which pairs are reported and in
  what order.
- `Registry.dfy` (modules `Wrappers` and `Registry`) holds the list facts: the
  first-match search `FirstIndexOf`, `RemoveAt` and multiplicities.
- `Projection.dfy` (module `Projection`) holds truncation toward zero, clamping,
  the grid index of a coordinate and the content of each cell (`CellAt`).
- `Controller.dfy` (module `TrafficControl`) holds the class
  `SpaceTrafficController`. Its fields are `spacecraftList` (a `seq` of craft
  references) and `collisionThreshold`. Each of its methods is proved against
  the value-level definitions above. The inner loop of the collision scan is
  the method `ScanRow`; the outer loop in `CheckCollisions` calls it once per
  round.
- `Scenarios.dfy` (module `Scenarios`) holds the first two crafts of the
  demonstration run (threshold 50, Apollo and Enterprise), first as values and then driven
  through the controller (`DemonstrationOpening`, `DemonstrationStep`). It
  also holds a close pair, a removal from a three-craft registry and a grid
  cell computed by truncation.

Modelling choices:

- Coordinates, velocities, time steps and the threshold are Dafny `real`s.
- The source compares `sqrt(dx² + dy² + dz²) < threshold`. The model compares
  `threshold > 0 && d2 < threshold²` on the squared distance `d2`.
  `Kinematics.DistanceBelowThreshold` proves that the two tests agree for every
  non-negative `d` with `d * d == d2`.
- The list holds references. The same craft object can be registered twice.
  `update_positions` then steps that object once per occurrence, and the
  model says so (`AdvanceTimes` with the craft's multiplicity). If the list
  has no repeated objects, every craft is stepped exactly once.
- The scan is stated over list positions. So "never paired with itself" means
  `i < j`. An object registered twice is reported against itself, at two
  different positions, when the threshold is positive.
- `remove_spacecraft` returns nothing and prints one of two messages. The
  model returns `removed` to say which message would be printed.
- `visualize_space` prints a grid. The model returns that grid.
  `NoSpacecraft` stands for the early return on an empty list.
  `DivisionByZero` stands for the `ZeroDivisionError` that a zero `grid_size`
  raises once there is a craft to place.

Two details of the code that the model keeps:

- The grid index uses `int(...)`, which truncates toward zero. It does not use
  rounding. `Scenarios.FalconCell` shows that 7.5 gives column 7.
- The grid is fixed at 20 by 20 and is not a parameter.

## Model

| member | source | states |
|---|---|---|
| `Crafts.Spacecraft.constructor` | Spacecraft.py:8-23 | id, position and velocity are stored exactly as given, with no check; omitted coordinates default to 0 |
| `Crafts.Spacecraft.UpdatePosition` | Spacecraft.py:25-34 | the new state is one Euler step of the old: each coordinate gains velocity × time step, and id and velocity are unchanged |
| `Crafts.Spacecraft.SquaredDistanceTo` | Spacecraft.py:36-49 | the squared distance to another craft is non-negative and is the value-level `SquaredDistance` of the two positions |
| `Kinematics.Advance` | Spacecraft.py:32-34 | a step changes only the position (id and velocity unchanged), and a zero step changes nothing |
| `Kinematics.AdvanceCompose` | Spacecraft.py:32-34 | a step of `a` followed by a step of `b` reaches the same state as one step of `a + b` |
| `Kinematics.AdvanceRewind` | Spacecraft.py:32-34 | a negative step undoes the matching positive step |
| `Kinematics.AdvanceTimes` | SpaceTrafficController.py:50-51 | `n` repeated steps keep the id and the velocity (a bookkeeping fact; the position is given by `AdvanceTimesScaled`) |
| `Kinematics.AdvanceTimesScaled` | SpaceTrafficController.py:50-51 | `n` steps of `dt` reach the position of one step of `n * dt` |
| `Kinematics.AdvanceTimesZero` | SpaceTrafficController.py:50-51 | a registry step of length 0 leaves every craft as it was, however often it is listed |
| `Kinematics.SquaredDistance` | Spacecraft.py:46-49 | the sum of squared coordinate differences is never negative |
| `Kinematics.SquaredDistanceSymmetric` | Spacecraft.py:46-49 | the distance from A to B equals the distance from B to A |
| `Kinematics.SquaredDistanceSame` | Spacecraft.py:46-49 | a craft is at distance 0 from itself and from any craft at the same position |
| `Kinematics.DistanceBelowThreshold` | SpaceTrafficController.py:65-67 | for any non-negative `d` with `d * d = d2`, `d < threshold` holds exactly when `WithinThreshold(d2, threshold)` does (never when the threshold is not positive) |
| `Proximity.RowPairsRange` | SpaceTrafficController.py:62 | round `i` of the outer loop, run up to `m`, only reports pairs `(i, j)` with `i < j < m` |
| `Proximity.RowPairsSound` | SpaceTrafficController.py:62-68 | every pair one round of the inner loop reports is closer than the threshold |
| `Proximity.RowPairsComplete` | SpaceTrafficController.py:62-68 | one round of the inner loop reports every close pair `(i, j)` with `i < j < m` |
| `Proximity.RowPairsOrdered` | SpaceTrafficController.py:62-68 | one round reports its pairs by strictly increasing second index |
| `Proximity.PairsBeforeRange` | SpaceTrafficController.py:61-62 | the first `n` rounds only report pairs `(i, j)` with `i < n` and `i < j < length` |
| `Proximity.PairsBeforeSound` | SpaceTrafficController.py:61-68 | every pair reported in the first `n` rounds is closer than the threshold |
| `Proximity.PairsBeforeComplete` | SpaceTrafficController.py:61-68 | the first `n` rounds report every close pair whose first index is below `n` |
| `Proximity.PairsBeforeOrdered` | SpaceTrafficController.py:61-68 | the first `n` rounds report their pairs in lexicographic order |
| `Proximity.ClosePairs` | SpaceTrafficController.py:60-70 | every reported pair `(i, j)` satisfies `i < j < length` |
| `Proximity.ClosePairsExact` | SpaceTrafficController.py:60-70 | `(i, j)` is reported if and only if `i < j < length` and the two crafts are closer than the threshold; pairs come in lexicographic order |
| `Proximity.OrderedNoRepeats` | SpaceTrafficController.py:61-62 | in scan order no pair is listed twice |
| `Proximity.ClosePairsEmpty` | SpaceTrafficController.py:60-70 | the scan returns an empty list exactly when no two crafts are close |
| `Proximity.CloseSymmetric` | SpaceTrafficController.py:65-67 | closeness of two crafts does not depend on their order |
| `Registry.FirstIndexOf` | SpaceTrafficController.py:36-37 | gives the first position holding the identifier, and None exactly when the identifier is absent |
| `Registry.RemoveAt` | SpaceTrafficController.py:38 | one shorter; entries before `k` keep their position, later ones move down by one; the removed entry is the only one lost |
| `Registry.OccursOnce` | SpaceTrafficController.py:50-51 | in a list without repeated objects each entry occurs exactly once |
| `TrafficControl.SpaceTrafficController.constructor` | SpaceTrafficController.py:9-17 | the registry starts empty with the given threshold (default 100) |
| `TrafficControl.SpaceTrafficController.AddSpacecraft` | SpaceTrafficController.py:19-26 | the new list is the old list with the craft appended; the threshold is unchanged |
| `TrafficControl.SpaceTrafficController.RemoveSpacecraft` | SpaceTrafficController.py:29-41 | exactly the first craft with the identifier is removed, and the others keep their order; an absent identifier leaves the list unchanged without error; `removed` says which case happened |
| `TrafficControl.SpaceTrafficController.UpdatePositions` | SpaceTrafficController.py:43-51 | every registered craft is stepped once per occurrence in the list, and the list itself is unchanged; with no repeated objects each craft moves exactly one step |
| `TrafficControl.SpaceTrafficController.CheckCollisions` | SpaceTrafficController.py:53-70 | the result holds one alert `(craft i, craft j, squared distance)` for each pair of `ClosePairs`, in the same order; nothing is modified |
| `TrafficControl.SpaceTrafficController.ScanRow` | SpaceTrafficController.py:62-68 | one round of the inner loop yields one alert for each pair of `RowPairs` of craft `i` against all later crafts, in the same order |
| `TrafficControl.ReportsConcat` | SpaceTrafficController.py:60-68 | alerts collected round after round stay one for one with the pairs of those rounds |
| `Projection.Truncate` | SpaceTrafficController.py:113-114 | `int()` drops the fraction toward zero: below or equal for non-negative values, above or equal for negative ones, by less than 1 |
| `Projection.TruncateIsNotFloor` | SpaceTrafficController.py:113-114 | on -0.5 truncation gives 0 where the floor gives -1 |
| `Projection.TruncClampIsFloorClamp` | SpaceTrafficController.py:113-118 | once clamped to 0..19, truncation and the floor give the same index, so on the grid only truncation versus rounding matters |
| `Projection.Clamp` | SpaceTrafficController.py:117-118 | the clamped index lies in 0..19; it equals the input inside that range and the nearest end outside |
| `Projection.GridIndex` | SpaceTrafficController.py:113-118 | every placed cell index lies in 0..19, for any coordinate and any non-zero span |
| `Projection.CellAtStep` | SpaceTrafficController.py:111-121 | drawing the next craft changes exactly the cell it falls into, to its glyph |
| `Projection.CellAtUntouched` | SpaceTrafficController.py:108-121 | a cell that no craft maps to keeps the fill `'.'` |
| `Projection.CellAtLastWriter` | SpaceTrafficController.py:111-121 | a cell shows the first character of the id (or `'?'` for an empty id) of the last craft that maps to it |
| `TrafficControl.SpaceTrafficController.VisualizeSpace` | SpaceTrafficController.py:95-121 | an empty registry draws nothing; a zero span fails; otherwise the result is a fresh 20 by 20 grid whose every cell is `CellAt` of the crafts in list order |
| `Scenarios.ApolloEnterpriseApart` | main.py:18-22 | Apollo and Enterprise under threshold 50 are not reported, either at the start or after one step, which moves them to (5, 3, 0) and (98, 51, 0) |
| `Scenarios.ClosePairReported` | SpaceTrafficController.py:61-68 | two crafts 10 apart under threshold 20 are reported once, as positions (0, 1), with squared distance 100 |
| `Scenarios.FalconCell` | SpaceTrafficController.py:113-118 | Falcon's start (-50, -30) with span 200 falls in column 7 and row 8, because the values are truncated |
| `Scenarios.RemovalRun` | SpaceTrafficController.py:29-41 | removing `Enterprise` from the registry `Apollo, Enterprise, Falcon` leaves `Apollo, Falcon` |

## Left out

- `TrafficControl.SpaceTrafficController.CheckCollisions`: each report carries the squared distance where the source carries its square root. Dafny's reals have no square root. `Kinematics.DistanceBelowThreshold` ties the threshold test to the true distance.
- `TrafficControl.SpaceTrafficController.ScanRow`: each alert of one round carries the squared distance where the source appends the `distance_to` value, its square root. Dafny's reals have no square root. `Kinematics.DistanceBelowThreshold` ties the threshold test to the true distance.
- `Crafts.Spacecraft.SquaredDistanceTo`: gives the squared distance, not `distance_to`'s square root, for the same reason.
- IEEE floating point is not modelled: rounding, NaN and infinities. In particular the `OverflowError` and `ValueError` that `int()` raises on an infinite or NaN coordinate are left out.
- Printing is not modelled. This covers `report_status`, the printed grid, the "Added", "Removed" and "not found" messages, and `Spacecraft.__str__`. They are presentation only.
- The demonstration drivers are not modelled: `main.py`'s loop with `time.sleep`, `simple_demo.py` and `demo_data_ingestion.py`. The ingestion services they import are not part of this model. The first two crafts of `main.py`'s run, without Falcon and Serenity, appear as `Scenarios.ApolloEnterpriseApart`, `Scenarios.DemonstrationOpening` and `Scenarios.DemonstrationStep`.
- Python allows any code to reassign a craft's attributes. The model changes them only through `UpdatePosition`.
