# GPS toll simulator: toll charging and the tracking tick

A Dafny model of the toll-charging step of a single-file GPS toll simulator
(`gps_toll_py.py`). Vehicles move along straight-line paths between toll
booths; at each tick every vehicle still travelling is charged by every booth
within `TOLL_RADIUS` (5 km) of its current waypoint, a random amount in
`[TOLL_MIN, TOLL_MAX]` = `[5, 15]`, through a mock payment gateway that fails
20% of the time and otherwise delays 10% of the time. The first payment
that fails or is delayed ends that vehicle's booth scan and the whole tick,
and clears tracking, so later booths and later vehicles are not charged.

Modules, leaf to root:

- `Geo` (`geo.dfy`): `GeoPoint` and `GeneratePath`, the route of
  `NUM_POINTS + 1` waypoints.
- `Payment` (`payment.dfy`): the gateway's answer `Approved | Denied | Delayed`
  (Python's `True`, `False`, `None`), its rule over two rolls in [0, 1), and
  Python truthiness (`Truthy`).
- `Registry` (`registry.dfy`): the booth dictionary as a sequence of
  `(name, location)` pairs with distinct names, in insertion order; `Lookup`
  and `Assign` give dictionary read and write.
- `Maps` (`maps.dfy`): `MapSum`, the sum of a map's values, and the two facts
  about it the proofs use.
- `Toll` (`toll.dfy`): `calculate_toll`. `Evaluate` specifies the effective
  definition (lines 98-110); `CalculateToll` is its loop, proved equal to it.
  `EvaluateShadowed` and `CalculateTollShadowed` are the earlier three-way
  definition (lines 48-64), which the second definition rebinds and which
  therefore never runs.
- `Tracking` (`tracking.dfy`): the per-vehicle state as a value `Fleet`, and
  `Tick`, one call of `TollSystemApp.track_vehicles`. `TickUnbound` is the
  module-level `track_vehicles` (lines 66-95). That function is never bound
  to the class, so it is dead code too.
- `App` (`app.dfy`): the class `TollSystemApp` without its widgets. Its fields
  are the lists `vehiclePaths`, `vehiclePositions` and `totalTolls`, the flag
  `tracking`, and the booth registry. Its methods update them in place, and
  each is proved to produce the state its specification function describes.

The inputs the original takes from foreign code are parameters:

- The geodesic distance is an arbitrary function `dist: (GeoPoint, GeoPoint) -> real`.
  The strict test `dist(...) < TOLL_RADIUS` is modelled as written.
- The random values are an oracle. In one evaluation, booth `j` uses the
  draw `draws[j] = Draw(amount, failRoll, delayRoll)`: the `randint` amount
  and the gateway's two `random()` rolls. Only triggered booths use theirs.
  In one tick, vehicle `i` uses `draws[i]`. `ValidDraw` holds each value to
  the range of its random source.
- The two booth choices of `random.choice` are indices into the registry (`Route`).

How the program behaves, as modelled:

- A delayed payment (`None`) is falsy at line 105. The effective evaluator
  therefore treats a delay exactly like a denial: status false, the booth
  uncharged, later booths not examined.
- The class's tick (line 236) then clears `tracking` and ends the tick.
  Lemma `ScenarioDelayedPayment` shows this and contrasts it with the dead
  three-way variant, which skips the delayed vehicle and keeps tracking.
- The dead three-way definition keeps a delay apart from a denial: it
  returns `None` (lines 59-60), and the module-level `track_vehicles` then
  skips the vehicle with `continue` (lines 77-80), so it retries at the same
  waypoint on the next tick. The effective definition's truthiness test
  (line 105) and the class's `if not payment_confirmed` (line 236) drop that
  distinction. The model follows the code that runs.
- The booth dialog's only check (line 196) rejects an empty or cancelled
  name. A name made of spaces is accepted.
- If the module-level `track_vehicles` were ever called, its call at line 71
  would resolve to the effective `calculate_toll`, which never returns
  `None`. `TickUnbound` pairs it with the three-way evaluator instead, as its
  own `is None` branch was written for. `UnboundAgreesWithoutDelays` shows
  that the two ticks agree whenever no payment is delayed.

## Model

| member | source | states |
|---|---|---|
| Geo.GeneratePath | gps_toll_py.py:24-28 | the route has `num_points + 1` waypoints and the first is `start` |
| Payment.ProcessPayment | gps_toll_py.py:34-46 | denied iff the first roll is below 0.2; delayed iff it is not and the second roll is below 0.1; truthy (approved) iff neither |
| Registry.Assign | gps_toll_py.py:200 | dictionary assignment: the name now maps to the new location, every other name keeps its lookup, a new name is appended at the end; an existing name keeps its index with the new location and every other entry keeps its index; names stay distinct |
| Registry.InitialBoothsDistinct | gps_toll_py.py:18-22 | the initial registry has three entries with distinct names |
| Maps.MapSumRemove | gps_toll_py.py:99-107 | the sum of a toll dictionary's values does not depend on the order its keys are taken in |
| Toll.FirstStop | gps_toll_py.py:101-109 | the index where the booth scan returns: every booth before it is out of radius or paid, and the booth at it is in radius with a payment that is not truthy |
| Toll.ChargedSum | gps_toll_py.py:99-107 | after any prefix of the scan, the running total equals the sum of the dictionary's values and lies between `TOLL_MIN` and `TOLL_MAX` times the number of charged booths |
| Toll.ChargedKeys | gps_toll_py.py:103-106 | after any prefix of the scan, the dictionary's keys are exactly the names of the triggered booths in it |
| Toll.CalculateToll | gps_toll_py.py:98-110 | the loop returns exactly the `Evaluate` triple, and its total equals the sum of the returned dictionary |
| Toll.EvaluateTotal | gps_toll_py.py:99-110 | whatever the status, total equals the sum of the values in `tolls`, `TOLL_MIN·k ≤ total ≤ TOLL_MAX·k` for `k` charged booths, and `k` is at most the number of booths |
| Toll.EvaluateChargesOnlyPaidBooths | gps_toll_py.py:103-107 | every name in `tolls` belongs to a booth in radius whose payment was truthy, with its own drawn amount, which lies in `[TOLL_MIN, TOLL_MAX]` |
| Toll.EvaluateConfirmedIff | gps_toll_py.py:101-110 | status is true if and only if every booth in radius has a truthy payment |
| Toll.EvaluateConfirmed | gps_toll_py.py:101-110 | with status true, a booth is in `tolls` if and only if it is in radius, charged its drawn amount |
| Toll.EvaluateNoBoothInRadius | gps_toll_py.py:99-110 | with no booth in radius the result is `({}, 0, True)` |
| Toll.EvaluateStopped | gps_toll_py.py:105-109 | with status false, the stopping booth is in radius and not paid, every earlier triggered booth paid and is exactly what `tolls` holds, and neither the stopping booth nor any later one is charged |
| Toll.EvaluateIgnoresLaterBooths | gps_toll_py.py:101-109 | after a stop, replacing the later booths or their draws does not change the result: they are not examined |
| Toll.CalculateTollShadowed | gps_toll_py.py:48-64 | the shadowed loop returns exactly the `EvaluateShadowed` triple |
| Toll.ShadowedAgrees | gps_toll_py.py:48-64 | the shadowed definition charges the same tolls and total as the effective one, and its status is `True` exactly when the effective status is true |
| Toll.ShadowedStatus | gps_toll_py.py:57-63 | a `None` status means the stopping booth's payment was delayed, a `False` status that it was denied; either way that booth is not charged |
| Tracking.FirstHalt | gps_toll_py.py:231-239 | the vehicle where the tick stops: every earlier vehicle has arrived or was confirmed, and this one is travelling and not confirmed |
| Tracking.Tick | gps_toll_py.py:229-254 | a tick keeps every position within its path, every total non-negative, and the paths unchanged |
| Tracking.TickEntry | gps_toll_py.py:231-247 | each vehicle's new position and total: advanced by one and increased by its returned total if it was processed before the halt, unchanged otherwise |
| Tracking.TickIdle | gps_toll_py.py:232 | with tracking off, a tick changes nothing |
| Tracking.TickConfirmedVehicle | gps_toll_py.py:241-247 | a travelling vehicle before the halt was confirmed; its total grows by exactly the returned total and its position by exactly 1 |
| Tracking.TickHaltsAt | gps_toll_py.py:231-239 | at the first unconfirmed vehicle `i`, tracking ends false, vehicle `i` and every later vehicle are unchanged, and the earlier vehicles keep their updates |
| Tracking.TickKeepsTracking | gps_toll_py.py:231-239 | tracking stays on if and only if it was on and every travelling vehicle was confirmed |
| Tracking.TickArrived | gps_toll_py.py:232 | a vehicle at the end of its path is left untouched |
| Tracking.TickBounds | gps_toll_py.py:232-247 | per vehicle, the position stays or grows by 1, the total stays when the position does, and grows by at most `TOLL_MAX` per booth |
| Tracking.ScenarioApprovedRoute | gps_toll_py.py:229-254 | three waypoints, a booth at the second, approval at 10: after ticks 1, 2, 3 the total is 0, 10, 10 and the index 1, 2, 3 |
| Tracking.ScenarioDeniedRoute | gps_toll_py.py:236-239 | the same route with a denial: the second tick clears tracking and leaves the index at 1 |
| Tracking.ScenarioDelayedPayment | gps_toll_py.py:236-239 | a delay clears tracking in the class's tick but leaves tracking on and the vehicle in place in the unbound tick |
| Tracking.TickUnbound | gps_toll_py.py:66-95 | the unbound tick keeps every position within its path, every total non-negative, and the paths unchanged |
| Tracking.FirstDenial | gps_toll_py.py:68-76 | the vehicle where the unbound tick stops: the first travelling vehicle whose status is `False` |
| Tracking.TickUnboundEntry | gps_toll_py.py:68-88 | each vehicle's new position and total in the unbound tick: advanced only if confirmed before the first denial |
| Tracking.UnboundDelayedVehicleStays | gps_toll_py.py:77-80 | a delayed vehicle keeps its position and total; the scan goes on past it (the first denial comes later, if no earlier vehicle denied); and if no other vehicle denies, tracking stays on |
| Tracking.UnboundAgreesWithoutDelays | gps_toll_py.py:66-95 | when no payment is delayed, the unbound tick and the class's tick give the same state |
| App.RoutePath | gps_toll_py.py:267-269 | a reset path has `NUM_POINTS + 1` waypoints and starts at the chosen start booth |
| App.NewApp | gps_toll_py.py:113-128 | an application started on the initial registry holds that registry, with every vehicle on its generated path at position 0 with total 0 and tracking off |
| App.TollSystemApp.constructor | gps_toll_py.py:160-177 | after initialisation every vehicle has its generated path, position 0 and total 0, and tracking is off |
| App.TollSystemApp.StopTracking | gps_toll_py.py:186-190 | only the tracking flag changes, to false |
| App.TollSystemApp.TrackVehicles | gps_toll_py.py:229-254 | the in-place updates of one tick produce exactly the state `Tick` describes, and the registry is unchanged |
| App.TollSystemApp.TickMatches | gps_toll_py.py:231-250 | the lists built when the scan stops are exactly `Tick`'s |
| App.TollSystemApp.StartTracking | gps_toll_py.py:179-184 | tracking is set on and the first tick runs |
| App.TollSystemApp.TrackVehiclesUnbound | gps_toll_py.py:66-95 | one tick of the module-level variant produces exactly the state `TickUnbound` describes |
| App.TollSystemApp.TickUnboundMatches | gps_toll_py.py:68-92 | the lists built when the unbound scan stops are exactly `TickUnbound`'s |
| App.TollSystemApp.ResetSimulation | gps_toll_py.py:256-269 | tracking off, every position and total 0, one path per vehicle, each of `NUM_POINTS + 1` waypoints starting at its start booth |
| App.TollSystemApp.AddTollBooth | gps_toll_py.py:192-204 | an empty or cancelled name leaves the registry unchanged; otherwise the registry is `Assign`ed; vehicle state is unchanged |

## Left out

- Widgets, labels, the log, message boxes and dialogs (lines 112-204, 273-285): user-interface side effects only. This includes the notification each payment outcome shows.
- `update_graph` (lines 206-227) and the random vehicle colours: drawing only.
- `root.after` rescheduling (lines 253-254): timer plumbing. One tick is one method call.
- The `vehicle_id` argument of `calculate_toll` and `process_payment`: it is used only in messages.
- `geopy.geodesic` (lines 52, 102): foreign floating-point geodesy, replaced by an abstract distance function.
- `random`: replaced by oracle draws, one per booth per vehicle in a tick. The original consumes one sequential stream. Any such stream gives some assignment of draws to the booths that use them, so nothing observable is lost.
- Geo.GeneratePath: waypoints are computed in exact real arithmetic, without floating-point rounding. Only the length and the first waypoint are claimed, not that the last waypoint equals `end`.
- Geo.GeneratePath: requires at least one step, because zero steps divide by zero in the original.
- App.TollSystemApp.AddTollBooth: takes the location as a point. A cancelled latitude or longitude dialog would store `None` coordinates, and handling an exception from a dialog is not modelled.
- `num_vehicles` is a natural number. A negative count from the start-up dialog makes every `range` loop empty, so it behaves as 0.
- The `__main__` block (lines 277-285): start-up dialog and event loop.
