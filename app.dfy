/** The application object `TollSystemApp` without its widgets: the
    per-vehicle lists, the tracking flag and the booth registry it reads. */
module App {
  import opened Geo
  import opened Registry
  import opened Toll
  import opened Tracking

  /** The two registry entries `random.choice` picked as a vehicle's start and end. */
  datatype Route = Route(start: nat, end: nat)

  predicate ValidRoutes(booths: seq<Booth>, routes: seq<Route>, n: nat) {
    |routes| == n && forall i :: 0 <= i < n ==> routes[i].start < |booths| && routes[i].end < |booths|
  }

  /** The path `generate_vehicle_path` builds for a route. */
  function RoutePath(booths: seq<Booth>, r: Route): (path: seq<GeoPoint>)
    requires r.start < |booths| && r.end < |booths|
    ensures |path| == NUM_POINTS + 1 && path[0] == booths[r.start].location
  {
    GeneratePath(booths[r.start].location, booths[r.end].location, NUM_POINTS)
  }

  /** The application as the program starts it: on the module-level
      registry of three booths. */
  method NewApp(numVehicles: nat, routes: seq<Route>) returns (app: TollSystemApp)
    requires ValidRoutes(INITIAL_BOOTHS, routes, numVehicles)
    ensures fresh(app) && app.Valid() && app.numVehicles == numVehicles
    ensures app.booths == INITIAL_BOOTHS && !app.tracking
    ensures forall i :: 0 <= i < numVehicles ==>
              app.vehiclePaths[i] == RoutePath(INITIAL_BOOTHS, routes[i])
              && app.vehiclePositions[i] == 0 && app.totalTolls[i] == 0
  {
    InitialBoothsDistinct();
    app := new TollSystemApp(numVehicles, INITIAL_BOOTHS, routes);
  }

  class TollSystemApp {
    const numVehicles: nat
    /** The module-level `toll_booths` dictionary, in insertion order. */
    var booths: seq<Booth>
    var vehiclePaths: seq<seq<GeoPoint>>
    var vehiclePositions: seq<nat>
    var totalTolls: seq<int>
    var tracking: bool

    ghost predicate Valid()
      reads this
    {
      DistinctNames(booths) && |vehiclePaths| == numVehicles && WellFormed(State())
    }

    function State(): Fleet
      reads this
    {
      Fleet(vehiclePaths, vehiclePositions, totalTolls, tracking)
    }

    /** `__init__` and `initialize_vehicles`: one fresh path per vehicle, every
        position and total 0, tracking off. */
    constructor (numVehicles: nat, booths: seq<Booth>, routes: seq<Route>)
      requires DistinctNames(booths) && ValidRoutes(booths, routes, numVehicles)
      ensures Valid() && this.numVehicles == numVehicles && this.booths == booths && !tracking
      ensures forall i :: 0 <= i < numVehicles ==>
                vehiclePaths[i] == RoutePath(booths, routes[i]) && vehiclePositions[i] == 0 && totalTolls[i] == 0
    {
      this.numVehicles := numVehicles;
      this.booths := booths;
      vehiclePositions, vehiclePaths, totalTolls := [], [], [];
      tracking := false;
      new;
      for i := 0 to numVehicles
        invariant this.numVehicles == numVehicles && this.booths == booths && !tracking
        invariant |vehiclePaths| == |vehiclePositions| == |totalTolls| == i
        invariant forall k :: 0 <= k < i ==>
                    vehiclePaths[k] == RoutePath(booths, routes[k]) && vehiclePositions[k] == 0 && totalTolls[k] == 0
      {
        vehiclePaths := vehiclePaths + [RoutePath(booths, routes[i])];
        vehiclePositions := vehiclePositions + [0];
        totalTolls := totalTolls + [0];
      }
    }

    /** `stop_tracking`: only the flag changes. */
    method StopTracking()
      modifies this
      ensures State() == old(State()).(tracking := false) && booths == old(booths)
    {
      tracking := false;
    }

    /** `track_vehicles`: one tick, as `Tick` describes it. The draws for
        vehicle `i` are the random values its toll evaluation uses. */
    method TrackVehicles(dist: Distance, draws: seq<seq<Draw>>)
      requires Valid() && TickDraws(booths, State(), draws)
      modifies this
      ensures Valid() && booths == old(booths)
      ensures State() == Tick(old(State()), booths, dist, draws)
    {
      ghost var s := State();
      ghost var h := FirstHalt(s, booths, dist, draws, 0);
      for i := 0 to numVehicles
        invariant booths == old(booths) && vehiclePaths == s.paths && tracking == s.tracking
        invariant |vehiclePositions| == numVehicles && |totalTolls| == numVehicles
        invariant s.tracking ==> i <= h
        invariant forall k :: 0 <= k < i && s.tracking && Active(s, k) ==>
                    vehiclePositions[k] == s.positions[k] + 1
                    && totalTolls[k] == s.totals[k] + VehicleToll(s, booths, dist, draws, k).total
        invariant forall k :: 0 <= k < numVehicles && !(k < i && s.tracking && Active(s, k)) ==>
                    vehiclePositions[k] == s.positions[k] && totalTolls[k] == s.totals[k]
      {
        if tracking && vehiclePositions[i] < |vehiclePaths[i]| {
          var position := vehiclePaths[i][vehiclePositions[i]];
          var tolls, toll, confirmed := CalculateToll(position, booths, dist, draws[i]);
          if !confirmed {
            assert Halts(s, booths, dist, draws, i);
            StopTracking();
            TickMatches(s, dist, draws, i);
            return;
          }
          assert !Halts(s, booths, dist, draws, i);
          totalTolls := totalTolls[i := totalTolls[i] + toll];
          vehiclePositions := vehiclePositions[i := vehiclePositions[i] + 1];
        }
      }
      TickMatches(s, dist, draws, numVehicles);
    }

    /** The lists agree with `Tick` once the scan has reached vehicle `i = FirstHalt`. */
    lemma TickMatches(s: Fleet, dist: Distance, draws: seq<seq<Draw>>, i: nat)
      requires WellFormed(s) && TickDraws(booths, s, draws) && DistinctNames(booths)
      requires |s.paths| == numVehicles && vehiclePaths == s.paths
      requires i <= numVehicles && (s.tracking ==> i == FirstHalt(s, booths, dist, draws, 0))
      requires tracking == (s.tracking && i == numVehicles)
      requires |vehiclePositions| == numVehicles && |totalTolls| == numVehicles
      requires forall k :: 0 <= k < i && s.tracking && Active(s, k) ==>
                 vehiclePositions[k] == s.positions[k] + 1
                 && totalTolls[k] == s.totals[k] + VehicleToll(s, booths, dist, draws, k).total
      requires forall k :: 0 <= k < numVehicles && !(k < i && s.tracking && Active(s, k)) ==>
                 vehiclePositions[k] == s.positions[k] && totalTolls[k] == s.totals[k]
      ensures State() == Tick(s, booths, dist, draws)
    {
      var t := Tick(s, booths, dist, draws);
      forall k | 0 <= k < numVehicles
        ensures vehiclePositions[k] == t.positions[k] && totalTolls[k] == t.totals[k]
      {
        TickEntry(s, booths, dist, draws, k);
      }
      assert vehiclePositions == t.positions && totalTolls == t.totals;
    }

    /** `start_tracking`: switch tracking on and run the first tick. */
    method StartTracking(dist: Distance, draws: seq<seq<Draw>>)
      requires Valid() && TickDraws(booths, State(), draws)
      modifies this
      ensures Valid() && booths == old(booths)
      ensures State() == Tick(old(State()).(tracking := true), booths, dist, draws)
    {
      tracking := true;
      TrackVehicles(dist, draws);
    }

    /** The module-level `track_vehicles`, were it bound to the class: one tick,
        as `TickUnbound` describes it. */
    method TrackVehiclesUnbound(dist: Distance, draws: seq<seq<Draw>>)
      requires Valid() && TickDraws(booths, State(), draws)
      modifies this
      ensures Valid() && booths == old(booths)
      ensures State() == TickUnbound(old(State()), booths, dist, draws)
    {
      ghost var s := State();
      ghost var h := FirstDenial(s, booths, dist, draws, 0);
      for i := 0 to numVehicles
        invariant booths == old(booths) && vehiclePaths == s.paths && tracking == s.tracking
        invariant |vehiclePositions| == numVehicles && |totalTolls| == numVehicles
        invariant s.tracking ==> i <= h
        invariant forall k :: 0 <= k < numVehicles && k < i && s.tracking && AdvancesUnbound(s, booths, dist, draws, h, k) ==>
                    vehiclePositions[k] == s.positions[k] + 1
                    && totalTolls[k] == s.totals[k] + VehicleTollShadowed(s, booths, dist, draws, k).total
        invariant forall k :: 0 <= k < numVehicles && !(k < i && s.tracking && AdvancesUnbound(s, booths, dist, draws, h, k)) ==>
                    vehiclePositions[k] == s.positions[k] && totalTolls[k] == s.totals[k]
      {
        if tracking && vehiclePositions[i] < |vehiclePaths[i]| {
          var position := vehiclePaths[i][vehiclePositions[i]];
          var tolls, toll, status := CalculateTollShadowed(position, booths, dist, draws[i]);
          if status == Payment.Denied {
            assert Denies(s, booths, dist, draws, i);
            StopTracking();
            TickUnboundMatches(s, dist, draws, i);
            return;
          } else if status == Payment.Delayed {
            continue;
          }
          assert AdvancesUnbound(s, booths, dist, draws, h, i);
          totalTolls := totalTolls[i := totalTolls[i] + toll];
          vehiclePositions := vehiclePositions[i := vehiclePositions[i] + 1];
        }
      }
      TickUnboundMatches(s, dist, draws, numVehicles);
    }

    /** The lists agree with `TickUnbound` once the scan has reached vehicle `i = FirstDenial`. */
    lemma TickUnboundMatches(s: Fleet, dist: Distance, draws: seq<seq<Draw>>, i: nat)
      requires WellFormed(s) && TickDraws(booths, s, draws) && DistinctNames(booths)
      requires |s.paths| == numVehicles && vehiclePaths == s.paths
      requires i <= numVehicles && (s.tracking ==> i == FirstDenial(s, booths, dist, draws, 0))
      requires tracking == (s.tracking && i == numVehicles)
      requires |vehiclePositions| == numVehicles && |totalTolls| == numVehicles
      requires forall k :: 0 <= k < numVehicles && k < i && s.tracking
                             && AdvancesUnbound(s, booths, dist, draws, FirstDenial(s, booths, dist, draws, 0), k) ==>
                 vehiclePositions[k] == s.positions[k] + 1
                 && totalTolls[k] == s.totals[k] + VehicleTollShadowed(s, booths, dist, draws, k).total
      requires forall k :: 0 <= k < numVehicles && !(k < i && s.tracking
                             && AdvancesUnbound(s, booths, dist, draws, FirstDenial(s, booths, dist, draws, 0), k)) ==>
                 vehiclePositions[k] == s.positions[k] && totalTolls[k] == s.totals[k]
      ensures State() == TickUnbound(s, booths, dist, draws)
    {
      var t := TickUnbound(s, booths, dist, draws);
      forall k | 0 <= k < numVehicles
        ensures vehiclePositions[k] == t.positions[k] && totalTolls[k] == t.totals[k]
      {
        TickUnboundEntry(s, booths, dist, draws, k);
      }
      assert vehiclePositions == t.positions && totalTolls == t.totals;
    }

    /** `reset_simulation`: tracking off, every position and total 0, and a
        fresh path of `NUM_POINTS + 1` waypoints per vehicle. */
    method ResetSimulation(routes: seq<Route>)
      requires Valid() && ValidRoutes(booths, routes, numVehicles)
      modifies this
      ensures Valid() && booths == old(booths) && !tracking
      ensures forall i :: 0 <= i < numVehicles ==> vehiclePositions[i] == 0 && totalTolls[i] == 0
      ensures forall i :: 0 <= i < numVehicles ==>
                vehiclePaths[i] == RoutePath(booths, routes[i])
                && |vehiclePaths[i]| == NUM_POINTS + 1 && vehiclePaths[i][0] == booths[routes[i].start].location
    {
      tracking := false;
      vehiclePositions := seq(numVehicles, _ => 0);
      totalTolls := seq(numVehicles, _ => 0);
      vehiclePaths := [];
      for i := 0 to numVehicles
        invariant booths == old(booths) && !tracking
        invariant vehiclePositions == seq(numVehicles, _ => 0) && totalTolls == seq(numVehicles, _ => 0)
        invariant |vehiclePaths| == i
        invariant forall k :: 0 <= k < i ==> vehiclePaths[k] == RoutePath(booths, routes[k])
      {
        vehiclePaths := vehiclePaths + [RoutePath(booths, routes[i])];
      }
    }

    /** `add_toll_booth`: a blank or cancelled name leaves the registry alone;
        otherwise the dictionary entry is set. */
    method AddTollBooth(name: Option<string>, location: GeoPoint)
      requires Valid()
      modifies this
      ensures Valid() && State() == old(State())
      ensures booths == if name.None? || name.value == "" then old(booths) else Assign(old(booths), name.value, location)
    {
      if name.None? || name.value == "" {
        return;
      }
      booths := Assign(booths, name.value, location);
    }
  }
}
