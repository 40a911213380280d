/** The simulator's per-tick controller: the per-vehicle state of the
    application and one tick of `track_vehicles`, as values. */
module Tracking {
  import opened Geo
  import opened Payment
  import opened Registry
  import opened Toll

  /** The per-vehicle lists and the tracking flag, as one value. */
  datatype Fleet = Fleet(paths: seq<seq<GeoPoint>>, positions: seq<nat>, totals: seq<int>, tracking: bool)

  /** One entry per vehicle in every list, no position beyond the end of its
      path, and no negative total. */
  predicate WellFormed(s: Fleet) {
    && |s.positions| == |s.paths| && |s.totals| == |s.paths|
    && (forall i :: 0 <= i < |s.paths| ==> s.positions[i] <= |s.paths[i]|)
    && (forall i :: 0 <= i < |s.paths| ==> s.totals[i] >= 0)
  }

  /** For every vehicle, one valid draw per booth of the registry. */
  predicate TickDraws(booths: seq<Booth>, s: Fleet, draws: seq<seq<Draw>>) {
    |draws| == |s.paths| && forall i :: 0 <= i < |draws| ==> ValidDraws(booths, draws[i])
  }

  /** The vehicle has not yet reached the end of its path. */
  predicate Active(s: Fleet, i: int)
    requires WellFormed(s) && 0 <= i < |s.paths|
  {
    s.positions[i] < |s.paths[i]|
  }

  /** `calculate_toll` for vehicle `i` at its current waypoint. */
  function VehicleToll(s: Fleet, booths: seq<Booth>, dist: Distance, draws: seq<seq<Draw>>, i: int): TollResult
    requires WellFormed(s) && TickDraws(booths, s, draws) && 0 <= i < |s.paths| && Active(s, i)
  {
    Evaluate(s.paths[i][s.positions[i]], booths, dist, draws[i])
  }

  /** Vehicle `i` is still travelling and its toll is not confirmed. */
  predicate Halts(s: Fleet, booths: seq<Booth>, dist: Distance, draws: seq<seq<Draw>>, i: int)
    requires WellFormed(s) && TickDraws(booths, s, draws) && 0 <= i < |s.paths|
  {
    Active(s, i) && !VehicleToll(s, booths, dist, draws, i).confirmed
  }

  /** The first vehicle at or after `from` that halts tracking, or the number of vehicles. */
  function FirstHalt(s: Fleet, booths: seq<Booth>, dist: Distance, draws: seq<seq<Draw>>, from: nat): (h: nat)
    requires WellFormed(s) && TickDraws(booths, s, draws) && from <= |s.paths|
    ensures from <= h <= |s.paths|
    ensures forall i :: from <= i < h ==> !Halts(s, booths, dist, draws, i)
    ensures h < |s.paths| ==> Halts(s, booths, dist, draws, h)
    decreases |s.paths| - from
  {
    if from == |s.paths| || Halts(s, booths, dist, draws, from) then from
    else FirstHalt(s, booths, dist, draws, from + 1)
  }

  /** One tick of `TollSystemApp.track_vehicles`: while tracking, each vehicle
      still travelling is charged at its current waypoint; a confirmed toll
      adds its total and advances the vehicle, and the first unconfirmed one
      clears the tracking flag and ends the tick. */
  function Tick(s: Fleet, booths: seq<Booth>, dist: Distance, draws: seq<seq<Draw>>): (t: Fleet)
    requires WellFormed(s) && TickDraws(booths, s, draws) && DistinctNames(booths)
    ensures WellFormed(t) && t.paths == s.paths
  {
    if !s.tracking then s
    else
      var n := |s.paths|;
      var h := FirstHalt(s, booths, dist, draws, 0);
      var t := Fleet(s.paths,
        seq(n, i requires 0 <= i < n => if i < h && Active(s, i) then s.positions[i] + 1 else s.positions[i]),
        seq(n, i requires 0 <= i < n =>
          if i < h && Active(s, i) then s.totals[i] + VehicleToll(s, booths, dist, draws, i).total else s.totals[i]),
        h == n);
      assert WellFormed(t) by {
        forall i | 0 <= i < n && i < h && Active(s, i) ensures t.totals[i] >= 0 {
          EvaluateTotal(s.paths[i][s.positions[i]], booths, dist, draws[i]);
        }
      }
      t
  }

  /** Entry `k` of a tick's result, spelled out. */
  lemma TickEntry(s: Fleet, booths: seq<Booth>, dist: Distance, draws: seq<seq<Draw>>, k: int)
    requires WellFormed(s) && TickDraws(booths, s, draws) && DistinctNames(booths) && 0 <= k < |s.paths|
    ensures var t := Tick(s, booths, dist, draws);
            if s.tracking && k < FirstHalt(s, booths, dist, draws, 0) && Active(s, k)
            then t.positions[k] == s.positions[k] + 1 && t.totals[k] == s.totals[k] + VehicleToll(s, booths, dist, draws, k).total
            else t.positions[k] == s.positions[k] && t.totals[k] == s.totals[k]
  {
  }

  // ---------------------------------------------------------------------------
  // Properties of one tick

  /** A tick that starts with tracking off changes nothing. */
  lemma TickIdle(s: Fleet, booths: seq<Booth>, dist: Distance, draws: seq<seq<Draw>>)
    requires WellFormed(s) && TickDraws(booths, s, draws) && DistinctNames(booths)
    requires !s.tracking
    ensures Tick(s, booths, dist, draws) == s
  {
  }

  /** A vehicle processed before the tick halts had its toll confirmed: its
      total grows by exactly the returned total and its position by one. */
  lemma TickConfirmedVehicle(s: Fleet, booths: seq<Booth>, dist: Distance, draws: seq<seq<Draw>>, i: int)
    requires WellFormed(s) && TickDraws(booths, s, draws) && DistinctNames(booths) && s.tracking
    requires 0 <= i < FirstHalt(s, booths, dist, draws, 0) && Active(s, i)
    ensures var t := Tick(s, booths, dist, draws);
            && VehicleToll(s, booths, dist, draws, i).confirmed
            && t.positions[i] == s.positions[i] + 1
            && t.totals[i] == s.totals[i] + VehicleToll(s, booths, dist, draws, i).total
  {
    assert !Halts(s, booths, dist, draws, i);
  }

  /** When vehicle `i` is the first whose toll is not confirmed, the tick ends
      with tracking off, vehicle `i` and every later vehicle unchanged, and the
      updates of the earlier vehicles kept. */
  lemma TickHaltsAt(s: Fleet, booths: seq<Booth>, dist: Distance, draws: seq<seq<Draw>>, i: int)
    requires WellFormed(s) && TickDraws(booths, s, draws) && DistinctNames(booths) && s.tracking
    requires 0 <= i < |s.paths| && Halts(s, booths, dist, draws, i)
    requires forall k :: 0 <= k < i ==> !Halts(s, booths, dist, draws, k)
    ensures var t := Tick(s, booths, dist, draws);
            && !t.tracking
            && (forall k :: i <= k < |s.paths| ==> t.positions[k] == s.positions[k] && t.totals[k] == s.totals[k])
            && (forall k :: 0 <= k < i && Active(s, k) ==>
                  t.positions[k] == s.positions[k] + 1
                  && t.totals[k] == s.totals[k] + VehicleToll(s, booths, dist, draws, k).total)
  {
  }

  /** Tracking stays on exactly when it was on and every travelling vehicle's
      toll was confirmed. */
  lemma TickKeepsTracking(s: Fleet, booths: seq<Booth>, dist: Distance, draws: seq<seq<Draw>>)
    requires WellFormed(s) && TickDraws(booths, s, draws) && DistinctNames(booths)
    ensures Tick(s, booths, dist, draws).tracking <==>
            s.tracking && forall i :: 0 <= i < |s.paths| && Active(s, i) ==> VehicleToll(s, booths, dist, draws, i).confirmed
  {
    var h := FirstHalt(s, booths, dist, draws, 0);
    if h < |s.paths| {
      assert Halts(s, booths, dist, draws, h);
    } else {
      forall i | 0 <= i < |s.paths| && Active(s, i) ensures VehicleToll(s, booths, dist, draws, i).confirmed {
        assert !Halts(s, booths, dist, draws, i);
      }
    }
  }

  /** A vehicle at the end of its path is left untouched. */
  lemma TickArrived(s: Fleet, booths: seq<Booth>, dist: Distance, draws: seq<seq<Draw>>, i: int)
    requires WellFormed(s) && TickDraws(booths, s, draws) && DistinctNames(booths)
    requires 0 <= i < |s.paths| && s.positions[i] == |s.paths[i]|
    ensures Tick(s, booths, dist, draws).positions[i] == s.positions[i]
    ensures Tick(s, booths, dist, draws).totals[i] == s.totals[i]
  {
  }

  /** Per vehicle, a tick either leaves position and total alone or advances
      the position by one and adds between nothing and `TOLL_MAX` per booth. */
  lemma TickBounds(s: Fleet, booths: seq<Booth>, dist: Distance, draws: seq<seq<Draw>>, i: int)
    requires WellFormed(s) && TickDraws(booths, s, draws) && DistinctNames(booths)
    requires 0 <= i < |s.paths|
    ensures var t := Tick(s, booths, dist, draws);
            && (t.positions[i] == s.positions[i] || t.positions[i] == s.positions[i] + 1)
            && (t.positions[i] == s.positions[i] ==> t.totals[i] == s.totals[i])
            && s.totals[i] <= t.totals[i] <= s.totals[i] + TOLL_MAX * |booths|
  {
    if s.tracking && i < FirstHalt(s, booths, dist, draws, 0) && Active(s, i) {
      EvaluateTotal(s.paths[i][s.positions[i]], booths, dist, draws[i]);
    }
  }

  // ---------------------------------------------------------------------------
  // Two end-to-end runs

  /** One vehicle on a three-waypoint path, one booth at the middle waypoint,
      every payment approved at 10: the totals after each tick are 0, 10, 10
      and the vehicle arrives on the third tick. */
  lemma ScenarioApprovedRoute()
    ensures
      var p0, p1, p2 := GeoPoint(0.0, 0.0), GeoPoint(1.0, 1.0), GeoPoint(2.0, 2.0);
      var booths := [Booth("Booth1", p1)];
      var dist: Distance := (a: GeoPoint, b: GeoPoint) => if a == b then 0.0 else 100.0;
      var draws := [[Draw(10, 0.5, 0.5)]];
      var s0 := Fleet([[p0, p1, p2]], [0], [0], true);
      var s1 := Tick(s0, booths, dist, draws);
      var s2 := Tick(s1, booths, dist, draws);
      var s3 := Tick(s2, booths, dist, draws);
      && s1 == Fleet([[p0, p1, p2]], [1], [0], true)
      && s2 == Fleet([[p0, p1, p2]], [2], [10], true)
      && s3 == Fleet([[p0, p1, p2]], [3], [10], true)
  {
    var p0, p1, p2 := GeoPoint(0.0, 0.0), GeoPoint(1.0, 1.0), GeoPoint(2.0, 2.0);
    var booths := [Booth("Booth1", p1)];
    var dist: Distance := (a: GeoPoint, b: GeoPoint) => if a == b then 0.0 else 100.0;
    var draws := [[Draw(10, 0.5, 0.5)]];
    var s0 := Fleet([[p0, p1, p2]], [0], [0], true);
    assert FirstStop(p0, booths, dist, draws[0], 0) == 1;
    assert FirstStop(p1, booths, dist, draws[0], 0) == 1;
    assert FirstStop(p2, booths, dist, draws[0], 0) == 1;
    assert ChargedTotal(p0, booths, dist, draws[0], 1) == 0;
    assert ChargedTotal(p1, booths, dist, draws[0], 1) == 10;
    assert ChargedTotal(p2, booths, dist, draws[0], 1) == 0;
    var s1 := Tick(s0, booths, dist, draws);
    assert FirstHalt(s0, booths, dist, draws, 0) == 1;
    assert s1.positions[0] == 1 && s1.totals[0] == 0;
    assert s1 == Fleet([[p0, p1, p2]], [1], [0], true);
    var s2 := Tick(s1, booths, dist, draws);
    assert FirstHalt(s1, booths, dist, draws, 0) == 1;
    assert s2.positions[0] == 2 && s2.totals[0] == 10;
    assert s2 == Fleet([[p0, p1, p2]], [2], [10], true);
    var s3 := Tick(s2, booths, dist, draws);
    assert FirstHalt(s2, booths, dist, draws, 0) == 1;
    assert s3.positions[0] == 3 && s3.totals[0] == 10;
  }

  /** The same vehicle with the first triggered payment denied: the second
      tick clears the tracking flag and leaves the vehicle where it was. */
  lemma ScenarioDeniedRoute()
    ensures
      var p0, p1, p2 := GeoPoint(0.0, 0.0), GeoPoint(1.0, 1.0), GeoPoint(2.0, 2.0);
      var booths := [Booth("Booth1", p1)];
      var dist: Distance := (a: GeoPoint, b: GeoPoint) => if a == b then 0.0 else 100.0;
      var draws := [[Draw(10, 0.1, 0.5)]];
      var s0 := Fleet([[p0, p1, p2]], [0], [0], true);
      var s1 := Tick(s0, booths, dist, draws);
      var s2 := Tick(s1, booths, dist, draws);
      && s1 == Fleet([[p0, p1, p2]], [1], [0], true)
      && s2 == Fleet([[p0, p1, p2]], [1], [0], false)
  {
    var p0, p1, p2 := GeoPoint(0.0, 0.0), GeoPoint(1.0, 1.0), GeoPoint(2.0, 2.0);
    var booths := [Booth("Booth1", p1)];
    var dist: Distance := (a: GeoPoint, b: GeoPoint) => if a == b then 0.0 else 100.0;
    var draws := [[Draw(10, 0.1, 0.5)]];
    var s0 := Fleet([[p0, p1, p2]], [0], [0], true);
    assert FirstStop(p0, booths, dist, draws[0], 0) == 1;
    assert FirstStop(p1, booths, dist, draws[0], 0) == 0;
    assert ChargedTotal(p0, booths, dist, draws[0], 1) == 0;
    var s1 := Tick(s0, booths, dist, draws);
    assert FirstHalt(s0, booths, dist, draws, 0) == 1;
    assert s1.positions[0] == 1 && s1.totals[0] == 0;
    assert s1 == Fleet([[p0, p1, p2]], [1], [0], true);
    assert FirstHalt(s1, booths, dist, draws, 0) == 0;
  }

  // ---------------------------------------------------------------------------
  // The module-level `track_vehicles`, never bound to the class

  /** The shadowed three-way `calculate_toll` for vehicle `i` at its current waypoint. */
  function VehicleTollShadowed(s: Fleet, booths: seq<Booth>, dist: Distance, draws: seq<seq<Draw>>, i: int): ShadowedResult
    requires WellFormed(s) && TickDraws(booths, s, draws) && 0 <= i < |s.paths| && Active(s, i)
  {
    EvaluateShadowed(s.paths[i][s.positions[i]], booths, dist, draws[i])
  }

  /** Vehicle `i` is still travelling and its payment is denied (status `False`). */
  predicate Denies(s: Fleet, booths: seq<Booth>, dist: Distance, draws: seq<seq<Draw>>, i: int)
    requires WellFormed(s) && TickDraws(booths, s, draws) && 0 <= i < |s.paths|
  {
    Active(s, i) && VehicleTollShadowed(s, booths, dist, draws, i).status == Denied
  }

  /** The first vehicle at or after `from` whose payment is denied, or the number of vehicles. */
  function FirstDenial(s: Fleet, booths: seq<Booth>, dist: Distance, draws: seq<seq<Draw>>, from: nat): (h: nat)
    requires WellFormed(s) && TickDraws(booths, s, draws) && from <= |s.paths|
    ensures from <= h <= |s.paths|
    ensures forall i :: from <= i < h ==> !Denies(s, booths, dist, draws, i)
    ensures h < |s.paths| ==> Denies(s, booths, dist, draws, h)
    decreases |s.paths| - from
  {
    if from == |s.paths| || Denies(s, booths, dist, draws, from) then from
    else FirstDenial(s, booths, dist, draws, from + 1)
  }

  /** Vehicle `i` is processed by the unbound tick and its payment went through. */
  predicate AdvancesUnbound(s: Fleet, booths: seq<Booth>, dist: Distance, draws: seq<seq<Draw>>, h: nat, i: int)
    requires WellFormed(s) && TickDraws(booths, s, draws) && 0 <= i < |s.paths|
  {
    i < h && Active(s, i) && VehicleTollShadowed(s, booths, dist, draws, i).status == Approved
  }

  /** One tick of the module-level `track_vehicles` with the three-way
      evaluator: a denial clears tracking and ends the tick, a delay skips the
      vehicle, a confirmation adds the total and advances it. */
  function TickUnbound(s: Fleet, booths: seq<Booth>, dist: Distance, draws: seq<seq<Draw>>): (t: Fleet)
    requires WellFormed(s) && TickDraws(booths, s, draws) && DistinctNames(booths)
    ensures WellFormed(t) && t.paths == s.paths
  {
    if !s.tracking then s
    else
      var n := |s.paths|;
      var h := FirstDenial(s, booths, dist, draws, 0);
      var t := Fleet(s.paths,
        seq(n, i requires 0 <= i < n =>
          if AdvancesUnbound(s, booths, dist, draws, h, i) then s.positions[i] + 1 else s.positions[i]),
        seq(n, i requires 0 <= i < n =>
          if AdvancesUnbound(s, booths, dist, draws, h, i)
          then s.totals[i] + VehicleTollShadowed(s, booths, dist, draws, i).total else s.totals[i]),
        h == n);
      assert WellFormed(t) by {
        forall i | 0 <= i < n && AdvancesUnbound(s, booths, dist, draws, h, i) ensures t.totals[i] >= 0 {
          var pos := s.paths[i][s.positions[i]];
          ShadowedAgrees(pos, booths, dist, draws[i]);
          EvaluateTotal(pos, booths, dist, draws[i]);
        }
      }
      t
  }

  /** Entry `k` of an unbound tick's result, spelled out. */
  lemma TickUnboundEntry(s: Fleet, booths: seq<Booth>, dist: Distance, draws: seq<seq<Draw>>, k: int)
    requires WellFormed(s) && TickDraws(booths, s, draws) && DistinctNames(booths) && 0 <= k < |s.paths|
    ensures var t := TickUnbound(s, booths, dist, draws);
            if s.tracking && AdvancesUnbound(s, booths, dist, draws, FirstDenial(s, booths, dist, draws, 0), k)
            then t.positions[k] == s.positions[k] + 1
                 && t.totals[k] == s.totals[k] + VehicleTollShadowed(s, booths, dist, draws, k).total
            else t.positions[k] == s.positions[k] && t.totals[k] == s.totals[k]
  {
  }

  /** In the unbound tick a delayed vehicle keeps its position and total, the
      scan goes on past it, and the delay alone never clears tracking. */
  lemma UnboundDelayedVehicleStays(s: Fleet, booths: seq<Booth>, dist: Distance, draws: seq<seq<Draw>>, i: int)
    requires WellFormed(s) && TickDraws(booths, s, draws) && DistinctNames(booths)
    requires 0 <= i < |s.paths| && Active(s, i) && VehicleTollShadowed(s, booths, dist, draws, i).status == Delayed
    ensures var t := TickUnbound(s, booths, dist, draws);
            && t.positions[i] == s.positions[i] && t.totals[i] == s.totals[i]
            && (s.tracking && (forall k :: 0 <= k < i ==> !Denies(s, booths, dist, draws, k))
                ==> FirstDenial(s, booths, dist, draws, 0) > i)
            && (s.tracking && (forall k :: 0 <= k < |s.paths| && k != i ==> !Denies(s, booths, dist, draws, k))
                ==> t.tracking)
  {
  }

  /** When no travelling vehicle's payment is delayed, the unbound tick and the
      class's tick agree. */
  lemma UnboundAgreesWithoutDelays(s: Fleet, booths: seq<Booth>, dist: Distance, draws: seq<seq<Draw>>)
    requires WellFormed(s) && TickDraws(booths, s, draws) && DistinctNames(booths)
    requires forall i :: 0 <= i < |s.paths| && Active(s, i) ==> VehicleTollShadowed(s, booths, dist, draws, i).status != Delayed
    ensures TickUnbound(s, booths, dist, draws) == Tick(s, booths, dist, draws)
  {
    forall i | 0 <= i < |s.paths| && Active(s, i)
      ensures VehicleTollShadowed(s, booths, dist, draws, i).status == Approved <==> VehicleToll(s, booths, dist, draws, i).confirmed
      ensures VehicleTollShadowed(s, booths, dist, draws, i).total == VehicleToll(s, booths, dist, draws, i).total
    {
      ShadowedAgrees(s.paths[i][s.positions[i]], booths, dist, draws[i]);
    }
    if s.tracking {
      FirstDenialIsFirstHalt(s, booths, dist, draws, 0);
      var t, u := Tick(s, booths, dist, draws), TickUnbound(s, booths, dist, draws);
      var h := FirstHalt(s, booths, dist, draws, 0);
      forall i | 0 <= i < |s.paths| ensures (i < h && Active(s, i)) == AdvancesUnbound(s, booths, dist, draws, h, i) {
        if i < h && Active(s, i) {
          assert !Halts(s, booths, dist, draws, i);
        }
      }
      assert t.positions == u.positions;
      assert t.totals == u.totals;
    }
  }

  lemma FirstDenialIsFirstHalt(s: Fleet, booths: seq<Booth>, dist: Distance, draws: seq<seq<Draw>>, from: nat)
    requires WellFormed(s) && TickDraws(booths, s, draws) && from <= |s.paths|
    requires forall i :: 0 <= i < |s.paths| ==> (Halts(s, booths, dist, draws, i) <==> Denies(s, booths, dist, draws, i))
    ensures FirstDenial(s, booths, dist, draws, from) == FirstHalt(s, booths, dist, draws, from)
  {
  }

  /** One vehicle at a booth whose payment is delayed: the class's tick treats
      the falsy `None` like a denial and clears tracking, while the unbound
      three-way tick leaves the vehicle in place and keeps tracking on. */
  lemma ScenarioDelayedPayment()
    ensures
      var p0, p1 := GeoPoint(0.0, 0.0), GeoPoint(1.0, 1.0);
      var booths := [Booth("Booth1", p0)];
      var dist: Distance := (a: GeoPoint, b: GeoPoint) => if a == b then 0.0 else 100.0;
      var draws := [[Draw(10, 0.5, 0.05)]];
      var s0 := Fleet([[p0, p1]], [0], [0], true);
      && Tick(s0, booths, dist, draws) == Fleet([[p0, p1]], [0], [0], false)
      && TickUnbound(s0, booths, dist, draws) == Fleet([[p0, p1]], [0], [0], true)
  {
    var p0, p1 := GeoPoint(0.0, 0.0), GeoPoint(1.0, 1.0);
    var booths := [Booth("Booth1", p0)];
    var dist: Distance := (a: GeoPoint, b: GeoPoint) => if a == b then 0.0 else 100.0;
    var draws := [[Draw(10, 0.5, 0.05)]];
    var s0 := Fleet([[p0, p1]], [0], [0], true);
    assert PaymentOf(draws[0][0]) == Delayed;
    assert FirstStop(p0, booths, dist, draws[0], 0) == 0;
    assert FirstHalt(s0, booths, dist, draws, 0) == 0;
    assert FirstDenial(s0, booths, dist, draws, 0) == 1;
    var u := TickUnbound(s0, booths, dist, draws);
    assert u.positions[0] == 0 && u.totals[0] == 0;
  }
}
