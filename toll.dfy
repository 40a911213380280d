/** Toll evaluation for one vehicle at one waypoint: the effective
    `calculate_toll` and the shadowed three-way definition before it. */
module Toll {
  import opened Geo
  import opened Payment
  import opened Registry
  import opened Maps

  /** Radius in kilometres within which a booth charges. */
  const TOLL_RADIUS: real := 5.0
  /** Smallest and largest toll amount `randint` may draw (both inclusive). */
  const TOLL_MIN: int := 5
  const TOLL_MAX: int := 15

  /** The geodesic distance in kilometres, left abstract. */
  type Distance = (GeoPoint, GeoPoint) -> real

  /** The random values one booth of the scan may consume: the `randint`
      amount and the gateway's two `random()` rolls. */
  datatype Draw = Draw(amount: int, failRoll: real, delayRoll: real)

  predicate ValidDraw(d: Draw) {
    TOLL_MIN <= d.amount <= TOLL_MAX && 0.0 <= d.failRoll < 1.0 && 0.0 <= d.delayRoll < 1.0
  }

  /** One draw per booth of the registry, each within the ranges of its random source. */
  predicate ValidDraws(booths: seq<Booth>, draws: seq<Draw>) {
    |draws| == |booths| && forall j :: 0 <= j < |draws| ==> ValidDraw(draws[j])
  }

  function PaymentOf(d: Draw): Payment {
    ProcessPayment(d.failRoll, d.delayRoll)
  }

  /** The booth is strictly inside the toll radius of `pos`. */
  predicate InRadius(dist: Distance, pos: GeoPoint, b: Booth) {
    dist(pos, b.location) < TOLL_RADIUS
  }

  /** Booth `j` is triggered and its payment is not truthy: the scan ends there. */
  predicate Stops(pos: GeoPoint, booths: seq<Booth>, dist: Distance, draws: seq<Draw>, j: int)
    requires 0 <= j < |booths| == |draws|
  {
    InRadius(dist, pos, booths[j]) && !Truthy(PaymentOf(draws[j]))
  }

  /** The first booth at or after `from` where the scan stops, or `|booths|` if none. */
  function FirstStop(pos: GeoPoint, booths: seq<Booth>, dist: Distance, draws: seq<Draw>, from: nat): (f: nat)
    requires |draws| == |booths| && from <= |booths|
    ensures from <= f <= |booths|
    ensures forall j :: from <= j < f ==> !Stops(pos, booths, dist, draws, j)
    ensures f < |booths| ==> Stops(pos, booths, dist, draws, f)
    decreases |booths| - from
  {
    if from == |booths| || Stops(pos, booths, dist, draws, from) then from
    else FirstStop(pos, booths, dist, draws, from + 1)
  }

  /** The `tolls` dictionary after charging every triggered booth among the first `n`. */
  function Charged(pos: GeoPoint, booths: seq<Booth>, dist: Distance, draws: seq<Draw>, n: nat): map<string, int>
    requires |draws| == |booths| && n <= |booths|
  {
    if n == 0 then map[]
    else if InRadius(dist, pos, booths[n - 1]) then Charged(pos, booths, dist, draws, n - 1)[booths[n - 1].name := draws[n - 1].amount]
    else Charged(pos, booths, dist, draws, n - 1)
  }

  /** The running `total_toll` after charging every triggered booth among the first `n`. */
  function ChargedTotal(pos: GeoPoint, booths: seq<Booth>, dist: Distance, draws: seq<Draw>, n: nat): int
    requires |draws| == |booths| && n <= |booths|
  {
    if n == 0 then 0
    else if InRadius(dist, pos, booths[n - 1]) then ChargedTotal(pos, booths, dist, draws, n - 1) + draws[n - 1].amount
    else ChargedTotal(pos, booths, dist, draws, n - 1)
  }

  /** The triple `(tolls, total_toll, status)` that `calculate_toll` returns. */
  datatype TollResult = TollResult(tolls: map<string, int>, total: int, confirmed: bool)

  /** The effective `calculate_toll`: charge triggered booths in registry order
      until one payment is not truthy; status is true only if none was. */
  function Evaluate(pos: GeoPoint, booths: seq<Booth>, dist: Distance, draws: seq<Draw>): TollResult
    requires |draws| == |booths|
  {
    var f := FirstStop(pos, booths, dist, draws, 0);
    TollResult(Charged(pos, booths, dist, draws, f), ChargedTotal(pos, booths, dist, draws, f), f == |booths|)
  }

  /** The triple of the shadowed definition, whose status is `True`, `False` or `None`. */
  datatype ShadowedResult = ShadowedResult(tolls: map<string, int>, total: int, status: Payment)

  /** The shadowed three-way `calculate_toll`: a denial returns `False`, a
      delay returns `None`, both with the tolls accrued so far. */
  function EvaluateShadowed(pos: GeoPoint, booths: seq<Booth>, dist: Distance, draws: seq<Draw>): ShadowedResult
    requires |draws| == |booths|
  {
    var f := FirstStop(pos, booths, dist, draws, 0);
    ShadowedResult(Charged(pos, booths, dist, draws, f), ChargedTotal(pos, booths, dist, draws, f),
                   if f == |booths| then Approved else PaymentOf(draws[f]))
  }

  // ---------------------------------------------------------------------------
  // Properties of the charged prefix

  /** The keys of the dictionary are exactly the names of the triggered booths among the first `n`. */
  lemma {:induction false} ChargedKeys(pos: GeoPoint, booths: seq<Booth>, dist: Distance, draws: seq<Draw>, n: nat, name: string)
    requires |draws| == |booths| && n <= |booths|
    ensures name in Charged(pos, booths, dist, draws, n) <==>
            exists j :: 0 <= j < n && InRadius(dist, pos, booths[j]) && booths[j].name == name
  {
    if n > 0 {
      ChargedKeys(pos, booths, dist, draws, n - 1, name);
    }
  }

  /** With distinct names, each triggered booth among the first `n` is charged its own drawn amount. */
  lemma {:induction false} ChargedAt(pos: GeoPoint, booths: seq<Booth>, dist: Distance, draws: seq<Draw>, n: nat, j: nat)
    requires |draws| == |booths| && n <= |booths| && DistinctNames(booths)
    requires j < n && InRadius(dist, pos, booths[j])
    ensures booths[j].name in Charged(pos, booths, dist, draws, n)
    ensures Charged(pos, booths, dist, draws, n)[booths[j].name] == draws[j].amount
  {
    if j < n - 1 {
      ChargedAt(pos, booths, dist, draws, n - 1, j);
    }
  }

  /** A charged name is never that of a booth at or after `n`. */
  lemma ChargedExcludesLater(pos: GeoPoint, booths: seq<Booth>, dist: Distance, draws: seq<Draw>, n: nat, k: nat)
    requires |draws| == |booths| && n <= k < |booths| && DistinctNames(booths)
    ensures booths[k].name !in Charged(pos, booths, dist, draws, n)
  {
    ChargedKeys(pos, booths, dist, draws, n, booths[k].name);
  }

  /** The running total is the sum of the dictionary's values, and lies between
      `TOLL_MIN` and `TOLL_MAX` times the number of charged booths. */
  lemma {:induction false} ChargedSum(pos: GeoPoint, booths: seq<Booth>, dist: Distance, draws: seq<Draw>, n: nat)
    requires ValidDraws(booths, draws) && n <= |booths| && DistinctNames(booths)
    ensures var m := Charged(pos, booths, dist, draws, n);
            && ChargedTotal(pos, booths, dist, draws, n) == MapSum(m)
            && TOLL_MIN * |m| <= ChargedTotal(pos, booths, dist, draws, n) <= TOLL_MAX * |m|
            && |m| <= n
  {
    if n > 0 {
      ChargedSum(pos, booths, dist, draws, n - 1);
      if InRadius(dist, pos, booths[n - 1]) {
        ChargedExcludesLater(pos, booths, dist, draws, n - 1, n - 1);
        MapSumAdd(Charged(pos, booths, dist, draws, n - 1), booths[n - 1].name, draws[n - 1].amount);
      }
    }
  }

  /** Every value in the dictionary is an amount `randint` can draw. */
  lemma {:induction false} ChargedAmounts(pos: GeoPoint, booths: seq<Booth>, dist: Distance, draws: seq<Draw>, n: nat, name: string)
    requires ValidDraws(booths, draws) && n <= |booths|
    requires name in Charged(pos, booths, dist, draws, n)
    ensures TOLL_MIN <= Charged(pos, booths, dist, draws, n)[name] <= TOLL_MAX
  {
    if name != booths[n - 1].name || !InRadius(dist, pos, booths[n - 1]) {
      ChargedAmounts(pos, booths, dist, draws, n - 1, name);
    }
  }

  // ---------------------------------------------------------------------------
  // Properties of the effective `calculate_toll`

  /** The returned total is the sum of the values of the returned dictionary,
      whatever the status, and is bounded by the number of charged booths. */
  lemma EvaluateTotal(pos: GeoPoint, booths: seq<Booth>, dist: Distance, draws: seq<Draw>)
    requires ValidDraws(booths, draws) && DistinctNames(booths)
    ensures var r := Evaluate(pos, booths, dist, draws);
            && r.total == MapSum(r.tolls)
            && TOLL_MIN * |r.tolls| <= r.total <= TOLL_MAX * |r.tolls|
            && |r.tolls| <= |booths|
  {
    ChargedSum(pos, booths, dist, draws, FirstStop(pos, booths, dist, draws, 0));
  }

  /** Only triggered booths whose payment went through appear in the
      dictionary, each with its own drawn amount in `[TOLL_MIN, TOLL_MAX]`. */
  lemma EvaluateChargesOnlyPaidBooths(pos: GeoPoint, booths: seq<Booth>, dist: Distance, draws: seq<Draw>, name: string)
    requires ValidDraws(booths, draws) && DistinctNames(booths)
    requires name in Evaluate(pos, booths, dist, draws).tolls
    ensures var r := Evaluate(pos, booths, dist, draws);
            && TOLL_MIN <= r.tolls[name] <= TOLL_MAX
            && exists j :: 0 <= j < |booths| && booths[j].name == name && InRadius(dist, pos, booths[j])
                           && Truthy(PaymentOf(draws[j])) && r.tolls[name] == draws[j].amount
  {
    var f := FirstStop(pos, booths, dist, draws, 0);
    ChargedKeys(pos, booths, dist, draws, f, name);
    ChargedAmounts(pos, booths, dist, draws, f, name);
    var j :| 0 <= j < f && InRadius(dist, pos, booths[j]) && booths[j].name == name;
    ChargedAt(pos, booths, dist, draws, f, j);
    assert !Stops(pos, booths, dist, draws, j);
  }

  /** The status is true exactly when every triggered booth's payment is truthy. */
  lemma EvaluateConfirmedIff(pos: GeoPoint, booths: seq<Booth>, dist: Distance, draws: seq<Draw>)
    requires |draws| == |booths|
    ensures Evaluate(pos, booths, dist, draws).confirmed <==>
            forall j :: 0 <= j < |booths| && InRadius(dist, pos, booths[j]) ==> Truthy(PaymentOf(draws[j]))
  {
    var f := FirstStop(pos, booths, dist, draws, 0);
    if f < |booths| {
      assert Stops(pos, booths, dist, draws, f);
    } else {
      forall j | 0 <= j < |booths| && InRadius(dist, pos, booths[j])
        ensures Truthy(PaymentOf(draws[j]))
      {
        assert !Stops(pos, booths, dist, draws, j);
      }
    }
  }

  /** A true status charges exactly the triggered booths, each its drawn amount. */
  lemma EvaluateConfirmed(pos: GeoPoint, booths: seq<Booth>, dist: Distance, draws: seq<Draw>, j: nat)
    requires |draws| == |booths| && DistinctNames(booths)
    requires Evaluate(pos, booths, dist, draws).confirmed && j < |booths|
    ensures var r := Evaluate(pos, booths, dist, draws);
            && (booths[j].name in r.tolls <==> InRadius(dist, pos, booths[j]))
            && (InRadius(dist, pos, booths[j]) ==> r.tolls[booths[j].name] == draws[j].amount)
  {
    if InRadius(dist, pos, booths[j]) {
      ChargedAt(pos, booths, dist, draws, |booths|, j);
    } else {
      ChargedKeys(pos, booths, dist, draws, |booths|, booths[j].name);
    }
  }

  /** With no booth in radius the result is `({}, 0, True)`. */
  lemma {:induction false} EvaluateNoBoothInRadius(pos: GeoPoint, booths: seq<Booth>, dist: Distance, draws: seq<Draw>)
    requires |draws| == |booths|
    requires forall j :: 0 <= j < |booths| ==> !InRadius(dist, pos, booths[j])
    ensures Evaluate(pos, booths, dist, draws) == TollResult(map[], 0, true)
  {
    ChargedNone(pos, booths, dist, draws, |booths|);
  }

  lemma {:induction false} ChargedNone(pos: GeoPoint, booths: seq<Booth>, dist: Distance, draws: seq<Draw>, n: nat)
    requires |draws| == |booths| && n <= |booths|
    requires forall j :: 0 <= j < n ==> !InRadius(dist, pos, booths[j])
    ensures Charged(pos, booths, dist, draws, n) == map[] && ChargedTotal(pos, booths, dist, draws, n) == 0
  {
    if n > 0 {
      ChargedNone(pos, booths, dist, draws, n - 1);
    }
  }

  /** A false status comes from the first triggered booth `f` whose payment is
      not truthy: every triggered booth before it paid, the dictionary holds
      exactly those, and neither `f` nor any later booth is charged. */
  lemma EvaluateStopped(pos: GeoPoint, booths: seq<Booth>, dist: Distance, draws: seq<Draw>)
    requires |draws| == |booths| && DistinctNames(booths)
    requires !Evaluate(pos, booths, dist, draws).confirmed
    ensures var f := FirstStop(pos, booths, dist, draws, 0);
            var r := Evaluate(pos, booths, dist, draws);
            && f < |booths| && InRadius(dist, pos, booths[f]) && !Truthy(PaymentOf(draws[f]))
            && (forall j :: 0 <= j < f && InRadius(dist, pos, booths[j]) ==> Truthy(PaymentOf(draws[j])))
            && (forall j :: 0 <= j < f ==> (booths[j].name in r.tolls <==> InRadius(dist, pos, booths[j])))
            && (forall k :: f <= k < |booths| ==> booths[k].name !in r.tolls)
  {
    var f := FirstStop(pos, booths, dist, draws, 0);
    assert Stops(pos, booths, dist, draws, f);
    forall j | 0 <= j < f && InRadius(dist, pos, booths[j])
      ensures Truthy(PaymentOf(draws[j]))
    {
      assert !Stops(pos, booths, dist, draws, j);
    }
    forall j | 0 <= j < f
      ensures booths[j].name in Charged(pos, booths, dist, draws, f) <==> InRadius(dist, pos, booths[j])
    {
      if InRadius(dist, pos, booths[j]) {
        ChargedAt(pos, booths, dist, draws, f, j);
      } else {
        ChargedKeys(pos, booths, dist, draws, f, booths[j].name);
      }
    }
    forall k | f <= k < |booths|
      ensures booths[k].name !in Charged(pos, booths, dist, draws, f)
    {
      ChargedExcludesLater(pos, booths, dist, draws, f, k);
    }
  }

  /** Booths after the one that stopped the scan are never examined: replacing
      them, or the draws for them, leaves the result as it was. */
  lemma EvaluateIgnoresLaterBooths(pos: GeoPoint, booths: seq<Booth>, dist: Distance, draws: seq<Draw>,
                                   booths': seq<Booth>, draws': seq<Draw>)
    requires |draws| == |booths| && |draws'| == |booths'|
    requires FirstStop(pos, booths, dist, draws, 0) < |booths|
    requires FirstStop(pos, booths, dist, draws, 0) < |booths'|
    requires forall j :: 0 <= j <= FirstStop(pos, booths, dist, draws, 0) ==> booths'[j] == booths[j] && draws'[j] == draws[j]
    ensures Evaluate(pos, booths', dist, draws') == Evaluate(pos, booths, dist, draws)
  {
    var f := FirstStop(pos, booths, dist, draws, 0);
    FirstStopPrefix(pos, booths, dist, draws, booths', draws', f, 0);
    ChargedPrefix(pos, booths, dist, draws, booths', draws', f);
  }

  lemma {:induction false} FirstStopPrefix(pos: GeoPoint, booths: seq<Booth>, dist: Distance, draws: seq<Draw>,
                                           booths': seq<Booth>, draws': seq<Draw>, f: nat, from: nat)
    requires |draws| == |booths| && |draws'| == |booths'|
    requires from <= f < |booths| && f < |booths'| && f == FirstStop(pos, booths, dist, draws, from)
    requires forall j :: from <= j <= f ==> booths'[j] == booths[j] && draws'[j] == draws[j]
    ensures FirstStop(pos, booths', dist, draws', from) == f
    decreases f - from
  {
    if from < f {
      assert !Stops(pos, booths, dist, draws, from);
      FirstStopPrefix(pos, booths, dist, draws, booths', draws', f, from + 1);
    }
  }

  lemma {:induction false} ChargedPrefix(pos: GeoPoint, booths: seq<Booth>, dist: Distance, draws: seq<Draw>,
                                         booths': seq<Booth>, draws': seq<Draw>, n: nat)
    requires |draws| == |booths| && |draws'| == |booths'| && n <= |booths| && n <= |booths'|
    requires forall j :: 0 <= j < n ==> booths'[j] == booths[j] && draws'[j] == draws[j]
    ensures Charged(pos, booths', dist, draws', n) == Charged(pos, booths, dist, draws, n)
    ensures ChargedTotal(pos, booths', dist, draws', n) == ChargedTotal(pos, booths, dist, draws, n)
  {
    if n > 0 {
      ChargedPrefix(pos, booths, dist, draws, booths', draws', n - 1);
    }
  }

  // ---------------------------------------------------------------------------
  // Properties of the shadowed three-way definition

  /** The shadowed definition charges the same booths and the same total as
      the effective one; only its status keeps a delay apart from a denial. */
  lemma ShadowedAgrees(pos: GeoPoint, booths: seq<Booth>, dist: Distance, draws: seq<Draw>)
    requires |draws| == |booths|
    ensures var s := EvaluateShadowed(pos, booths, dist, draws);
            var r := Evaluate(pos, booths, dist, draws);
            && s.tolls == r.tolls && s.total == r.total
            && (s.status == Approved <==> r.confirmed)
  {
    var f := FirstStop(pos, booths, dist, draws, 0);
    if f < |booths| {
      assert Stops(pos, booths, dist, draws, f);
    }
  }

  /** A `None` status means the first non-truthy triggered booth was delayed,
      a `False` status that it was denied; that booth is not charged. */
  lemma ShadowedStatus(pos: GeoPoint, booths: seq<Booth>, dist: Distance, draws: seq<Draw>)
    requires |draws| == |booths| && DistinctNames(booths)
    ensures var s := EvaluateShadowed(pos, booths, dist, draws);
            var f := FirstStop(pos, booths, dist, draws, 0);
            && (s.status == Delayed ==> f < |booths| && InRadius(dist, pos, booths[f]) && PaymentOf(draws[f]) == Delayed
                                        && booths[f].name !in s.tolls)
            && (s.status == Denied ==> f < |booths| && InRadius(dist, pos, booths[f]) && PaymentOf(draws[f]) == Denied
                                       && booths[f].name !in s.tolls)
  {
    var f := FirstStop(pos, booths, dist, draws, 0);
    if f < |booths| {
      assert Stops(pos, booths, dist, draws, f);
      ChargedExcludesLater(pos, booths, dist, draws, f, f);
    }
  }

  // ---------------------------------------------------------------------------
  // The two definitions as the loops they are

  /** The effective `calculate_toll`. */
  method CalculateToll(pos: GeoPoint, booths: seq<Booth>, dist: Distance, draws: seq<Draw>)
    returns (tolls: map<string, int>, total: int, confirmed: bool)
    requires ValidDraws(booths, draws) && DistinctNames(booths)
    ensures TollResult(tolls, total, confirmed) == Evaluate(pos, booths, dist, draws)
    ensures total == MapSum(tolls)
  {
    ghost var f := FirstStop(pos, booths, dist, draws, 0);
    tolls, total := map[], 0;
    for i := 0 to |booths|
      invariant i <= f
      invariant tolls == Charged(pos, booths, dist, draws, i)
      invariant total == ChargedTotal(pos, booths, dist, draws, i)
      invariant total == MapSum(tolls)
    {
      if dist(pos, booths[i].location) < TOLL_RADIUS {
        var toll := draws[i].amount;
        if Truthy(ProcessPayment(draws[i].failRoll, draws[i].delayRoll)) {
          ChargedExcludesLater(pos, booths, dist, draws, i, i);
          MapSumAdd(tolls, booths[i].name, toll);
          tolls := tolls[booths[i].name := toll];
          total := total + toll;
        } else {
          assert Stops(pos, booths, dist, draws, i);
          return tolls, total, false;
        }
      }
    }
    return tolls, total, true;
  }

  /** The shadowed three-way `calculate_toll`. */
  method CalculateTollShadowed(pos: GeoPoint, booths: seq<Booth>, dist: Distance, draws: seq<Draw>)
    returns (tolls: map<string, int>, total: int, status: Payment)
    requires ValidDraws(booths, draws)
    ensures ShadowedResult(tolls, total, status) == EvaluateShadowed(pos, booths, dist, draws)
  {
    ghost var f := FirstStop(pos, booths, dist, draws, 0);
    tolls, total := map[], 0;
    for i := 0 to |booths|
      invariant i <= f
      invariant tolls == Charged(pos, booths, dist, draws, i)
      invariant total == ChargedTotal(pos, booths, dist, draws, i)
    {
      if dist(pos, booths[i].location) < TOLL_RADIUS {
        var toll := draws[i].amount;
        var payment := ProcessPayment(draws[i].failRoll, draws[i].delayRoll);
        if payment == Denied {
          assert Stops(pos, booths, dist, draws, i);
          return tolls, total, Denied;
        } else if payment == Delayed {
          assert Stops(pos, booths, dist, draws, i);
          return tolls, total, Delayed;
        } else {
          tolls := tolls[booths[i].name := toll];
          total := total + toll;
        }
      }
    }
    return tolls, total, Approved;
  }
}
