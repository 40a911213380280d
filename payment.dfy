/** The mock payment gateway: a pure rule over the two random rolls it draws. */
module Payment {

  /** What `process_payment` returns: `True`, `False` or `None`. */
  datatype Payment = Approved | Denied | Delayed

  /** A first roll below this is a failed payment. */
  const FAILURE_CHANCE: real := 0.2
  /** Otherwise a second roll below this is a delayed payment. */
  const DELAY_CHANCE: real := 0.1

  /** Python truthiness of the gateway's answer: only `True` is truthy,
      `False` and `None` are both falsy. */
  predicate Truthy(p: Payment) {
    p == Approved
  }

  /** The gateway's decision given its two rolls in [0, 1). */
  function ProcessPayment(failRoll: real, delayRoll: real): (p: Payment)
    ensures p == Denied <==> failRoll < FAILURE_CHANCE
    ensures p == Delayed <==> failRoll >= FAILURE_CHANCE && delayRoll < DELAY_CHANCE
    ensures Truthy(p) <==> failRoll >= FAILURE_CHANCE && delayRoll >= DELAY_CHANCE
  {
    if failRoll < FAILURE_CHANCE then Denied
    else if delayRoll < DELAY_CHANCE then Delayed
    else Approved
  }
}
