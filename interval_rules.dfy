/**
 * The pieces of the service-interval rule that the dashboard's overview, the
 * interval card and the assistant's context builder share: the first-service
 * special case for the effective interval, and the clamped percentage of the
 * interval still left.
 *
 * A division by a zero interval gives an infinity or NaN in JavaScript: the
 * percentage is then 100 or 0 after clamping, or `None` for NaN.
 */
module IntervalRules {
  import opened Common
  import opened Domain

  datatype Status = Ok | Warning | Critical

  /**
   * `isFirstService && prvni_servis_mth ? prvni_servis_mth : interval_mth`:
   * the first-service interval applies only while no service with a non-zero
   * counter is on record and the interval defines a non-zero first service.
   */
  function EffectiveInterval(lastMth: real, iv: ServiceInterval): (e: real)
    ensures lastMth != 0.0 ==> e == iv.intervalMth
    ensures lastMth == 0.0 && TruthyNum(iv.prvniServisMth) ==> e == iv.prvniServisMth.value
    ensures lastMth == 0.0 && !TruthyNum(iv.prvniServisMth) ==> e == iv.intervalMth
  {
    if lastMth == 0.0 && TruthyNum(iv.prvniServisMth) then iv.prvniServisMth.value else iv.intervalMth
  }

  /** `Math.max(0, Math.min(100, x))`. */
  function Clamp(x: real): (r: real)
    ensures 0.0 <= r <= 100.0
    ensures 0.0 <= x <= 100.0 ==> r == x
    ensures x < 0.0 ==> r == 0.0
    ensures x > 100.0 ==> r == 100.0
  {
    if x > 100.0 then 100.0 else if x < 0.0 then 0.0 else x
  }

  /** The clamped value of `(remaining / effective) * 100`; `None` stands for NaN. */
  function PercentRemaining(remaining: real, effective: real): (r: Option<real>)
    ensures r.None? <==> effective == 0.0 && remaining == 0.0
    ensures r.Some? ==> 0.0 <= r.value <= 100.0
  {
    if effective == 0.0 then
      (if remaining > 0.0 then Some(100.0) else if remaining < 0.0 then Some(0.0) else None)
    else Some(Clamp(remaining / effective * 100.0))
  }

  /**
   * For a positive interval the bar is full exactly when a whole interval or
   * more is left, and empty exactly when the service is due.
   */
  lemma PercentBounds(remaining: real, effective: real)
    requires effective > 0.0
    ensures PercentRemaining(remaining, effective) == Some(100.0) <==> remaining >= effective
    ensures PercentRemaining(remaining, effective) == Some(0.0) <==> remaining <= 0.0
  {
    var q := remaining / effective;
    assert remaining == q * effective;
    assert q * 100.0 >= 100.0 <==> q >= 1.0;
    assert q >= 1.0 <==> remaining >= effective by {
      if q >= 1.0 {
        assert q * effective >= 1.0 * effective;
      }
      if remaining >= effective {
        assert q * effective >= 1.0 * effective;
      }
    }
  }
}
