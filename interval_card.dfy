/**
 * The service-interval card. It applies the same first-service rule as the
 * overview, but its warning threshold is 20 % of the effective interval
 * rather than a fixed 20 counter hours, so the two can disagree.
 */
module IntervalCard {
  import opened Common
  import opened Domain
  import opened IntervalRules
  import IntervalsOverview

  datatype CardState = CardState(nextServiceMth: real, remainingMth: real, percentRemaining: Option<real>, status: Status)

  /** The card's status: critical at or below 0 left, warning up to a fifth of the interval. */
  function CardStatus(remaining: real, effective: real): (s: Status)
    ensures s == Critical <==> remaining <= 0.0
    ensures s == Warning <==> 0.0 < remaining <= effective * 0.2
    ensures s == Ok <==> remaining > 0.0 && remaining > effective * 0.2
  {
    if remaining <= 0.0 then Critical
    else if remaining <= effective * 0.2 then Warning
    else Ok
  }

  /** The card for an interval; `lastServiceMth` defaults to 0 when the caller passes none. */
  function Card(iv: ServiceInterval, currentMth: real, lastServiceMth: Option<real>): (c: CardState)
    ensures var last := Coalesce(lastServiceMth, 0.0);
      && c.nextServiceMth == last + EffectiveInterval(last, iv)
      && c.remainingMth == c.nextServiceMth - currentMth
      && c.status == CardStatus(c.remainingMth, EffectiveInterval(last, iv))
      && c.percentRemaining == PercentRemaining(c.remainingMth, EffectiveInterval(last, iv))
  {
    var last := Coalesce(lastServiceMth, 0.0);
    var eff := EffectiveInterval(last, iv);
    var next := last + eff;
    var remaining := next - currentMth;
    CardState(next, remaining, PercentRemaining(remaining, eff), CardStatus(remaining, eff))
  }

  /** For an interval of at most 100 hours, every card warning is also an overview warning... */
  lemma CardWarningWithinOverview(remaining: real, effective: real)
    requires 0.0 <= effective <= 100.0
    requires CardStatus(remaining, effective) == Warning
    ensures IntervalsOverview.OverviewStatus(remaining) == Warning
  {
  }

  /** ...but the converse fails: 15 hours left of a 50-hour interval is a warning on the overview only. */
  lemma ThresholdsDiffer()
    ensures IntervalsOverview.OverviewStatus(15.0) == Warning
    ensures CardStatus(15.0, 50.0) == Ok
  {
  }

  /** The two agree on critical for every input. */
  lemma CriticalAgrees(remaining: real, effective: real)
    ensures (CardStatus(remaining, effective) == Critical) == (IntervalsOverview.OverviewStatus(remaining) == Critical)
  {
  }
}
