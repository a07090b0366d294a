/** Rules: a time-of-day window, a once-a-day guard and a requested pump
    run length. The abstract `Rule` class with its subclasses becomes one
    datatype with a closed set of kinds. */
module Ruling {
  import opened Wrappers
  import opened Clock
  import opened ControllerEnums

  /** A time rule fires on the window alone; a measure rule also compares
      the sensor value with the constant `rValue`. */
  datatype RuleKind = TimeRule | MeasureRule(comparator: Comparator, rValue: real)

  /** `lastRun` is the timestamp of the last fire, `None` before the first. */
  datatype Rule = Rule(
    timeFrom: TimeOfDay,
    timeTo: TimeOfDay,
    pumpSeconds: int,
    lastRun: Option<DateTime>,
    kind: RuleKind)

  /** `Rule.__init__` for a time rule. */
  function NewTimeRule(timeFrom: TimeOfDay, timeTo: TimeOfDay, pumpSeconds: int): (r: Rule)
    ensures r.lastRun == None && r.kind == TimeRule
    ensures r.timeFrom == timeFrom && r.timeTo == timeTo && r.pumpSeconds == pumpSeconds
  {
    Rule(timeFrom, timeTo, pumpSeconds, None, TimeRule)
  }

  /** `MeasureRule.__init__`, with the run length that the configuration
      loader passes and the base constructor expects. */
  function NewMeasureRule(
    timeFrom: TimeOfDay, timeTo: TimeOfDay, comparator: Comparator, rValue: real, pumpSeconds: int
  ): (r: Rule)
    ensures r.lastRun == None && r.kind == MeasureRule(comparator, rValue)
    ensures r.timeFrom == timeFrom && r.timeTo == timeTo && r.pumpSeconds == pumpSeconds
  {
    Rule(timeFrom, timeTo, pumpSeconds, None, MeasureRule(comparator, rValue))
  }

  /** `Rule._shouldCheck`: inside the inclusive window and not yet run on
      this calendar date. An absent `lastRun` counts as "never ran", as the
      constructor's documentation says; the Python expression would call
      `datetime.date(None)` and raise instead (see ShouldCheckAsWritten). */
  predicate ShouldCheck(rule: Rule, now: DateTime) {
    && rule.timeFrom <= now.time
    && rule.timeTo >= now.time
    && (rule.lastRun.None? || rule.lastRun.value.day != now.day)
  }

  /** Eligibility implies the time of day lies in the window. */
  lemma ShouldCheckInWindow(rule: Rule, now: DateTime)
    requires ShouldCheck(rule, now)
    ensures rule.timeFrom <= now.time <= rule.timeTo
  {
  }

  /** Both ends of the window are eligible for a rule that has not run today. */
  lemma WindowInclusive(rule: Rule, now: DateTime)
    requires rule.timeFrom <= rule.timeTo
    requires rule.lastRun.None? || rule.lastRun.value.day != now.day
    requires now.time == rule.timeFrom || now.time == rule.timeTo
    ensures ShouldCheck(rule, now)
  {
  }

  /** A rule that ran on `now`'s date is not eligible, whatever the time. */
  lemma SameDateNotEligible(rule: Rule, now: DateTime)
    requires rule.lastRun.Some? && rule.lastRun.value.day == now.day
    ensures !ShouldCheck(rule, now)
  {
  }

  /** A window whose start is after its end is never eligible: no wrap past midnight. */
  lemma InvertedWindowNeverEligible(rule: Rule, now: DateTime)
    requires rule.timeFrom > rule.timeTo
    ensures !ShouldCheck(rule, now)
  {
  }

  /** Inside the window, a rule that never ran or last ran on an earlier date is eligible. */
  lemma EarlierDateEligible(rule: Rule, now: DateTime)
    requires rule.timeFrom <= now.time <= rule.timeTo
    requires rule.lastRun.None? || rule.lastRun.value.day < now.day
    ensures ShouldCheck(rule, now)
  {
  }

  /** `MeasureRule._compare`: the current value on the left, the constant on the right. */
  predicate Compare(c: Comparator, v: real, r: real) {
    match c
    case Lesser => v < r
    case LesserOrEqual => v <= r
    case Equal => v == r
    case GreaterOrEqual => v >= r
    case Greater => v > r
  }

  /** The non-strict comparators are the disjunction of a strict one and equality. */
  lemma CompareNonStrictSplits(v: real, r: real)
    ensures Compare(LesserOrEqual, v, r) <==> Compare(Lesser, v, r) || Compare(Equal, v, r)
    ensures Compare(GreaterOrEqual, v, r) <==> Compare(Greater, v, r) || Compare(Equal, v, r)
  {
  }

  /** Exactly one of the strict comparators and equality holds, and the
      "greater" comparators are the "lesser" ones with the sides swapped. */
  lemma CompareTrichotomy(v: real, r: real)
    ensures Compare(Lesser, v, r) || Compare(Equal, v, r) || Compare(Greater, v, r)
    ensures !(Compare(Lesser, v, r) && Compare(Equal, v, r))
    ensures !(Compare(Lesser, v, r) && Compare(Greater, v, r))
    ensures !(Compare(Equal, v, r) && Compare(Greater, v, r))
    ensures Compare(Greater, v, r) <==> Compare(Lesser, r, v)
    ensures Compare(GreaterOrEqual, v, r) <==> Compare(LesserOrEqual, r, v)
  {
  }

  /** `getPumpSeconds`: the rule's run length when it fires, 0 otherwise.
      A measure rule never fires without a sensor value. */
  function PumpSeconds(rule: Rule, now: DateTime, value: Option<real>): (s: int)
    ensures s == 0 || s == rule.pumpSeconds
    ensures s != 0 ==> ShouldCheck(rule, now)
    ensures s != 0 && rule.kind.MeasureRule? ==>
              value.Some? && Compare(rule.kind.comparator, value.value, rule.kind.rValue)
  {
    match rule.kind
    case TimeRule =>
      if ShouldCheck(rule, now) then rule.pumpSeconds else 0
    case MeasureRule(c, rValue) =>
      if ShouldCheck(rule, now) && value.Some? && Compare(c, value.value, rValue)
      then rule.pumpSeconds else 0
  }

  /** A rule fires (yields a positive run length) exactly when it is
      eligible, asks for a positive run length and, for a measure rule, the
      present sensor value satisfies its comparison. */
  lemma FiresIff(rule: Rule, now: DateTime, value: Option<real>)
    ensures PumpSeconds(rule, now, value) > 0 <==>
              && rule.pumpSeconds > 0
              && ShouldCheck(rule, now)
              && (rule.kind.TimeRule? ||
                  (value.Some? && Compare(rule.kind.comparator, value.value, rule.kind.rValue)))
  {
  }

  /** Once `lastRun` records a fire at `t`, the rule cannot fire again on t's date. */
  lemma NoSecondFireSameDate(rule: Rule, t: DateTime, later: DateTime, value: Option<real>)
    requires later.day == t.day
    ensures PumpSeconds(rule.(lastRun := Some(t)), later, value) == 0
  {
  }

  /** The morning scenario: a 06:00-07:00 time rule of 30 seconds fires at
      06:30 on day d, not again at 06:45 that day, and again at 06:15 on d+1. */
  lemma MorningScenario(d: int)
    ensures var rule := NewTimeRule(6 * 3600 * MicrosPerSecond, 7 * 3600 * MicrosPerSecond, 30);
            var first := DateTime(d, 6 * 3600 * MicrosPerSecond + 30 * 60 * MicrosPerSecond);
            var fired := rule.(lastRun := Some(first));
            && PumpSeconds(rule, first, None) == 30
            && PumpSeconds(fired, DateTime(d, 6 * 3600 * MicrosPerSecond + 45 * 60 * MicrosPerSecond), None) == 0
            && PumpSeconds(fired, DateTime(d + 1, 6 * 3600 * MicrosPerSecond + 15 * 60 * MicrosPerSecond), None) == 30
  {
  }

  /** A measure rule "<= 20" fires on 15 and not on 25 inside its window, and
      not at all outside it. */
  lemma ThresholdScenario(rule: Rule, inside: DateTime, outside: DateTime)
    requires rule == NewMeasureRule(6 * 3600 * MicrosPerSecond, 7 * 3600 * MicrosPerSecond, LesserOrEqual, 20.0, 30)
    requires rule.timeFrom <= inside.time <= rule.timeTo
    requires outside.time < rule.timeFrom || outside.time > rule.timeTo
    ensures PumpSeconds(rule, inside, Some(15.0)) == 30
    ensures PumpSeconds(rule, inside, Some(25.0)) == 0
    ensures PumpSeconds(rule, outside, Some(15.0)) == 0
  {
  }

  // ---------------------------------------------------------------------
  // The rule code as written, kept beside the corrected definitions above.

  /** `_shouldCheck` as written: `and` short-circuits, so outside the window
      the result is false, but inside it `datetime.date(None)` raises for a
      rule that never ran (`None` here). */
  function ShouldCheckAsWritten(rule: Rule, now: DateTime): (r: Option<bool>)
    ensures r.Some? ==> r.value == ShouldCheck(rule, now)
  {
    if !(rule.timeFrom <= now.time && rule.timeTo >= now.time) then Some(false)
    else if rule.lastRun.None? then None
    else Some(rule.lastRun.value.day != now.day)
  }

  /** As written, a fresh rule raises the first time it is checked inside
      its window, where the corrected predicate makes it eligible. */
  lemma FreshRuleRaisesAsWritten(rule: Rule, now: DateTime)
    requires rule.lastRun.None? && rule.timeFrom <= now.time <= rule.timeTo
    ensures ShouldCheckAsWritten(rule, now) == None
    ensures ShouldCheck(rule, now)
  {
  }

  /** What `MeasureRule.getPumpSeconds` as written gives back: it raises
      (TypeError from `_shouldCheck` on a rule that never ran), falls off
      the end outside the window (`None`), or returns the boolean of
      `_compare`. */
  datatype MeasureSecondsAsWritten = Raising | NoneReturned | FlagReturned(fired: bool)

  /** `MeasureRule.getPumpSeconds` as written, for a present sensor value,
      with `_shouldCheck` as written. */
  function MeasurePumpSecondsAsWritten(rule: Rule, now: DateTime, value: real): (r: MeasureSecondsAsWritten)
    requires rule.kind.MeasureRule?
    ensures r.Raising? <==> ShouldCheckAsWritten(rule, now).None?
    ensures r.NoneReturned? <==> ShouldCheckAsWritten(rule, now) == Some(false)
    ensures r.FlagReturned? ==>
              ShouldCheck(rule, now) && (r.fired <==> Compare(rule.kind.comparator, value, rule.kind.rValue))
  {
    match ShouldCheckAsWritten(rule, now)
    case None => Raising
    case Some(eligible) =>
      if eligible then FlagReturned(Compare(rule.kind.comparator, value, rule.kind.rValue))
      else NoneReturned
  }

  /** The value the MeasureController's `seconds > 0` compares: `None`
      when that comparison raises (Python 3 refuses `None > 0`) or the rule
      itself raised, otherwise the boolean as the integer 1 or 0. Only 1
      passes the test, so `True` becomes a 1-second `pump` call and `False`
      no call at all. */
  function RequestedSecondsAsWritten(r: MeasureSecondsAsWritten): (n: Option<int>)
    ensures n.Some? <==> r.FlagReturned?
    ensures n.Some? ==> (n.value == 1 <==> r.fired) && (n.value == 0 <==> !r.fired)
  {
    match r
    case FlagReturned(fired) => Some(if fired then 1 else 0)
    case _ => None
  }

  /** As written, a firing 30-second measure rule asks for 1 second. The
      rule last ran on an earlier day, so the raise of `_shouldCheck` on a
      rule that never ran is not what is shown here. */
  lemma MeasureRuleAsWrittenAsksOneSecond(now: DateTime)
    requires 6 * 3600 * MicrosPerSecond <= now.time <= 7 * 3600 * MicrosPerSecond
    ensures var rule := NewMeasureRule(6 * 3600 * MicrosPerSecond, 7 * 3600 * MicrosPerSecond, LesserOrEqual, 20.0, 30)
                          .(lastRun := Some(DateTime(now.day - 1, 0)));
            && MeasurePumpSecondsAsWritten(rule, now, 15.0) == FlagReturned(true)
            && RequestedSecondsAsWritten(MeasurePumpSecondsAsWritten(rule, now, 15.0)) == Some(1)
            && PumpSeconds(rule, now, Some(15.0)) == 30
  {
  }

  /** As written, outside its window a measure rule returns `None`, and the
      controller's `seconds > 0` on it raises, where the corrected rule
      asks for nothing. */
  lemma OutsideWindowRaisesAsWritten(rule: Rule, now: DateTime, value: real)
    requires rule.kind.MeasureRule?
    requires now.time < rule.timeFrom || now.time > rule.timeTo
    ensures MeasurePumpSecondsAsWritten(rule, now, value) == NoneReturned
    ensures RequestedSecondsAsWritten(MeasurePumpSecondsAsWritten(rule, now, value)) == None
    ensures PumpSeconds(rule, now, Some(value)) == 0
  {
  }
}
