/** Controllers: each binds one sensor and a list of rules to one pump
    number. A tick of the controller loop evaluates every rule and asks the
    Pumper for the run length of each rule that fires. The abstract
    `Controller` class with its two subclasses becomes one class with a
    closed `kind`: a measure controller reads the clock afresh for every
    rule and never records a fire, a time controller reads the clock once
    per tick and records every fire in the rule's `lastRun`. */
module Controllers {
  import opened Wrappers
  import opened Clock
  import opened Lifecycle
  import opened Ruling
  import opened Pumping
  import opened Sensors
  import opened ControllerEnums

  // ---------------------------------------------------------------------
  // What one tick asks of the Pumper.

  /** The pump requests a controller issues for the first `n` of the run
      lengths `secs`, in order: one for each positive run length, none for
      the others. */
  function Requests(pumpNr: int, secs: seq<int>, n: nat): seq<Request>
    requires n <= |secs|
  {
    if n == 0 then []
    else Requests(pumpNr, secs, n - 1) + (if secs[n - 1] > 0 then [Request(pumpNr, secs[n - 1] as real)] else [])
  }

  /** Requests are issued rule by rule: those for fewer rules are a prefix
      of those for more. */
  lemma {:induction false} RequestsPrefix(pumpNr: int, secs: seq<int>, m: nat, n: nat)
    requires m <= n <= |secs|
    ensures Requests(pumpNr, secs, m) <= Requests(pumpNr, secs, n)
  {
    if m < n {
      RequestsPrefix(pumpNr, secs, m, n - 1);
      var a, b := Requests(pumpNr, secs, m), Requests(pumpNr, secs, n - 1);
      assert Requests(pumpNr, secs, n)[..|b|] == b;
      assert b[..|a|] == a;
    }
  }

  /** Every request is for the controller's own pump and asks for a positive time. */
  lemma {:induction false} RequestsForOwnPump(pumpNr: int, secs: seq<int>, n: nat)
    requires n <= |secs|
    ensures forall k :: 0 <= k < |Requests(pumpNr, secs, n)| ==>
              Requests(pumpNr, secs, n)[k].pumpNr == pumpNr && Requests(pumpNr, secs, n)[k].seconds > 0.0
  {
    if n > 0 {
      RequestsForOwnPump(pumpNr, secs, n - 1);
    }
  }

  /** No request is issued exactly when none of the run lengths is positive. */
  lemma {:induction false} NoRequestsIff(pumpNr: int, secs: seq<int>, n: nat)
    requires n <= |secs|
    ensures Requests(pumpNr, secs, n) == [] <==> forall i :: 0 <= i < n ==> secs[i] <= 0
  {
    if n > 0 {
      NoRequestsIff(pumpNr, secs, n - 1);
    }
  }

  /** The total time a list of requests asks for. */
  function Total(reqs: seq<Request>): real {
    if reqs == [] then 0.0 else reqs[0].seconds + Total(reqs[1..])
  }

  lemma {:induction false} TotalAppend(a: seq<Request>, b: seq<Request>)
    ensures Total(a + b) == Total(a) + Total(b)
  {
    if a == [] {
      assert a + b == b;
    } else {
      assert (a + b)[1..] == a[1..] + b;
      TotalAppend(a[1..], b);
    }
  }

  /** The Pumper's map after `reqs` were issued one by one for `pumpNr`:
      the pump's budget grows by their total, or, for an unregistered
      number, the first request raises and nothing changes. */
  function PumpsAfter(pumps: map<int, PumpState>, pumpNr: int, reqs: seq<Request>): map<int, PumpState> {
    if pumpNr in pumps then pumps[pumpNr := pumps[pumpNr].(seconds := pumps[pumpNr].seconds + Total(reqs))]
    else pumps
  }

  /** One more accepted request adds its time to the pump's budget. */
  lemma PumpsAfterSnoc(pumps: map<int, PumpState>, pumpNr: int, reqs: seq<Request>, r: Request)
    requires pumpNr in pumps
    ensures var before := PumpsAfter(pumps, pumpNr, reqs);
            PumpsAfter(pumps, pumpNr, reqs + [r]) ==
              before[pumpNr := before[pumpNr].(seconds := before[pumpNr].seconds + r.seconds)]
  {
    TotalAppend(reqs, [r]);
    assert Total([r]) == r.seconds + Total([]);
  }

  /** The `pump` calls actually made: all of them, or up to the first, which raises. */
  function CallsMade(pumps: map<int, PumpState>, pumpNr: int, reqs: seq<Request>): seq<Request> {
    if pumpNr in pumps || reqs == [] then reqs else [reqs[0]]
  }

  /** Whether issuing `reqs` raises out of the tick. */
  predicate Raises(pumps: map<int, PumpState>, pumpNr: int, reqs: seq<Request>) {
    pumpNr !in pumps && reqs != []
  }

  // ---------------------------------------------------------------------
  // Rule evaluation of the two controller kinds.

  /** MeasureController: rule i evaluated at the i-th clock reading of the
      tick against the sensor's current value. */
  function MeasureSeconds(rules: seq<Rule>, readings: nat -> DateTime, value: Option<real>): seq<int> {
    seq(|rules|, i requires 0 <= i < |rules| => PumpSeconds(rules[i], readings(i), value))
  }

  /** TimeController: every rule evaluated at the one timestamp of the tick,
      without a sensor value. */
  function TimeSeconds(rules: seq<Rule>, now: DateTime): seq<int> {
    seq(|rules|, i requires 0 <= i < |rules| => PumpSeconds(rules[i], now, None))
  }

  /** One rule after a time tick in which it yielded `seconds`. */
  function Fired(rule: Rule, seconds: int, now: DateTime): Rule {
    if seconds > 0 then rule.(lastRun := Some(now)) else rule
  }

  /** The TimeController's rules after a tick at `now` in which no request raised. */
  function FireAll(rules: seq<Rule>, now: DateTime): seq<Rule> {
    seq(|rules|, i requires 0 <= i < |rules| => Fired(rules[i], PumpSeconds(rules[i], now, None), now))
  }

  /** A tick changes no rule but the `lastRun` of those that fired, which
      becomes the tick's timestamp. */
  lemma FireAllRecordsFires(rules: seq<Rule>, now: DateTime)
    ensures |FireAll(rules, now)| == |rules|
    ensures forall i :: 0 <= i < |rules| ==>
              && FireAll(rules, now)[i] == rules[i].(lastRun := FireAll(rules, now)[i].lastRun)
              && FireAll(rules, now)[i].lastRun ==
                   if TimeSeconds(rules, now)[i] > 0 then Some(now) else rules[i].lastRun
  {
  }

  /** Once-a-day: a rule that fired in a tick does not fire in any later
      tick on the same date, and a rule that did not fire is left as it was. */
  lemma SecondTickSameDate(rules: seq<Rule>, now: DateTime, later: DateTime)
    requires later.day == now.day
    ensures forall i :: 0 <= i < |rules| && TimeSeconds(rules, now)[i] > 0 ==>
              TimeSeconds(FireAll(rules, now), later)[i] == 0
    ensures forall i :: 0 <= i < |rules| && TimeSeconds(rules, now)[i] <= 0 ==>
              FireAll(rules, now)[i] == rules[i]
  {
    forall i | 0 <= i < |rules| && TimeSeconds(rules, now)[i] > 0
      ensures TimeSeconds(FireAll(rules, now), later)[i] == 0
    {
      NoSecondFireSameDate(rules[i], now, later, None);
    }
  }

  /** Which ending one controller tick had. */
  datatype Step = Continue | Finished | Raised(error: PumperError)

  datatype ControllerKind = MeasureKind | TimeKind

  class Controller {
    const kind: ControllerKind
    const pumper: Pumper
    const pumpNr: int
    const sensor: Sensor
    var state: State
    var stopFlag: bool
    var ruleSet: seq<Rule>

    /** `MeasureController.__init__`. */
    constructor Measure(pumper: Pumper, pumpNr: int, sensor: Sensor)
      ensures kind == MeasureKind && this.pumper == pumper && this.pumpNr == pumpNr && this.sensor == sensor
      ensures state == Stopped && !stopFlag && ruleSet == []
    {
      kind := MeasureKind;
      this.pumper := pumper;
      this.pumpNr := pumpNr;
      this.sensor := sensor;
      state := Stopped;
      stopFlag := false;
      ruleSet := [];
    }

    /** `TimeController.__init__`, bound to a fresh empty sensor. */
    constructor Time(pumper: Pumper, pumpNr: int)
      ensures kind == TimeKind && this.pumper == pumper && this.pumpNr == pumpNr && fresh(sensor)
      ensures sensor.state == Stopped && !sensor.stopFlag && sensor.value.None?
      ensures state == Stopped && !stopFlag && ruleSet == []
    {
      kind := TimeKind;
      this.pumper := pumper;
      this.pumpNr := pumpNr;
      sensor := new Sensor("0");
      state := Stopped;
      stopFlag := false;
      ruleSet := [];
    }

    /** Entry of `run`, before its loop. */
    method Run()
      modifies this`state
      ensures state == Running
    {
      state := Running;
    }

    /** `stop`: only raises the flag the next tick observes. */
    method Stop()
      modifies this`stopFlag
      ensures stopFlag
    {
      stopFlag := true;
    }

    /** `getState`. */
    method GetState() returns (s: State)
      ensures s == state
    {
      s := state;
    }

    /** `addRule`: the rule joins at the end; the others keep their order. */
    method AddRule(rule: Rule)
      modifies this`ruleSet
      ensures ruleSet == old(ruleSet) + [rule]
    {
      ruleSet := ruleSet + [rule];
    }

    /** The requests a tick with clock readings `readings` issues. */
    ghost function TickRequests(readings: nat -> DateTime): seq<Request>
      reads this, sensor
    {
      match kind
      case MeasureKind => Requests(pumpNr, MeasureSeconds(ruleSet, readings, sensor.value), |ruleSet|)
      case TimeKind => Requests(pumpNr, TimeSeconds(ruleSet, readings(0)), |ruleSet|)
    }

    /** One iteration of the `run` loop. With the stop flag set the
        controller goes STOPPED and its loop ends without evaluating any
        rule; otherwise `_doWork` runs once, and a request the Pumper
        rejects raises out of the loop. */
    method Tick(readings: nat -> DateTime) returns (step: Step)
      requires pumper.Valid()
      modifies this`state, this`ruleSet, pumper`pumps, pumper`calls
      ensures pumper.Valid()
      ensures old(stopFlag) ==> step == Finished && state == Stopped && ruleSet == old(ruleSet)
      ensures old(stopFlag) ==> pumper.pumps == old(pumper.pumps) && pumper.calls == old(pumper.calls)
      ensures !old(stopFlag) ==>
                var reqs := old(TickRequests(readings));
                && state == old(state)
                && pumper.pumps == PumpsAfter(old(pumper.pumps), pumpNr, reqs)
                && pumper.calls == old(pumper.calls) + CallsMade(old(pumper.pumps), pumpNr, reqs)
                && (step == Raised(PumpNotDefined) || step == Continue)
                && (step.Raised? <==> Raises(old(pumper.pumps), pumpNr, reqs))
      ensures !old(stopFlag) && kind == MeasureKind ==> ruleSet == old(ruleSet)
      ensures !old(stopFlag) && kind == TimeKind ==>
                ruleSet == if step.Raised? then old(ruleSet) else FireAll(old(ruleSet), readings(0))
    {
      if stopFlag {
        state := Stopped;
        return Finished;
      }
      var outcome: Outcome<PumperError>;
      match kind {
        case MeasureKind => outcome := MeasureWork(readings);
        case TimeKind => outcome := TimeWork(readings(0));
      }
      step := if outcome.Fail? then Raised(outcome.error) else Continue;
    }

    /** `self._pumper.pump(pumpNr, seconds)` inside a tick whose earlier
        requests `reqs` were accepted: the request is logged, and it is
        accepted exactly when the pump is registered. */
    method Issue(seconds: real, ghost p0: map<int, PumpState>, ghost c0: seq<Request>, ghost reqs: seq<Request>)
      returns (total: Result<real, PumperError>)
      requires pumper.Valid()
      requires pumper.pumps == PumpsAfter(p0, pumpNr, reqs) && pumper.calls == c0 + reqs
      requires pumpNr !in p0 ==> reqs == []
      modifies pumper`pumps, pumper`calls
      ensures pumper.Valid()
      ensures pumper.calls == c0 + (reqs + [Request(pumpNr, seconds)])
      ensures total.Success? <==> pumpNr in p0
      ensures total.Success? ==> pumper.pumps == PumpsAfter(p0, pumpNr, reqs + [Request(pumpNr, seconds)])
      ensures total.Failure? ==> total.error == PumpNotDefined && pumper.pumps == p0 && reqs == []
    {
      total := pumper.Pump(pumpNr, seconds);
      if total.Success? {
        PumpsAfterSnoc(p0, pumpNr, reqs, Request(pumpNr, seconds));
      }
    }

    /** `MeasureController._doWork`: each rule is evaluated at its own clock
        reading against the sensor value, and each positive run length goes
        to the Pumper for this controller's pump. */
    method MeasureWork(readings: nat -> DateTime) returns (outcome: Outcome<PumperError>)
      requires pumper.Valid()
      modifies pumper`pumps, pumper`calls
      ensures pumper.Valid()
      ensures var reqs := Requests(pumpNr, MeasureSeconds(ruleSet, readings, sensor.value), |ruleSet|);
              && pumper.pumps == PumpsAfter(old(pumper.pumps), pumpNr, reqs)
              && pumper.calls == old(pumper.calls) + CallsMade(old(pumper.pumps), pumpNr, reqs)
              && (outcome == Fail(PumpNotDefined) || outcome == Pass)
              && (outcome.Fail? <==> Raises(old(pumper.pumps), pumpNr, reqs))
    {
      var value := sensor.value;
      ghost var secs := MeasureSeconds(ruleSet, readings, value);
      ghost var p0 := pumper.pumps;
      ghost var reqs: seq<Request> := [];
      var i := 0;
      while i < |ruleSet|
        invariant 0 <= i <= |ruleSet| == |secs|
        invariant reqs == Requests(pumpNr, secs, i)
        invariant pumper.Valid()
        invariant pumper.pumps == PumpsAfter(p0, pumpNr, reqs)
        invariant pumper.calls == old(pumper.calls) + reqs
        invariant pumpNr !in p0 ==> reqs == []
      {
        var seconds := PumpSeconds(ruleSet[i], readings(i), value);
        assert seconds == secs[i];
        if seconds > 0 {
          var req := Request(pumpNr, seconds as real);
          var total := Issue(seconds as real, p0, old(pumper.calls), reqs);
          if total.Failure? {
            FirstFireIsFirstRequest(pumpNr, secs, i);
            return Fail(total.error);
          }
          reqs := reqs + [req];
        } else {
          assert reqs + [] == reqs;
        }
        i := i + 1;
      }
      return Pass;
    }

    /** `TimeController._doWork`: every rule is evaluated at one timestamp;
        each positive run length goes to the Pumper and then the rule
        records the timestamp as its `lastRun`. */
    method TimeWork(now: DateTime) returns (outcome: Outcome<PumperError>)
      requires pumper.Valid()
      modifies this`ruleSet, pumper`pumps, pumper`calls
      ensures pumper.Valid()
      ensures var reqs := Requests(pumpNr, TimeSeconds(old(ruleSet), now), |old(ruleSet)|);
              && pumper.pumps == PumpsAfter(old(pumper.pumps), pumpNr, reqs)
              && pumper.calls == old(pumper.calls) + CallsMade(old(pumper.pumps), pumpNr, reqs)
              && (outcome == Fail(PumpNotDefined) || outcome == Pass)
              && (outcome.Fail? <==> Raises(old(pumper.pumps), pumpNr, reqs))
              && ruleSet == if outcome.Fail? then old(ruleSet) else FireAll(old(ruleSet), now)
    {
      ghost var rules := ruleSet;
      ghost var secs := TimeSeconds(rules, now);
      ghost var p0 := pumper.pumps;
      ghost var reqs: seq<Request> := [];
      var i := 0;
      while i < |ruleSet|
        invariant 0 <= i <= |rules| == |secs|
        invariant |ruleSet| == |rules|
        invariant forall j :: 0 <= j < i ==> ruleSet[j] == Fired(rules[j], secs[j], now)
        invariant forall j :: i <= j < |rules| ==> ruleSet[j] == rules[j]
        invariant reqs == Requests(pumpNr, secs, i)
        invariant pumper.Valid()
        invariant pumper.pumps == PumpsAfter(p0, pumpNr, reqs)
        invariant pumper.calls == old(pumper.calls) + reqs
        invariant pumpNr !in p0 ==> reqs == []
      {
        var seconds := PumpSeconds(ruleSet[i], now, None);
        assert seconds == secs[i];
        if seconds > 0 {
          var req := Request(pumpNr, seconds as real);
          var total := Issue(seconds as real, p0, old(pumper.calls), reqs);
          if total.Failure? {
            FirstFireIsFirstRequest(pumpNr, secs, i);
            RaiseKeepsRules(pumpNr, rules, now, i, ruleSet);
            return Fail(total.error);
          }
          reqs := reqs + [req];
          ruleSet := ruleSet[i := ruleSet[i].(lastRun := Some(now))];
        } else {
          assert reqs + [] == reqs;
        }
        i := i + 1;
      }
      AllFired(rules, now, ruleSet);
      return Pass;
    }
  }

  /** The rule list part-way through a time tick whose first request
      raises at rule `i` is the one the tick started with: no earlier rule
      fired. */
  lemma RaiseKeepsRules(pumpNr: int, rules: seq<Rule>, now: DateTime, i: nat, current: seq<Rule>)
    requires i <= |rules| == |current|
    requires forall j :: 0 <= j < i ==> current[j] == Fired(rules[j], TimeSeconds(rules, now)[j], now)
    requires forall j :: i <= j < |rules| ==> current[j] == rules[j]
    requires Requests(pumpNr, TimeSeconds(rules, now), i) == []
    ensures current == rules
  {
    var secs := TimeSeconds(rules, now);
    NoRequestsIff(pumpNr, secs, i);
    forall j | 0 <= j < |rules| ensures current[j] == rules[j] {
      if j < i {
        assert secs[j] <= 0;
      }
    }
  }

  /** A rule list in which every rule has recorded its own outcome of the
      tick is the list the tick leaves behind. */
  lemma AllFired(rules: seq<Rule>, now: DateTime, current: seq<Rule>)
    requires |current| == |rules|
    requires forall j :: 0 <= j < |rules| ==> current[j] == Fired(rules[j], TimeSeconds(rules, now)[j], now)
    ensures current == FireAll(rules, now)
  {
    assert forall j :: 0 <= j < |rules| ==> current[j] == FireAll(rules, now)[j];
  }

  /** When no request precedes a positive run length at `i`, that one is
      the first request of the whole tick. */
  lemma FirstFireIsFirstRequest(pumpNr: int, secs: seq<int>, i: nat)
    requires i < |secs| && secs[i] > 0
    requires Requests(pumpNr, secs, i) == []
    ensures Requests(pumpNr, secs, |secs|) != []
    ensures Requests(pumpNr, secs, |secs|)[0] == Request(pumpNr, secs[i] as real)
    ensures Requests(pumpNr, secs, i + 1) == [Request(pumpNr, secs[i] as real)]
  {
    assert Requests(pumpNr, secs, i + 1) == [] + [Request(pumpNr, secs[i] as real)];
    RequestsPrefix(pumpNr, secs, i + 1, |secs|);
  }

  /** A measure rule records no fire, so it is not limited to once a day:
      a "<= 20" rule of 30 seconds, met by the value 15.0 inside its
      window, asks the Pumper for its run length on every tick. */
  method MeasureRuleFiresEveryTick(pumper: Pumper, sensor: Sensor, readings: nat -> DateTime)
    requires pumper.Valid() && 1 in pumper.pumps
    requires sensor.value == Some(15.0)
    requires 6 * 3600 * MicrosPerSecond <= readings(0).time <= 7 * 3600 * MicrosPerSecond
    modifies pumper`pumps, pumper`calls
    ensures pumper.calls == old(pumper.calls) + [Request(1, 30.0), Request(1, 30.0)]
  {
    var rule := NewMeasureRule(6 * 3600 * MicrosPerSecond, 7 * 3600 * MicrosPerSecond, LesserOrEqual, 20.0, 30);
    assert PumpSeconds(rule, readings(0), Some(15.0)) == 30;
    assert MeasureSeconds([rule], readings, Some(15.0)) == [30];
    var c := new Controller.Measure(pumper, 1, sensor);
    c.AddRule(rule);
    assert c.ruleSet == [rule] && c.sensor.value == Some(15.0);
    assert Requests(1, [30], 1) == [] + [Request(1, 30 as real)];
    assert c.TickRequests(readings) == [Request(1, 30.0)];
    var first := c.Tick(readings);
    assert 1 in pumper.pumps && c.ruleSet == [rule];
    var second := c.Tick(readings);
  }
}
