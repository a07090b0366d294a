/** The pump accumulator (`_Pump`) and the `Pumper` that owns all of them.
    Each pump carries a budget of seconds still to run and `runSince`, the
    time of the last start or budget update while it runs. The `_Pump`
    objects are private to the Pumper and reachable only through its map, so
    they are values here and the Pumper replaces them in its map. */
module Pumping {
  import opened Wrappers
  import opened Clock
  import opened Lifecycle

  /** `_Pump`: number, GPIO pin, remaining seconds and the running marker. */
  datatype PumpState = PumpState(pumpNr: int, gpio: string, seconds: real, runSince: Option<DateTime>)

  /** `_Pump.__init__`: an idle pump with an empty budget. */
  function NewPump(pumpNr: int, gpio: string): (p: PumpState)
    ensures p.pumpNr == pumpNr && p.gpio == gpio
    ensures p.seconds == 0.0 && p.runSince.None?
  {
    PumpState(pumpNr, gpio, 0.0, None)
  }

  /** The branch `manageStartStop` takes. */
  datatype Action = StopPump | StartPump | Decay | Idle

  /** Each branch is taken exactly under its own condition, whatever the
      order of the tests: the four conditions split all pump states. */
  function NextAction(p: PumpState): (a: Action)
    ensures a == StopPump <==> p.runSince.Some? && p.seconds <= 0.0
    ensures a == StartPump <==> p.runSince.None? && p.seconds > 0.0
    ensures a == Decay <==> p.runSince.Some? && p.seconds > 0.0
    ensures a == Idle <==> p.runSince.None? && p.seconds <= 0.0
  {
    if p.runSince.Some? && p.seconds <= 0.0 then StopPump
    else if p.runSince.None? && p.seconds > 0.0 then StartPump
    else if p.runSince.Some? then Decay
    else Idle
  }

  /** `_Pump.manageStartStop` at time `now`: stop a running pump whose budget
      is used up, start an idle pump that has budget, and otherwise charge a
      running pump for the time since `runSince`. As a result the pump runs
      exactly when it had budget, its marker is then `now`, and only a pump
      that was already running and had budget has its budget changed. */
  function ManageStartStop(p: PumpState, now: DateTime): (q: PumpState)
    ensures q.pumpNr == p.pumpNr && q.gpio == p.gpio
    ensures q.runSince == (if p.seconds > 0.0 then Some(now) else None)
    ensures q.seconds ==
              if p.runSince.Some? && p.seconds > 0.0
              then p.seconds - ElapsedSeconds(p.runSince.value, now)
              else p.seconds
  {
    match NextAction(p)
    case StopPump => p.(runSince := None)
    case StartPump => p.(runSince := Some(now))
    case Decay => p.(seconds := p.seconds - ElapsedSeconds(p.runSince.value, now), runSince := Some(now))
    case Idle => p
  }

  /** With a clock that does not go backwards the budget never grows. */
  lemma ManageNeverIncreases(p: PumpState, now: DateTime)
    requires p.runSince.Some? ==> Micros(p.runSince.value) <= Micros(now)
    ensures ManageStartStop(p, now).seconds <= p.seconds
  {
  }

  /** An idle pump without budget is left exactly as it is. */
  lemma IdleWithoutBudgetUnchanged(p: PumpState, now: DateTime)
    requires p.runSince.None? && p.seconds <= 0.0
    ensures ManageStartStop(p, now) == p
  {
  }

  /** Starting does not touch the budget. */
  lemma StartKeepsBudget(p: PumpState, now: DateTime)
    requires p.runSince.None? && p.seconds > 0.0
    ensures ManageStartStop(p, now) == p.(runSince := Some(now))
  {
  }

  /** A tick may leave a running pump with no budget left (the charge is
      applied after the stop test), and then the very next tick stops it
      without touching the budget. */
  lemma StopsOnNextTick(p: PumpState, now: DateTime, next: DateTime)
    requires ManageStartStop(p, now).seconds <= 0.0
    ensures ManageStartStop(ManageStartStop(p, now), next).runSince.None?
    ensures ManageStartStop(ManageStartStop(p, now), next).seconds == ManageStartStop(p, now).seconds
  {
  }

  /** A 5-second request: started at 0 s; at 3 s 2 s remain and it runs; at
      6 s the budget is -1 s but it still runs; the tick at 6.1 s stops it. */
  lemma FiveSecondScenario(d: int)
    ensures var p0 := NewPump(1, "17").(seconds := 0.0 + 5.0);
            var p1 := ManageStartStop(p0, DateTime(d, 0));
            var p2 := ManageStartStop(p1, DateTime(d, 3 * MicrosPerSecond));
            var p3 := ManageStartStop(p2, DateTime(d, 6 * MicrosPerSecond));
            var p4 := ManageStartStop(p3, DateTime(d, 6_100_000));
            && p1.runSince == Some(DateTime(d, 0)) && p1.seconds == 5.0
            && p2.runSince.Some? && p2.seconds == 2.0
            && p3.runSince.Some? && p3.seconds == -1.0
            && p4.runSince.None? && p4.seconds == -1.0
  {
  }

  /** `_Pump.immediateStop`: the budget is cleared and the pump is idle, from any state. */
  function ImmediateStop(p: PumpState): (q: PumpState)
    ensures q.pumpNr == p.pumpNr && q.gpio == p.gpio
    ensures q.seconds == 0.0 && q.runSince.None?
  {
    p.(seconds := 0.0, runSince := None)
  }

  /** One management sweep over every pump. Each pump reads the clock
      itself when it is visited, so pump `n` works with its own reading
      `readings(n)`; which pump reads first is left to `readings`. */
  function ManageAll(pumps: map<int, PumpState>, readings: int -> DateTime): (r: map<int, PumpState>)
    ensures r.Keys == pumps.Keys
    ensures forall n :: n in r ==> r[n] == ManageStartStop(pumps[n], readings(n))
  {
    map n | n in pumps :: ManageStartStop(pumps[n], readings(n))
  }

  /** The shutdown sweep over every pump. */
  function StopAll(pumps: map<int, PumpState>): (r: map<int, PumpState>)
    ensures r.Keys == pumps.Keys
    ensures forall n :: n in r ==> r[n] == ImmediateStop(pumps[n])
  {
    map n | n in pumps :: ImmediateStop(pumps[n])
  }

  /** A non-empty set of pump numbers has an element to visit next. */
  lemma NonEmptyHasElement(s: set<int>)
    requires s != {}
    ensures exists k :: k in s
  {
    if forall k :: k !in s {
      assert false;
    }
  }

  /** The errors `addPump` and `pump` raise. */
  datatype PumperError = DuplicatePump | PumpNotDefined

  /** One call of `pump(pumpNr, seconds)`. */
  datatype Request = Request(pumpNr: int, seconds: real)

  /** `Pumper`: the pumps by number, the stop flag and the loop state. The
      ghost map `actuatorOn` records what the physical pump was last told
      (`Pump.start` sets it, `Pump.stop` clears it); the ghost log `calls`
      records every `pump` call in order. */
  class Pumper {
    var pumps: map<int, PumpState>
    var stopFlag: bool
    /** `_state` is only assigned by `run`; `None` until then. */
    var state: Option<State>
    ghost var actuatorOn: map<int, bool>
    ghost var calls: seq<Request>

    /** Each pump is filed under its own number, and the actuator is on
        exactly while the pump has a running marker. */
    ghost predicate Valid()
      reads this
    {
      && actuatorOn.Keys == pumps.Keys
      && forall n :: n in pumps ==> pumps[n].pumpNr == n && (actuatorOn[n] <==> pumps[n].runSince.Some?)
    }

    /** `Pumper.__init__`: no pumps, stop flag clear (`None` in Python). */
    constructor ()
      ensures Valid()
      ensures pumps == map[] && !stopFlag && state.None? && calls == []
    {
      pumps := map[];
      stopFlag := false;
      state := None;
      actuatorOn := map[];
      calls := [];
    }

    /** Entry of `run`, before its loop. */
    method Run()
      modifies this`state
      ensures state == Some(Running)
    {
      state := Some(Running);
    }

    /** One iteration of the `run` loop; the result says whether the loop
        goes on. With the stop flag set every pump is stopped at once and
        the Pumper goes STOPPED; otherwise every pump runs its
        start/stop/decay step at its own clock reading `readings(n)`. */
    method Tick(readings: int -> DateTime) returns (continueLoop: bool)
      requires Valid()
      modifies this
      ensures Valid()
      ensures continueLoop == !old(stopFlag)
      ensures stopFlag == old(stopFlag) && calls == old(calls)
      ensures old(stopFlag) ==> pumps == StopAll(old(pumps)) && state == Some(Stopped)
      ensures old(stopFlag) ==> forall n :: n in actuatorOn ==> !actuatorOn[n]
      ensures !old(stopFlag) ==> pumps == ManageAll(old(pumps), readings) && state == old(state)
    {
      if stopFlag {
        StopEvery();
        state := Some(Stopped);
        return false;
      }
      ManageEvery(readings);
      return true;
    }

    /** `self.pumps[k].immediateStop()` on the pump in place. */
    method StopPump(k: int)
      requires Valid() && k in pumps
      modifies this`pumps, this`actuatorOn
      ensures Valid()
      ensures pumps == old(pumps)[k := ImmediateStop(old(pumps)[k])]
      ensures actuatorOn == old(actuatorOn)[k := false]
    {
      pumps := pumps[k := ImmediateStop(pumps[k])];
      actuatorOn := actuatorOn[k := false];  // Pump.stop()
    }

    /** `self.pumps[k].manageStartStop()` on the pump in place. */
    method ManagePump(k: int, now: DateTime)
      requires Valid() && k in pumps
      modifies this`pumps, this`actuatorOn
      ensures Valid()
      ensures pumps == old(pumps)[k := ManageStartStop(old(pumps)[k], now)]
    {
      var p := pumps[k];
      match NextAction(p) {
        case StartPump => actuatorOn := actuatorOn[k := true];  // Pump.start()
        case StopPump => actuatorOn := actuatorOn[k := false];  // Pump.stop()
        case _ =>
      }
      pumps := pumps[k := ManageStartStop(p, now)];
    }

    /** The sweep `for pump in self.pumps: ...immediateStop()`. */
    method StopEvery()
      requires Valid()
      modifies this`pumps, this`actuatorOn
      ensures Valid()
      ensures pumps == StopAll(old(pumps))
      ensures forall n :: n in actuatorOn ==> !actuatorOn[n]
    {
      ghost var start := pumps;
      var todo := pumps.Keys;
      while todo != {}
        invariant Valid()
        invariant todo <= pumps.Keys && pumps.Keys == start.Keys
        invariant forall n :: n in pumps ==> pumps[n] == if n in todo then start[n] else ImmediateStop(start[n])
        invariant forall n :: n in actuatorOn && n !in todo ==> !actuatorOn[n]
        decreases todo
      {
        NonEmptyHasElement(todo);
        var k :| k in todo;
        StopPump(k);
        todo := todo - {k};
      }
      assert forall n :: n !in todo;
      assert pumps.Keys == StopAll(start).Keys;
      assert forall n :: n in pumps ==> pumps[n] == StopAll(start)[n];
      assert pumps == StopAll(start);
    }

    /** The sweep `for pump in self.pumps: ...manageStartStop()`. */
    method ManageEvery(readings: int -> DateTime)
      requires Valid()
      modifies this`pumps, this`actuatorOn
      ensures Valid()
      ensures pumps == ManageAll(old(pumps), readings)
    {
      ghost var start := pumps;
      var todo := pumps.Keys;
      while todo != {}
        invariant Valid()
        invariant todo <= pumps.Keys && pumps.Keys == start.Keys
        invariant forall n :: n in pumps ==> pumps[n] == if n in todo then start[n] else ManageStartStop(start[n], readings(n))
        decreases todo
      {
        NonEmptyHasElement(todo);
        var k :| k in todo;
        ManagePump(k, readings(k));
        todo := todo - {k};
      }
      assert forall n :: n !in todo;
      assert pumps.Keys == ManageAll(start, readings).Keys;
      assert forall n :: n in pumps ==> pumps[n] == ManageAll(start, readings)[n];
      assert pumps == ManageAll(start, readings);
    }

    /** `Pumper.stop`: only raises the flag the next tick observes. */
    method Stop()
      modifies this`stopFlag
      ensures stopFlag
    {
      stopFlag := true;
    }

    /** `pumpExists`. */
    predicate PumpExists(pumpNr: int)
      reads this
    {
      pumpNr in pumps
    }

    /** `Pumper.addPump`: registers a new idle pump, or raises ValueError
        (DuplicatePump) and changes nothing when the number is taken. */
    method AddPump(pumpNr: int, gpio: string) returns (outcome: Outcome<PumperError>)
      requires Valid()
      modifies this`pumps, this`actuatorOn
      ensures Valid()
      ensures pumpNr in old(pumps) ==> outcome == Fail(DuplicatePump) && pumps == old(pumps)
      ensures pumpNr !in old(pumps) ==> outcome == Pass && pumps == old(pumps)[pumpNr := NewPump(pumpNr, gpio)]
    {
      if pumpNr in pumps {
        return Fail(DuplicatePump);
      }
      pumps := pumps[pumpNr := NewPump(pumpNr, gpio)];
      actuatorOn := actuatorOn[pumpNr := false];
      return Pass;
    }

    /** `Pumper.pump`, with the guard its documentation describes: a
        registered pump's budget grows by `seconds` and the new budget is
        returned; an unregistered number raises (PumpNotDefined). Other
        pumps are untouched either way. */
    method Pump(pumpNr: int, seconds: real) returns (total: Result<real, PumperError>)
      requires Valid()
      modifies this`pumps, this`calls
      ensures Valid()
      ensures calls == old(calls) + [Request(pumpNr, seconds)]
      ensures pumpNr in old(pumps) ==>
                && total == Success(old(pumps)[pumpNr].seconds + seconds)
                && pumps == old(pumps)[pumpNr := old(pumps)[pumpNr].(seconds := total.value)]
      ensures pumpNr !in old(pumps) ==> total == Failure(PumpNotDefined) && pumps == old(pumps)
    {
      calls := calls + [Request(pumpNr, seconds)];
      if !PumpExists(pumpNr) {
        return Failure(PumpNotDefined);
      }
      var p := pumps[pumpNr];
      pumps := pumps[pumpNr := p.(seconds := p.seconds + seconds)];
      return Success(p.seconds + seconds);
    }
  }

  /** Two requests for a registered pump before the next tick add up. */
  method RequestTwice(pumper: Pumper, pumpNr: int, s1: real, s2: real) returns (total: Result<real, PumperError>)
    requires pumper.Valid() && pumpNr in pumper.pumps
    modifies pumper`pumps, pumper`calls
    ensures pumper.Valid()
    ensures total == Success(old(pumper.pumps[pumpNr].seconds) + s1 + s2)
    ensures pumper.pumps == old(pumper.pumps)[pumpNr := old(pumper.pumps[pumpNr]).(seconds := total.value)]
    ensures pumper.calls == old(pumper.calls) + [Request(pumpNr, s1), Request(pumpNr, s2)]
  {
    var first := pumper.Pump(pumpNr, s1);
    total := pumper.Pump(pumpNr, s2);
  }

  // ---------------------------------------------------------------------
  // The pump code as written, kept beside the corrected definitions above.

  /** What the `pump` body as written raises. */
  datatype RaisedAsWritten = ValueErrorInUse | KeyErrorMissing

  /** `Pumper.pump` as written: the guard raises for every REGISTERED pump,
      and for an unregistered one `self.pumps[pumpNr]` raises KeyError. */
  function PumpAsWritten(pumps: map<int, PumpState>, pumpNr: int, seconds: real): (r: Result<real, RaisedAsWritten>)
    ensures r.Failure?
  {
    if pumpNr in pumps then Failure(ValueErrorInUse)
    else Failure(KeyErrorMissing)
  }

  /** `_Pump.manageStartStop` as written: the decay line calls the
      attribute descriptor `datetime.datetime.microsecond`, which raises
      TypeError (`None` here); the other branches behave as corrected. */
  function ManageStartStopAsWritten(p: PumpState, now: DateTime): (r: Option<PumpState>)
    ensures r.None? <==> NextAction(p) == Decay
    ensures r.Some? ==> r.value == ManageStartStop(p, now)
  {
    if NextAction(p) == Decay then None else Some(ManageStartStop(p, now))
  }

  /** As written, the tick after a pump starts raises, so the Pumper loop
      dies with the pump running; corrected, that tick charges the elapsed time. */
  lemma StartedPumpRaisesAsWritten(p: PumpState, t1: DateTime, t2: DateTime)
    requires p.runSince.None? && p.seconds > 0.0
    ensures ManageStartStop(p, t1).runSince.Some?
    ensures ManageStartStopAsWritten(ManageStartStop(p, t1), t2).None?
    ensures ManageStartStop(ManageStartStop(p, t1), t2).seconds == p.seconds - ElapsedSeconds(t1, t2)
  {
  }
}
