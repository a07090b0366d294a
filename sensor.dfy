/** The sensor polling loop: each tick stores the freshly measured value,
    unless a stop was requested, in which case the sensor goes STOPPED and
    its loop ends. What `_measure` returns depends on the sensor kind and on
    hardware, so each tick receives it as a parameter. */
module Sensors {
  import opened Wrappers
  import opened Lifecycle

  class Sensor {
    /** Where the physical sensor is attached (a device path or an ADC channel). */
    const channel: string
    var state: State
    var stopFlag: bool
    /** The last published value; `None` before the first tick. */
    var value: Option<real>

    /** `Sensor.__init__`. */
    constructor (channel: string)
      ensures this.channel == channel
      ensures state == Stopped && !stopFlag && value.None?
    {
      this.channel := channel;
      state := Stopped;
      stopFlag := false;
      value := None;
    }

    /** Entry of `run`, before its loop. */
    method Run()
      modifies this`state
      ensures state == Running
    {
      state := Running;
    }

    /** One iteration of the `run` loop, `measured` being what `_measure`
        returned just before; the result says whether the loop goes on. */
    method Tick(measured: Option<real>) returns (continueLoop: bool)
      modifies this`state, this`value
      ensures continueLoop == !stopFlag
      ensures stopFlag ==> state == Stopped && value == old(value)
      ensures !stopFlag ==> state == old(state) && value == measured
    {
      if stopFlag {
        state := Stopped;
        return false;
      }
      value := measured;
      return true;
    }

    /** `getValue`. */
    method GetValue() returns (v: Option<real>)
      ensures v == value
    {
      v := value;
    }

    /** `getState`. */
    method GetState() returns (s: State)
      ensures s == state
    {
      s := state;
    }

    /** `stop`: only raises the flag the next tick observes. */
    method Stop()
      modifies this`stopFlag
      ensures stopFlag
    {
      stopFlag := true;
    }
  }

  /** `EmptySensor._measure`: there is no hardware, so never a value. */
  function EmptyMeasure(): (v: Option<real>)
    ensures v.None?
  {
    None
  }

  /** A new sensor reports no value, and a running sensor whose stop was
      requested goes STOPPED on its next tick, leaves the loop and keeps
      the last value it published. */
  method SensorLifecycle(channel: string, first: real, second: real) returns (before: Option<real>, after: Option<real>, last: State)
    ensures before.None? && after == Some(first) && last == Stopped
  {
    var s := new Sensor(channel);
    before := s.GetValue();
    s.Run();
    var goOn := s.Tick(Some(first));
    s.Stop();
    goOn := s.Tick(Some(second));
    assert !goOn;
    after := s.GetValue();
    last := s.GetState();
  }
}
