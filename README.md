# Chili watering controller: a verified model of its decision logic

This project models in Dafny the sequential core of a Raspberry Pi
irrigation controller written in Python.

**Controllers.** Each controller binds one sensor and a list of rules to
one pump number. Each tick of a controller's loop does the following:

- It evaluates every rule.
- It asks the pump manager (the `Pumper`) to run its pump for the length
  of each rule that fires.

A rule fires only inside an inclusive time-of-day window. A measure rule
also needs the sensor value to pass a comparison against a constant. A
rule of a time controller fires at most once per calendar date. A measure
rule records no fire, so it fires on every tick inside its window while
its comparison holds (`Controllers.MeasureRuleFiresEveryTick`). This breaks
the "once per date" rule for measure rules.

A time controller reads the clock once per tick and records every fire in
the rule's `lastRun`. A measure controller reads the clock once per rule
and never records a fire.

**Pumper.** The `Pumper` keeps a budget of seconds per pump. On each tick
it does one of three things to every pump:

- starts an idle pump that has budget;
- stops a running pump whose budget is used up;
- otherwise charges a running pump for the time elapsed.

When a stop has been requested, it stops every pump at once instead.

**Sensors.** Sensors publish their last measured value. Two measurement
paths are modelled:

- the parser of the DS18B20 1-Wire `w1_slave` file;
- the framing and decoding of an MCP3008 read (single-ended mode, section
  6.1 of the Microchip MCP3004/3008 datasheet).

**Form of the model.**

- Threads, locks and sleeps are removed. Each loop iteration is a `Tick`
  method.
- Every clock reading is a parameter. Where the source reads the clock
  more than once in a tick, the tick gets one reading per reader. A
  `DateTime` is a day number plus a time of day in microseconds, the
  resolution of `datetime.time`.
- Exceptions the code raises become `Failure`/`Fail`/`None` results.
- The objects the source updates in place are classes:
  - `Pumping.Pumper` holds the pump map, the stop flag and a ghost
    actuator flag per pump.
  - `Sensors.Sensor` holds the state, the stop flag and the published value.
  - `Controllers.Controller` holds the state, the stop flag and the rule
    list.
- Rules and the Pumper's private `_Pump` records are datatype values,
  replaced inside their owner's `seq` or `map`.

Where the code cannot do what its documentation says, the model follows
the documentation. The code as written is modelled beside it under
"## Findings".

Modules:

- `Wrappers`: Option, Result and Outcome types.
- `Clock`: date-times and elapsed time.
- `Lifecycle`: the RUNNING/STOPPED state.
- `ControllerEnums`: `controller/enums.py`.
- `SensorEnums`: `sensor/enums.py`.
- `Ruling`: the rule classes of `controller/ruling.py` and
  `controller/Controller.py`.
- `Pumping`: `pumper/Pumper.py`.
- `Sensors`: `sensor/Sensor.py` and `sensor/EmptySensor.py`.
- `Controllers`: the controller classes of `controller/Controller.py`
  and `controller/TimeController.py`.
- `TempSensor`: `sensor/TempSensor.py`.
- `Mcp3008`: `lib/adc/MCP3008.py`.
- `Bytes`: the `Byte` type shared by `TempSensor` and `Mcp3008`.

## Model

| member | source | states |
|---|---|---|
| ControllerEnums.TypeFromNumber | controller/enums.py:19-31 | a controller type is returned exactly for 1..4, and it is the member declared with that number; every other number is rejected (NotImplementedError) |
| ControllerEnums.TypeCodeRoundTrip | controller/enums.py:14-29 | decoding the declared number of any controller type gives that type back |
| ControllerEnums.AsString | controller/enums.py:46-59 | every comparator is spelled as one of "<", "<=", "=", ">=", ">" |
| ControllerEnums.FromString | controller/enums.py:61-79 | exactly the five spellings are accepted, "<" as LESSER, "<=" as LESSEROREQUAL, "=" as EQUAL, ">=" as GREATEROREQUAL, ">" as GREATER; any other string is rejected |
| ControllerEnums.ComparatorRoundTrip | controller/enums.py:46-77 | parsing the spelling of any comparator gives it back |
| ControllerEnums.StringRoundTrip | controller/enums.py:46-77 | spelling the comparator parsed from any accepted string gives that string back |
| ControllerEnums.AsStringInjective | controller/enums.py:48-57 | distinct comparators have distinct spellings |
| SensorEnums.TypeFromNumber | sensor/enums.py:21-37 | a sensor type is returned exactly for 1, 2, 3, 11, 12, 13, and it is the member declared with that number; every other number is rejected |
| SensorEnums.TypeCodeRoundTrip | sensor/enums.py:14-35 | decoding the declared number of any sensor type gives that type back |
| SensorEnums.TypeFromNumberInjective | sensor/enums.py:22-35 | distinct accepted numbers decode to distinct types |
| SensorEnums.GapsRejected | sensor/enums.py:36-37 | 4 and 10 are rejected |
| Clock.ElapsedSeconds | pumper/Pumper.py:51-53 | the time from one reading to another is non-negative exactly when the clock did not go backwards |
| Ruling.NewTimeRule | controller/ruling.py:10-29 | a new rule has no `lastRun` and stores its window and run length unchanged |
| Ruling.NewMeasureRule | controller/Controller.py:82-91 | a new measure rule has no `lastRun` and stores its window, comparator, constant and run length unchanged |
| Ruling.ShouldCheck | controller/ruling.py:34-39 | (definition) a rule is eligible when the time of day lies in the inclusive window and the rule did not run on the current date; a rule that never ran counts as not run |
| Ruling.ShouldCheckInWindow | controller/ruling.py:34-37 | an eligible rule's window contains the current time of day |
| Ruling.WindowInclusive | controller/ruling.py:35-37 | both window ends are eligible for a rule that has not run on the current date |
| Ruling.SameDateNotEligible | controller/ruling.py:38 | a rule that last ran on the current date is not eligible, whatever the time of day |
| Ruling.InvertedWindowNeverEligible | controller/ruling.py:35-37 | a window whose start is after its end is never eligible: there is no wrap past midnight |
| Ruling.EarlierDateEligible | controller/ruling.py:34-39 | inside the window, a rule that never ran or last ran on an earlier date is eligible |
| Ruling.Compare | controller/Controller.py:93-105 | (definition) the current value on the left and the constant on the right, under the comparator's operator; the enumeration is closed, so the `NotImplementedError` branch cannot be reached |
| Ruling.CompareNonStrictSplits | controller/Controller.py:94-101 | LESSEROREQUAL holds exactly when LESSER or EQUAL holds, and GREATEROREQUAL exactly when GREATER or EQUAL holds |
| Ruling.CompareTrichotomy | controller/Controller.py:93-103 | exactly one of LESSER, EQUAL and GREATER holds, and the greater comparators are the lesser ones with the sides swapped |
| Ruling.PumpSeconds | controller/Controller.py:107-110 | a rule yields either 0 or its own run length; a non-zero result implies the rule is eligible and, for a measure rule, that a sensor value is present and passes the comparison |
| Ruling.FiresIff | controller/Controller.py:107-110 | a rule yields a positive result exactly when its run length is positive, it is eligible and, for a measure rule, the present sensor value passes the comparison |
| Ruling.NoSecondFireSameDate | controller/ruling.py:38 | once `lastRun` records a fire at t, the rule yields 0 at every later reading on t's date |
| Ruling.MorningScenario | controller/ruling.py:34-39 | a 06:00-07:00 rule of 30 seconds fires at 06:30, not at 06:45 on the same day, and again at 06:15 on the next day |
| Ruling.ThresholdScenario | controller/Controller.py:93-110 | a "<= 20" rule of 30 seconds fires on 15 and not on 25 inside its window, and not on 15 outside it |
| Ruling.ShouldCheckAsWritten | controller/ruling.py:34-39 | the expression as written agrees with the corrected predicate whenever it does not raise |
| Ruling.FreshRuleRaisesAsWritten | controller/ruling.py:38 | as written, a rule that never ran raises inside its window, where the corrected predicate makes it eligible |
| Ruling.MeasurePumpSecondsAsWritten | controller/Controller.py:107-110 | as written, with `_shouldCheck` as written: it raises exactly when that raises (a rule that never ran, inside its window), returns `None` exactly outside the window or after a run today, and otherwise returns the comparison's boolean, never the run length |
| Ruling.RequestedSecondsAsWritten | controller/Controller.py:143-144 | as written, the controller's `seconds > 0` raises on `None`; on a boolean it compares 1 for True, which becomes a 1-second `pump` call, and 0 for False, which makes no call |
| Ruling.OutsideWindowRaisesAsWritten | controller/Controller.py:107-110 | as written, outside its window a measure rule returns `None` and the controller's `seconds > 0` on it raises, where the corrected rule yields 0 |
| Ruling.MeasureRuleAsWrittenAsksOneSecond | controller/Controller.py:107-110 | as written, a firing 30-second rule that last ran on an earlier day asks the pump for 1 second, where the corrected rule asks for 30 |
| Pumping.NewPump | pumper/Pumper.py:18-28 | a new pump record keeps its number and GPIO pin and starts with a zero budget and no running marker |
| Pumping.NextAction | pumper/Pumper.py:39-54 | each branch is taken exactly under its own condition: stop when running without budget, start when idle with budget, charge when running with budget, nothing when idle without budget |
| Pumping.ManageStartStop | pumper/Pumper.py:34-54 | after a management step the pump is marked running at `now` exactly when it had budget; only a pump already running with budget has its budget changed, lowered by the time since `runSince`; number and GPIO pin are kept |
| Pumping.ManageNeverIncreases | pumper/Pumper.py:49-54 | with a clock that does not go backwards, a management step never increases the budget |
| Pumping.IdleWithoutBudgetUnchanged | pumper/Pumper.py:39-54 | an idle pump without budget is left exactly as it was |
| Pumping.StartKeepsBudget | pumper/Pumper.py:44-47 | starting an idle pump with budget sets `runSince` to now and changes nothing else |
| Pumping.StopsOnNextTick | pumper/Pumper.py:39-54 | a step that used up the budget is followed by a step that stops the pump without touching the budget |
| Pumping.FiveSecondScenario | pumper/Pumper.py:34-54 | a 5-second budget is started at 0 s. At 3 s it still runs with 2 s left. At 6 s it still runs with -1 s left. The step at 6.1 s stops it |
| Pumping.ImmediateStop | pumper/Pumper.py:56-63 | from any state, the budget becomes 0 and the pump is not running; number and GPIO pin are kept |
| Pumping.ManageAll | pumper/Pumper.py:99-100 | a sweep keeps the set of pump numbers and applies the management step to each pump, at that pump's own clock reading |
| Pumping.StopAll | pumper/Pumper.py:92-93 | the shutdown sweep keeps the set of pump numbers and stops each pump immediately |
| Pumping.Pumper.constructor | pumper/Pumper.py:72-76 | a new Pumper has no pumps, a clear stop flag and no loop state |
| Pumping.Pumper.Run | pumper/Pumper.py:86 | starting the loop sets the state to RUNNING |
| Pumping.Pumper.Tick | pumper/Pumper.py:87-100 | with the stop flag set, every pump is stopped, every actuator is off, the state becomes STOPPED and the loop ends; otherwise every pump takes its management step at its own clock reading and the loop goes on |
| Pumping.Pumper.StopPump | pumper/Pumper.py:92-93 | one pump is stopped in place and its actuator is switched off |
| Pumping.Pumper.ManagePump | pumper/Pumper.py:99-100 | one pump takes its management step in place, with its actuator following its running marker |
| Pumping.Pumper.StopEvery | pumper/Pumper.py:92-93 | the map after the loop is the shutdown sweep of the map before it, with every actuator off |
| Pumping.Pumper.ManageEvery | pumper/Pumper.py:99-100 | the map after the loop is the management sweep of the map before it, each pump stepped at its own reading |
| Pumping.Pumper.Stop | pumper/Pumper.py:102-105 | stopping only raises the stop flag |
| Pumping.Pumper.AddPump | pumper/Pumper.py:107-119 | a new number adds exactly one idle pump with that number and GPIO pin; a number in use raises (DuplicatePump) and leaves the map unchanged |
| Pumping.Pumper.Pump | pumper/Pumper.py:121-141 | for a registered pump, the request is added to its budget, the new budget is returned and the other pumps are unchanged; an unregistered number raises (PumpNotDefined) and changes nothing; every call is logged |
| Pumping.RequestTwice | pumper/Pumper.py:125-126 | two requests for a registered pump before the next tick add up: the stored budget becomes the old one plus both times, both requests are logged in order, the other pumps are unchanged, and the Pumper's stop flag and state are outside the frame |
| Pumping.PumpAsWritten | pumper/Pumper.py:136-141 | as written, every call of `pump` raises, for a registered and an unregistered pump alike |
| Pumping.ManageStartStopAsWritten | pumper/Pumper.py:49-54 | as written, the step raises exactly in the charging branch and otherwise agrees with the corrected step |
| Pumping.StartedPumpRaisesAsWritten | pumper/Pumper.py:44-54 | as written, the step after a pump starts raises, leaving it running; corrected, that step charges the elapsed time |
| Sensors.Sensor.constructor | sensor/Sensor.py:13-20 | a new sensor is STOPPED, with a clear stop flag and no value |
| Sensors.Sensor.Run | sensor/Sensor.py:28 | starting the loop sets the state to RUNNING |
| Sensors.Sensor.Tick | sensor/Sensor.py:29-40 | with the stop flag clear the measured value replaces the published one and the loop goes on; with it set the sensor goes STOPPED, keeps its previous value and the loop ends |
| Sensors.Sensor.GetValue | sensor/Sensor.py:52-58 | the last published value is returned |
| Sensors.Sensor.GetState | sensor/Sensor.py:42-50 | the current state is returned |
| Sensors.Sensor.Stop | sensor/Sensor.py:60-63 | stopping only raises the stop flag; state and value are untouched |
| Sensors.EmptyMeasure | sensor/EmptySensor.py:14-16 | the empty sensor never measures a value |
| Sensors.SensorLifecycle | sensor/Sensor.py:13-63 | a new sensor has no value; after a published value and a stop, the next tick ends STOPPED and keeps that value |
| Controllers.RequestsPrefix | controller/Controller.py:139-144 | the requests issued for the first m rules are a prefix of those issued for the first n >= m rules |
| Controllers.RequestsForOwnPump | controller/Controller.py:143-144 | every request is for the controller's own pump and asks for a positive time |
| Controllers.NoRequestsIff | controller/Controller.py:143-144 | no request is issued exactly when no rule yields a positive time |
| Controllers.TotalAppend | pumper/Pumper.py:140-141 | the time asked for by consecutive request lists is the sum of their times |
| Controllers.PumpsAfterSnoc | pumper/Pumper.py:140-141 | each accepted request adds its time to the pump's budget |
| Controllers.FireAllRecordsFires | controller/TimeController.py:21-26 | a time tick keeps the rule list's length and every field of every rule except `lastRun`; `lastRun` becomes the tick's timestamp for the rules that fired and does not change for the others |
| Controllers.SecondTickSameDate | controller/TimeController.py:21-26 | a rule that fired in a time tick does not fire in a later tick on the same date; a rule that did not fire is unchanged |
| Controllers.AllFired | controller/TimeController.py:21-26 | a rule list in which every rule has recorded its own outcome of a time tick is the list the tick leaves behind |
| Controllers.RaiseKeepsRules | controller/TimeController.py:21-26 | when the first request of a time tick raises at rule i, the rule list part-way through the tick is the one it started with |
| Controllers.Controller.Issue | controller/Controller.py:143-144 | a request is logged; it is accepted exactly when the pump is registered, and then adds its time to the budget; otherwise it raises `PumpNotDefined` and nothing changes; only the Pumper's budgets and call log are in its frame, so the Pumper's stop flag and lifecycle state are unchanged |
| Controllers.FirstFireIsFirstRequest | controller/Controller.py:143-144 | when no earlier rule fired, the firing rule gives the first request of the tick |
| Controllers.Controller.Measure | controller/Controller.py:118-127 | a new measure controller is STOPPED, with a clear stop flag, no rules and the given pumper, pump number and sensor |
| Controllers.Controller.Time | controller/TimeController.py:12-14 | a new time controller is STOPPED, with a clear stop flag, no rules and a fresh sensor that is STOPPED, with a clear stop flag and no value |
| Controllers.Controller.Run | controller/Controller.py:42 | starting the loop sets the state to RUNNING |
| Controllers.Controller.Stop | controller/Controller.py:76-79 | stopping only raises the stop flag |
| Controllers.Controller.GetState | controller/Controller.py:65-74 | the current state is returned |
| Controllers.Controller.AddRule | controller/Controller.py:129-132 | the rule joins at the end; the earlier rules are kept, in order |
| Controllers.Controller.Tick | controller/Controller.py:43-52 | with the stop flag set, the controller goes STOPPED and ends without evaluating any rule or calling the Pumper; otherwise one round of rule evaluation runs, with the effects stated for MeasureWork and TimeWork; only the Pumper's budgets and call log are in its frame, so the Pumper's stop flag and lifecycle state are unchanged |
| Controllers.Controller.MeasureWork | controller/Controller.py:134-144 | one `pump(pumpNr, seconds)` per rule yielding a positive time, in rule order, for the controller's own pump, each rule read at its own clock reading; the pump's budget grows by their total; for an unregistered pump the first request raises and ends the round; only the Pumper's budgets and call log are in its frame, so the Pumper's stop flag and lifecycle state are unchanged |
| Controllers.Controller.TimeWork | controller/TimeController.py:16-26 | all rules are evaluated at one timestamp, with one request per firing rule in rule order; the rules that fired record the timestamp in `lastRun` and the others are unchanged; when the first request raises, no rule changes; only the Pumper's budgets and call log are in its frame, so the Pumper's stop flag and lifecycle state are unchanged |
| Controllers.MeasureRuleFiresEveryTick | controller/Controller.py:139-144 | a measure controller with a "<= 20", 30-second rule, met by 15.0 inside its window, asks for 30 s on each of two consecutive ticks: no fire is recorded, so a measure rule is not limited to once a day |
| TempSensor.HexGroups | sensor/TempSensor.py:17 | (definition) the text starts with n groups of two lowercase hex digits, each followed by a space |
| TempSensor.HexGroupsIff | sensor/TempSensor.py:17 | the recursive pattern holds exactly when the text is at least 3n long and each of its n groups, at offset 3k, is two hex digits and a space |
| TempSensor.CrcLineMatches | sensor/TempSensor.py:17 | (definition) the first line starts with nine hex groups, ": crc=", two hex digits and " YES" |
| TempSensor.DigitRun | sensor/TempSensor.py:19 | the digit run is a prefix of the line made only of digits, and is not followed by a digit |
| TempSensor.SignedInt | sensor/TempSensor.py:19 | a signed integer is found exactly when the text starts with a digit, or with a sign followed by a digit |
| TempSensor.TLineValue | sensor/TempSensor.py:19-21 | a temperature is read only from a line that starts with nine hex groups followed by "t=" |
| TempSensor.Temperature | sensor/TempSensor.py:7-26 | any result other than the default 100 comes from a first line matching the CRC pattern with "YES" and a second line carrying t; the result is then t / 1000 |
| TempSensor.MatchingLinesGiveValue | sensor/TempSensor.py:17-21 | for any two lines that match, the result is the integer after "t=" divided by 1000, whatever else the lines carry |
| TempSensor.ReadFailureGivesDefault | sensor/TempSensor.py:23-26 | a failed read gives 100 |
| TempSensor.BadCrcLineGivesDefault | sensor/TempSensor.py:13-17 | a first line that does not match gives 100, whatever the second line |
| TempSensor.BadTLineGivesDefault | sensor/TempSensor.py:18-21 | a matching first line and a second line without "t=" and an integer give 100 |
| TempSensor.CrcFailureGivesDefault | sensor/TempSensor.py:17 | a first line reporting "NO" gives 100 |
| TempSensor.BytesPrefixMatches | sensor/TempSensor.py:17-19 | the spelling of any bytes as "xx " groups matches that many hex groups, whatever follows |
| TempSensor.DigitsOfNatToString | sensor/TempSensor.py:19 | the decimal value of the spelling of n is n |
| TempSensor.UnsignedOfDigits | sensor/TempSensor.py:19 | a run of digits followed by a non-digit is read whole, as its decimal value |
| TempSensor.LeadingZeroIgnored | sensor/TempSensor.py:19-21 | a leading zero does not change the value of a run of digits |
| TempSensor.PositiveOfDigits | sensor/TempSensor.py:19 | a plus sign and a run of digits followed by a non-digit is read whole, as the run's value |
| TempSensor.NegativeOfDigits | sensor/TempSensor.py:19 | a minus sign and a run of digits followed by a non-digit is read whole, as the negated value |
| TempSensor.NegativeOfIntToString | sensor/TempSensor.py:19 | the integer read from the spelling of a negative t, followed by a non-digit, is t |
| TempSensor.SignedIntOfIntToString | sensor/TempSensor.py:19 | the integer read from the decimal spelling of any t, followed by a non-digit, is t |
| TempSensor.CrcLineOfRendered | sensor/TempSensor.py:17 | a first line with nine bytes, a CRC and "YES" matches, whatever follows it |
| TempSensor.TLineValueAfterPrefix | sensor/TempSensor.py:19-21 | after nine hex groups and "t=", the value of the second line is the signed integer that follows |
| TempSensor.TLineOfRendered | sensor/TempSensor.py:19 | a second line with nine bytes and "t=" followed by the spelling of t gives t, when no digit follows |
| TempSensor.TemperatureOfRendered | sensor/TempSensor.py:7-26 | two well-formed lines with "YES" carrying t give t / 1000 degrees; text after the verdict and after the digits is ignored |
| Mcp3008.RequestFrame | lib/adc/MCP3008.py:39 | the request is three bytes: 1, then the channel byte, then 0; for channels 0..7 the channel byte fits a byte and equals 0x80 OR (channel << 4) |
| Mcp3008.FrameSelectsChannel | lib/adc/MCP3008.py:39 | for channels 0..7 the channel byte has the single-ended bit set, carries the channel in bits 4..6 and has zero low bits |
| Mcp3008.FrameInjective | lib/adc/MCP3008.py:39 | distinct channels are requested with distinct frames |
| Mcp3008.Decode | lib/adc/MCP3008.py:40 | the value is below 1024; its bits 9..8 are the two low bits of byte 1 and its bits 7..0 are byte 2 |
| Mcp3008.DecodeIgnoresOtherBits | lib/adc/MCP3008.py:40 | byte 0 and bits 2..7 of byte 1 do not affect the value |
| Mcp3008.DecodeOnto | lib/adc/MCP3008.py:40 | every v in 0..1023 is decoded from `[x, v >> 8, v & 255]`, whatever x is |

## Left out

- Threads, locks, `time.sleep` and the `while 1` loops are not modelled. Each loop iteration is a `Tick` method, and a caller sequences them. The shutdown and reload logic of `main.py` is not part of this model.
- `datetime.datetime.now()` is not modelled. A time controller tick receives its one timestamp. A measure controller tick receives a function from rule index to clock reading, because the source reads the clock once per rule. A Pumper tick receives a function from pump number to clock reading, because each pump reads the clock itself when the sweep visits it (pumper/Pumper.py:46, 51).
- `Sensor._measure` depends on hardware, so `Sensors.Sensor.Tick` receives its result. `TempSensor.Temperature` computes what the temperature sensor would pass. `Mcp3008.Decode` gives only the raw 10-bit ADC reading. The normalisation and rounding that the humidity and light sensors apply to it (sensor/HumSensor.py:17-19, sensor/LightSensor.py:16-17) are not modelled.
- Reading the `w1_slave` file is not modelled. It is the two lines, or `ReadFailure` for an `IOError`. The error `print`s are not modelled.
- The SPI device in `lib/adc/MCP3008.py` is not modelled: opening it, the 1 MHz clock setting and `xfer2`. `lib/adc/__init__.py` is not part of this model either.
- `pumper/Pump.py` (`start`/`stop` only print) is the ghost map `actuatorOn` inside `Pumping.Pumper`.
- The following are not part of this model:
  - `persistanceLayer.py`, `web/frontend.py` and `main.py`;
  - the factories in `controller/__init__.py` and `sensor/__init__.py`;
  - `sensor/HumSensor.py` and `sensor/LightSensor.py`, which do float normalisation over ADC reads;
  - the Test* sensors, which read configuration files;
  - the capitalised draft packages (`Controller/`, `Sensor/`, `Pumper/`), apart from `Pumper/Pumper.py:126-127`, the evidence for the intended pump guard.
- Rules and pump records are values replaced inside their owner's sequence or map. A `Rule` object shared between two controllers, and so updated by both, is not modelled.
- Pumping.Pumper.PumpExists: the membership test `pumpNr in self.pumps` is a predicate without a contract of its own. `Pumping.Pumper.Pump` states the guard it decides.
- Where the code cannot run as written, the model follows the evident intent:
  - `MeasureRule.__init__` calls the base constructor without `pumpSenconds` (controller/Controller.py:89), which raises TypeError. The model stores the run length that the base class expects (`Ruling.NewMeasureRule`).
  - `TimeController` has no `ruleSet` and no `addRule`. It reads `self.pumpNr` where the base class stores `_pumpNr`, and calls `getPumpSeconds` with one argument (controller/TimeController.py:21-26).
  - No time-rule class is defined in `controller/ruling.py`, although `controller/__init__.py` imports one.

  The model gives both controller kinds the measure controller's rule list and `addRule`. A time rule fires on its window and once-a-day guard alone (`Ruling.RuleKind.TimeRule`).
- `EmptySensor.__init__` passes two arguments where `Sensor.__init__` takes one (sensor/EmptySensor.py:12). The model gives the empty sensor channel "0".
- Ruling.PumpSeconds: in Python, a measure rule meeting `None` (no sensor value yet) inside its window raises TypeError in `_compare` for the ordering comparators; for EQUAL, `None == rValue` is False. The model lets every comparator yield 0, which agrees with Python for EQUAL.
- Sensors.Sensor.Tick stores whatever `_measure` returned, including `None`, as the code does (sensor/Sensor.py:40).
- TempSensor.Temperature divides the integer by 1000 exactly, in reals. Python's `float` conversion and division round, so results such as 23.187 are not bit-exact in the source.
- Pumping.ManageStartStop keeps budgets and elapsed times as exact reals of microsecond resolution. Python's float rounding is not modelled.
- Pumping.Pumper.Tick: the order in which the sweep visits pumps is not modelled as such. The source reads the clock once per pump it visits (pumper/Pumper.py:46, 51), so the visit order decides which pump gets the earlier reading. The model takes one reading per pump number and places no order on them, so every visit order is covered, but no order is singled out.

## Findings

| source | as written | input that shows it | evidently intended | confidence | as-written member | corrected member |
|---|---|---|---|---|---|---|
| pumper/Pumper.py:137-138 | `pump` raises ValueError "pumpNr is already in use" when the pump IS registered; for an unregistered number `self.pumps[pumpNr]` then raises KeyError, so every call raises | `addPump(3, 1)` then `pump(3, 5.0)` | raise only for an unregistered pump, and otherwise add the seconds (the docstring; `Pumper/Pumper.py:126-127`) | high, not executed | Pumping.PumpAsWritten | Pumping.Pumper.Pump |
| controller/Controller.py:107-110 | `getPumpSeconds` returns the boolean of `_compare` (1 or 0 when added to a budget); outside the window it returns `None`, on which the controller's `seconds > 0` (controller/Controller.py:143) raises TypeError | a "<= 20" rule of 30 s that last ran yesterday, with value 15.0 inside its window, asks for 1 s; the same rule outside its window raises (Ruling.OutsideWindowRaisesAsWritten). The rule is given a `lastRun`, so the raise of controller/ruling.py:38 does not occur, and the constructor call of controller/Controller.py:89 is taken as corrected | return `pumpSeconds` when the rule fires and 0 otherwise | high, not executed | Ruling.MeasureRuleAsWrittenAsksOneSecond | Ruling.FiresIff |
| controller/ruling.py:38 | `datetime.date(self.lastRun)` with `lastRun = None` raises TypeError, so a rule that never ran raises the first time it is checked inside its window | a new rule whose window contains the current time | a rule that never ran counts as not run today (the constructor's documentation) | high, not executed | Ruling.FreshRuleRaisesAsWritten | Ruling.EarlierDateEligible |
| pumper/Pumper.py:52-53 | the charging branch calls `datetime.datetime.microsecond(...)`, an attribute descriptor and not a function, which raises TypeError | `pump(n, 5)` on a registered pump, then two Pumper ticks. As written that call raises at pumper/Pumper.py:137, so no budget rises and this branch is unreachable; the input assumes the guard there is corrected | charge the running pump for the time elapsed since `runSince`, in seconds | high, not executed | Pumping.StartedPumpRaisesAsWritten | Pumping.ManageStartStop |
