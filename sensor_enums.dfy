/** The sensor type codes used in configuration files. */
module SensorEnums {
  import opened Wrappers

  datatype SensorType =
    | Temperature | Humidity | Light
    | TestTemperature | TestHumidity | TestLight

  /** The integer each member is declared with. */
  function TypeCode(t: SensorType): int {
    match t
    case Temperature => 1
    case Humidity => 2
    case Light => 3
    case TestTemperature => 11
    case TestHumidity => 12
    case TestLight => 13
  }

  /** The codes `Type.fromNumber` accepts. */
  const AcceptedCodes: set<int> := {1, 2, 3, 11, 12, 13}

  /** `Type.fromNumber`: `None` stands for the NotImplementedError it raises. */
  function TypeFromNumber(n: int): (r: Option<SensorType>)
    ensures r.Some? <==> n in AcceptedCodes
    ensures r.Some? ==> TypeCode(r.value) == n
  {
    if n == 1 then Some(Temperature)
    else if n == 2 then Some(Humidity)
    else if n == 3 then Some(Light)
    else if n == 11 then Some(TestTemperature)
    else if n == 12 then Some(TestHumidity)
    else if n == 13 then Some(TestLight)
    else None
  }

  /** Decoding the declared code of any type gives that type back. */
  lemma TypeCodeRoundTrip(t: SensorType)
    ensures TypeFromNumber(TypeCode(t)) == Some(t)
  {
  }

  /** Distinct accepted codes decode to distinct types. */
  lemma TypeFromNumberInjective(m: int, n: int)
    requires m in AcceptedCodes && n in AcceptedCodes && m != n
    ensures TypeFromNumber(m) != TypeFromNumber(n)
  {
  }

  /** 4 and 10, the gaps between the two blocks of codes, are rejected. */
  lemma GapsRejected()
    ensures TypeFromNumber(4) == None && TypeFromNumber(10) == None
  {
  }
}
