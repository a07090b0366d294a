/** The enums of the controller package: the controller type codes used in
    configuration files and the five comparators of a measure rule. */
module ControllerEnums {
  import opened Wrappers

  /** The kinds of controller a configuration can ask for. */
  datatype ControllerType = Temperature | Humidity | Light | Time

  /** The integer each member is declared with. */
  function TypeCode(t: ControllerType): int {
    match t
    case Temperature => 1
    case Humidity => 2
    case Light => 3
    case Time => 4
  }

  /** `Type.fromNumber`: `None` stands for the NotImplementedError it raises. */
  function TypeFromNumber(n: int): (r: Option<ControllerType>)
    ensures r.Some? <==> 1 <= n <= 4
    ensures r.Some? ==> TypeCode(r.value) == n
  {
    if n == 1 then Some(Temperature)
    else if n == 2 then Some(Humidity)
    else if n == 3 then Some(Light)
    else if n == 4 then Some(Time)
    else None
  }

  /** Decoding the declared code of any type gives that type back. */
  lemma TypeCodeRoundTrip(t: ControllerType)
    ensures TypeFromNumber(TypeCode(t)) == Some(t)
  {
  }

  /** How a measure rule compares the sensor value with its constant. */
  datatype Comparator = Lesser | LesserOrEqual | Equal | GreaterOrEqual | Greater

  /** The configuration-file spellings of the comparators. */
  const ComparatorStrings: set<string> := {"<", "<=", "=", ">=", ">"}

  /** `Comparator.asString`. */
  function AsString(c: Comparator): (s: string)
    ensures s in ComparatorStrings
  {
    match c
    case Lesser => "<"
    case LesserOrEqual => "<="
    case Equal => "="
    case GreaterOrEqual => ">="
    case Greater => ">"
  }

  /** `Comparator.fromString`: `None` stands for the NotImplementedError it
      raises on any other string. */
  function FromString(s: string): (r: Option<Comparator>)
    ensures r.Some? <==> s in ComparatorStrings
    ensures s == "<" ==> r == Some(Lesser)
    ensures s == "<=" ==> r == Some(LesserOrEqual)
    ensures s == "=" ==> r == Some(Equal)
    ensures s == ">=" ==> r == Some(GreaterOrEqual)
    ensures s == ">" ==> r == Some(Greater)
  {
    if s == "<" then Some(Lesser)
    else if s == "<=" then Some(LesserOrEqual)
    else if s == "=" then Some(Equal)
    else if s == ">=" then Some(GreaterOrEqual)
    else if s == ">" then Some(Greater)
    else None
  }

  /** Every comparator survives printing and parsing. */
  lemma ComparatorRoundTrip(c: Comparator)
    ensures FromString(AsString(c)) == Some(c)
  {
  }

  /** Every accepted string survives parsing and printing. */
  lemma StringRoundTrip(s: string)
    requires s in ComparatorStrings
    ensures FromString(s).Some? && AsString(FromString(s).value) == s
  {
  }

  /** The five spellings are pairwise distinct. */
  lemma AsStringInjective(c: Comparator, d: Comparator)
    ensures AsString(c) == AsString(d) ==> c == d
  {
  }
}
