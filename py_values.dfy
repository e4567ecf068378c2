/**
 * The dynamically typed values the core receives and produces: what JSON parsing
 * yields, plus `None`, booleans and integers standing for "any other object".
 */
module PyValues {

  datatype Value =
    | PyNone
    | PyBool(b: bool)
    | PyInt(i: int)
    | PyStr(s: string)
    | PyList(items: seq<Value>)
    | PyDict(entries: map<string, Value>)

  /** The exceptions the core raises. */
  datatype PyError =
    | KeyError        // a required dictionary key is absent
    | TypeError       // a value of the wrong kind is indexed or iterated
    | AssertionError  // an `assert` statement failed
    | TaskError       // only the task codec returns it: building a Task from its record failed

  /** Python truthiness, as used by `if x:` and `while not x:`. */
  predicate Truthy(v: Value)
  {
    match v
    case PyNone => false
    case PyBool(b) => b
    case PyInt(i) => i != 0
    case PyStr(s) => s != ""
    case PyList(items) => items != []
    case PyDict(entries) => entries != map[]
  }
}
