/**
 * The state of a tracked object: its properties by name. A property holds null, a
 * scalar, or a list of nested objects, each given by its own state. Because these are
 * immutable values, a State stored in the registry is a deep copy: later in-place
 * mutation of the live object (or of an object nested in one of its lists) cannot
 * reach it.
 */
module Values {

  datatype Value =
    | Null
    | Int(i: int)
    | Str(s: string)
    | List(items: seq<State>)

  datatype State = State(props: map<string, Value>)

  /** Reads a property; a property the object does not hold reads as null. */
  function Get(s: State, p: string): Value
  {
    if p in s.props then s.props[p] else Null
  }

  /** The state after property `p` is assigned `v`. */
  function Set(s: State, p: string, v: Value): (t: State)
    ensures Get(t, p) == v
    ensures forall q :: q != p ==> Get(t, q) == Get(s, q)
  {
    State(s.props[p := v])
  }
}
