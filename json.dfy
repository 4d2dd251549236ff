/**
 * A parsed JSON value as the host hands it to the mapping, and the
 * asserting accessors of graph-ts's `JSONValue`.
 *
 * Objects keep their entries in the order the host delivers them: the
 * mapping reads "the first entry" of an object, so order is observable.
 */
module Json {

  datatype JValue =
    | JNull
    | JBool(b: bool)
    | JNumber(n: int)
    | JString(s: string)
    | JArray(elems: seq<JValue>)
    | JObject(entries: seq<Entry>)

  /** One `key: value` entry of an object (`TypedMapEntry<string, JSONValue>`). */
  type Entry = (string, JValue)

  /** Why the handler aborted: an accessor met a value of the wrong kind, an
      entry was read from an empty object, or the log text was not JSON. */
  datatype Fault =
    | NotAnObject
    | NotAString
    | NotANumber
    | NotAnArray
    | MissingEntry
    | Unparseable

  /** Either the value computed so far, or the abort that ended the handler. */
  datatype Outcome<+T> = Done(value: T) | Abort(fault: Fault) {

    predicate IsFailure() {
      Abort?
    }

    function PropagateFailure<U>(): Outcome<U>
      requires Abort?
    {
      Abort(fault)
    }

    function Extract(): T
      requires Done?
    {
      value
    }
  }

  /** `JSONValue.toObject()`: asserts the value is an object. */
  function AsObject(v: JValue): Outcome<seq<Entry>> {
    if v.JObject? then Done(v.entries) else Abort(NotAnObject)
  }

  /** `JSONValue.toString()`: asserts the value is a string. */
  function AsString(v: JValue): Outcome<string> {
    if v.JString? then Done(v.s) else Abort(NotAString)
  }

  /** `JSONValue.toBigInt()`: asserts the value is a number. */
  function AsBigInt(v: JValue): Outcome<int> {
    if v.JNumber? then Done(v.n) else Abort(NotANumber)
  }

  /** `JSONValue.toArray()`: asserts the value is an array. */
  function AsArray(v: JValue): Outcome<seq<JValue>> {
    if v.JArray? then Done(v.elems) else Abort(NotAnArray)
  }

  /** `obj.entries[0].value`: an empty object has no first entry. */
  function FirstValue(entries: seq<Entry>): Outcome<JValue> {
    if |entries| == 0 then Abort(MissingEntry) else Done(entries[0].1)
  }
}
