/**
  An abstract JSON value, standing in for what `JSON.parse` returns.
  A missing property is `None` (JavaScript's `undefined`); parsing itself
  is not modelled, only its result.
*/
module Json {
  import opened Wrappers

  datatype Value =
    | Null
    | Bool(b: bool)
    | Num(n: int)
    | Str(s: string)
    | Arr(items: seq<Value>)
    | Obj(fields: map<string, Value>)

  /** What `JSON.parse` gives: a value, or the message of the `SyntaxError` it throws. */
  datatype ParseResult = Parsed(value: Value) | SyntaxError(message: string)

  /**
    Reading a list saved as JSON in browser storage: the key is absent (or
    holds the empty string), its text does not parse, it parses to something
    other than an array, or it parses to an array of items.
  */
  datatype Stored<T> = Absent | Unparsable | NotAnArray | Items(items: seq<T>)

  /** JavaScript truthiness of a present value. */
  predicate Truthy(v: Value) {
    match v
    case Null => false
    case Bool(b) => b
    case Num(n) => n != 0
    case Str(s) => s != ""
    case Arr(_) => true
    case Obj(_) => true
  }

  /** JavaScript truthiness of a possibly-undefined value. */
  predicate Present(o: Option<Value>) {
    o.Some? && Truthy(o.value)
  }

  /**
    Reading property `key` of a non-null value: only objects carry the
    properties this application reads, so anything else gives `undefined`.
  */
  function Get(v: Value, key: string): (r: Option<Value>)
    ensures r.Some? <==> v.Obj? && key in v.fields
    ensures r.Some? ==> r.value == v.fields[key]
  {
    if v.Obj? && key in v.fields then Some(v.fields[key]) else None
  }

  /** Adds `key` to an object under construction unless the value is `undefined`. */
  function Put(m: map<string, Value>, key: string, o: Option<Value>): (r: map<string, Value>)
    ensures o.Some? ==> r == m[key := o.value]
    ensures o.None? ==> r == m
  {
    if o.Some? then m[key := o.value] else m
  }
}
