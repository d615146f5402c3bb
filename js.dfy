/** The JavaScript values the core passes around: parsed JSON (history state
    objects), the truthiness tests the code applies to them, and the exceptions
    the code raises or receives. */
module Js {
  import opened Wrappers

  /** A JSON value as JSON.parse yields it. Numbers are integral here. */
  datatype Value =
    | Null
    | Bool(b: bool)
    | Num(n: int)
    | Str(s: string)
    | Arr(items: seq<Value>)
    | Obj(members: seq<(string, Value)>)

  /** The literal `{}`. */
  const EmptyObject: Value := Obj([])

  /** JavaScript truthiness of a value; `None` stands for `undefined`. */
  predicate Truthy(v: Option<Value>) {
    match v
    case None => false
    case Some(Null) => false
    case Some(Bool(b)) => b
    case Some(Num(n)) => n != 0
    case Some(Str(s)) => s != ""
    case Some(_) => true
  }

  /** The expression `v || {}`: `v` when it is truthy, otherwise a fresh empty object. */
  function OrEmptyObject(v: Option<Value>): (r: Value)
    ensures Truthy(Some(r))
    ensures Truthy(v) ==> Some(r) == v
    ensures !Truthy(v) ==> r == EmptyObject
  {
    if Truthy(v) then v.value else EmptyObject
  }

  /** Truthiness of a numeric field that may be missing. */
  predicate TruthyNumber(n: Option<int>) {
    Truthy(if n.None? then None else Some(Num(n.value)))
  }

  /** Truthiness of a string field that may be missing. */
  predicate TruthyString(s: Option<string>) {
    Truthy(if s.None? then None else Some(Str(s.value)))
  }

  /** An exception: JSON.parse's SyntaxError on malformed text, a TypeError, or a
      failed request whose cause the model does not look into. */
  datatype Exception = SyntaxError | TypeError | NetworkError(reason: string)
}
