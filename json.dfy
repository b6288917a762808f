/** The parsed JSON values the controllers read (the JSON.parse result of a
    frame or of an embedded page document), with JavaScript's property access,
    truthiness and String() conversion on them. Numbers are integers. */
module Json {
  import opened Wrappers
  import Text

  datatype Value =
    | Null
    | Bool(b: bool)
    | Num(n: int)
    | Str(s: string)
    | Arr(items: seq<Value>)
    | Obj(fields: map<string, Value>)

  /** The outcome of JSON.parse on a text: a value, or the exception it
      throws on malformed input. */
  datatype Parsed = Malformed | Parsed(value: Value)

  /** v.key for a non-null v: the property's value, or None (undefined) when
      v is not an object or has no such property. */
  function Get(v: Value, key: string): (r: Option<Value>)
    ensures r.Some? <==> v.Obj? && key in v.fields
    ensures r.Some? ==> r.value == v.fields[key]
  {
    if v.Obj? && key in v.fields then Some(v.fields[key]) else None
  }

  /** JavaScript truthiness; None stands for undefined. */
  predicate Truthy(v: Option<Value>)
  {
    match v
    case None => false
    case Some(Null) => false
    case Some(Bool(b)) => b
    case Some(Num(n)) => n != 0
    case Some(Str(s)) => s != ""
    case Some(Arr(_)) => true
    case Some(Obj(_)) => true
  }

  /** String(v): the text JavaScript writes for v, as a template literal or
      an HTML attribute interpolation does. */
  function ToText(v: Value): string
  {
    match v
    case Null => "null"
    case Bool(b) => if b then "true" else "false"
    case Num(n) => if n < 0 then "-" + Text.Decimal(-n) else Text.Decimal(n)
    case Str(s) => s
    case Arr(items) => JoinTexts(v, items)
    case Obj(_) => "[object Object]"
  }

  /** Array.prototype.join(",") over the items of an array value; null items
      (and only they, among JSON values) are written as the empty string. */
  function JoinTexts(whole: Value, items: seq<Value>): string
    requires forall k :: 0 <= k < |items| ==> items[k] < whole
    decreases whole, |items|
  {
    if items == [] then ""
    else
      var head := if items[0].Null? then "" else ToText(items[0]);
      if |items| == 1 then head else head + "," + JoinTexts(whole, items[1..])
  }
}
