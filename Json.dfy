/** JSON values (RFC 8259) as Gson's `JsonElement` tree holds them, and the
    Gson accessors the outline parser calls. A number keeps the text it was
    written with, as Gson's `LazilyParsedNumber` does; an object is a map
    from member name to value. Turning text into a tree
    (`JsonParser.parseString`) is not modelled: callers receive it as a
    function. An accessor that throws in Gson returns None here. */
module Json {
  import opened Wrappers
  import opened JavaNumbers

  datatype JsonValue =
    | JNull
    | JBool(b: bool)
    | JNumber(lexeme: string)
    | JString(text: string)
    | JArray(elements: seq<JsonValue>)
    | JObject(members: map<string, JsonValue>)

  /** `JsonObject.get(name)`: the member, or null when there is none. */
  function Get(members: map<string, JsonValue>, name: string): (r: Option<JsonValue>)
    ensures r.Some? <==> name in members
    ensures r.Some? ==> r.value == members[name]
  {
    if name in members then Some(members[name]) else None
  }

  function BoolText(b: bool): string
  {
    if b then "true" else "false"
  }

  /** `LazilyParsedNumber.intValue()`: `Integer.parseInt` of the text, else
      `(int) Long.parseLong`, else `new BigDecimal(text).intValue()`. */
  function NumberIntValue(lexeme: string): (r: Option<int>)
    ensures r.Some? ==> IsInt32(r.value)
    ensures ParseInt(lexeme).Some? ==> r == ParseInt(lexeme)
  {
    match ParseInt(lexeme)
    case Some(v) => Some(v)
    case None =>
      match ParseLong(lexeme)
      case Some(v) => Some(Wrap32(v))
      case None =>
        match BigDecimalToBigInteger(lexeme)
        case Some(v) => Some(Wrap32(v))
        case None => None
  }

  /** `JsonElement.getAsString()`: a string as is, a number as its text, a
      boolean as "true"/"false", a one-element array as its element; null
      and objects throw. */
  function AsString(v: JsonValue): (r: Option<string>)
    ensures v.JString? ==> r == Some(v.text)
    ensures v.JNull? || v.JObject? ==> r.None?
    ensures v.JArray? && |v.elements| != 1 ==> r.None?
    ensures v.JArray? && |v.elements| == 1 ==> r == AsString(v.elements[0])
  {
    match v
    case JNull => None
    case JBool(b) => Some(BoolText(b))
    case JNumber(lexeme) => Some(lexeme)
    case JString(text) => Some(text)
    case JArray(elements) => if |elements| == 1 then AsString(elements[0]) else None
    case JObject(_) => None
  }

  /** `JsonElement.getAsInt()`: a number through `intValue()`, a string or
      boolean through `Integer.parseInt` of its text, a one-element array as
      its element; null and objects throw. */
  function AsInt(v: JsonValue): (r: Option<int>)
    ensures r.Some? ==> IsInt32(r.value)
    ensures v.JNull? || v.JObject? || v.JBool? ==> r.None?
    ensures v.JArray? && |v.elements| != 1 ==> r.None?
    ensures v.JArray? && |v.elements| == 1 ==> r == AsInt(v.elements[0])
  {
    match v
    case JNull => None
    case JBool(b) => ParseInt(BoolText(b))
    case JNumber(lexeme) => NumberIntValue(lexeme)
    case JString(text) => ParseInt(text)
    case JArray(elements) => if |elements| == 1 then AsInt(elements[0]) else None
    case JObject(_) => None
  }

  /** Every `Int` written as a JSON number reads back as itself. */
  lemma AsIntOfIntText(n: int)
    requires IsInt32(n)
    ensures AsInt(JNumber(IntToString(n))) == Some(n)
  {
    ParseIntOfIntToString(n);
  }
}
