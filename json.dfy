/** JavaScript values as they arrive in a response body, with the three JavaScript
    operations the pages apply to them: truthiness, `JSON.stringify`, and the string
    conversion a template literal performs. */
module Json {
  import opened Options
  import Text

  datatype Json =
    | JNull
    | JBool(b: bool)
    | JNum(n: int)
    | JStr(s: string)
    | JArr(items: seq<Json>)
    | JObj(fields: seq<(string, Json)>)

  /** JavaScript truthiness of a possibly missing (`undefined`) value. */
  predicate Truthy(v: Option<Json>)
  {
    match v
    case None => false
    case Some(JNull) => false
    case Some(JBool(b)) => b
    case Some(JNum(n)) => n != 0
    case Some(JStr(s)) => s != ""
    case Some(JArr(_)) => true
    case Some(JObj(_)) => true
  }

  /** `typeof v === 'object'` (arrays and null included). */
  predicate IsObjectType(v: Json)
  {
    v.JNull? || v.JArr? || v.JObj?
  }

  /** Property access `o[key]`: the first field with that key; missing gives `undefined`. */
  function Get(o: Json, key: string): (r: Option<Json>)
    requires o.JObj?
    ensures r.Some? <==> exists i :: 0 <= i < |o.fields| && o.fields[i].0 == key
    ensures r.Some? ==> exists i :: 0 <= i < |o.fields| && o.fields[i] == (key, r.value)
  {
    FieldLookup(o.fields, key)
  }

  function FieldLookup(fields: seq<(string, Json)>, key: string): (r: Option<Json>)
    ensures r.Some? <==> exists i :: 0 <= i < |fields| && fields[i].0 == key
    ensures r.Some? ==> exists i :: 0 <= i < |fields| && fields[i] == (key, r.value)
    decreases |fields|
  {
    if fields == [] then None
    else if fields[0].0 == key then Some(fields[0].1)
    else
      var r := FieldLookup(fields[1..], key);
      assert forall i :: 1 <= i < |fields| ==> fields[i] == fields[1..][i - 1];
      r
  }

  function HexDigit(d: nat): char
    requires d < 16
  {
    if d < 10 then ('0' as int + d) as char else ('a' as int + d - 10) as char
  }

  /** The JSON string escape of one character. */
  function EscapeChar(c: char): (r: string)
    ensures |r| >= 1
  {
    if c == '"' then "\\\""
    else if c == '\\' then "\\\\"
    else if c == '\n' then "\\n"
    else if c == '\r' then "\\r"
    else if c == '\t' then "\\t"
    else if c == '\U{0008}' then "\\b"
    else if c == '\U{000C}' then "\\f"
    else if (c as int) < 32 then "\\u00" + [HexDigit(c as int / 16), HexDigit(c as int % 16)]
    else [c]
  }

  function Escape(s: string): string
    decreases |s|
  {
    if s == [] then "" else EscapeChar(s[0]) + Escape(s[1..])
  }

  function Quote(s: string): (r: string)
    ensures |r| >= 2 && r[0] == '"' && r[|r| - 1] == '"'
  {
    "\"" + Escape(s) + "\""
  }

  /** `JSON.stringify(v)` without indentation. */
  function Stringify(v: Json): (r: string)
    ensures |r| >= 1
    ensures v.JArr? ==> r[0] == '[' && r[|r| - 1] == ']'
    ensures v.JObj? ==> r[0] == '{' && r[|r| - 1] == '}'
    ensures v.JStr? ==> r[0] == '"' && r[|r| - 1] == '"'
    decreases v, 2
  {
    match v
    case JNull => "null"
    case JBool(b) => if b then "true" else "false"
    case JNum(n) => Text.IntToString(n)
    case JStr(s) => Quote(s)
    case JArr(items) => "[" + StringifyItems(v, items) + "]"
    case JObj(fields) => "{" + StringifyFields(v, fields) + "}"
  }

  function StringifyItems(ghost parent: Json, items: seq<Json>): string
    requires forall i :: 0 <= i < |items| ==> items[i] < parent
    decreases parent, 1, |items|
  {
    if items == [] then ""
    else if |items| == 1 then Stringify(items[0])
    else Stringify(items[0]) + "," + StringifyItems(parent, items[1..])
  }

  function StringifyFields(ghost parent: Json, fields: seq<(string, Json)>): string
    requires forall i :: 0 <= i < |fields| ==> fields[i].1 < parent
    decreases parent, 1, |fields|
  {
    if fields == [] then ""
    else
      var head := Quote(fields[0].0) + ":" + Stringify(fields[0].1);
      if |fields| == 1 then head else head + "," + StringifyFields(parent, fields[1..])
  }

  /** The string a template literal `${v}` produces. */
  function ToJsString(v: Option<Json>): (r: string)
    ensures v.Some? && v.value.JStr? ==> r == v.value.s
    ensures v.None? ==> r == "undefined"
  {
    match v
    case None => "undefined"
    case Some(j) => ValueToString(j)
  }

  function ValueToString(j: Json): string
    decreases j, 2
  {
    match j
    case JNull => "null"
    case JBool(b) => if b then "true" else "false"
    case JNum(n) => Text.IntToString(n)
    case JStr(s) => s
    case JArr(items) => JoinItems(j, items)
    case JObj(_) => "[object Object]"
  }

  /** `Array.prototype.toString`: elements joined by ',', with null rendered empty. */
  function JoinItems(ghost parent: Json, items: seq<Json>): string
    requires forall i :: 0 <= i < |items| ==> items[i] < parent
    decreases parent, 1, |items|
  {
    if items == [] then ""
    else
      var head := if items[0].JNull? then "" else ValueToString(items[0]);
      if |items| == 1 then head else head + "," + JoinItems(parent, items[1..])
  }
}
