/** A JSON value as serde_json's `Value` holds it, with the compact text that its
    `Display` (`to_string`) writes. Numbers are integers only; object members are kept,
    and written, in the order the value stores them. */
module Json {
  import opened Wrappers
  import opened Text

  datatype Json =
    | JNull
    | JBool(b: bool)
    | JNumber(n: int)
    | JString(s: string)
    | JArray(items: seq<Json>)
    | JObject(members: seq<(string, Json)>)

  /** `value.get(key)`: the member named `key` of an object; nothing for any other kind of value. */
  function Get(v: Json, key: string): (r: Option<Json>)
    ensures r.Some? ==> v.JObject? && (key, r.value) in v.members
    ensures r.None? ==> !v.JObject? || forall m :: m in v.members ==> m.0 != key
  {
    if v.JObject? then Lookup(v.members, key) else None
  }

  /** The first member named `key`. */
  function Lookup(members: seq<(string, Json)>, key: string): (r: Option<Json>)
    ensures r.Some? ==> (key, r.value) in members
    ensures r.None? ==> forall m :: m in members ==> m.0 != key
  {
    if members == [] then None
    else if members[0].0 == key then Some(members[0].1)
    else Lookup(members[1..], key)
  }

  predicate NeedsEscape(c: char) {
    c == '"' || c == '\\' || c < ' '
  }

  function HexDigit(d: nat): char
    requires d < 16
  {
    "0123456789abcdef"[d]
  }

  /** serde_json's escape for one character of a string. */
  function EscapeChar(c: char): (r: string)
    ensures !NeedsEscape(c) ==> r == [c]
    ensures NeedsEscape(c) ==> |r| >= 2 && r[0] == '\\'
  {
    if c == '"' then "\\\""
    else if c == '\\' then "\\\\"
    else if c == '\n' then "\\n"
    else if c == '\r' then "\\r"
    else if c == '\t' then "\\t"
    else if c == 8 as char then "\\b"
    else if c == 12 as char then "\\f"
    else if c < ' ' then "\\u00" + [HexDigit(c as int / 16), HexDigit(c as int % 16)]
    else [c]
  }

  function Escape(s: string): (r: string)
    ensures (forall i :: 0 <= i < |s| ==> !NeedsEscape(s[i])) ==> r == s
    decreases |s|
  {
    if s == [] then "" else EscapeChar(s[0]) + Escape(s[1..])
  }

  /** A string literal: the escaped text between double quotes. */
  function Quote(s: string): (r: string)
    ensures |r| >= 2 && r[0] == '"' && r[|r| - 1] == '"'
  {
    "\"" + Escape(s) + "\""
  }

  /** `value.to_string()`: compact JSON text. */
  function Serialize(v: Json): string
    decreases v
  {
    match v
    case JNull => "null"
    case JBool(b) => if b then "true" else "false"
    case JNumber(n) => IntDecimal(n)
    case JString(s) => Quote(s)
    case JArray(items) =>
      "[" + Join(seq(|items|, i requires 0 <= i < |items| => Serialize(items[i])), ",") + "]"
    case JObject(members) =>
      "{" + Join(seq(|members|, i requires 0 <= i < |members| =>
                   Quote(members[i].0) + ":" + Serialize(members[i].1)), ",") + "}"
  }

  /** The text of a JSON string keeps its surrounding double quotes, and is exactly the string
      between quotes when the string has nothing to escape. */
  lemma SerializeString(s: string)
    ensures var t := Serialize(JString(s));
            |t| == |Escape(s)| + 2 && t[0] == '"' && t[|t| - 1] == '"'
    ensures (forall i :: 0 <= i < |s| ==> !NeedsEscape(s[i])) ==> Serialize(JString(s)) == "\"" + s + "\""
  {
  }
}
