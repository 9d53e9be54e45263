/**
 * JSON values as the relay sees them after Gson (backend) or org.json (desktop client)
 * has parsed a line, and the Gson accessors the relay calls on them. Every `getAs*`
 * that would throw in Java returns `None` here.
 */
module Json {
  import opened Wrappers
  import JavaText

  /**
   * A parsed JSON value. Objects are keyed maps (Gson keeps the last of duplicate keys).
   * A number keeps its source lexeme because Gson's lazily parsed numbers answer
   * `getAsString` with the text they were read from.
   */
  datatype Json =
    | JNull
    | JBool(b: bool)
    | JNum(value: real, lexeme: string)
    | JStr(s: string)
    | JArr(items: seq<Json>)
    | JObj(fields: map<string, Json>)

  type Object = map<string, Json>

  /** One inbound text line: its raw bytes as text, and the parser's verdict (`None`: not JSON). */
  datatype Line = Line(raw: string, parsed: Option<Json>)

  /** A JSON number written from a Java integer (`addProperty(key, long)`), with its decimal lexeme. */
  function IntNum(n: int): (j: Json)
    ensures j.JNum? && j.value == n as real
  {
    JNum(n as real, if n < 0 then "-" + JavaText.NatToString(-n) else JavaText.NatToString(n))
  }

  /** Rounds toward zero, as `BigDecimal.intValue` does when Gson's `getAsInt` falls back to it. */
  function TruncateToInt(x: real): (r: int)
    ensures x >= 0.0 ==> r as real <= x < r as real + 1.0
    ensures x < 0.0 ==> r as real - 1.0 < x <= r as real
  {
    if x >= 0.0 then x.Floor else -((-x).Floor)
  }

  /** `JsonElement.getAsDouble`. A one-element array answers for its element. */
  function AsDouble(j: Json): (r: Option<real>)
    ensures j.JNum? ==> r == Some(j.value)
    ensures j.JNull? || j.JObj? || j.JBool? ==> r == None
  {
    match j
    case JNum(v, _) => Some(v)
    case JArr(items) => if |items| == 1 then AsDouble(items[0]) else None
    case _ => None
  }

  /**
   * `Long.parseLong` / `Integer.parseInt` of a text: an optional '+' or '-', then at least
   * one ASCII digit and nothing else (the width is not modelled).
   */
  function ParseLong(s: string): (r: Option<int>)
    ensures r.Some? <==> JavaText.IsDigits(s) || (|s| > 0 && (s[0] == '+' || s[0] == '-') && JavaText.IsDigits(s[1..]))
    ensures r.Some? && |s| > 0 && s[0] == '-' ==> r.value <= 0
    ensures r.Some? && |s| > 0 && s[0] != '-' ==> r.value >= 0
  {
    if |s| > 0 && (s[0] == '+' || s[0] == '-') then
      if JavaText.IsDigits(s[1..]) then Some(if s[0] == '-' then -(JavaText.DigitsValue(s[1..]) as int) else JavaText.DigitsValue(s[1..]) as int) else None
    else if JavaText.IsDigits(s) then Some(JavaText.DigitsValue(s))
    else None
  }

  /**
   * `JsonElement.getAsInt` and `getAsLong` (the 32/64-bit width is not modelled). A number
   * is truncated toward zero; a string is parsed as a decimal integer.
   */
  function AsInt(j: Json): (r: Option<int>)
    ensures j.JNum? ==> r == Some(TruncateToInt(j.value))
    ensures j.JStr? ==> r == ParseLong(j.s)
    ensures j.JNull? || j.JObj? || j.JBool? ==> r == None
  {
    match j
    case JNum(v, _) => Some(TruncateToInt(v))
    case JStr(s) => ParseLong(s)
    case JArr(items) => if |items| == 1 then AsInt(items[0]) else None
    case _ => None
  }

  /** `Long.toString` and `Long.parseLong` are inverse: the lexeme of an integer parses back to it. */
  lemma ParseLongOfLexeme(n: int)
    ensures ParseLong(IntNum(n).lexeme) == Some(n)
    ensures AsInt(JStr(IntNum(n).lexeme)) == Some(n)
  {
    if n < 0 {
      var d := JavaText.NatToString(-n);
      assert ("-" + d)[1..] == d;
      JavaText.DigitsOfNatToString(-n);
    } else {
      JavaText.DigitsOfNatToString(n);
    }
  }

  /**
   * `JsonElement.getAsBoolean`. A string answers `Boolean.parseBoolean`, which is true only
   * for "true" in any letter case; a number's lexeme never parses as true.
   */
  function AsBool(j: Json): (r: Option<bool>)
    ensures j.JBool? ==> r == Some(j.b)
    ensures j.JNum? ==> r == Some(false)
    ensures j.JNull? || j.JObj? ==> r == None
  {
    match j
    case JBool(b) => Some(b)
    case JStr(s) => Some(|s| == 4 && ToLower(s[0]) == 't' && ToLower(s[1]) == 'r'
                         && ToLower(s[2]) == 'u' && ToLower(s[3]) == 'e')
    case JNum(_, _) => Some(false)
    case JArr(items) => if |items| == 1 then AsBool(items[0]) else None
    case _ => None
  }

  function ToLower(c: char): char {
    if 'A' <= c <= 'Z' then (c as int + 32) as char else c
  }

  /** `JsonElement.getAsString`. */
  function AsString(j: Json): (r: Option<string>)
    ensures j.JStr? ==> r == Some(j.s)
    ensures j.JNum? ==> r == Some(j.lexeme)
    ensures j.JNull? || j.JObj? ==> r == None
  {
    match j
    case JStr(s) => Some(s)
    case JNum(_, lexeme) => Some(lexeme)
    case JBool(b) => Some(if b then "true" else "false")
    case JArr(items) => if |items| == 1 then AsString(items[0]) else None
    case _ => None
  }

  /** `JsonElement.getAsJsonObject()`. */
  function AsObject(j: Json): (r: Option<Object>)
    ensures r.Some? <==> j.JObj?
  {
    if j.JObj? then Some(j.fields) else None
  }

  /** `obj.has(k) && !obj.get(k).isJsonNull()`. */
  predicate HasNonNull(o: Object, k: string) {
    k in o && !o[k].JNull?
  }

  /** `obj.has(k) && obj.get(k).isJsonObject()`. */
  predicate HasObject(o: Object, k: string) {
    k in o && o[k].JObj?
  }

  /** `obj.has(k) && obj.get(k).isJsonArray()`. */
  predicate HasArray(o: Object, k: string) {
    k in o && o[k].JArr?
  }
}
