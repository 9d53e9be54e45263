/**
 * Extraction of the model's text from a full OpenAI Responses API reply:
 * an `error` member raises, otherwise the text is `output[0].content[0].text`.
 * Every Gson cast or null dereference that would throw is reported as `Malformed`.
 */
module OpenAiParser {
  import opened Wrappers
  import opened Json

  datatype Extraction =
    | Extracted(text: string)
    | ApiError(code: Option<string>, message: string)   // the IllegalStateException for an error reply
    | NoOutput                                          // `output` missing or empty
    | NoContent                                         // `content` of output[0] missing or empty
    | Malformed                                         // any other exception (parse, cast, null member)

  /** `getAsJsonPrimitive(k).getAsString()` on a primitive: a string, a number's lexeme, or a boolean's name. */
  function PrimitiveString(j: Json): (r: Option<string>)
    ensures j.JStr? ==> r == Some(j.s)
    ensures j.JNull? || j.JArr? || j.JObj? ==> r.None?
  {
    match j
    case JStr(s) => Some(s)
    case JNum(_, lexeme) => Some(lexeme)
    case JBool(b) => Some(if b then "true" else "false")
    case _ => None
  }

  /** `getAsJsonArray(k)`: None for a missing member (a null result), Malformed for a member that is not an array. */
  datatype ArrayMember = Missing | Items(items: seq<Json>) | NotArray

  function ArrayAt(o: Object, k: string): (r: ArrayMember)
    ensures r.Missing? <==> k !in o
    ensures r.Items? <==> k in o && o[k].JArr?
    ensures r.Items? ==> r.items == o[k].items
  {
    if k !in o then Missing
    else if o[k].JArr? then Items(o[k].items)
    else NotArray
  }

  /** The error branch: `message` must be readable, `code` must be present (null allowed). */
  function ErrorOf(err: Json): (r: Extraction)
    ensures r.ApiError? || r.Malformed?
    ensures r.ApiError? ==> err.JObj? && "message" in err.fields && Some(r.message) == AsString(err.fields["message"])
  {
    if !err.JObj? then Malformed
    else
      var e := err.fields;
      if "message" !in e || AsString(e["message"]).None? || "code" !in e then Malformed
      else if e["code"].JNull? then ApiError(None, AsString(e["message"]).value)
      else match AsString(e["code"])
        case None => Malformed
        case Some(c) => ApiError(Some(c), AsString(e["message"]).value)
  }

  /** `extractDecisionJson`. */
  function Extract(response: Line): (r: Extraction)
    ensures response.parsed.None? || !response.parsed.value.JObj? ==> r == Malformed
    ensures response.parsed.Some? && response.parsed.value.JObj? ==>
      var root := response.parsed.value.fields;
      && (HasNonNull(root, "error") ==> r.ApiError? || r.Malformed?)
      && (!HasNonNull(root, "error") && (ArrayAt(root, "output").Missing? || ArrayAt(root, "output") == Items([])) ==> r == NoOutput)
    ensures r.Extracted? ==> exists out, c :: Path(response, out, c) && PrimitiveString(c.fields["text"]) == Some(r.text)
    ensures forall out, c :: Path(response, out, c) && PrimitiveString(c.fields["text"]).Some? ==>
      r == Extracted(PrimitiveString(c.fields["text"]).value)
    ensures forall out :: FirstOutput(response, out) && ContentMissingOrEmpty(out) ==> r == NoContent
  {
    if response.parsed.None? || !response.parsed.value.JObj? then Malformed
    else
      var root := response.parsed.value.fields;
      if HasNonNull(root, "error") then ErrorOf(root["error"])
      else match ArrayAt(root, "output")
        case Missing => NoOutput
        case NotArray => Malformed
        case Items(output) =>
          if output == [] then NoOutput
          else if !output[0].JObj? then Malformed
          else match ArrayAt(output[0].fields, "content")
            case Missing => NoContent
            case NotArray => Malformed
            case Items(content) =>
              if content == [] then NoContent
              else if !content[0].JObj? || "text" !in content[0].fields then Malformed
              else match PrimitiveString(content[0].fields["text"])
                case None => Malformed
                case Some(text) =>
                  assert Path(response, output[0], content[0]);
                  Extracted(text)
  }

  /** `out` is output[0], an object, in an error-free reply. */
  predicate FirstOutput(response: Line, out: Json) {
    && response.parsed.Some? && response.parsed.value.JObj?
    && !HasNonNull(response.parsed.value.fields, "error")
    && "output" in response.parsed.value.fields
    && response.parsed.value.fields["output"].JArr?
    && |response.parsed.value.fields["output"].items| > 0
    && out == response.parsed.value.fields["output"].items[0]
    && out.JObj?
  }

  /** `msg0.getAsJsonArray("content")` is null or empty. */
  predicate ContentMissingOrEmpty(out: Json)
    requires out.JObj?
  {
    ArrayAt(out.fields, "content").Missing? || ArrayAt(out.fields, "content") == Items([])
  }

  /** `out` is output[0] and `c` is its content[0] in an error-free reply. */
  predicate Path(response: Line, out: Json, c: Json) {
    && FirstOutput(response, out)
    && "content" in out.fields && out.fields["content"].JArr?
    && |out.fields["content"].items| > 0
    && c == out.fields["content"].items[0]
    && c.JObj? && "text" in c.fields
  }

  /** The smallest well-formed reply carrying `text`. */
  function Wrap(text: string): (j: Json)
    ensures j.JObj? && "output" in j.fields && "error" !in j.fields
  {
    JObj(map["output" := JArr([JObj(map["content" := JArr([JObj(map["text" := JStr(text)])])])])])
  }

  // ----- properties -----

  /** Extraction recovers the text a reply was built around. */
  lemma ExtractWrap(raw: string, text: string)
    ensures Extract(Line(raw, Some(Wrap(text)))) == Extracted(text)
  {
    var out := JObj(map["content" := JArr([JObj(map["text" := JStr(text)])])]);
    assert Wrap(text).fields["output"].items[0] == out;
  }

  /** A JSON-null `error` is ignored; an error object raises with its message and code. */
  lemma ErrorRules(raw: string, rest: Object, msg: string, code: string)
    ensures Extract(Line(raw, Some(JObj(rest["error" := JNull])))) == Extract(Line(raw, Some(JObj(rest - {"error"}))))
    ensures var e := JObj(map["message" := JStr(msg), "code" := JStr(code)]);
      Extract(Line(raw, Some(JObj(rest["error" := e])))) == ApiError(Some(code), msg)
    ensures var e := JObj(map["message" := JStr(msg), "code" := JNull]);
      Extract(Line(raw, Some(JObj(rest["error" := e])))) == ApiError(None, msg)
  {
    var o := rest["error" := JNull];
    var p := rest - {"error"};
    assert !HasNonNull(o, "error") && !HasNonNull(p, "error");
    assert forall k :: k != "error" ==> (k in o <==> k in p) && (k in o ==> o[k] == p[k]);
    assert ArrayAt(o, "output") == ArrayAt(p, "output");
  }

  /** An error member without a `code` is not reported as an API error: dereferencing the missing code throws first. */
  lemma MissingCodeIsMalformed(raw: string, rest: Object, msg: string)
    ensures Extract(Line(raw, Some(JObj(rest["error" := JObj(map["message" := JStr(msg)])])))) == Malformed
  {
  }

  /** An empty `content` is reported as such, not as missing output. */
  lemma EmptyContent(raw: string)
    ensures Extract(Line(raw, Some(JObj(map["output" := JArr([JObj(map["content" := JArr([])])])])))) == NoContent
  {
  }
}
