/**
 * Query expansion: ask a local LLM for alternative search queries and
 * hints, and fall back to the query alone whenever anything goes wrong.
 * The HTTP round trip to the model server is a function parameter giving
 * the decoded reply body (None when the server is unreachable or the body
 * is not JSON); json.loads is a function parameter giving None on a
 * decode error.
 */
module QueryExpand {
  import opened Wrappers
  import opened Text
  import opened Seqs

  /** A JSON value as json.loads returns it. */
  datatype Json = JNull | JBool(b: bool) | JNum(n: real) | JStr(s: string) | JArr(items: seq<Json>)
                | JObj(fields: map<string, Json>)

  type JsonParser = string -> Option<Json>

  const DefaultModel: string := "llama3.2:3b"

  const HintKeys: seq<string> := ["people", "topics", "file_types", "projects"]

  /** The four hint lists, all empty. */
  const EmptyHints: Json := JObj(map["people" := JArr([]), "topics" := JArr([]), "file_types" := JArr([]),
                                     "projects" := JArr([])])

  datatype Expansion = Expansion(queries: Json, hints: Json, usedLlm: bool)

  function Fallback(query: string): Expansion
  {
    Expansion(JArr([JStr(query)]), EmptyHints, false)
  }

  /** `model or DEFAULT_MODEL` */
  function ModelName(model: Option<string>): (r: string)
    ensures model.Some? && model.value != "" ==> r == model.value
    ensures model.None? || model.value == "" ==> r == DefaultModel
  {
    if model.Some? && model.value != "" then model.value else DefaultModel
  }

  /**
   * _extract_json: the stripped text if it parses; otherwise the slice from
   * the first "{" to the last "}" inclusive, when the last comes after the first.
   */
  function ExtractJson(text: string, parse: JsonParser): (r: Option<Json>)
    ensures parse(Strip(text)).Some? ==> r == parse(Strip(text))
    ensures r.Some? ==>
      (|| r == parse(Strip(text))
       || var t := Strip(text);
          exists i, j :: 0 <= i < j <= |t| && t[i] == '{' && t[j - 1] == '}' && '{' !in t[..i] && '}' !in t[j..]
                         && r == parse(t[i..j]))
    ensures parse(Strip(text)).None? && ('{' !in Strip(text) || '}' !in Strip(text)) ==> r.None?
  {
    var t := Strip(text);
    match parse(t)
    case Some(v) => Some(v)
    case None =>
      var start := FindChar(t, '{');
      var end := RFindChar(t, '}') + 1;
      if start != -1 && end > start then parse(t[start..end]) else None
  }

  /** When the last "}" comes before the first "{", only the whole text is tried. */
  lemma ExtractJsonNeedsOrderedBraces(text: string, parse: JsonParser, i: nat, j: nat)
    requires i < |Strip(text)| && j < |Strip(text)| && Strip(text)[i] == '}' && Strip(text)[j] == '{'
    requires '}' !in Strip(text)[i + 1..] && '{' !in Strip(text)[..j] && i < j
    ensures ExtractJson(text, parse) == parse(Strip(text))
  {
  }

  /** Python's `x in v` for a string x: None where it raises TypeError. */
  function InJson(v: Json, x: string): Option<bool>
  {
    match v
    case JArr(items) => Some(JStr(x) in items)
    case JStr(s) => Some(Contains(s, x))
    case JObj(fields) => Some(x in fields)
    case _ => None
  }

  /** `if query not in queries: queries.insert(0, query)`; None where that raises. */
  function WithQuery(query: string, queries: Json): (r: Option<Json>)
    ensures r.Some? ==> InJson(r.value, query) == Some(true)
  {
    match InJson(queries, query)
    case None => None
    case Some(true) => Some(queries)
    case Some(false) => if queries.JArr? then Some(JArr([JStr(query)] + queries.items)) else None
  }

  /** One iteration of the hint-key loop: a missing key gets an empty list; None where `hints[key] = []` raises. */
  function AddKey(hints: Json, key: string): Option<Json>
  {
    match InJson(hints, key)
    case None => None
    case Some(true) => Some(hints)
    case Some(false) => if hints.JObj? then Some(JObj(hints.fields[key := JArr([])])) else None
  }

  /** The hint-key loop over `keys`, in order. */
  function FillHints(hints: Json, keys: seq<string>): Option<Json>
  {
    if keys == [] then Some(hints)
    else
      match FillHints(hints, keys[..|keys| - 1])
      case None => None
      case Some(h) => AddKey(h, keys[|keys| - 1])
  }

  /** The reply text: body.get("response", ""); None where the body is not an object or the text not a string. */
  function ResponseText(body: Json): Option<string>
  {
    if body.JObj? then
      match Get(body.fields, "response", JStr(""))
      case JStr(s) => Some(s)
      case _ => None
    else None
  }

  /**
   * expand_query. Only an object with a "queries" key takes the success
   * path: any other value json.loads can return is falsy, lacks the key,
   * or raises at `"queries" in parsed` or `parsed["queries"]`.
   */
  function Expand(query: string, model: Option<string>, ask: (string, string) -> Option<Json>, parse: JsonParser)
    : Expansion
  {
    var body := ask(ModelName(model), query);
    if body.None? || ResponseText(body.value).None? then Fallback(query)
    else
      var parsed := ExtractJson(ResponseText(body.value).value, parse);
      if parsed.Some? && parsed.value.JObj? && "queries" in parsed.value.fields then
        var queries := WithQuery(query, parsed.value.fields["queries"]);
        var hints := FillHints(Get(parsed.value.fields, "hints", EmptyHints), HintKeys);
        if queries.Some? && hints.Some? then Expansion(queries.value, hints.value, true) else Fallback(query)
      else Fallback(query)
  }

  /** Add the missing hint keys in place; None where `hints[key] = []` raises. */
  method FillHintsInPlace(hints0: Json) returns (hints: Option<Json>)
    ensures hints == FillHints(hints0, HintKeys)
  {
    var h := hints0;
    for i := 0 to |HintKeys|
      invariant FillHints(hints0, HintKeys[..i]) == Some(h)
    {
      var key := HintKeys[i];
      assert HintKeys[..i + 1][..i] == HintKeys[..i];
      var present := InJson(h, key);
      if present.None? || (!present.value && !h.JObj?) {
        FailureStaysFailure(hints0, HintKeys, i + 1);
        return None;
      }
      if !present.value {
        h := JObj(h.fields[key := JArr([])]);
      }
    }
    assert HintKeys[..|HintKeys|] == HintKeys;
    hints := Some(h);
  }

  /** Once a key raises, the rest of the loop is not reached. */
  lemma {:induction false} FailureStaysFailure(hints: Json, keys: seq<string>, k: nat)
    requires k <= |keys| && FillHints(hints, keys[..k]).None?
    ensures FillHints(hints, keys).None?
    decreases |keys| - k
  {
    if k < |keys| {
      assert keys[..k + 1][..k] == keys[..k];
      FailureStaysFailure(hints, keys, k + 1);
    } else {
      assert keys[..k] == keys;
    }
  }

  /** expand_query as the source runs it: the request, the parse, the insert and the hint loop. */
  method ExpandQuery(query: string, model: Option<string>, ask: (string, string) -> Option<Json>, parse: JsonParser)
    returns (r: Expansion)
    ensures r == Expand(query, model, ask, parse)
  {
    var body := ask(ModelName(model), query);
    if body.None? {
      return Fallback(query);
    }
    var raw := ResponseText(body.value);
    if raw.None? {
      return Fallback(query);
    }
    var parsed := ExtractJson(raw.value, parse);
    if parsed.Some? && parsed.value.JObj? && "queries" in parsed.value.fields {
      var queries := WithQuery(query, parsed.value.fields["queries"]);
      if queries.None? {
        return Fallback(query);
      }
      var hints := FillHintsInPlace(Get(parsed.value.fields, "hints", EmptyHints));
      if hints.None? {
        return Fallback(query);
      }
      return Expansion(queries.value, hints.value, true);
    }
    return Fallback(query);
  }

  /** The fallback holds the query alone, the four empty hint lists, and used_llm False. */
  lemma FallbackShape(query: string)
    ensures Fallback(query).queries == JArr([JStr(query)]) && !Fallback(query).usedLlm
    ensures forall k :: k in HintKeys ==> k in Fallback(query).hints.fields && Fallback(query).hints.fields[k] == JArr([])
    ensures forall k :: k in Fallback(query).hints.fields ==> k in HintKeys
  {
  }

  /** used_llm is False exactly when the fallback is returned. */
  lemma NotUsedIsFallback(query: string, model: Option<string>, ask: (string, string) -> Option<Json>, parse: JsonParser)
    ensures !Expand(query, model, ask, parse).usedLlm <==> Expand(query, model, ask, parse) == Fallback(query)
    ensures ask(ModelName(model), query).None? ==> Expand(query, model, ask, parse) == Fallback(query)
  {
  }

  /** used_llm is True exactly on the successful parse path. */
  lemma UsedLlmIff(query: string, model: Option<string>, ask: (string, string) -> Option<Json>, parse: JsonParser)
    ensures Expand(query, model, ask, parse).usedLlm <==>
      var body := ask(ModelName(model), query);
      && body.Some? && ResponseText(body.value).Some?
      && var parsed := ExtractJson(ResponseText(body.value).value, parse);
      && parsed.Some? && parsed.value.JObj? && "queries" in parsed.value.fields
      && WithQuery(query, parsed.value.fields["queries"]).Some?
      && FillHints(Get(parsed.value.fields, "hints", EmptyHints), HintKeys).Some?
  {
  }

  /** Whatever path is taken, the original query is among the returned queries. */
  lemma OriginalQueryKept(query: string, model: Option<string>, ask: (string, string) -> Option<Json>, parse: JsonParser)
    ensures InJson(Expand(query, model, ask, parse).queries, query) == Some(true)
  {
  }

  /** The query goes in front of a list that lacks it, and a list that has it is left as it is. */
  lemma QueryInsertedFirst(query: string, items: seq<Json>)
    ensures JStr(query) !in items ==> WithQuery(query, JArr(items)) == Some(JArr([JStr(query)] + items))
    ensures JStr(query) in items ==> WithQuery(query, JArr(items)) == Some(JArr(items))
  {
  }

  /** After the hint loop, every key it visited is present, and keys already there keep their values. */
  lemma {:induction false} FillHintsHasKeys(hints: Json, keys: seq<string>)
    requires FillHints(hints, keys).Some?
    ensures forall k :: k in keys ==> InJson(FillHints(hints, keys).value, k) == Some(true)
    ensures hints.JObj? ==>
      && FillHints(hints, keys).value.JObj?
      && forall k :: k in hints.fields ==>
           k in FillHints(hints, keys).value.fields && FillHints(hints, keys).value.fields[k] == hints.fields[k]
  {
    if keys != [] {
      var init, key := keys[..|keys| - 1], keys[|keys| - 1];
      FillHintsHasKeys(hints, init);
      var h := FillHints(hints, init).value;
      assert forall k :: k in keys ==> k in init || k == key;
      forall k | k in init
        ensures InJson(FillHints(hints, keys).value, k) == Some(true)
      {
        AddKeyKeeps(h, key, k);
      }
    }
  }

  lemma AddKeyKeeps(h: Json, key: string, k: string)
    requires AddKey(h, key).Some? && InJson(h, k) == Some(true)
    ensures InJson(AddKey(h, key).value, k) == Some(true)
  {
  }

  /** Returned hints always answer `key in hints` with True for the four hint keys. */
  lemma HintsComplete(query: string, model: Option<string>, ask: (string, string) -> Option<Json>, parse: JsonParser)
    ensures forall k :: k in HintKeys ==> InJson(Expand(query, model, ask, parse).hints, k) == Some(true)
  {
    var r := Expand(query, model, ask, parse);
    if r.usedLlm {
      var body := ask(ModelName(model), query);
      var parsed := ExtractJson(ResponseText(body.value).value, parse);
      FillHintsHasKeys(Get(parsed.value.fields, "hints", EmptyHints), HintKeys);
    }
  }
}
