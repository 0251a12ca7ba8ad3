/** The response normalisers `extractTextFromOpenRouter` and
    `extractTextFromGemini` (index.js lines 72-105). Each probes a parsed
    upstream body in a fixed order; every probe may throw (reading a property
    of `null` or `undefined`), and the surrounding `try` turns any throw into
    "no text". Here a probe evaluates to an `Outcome`, and the extractor maps
    `Threw` to `None`, so both are total. */
module Extract {
  import opened Strings
  import opened Js

  /** `ToNumber` of a string, for the integer forms: surrounding white space
      is ignored, the empty string is 0, an optional sign may precede the
      digits. `None` stands for NaN. */
  function StringToInt(s: string): Option<int> {
    var t := Trim(s);
    if t == "" then Some(0)
    else
      var neg := t[0] == '-';
      var digits := if t[0] == '-' || t[0] == '+' then t[1..] else t;
      if |digits| > 0 && forall k :: 0 <= k < |digits| ==> IsDigit(digits[k]) then
        Some(if neg then -(DecimalValue(digits) as int) else DecimalValue(digits))
      else None
  }

  /** `x > 0`, with JavaScript's conversion of `x` to a number. An object
      converts through its string form, so one with its own `toString` key
      throws; any other object is NaN. */
  function PositiveNumber(x: JsVal): Outcome<bool> {
    match x
    case Undefined => Ok(false)
    case Def(JNull) => Ok(false)
    case Def(JBool(b)) => Ok(b)
    case Def(JNum(n)) => Ok(n > 0)
    case Def(JStr(s)) => Ok(StringToInt(s).Some? && StringToInt(s).value > 0)
    case Def(JArr(xs)) =>
      var t :- JoinElems(xs, ",");
      Ok(StringToInt(t).Some? && StringToInt(t).value > 0)
    case Def(JObj(f)) => if "toString" in f then Threw else Ok(false)
  }

  /** `xs && xs.length > 0`, the guard before `xs[0]` is read. A falsy value
      is no list; an array is a non-empty list exactly when it has elements. */
  function NonEmptyList(xs: JsVal): (r: Outcome<bool>)
    ensures !Truthy(xs) ==> r == Ok(false)
    ensures xs.Def? && xs.j.JArr? ==> r == Ok(|xs.j.items| > 0)
  {
    if !Truthy(xs) then Ok(false)
    else PositiveNumber(Get(xs, "length").value)
  }

  /** `p => (p.text || '')`, the mapping applied to content parts. */
  function PartText(p: Json): (r: Outcome<Json>)
    ensures r.Threw? <==> p == JNull
  {
    var t :- Get(Def(p), "text");
    Ok(OrElse(t, JStr("")))
  }

  /** `o => (o.text || o.content || '')`, the mapping applied to `outputs`. */
  function OutputText(o: Json): (r: Outcome<Json>)
    ensures r.Threw? <==> o == JNull
  {
    var t :- Get(Def(o), "text");
    if Truthy(t) then Ok(t.j)
    else
      // `o` is neither null nor undefined once `o.text` was read
      Ok(OrElse(Get(Def(o), "content").value, JStr("")))
  }

  /** `ps.map(PartText)`: throws as soon as one element is `null`. */
  function MapPartText(ps: seq<Json>): (r: Outcome<seq<Json>>)
    ensures r.Threw? <==> JNull in ps
    ensures r.Ok? ==> |r.value| == |ps| && forall k :: 0 <= k < |ps| ==> Ok(r.value[k]) == PartText(ps[k])
  {
    if |ps| == 0 then Ok([])
    else
      var first :- PartText(ps[0]);
      var rest :- MapPartText(ps[1..]);
      Ok([first] + rest)
  }

  /** `os.map(OutputText)`: throws as soon as one element is `null`. */
  function MapOutputText(os: seq<Json>): (r: Outcome<seq<Json>>)
    ensures r.Threw? <==> JNull in os
    ensures r.Ok? ==> |r.value| == |os| && forall k :: 0 <= k < |os| ==> Ok(r.value[k]) == OutputText(os[k])
  {
    if |os| == 0 then Ok([])
    else
      var first :- OutputText(os[0]);
      var rest :- MapOutputText(os[1..]);
      Ok([first] + rest)
  }

  /** `Array.isArray(parts) ? parts.map(PartText).join('') : otherwise`: no
      text exactly when `parts` is not an array, and a `null` part throws. */
  function JoinParts(parts: JsVal): (r: Outcome<Option<string>>)
    ensures r == Ok(None) <==> !(parts.Def? && parts.j.JArr?)
    ensures parts.Def? && parts.j.JArr? && JNull in parts.j.items ==> r.Threw?
  {
    match parts
    case Def(JArr(ps)) =>
      var texts :- MapPartText(ps);
      var joined :- JoinElems(texts, "");
      Ok(Some(joined))
    case _ => Ok(None)
  }

  /** Lines 76-87: the `choices[0]` probe of the OpenRouter extractor. With
      `textGuard` false this is the code as written, where line 81 hands back
      a truthy `first.text` whatever its type; with `textGuard` true line 81
      also requires `first.text` to be a string, like every other return of
      the extractor. */
  function ChoiceText(choices: JsVal, textGuard: bool): (r: Outcome<Option<Json>>)
    ensures textGuard && r.Ok? && r.value.Some? ==> r.value.value.JStr?
  {
    var first :- Get(choices, "0");
    var msg :- Get(first, "message");
    if !Truthy(msg) then
      var text := Get(first, "text").value;
      Ok(if Truthy(text) && (!textGuard || text.j.JStr?) then Some(text.j) else None)
    else if msg.j.JStr? then Ok(Some(msg.j))
    else
      var content := Get(msg, "content").value;
      if content.Def? && content.j.JStr? then Ok(Some(content.j))
      else
        var joined :- JoinParts(OptGet(content, "parts").value);
        Ok(if joined.Some? then Some(JStr(joined.value)) else None)
  }

  /** The body of `extractTextFromOpenRouter` inside its `try`. */
  function OpenRouterProbe(data: Json, textGuard: bool): (r: Outcome<Option<Json>>)
    ensures textGuard && r.Ok? && r.value.Some? ==> r.value.value.JStr?
  {
    if !Truthy(Def(data)) then Ok(None)
    else
      // `data` is truthy, so reading its properties cannot throw
      var choices := Get(Def(data), "choices").value;
      var hasChoice :- NonEmptyList(choices);
      var fromChoice :- if hasChoice then ChoiceText(choices, textGuard) else Ok(None);
      if fromChoice.Some? then Ok(fromChoice)
      else
        var output := Get(Def(data), "output").value;
        if output.Def? && output.j.JStr? then Ok(Some(output.j))
        else
          var outputs := Get(Def(data), "outputs").value;
          match outputs
          case Def(JArr(os)) =>
            var texts :- MapOutputText(os);
            var joined :- JoinElems(texts, "\n");
            Ok(Some(JStr(joined)))
          case _ => Ok(None)
  }

  /** `extractTextFromOpenRouter` exactly as written: `None` is `null`, and a
      found value may be any truthy JSON value (line 81). */
  function OpenRouterAsWritten(data: Json): (r: Option<Json>)
    ensures !Truthy(Def(data)) ==> r == None
  {
    match OpenRouterProbe(data, false)
    case Ok(found) => found
    case Threw => None
  }

  /** `extractTextFromOpenRouter` with line 81 guarded by a string check: a
      string or nothing, never an exception. */
  function OpenRouter(data: Json): (r: Option<string>)
    ensures !Truthy(Def(data)) ==> r == None
  {
    match OpenRouterProbe(data, true)
    case Ok(Some(JStr(s))) => Some(s)
    case _ => None
  }

  /** The body of `extractTextFromGemini` inside its `try`. A falsy body has
      no text; a string `output` is never passed over unless the candidate
      probe threw or found a text first. */
  function GeminiProbe(data: Json): (r: Outcome<Option<string>>)
    ensures !Truthy(Def(data)) ==> r == Ok(None)
    ensures data.JObj? && "output" in data.fields && data.fields["output"].JStr? ==> r != Ok(None)
  {
    if !Truthy(Def(data)) then Ok(None)
    else
      // `data` is truthy, so reading its properties cannot throw
      var candidates := Get(Def(data), "candidates").value;
      var hasCandidate :- NonEmptyList(candidates);
      var fromCandidate :- if hasCandidate then CandidateText(candidates) else Ok(None);
      if fromCandidate.Some? then Ok(fromCandidate)
      else
        var output := Get(Def(data), "output").value;
        Ok(if output.Def? && output.j.JStr? then Some(output.j.s) else None)
  }

  /** Lines 97-100: `candidates[0].content.parts` joined, else
      `candidates[0].content.text` when it is a string. A missing or `null`
      first candidate makes `c.content` throw. */
  function CandidateText(candidates: JsVal): (r: Outcome<Option<string>>)
    ensures Get(candidates, "0") == Ok(Undefined) || Get(candidates, "0") == Ok(Def(JNull)) ==> r.Threw?
  {
    var c :- Get(candidates, "0");
    var content :- Get(c, "content");
    var joined :- JoinParts(OptGet(content, "parts").value);
    if joined.Some? then Ok(joined)
    else
      var text := OptGet(content, "text").value;
      Ok(if text.Def? && text.j.JStr? then Some(text.j.s) else None)
  }

  /** `extractTextFromGemini`: a string or nothing, never an exception. */
  function Gemini(data: Json): (r: Option<string>)
    ensures !Truthy(Def(data)) ==> r == None
  {
    match GeminiProbe(data)
    case Ok(found) => found
    case Threw => None
  }

  // ---------------------------------------------------------------------
  // Shapes the extractors recognise, stated over arbitrary JSON objects

  /** An object whose field `key` is one that `x.key || ''` turns into a
      string without any conversion: absent, falsy, or a string. */
  predicate PlainField(v: Json, key: string) {
    v.JObj? && (key in v.fields ==> v.fields[key].JStr? || !Truthy(Def(v.fields[key])))
  }

  /** The string such a field contributes: its text, or "" when it is absent
      or falsy. */
  function FieldText(v: Json, key: string): string {
    if v.JObj? && key in v.fields && v.fields[key].JStr? then v.fields[key].s else ""
  }

  /** A content part whose `text` is a string, falsy or absent: `{text: t}`,
      `{}`, `{text: null}` and the like. */
  predicate PlainPart(p: Json) {
    PlainField(p, "text")
  }

  /** The texts such parts contribute, "" for each part without one. */
  function PartStrings(ps: seq<Json>): seq<string> {
    seq(|ps|, k requires 0 <= k < |ps| => FieldText(ps[k], "text"))
  }

  /** An `outputs` item whose `text` and `content` are each a string, falsy
      or absent. */
  predicate PlainOutput(o: Json) {
    PlainField(o, "text") && PlainField(o, "content")
  }

  /** `o.text || o.content || ''` for such an item: the text when it is a
      non-empty string, else the content when it is a string, else "". */
  function OutputString(o: Json): string {
    if FieldText(o, "text") != "" then FieldText(o, "text") else FieldText(o, "content")
  }

  function OutputStrings(os: seq<Json>): seq<string> {
    seq(|os|, k requires 0 <= k < |os| => OutputString(os[k]))
  }

  /** A part with a falsy or missing `text` contributes the empty string. */
  lemma PlainPartText(p: Json)
    requires PlainPart(p)
    ensures PartText(p) == Ok(JStr(FieldText(p, "text")))
  {
    var t := Get(Def(p), "text").value;
    assert t.Def? ==> t.j == p.fields["text"];
  }

  /** An `outputs` item gives its text, else its content, else "". */
  lemma PlainOutputText(o: Json)
    requires PlainOutput(o)
    ensures OutputText(o) == Ok(JStr(OutputString(o)))
  {
    var t := Get(Def(o), "text").value;
    var c := Get(Def(o), "content").value;
    assert t.Def? ==> t.j == o.fields["text"];
    assert c.Def? ==> c.j == o.fields["content"];
  }

  lemma {:induction false} MapPartTextOfPlainParts(ps: seq<Json>)
    requires forall k :: 0 <= k < |ps| ==> PlainPart(ps[k])
    ensures MapPartText(ps) == Ok(Strs(PartStrings(ps)))
  {
    if |ps| > 0 {
      MapPartTextOfPlainParts(ps[1..]);
      PlainPartText(ps[0]);
      assert PartStrings(ps) == [FieldText(ps[0], "text")] + PartStrings(ps[1..]);
      assert Strs(PartStrings(ps))[1..] == Strs(PartStrings(ps[1..]));
    }
  }

  lemma {:induction false} MapOutputTextOfPlainOutputs(os: seq<Json>)
    requires forall k :: 0 <= k < |os| ==> PlainOutput(os[k])
    ensures MapOutputText(os) == Ok(Strs(OutputStrings(os)))
  {
    if |os| > 0 {
      MapOutputTextOfPlainOutputs(os[1..]);
      PlainOutputText(os[0]);
      assert OutputStrings(os) == [OutputString(os[0])] + OutputStrings(os[1..]);
      assert Strs(OutputStrings(os))[1..] == Strs(OutputStrings(os[1..]));
    }
  }

  /** Joining such parts concatenates their texts; a part without a text
      contributes nothing. */
  lemma JoinPlainParts(ps: seq<Json>)
    requires forall k :: 0 <= k < |ps| ==> PlainPart(ps[k])
    ensures JoinParts(Def(JArr(ps))) == Ok(Some(Concat(PartStrings(ps))))
  {
    MapPartTextOfPlainParts(ps);
    JoinElemsOfStrings(PartStrings(ps), "");
    JoinEmptyIsConcat(PartStrings(ps));
  }

  /** `[0]` of a non-empty array is its first element. */
  lemma FirstOf(x: Json, rest: seq<Json>)
    ensures Get(Def(JArr([x] + rest)), "0") == Ok(Def(x))
  {
    IndexOfPrintedNat(0);
  }

  /** Line 99: a Gemini reply `{candidates: [{content: {parts: [...]}}, ...]}`
      yields the part texts concatenated, a part with a falsy or missing
      `text` counting as "", whatever else the body holds. */
  lemma GeminiJoinsParts(fields: map<string, Json>, rest: seq<Json>, cand: map<string, Json>,
                         content: map<string, Json>, ps: seq<Json>)
    requires "candidates" in fields && fields["candidates"] == JArr([JObj(cand)] + rest)
    requires "content" in cand && cand["content"] == JObj(content)
    requires "parts" in content && content["parts"] == JArr(ps)
    requires forall k :: 0 <= k < |ps| ==> PlainPart(ps[k])
    ensures Gemini(JObj(fields)) == Some(Concat(PartStrings(ps)))
  {
    FirstOf(JObj(cand), rest);
    JoinPlainParts(ps);
  }

  /** Line 100: a first candidate whose `content` has no `parts` array but a
      string `text` yields that text. */
  lemma GeminiContentText(fields: map<string, Json>, rest: seq<Json>, cand: map<string, Json>,
                          content: map<string, Json>, t: string)
    requires "candidates" in fields && fields["candidates"] == JArr([JObj(cand)] + rest)
    requires "content" in cand && cand["content"] == JObj(content)
    requires "parts" !in content || !content["parts"].JArr?
    requires "text" in content && content["text"] == JStr(t)
    ensures Gemini(JObj(fields)) == Some(t)
  {
    FirstOf(JObj(cand), rest);
    assert "parts" in content ==> JoinParts(Def(content["parts"])) == Ok(None);
  }

  /** A `null` among Gemini's parts makes the mapping throw; the `try`
      swallows it and the extractor gives up, without trying `output`. */
  lemma GeminiNullPartGivesUp(fields: map<string, Json>, rest: seq<Json>, cand: map<string, Json>,
                              content: map<string, Json>, ps: seq<Json>)
    requires "candidates" in fields && fields["candidates"] == JArr([JObj(cand)] + rest)
    requires "content" in cand && cand["content"] == JObj(content)
    requires "parts" in content && content["parts"] == JArr(ps)
    requires JNull in ps
    ensures Gemini(JObj(fields)) == None
  {
    FirstOf(JObj(cand), rest);
  }

  /** Line 102: a Gemini body without candidates (none at all, or an empty
      list) falls back to a top-level string `output`. */
  lemma GeminiOutputFallback(fields: map<string, Json>, out: string)
    requires "candidates" !in fields || fields["candidates"] == JArr([])
    requires "output" in fields && fields["output"] == JStr(out)
    ensures Gemini(JObj(fields)) == Some(out)
  {
  }

  /** A first candidate that yields nothing, because its `content` is
      missing, is not an object, or has neither a `parts` array nor a string
      `text`. */
  predicate NoCandidateText(cand: map<string, Json>) {
    || "content" !in cand
    || !cand["content"].JObj?
    || (&& !("parts" in cand["content"].fields && cand["content"].fields["parts"].JArr?)
        && !("text" in cand["content"].fields && cand["content"].fields["text"].JStr?))
  }

  /** Line 102 after lines 96-101 found nothing: a first candidate without a
      text passes on to a top-level string `output`. */
  lemma GeminiCandidateFallsThrough(fields: map<string, Json>, rest: seq<Json>, cand: map<string, Json>,
                                    out: string)
    requires "candidates" in fields && fields["candidates"] == JArr([JObj(cand)] + rest)
    requires NoCandidateText(cand)
    requires "output" in fields && fields["output"] == JStr(out)
    ensures Gemini(JObj(fields)) == Some(out)
  {
    FirstOf(JObj(cand), rest);
  }

  /** Line 84: an OpenRouter chat completion `{choices: [{message: {content:
      s}}, ...]}` yields `s`, even when `s` is empty. */
  lemma OpenRouterMessageContent(fields: map<string, Json>, rest: seq<Json>, choice: map<string, Json>,
                                 message: map<string, Json>, s: string)
    requires "choices" in fields && fields["choices"] == JArr([JObj(choice)] + rest)
    requires "message" in choice && choice["message"] == JObj(message)
    requires "content" in message && message["content"] == JStr(s)
    ensures OpenRouter(JObj(fields)) == Some(s)
  {
    FirstOf(JObj(choice), rest);
  }

  /** Line 83: a first choice whose `message` is a non-empty string yields
      that string. */
  lemma OpenRouterMessageString(fields: map<string, Json>, rest: seq<Json>, choice: map<string, Json>, s: string)
    requires "choices" in fields && fields["choices"] == JArr([JObj(choice)] + rest)
    requires "message" in choice && choice["message"] == JStr(s) && s != ""
    ensures OpenRouter(JObj(fields)) == Some(s)
  {
    FirstOf(JObj(choice), rest);
  }

  /** Line 85: a first choice whose `message.content.parts` is an array of
      parts yields their texts concatenated, as Gemini's parts are. */
  lemma OpenRouterContentParts(fields: map<string, Json>, rest: seq<Json>, choice: map<string, Json>,
                               message: map<string, Json>, content: map<string, Json>, ps: seq<Json>)
    requires "choices" in fields && fields["choices"] == JArr([JObj(choice)] + rest)
    requires "message" in choice && choice["message"] == JObj(message)
    requires "content" in message && message["content"] == JObj(content)
    requires "parts" in content && content["parts"] == JArr(ps)
    requires forall k :: 0 <= k < |ps| ==> PlainPart(ps[k])
    ensures OpenRouter(JObj(fields)) == Some(Concat(PartStrings(ps)))
  {
    FirstOf(JObj(choice), rest);
    JoinPlainParts(ps);
  }

  /** Line 81: a first choice without a `message` but with a non-empty
      string `text` yields that text, with or without the string check. */
  lemma OpenRouterChoiceText(fields: map<string, Json>, rest: seq<Json>, choice: map<string, Json>, t: string)
    requires "choices" in fields && fields["choices"] == JArr([JObj(choice)] + rest)
    requires "message" !in choice || !Truthy(Def(choice["message"]))
    requires "text" in choice && choice["text"] == JStr(t) && t != ""
    ensures OpenRouter(JObj(fields)) == Some(t)
    ensures OpenRouterAsWritten(JObj(fields)) == Some(JStr(t))
  {
    FirstOf(JObj(choice), rest);
  }

  /** Line 88: a body without choices (none at all, or an empty list) yields
      a top-level string `output`. */
  lemma OpenRouterOutput(fields: map<string, Json>, out: string)
    requires "choices" !in fields || fields["choices"] == JArr([])
    requires "output" in fields && fields["output"] == JStr(out)
    ensures OpenRouter(JObj(fields)) == Some(out)
  {
  }

  /** Line 89: a body without choices or a string `output`, holding
      `outputs: [...]`, yields each item's text (else its content, else "")
      joined with newlines, whatever else the body holds. */
  lemma OpenRouterJoinsOutputs(fields: map<string, Json>, os: seq<Json>)
    requires "choices" !in fields || fields["choices"] == JArr([])
    requires "output" !in fields || !fields["output"].JStr?
    requires "outputs" in fields && fields["outputs"] == JArr(os)
    requires forall k :: 0 <= k < |os| ==> PlainOutput(os[k])
    ensures OpenRouter(JObj(fields)) == Some(Join(OutputStrings(os), "\n"))
  {
    MapOutputTextOfPlainOutputs(os);
    JoinElemsOfStrings(OutputStrings(os), "\n");
    ReachesOutputs(fields, os);
  }

  /** A body without choices or a string `output` is read for its `outputs`. */
  lemma ReachesOutputs(fields: map<string, Json>, os: seq<Json>)
    requires "choices" !in fields || fields["choices"] == JArr([])
    requires "output" !in fields || !fields["output"].JStr?
    requires "outputs" in fields && fields["outputs"] == JArr(os)
    ensures OpenRouterProbe(JObj(fields), true) ==
              (var texts :- MapOutputText(os); var joined :- JoinElems(texts, "\n"); Ok(Some(JStr(joined))))
  {
    var data := Def(JObj(fields));
    assert NonEmptyList(Get(data, "choices").value) == Ok(false);
    assert Get(data, "outputs").value == Def(JArr(os));
  }

  /** When no output text holds a newline, splitting the extracted text at
      newlines gives the texts back. */
  lemma OutputsSplitBack(fields: map<string, Json>, os: seq<Json>)
    requires "choices" !in fields || fields["choices"] == JArr([])
    requires "output" !in fields || !fields["output"].JStr?
    requires "outputs" in fields && fields["outputs"] == JArr(os)
    requires forall k :: 0 <= k < |os| ==> PlainOutput(os[k])
    requires |os| > 0 && forall k :: 0 <= k < |os| ==> '\n' !in OutputStrings(os)[k]
    ensures var r := OpenRouter(JObj(fields));
            r.Some? && Split(r.value, '\n') == OutputStrings(os)
  {
    OpenRouterJoinsOutputs(fields, os);
    SplitJoin(OutputStrings(os), '\n');
  }

  // ---------------------------------------------------------------------
  // The unguarded `first.text` of line 81

  /** As written, `{choices: [{text: 7}]}` makes the OpenRouter extractor
      hand back the number 7, which the handler then sends as the reply's
      `content`; with the string check it finds no text. */
  lemma FirstTextNotAString()
    ensures OpenRouterAsWritten(JObj(map["choices" := JArr([JObj(map["text" := JNum(7)])])])) == Some(JNum(7))
    ensures OpenRouter(JObj(map["choices" := JArr([JObj(map["text" := JNum(7)])])])) == None
  {
    FirstOf(JObj(map["text" := JNum(7)]), []);
  }

  /** The string check changes nothing when the code as written finds a
      string or finds nothing: it only turns a non-string text into no text. */
  lemma GuardAgreesOnStrings(data: Json)
    ensures OpenRouterAsWritten(data).Some? && OpenRouterAsWritten(data).value.JStr? ==>
              OpenRouter(data) == Some(OpenRouterAsWritten(data).value.s)
    ensures OpenRouterAsWritten(data).None? ==> OpenRouter(data).None?
  {
  }
}
