/** The `POST /api/chat` handler (index.js lines 107-187) as a function from
    the request body, the key the rotator handed out and what the upstream
    call produced, to the request sent upstream and the reply written to the
    caller; and `Dispatch`, which adds the rotator call on the shared pools. */
module Chat {
  import opened Strings
  import opened Js
  import Extract
  import opened Keys

  datatype Provider = OpenRouter | Google

  /** The placeholder content when no text can be extracted. */
  const NoContent := "[No content]"

  /** The model Gemini is asked for when the request names none. */
  const DefaultGeminiModel := "models/text-bison-001"

  /** `req.body.key`: a property read on the request object, which cannot
      throw. */
  function Lookup(body: map<string, Json>, key: string): JsVal {
    Get(Def(JObj(body)), key).value
  }

  /** Line 109: `(req.body.company || 'openrouter').toLowerCase()`. A truthy
      value that is not a string has no `toLowerCase`, so the call throws. */
  function CompanyName(company: JsVal): (r: Outcome<string>)
    ensures !Truthy(company) ==> r == Ok("openrouter")
    ensures Truthy(company) && company.j.JStr? ==> r == Ok(LowerAscii(company.j.s))
    ensures r.Threw? <==> Truthy(company) && !company.j.JStr?
  {
    var name := OrElse(company, JStr("openrouter"));
    LowerAsciiOfLower("openrouter");
    if name.JStr? then Ok(LowerAscii(name.s)) else Threw
  }

  /** Line 119: Gemini for "google", OpenRouter for every other name. */
  function SelectProvider(name: string): (p: Provider)
    ensures p == Google <==> name == "google"
  {
    if name == "google" then Google else OpenRouter
  }

  /** Line 111: `messages` when it is an array, otherwise the empty array. */
  function Messages(body: map<string, Json>): (r: Json)
    ensures r.JArr?
    ensures "messages" in body && body["messages"].JArr? ==> r == body["messages"]
    ensures !("messages" in body && body["messages"].JArr?) ==> r == JArr([])
  {
    var m := Lookup(body, "messages");
    if m.Def? && m.j.JArr? then m.j else JArr([])
  }

  /** `{text: m.content}` as `JSON.stringify` sends it: a key whose value is
      `undefined` is left out. */
  function TextPart(content: JsVal): Json {
    match content
    case Undefined => JObj(map[])
    case Def(c) => JObj(map["text" := c])
  }

  /** Lines 129-132 for one message: the role "user" stays "user", every
      other role (or none) becomes "assistant"; the content becomes the one
      part. Throws when the message is `null`. */
  function GeminiEntry(m: Json): (r: Outcome<Json>)
    ensures r.Threw? <==> m == JNull
  {
    var role :- Get(Def(m), "role");
    // `m` is neither null nor undefined once `m.role` was read
    var content := Get(Def(m), "content").value;
    Ok(JObj(map[
      "role" := JStr(if role == Def(JStr("user")) then "user" else "assistant"),
      "parts" := JArr([TextPart(content)])]))
  }

  /** `messages.map(...)` of lines 129-132. */
  function GeminiContents(ms: seq<Json>): (r: Outcome<seq<Json>>)
    ensures r.Threw? <==> JNull in ms
    ensures r.Ok? ==> |r.value| == |ms| && forall k :: 0 <= k < |ms| ==> Ok(r.value[k]) == GeminiEntry(ms[k])
  {
    if |ms| == 0 then Ok([])
    else
      var first :- GeminiEntry(ms[0]);
      var rest :- GeminiContents(ms[1..]);
      Ok([first] + rest)
  }

  /** Lines 128-133: the Gemini request body `{contents: [...]}`, one entry
      per message; only a `null` message makes it throw. */
  function GeminiBody(ms: seq<Json>): (r: Outcome<Json>)
    ensures r.Threw? <==> JNull in ms
    ensures r.Ok? ==> && r.value.JObj? && r.value.fields.Keys == {"contents"}
                      && r.value.fields["contents"].JArr? && |r.value.fields["contents"].items| == |ms|
  {
    var contents :- GeminiContents(ms);
    Ok(JObj(map["contents" := JArr(contents)]))
  }

  /** The Gemini body has one `contents` entry per message, in order; each
      entry has exactly a role and a single part; the role is "user" exactly
      when the message is an object whose role is "user", and "assistant"
      otherwise; the part carries the message's content, and is `{}` for a
      message without one (`JSON.stringify` drops `text: undefined`). Only a
      `null` message makes the mapping throw. */
  lemma GeminiBodyShape(ms: seq<Json>)
    ensures GeminiBody(ms).Threw? <==> JNull in ms
    ensures GeminiBody(ms).Ok? ==>
      var body := GeminiBody(ms).value;
      body.JObj? && body.fields.Keys == {"contents"} && body.fields["contents"].JArr? &&
      var cs := body.fields["contents"].items;
      |cs| == |ms| &&
      forall k :: 0 <= k < |ms| ==>
        && cs[k].JObj? && cs[k].fields.Keys == {"role", "parts"}
        && (cs[k].fields["role"] == JStr("user") <==>
              ms[k].JObj? && "role" in ms[k].fields && ms[k].fields["role"] == JStr("user"))
        && cs[k].fields["role"] in {JStr("user"), JStr("assistant")}
        && (ms[k].JObj? && "content" in ms[k].fields ==>
              cs[k].fields["parts"] == JArr([JObj(map["text" := ms[k].fields["content"]])]))
        && (!(ms[k].JObj? && "content" in ms[k].fields) ==>
              cs[k].fields["parts"] == JArr([JObj(map[])]))
  {
    var r := GeminiContents(ms);
    if r.Ok? {
      forall k | 0 <= k < |ms|
        ensures r.value[k].JObj? && r.value[k].fields.Keys == {"role", "parts"}
        ensures !(ms[k].JObj? && "content" in ms[k].fields) ==> r.value[k].fields["parts"] == JArr([JObj(map[])])
      {
        assert Ok(r.value[k]) == GeminiEntry(ms[k]);
        assert ArrayIndex("content") == None by {
          assert !IsDigit("content"[0]);
        }
      }
    }
  }

  /** Lines 161-162: the request body with the `stream` key removed. */
  function Payload(body: map<string, Json>): (p: map<string, Json>)
    ensures p.Keys == body.Keys - {"stream"}
    ensures forall k :: k in p ==> p[k] == body[k]
  {
    body - {"stream"}
  }

  /** Lines 144 and 173: `primary || secondary || '[No content]'`. */
  function Content(primary: Option<string>, secondary: Option<string>): (c: string)
    ensures c != ""
    ensures primary.Some? && primary.value != "" ==> c == primary.value
    ensures (primary.None? || primary.value == "") && secondary.Some? && secondary.value != "" ==>
              c == secondary.value
    ensures (primary.None? || primary.value == "") && (secondary.None? || secondary.value == "") ==>
              c == NoContent
  {
    var a := if primary.Some? then Def(JStr(primary.value)) else Def(JNull);
    var b := if secondary.Some? then Def(JStr(secondary.value)) else Def(JNull);
    OrElse(a, OrElse(b, JStr(NoContent))).s
  }

  /** What the upstream call produced: no response at all (a network error
      or the timeout abort), or a response with its `ok` flag and body. */
  datatype Upstream = Unreachable | Answered(ok: bool, body: UpstreamBody)

  /** A body `resp.json()` could parse, or one it could not, with what the
      second read `resp.text()` returned (`None` when it failed too). The
      second read runs after `resp.json()` has consumed the body, so with
      node-fetch it always fails; `NotJson(Some(_))` over-approximates. */
  datatype UpstreamBody = Parsed(json: Json) | NotJson(text: Option<string>)

  /** Lines 142 and 171: the parsed body, or `{raw: text}` with `null` when
      the text could not be read either. */
  function Data(b: UpstreamBody): (r: Json)
    ensures b.Parsed? ==> r == b.json
    ensures b.NotJson? ==> && r.JObj? && r.fields.Keys == {"raw"}
                           && (r.fields["raw"] == JNull <==> b.text.None?)
                           && (b.text.Some? ==> r.fields["raw"] == JStr(b.text.value))
  {
    match b
    case Parsed(j) => j
    case NotJson(t) => JObj(map["raw" := if t.Some? then JStr(t.value) else JNull])
  }

  /** The request sent upstream: the key goes in the bearer header for
      OpenRouter and in the URL for Gemini, as does Gemini's model. */
  datatype Outbound =
    | ToOpenRouter(credential: string, payload: Json)
    | ToGemini(credential: string, model: Json, payload: Json)

  /** What the handler writes back. A normalised reply carries the upstream
      body it was made from; its content is computed from that body by
      `ReplyContent`. `Unanswered` is an exception thrown before the
      handler's `try`: the handler writes nothing, and its rejected promise
      reaches the process as an unhandled rejection. */
  datatype Reply =
    | Normalized(status: int, success: bool, provider: Provider, model: Json, raw: Json)
    | Failed(status: int, error: string)
    | Unanswered

  datatype Exchange = Exchange(sent: Option<Outbound>, reply: Reply)

  /** The provider's name in a reply. */
  function ProviderName(p: Provider): string {
    if p == Google then "google" else "openrouter"
  }

  /** The chosen provider's extractor first, the other one second. */
  function Texts(provider: Provider, data: Json): (Option<string>, Option<string>) {
    if provider == Google then (Extract.Gemini(data), Extract.OpenRouter(data))
    else (Extract.OpenRouter(data), Extract.Gemini(data))
  }

  /** Lines 144 and 173: the content of a normalised reply, from the
      upstream body it carries. */
  function ReplyContent(r: Reply): (c: string)
    requires r.Normalized?
    ensures c != ""
  {
    var (primary, secondary) := Texts(r.provider, r.raw);
    Content(primary, secondary)
  }

  /** The content is the chosen provider's extracted text when that is
      non-empty, else the other extractor's when that is non-empty, else the
      placeholder: an extracted empty string never reaches the caller. */
  lemma ContentFallback(r: Reply)
    requires r.Normalized?
    ensures var (primary, secondary) := Texts(r.provider, r.raw);
            if primary.Some? && primary.value != "" then ReplyContent(r) == primary.value
            else if secondary.Some? && secondary.value != "" then ReplyContent(r) == secondary.value
            else ReplyContent(r) == NoContent
  {
  }

  /** Lines 141-152 and 170-181: the normalised reply to an upstream answer,
      whose status follows its `ok` flag; a failed call (lines 183-186) is
      the catch-all 500. */
  function Respond(provider: Provider, model: Json, upstream: Upstream): (r: Reply)
    ensures r.Normalized? <==> upstream.Answered?
    ensures upstream.Answered? ==>
              && r.success == upstream.ok && r.status == (if upstream.ok then 200 else 502)
              && r.provider == provider && r.model == model && r.raw == Data(upstream.body)
    ensures upstream.Unreachable? ==> r == Failed(500, "Internal server error")
  {
    match upstream
    case Unreachable => Failed(500, "Internal server error")
    case Answered(ok, b) => Normalized(if ok then 200 else 502, ok, provider, model, Data(b))
  }

  /** The error message when the chosen provider's pool handed out no key. */
  function MissingKey(p: Provider): string {
    if p == Google then "No Gemini API key available" else "No OpenRouter API key available"
  }

  /** The model Gemini is asked for (line 124): the request's `model`, or
      the default when that is falsy. */
  function ChosenModel(body: map<string, Json>): Json {
    OrElse(Lookup(body, "model"), JStr(DefaultGeminiModel))
  }

  /** Lines 124-133 and 158-162: the request for the chosen provider, given a
      key. For Gemini, `encodeURIComponent` converts the model to a string
      (line 125), which throws for an object with its own `toString`, and
      building the body throws on a `null` message. */
  function Request(p: Provider, body: map<string, Json>, k: string): (r: Outcome<Outbound>)
    ensures r.Ok? ==> r.value.credential == k && (r.value.ToGemini? <==> p == Google)
    ensures p == OpenRouter ==> r == Ok(ToOpenRouter(k, JObj(Payload(body))))
    ensures p == Google ==>
              (r.Threw? <==> ThrowsOnString(ChosenModel(body)) || JNull in Messages(body).items)
  {
    if p == Google then
      var chosenModel := ChosenModel(body);
      if ThrowsOnString(chosenModel) then Threw
      else
        var payload :- GeminiBody(Messages(body).items);
        Ok(ToGemini(k, chosenModel, payload))
    else Ok(ToOpenRouter(k, JObj(Payload(body))))
  }

  /** The model named in the reply: the one Gemini was asked for, or the
      request's `model || ''` for OpenRouter. */
  function ReplyModel(body: map<string, Json>, out: Outbound): (m: Json)
    ensures out.ToGemini? ==> m == out.model
    ensures out.ToOpenRouter? && Truthy(Lookup(body, "model")) ==> m == body["model"]
    ensures out.ToOpenRouter? && !Truthy(Lookup(body, "model")) ==> m == JStr("")
  {
    if out.ToGemini? then out.model else OrElse(Lookup(body, "model"), JStr(""))
  }

  /** The whole handler as written, given the key the rotator of the chosen
      provider handed out (`None` for `null`). Line 109 runs before the
      handler's `try`, so a `company` that cannot be lower-cased throws out
      of the handler, and no reply is written. */
  function HandleAsWritten(body: map<string, Json>, key: Option<string>, upstream: Upstream): (x: Exchange)
    ensures x.reply.Unanswered? <==> CompanyName(Lookup(body, "company")).Threw?
    ensures x.reply.Unanswered? ==> x.sent.None?
  {
    match CompanyName(Lookup(body, "company"))
    case Threw => Exchange(None, Unanswered)
    case Ok(name) => Serve(SelectProvider(name), body, key, upstream)
  }

  /** The whole handler with line 109 inside the `try`, as the catch-all of
      lines 183-186 evidently intends: a `company` that cannot be
      lower-cased is answered with the 500 like every other failure, and
      every request gets a reply. */
  function Handle(body: map<string, Json>, key: Option<string>, upstream: Upstream): (x: Exchange)
    ensures x.reply != Unanswered
    ensures CompanyName(Lookup(body, "company")).Threw? ==> x == Exchange(None, Failed(500, "Internal server error"))
  {
    match CompanyName(Lookup(body, "company"))
    case Threw => Exchange(None, Failed(500, "Internal server error"))
    case Ok(name) => Serve(SelectProvider(name), body, key, upstream)
  }

  /** Lines 110-186, once the provider is chosen. A throw inside the
      handler's `try` becomes the 500 of lines 183-186. The request, when one
      is sent, goes to the chosen provider under the key handed out. */
  function Serve(p: Provider, body: map<string, Json>, key: Option<string>, upstream: Upstream): (x: Exchange)
    ensures x.reply != Unanswered
    ensures x.sent.Some? ==> && key == Some(x.sent.value.credential) && x.sent.value.credential != ""
                             && (x.sent.value.ToGemini? <==> p == Google)
  {
    if !Messages(body).JArr? then Exchange(None, Failed(400, "messages must be an array"))
    else if key.None? || key.value == "" then Exchange(None, Failed(500, MissingKey(p)))
    else
      match Request(p, body, key.value)
      case Threw => Exchange(None, Failed(500, "Internal server error"))
      case Ok(out) => Exchange(Some(out), Respond(p, ReplyModel(body, out), upstream))
  }

  /** The JSON body of a reply, as `res.json(...)` sends it; a request left
      unanswered has none. */
  function ReplyJson(r: Reply): (j: Option<Json>)
    ensures j.None? <==> r.Unanswered?
    ensures j.Some? ==> j.value.JObj? && "success" in j.value.fields
    ensures r.Failed? ==> j.value.fields == map["success" := JBool(false), "error" := JStr(r.error)]
  {
    match r
    case Normalized(_, success, provider, model, raw) =>
      Some(JObj(map[
        "success" := JBool(success),
        "provider" := JStr(ProviderName(provider)),
        "model" := model,
        "choices" := JArr([JObj(map["message" := JObj(map["role" := JStr("assistant"), "content" := JStr(ReplyContent(r))])])]),
        "raw" := raw]))
    case Failed(_, error) => Some(JObj(map["success" := JBool(false), "error" := JStr(error)]))
    case Unanswered => None
  }

  // ---------------------------------------------------------------------
  // What the handler guarantees

  /** The provider is Gemini exactly when `company` is a string that
      lower-cases to "google" (an absent or falsy `company` names
      "openrouter", by the contract of `CompanyName`). */
  lemma ProviderChoice(company: JsVal)
    ensures CompanyName(company) == Ok("google") <==>
              company.Def? && company.j.JStr? && LowerAscii(company.j.s) == "google"
  {
  }

  /** Line 111 already replaces a non-array `messages` by `[]`, so the 400
      reply of lines 114-116 is never produced. */
  lemma NeverRejectsMessages(body: map<string, Json>, key: Option<string>, upstream: Upstream)
    ensures HandleAsWritten(body, key, upstream).reply.Failed? ==> HandleAsWritten(body, key, upstream).reply.status != 400
    ensures Handle(body, key, upstream).reply.Failed? ==> Handle(body, key, upstream).reply.status != 400
  {
    match CompanyName(Lookup(body, "company"))
    case Threw =>
    case Ok(name) => ServeNeverRejects(SelectProvider(name), body, key, upstream);
  }

  /** As written, a `company` that is truthy but not a string, such as the
      number 1, throws at line 109 outside the `try`: the request is left
      without a reply. With line 109 inside the `try` it gets the 500. */
  lemma CompanyNotAStringAsWritten(key: Option<string>, upstream: Upstream)
    ensures HandleAsWritten(map["company" := JNum(1)], key, upstream) == Exchange(None, Unanswered)
    ensures Handle(map["company" := JNum(1)], key, upstream) == Exchange(None, Failed(500, "Internal server error"))
  {
    assert Lookup(map["company" := JNum(1)], "company") == Def(JNum(1));
  }

  /** Every request gets a reply, and every failure is a 500; where `company`
      can be lower-cased this is exactly the handler as written. */
  lemma EveryRequestAnswered(body: map<string, Json>, key: Option<string>, upstream: Upstream)
    ensures Handle(body, key, upstream).reply != Unanswered
    ensures Handle(body, key, upstream).reply.Failed? ==> Handle(body, key, upstream).reply.status == 500
    ensures CompanyName(Lookup(body, "company")).Ok? ==> HandleAsWritten(body, key, upstream) == Handle(body, key, upstream)
  {
    match CompanyName(Lookup(body, "company"))
    case Threw =>
    case Ok(name) => ServeNeverRejects(SelectProvider(name), body, key, upstream);
  }

  lemma ServeNeverRejects(p: Provider, body: map<string, Json>, key: Option<string>, upstream: Upstream)
    ensures Serve(p, body, key, upstream).reply.Failed? ==> Serve(p, body, key, upstream).reply.status == 500
  {
    assert Messages(body).JArr?;
    if key.Some? && key.value != "" {
      match Request(p, body, key.value)
      case Threw =>
      case Ok(out) =>
        var r := Respond(p, ReplyModel(body, out), upstream);
        assert r.Failed? ==> r.status == 500;
    }
  }

  /** Without a usable key nothing is sent and the reply is a 500 naming the
      provider whose pool is empty. */
  lemma NoKeyNoRequest(p: Provider, body: map<string, Json>, key: Option<string>, upstream: Upstream)
    requires key.None? || key.value == ""
    ensures Serve(p, body, key, upstream).sent == None
    ensures Serve(p, body, key, upstream).reply ==
              Failed(500, if p == Google then "No Gemini API key available" else "No OpenRouter API key available")
  {
    assert Messages(body).JArr?;
  }

  /** With a key, OpenRouter is sent the caller's body with only `stream`
      removed: in particular the messages verbatim. */
  lemma OpenRouterForwardsBody(body: map<string, Json>, k: string, upstream: Upstream)
    requires k != ""
    ensures var sent := Serve(OpenRouter, body, Some(k), upstream).sent;
            sent.Some? && sent.value.ToOpenRouter? && sent.value.credential == k &&
            sent.value.payload.JObj? &&
            sent.value.payload.fields.Keys == body.Keys - {"stream"} &&
            (forall f :: f in sent.value.payload.fields ==> sent.value.payload.fields[f] == body[f]) &&
            ("messages" in body ==> sent.value.payload.fields["messages"] == body["messages"])
  {
    assert Messages(body).JArr?;
    assert Request(OpenRouter, body, k) == Ok(ToOpenRouter(k, JObj(Payload(body))));
  }

  /** With a key and no `null` message, Gemini is sent the translated body
      for the messages and the requested model, or the default model. */
  lemma GeminiForwardsMessages(body: map<string, Json>, k: string, upstream: Upstream)
    requires k != ""
    requires JNull !in Messages(body).items
    requires !ThrowsOnString(ChosenModel(body))
    ensures var sent := Serve(Google, body, Some(k), upstream).sent;
            sent.Some? && sent.value.ToGemini? && sent.value.credential == k &&
            GeminiBody(Messages(body).items) == Ok(sent.value.payload) &&
            sent.value.model == (if Truthy(Lookup(body, "model")) then body["model"] else JStr(DefaultGeminiModel))
  {
    assert Messages(body).JArr?;
  }

  /** A Gemini request whose model cannot be converted to a string (an
      object with its own `toString`) throws at line 125: nothing is sent
      and the reply is the catch-all 500. */
  lemma UnprintableModel(body: map<string, Json>, k: string, upstream: Upstream)
    requires k != ""
    requires "model" in body && body["model"].JObj? && "toString" in body["model"].fields
    ensures Serve(Google, body, Some(k), upstream) == Exchange(None, Failed(500, "Internal server error"))
  {
    assert Lookup(body, "model") == Def(body["model"]);
    assert Messages(body).JArr?;
  }

  /** Every normalised reply answers a request that reached upstream: its
      `success` is upstream's `ok`, its status 200 or 502 to match, its
      provider the chosen one, its model the one asked for, and the upstream
      body (or `{raw: text}`) is under `raw`. A failed upstream call gives a
      500. */
  lemma NormalizedReply(p: Provider, body: map<string, Json>, key: Option<string>, upstream: Upstream)
    ensures var x := Serve(p, body, key, upstream);
            && (x.reply.Normalized? ==>
                  && upstream.Answered? && x.sent.Some?
                  && x.reply.success == upstream.ok
                  && x.reply.status == (if upstream.ok then 200 else 502)
                  && x.reply.raw == Data(upstream.body)
                  && x.reply.provider == p
                  && x.reply.model == ReplyModel(body, x.sent.value))
            && (x.sent.Some? && upstream.Unreachable? ==> x.reply == Failed(500, "Internal server error"))
  {
    assert Messages(body).JArr?;
  }

  /** A request with no `company`, or with "openrouter", goes to OpenRouter. */
  lemma DefaultProvider(body: map<string, Json>, key: Option<string>, upstream: Upstream)
    requires "company" !in body || body["company"] == JStr("openrouter")
    ensures HandleAsWritten(body, key, upstream) == Serve(OpenRouter, body, key, upstream)
    ensures Handle(body, key, upstream) == Serve(OpenRouter, body, key, upstream)
  {
    assert CompanyName(Lookup(body, "company")) == Ok("openrouter") by {
      LowerAsciiOfLower("openrouter");
    }
  }

  /** A request to OpenRouter that upstream answers with a body holding a
      non-empty text: upstream receives the caller's messages verbatim, and
      the reply carries exactly that text with status 200 or 502. */
  lemma OpenRouterRoundTrip(body: map<string, Json>, k: string, ok: bool, data: Json)
    requires "messages" in body && k != ""
    requires Extract.OpenRouter(data).Some? && Extract.OpenRouter(data).value != ""
    ensures var x := Serve(OpenRouter, body, Some(k), Answered(ok, Parsed(data)));
            && x.sent.Some? && x.sent.value.payload.JObj?
            && "messages" in x.sent.value.payload.fields
            && x.sent.value.payload.fields["messages"] == body["messages"]
            && x.reply.Normalized?
            && ReplyContent(x.reply) == Extract.OpenRouter(data).value
            && x.reply.status == (if ok then 200 else 502)
  {
    var upstream := Answered(ok, Parsed(data));
    OpenRouterForwardsBody(body, k, upstream);
    NormalizedReply(OpenRouter, body, Some(k), upstream);
    ContentFallback(Serve(OpenRouter, body, Some(k), upstream).reply);
  }

  /** Lines 144 and 173 over the extractors as written: the `||` chain over
      whatever values they return, so the content may be any truthy JSON
      value, not only a string. */
  function ReplyContentAsWritten(r: Reply): (c: Json)
    requires r.Normalized?
    ensures Truthy(Def(c))
  {
    var fromOpenRouter := Extract.OpenRouterAsWritten(r.raw);
    var fromGemini := Extract.Gemini(r.raw);
    var o := if fromOpenRouter.Some? then Def(fromOpenRouter.value) else Def(JNull);
    var g := if fromGemini.Some? then Def(JStr(fromGemini.value)) else Def(JNull);
    if r.provider == Google then OrElse(g, OrElse(o, JStr(NoContent)))
    else OrElse(o, OrElse(g, JStr(NoContent)))
  }

  /** As written, the OpenRouter reply to the upstream body
      `{"choices":[{"text":7}]}` has the number 7 as its content; the model's
      reply, with the string check, has the placeholder. */
  lemma NumberContentAsWritten(body: map<string, Json>, k: string, ok: bool)
    requires k != ""
    ensures var data := JObj(map["choices" := JArr([JObj(map["text" := JNum(7)])])]);
            var x := Serve(OpenRouter, body, Some(k), Answered(ok, Parsed(data)));
            && x.reply.Normalized?
            && ReplyContentAsWritten(x.reply) == JNum(7)
            && ReplyContent(x.reply) == NoContent
  {
    var data := JObj(map["choices" := JArr([JObj(map["text" := JNum(7)])])]);
    Extract.FirstTextNotAString();
    assert Messages(body).JArr?;
    assert Extract.Gemini(data) == None;
  }

  /** The string check changes the reply only where the code as written
      would send a non-string `content`: whenever the OpenRouter extractor
      as written finds a string or nothing, both contents agree. */
  lemma ContentAgreesOnStrings(r: Reply)
    requires r.Normalized?
    requires Extract.OpenRouterAsWritten(r.raw).None? || Extract.OpenRouterAsWritten(r.raw).value.JStr?
    ensures ReplyContentAsWritten(r) == JStr(ReplyContent(r))
  {
    Extract.GuardAgreesOnStrings(r.raw);
    ContentFallback(r);
  }

  /** The JSON sent to the caller for a normalised reply: one choice whose
      message has role "assistant" and the normalised content. */
  lemma ReplyJsonShape(r: Reply)
    requires r.Normalized?
    ensures ReplyJson(r).Some? && ReplyJson(r).value.JObj?
    ensures var f := ReplyJson(r).value.fields;
            && f.Keys == {"success", "provider", "model", "choices", "raw"}
            && f["success"] == JBool(r.success)
            && f["provider"] == JStr(ProviderName(r.provider))
            && f["model"] == r.model
            && f["raw"] == r.raw
            && f["choices"].JArr? && |f["choices"].items| == 1
            && var choice := f["choices"].items[0];
               choice.JObj? && "message" in choice.fields && choice.fields["message"].JObj?
               && choice.fields["message"].fields["role"] == JStr("assistant")
               && choice.fields["message"].fields["content"] == JStr(ReplyContent(r))
               && choice.fields["message"].fields["content"] != JStr("")
  {
  }

  /** Lines 108-187 with the rotator: the key comes from the pool of the
      chosen provider, only that pool's cursor moves, and nothing moves when
      `company` cannot be lower-cased (line 109 runs before either rotator
      is called). */
  method Dispatch(pools: KeyPools, body: map<string, Json>, upstream: Upstream) returns (x: Exchange)
    requires pools.Valid()
    modifies pools
    ensures pools.Valid()
    ensures match CompanyName(Lookup(body, "company"))
      case Threw =>
        && x == Exchange(None, Failed(500, "Internal server error"))
        && pools.keyIndex == old(pools.keyIndex) && pools.geminiKeyIndex == old(pools.geminiKeyIndex)
      case Ok(name) =>
        if SelectProvider(name) == Google then
          && x == Handle(body, Step(pools.geminiKeys, old(pools.geminiKeyIndex)).0, upstream)
          && pools.geminiKeyIndex == Step(pools.geminiKeys, old(pools.geminiKeyIndex)).1
          && pools.keyIndex == old(pools.keyIndex)
        else
          && x == Handle(body, Step(pools.apiKeys, old(pools.keyIndex)).0, upstream)
          && pools.keyIndex == Step(pools.apiKeys, old(pools.keyIndex)).1
          && pools.geminiKeyIndex == old(pools.geminiKeyIndex)
  {
    match CompanyName(Lookup(body, "company")) {
      case Threw =>
        x := Exchange(None, Failed(500, "Internal server error"));
      case Ok(name) =>
        var key;
        if SelectProvider(name) == Google {
          key := pools.NextGeminiKey();
        } else {
          key := pools.NextApiKey();
        }
        x := Handle(body, key, upstream);
    }
  }
}
