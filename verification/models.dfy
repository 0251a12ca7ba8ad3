/** The `GET /api/models` route (index.js lines 190-214): the live OpenRouter
    list when it is asked for and arrives as an array, otherwise a fixed list
    of four Gemini models. */
module Models {
  import opened Strings
  import opened Js
  import Chat

  /** Lines 206-211: the fixed list, as `{id, name}` objects. */
  const FallbackIds: seq<string> := ["gemini-2.5-pro", "gemini-2.5-flash", "gemini-2.5-flash-lite", "gemini-2.0-flash"]
  const FallbackNames: seq<string> := ["Gemini 2.5 Pro", "Gemini 2.5 Flash", "Gemini 2.5 Flash-Lite", "Gemini 2.0 Flash"]

  function FallbackModels(): (ms: Json)
    ensures ms.JArr? && |ms.items| == |FallbackIds|
    ensures forall k :: 0 <= k < |FallbackIds| ==>
              ms.items[k] == JObj(map["id" := JStr(FallbackIds[k]), "name" := JStr(FallbackNames[k])])
  {
    JArr(seq(|FallbackIds|, k requires 0 <= k < |FallbackIds| =>
      JObj(map["id" := JStr(FallbackIds[k]), "name" := JStr(FallbackNames[k])])))
  }

  /** Which list the route answers with. */
  datatype Listing = Live(models: Json) | Fixed

  /** Lines 193-213 once the company name is known: `live` is `None` when
      the fetch itself failed, `Some(JNull)` when its body was not JSON, the
      parsed body otherwise. Only "openrouter" consults the live data. */
  function Pick(name: string, live: Option<Json>): (l: Listing)
    ensures name != "openrouter" || live.None? ==> l == Fixed
  {
    if name == "openrouter" && live.Some? && Truthy(Def(live.value)) then
      // a truthy value never makes `data.data` throw
      var models := Get(Def(live.value), "data").value;
      if models.Def? && models.j.JArr? then Live(models.j) else Fixed
    else Fixed
  }

  /** The route, given `req.query.company`: a truthy `company` that is not a
      string throws at line 191, before any reply. */
  function ListModels(company: JsVal, live: Option<Json>): (r: Outcome<Listing>)
    ensures r.Threw? <==> Truthy(company) && !company.j.JStr?
    ensures !Truthy(company) ==> r == Ok(Pick("openrouter", live))
  {
    var name :- Chat.CompanyName(company);
    Ok(Pick(name, live))
  }

  /** The JSON body of the reply: always a success, naming where the list
      came from. */
  function ListingJson(l: Listing): (r: Json)
    ensures r.JObj? && r.fields.Keys == {"success", "provider", "models"} && r.fields["success"] == JBool(true)
    ensures l.Live? ==> r.fields["provider"] == JStr("openrouter") && r.fields["models"] == l.models
    ensures l.Fixed? ==> r.fields["provider"] == JStr("fallback") && r.fields["models"] == FallbackModels()
  {
    match l
    case Live(models) => JObj(map["success" := JBool(true), "provider" := JStr("openrouter"), "models" := models])
    case Fixed => JObj(map["success" := JBool(true), "provider" := JStr("fallback"), "models" := FallbackModels()])
  }

  /** The live list is used exactly when "openrouter" was asked for (or no
      company at all) and the upstream body is an object whose `data` is an
      array; it is then passed through untouched. Every other answer is the
      fixed list. */
  lemma LiveOrFallback(name: string, live: Option<Json>)
    ensures Pick(name, live).Live? <==>
              name == "openrouter" && live.Some? && live.value.JObj? &&
              "data" in live.value.fields && live.value.fields["data"].JArr?
    ensures Pick(name, live).Live? ==> Pick(name, live).models == live.value.fields["data"]
  {
    if name == "openrouter" && live.Some? && Truthy(Def(live.value)) && !live.value.JObj? {
      assert !IsDigit("data"[0]);
      assert ArrayIndex("data") == None;
      assert Get(Def(live.value), "data") == Ok(Undefined);
    }
  }
}
