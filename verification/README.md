# OpenRouter / Gemini chat proxy: verified model of its core

`index.js` is an Express server that forwards chat requests to OpenRouter or
to Google's Gemini API and normalises the answer into one shape. This project
models the parts of it that decide what happens, and proves properties of the
model:

- **Credential rotation** (`keys.dfy`). Two key pools are parsed from the
  `API_KEYS` and `GEMINI_KEYS` settings. Each setting is split on commas, each
  entry is trimmed, and empty entries are dropped. The class `KeyPools` holds
  both pools and the two module-level cursors. `NextApiKey` and
  `NextGeminiKey` hand out the key at the cursor and advance the cursor
  modulo the pool size; an empty pool hands out nothing.
- **Response text extraction** (`extract.dfy`), the normalisers
  `extractTextFromOpenRouter` and `extractTextFromGemini`. An upstream body is
  a JSON tree (`Js.Json`). Each property read evaluates to an `Outcome` that
  records whether JavaScript would throw, and the extractors turn a throw into
  "no text", as the source's `try` does.
- **The `/api/chat` handler** (`chat.dfy`). It covers provider selection, the
  Gemini request body, the OpenRouter payload (the request body without
  `stream`), the content fallback chain, and the status and `success`
  mapping. The handler is a function of three things: the request body, the
  key the rotator handed out, and what the upstream call produced.
  `Dispatch` adds the rotator call on the shared `KeyPools`.
- **The CORS origin decision** (`cors.dfy`) and the **`/api/models` selector**
  (`models.dfy`).
- `strings.dfy` and `js.dfy` hold the JavaScript semantics all of these rely
  on:
  - `split`, `join`, `trim` and `toLowerCase`;
  - truthiness and `||`;
  - property access, which throws on `null`/`undefined`, and optional
    chaining;
  - array indexing by canonical decimal keys;
  - the string conversion that `Array.prototype.join` applies to elements.

Two things about the handler are easy to miss when reading it:

- Line 111 replaces a `messages` that is not an array by `[]`, so the 400
  branch at lines 114-116 is dead (`Chat.NeverRejectsMessages`).
- Line 109 lower-cases `company` before the handler's `try`. A truthy
  `company` that is not a string, such as `{"company":1}`, throws out of
  the async handler. Under Express 4 the router ignores the rejected
  promise, so it is an unhandled rejection. Node 15 and later turn that
  into an uncaught exception, and the file installs no handler, so the
  process exits and every client loses the server. Under Express 5 the
  router's default error handler answers 500 instead. The code as written
  is `Chat.HandleAsWritten`, whose `Unanswered` reply stands for "this
  handler writes nothing". The rest of the model uses `Chat.Handle`, with
  line 109 inside the `try` (see "## Findings").

## Model

| member | source | states |
|---|---|---|
| Strings.Split | index.js:39 | `split` on a one-character separator gives at least one piece, and no piece contains the separator |
| Strings.JoinSplit | index.js:39 | joining the pieces of a split with the separator gives the original string back |
| Strings.SplitJoin | index.js:20 | splitting the join of separator-free pieces gives the pieces back |
| Strings.Join | index.js:85-89 | `join` starts with the first piece; `JoinSplit` and `SplitJoin` relate it to `split` |
| Strings.JoinEmptyIsConcat | index.js:99 | `join('')` is plain concatenation |
| Strings.TrimStartSpec | index.js:39 | the leading-space pass of `trim` leaves a suffix whose first character is not white space, and the part it removed is all white space |
| Strings.TrimEndSpec | index.js:39 | the trailing-space pass of `trim` leaves a prefix whose last character is not white space, and the part it removed is all white space |
| Strings.Trim | index.js:39 | `trim` leaves no white space at either end |
| Strings.TrimIsInfix | index.js:39 | `trim` returns the infix of its input that follows the leading white space; only white space is removed, and only at the two ends |
| Strings.TrimOfTrimmed | index.js:39 | a string with no white space at its ends is its own trim |
| Strings.TrimIdempotent | index.js:39 | trimming twice is trimming once |
| Strings.TrimKeepsNonSpace | index.js:39 | trimming neither adds nor removes any character that is not white space, in particular a comma |
| Strings.LowerAscii | index.js:109 | lower-casing keeps the length |
| Strings.LowerAsciiAt | index.js:109 | lower-casing maps each character on its own |
| Strings.LowerAsciiOfLower | index.js:109 | a string with no upper-case letters is its own lower case |
| Js.ArrayIndex | index.js:77 | a key denotes an array index only when it is the printed form of that index |
| Js.IndexOfPrintedNat | index.js:77 | the printed form of every natural number is read back as that index, so `[0]` reads element 0 |
| Js.DecimalOfNatToString | index.js:77 | reading printed digits back gives the number that was printed |
| Js.Get | index.js:76-78 | a property read throws exactly on `null` and `undefined`; on an object it gives the field, or `undefined` when the field is absent |
| Js.OptGet | index.js:98 | optional chaining never throws; on `null`/`undefined` it gives `undefined`, and otherwise it is a plain read |
| Js.OrElse | index.js:110 | `x \|\| fallback` is `x` when `x` is truthy and the fallback otherwise |
| Js.ToStr | index.js:99 | converting a JSON value to a string throws exactly when it holds an object with its own `toString` key; a string converts to itself |
| Js.JoinElems | index.js:99 | an array `join` throws exactly when one of its elements cannot be converted to a string |
| Js.JoinElemsOfStrings | index.js:85 | on JSON strings the array `join` is the string `join` |
| Keys.DropEmpty | index.js:39 | `filter(Boolean)` keeps only non-empty entries of its input and never lengthens it |
| Keys.ParseKeys | index.js:39-41 | an unset or empty setting gives no keys, and no parsed key is empty |
| Keys.TrimAll | index.js:39 | `map(k => k.trim())` trims each entry in place |
| Keys.DropEmptyAt | index.js:39 | `filter(Boolean)` keeps exactly the non-empty entries, in order: entry `i` lands at the position given by the number of non-empty entries before it |
| Keys.ParseKeysOrder | index.js:39-41 | a parsed pool keeps the order of the comma-separated entries; each key is its entry trimmed, and entries that trim to empty are the only ones dropped |
| Keys.ParsedKeysAreClean | index.js:39-41 | every parsed key is non-empty, has no white space at its ends, holds no comma, and is the trim of one of the setting's entries |
| Keys.ParseKeysOfJoin | index.js:39-41 | writing clean keys comma-separated into the setting and parsing it gives the same pool back |
| Keys.Step | index.js:44-55 | an empty pool gives `null` and leaves the cursor; otherwise the call returns the key at the cursor and moves the cursor to `(cursor + 1) % size`, so the cursor stays inside the pool |
| Keys.Run | index.js:44-48 | `n` consecutive calls hand out `n` answers and keep the cursor inside the pool |
| Keys.RunRotates | index.js:44-48 | call `i` of a run hands out the key `i` places after the starting cursor, wrapping around; the run leaves the cursor `n` places on |
| Keys.RoundRobin | index.js:44-48 | with `N` keys, `N` calls from a fresh cursor hand out every key once in pool order and bring the cursor back to 0, so call `N + 1` repeats the first key |
| Keys.EmptyPoolRun | index.js:44-45 | an empty pool answers `null` to every call, and its cursor never moves |
| Keys.KeyPools.constructor | index.js:39-42 | start-up parses both settings and sets both cursors to 0 |
| Keys.KeyPools.NextApiKey | index.js:44-49 | `getNextApiKey` does what `Step` says on the OpenRouter pool and leaves the Gemini cursor alone |
| Keys.KeyPools.NextGeminiKey | index.js:50-55 | `getNextGeminiKey` does what `Step` says on the Gemini pool and leaves the OpenRouter cursor alone |
| Extract.NonEmptyList | index.js:76 | `xs && xs.length > 0` is false for a falsy value and, on an array, true exactly when it has elements |
| Extract.PartText | index.js:85 | `p => (p.text \|\| '')` throws exactly on a `null` part |
| Extract.MapPartText | index.js:99 | mapping over parts throws exactly when a part is `null`; otherwise it maps each part on its own and keeps the length |
| Extract.OutputText | index.js:89 | `o => (o.text \|\| o.content \|\| '')` throws exactly on a `null` item |
| Extract.MapOutputText | index.js:89 | mapping over `outputs` throws exactly when an item is `null`; otherwise it maps each item on its own and keeps the length |
| Extract.JoinParts | index.js:85 | `Array.isArray(parts) ? parts.map(...).join('')` finds no text exactly when `parts` is not an array, and throws on a `null` part |
| Extract.ChoiceText | index.js:76-87 | with the string check on `first.text`, a text the `choices[0]` probe finds is always a string |
| Extract.OpenRouterProbe | index.js:74-90 | with the string check, any text the OpenRouter probe finds is a string |
| Extract.OpenRouterAsWritten | index.js:73-92 | the OpenRouter extractor as written gives `null` for a falsy body and never throws |
| Extract.OpenRouter | index.js:73-92 | the OpenRouter extractor, with the string check at line 81, gives a string or `null` for any body, never throws, and gives `null` for a falsy body |
| Extract.CandidateText | index.js:97-100 | a missing or `null` first candidate makes `c.content` throw |
| Extract.GeminiProbe | index.js:94-103 | a falsy body has no text, and a string `output` is never passed over unless the candidate probe threw or found a text first |
| Extract.Gemini | index.js:93-105 | the Gemini extractor gives a string or `null` for any body, never throws, and gives `null` for a falsy body |
| Extract.PlainPartText | index.js:85 | a part whose `text` is a string gives it; a part whose `text` is missing or falsy gives "" |
| Extract.PlainOutputText | index.js:89 | an `outputs` item gives its `text` when that is a non-empty string, else its `content` when that is a string, else "" |
| Extract.MapPartTextOfPlainParts | index.js:99 | such parts map to their texts, in order |
| Extract.MapOutputTextOfPlainOutputs | index.js:89 | such items map to their texts, in order |
| Extract.JoinPlainParts | index.js:99 | an array of such parts joins to the concatenation of their texts, a part without one adding nothing |
| Extract.GeminiJoinsParts | index.js:96-99 | a body whose first candidate has `content.parts` yields the part texts concatenated (`{}` and `{text: null}` adding ""), whatever else the body holds |
| Extract.GeminiContentText | index.js:100 | a first candidate whose `content` has no `parts` array but a string `text` yields that text |
| Extract.GeminiNullPartGivesUp | index.js:96-104 | a `null` among the first candidate's parts makes the Gemini extractor give `null`, without trying `output` |
| Extract.GeminiOutputFallback | index.js:96-102 | a body with no candidates, or an empty list of them, falls back to a string `output` |
| Extract.GeminiCandidateFallsThrough | index.js:96-102 | a first candidate without `content`, with a non-object `content`, or with neither a `parts` array nor a string `text`, falls back to a string `output` |
| Extract.OpenRouterMessageContent | index.js:84 | a first choice with a string `message.content` yields that string, even when it is empty, whatever else the body holds |
| Extract.OpenRouterMessageString | index.js:83 | a first choice whose `message` is a non-empty string yields that string |
| Extract.OpenRouterContentParts | index.js:85 | a first choice with a `message.content.parts` array yields the part texts concatenated |
| Extract.OpenRouterChoiceText | index.js:79-81 | a first choice without a truthy `message` but with a non-empty string `text` yields that text, with the string check and as written |
| Extract.OpenRouterOutput | index.js:88 | a body with no choices, or an empty list of them, yields a string `output` |
| Extract.ReachesOutputs | index.js:76-89 | a body with no choices and no string `output` is read for its `outputs` |
| Extract.OpenRouterJoinsOutputs | index.js:89 | a body with no choices and no string `output` yields its `outputs` items' texts (each `text`, else `content`, else "") joined with newlines, whatever else the body holds |
| Extract.OutputsSplitBack | index.js:89 | when no output text holds a newline, splitting the extracted text at newlines gives the texts back |
| Extract.FirstTextNotAString | index.js:81 | as written, `{choices: [{text: 7}]}` yields the number 7; with the string check it yields `null` |
| Extract.GuardAgreesOnStrings | index.js:81 | the string check changes nothing when the code as written finds a string or finds nothing |
| Chat.CompanyName | index.js:109 | a falsy `company` means "openrouter"; a truthy string is lower-cased; a truthy non-string throws |
| Chat.ProviderChoice | index.js:109-119 | Gemini is chosen exactly when `company` is a string that lower-cases to "google" |
| Chat.DefaultProvider | index.js:109-119 | a request with no `company`, or with "openrouter", is served by the OpenRouter branch, as written and corrected |
| Chat.SelectProvider | index.js:119 | Gemini is chosen exactly for the name "google" |
| Chat.Messages | index.js:111 | `messages` is always an array: the request's own when it is one, `[]` otherwise |
| Chat.NeverRejectsMessages | index.js:111-116 | the handler, as written and corrected, never answers 400 |
| Chat.ServeNeverRejects | index.js:111-186 | once the provider is chosen, every error reply is a 500 |
| Chat.GeminiEntry | index.js:129-132 | translating one message throws exactly when the message is `null` |
| Chat.GeminiContents | index.js:129-132 | the message mapping throws exactly when a message is `null`; otherwise it translates each message on its own and keeps the count |
| Chat.GeminiBodyShape | index.js:128-133 | the Gemini body is `{contents}` with one entry per message, in order; each entry has a role and one part; the role is "user" exactly when the message's role is "user", and "assistant" otherwise; the part is `{text: content}`, or `{}` for a message without `content` |
| Chat.GeminiBody | index.js:128-133 | the Gemini body throws exactly when a message is `null`; otherwise it is `{contents}` with one entry per message |
| Chat.Payload | index.js:161-162 | the OpenRouter payload has the request's keys except `stream`, each with its value unchanged |
| Chat.Content | index.js:144 | `primary \|\| secondary \|\| '[No content]'` is the primary text when non-empty, else the secondary when non-empty, else "[No content]"; it is never empty |
| Chat.Data | index.js:141-142 | the reply's `raw` is the parsed body, or `{raw: text}` with `null` when the text could not be read |
| Chat.Respond | index.js:141-152 | an upstream answer gives a normalised reply whose `success` is its `ok` and whose status is 200 or 502 to match; a failed call gives the catch-all 500 |
| Chat.Request | index.js:121-133 | the request carries the key handed out and goes to the chosen provider; for OpenRouter it carries the body without `stream`; for Gemini it throws exactly when the model cannot be converted to a string or a message is `null` |
| Chat.ReplyModel | index.js:149 | the reply names the model Gemini was asked for, or the request's `model`, or "" when that is falsy |
| Chat.Serve | index.js:110-186 | once the provider is chosen, every request is answered, and a request sent upstream goes to that provider under the key handed out, which is non-empty |
| Chat.HandleAsWritten | index.js:108-187 | as written, the handler writes no reply exactly when `company` cannot be lower-cased, and then sends nothing upstream |
| Chat.Handle | index.js:108-187 | with line 109 inside the `try`, every request is answered, and a `company` that cannot be lower-cased gets the catch-all 500 |
| Chat.CompanyNotAStringAsWritten | index.js:109 | `{"company":1}` is left without a reply as written, and gets the 500 with line 109 inside the `try` |
| Chat.EveryRequestAnswered | index.js:108-187 | every request gets a reply, every failure is a 500, and wherever `company` can be lower-cased the handler is the one as written |
| Chat.UnprintableModel | index.js:124-125 | a Gemini request whose `model` is an object with its own `toString` sends nothing and gets the catch-all 500 |
| Chat.ReplyContent | index.js:173 | the content of a normalised reply is never empty |
| Chat.ContentFallback | index.js:144 | a reply's content is the chosen provider's extracted text when non-empty, else the other extractor's when non-empty, else "[No content]": an extracted empty string never reaches the caller |
| Chat.NoKeyNoRequest | index.js:121-122 | with no key, nothing is sent and the reply is 500, naming the pool that is empty (Gemini here, OpenRouter at line 156) |
| Chat.OpenRouterForwardsBody | index.js:155-168 | with a key, OpenRouter receives the request body without `stream`, in particular the messages verbatim, under that key |
| Chat.GeminiForwardsMessages | index.js:121-139 | with a key, a model that converts to a string and no `null` message, Gemini receives the translated messages, the key, and the requested model or "models/text-bison-001" |
| Chat.NormalizedReply | index.js:141-181 | a normalised reply only follows an upstream answer; its `success` is upstream's `ok`, its status 200 or 502 to match, its provider the chosen one, its model the one asked for, and the upstream body (or `{raw: text}`) is under `raw`; a failed upstream call gives 500 "Internal server error" |
| Chat.OpenRouterRoundTrip | index.js:155-181 | a request to OpenRouter sends the caller's messages verbatim; when the upstream body holds a non-empty text, the reply's content is exactly that text |
| Chat.ReplyContentAsWritten | index.js:144 | over the extractors as written, the content is always truthy, though not always a string |
| Chat.NumberContentAsWritten | index.js:173 | as written, the OpenRouter reply to `{"choices":[{"text":7}]}` has the number 7 as its content; with the string check it has "[No content]" |
| Chat.ContentAgreesOnStrings | index.js:144 | whenever the OpenRouter extractor as written finds a string or nothing, the content as written and the model's content agree |
| Chat.ReplyJson | index.js:146-151 | a reply body exists exactly when the request was answered; a failure's body is `{success: false, error}` |
| Chat.ReplyJsonShape | index.js:146-151 | the reply JSON has one choice whose message has role "assistant" and the normalised, non-empty content, plus `success`, the name of the provider that answered, the reported model and `raw` |
| Chat.Dispatch | index.js:108-187 | a request takes its key from the chosen provider's pool, moves only that pool's cursor, and is then handled by `Handle`; when `company` cannot be lower-cased, no cursor moves and the reply is the 500 |
| Cors.AllowedOrigins | index.js:20 | the allowed list is the setting's comma-separated entries, which join back to the setting; when the setting is unset or empty the list is `["*"]` |
| Cors.OriginAllowed | index.js:22-26 | a request without an origin, or with an empty one, or a list holding "*", is allowed; otherwise a present origin is allowed exactly when it is listed |
| Cors.UnsetAllowsAll | index.js:20-24 | without the setting every origin is allowed |
| Cors.ListedOrigins | index.js:20-25 | a non-empty setting written as comma-free entries, empty ones included, splits back into those entries, and a present origin is allowed exactly when it is listed or "*" is listed |
| Cors.SpacesAreKept | index.js:20-25 | entries are compared untrimmed: with "a, b", origin `b` is rejected |
| Models.FallbackModels | index.js:206-211 | the fixed list is the four Gemini models with their display names, in order |
| Models.Pick | index.js:193 | a name other than "openrouter", or a failed fetch, gives the fixed list |
| Models.ListModels | index.js:191 | a truthy `company` that is not a string throws; no `company` means "openrouter" |
| Models.ListingJson | index.js:198-213 | the reply is always a success, naming "openrouter" with the live list or "fallback" with the fixed one |
| Models.LiveOrFallback | index.js:193-213 | the live OpenRouter list is used exactly when "openrouter" is asked for and the upstream body is an object whose `data` is an array, and it is then passed through unchanged; every other answer is the fixed list |

## Left out

- `proxyFetch`, its `AbortController` and its timeout are left out. The
  upstream call is an input (`Chat.Upstream`): either it failed (a network
  error or the timeout abort), or it answered with an `ok` flag and a body.
- `resp.json()` / `resp.text()` decoding is left out. A body is either parsed
  JSON or, when parsing failed, the text that the second read returned.
  `null` stands for a failed second read. Lines 142 and 171 call
  `resp.text()` after `resp.json()` has already consumed the body, so with
  node-fetch that read always fails and a body that is not JSON always gives
  `{raw: null}`. `NotJson(Some(_))` is an over-approximation that no property
  depends on.
- `encodeURIComponent` and the URL strings are left out. The Gemini model
  name and the key travel as opaque fields of `Chat.Outbound`. The string
  conversion of the model name is modelled, with its throw; a model name
  holding a lone surrogate, which makes `encodeURIComponent` throw, is not.
- The middleware is left out: helmet, compression, the 1 MB JSON body limit,
  rate limiting, and `app.listen`. The `cors` package is left out too, apart
  from the origin callback.
- Logging and the `details` field of the catch-all 500 are left out: it
  carries a runtime error message.
- The `/` route and the streaming variants of other files are left out.
- Concurrency is left out. Each rotator call runs without interruption on
  the single JavaScript thread.
- `express.json()` is strict: it turns a primitive body away with a 400
  before the handler runs. An array body does reach the handler; it is left
  out, because the model's request body is an object (`map<string, Json>`).
- Numbers are integers. JSON fractions and exponents are not modelled, and
  `ToNumber` for `length > 0` covers only signed decimal integer strings (no
  hex, `Infinity` or decimals).
- Inherited prototype properties are left out: the properties the proxy
  reads are not supplied by `Object.prototype`, and of those supplied by
  `Array.prototype` and `String.prototype` only `length` is read, which is
  modelled. An own `toString` key is modelled (`Js.ThrowsOnString`); an own
  `valueOf` key changes no conversion the proxy performs.
- String indexing is by character here; JavaScript indexes UTF-16 code
  units. This matters only for `choices`/`candidates` given as strings.
- Chat.CompanyName: lower-cases ASCII letters only. Comparing the result
  with "google" or "openrouter" agrees with full Unicode lower-casing,
  because no other character lower-cases to one of their letters.
- Chat.Texts: the handler model uses the OpenRouter extractor with the
  string check of the "## Findings" row for line 81. So `ReplyContent`,
  `ContentFallback`, `ReplyJsonShape` and `OpenRouterRoundTrip` describe the
  corrected reply. Where the extractor as written returns a non-string text,
  the source sends that value as `content`. For `{"choices":[{"text":7}]}`
  it sends 7 where the model sends "[No content]". For
  `{"choices":[{"text":7}],"output":"hi"}` it sends 7 where the model sends
  "hi". `Chat.ReplyContentAsWritten` models the content as written, and
  `Chat.ContentAgreesOnStrings` shows the two agree everywhere else.
- Models.ListModels: a truthy non-string `company` query (`?company=1` is a
  string, but `?company[]=x` is an array) throws at line 191, outside any
  `try`, with the same consequence as line 109 (see "## Findings"). The
  model keeps the throw as `Threw` and does not model a corrected route.
- Models.LiveOrFallback: a failed live request and a body that is not JSON
  are both inputs. The 10-second timeout of that request is left out.

## Findings

| source | as written | input that shows it | evidently intended | confidence | as-written member | corrected member |
|---|---|---|---|---|---|---|
| index.js:109 | `company` is lower-cased before the handler's `try`; a truthy non-string `company` throws out of the async handler, which under Express 4 is an unhandled rejection that ends a Node 15+ process | request body `{"company":1}` gets no reply (and under Express 4 stops the server) | read `company` inside the `try`, so the failure is the catch-all 500 and every request is answered | not executed | Chat.CompanyNotAStringAsWritten | Chat.EveryRequestAnswered |
| index.js:81 | when `choices[0]` has no `message`, any truthy `text` is returned, whatever its type, and the handler sends it as the reply's `content` | upstream body `{"choices":[{"text":7}]}` yields the number 7, so `content` is not a string | return `text` only when it is a string, as every other return of the extractor does and as the comment at line 72 (a consistent text result) intends | not executed | Extract.FirstTextNotAString | Extract.GuardAgreesOnStrings |

`Extract.OpenRouterAsWritten` is the extractor as written.
`Extract.OpenRouter` is the corrected one, and the handler model uses it.
`Chat.HandleAsWritten` is the handler as written. `Chat.Handle` is the
corrected one, and `Chat.Dispatch` uses it.
