# Movie and book recommender: handler and page helpers in Dafny

This project models the two pure parts of a small recommendation service.

The first part is the serverless function `netlify/functions/recommend.js`. It takes a user's
preferences for a movie or a book, asks a generative model for three titles, and always
answers with a list. The model follows the function's steps in order:

- the early exits: 405 for a method other than POST, 500 without an API key, 400 for a body
  that is not JSON, and 400 for a mode other than exactly `"movie"` or `"book"`;
- the normalisation of the five optional text fields;
- the removal of Markdown code fences from the model's reply;
- the mapping of each parsed element to an item with default creator, year and reason, a
  search query, and two search links;
- the fixed three-title fallback list, used whenever the model gives nothing usable.

The second part is the page script `app.js`. Three of its pieces are modelled: `escapeHtml`,
the per-item fragments that `renderResults` writes, and the input check at the start of
`requestRecommendations`.

Three things stay abstract, as function parameters:

- the model call, `consult: (Mode, Profile) -> Upstream`;
- `JSON.parse` of the cleaned reply, `parse: string -> Parsed`;
- `encodeURIComponent`, `enc: string -> string`.

So every statement holds for every model answer, every parser outcome and every encoder.
A JavaScript `null` or `undefined` property is `Nullish` in `JsValues.Nullable`.

Modules (one file each): `JsValues` (nullable values, truthiness, `filter(Boolean)`, `join`),
`JsString` (`trim` with the ECMAScript whitespace set, `replaceAll`), `Fences` (fence removal),
`Recommend` (the handler), `RecommendProps` (lemmas relating its parts), `Escape`
(`escapeHtml`), `Render` (`renderResults`), `Guard` (`requestRecommendations`).

### What the handler does not do

The handler makes one model call and never retries it. It parses the reply once, with
`JSON.parse`, and has no tolerant line parser. It keeps `year` exactly as the model gave it,
does not remove duplicate titles, and maps every array element, with no cap on the count.
When the model gives nothing usable it answers with three fixed titles per mode, whatever the
user typed, and marks that answer with `note: "fallback"`. It does not require mood/genre or
theme; only the page checks that.

## Model

| member | source | states |
|---|---|---|
| `Recommend.ParseMode` | netlify/functions/recommend.js:22-23 | A mode is selected only when `body.mode` is exactly `"movie"` or `"book"`. Any other string, and an absent or null value, selects none. |
| `Recommend.NormalizeField` | netlify/functions/recommend.js:25-29 | A null or undefined field becomes `""`. Any other field loses whitespace at both ends and nothing else: the result is a trimmed infix with only whitespace cut around it. It is empty exactly when the value is blank, and an already trimmed value is kept unchanged. |
| `JsString.Trim` | netlify/functions/recommend.js:25-29 | `trim()` returns the infix left after cutting ECMAScript whitespace and line terminators from both ends. Neither end of the result is whitespace. It is empty exactly for blank input and leaves trimmed input unchanged. |
| `Recommend.Gate` | netlify/functions/recommend.js:5-29 | The early exits, in order: a non-POST method gives 405, then a missing key gives 500, then an unparseable body gives 400, then an invalid mode gives 400. The request gets through exactly when all four checks pass. It then carries the selected mode and the normalised fields. |
| `RecommendProps.HandleStatus` | netlify/functions/recommend.js:5-23 | The status alone tells which gate stopped the request. 405 means the method was not POST; 500 means POST without a key; 400 means a bad body or mode; 200 means every gate passed. |
| `RecommendProps.EarlierGatesIgnoreLaterInputs` | netlify/functions/recommend.js:5-20 | The key, the body and the model do not affect a non-POST request. A POST without a key gets the same answer whatever its body. So a bad body without a key still gives 500. |
| `Recommend.ExternalUrl` | netlify/functions/recommend.js:32-38 | The external link is empty exactly when the query is empty. A movie query has " 예고편" appended before encoding and goes to the YouTube search. A book query is encoded as is and goes to the bookstore search. |
| `Recommend.DetailUrl` | netlify/functions/recommend.js:40-43 | The detail link is empty exactly when the query is empty. Otherwise it is the web search for the encoded query. |
| `RecommendProps.QueryShape` | netlify/functions/recommend.js:123 | The query is the truthy values among title and creator, joined by one space and then trimmed. It is empty when both are falsy. |
| `RecommendProps.QueryEmpty` | netlify/functions/recommend.js:123 | The query is empty exactly when each of title and creator is falsy or all whitespace. |
| `RecommendProps.LinksNeedAQuery` | netlify/functions/recommend.js:123-130 | An item has both links or neither. It has them exactly when its title or creator has a non-blank value. |
| `Recommend.MapItem` | netlify/functions/recommend.js:122-132 | The title is passed through, even when undefined. A falsy creator or year becomes `""`; a truthy one is kept. A falsy reason becomes the fixed default "사용자 맞춤 추천입니다.", so the reason is never empty. The links come from the item's query. |
| `Recommend.MapItems` | netlify/functions/recommend.js:122-132 | The mapping keeps the count and the order: item k is the mapping of element k. |
| `Recommend.FallbackItems` | netlify/functions/recommend.js:147-159 | The fallback is exactly the mode's three fixed titles, in order. Each has an empty creator and year and the fixed degraded reason. Its links are the external and detail links built from its title, and both are non-empty. |
| `Recommend.ReplyText` | netlify/functions/recommend.js:106-109 | A missing or empty reply text becomes `"[]"`. What reaches the parser is trimmed and holds no "```". A reply without backticks is only trimmed. |
| `RecommendProps.EmptyReplyDegrades` | netlify/functions/recommend.js:106-109 | If the parser reads `"[]"` as the empty array, a reply with no text or with empty text leads to the fallback. |
| `Recommend.Handle` | netlify/functions/recommend.js:3-165 | A request that passes the gate is served for the selected mode, and the model is consulted with the normalised profile only. Every other request gets a 400, 405 or 500 message. |
| `Recommend.Serve` | netlify/functions/recommend.js:99-164 | After the gate every path answers 200 with the request's mode and a non-empty list. The fallback list with `note: "fallback"` is used exactly when the call failed, the reply was not a JSON array, the array was empty, or it held a `null` element. Otherwise the answer is the mapped elements with no note. |
| `RecommendProps.ValidModeAlwaysServes` | netlify/functions/recommend.js:135-164 | Once the mode is valid, the whole handler answers 200 with at least one item. The note is "fallback" exactly when the model gave nothing usable, and in that case the items are the fixed list. Otherwise there is one item per array element. |
| `Fences.StripFences` | netlify/functions/recommend.js:109 | After removing "```json" and then "```", and trimming, the text holds no "```" (every run of backticks left is shorter than three). The text is trimmed. |
| `Fences.RemovingFencesLeavesNone` | netlify/functions/recommend.js:109 | Removing every "```" from left to right cannot join backticks into a new "```". |
| `Fences.StripFencesUnwraps` | netlify/functions/recommend.js:108-109 | A reply wrapped as "```json" + body + "```", with no backtick in the body, comes out as the trimmed body. |
| `Fences.StripFencesKeepsPlainText` | netlify/functions/recommend.js:109 | A reply without backticks is only trimmed: the fence removal leaves it as it is. |
| `JsString.ReplaceAllOneChar` | app.js:73-78 | `replaceAll` with a one-character pattern replaces each occurrence of that character independently. |
| `Escape.EscapeHtml` | app.js:72-79 | The five chained `replaceAll` calls equal escaping each character on its own. The output has no `<`, `>`, `"` or `'`. It is empty exactly when the input is, and it equals the input when the input has none of `& < > " '`. |
| `Escape.EscapeEach` | app.js:72-79 | The per-character reference escape: its output has no markup character, is at least as long as the input, and is the identity on plain text. |
| `Escape.SubstChainOne` | app.js:73-78 | Because `&` is replaced first, one character goes through the five passes to exactly its own entity: no later pass touches an entity that an earlier pass wrote. |
| `Escape.ChainIsEach` | app.js:73-78 | The chained replacement equals the per-character escape on every string. |
| `Escape.AmpersandsBeginEntities` | app.js:73-78 | Every `&` in the output begins one of `&amp;`, `&lt;`, `&gt;`, `&quot;`, `&#039;`. |
| `Escape.UnescapeEscape` | app.js:73-78 | Decoding the five entities recovers the input exactly. |
| `Escape.EscapeInjective` | app.js:72-79 | Two strings with the same escape are equal. |
| `Render.Decimal` | app.js:89 | `String(idx + 1)` is a non-empty string of decimal digits without a leading zero, and it denotes exactly `idx + 1`. |
| `Render.MetaLine` | app.js:102 | The meta line is the escaped creator and year, with " · " between them only when both are non-empty. It contains no `<`, `>`, `"` or `'`. |
| `Render.FormatCard` | app.js:88-107 | A null or undefined title shows as "추천 {idx+1}"; an empty-string title stays empty; other titles are escaped. The " · " separator appears only when both creator and year are non-empty. A link appears only for a non-empty URL. The external link's label depends on the mode only. Every fragment (title, meta line, reason, both hrefs) is free of `<`, `>`, `"` and `'`. |
| `Render.RenderResults` | app.js:81-114 | If `items` is missing, not an array or empty, the page shows only the empty-result notice and the result card stays hidden. Otherwise there is one card per item, in order, and the result card is revealed. |
| `Render.FallbackRendersThreeCards` | app.js:88-107 | The handler's fallback answer shows as three cards with the fixed titles, each with both links and an empty creator/year line. |
| `Guard.CheckRequest` | app.js:116-132 | Without a selected mode nothing is sent, whatever was typed. With a mode, nothing is sent when mood/genre and theme are both blank. Otherwise the five trimmed inputs are sent, and at least one of mood/genre and theme is non-empty. |
| `Guard.SentRequestIsServed` | app.js:138-150 | A request the page sends passes every gate of a handler that has its key. The handler rebuilds the same profile from the already trimmed fields and answers 200 with a non-empty list for the page's mode. |

## Left out

- The model call itself is not modelled: the `fetch`, the request JSON, the safety settings, the model name, the temperature and the response-status check (netlify/functions/recommend.js:73-105). It is network I/O; it appears only as the `Upstream` outcome returned by `consult`.
- The prompt text (netlify/functions/recommend.js:45-71) is not modelled. It is a literal template that only reaches the model, and the model is abstract here. `consult` receives the mode and the normalised profile the prompt is built from.
- `req.json()` and `JSON.parse` are foreign parsers. Their outcomes are inputs: `Body` for the request and the `parse` oracle for the reply.
- `encodeURIComponent` (ECMAScript, section 19.2.6.5) is the opaque `enc` parameter. The model states only which string it is given.
- Request bodies whose property types are not strings are not modelled. A body that parses to `null`, or has a non-string field such as a numeric `moodGenre`, makes `body.mode` or `.trim()` throw outside any `try`. The platform then answers for the function.
- Reply elements whose `title`, `creator`, `year` or `reason` is a number, boolean or object are not modelled. Only strings, absent values and `null` are, so `join` never has to stringify a non-string.
- `process.env`, `console` logging and the headers of `Response` are not modelled, only the status and the body.
- The DOM wiring of app.js is not modelled: `setMode`, the reset and retry listeners, `innerHTML`/`classList` updates, the markup and whitespace around the card fragments, and the status messages set after the response (app.js:152-168).
- Async sequencing is not modelled. Each call is one sequential flow with no shared state.
- Escape.UnescapeEscape: the decoder is a left-to-right scan that turns each of the five entities back into its character. It is not the chain of five `replaceAll` calls with `&amp;` last. The two agree on every escaped string, but only the scan is proved.
- Recommend.Serve: a lone UTF-16 surrogate in a reply's title or creator is not modelled. Dafny's `char` cannot hold one, and `enc` is total. In JavaScript such a title, for example `"\ud800"`, makes `encodeURIComponent` throw `URIError` inside the `try` (netlify/functions/recommend.js:73-143), so the handler answers with the fallback list. `Degraded` does not list this cause, so "exactly when" in `Serve` holds only for replies whose strings are valid Unicode.
- Render.RenderResults: a `null` element in `payload.items` is not modelled. `it.title` then throws (app.js:89) and the page's `catch` shows an error message instead of cards (app.js:165-167). Non-string properties, which `String(str)` (app.js:73) turns into text, are not modelled either. The modelled handler never sends either kind of item: every item it sends has string fields and at most an undefined title.
