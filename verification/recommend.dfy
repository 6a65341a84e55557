/**
  The serverless recommendation handler (netlify/functions/recommend.js) as one
  total function from an abstract request and an abstract upstream outcome to an
  abstract response.

  The generative-model call, `req.json()`, `JSON.parse` and `encodeURIComponent`
  are not modelled: the request arrives already parsed (or marked malformed), the
  model call is the parameter `consult`, the parse of the reply is the parameter
  `parse`, and the percent-encoding is the parameter `enc`.
 */
module Recommend {
  import opened JsValues
  import opened JsString
  import Fences

  datatype Mode = Movie | Book

  /** The request body's properties; a property that is absent or `null` is `Nullish`. */
  datatype Fields = Fields(
    mode: Nullable<string>,
    moodGenre: Nullable<string>,
    theme: Nullable<string>,
    watched: Nullable<string>,
    creatorName: Nullable<string>,
    constraints: Nullable<string>)

  /** The outcome of `req.json()`. */
  datatype Body = InvalidJson | JsonBody(fields: Fields)

  /** `verb` is the HTTP method; `hasApiKey` is the truthiness of `GEMINI_API_KEY` in the environment. */
  datatype Request = Request(verb: string, hasApiKey: bool, body: Body)

  /** The user's preferences after normalisation; they are what the prompt is built from. */
  datatype Profile = Profile(
    moodGenre: string, theme: string, watched: string, creatorName: string, constraints: string)

  /** What came back from the model call: `Fail` when `fetch` threw, the status was
      not ok or the reply was not JSON; otherwise the text at
      `candidates[0].content.parts[0].text`, nullish when that path is missing. */
  datatype Upstream = Fail | Text(text: Nullable<string>)

  /** A property of one element of the parsed array, nullish when absent or `null`. */
  datatype Record = Record(
    title: Nullable<string>, creator: Nullable<string>, year: Nullable<string>, reason: Nullable<string>)

  /** The outcome of `JSON.parse`; an array element that is `null` is `Nullish`. */
  datatype Parsed = ParseError | NotArray | ArrayOf(elems: seq<Nullable<Record>>)

  /** One recommendation as it is sent to the page; an undefined title stays undefined. */
  datatype Item = Item(
    title: Nullable<string>, creator: string, year: string, reason: string,
    externalUrl: string, detailUrl: string)

  datatype Payload =
    | Message(text: string)
    | Recommendations(mode: Mode, items: seq<Item>, note: Nullable<string>)

  datatype Response = Response(status: nat, payload: Payload)

  /** Either an early response, or the mode and profile the handler goes on with. */
  datatype Gated = Reject(response: Response) | Accept(mode: Mode, profile: Profile)

  const NotAllowed := Response(405, Message("Method Not Allowed"))
  const MissingKey := Response(500, Message("Missing GEMINI_API_KEY"))
  const BadJson := Response(400, Message("Invalid JSON body"))
  const BadMode := Response(400, Message("mode must be 'movie' or 'book'"))

  const EmptyReply := "[]"
  const DefaultReason := "사용자 맞춤 추천입니다."
  const FallbackReason := "AI 응답이 지연되어 기본 추천 목록을 보여드립니다."
  const FallbackNote := "fallback"
  const MovieFallback := ["쇼생크 탈출", "인셉션", "라라랜드"]
  const BookFallback := ["데미안", "어린왕자", "미움받을 용기"]

  const YoutubeSearch := "https://www.youtube.com/results?search_query="
  const KyoboSearch := "https://search.kyobobook.co.kr/search?keyword="
  const GoogleSearch := "https://www.google.com/search?q="
  const TrailerSuffix := " 예고편"

  function ModeName(m: Mode): string {
    match m
    case Movie => "movie"
    case Book => "book"
  }

  /** `body.mode === "movie" ? "movie" : body.mode === "book" ? "book" : null`:
      only an exact match selects a mode. */
  function ParseMode(v: Nullable<string>): (m: Nullable<Mode>)
    ensures m == Value(Movie) <==> v == Value("movie")
    ensures m == Value(Book) <==> v == Value("book")
    ensures m.Value? ==> v == Value(ModeName(m.value))
  {
    if v == Value("movie") then Value(Movie)
    else if v == Value("book") then Value(Book)
    else Nullish
  }

  /** `(v ?? "").trim()`: nullish becomes empty, anything else loses its surrounding whitespace. */
  function NormalizeField(v: Nullable<string>): (r: string)
    ensures IsTrimmed(r)
    ensures v.Nullish? ==> r == ""
    ensures v.Value? ==> (r == "" <==> AllSpace(v.value))
    ensures v.Value? ==> exists i: nat, j: nat :: SpaceAround(v.value, r, i, j)
    ensures v.Value? && IsTrimmed(v.value) ==> r == v.value
  {
    Trim(Coalesce(v, ""))
  }

  function NormalizeProfile(f: Fields): Profile {
    Profile(NormalizeField(f.moodGenre), NormalizeField(f.theme), NormalizeField(f.watched),
            NormalizeField(f.creatorName), NormalizeField(f.constraints))
  }

  /** The early exits in their order: method, then key, then body, then mode.
      Each check looks at nothing the later ones examine. */
  function Gate(req: Request): (g: Gated)
    ensures req.verb != "POST" ==> g == Reject(NotAllowed)
    ensures req.verb == "POST" && !req.hasApiKey ==> g == Reject(MissingKey)
    ensures req.verb == "POST" && req.hasApiKey && req.body.InvalidJson? ==> g == Reject(BadJson)
    ensures (req.verb == "POST" && req.hasApiKey && req.body.JsonBody?
             && ParseMode(req.body.fields.mode).Nullish?) ==> g == Reject(BadMode)
    ensures g.Accept? <==> req.verb == "POST" && req.hasApiKey && req.body.JsonBody?
                           && ParseMode(req.body.fields.mode).Value?
    ensures g.Accept? ==> Value(g.mode) == ParseMode(req.body.fields.mode)
                          && g.profile == NormalizeProfile(req.body.fields)
    ensures g.Reject? ==> g.response.status in {400, 405, 500} && g.response.payload.Message?
  {
    if req.verb != "POST" then Reject(NotAllowed)
    else if !req.hasApiKey then Reject(MissingKey)
    else if req.body.InvalidJson? then Reject(BadJson)
    else
      var mode := ParseMode(req.body.fields.mode);
      if mode.Nullish? then Reject(BadMode)
      else Accept(mode.value, NormalizeProfile(req.body.fields))
  }

  /** `makeExternalUrl`: a trailer search for a movie, a bookstore search for a
      book, and nothing for an empty query. */
  function ExternalUrl(mode: Mode, q: string, enc: string -> string): (url: string)
    ensures url == "" <==> q == ""
    ensures q != "" && mode == Movie ==> url == YoutubeSearch + enc(q + TrailerSuffix)
    ensures q != "" && mode == Book ==> url == KyoboSearch + enc(q)
  {
    if q == "" then ""
    else if mode == Movie then YoutubeSearch + enc(q + TrailerSuffix)
    else KyoboSearch + enc(q)
  }

  /** `makeDetailUrl`: a web search for the query, nothing for an empty one. */
  function DetailUrl(q: string, enc: string -> string): (url: string)
    ensures url == "" <==> q == ""
    ensures q != "" ==> url == GoogleSearch + enc(q)
  {
    if q == "" then "" else GoogleSearch + enc(q)
  }

  /** `[item.title, item.creator].filter(Boolean).join(" ").trim()`. */
  function Query(rec: Record): string {
    Trim(Join(FilterTruthy([rec.title, rec.creator]), " "))
  }

  /** One parsed element turned into an item sent to the page. */
  function MapItem(mode: Mode, rec: Record, enc: string -> string): (it: Item)
    ensures it.title == rec.title
    ensures Truthy(rec.creator) ==> it.creator == rec.creator.value
    ensures !Truthy(rec.creator) ==> it.creator == ""
    ensures Truthy(rec.year) ==> it.year == rec.year.value
    ensures !Truthy(rec.year) ==> it.year == ""
    ensures Truthy(rec.reason) ==> it.reason == rec.reason.value
    ensures !Truthy(rec.reason) ==> it.reason == DefaultReason
    ensures it.reason != ""
    ensures it.externalUrl == ExternalUrl(mode, Query(rec), enc)
    ensures it.detailUrl == DetailUrl(Query(rec), enc)
  {
    var q := Query(rec);
    Item(rec.title, OrElse(rec.creator, ""), OrElse(rec.year, ""), OrElse(rec.reason, DefaultReason),
         ExternalUrl(mode, q, enc), DetailUrl(q, enc))
  }

  predicate NoNullElement(elems: seq<Nullable<Record>>) {
    forall k :: 0 <= k < |elems| ==> elems[k].Value?
  }

  /** `recommendations.map(…)`: one item per element, in the same order. */
  function MapItems(mode: Mode, elems: seq<Nullable<Record>>, enc: string -> string): (items: seq<Item>)
    requires NoNullElement(elems)
    ensures |items| == |elems|
    ensures forall k :: 0 <= k < |elems| ==> items[k] == MapItem(mode, elems[k].value, enc)
  {
    if elems == [] then []
    else [MapItem(mode, elems[0].value, enc)] + MapItems(mode, elems[1..], enc)
  }

  function FallbackTitles(mode: Mode): seq<string> {
    match mode
    case Movie => MovieFallback
    case Book => BookFallback
  }

  /** The fixed list shown when the model gives nothing usable. */
  function FallbackItems(mode: Mode, enc: string -> string): (items: seq<Item>)
    ensures |items| == 3
    ensures forall k :: 0 <= k < 3 ==>
      && items[k].title == Value(FallbackTitles(mode)[k])
      && items[k].creator == "" && items[k].year == ""
      && items[k].reason == FallbackReason
      && items[k].externalUrl == ExternalUrl(mode, FallbackTitles(mode)[k], enc)
      && items[k].detailUrl == DetailUrl(FallbackTitles(mode)[k], enc)
      && items[k].externalUrl != "" && items[k].detailUrl != ""
  {
    var titles := FallbackTitles(mode);
    seq(3, k requires 0 <= k < 3 =>
      Item(Value(titles[k]), "", "", FallbackReason,
           ExternalUrl(mode, titles[k], enc), DetailUrl(titles[k], enc)))
  }

  /** `rawText || "[]"`, then the fence removal: a missing or empty reply reads as
      an empty array, and whatever reaches the parser is trimmed and fence-free. */
  function ReplyText(text: Nullable<string>): (r: string)
    ensures Free(r, Fences.Fence) && IsTrimmed(r)
    ensures !Truthy(text) ==> r == EmptyReply
    ensures Truthy(text) && Fences.Tick !in text.value ==> r == Trim(text.value)
  {
    var raw := OrElse(text, EmptyReply);
    if !Truthy(text) then
      EmptyReplyKept();
      Fences.StripFences(raw)
    else if Fences.Tick in raw then Fences.StripFences(raw)
    else
      Fences.StripFencesKeepsPlainText(raw);
      Fences.StripFences(raw)
  }

  lemma EmptyReplyKept()
    ensures Fences.StripFences(EmptyReply) == EmptyReply
  {
    assert EmptyReply == ['[', ']'];
    PlainTrimmedKept(EmptyReply);
  }

  lemma PlainTrimmedKept(s: string)
    requires Fences.Tick !in s && IsTrimmed(s)
    ensures Fences.StripFences(s) == s
  {
    Fences.StripFencesKeepsPlainText(s);
  }

  /** The model's reply yields no item: the call failed, the reply is not a JSON
      array, the array is empty, or one of its elements is `null` (reading
      `item.title` from it throws). Each of these reaches the fallback. */
  predicate Degraded(up: Upstream, parse: string -> Parsed) {
    || up.Fail?
    || !parse(ReplyText(up.text)).ArrayOf?
    || parse(ReplyText(up.text)).elems == []
    || !NoNullElement(parse(ReplyText(up.text)).elems)
  }

  /** Everything after the gate: it always answers 200 with a non-empty list. */
  function Serve(mode: Mode, up: Upstream, parse: string -> Parsed, enc: string -> string): (resp: Response)
    ensures resp.status == 200
    ensures resp.payload.Recommendations? && resp.payload.mode == mode
    ensures resp.payload.items != []
    ensures Degraded(up, parse) ==>
      resp.payload.items == FallbackItems(mode, enc) && resp.payload.note == Value(FallbackNote)
    ensures !Degraded(up, parse) ==>
      resp.payload.items == MapItems(mode, parse(ReplyText(up.text)).elems, enc)
      && resp.payload.note == Nullish
  {
    if Degraded(up, parse) then
      Response(200, Recommendations(mode, FallbackItems(mode, enc), Value(FallbackNote)))
    else
      Response(200, Recommendations(mode, MapItems(mode, parse(ReplyText(up.text)).elems, enc), Nullish))
  }

  /** The whole handler. The model is consulted only once the gate accepts, and
      only with the normalised profile. */
  function Handle(req: Request, consult: (Mode, Profile) -> Upstream,
                  parse: string -> Parsed, enc: string -> string): (resp: Response)
    ensures req.verb == "POST" && req.hasApiKey && req.body.JsonBody? && ParseMode(req.body.fields.mode).Value? ==>
      var f := req.body.fields;
      resp == Serve(ParseMode(f.mode).value, consult(ParseMode(f.mode).value, NormalizeProfile(f)), parse, enc)
    ensures !(req.verb == "POST" && req.hasApiKey && req.body.JsonBody? && ParseMode(req.body.fields.mode).Value?) ==>
      resp.status in {400, 405, 500} && resp.payload.Message?
  {
    match Gate(req)
    case Reject(resp) => resp
    case Accept(mode, profile) => Serve(mode, consult(mode, profile), parse, enc)
  }
}
