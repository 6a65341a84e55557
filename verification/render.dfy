/**
  The pure part of `renderResults` in the page script (app.js, lines 81-114):
  which fragments each item card shows, and whether the result card is revealed.
  The markup around the fragments and the DOM updates are not modelled.
 */
module Render {
  import opened JsValues
  import opened Escape
  import Recommend

  /** One element of `payload.items` as the page reads it; absent or `null` properties are `Nullish`. */
  datatype ShownItem = ShownItem(
    title: Nullable<string>, creator: Nullable<string>, year: Nullable<string>, reason: Nullable<string>,
    externalUrl: Nullable<string>, detailUrl: Nullable<string>)

  /** `payload?.items ?? []`: `Missing` when the payload or its `items` is nullish. */
  datatype ItemsField = Missing | NotArray | ArrayOf(elems: seq<ShownItem>)

  datatype Anchor = Anchor(href: string, caption: string)

  /** The escaped fragments of one `<article class="item">`. */
  datatype Card = Card(title: string, meta: string, reason: string,
                       external: Nullable<Anchor>, detail: Nullable<Anchor>)

  datatype Content = EmptyNotice(message: string) | Cards(cards: seq<Card>)

  /** What lands in the results list, and whether the result card is un-hidden. */
  datatype View = View(content: Content, revealsCard: bool)

  const EmptyMessage := "추천 결과가 비어 있습니다. 다른 키워드로 다시 시도해보세요."
  const MetaSeparator := " · "
  const TrailerLabel := "유튜브에서 예고편 검색"
  const StoreLabel := "온라인 서점에서 검색"
  const DetailLabel := "상세 정보"
  const PlaceholderPrefix := "추천 "

  predicate IsDigit(c: char) {
    '0' <= c <= '9'
  }

  function DigitValue(c: char): nat
    requires IsDigit(c)
  {
    c as int - '0' as int
  }

  function DigitChar(d: nat): (c: char)
    requires d < 10
    ensures IsDigit(c) && DigitValue(c) == d
  {
    "0123456789"[d]
  }

  /** The number a string of decimal digits denotes. */
  function DecimalValue(s: string): nat
    requires forall k :: 0 <= k < |s| ==> IsDigit(s[k])
  {
    if s == [] then 0 else 10 * DecimalValue(s[..|s| - 1]) + DigitValue(s[|s| - 1])
  }

  /** `String(n)` for a natural number: its decimal digits, most significant first. */
  function Decimal(n: nat): (s: string)
    ensures s != []
    ensures forall k :: 0 <= k < |s| ==> IsDigit(s[k])
    ensures DecimalValue(s) == n
    ensures s[0] != '0' || n == 0
    decreases n
  {
    if n < 10 then [DigitChar(n)]
    else
      var prefix := Decimal(n / 10);
      var s := prefix + [DigitChar(n % 10)];
      assert s[..|s| - 1] == prefix;
      s
  }

  /** The label of the external link: it depends on the page's selected mode only. */
  function LinkLabel(mode: Nullable<Recommend.Mode>): string {
    if mode == Value(Recommend.Movie) then TrailerLabel else StoreLabel
  }

  /** Every fragment of the card is free of `<`, `>`, `"` and `'`. */
  predicate CardSafe(c: Card) {
    && HtmlSafe(c.title) && HtmlSafe(c.meta) && HtmlSafe(c.reason)
    && (c.external.Value? ==> HtmlSafe(c.external.value.href))
    && (c.detail.Value? ==> HtmlSafe(c.detail.value.href))
  }

  /** The meta line: the escaped creator and year, with " · " between them only
      when both are non-empty. */
  function MetaLine(creator: string, year: string): (m: string)
    requires HtmlSafe(creator) && HtmlSafe(year)
    ensures HtmlSafe(m)
    ensures creator != "" && year != "" ==> m == creator + MetaSeparator + year
    ensures creator == "" || year == "" ==> m == creator + year
  {
    var sep := if creator != "" && year != "" then MetaSeparator else "";
    SafeConcat(creator, sep);
    SafeConcat(creator + sep, year);
    creator + sep + year
  }

  /** The card for the item at position `idx`. */
  function FormatCard(it: ShownItem, idx: nat, mode: Nullable<Recommend.Mode>): (c: Card)
    ensures it.title.Nullish? ==> c.title == PlaceholderPrefix + Decimal(idx + 1)
    ensures it.title.Value? ==> c.title == EscapeHtml(it.title.value)
    ensures it.title == Value("") ==> c.title == ""
    ensures var cr, yr := Coalesce(it.creator, ""), Coalesce(it.year, "");
      && (cr != "" && yr != "" ==> c.meta == EscapeHtml(cr) + MetaSeparator + EscapeHtml(yr))
      && (cr == "" || yr == "" ==> c.meta == EscapeHtml(cr) + EscapeHtml(yr))
    ensures c.reason == EscapeHtml(Coalesce(it.reason, ""))
    ensures c.external.Value? <==> Truthy(it.externalUrl)
    ensures c.external.Value? ==> c.external.value == Anchor(EscapeHtml(it.externalUrl.value), LinkLabel(mode))
    ensures c.detail.Value? <==> Truthy(it.detailUrl)
    ensures c.detail.Value? ==> c.detail.value == Anchor(EscapeHtml(it.detailUrl.value), DetailLabel)
    ensures CardSafe(c)
  {
    var placeholder := PlaceholderPrefix + Decimal(idx + 1);
    PlaceholderPlain(idx + 1);
    var title := EscapeHtml(Coalesce(it.title, placeholder));
    var creator := EscapeHtml(Coalesce(it.creator, ""));
    var year := EscapeHtml(Coalesce(it.year, ""));
    var reason := EscapeHtml(Coalesce(it.reason, ""));
    var externalUrl := if Truthy(it.externalUrl) then EscapeHtml(it.externalUrl.value) else "";
    var detailUrl := if Truthy(it.detailUrl) then EscapeHtml(it.detailUrl.value) else "";
    Card(title,
         MetaLine(creator, year),
         reason,
         if externalUrl != "" then Value(Anchor(externalUrl, LinkLabel(mode))) else Nullish,
         if detailUrl != "" then Value(Anchor(detailUrl, DetailLabel)) else Nullish)
  }

  /** The placeholder title needs no escaping. */
  lemma PlaceholderPlain(n: nat)
    ensures Plain(PlaceholderPrefix + Decimal(n))
  {
    var d := Decimal(n);
    var p := PlaceholderPrefix + d;
    forall k | 0 <= k < |p| ensures !IsSpecial(p[k]) {
      if k >= |PlaceholderPrefix| {
        assert p[k] == d[k - |PlaceholderPrefix|];
        assert IsDigit(p[k]);
      }
    }
  }

  /** `renderResults`: a non-empty array gives one card per item, in order, and
      reveals the result card; anything else gives only the empty-result notice. */
  function RenderResults(items: ItemsField, mode: Nullable<Recommend.Mode>): (v: View)
    ensures v.revealsCard <==> v.content.Cards?
    ensures v.content.EmptyNotice? <==> !(items.ArrayOf? && items.elems != [])
    ensures v.content.EmptyNotice? ==> v.content.message == EmptyMessage
    ensures v.content.Cards? ==>
      && |v.content.cards| == |items.elems|
      && forall k :: 0 <= k < |items.elems| ==> v.content.cards[k] == FormatCard(items.elems[k], k, mode)
  {
    if !items.ArrayOf? || items.elems == [] then View(EmptyNotice(EmptyMessage), false)
    else
      View(Cards(seq(|items.elems|, k requires 0 <= k < |items.elems| => FormatCard(items.elems[k], k, mode))), true)
  }

  /** An item of the handler's response as the page receives it: an undefined
      title is dropped by `JSON.stringify` and reads back as undefined. */
  function Received(it: Recommend.Item): ShownItem {
    ShownItem(it.title, Value(it.creator), Value(it.year), Value(it.reason),
              Value(it.externalUrl), Value(it.detailUrl))
  }

  function ReceivedAll(items: seq<Recommend.Item>): (r: seq<ShownItem>)
    ensures |r| == |items|
    ensures forall k :: 0 <= k < |items| ==> r[k] == Received(items[k])
  {
    seq(|items|, k requires 0 <= k < |items| => Received(items[k]))
  }

  /** A fallback answer always shows three cards with the fixed titles, each with
      both links and no creator or year line. */
  lemma FallbackRendersThreeCards(mode: Recommend.Mode, enc: string -> string, selected: Nullable<Recommend.Mode>)
    ensures var v := RenderResults(ArrayOf(ReceivedAll(Recommend.FallbackItems(mode, enc))), selected);
      && v.revealsCard
      && |v.content.cards| == 3
      && forall k :: 0 <= k < 3 ==>
           && v.content.cards[k].title == EscapeHtml(Recommend.FallbackTitles(mode)[k])
           && v.content.cards[k].meta == ""
           && v.content.cards[k].external.Value?
           && v.content.cards[k].detail.Value?
  {
    var items := Recommend.FallbackItems(mode, enc);
    var shown := ReceivedAll(items);
    var v := RenderResults(ArrayOf(shown), selected);
    assert EscapeHtml("") == "";
    forall k | 0 <= k < 3
      ensures v.content.cards[k].title == EscapeHtml(Recommend.FallbackTitles(mode)[k])
      ensures v.content.cards[k].meta == ""
      ensures v.content.cards[k].external.Value? && v.content.cards[k].detail.Value?
    {
      assert v.content.cards[k] == FormatCard(Received(items[k]), k, selected);
      FallbackCard(items[k], k, selected);
    }
  }

  /** One fallback item shows its title, no creator/year line and both links. */
  lemma FallbackCard(it: Recommend.Item, idx: nat, selected: Nullable<Recommend.Mode>)
    requires it.title.Value? && it.creator == "" && it.year == ""
    requires it.externalUrl != "" && it.detailUrl != ""
    ensures var c := FormatCard(Received(it), idx, selected);
      && c.title == EscapeHtml(it.title.value) && c.meta == ""
      && c.external.Value? && c.detail.Value?
  {
    assert EscapeHtml("") == "";
  }
}
