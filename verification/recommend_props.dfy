/**
  Properties of the handler that relate several of its parts: the ordered
  gate, the search query and links built for each item, and the guarantee
  that a valid mode always ends in a 200 with a non-empty list.
 */
module RecommendProps {
  import opened JsValues
  import opened JsString
  import opened Recommend

  /** The status alone tells which gate stopped the request. */
  lemma HandleStatus(req: Request, consult: (Mode, Profile) -> Upstream,
                     parse: string -> Parsed, enc: string -> string)
    ensures var resp := Handle(req, consult, parse, enc);
      && (resp.status == 405 <==> req.verb != "POST")
      && (resp.status == 500 <==> req.verb == "POST" && !req.hasApiKey)
      && (resp.status == 400 <==> req.verb == "POST" && req.hasApiKey
                                  && (req.body.InvalidJson? || ParseMode(req.body.fields.mode).Nullish?))
      && (resp.status == 200 <==> req.verb == "POST" && req.hasApiKey && req.body.JsonBody?
                                  && ParseMode(req.body.fields.mode).Value?)
  {
  }

  /** A wrong method is answered before the key or the body is looked at, and a
      missing key before the body is parsed: what the later checks would read
      makes no difference. */
  lemma EarlierGatesIgnoreLaterInputs(r1: Request, r2: Request,
                                      c1: (Mode, Profile) -> Upstream, c2: (Mode, Profile) -> Upstream,
                                      parse: string -> Parsed, enc: string -> string)
    requires r1.verb == r2.verb
    requires r1.verb != "POST" || (!r1.hasApiKey && !r2.hasApiKey)
    ensures Handle(r1, c1, parse, enc) == Handle(r2, c2, parse, enc)
    ensures Handle(r1, c1, parse, enc).status in {405, 500}
  {
  }

  /** Once the mode is valid every path answers 200 with a non-empty list for that
      mode: the model's items when it gave any, otherwise exactly the fixed list
      marked as a fallback. */
  lemma ValidModeAlwaysServes(req: Request, consult: (Mode, Profile) -> Upstream,
                              parse: string -> Parsed, enc: string -> string)
    requires req.verb == "POST" && req.hasApiKey && req.body.JsonBody?
    requires ParseMode(req.body.fields.mode).Value?
    ensures var resp := Handle(req, consult, parse, enc);
      var mode := ParseMode(req.body.fields.mode).value;
      var up := consult(mode, NormalizeProfile(req.body.fields));
      && resp.status == 200
      && resp.payload.Recommendations?
      && resp.payload.mode == mode
      && |resp.payload.items| >= 1
      && (resp.payload.note == Value(FallbackNote) <==> Degraded(up, parse))
      && (Degraded(up, parse) ==> resp.payload.items == FallbackItems(mode, enc))
      && (!Degraded(up, parse) ==>
            |resp.payload.items| == |parse(ReplyText(up.text)).elems|)
  {
  }

  /** `rawText || "[]"`: a reply with no text, or with empty text, is parsed as
      `"[]"`, and a parser that reads that as the empty array sends it to the fallback. */
  lemma EmptyReplyDegrades(parse: string -> Parsed)
    requires parse(EmptyReply) == ArrayOf([])
    ensures Degraded(Text(Nullish), parse) && Degraded(Text(Value("")), parse)
  {
    assert !Truthy(Value(""));
    assert ReplyText(Nullish) == EmptyReply && ReplyText(Value("")) == EmptyReply;
  }

  lemma AllSpaceConcat(a: string, b: string)
    ensures AllSpace(a + b) <==> AllSpace(a) && AllSpace(b)
  {
    if AllSpace(a + b) {
      forall k | 0 <= k < |b| ensures IsSpace(b[k]) {
        assert b[k] == (a + b)[|a| + k];
      }
      forall k | 0 <= k < |a| ensures IsSpace(a[k]) {
        assert a[k] == (a + b)[k];
      }
    }
  }

  function Kept(v: Nullable<string>): seq<string> {
    if Truthy(v) then [v.value] else []
  }

  lemma {:induction false} FilterPair(a: Nullable<string>, b: Nullable<string>)
    ensures FilterTruthy([a, b]) == Kept(a) + Kept(b)
  {
    var parts := [a, b];
    assert parts[1..] == [b];
    assert parts[1..][1..] == [];
    assert FilterTruthy(parts[1..][1..]) == [];
  }

  /** The text the query trims: the truthy ones of title and creator, joined by one space. */
  lemma {:induction false} JoinedPair(a: Nullable<string>, b: Nullable<string>)
    ensures var j := Join(FilterTruthy([a, b]), " ");
      && (!Truthy(a) && !Truthy(b) ==> j == "")
      && (Truthy(a) && !Truthy(b) ==> j == a.value)
      && (!Truthy(a) && Truthy(b) ==> j == b.value)
      && (Truthy(a) && Truthy(b) ==> j == a.value + " " + b.value)
  {
    FilterPair(a, b);
    var kept := Kept(a) + Kept(b);
    if Truthy(a) && Truthy(b) {
      assert kept == [a.value, b.value];
      assert kept[1..] == [b.value];
    } else if Truthy(a) {
      assert kept == [a.value];
    } else if Truthy(b) {
      assert kept == [b.value];
    }
  }

  /** The search query is the truthy ones of title and creator, joined by one
      space and trimmed. */
  lemma QueryShape(rec: Record)
    ensures IsTrimmed(Query(rec))
    ensures !Truthy(rec.title) && !Truthy(rec.creator) ==> Query(rec) == ""
    ensures Truthy(rec.title) && !Truthy(rec.creator) ==> Query(rec) == Trim(rec.title.value)
    ensures !Truthy(rec.title) && Truthy(rec.creator) ==> Query(rec) == Trim(rec.creator.value)
    ensures Truthy(rec.title) && Truthy(rec.creator) ==>
      Query(rec) == Trim(rec.title.value + " " + rec.creator.value)
  {
    JoinedPair(rec.title, rec.creator);
    assert AllSpace("");
  }

  /** The query is empty exactly when neither title nor creator has a non-blank value. */
  lemma QueryEmpty(rec: Record)
    ensures Query(rec) == "" <==>
      (!Truthy(rec.title) || AllSpace(rec.title.value)) && (!Truthy(rec.creator) || AllSpace(rec.creator.value))
  {
    QueryShape(rec);
    if Truthy(rec.title) && Truthy(rec.creator) {
      var t, c := rec.title.value, rec.creator.value;
      AllSpaceConcat(t, " ");
      AllSpaceConcat(t + " ", c);
      assert IsSpace(' ');
    }
  }

  /** An item gets both links exactly when its query is non-empty, i.e. when
      its title or creator has a non-blank value. */
  lemma LinksNeedAQuery(mode: Mode, rec: Record, enc: string -> string)
    ensures var it := MapItem(mode, rec, enc);
      && (it.externalUrl == "" <==> it.detailUrl == "")
      && (it.externalUrl == "" <==>
            (!Truthy(rec.title) || AllSpace(rec.title.value)) && (!Truthy(rec.creator) || AllSpace(rec.creator.value)))
  {
    QueryEmpty(rec);
  }
}
