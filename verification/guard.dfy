/**
  The input check at the start of `requestRecommendations` in the page script
  (app.js, lines 116-150): when no request is sent, and what the request body
  holds when one is.
 */
module Guard {
  import opened JsValues
  import opened JsString
  import opened Recommend

  /** The raw `.value` of the five text inputs. */
  datatype Inputs = Inputs(moodGenre: string, theme: string, watched: string, creatorName: string, constraints: string)

  /** Either a status message and no request, or the request that is sent. */
  datatype Decision = Refuse(status: string) | Send(mode: Mode, profile: Profile)

  const ChooseModeFirst := "먼저 영화/도서 중 하나를 선택해주세요."
  const NeedMoodOrTheme := "최소한 '장르/분위기' 또는 '주제' 중 하나는 입력해주세요."

  /** Nothing is sent without a selected mode (whatever was typed), nor when
      both mood/genre and theme are blank; otherwise the trimmed inputs are sent. */
  function CheckRequest(mode: Nullable<Mode>, inputs: Inputs): (d: Decision)
    ensures mode.Nullish? ==> d == Refuse(ChooseModeFirst)
    ensures mode.Value? && AllSpace(inputs.moodGenre) && AllSpace(inputs.theme) ==> d == Refuse(NeedMoodOrTheme)
    ensures d.Send? <==> mode.Value? && !(AllSpace(inputs.moodGenre) && AllSpace(inputs.theme))
    ensures d.Send? ==> d.mode == mode.value
    ensures d.Send? ==> d.profile.moodGenre != "" || d.profile.theme != ""
    ensures d.Send? ==> d.profile == Profile(Trim(inputs.moodGenre), Trim(inputs.theme), Trim(inputs.watched),
                                             Trim(inputs.creatorName), Trim(inputs.constraints))
  {
    if mode.Nullish? then Refuse(ChooseModeFirst)
    else
      var profile := Profile(Trim(inputs.moodGenre), Trim(inputs.theme), Trim(inputs.watched),
                             Trim(inputs.creatorName), Trim(inputs.constraints));
      if profile.moodGenre == "" && profile.theme == "" then Refuse(NeedMoodOrTheme)
      else Send(mode.value, profile)
  }

  /** The JSON body `JSON.stringify({ mode, moodGenre, theme, watched, creatorName, constraints })`
      as the handler reads it back. */
  function SentBody(mode: Mode, p: Profile): Fields {
    Fields(Value(ModeName(mode)), Value(p.moodGenre), Value(p.theme), Value(p.watched),
           Value(p.creatorName), Value(p.constraints))
  }

  /** A request the page lets through passes every gate of a configured handler,
      which re-normalises the already trimmed fields to the same profile and
      answers 200 with a non-empty list for the page's mode. */
  lemma SentRequestIsServed(mode: Nullable<Mode>, inputs: Inputs,
                            consult: (Mode, Profile) -> Upstream, parse: string -> Parsed, enc: string -> string)
    requires mode.Value? && !(AllSpace(inputs.moodGenre) && AllSpace(inputs.theme))
    ensures var d := CheckRequest(mode, inputs);
      && d.Send?
      && Gate(Request("POST", true, JsonBody(SentBody(d.mode, d.profile)))) == Accept(d.mode, d.profile)
      && var resp := Handle(Request("POST", true, JsonBody(SentBody(d.mode, d.profile))), consult, parse, enc);
         resp.status == 200 && resp.payload.Recommendations? && resp.payload.mode == mode.value
         && resp.payload.items != []
  {
    var d := CheckRequest(mode, inputs);
    SentProfileTrimmed(mode, inputs);
    SentIsAccepted(d.mode, d.profile);
    AcceptedIsServed(Request("POST", true, JsonBody(SentBody(d.mode, d.profile))), consult, parse, enc);
  }

  lemma AcceptedIsServed(req: Request, consult: (Mode, Profile) -> Upstream, parse: string -> Parsed, enc: string -> string)
    requires req.verb == "POST" && req.hasApiKey && req.body.JsonBody?
    requires ParseMode(req.body.fields.mode).Value?
    ensures var resp := Handle(req, consult, parse, enc);
      resp.status == 200 && resp.payload.Recommendations?
      && Value(resp.payload.mode) == ParseMode(req.body.fields.mode)
      && resp.payload.items != []
  {
    var g := Gate(req);
    assert Handle(req, consult, parse, enc) == Serve(g.mode, consult(g.mode, g.profile), parse, enc);
  }

  lemma SentIsAccepted(m: Mode, p: Profile)
    requires IsTrimmed(p.moodGenre) && IsTrimmed(p.theme) && IsTrimmed(p.watched)
    requires IsTrimmed(p.creatorName) && IsTrimmed(p.constraints)
    ensures Gate(Request("POST", true, JsonBody(SentBody(m, p)))) == Accept(m, p)
  {
    var req := Request("POST", true, JsonBody(SentBody(m, p)));
    ModeNameParses(m);
    RenormalizeTrimmed(m, p);
    var g := Gate(req);
    assert g.Accept?;
    assert g.mode == m && g.profile == p;
  }

  lemma ModeNameParses(m: Mode)
    ensures ParseMode(Value(ModeName(m))) == Value(m)
  {
  }

  lemma SentProfileTrimmed(mode: Nullable<Mode>, inputs: Inputs)
    requires mode.Value? && !(AllSpace(inputs.moodGenre) && AllSpace(inputs.theme))
    ensures var p := CheckRequest(mode, inputs).profile;
      && IsTrimmed(p.moodGenre) && IsTrimmed(p.theme) && IsTrimmed(p.watched)
      && IsTrimmed(p.creatorName) && IsTrimmed(p.constraints)
  {
  }

  /** The handler's `(v ?? "").trim()` leaves an already trimmed field as it is. */
  lemma RenormalizeTrimmed(mode: Mode, p: Profile)
    requires IsTrimmed(p.moodGenre) && IsTrimmed(p.theme) && IsTrimmed(p.watched)
    requires IsTrimmed(p.creatorName) && IsTrimmed(p.constraints)
    ensures NormalizeProfile(SentBody(mode, p)) == p
  {
  }
}
