/** The writing-guide endpoint of app/api/guide/route.ts: the prompt built
    from the latest turns, the fallback from Gemini to Groq, and
    `parseGuideResponse`, which cuts the JSON object out of the model's
    text and fills in missing fields. The environment, the database reads,
    the two providers and `JSON.parse` are inputs. */
module GuideRoute {
  import opened Common

  datatype Tip = Tip(title: string, description: string)

  /** `GuideResponse` */
  datatype GuideResponse = GuideResponse(
    tone: string, pace: string, nextDirection: string, tips: seq<Tip>, suggestions: seq<string>,
    genreTip: Option<string>)

  /** What `JSON.parse` yields, as far as the route reads it: each text
      field, `None` when missing or null; each list, `None` when it is not
      an array. */
  datatype ParsedGuide = ParsedGuide(
    tone: Option<string>, pace: Option<string>, nextDirection: Option<string>,
    tips: Option<seq<Tip>>, suggestions: Option<seq<string>>, genreTip: Option<string>)

  const DefaultTone := "일반적인"
  const DefaultPace := "중간"
  const DefaultDirection := "이야기 흐름에 맞게 이어가기"
  const NoTurnsYet := "(아직 작성된 턴이 없습니다)"

  // ---------------------------------------------------------------------
  // parseGuideResponse
  // ---------------------------------------------------------------------

  function FirstIndex(s: string, c: char): (r: Option<nat>)
    ensures r.Some? ==> r.value < |s| && s[r.value] == c && forall k :: 0 <= k < r.value ==> s[k] != c
    ensures r.None? ==> forall k :: 0 <= k < |s| ==> s[k] != c
  {
    if s == [] then None
    else if s[0] == c then Some(0)
    else match FirstIndex(s[1..], c)
      case None => None
      case Some(i) => Some(i + 1)
  }

  function LastIndex(s: string, c: char): (r: Option<nat>)
    ensures r.Some? ==> r.value < |s| && s[r.value] == c && forall k :: r.value < k < |s| ==> s[k] != c
    ensures r.None? ==> forall k :: 0 <= k < |s| ==> s[k] != c
  {
    if s == [] then None
    else if s[|s| - 1] == c then Some(|s| - 1)
    else LastIndex(s[..|s| - 1], c)
  }

  /** `text.match(/\{[\s\S]*\}/)?.[0] ?? text`: the leftmost `{` that some
      `}` follows, up to the last `}`; the whole text when no `}` follows
      any `{`. */
  function JsonCandidate(text: string): (r: string)
    ensures r == text || (exists a, b :: (0 <= a < b <= |text| && r == text[a..b]
      && (forall k :: 0 <= k < a ==> text[k] != '{') && (forall k :: b <= k < |text| ==> text[k] != '}')))
    ensures r != text ==> |r| >= 2 && r[0] == '{' && r[|r| - 1] == '}'
  {
    var i, j := FirstIndex(text, '{'), LastIndex(text, '}');
    if i.Some? && j.Some? && i.value < j.value then text[i.value..j.value + 1] else text
  }

  /** There is a span exactly when some `}` comes after some `{`. */
  lemma {:induction false} JsonCandidateFound(text: string)
    ensures JsonCandidate(text) != text ==> exists a, b :: 0 <= a < b < |text| && text[a] == '{' && text[b] == '}'
    ensures (exists a, b :: 0 <= a < b < |text| && text[a] == '{' && text[b] == '}') ==>
      var r := JsonCandidate(text);
      |r| >= 2 && r[0] == '{' && r[|r| - 1] == '}'
  {
    if exists a, b :: 0 <= a < b < |text| && text[a] == '{' && text[b] == '}' {
      var a, b :| 0 <= a < b < |text| && text[a] == '{' && text[b] == '}';
      var i, j := FirstIndex(text, '{'), LastIndex(text, '}');
      assert i.Some? && i.value <= a;
      assert j.Some? && b <= j.value;
    }
  }

  /** Cutting the span out of a span changes nothing. */
  lemma {:induction false} JsonCandidateIdempotent(text: string)
    ensures JsonCandidate(JsonCandidate(text)) == JsonCandidate(text)
  {
    var r := JsonCandidate(text);
    if r != text {
      var i, j := FirstIndex(r, '{'), LastIndex(r, '}');
      assert i == Some(0);
      assert j == Some(|r| - 1);
      assert r[0..|r|] == r;
    }
  }

  /** A field the parsed object lacks, or has empty, takes its default. */
  function OrDefault(field: Option<string>, default: string): (r: string)
    ensures field.Some? && field.value != "" ==> r == field.value
    ensures field.None? || field.value == "" ==> r == default
  {
    if field.Some? && field.value != "" then field.value else default
  }

  /** The defaults `parseGuideResponse` writes into the parsed object. */
  function FillDefaults(p: ParsedGuide): (g: GuideResponse)
    ensures g.tone != "" && g.pace != "" && g.nextDirection != ""
    ensures g.tone == OrDefault(p.tone, DefaultTone) && g.pace == OrDefault(p.pace, DefaultPace)
    ensures g.nextDirection == OrDefault(p.nextDirection, DefaultDirection)
    ensures g.tips == p.tips.GetOr([]) && g.suggestions == p.suggestions.GetOr([]) && g.genreTip == p.genreTip
  {
    GuideResponse(OrDefault(p.tone, DefaultTone), OrDefault(p.pace, DefaultPace),
                  OrDefault(p.nextDirection, DefaultDirection), p.tips.GetOr([]), p.suggestions.GetOr([]), p.genreTip)
  }

  /** A guide read back as parsed JSON. */
  function AsParsed(g: GuideResponse): ParsedGuide {
    ParsedGuide(Some(g.tone), Some(g.pace), Some(g.nextDirection), Some(g.tips), Some(g.suggestions), g.genreTip)
  }

  /** A filled-in guide needs no more defaults: the endpoint's own reply
      parses back to itself. */
  lemma {:induction false} FillDefaultsIdempotent(p: ParsedGuide)
    ensures FillDefaults(AsParsed(FillDefaults(p))) == FillDefaults(p)
  {
  }

  /** `parseGuideResponse(text)`, with `JSON.parse` given as `parse`:
      `None` when the candidate does not parse to an object. */
  function ParseGuideResponse(text: string, parse: string -> Option<ParsedGuide>): (r: Option<GuideResponse>)
    ensures r.None? <==> parse(JsonCandidate(text)).None?
    ensures r.Some? ==> r.value == FillDefaults(parse(JsonCandidate(text)).value)
  {
    var parsed := parse(JsonCandidate(text));
    if parsed.None? then None else Some(FillDefaults(parsed.value))
  }

  // ---------------------------------------------------------------------
  // The prompt
  // ---------------------------------------------------------------------

  datatype TurnRow = TurnRow(content: string, turnIndex: int)
  datatype RoomRow = RoomRow(title: string, genre: string)

  function Reverse<T>(s: seq<T>): (r: seq<T>)
    ensures |r| == |s|
    ensures forall k :: 0 <= k < |s| ==> r[k] == s[|s| - 1 - k]
  {
    if s == [] then [] else Reverse(s[1..]) + [s[0]]
  }

  /** `` `[턴 ${t.turn_index}]\n${t.content}` `` */
  function TurnBlock(t: TurnRow): (r: string)
    ensures |r| >= |t.content| + 6
    ensures r[..3] == "[턴 " && r[|r| - |t.content|..] == t.content
    ensures r[|r| - |t.content| - 2..|r| - |t.content|] == "]\n"
  {
    var head := "[턴 " + IntToString(t.turnIndex) + "]\n";
    assert |IntToString(t.turnIndex)| >= 1;
    assert (head + t.content)[|head|..] == t.content;
    assert (head + t.content)[..|head|] == head;
    head + t.content
  }

  function Blocks(turns: seq<TurnRow>): (r: seq<string>)
    ensures |r| == |turns| && forall k :: 0 <= k < |turns| ==> r[k] == TurnBlock(turns[k])
  {
    if turns == [] then [] else [TurnBlock(turns[0])] + Blocks(turns[1..])
  }

  /** The turns part of the prompt, from the latest turns as the query
      returns them (by `turn_index` descending, at most ten): oldest first,
      one block each, separated by a blank line; a placeholder when there
      are none. */
  function TurnsText(latest: seq<TurnRow>): (r: string)
    ensures latest == [] ==> r == NoTurnsYet
    ensures latest != [] ==> r == Join(Blocks(Reverse(latest)), "\n\n")
  {
    if |latest| > 0 then Join(Blocks(Reverse(latest)), "\n\n") else NoTurnsYet
  }

  predicate Descending(turns: seq<TurnRow>) {
    forall i, j :: 0 <= i < j < |turns| ==> turns[i].turnIndex > turns[j].turnIndex
  }

  /** Rows in the query's order are shown in ascending turn order. */
  lemma {:induction false} PromptTurnsAscend(latest: seq<TurnRow>)
    requires Descending(latest)
    ensures var shown := Reverse(latest);
      forall i, j :: 0 <= i < j < |shown| ==> shown[i].turnIndex < shown[j].turnIndex
  {
    var shown := Reverse(latest);
    forall i, j | 0 <= i < j < |shown| ensures shown[i].turnIndex < shown[j].turnIndex {
      assert shown[i] == latest[|latest| - 1 - i] && shown[j] == latest[|latest| - 1 - j];
    }
  }

  const PromptOpen := "다음은 \""
  const PromptGenreOpen := "\" (장르: "
  const PromptIntro := ") 스토리의 최근 턴들입니다.\n\n---\n"
  const PromptTail := "\n---\n\n위 내용을 분석하여 JSON 형식으로 작성 가이드를 제공해주세요."

  /** The user message: the title and genre, then the turns text between
      two `---` rules, then the request for a JSON guide. */
  function UserPrompt(room: RoomRow, latest: seq<TurnRow>): (r: string)
    ensures OccursAt(r, room.title, |PromptOpen|)
    ensures OccursAt(r, TurnsText(latest), |r| - |PromptTail| - |TurnsText(latest)|)
    ensures r[|r| - |PromptTail|..] == PromptTail
  {
    var rest := PromptGenreOpen + room.genre + PromptIntro;
    var text := TurnsText(latest);
    OccursInFive(PromptOpen, room.title, rest, text, PromptTail);
    PromptOpen + room.title + rest + text + PromptTail
  }

  // ---------------------------------------------------------------------
  // POST
  // ---------------------------------------------------------------------

  /** The environment variables the route reads. */
  datatype GuideEnv = GuideEnv(
    googleGenerative: Option<string>, geminiApiKey: Option<string>, googleGenerativeAiApiKey: Option<string>,
    googleApiKey: Option<string>, groqApiKey: Option<string>)

  /** The Gemini key: the first of the four variables that is set, even
      to a blank value. */
  function GeminiKey(env: GuideEnv): (r: Option<string>)
    ensures env.googleGenerative.Some? ==> r == env.googleGenerative
    ensures r.None? <==> env.googleGenerative.None? && env.geminiApiKey.None?
                         && env.googleGenerativeAiApiKey.None? && env.googleApiKey.None?
  {
    if env.googleGenerative.Some? then env.googleGenerative
    else if env.geminiApiKey.Some? then env.geminiApiKey
    else if env.googleGenerativeAiApiKey.Some? then env.googleGenerativeAiApiKey
    else env.googleApiKey
  }

  /** `??` passes over unset variables only: a first variable set to a
      blank value hides a usable key in the later ones. */
  lemma {:induction false} BlankKeyHidesLaterKeys(env: GuideEnv)
    requires env.googleGenerative.Some? && AllSpace(env.googleGenerative.value)
    ensures !Usable(GeminiKey(env))
  {
    TrimEmptyIffBlank(env.googleGenerative.value);
  }

  /** `key?.trim()` is truthy. */
  predicate Usable(key: Option<string>) {
    key.Some? && Trim(key.value) != ""
  }

  /** A provider's text is truthy. */
  predicate HasText(text: Option<string>) {
    text.Some? && text.value != ""
  }

  datatype Provider = Gemini | Groq
  datatype ProviderCall = ProviderCall(provider: Provider, prompt: string)

  datatype GuideReply = GuideOk(guide: GuideResponse) | GuideError(status: int, error: string, raw: Option<string>)

  const NoRoomId := "roomId is required"
  const NotConfigured := "AI service not configured. Set GOOGLE_GENERATIVE or GROQ_API_KEY in .env.local."
  const NoAnswer := "AI 응답을 받지 못했습니다. Gemini 할당량을 초과했을 수 있습니다. 잠시 후 다시 시도하거나, GROQ_API_KEY를 설정해주세요."

  /** The providers asked, in order: Gemini when its key is usable, then
      Groq when Gemini gave no text and the Groq key is usable. */
  function Asked(env: GuideEnv, geminiText: Option<string>): (r: seq<Provider>)
    ensures Gemini in r <==> Usable(GeminiKey(env))
    ensures Groq in r <==> !(Usable(GeminiKey(env)) && HasText(geminiText)) && Usable(env.groqApiKey)
    ensures r == [] || r[0] == Gemini || r == [Groq]
  {
    var askGemini := Usable(GeminiKey(env));
    (if askGemini then [Gemini] else [])
    + (if !(askGemini && HasText(geminiText)) && Usable(env.groqApiKey) then [Groq] else [])
  }

  /** The text the route goes on with: Groq's when Groq was asked,
      otherwise Gemini's. */
  function AnswerText(env: GuideEnv, geminiText: Option<string>, groqText: Option<string>): (r: Option<string>)
    ensures HasText(r) <==> (Usable(GeminiKey(env)) && HasText(geminiText)) || (Groq in Asked(env, geminiText) && HasText(groqText))
    ensures Usable(GeminiKey(env)) && HasText(geminiText) ==> r == geminiText
  {
    var first := if Usable(GeminiKey(env)) then geminiText else None;
    if !HasText(first) && Usable(env.groqApiKey) then groqText else first
  }

  /** The reply for the text the providers gave. */
  function AnswerReply(text: Option<string>, parse: string -> Option<ParsedGuide>): (r: GuideReply)
    ensures r == GuideError(503, NoAnswer, None) <==> !HasText(text)
    ensures HasText(text) && parse(JsonCandidate(text.value)).None? ==>
      r == GuideError(500, "Failed to parse AI response", Some(text.value))
    ensures HasText(text) && parse(JsonCandidate(text.value)).Some? ==>
      r == GuideOk(FillDefaults(parse(JsonCandidate(text.value)).value))
  {
    if !HasText(text) then GuideError(503, NoAnswer, None)
    else match ParseGuideResponse(text.value, parse)
      case None => GuideError(500, "Failed to parse AI response", Some(text.value))
      case Some(guide) => GuideOk(guide)
  }

  /** `POST(request)`. `bodyError` is the message of a request body that
      does not parse; `roomId` is `None` when missing or not a string;
      `room` is `None` when the lookup errs or finds nothing; `turns` is
      `None` when the turns query errs; `geminiText` and `groqText` are
      each provider's text, `None` when the call throws or returns
      nothing. Returns the reply and the provider calls made. */
  function Post(bodyError: Option<string>, roomId: Option<string>, env: GuideEnv, room: Option<RoomRow>,
                turns: Option<seq<TurnRow>>, geminiText: Option<string>, groqText: Option<string>,
                parse: string -> Option<ParsedGuide>): (r: (GuideReply, seq<ProviderCall>))
    ensures r.1 != [] ==> bodyError.None? && roomId.Some? && room.Some? && turns.Some?
    ensures forall c :: c in r.1 ==> c.prompt == UserPrompt(room.value, turns.value)
  {
    match Refusal(bodyError, roomId, env, room, turns)
    case Some(reply) => (reply, [])
    case None =>
      (AnswerReply(AnswerText(env, geminiText, groqText), parse),
       Calls(Asked(env, geminiText), UserPrompt(room.value, turns.value)))
  }

  /** The guards of `POST`, in order; `None` when the request gets past
      all of them to the providers. */
  function Refusal(bodyError: Option<string>, roomId: Option<string>, env: GuideEnv, room: Option<RoomRow>,
                   turns: Option<seq<TurnRow>>): (r: Option<GuideReply>)
    ensures r.None? <==> bodyError.None? && roomId.Some? && roomId.value != ""
                         && (Usable(GeminiKey(env)) || Usable(env.groqApiKey)) && room.Some? && turns.Some?
    ensures r.Some? ==> r.value.GuideError? && r.value.status in {400, 404, 500}
    ensures bodyError.Some? ==> r == Some(GuideError(500, bodyError.value, None))
    ensures bodyError.None? && (roomId.None? || roomId.value == "") ==> r == Some(GuideError(400, NoRoomId, None))
    ensures r.Some? && r.value.status == 404 ==> r.value == GuideError(404, "Story not found", None) && room.None?
    ensures (bodyError.None? && roomId.Some? && roomId.value != "" && !Usable(GeminiKey(env)) && !Usable(env.groqApiKey))
            ==> r == Some(GuideError(500, NotConfigured, None))
    ensures (bodyError.None? && roomId.Some? && roomId.value != "" && (Usable(GeminiKey(env)) || Usable(env.groqApiKey))
            && room.Some? && turns.None?) ==> r == Some(GuideError(500, "Failed to fetch turns", None))
  {
    if bodyError.Some? then Some(GuideError(500, bodyError.value, None))
    else if roomId.None? || roomId.value == "" then Some(GuideError(400, NoRoomId, None))
    else if !Usable(GeminiKey(env)) && !Usable(env.groqApiKey) then Some(GuideError(500, NotConfigured, None))
    else if room.None? then Some(GuideError(404, "Story not found", None))
    else if turns.None? then Some(GuideError(500, "Failed to fetch turns", None))
    else None
  }

  /** Each provider asked, called with the same prompt. */
  function Calls(providers: seq<Provider>, prompt: string): (r: seq<ProviderCall>)
    ensures |r| == |providers|
    ensures forall k :: 0 <= k < |r| ==> r[k] == ProviderCall(providers[k], prompt)
  {
    if providers == [] then [] else [ProviderCall(providers[0], prompt)] + Calls(providers[1..], prompt)
  }

  /** The guards come in order: an unreadable body, a missing room id (400)
      and a missing key (500) are answered before the database is read, so
      the room and the turns do not matter to them. */
  lemma {:induction false} PostGuardOrder(bodyError: Option<string>, roomId: Option<string>, env: GuideEnv,
                       room1: Option<RoomRow>, turns1: Option<seq<TurnRow>>,
                       room2: Option<RoomRow>, turns2: Option<seq<TurnRow>>,
                       geminiText: Option<string>, groqText: Option<string>, parse: string -> Option<ParsedGuide>)
    requires bodyError.Some? || roomId.None? || roomId.value == "" || (!Usable(GeminiKey(env)) && !Usable(env.groqApiKey))
    ensures Post(bodyError, roomId, env, room1, turns1, geminiText, groqText, parse)
         == Post(bodyError, roomId, env, room2, turns2, geminiText, groqText, parse)
    ensures bodyError.None? && (roomId.None? || roomId.value == "") ==>
      Post(bodyError, roomId, env, room1, turns1, geminiText, groqText, parse).0 == GuideError(400, NoRoomId, None)
  {
  }

  /** Once the room and its turns are read, the reply is the one for the
      providers' answer and the calls are those `Asked` names, each with
      the prompt for that room and those turns. */
  lemma {:induction false} PostAfterReads(roomId: string, env: GuideEnv, room: RoomRow, turns: seq<TurnRow>,
                       geminiText: Option<string>, groqText: Option<string>, parse: string -> Option<ParsedGuide>)
    requires roomId != "" && (Usable(GeminiKey(env)) || Usable(env.groqApiKey))
    ensures var (reply, calls) := Post(None, Some(roomId), env, Some(room), Some(turns), geminiText, groqText, parse);
      && reply == AnswerReply(AnswerText(env, geminiText, groqText), parse)
      && |calls| == |Asked(env, geminiText)|
      && forall k :: 0 <= k < |calls| ==> calls[k] == ProviderCall(Asked(env, geminiText)[k], UserPrompt(room, turns))
  {
  }
}
