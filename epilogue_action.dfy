/** The epilogue server action of actions/epilogue.ts:
    `createEpilogueSchema` and `createEpilogue`. Path revalidation is not
    modelled. */
module EpilogueAction {
  import opened Common
  import opened Schema
  import StoryActions

  const MaxEpilogueChars := 300
  const BadRoomId := "올바른 스토리 ID가 아닙니다"
  const ContentMissing := "내용을 입력해주세요"
  const ContentTooLong := "에필로그는 300자 이내로 작성해주세요"
  const RoomNotFound := "스토리를 찾을 수 없습니다"
  const RoomNotCompleted := "완성된 스토리에만 에필로그를 작성할 수 있습니다"
  const SaveFailed := "에필로그 저장에 실패했습니다"

  datatype CreateEpilogueInput = CreateEpilogueInput(roomId: string, content: string)

  /** The one write of the action. */
  datatype EpilogueInsert = EpilogueInsert(roomId: string, authorId: string, content: string)

  predicate IsHexDigit(c: char) {
    ('0' <= c <= '9') || ('a' <= c <= 'f') || ('A' <= c <= 'F')
  }

  /** zod's `.uuid()`: five groups of 8, 4, 4, 4 and 12 hexadecimal digits
      joined by hyphens, in either case. */
  predicate IsUuid(s: string)
    ensures IsUuid(s) ==> |s| == 36 && forall k :: 0 <= k < |s| ==> s[k] == '-' || IsHexDigit(s[k])
  {
    && |s| == 36
    && (forall k :: 0 <= k < 36 && k in {8, 13, 18, 23} ==> s[k] == '-')
    && (forall k :: 0 <= k < 36 && k !in {8, 13, 18, 23} ==> IsHexDigit(s[k]))
  }

  /** Every issue of `createEpilogueSchema`, in field order; the content is
      measured as given. */
  function CreateEpilogueIssues(input: CreateEpilogueInput): (r: seq<string>)
    ensures r == [] <==> ValidEpilogueInput(input)
    ensures !IsUuid(input.roomId) ==> r[0] == BadRoomId
  {
    (if IsUuid(input.roomId) then [] else [BadRoomId])
    + LengthIssues(input.content, 1, ContentMissing, MaxEpilogueChars, ContentTooLong)
  }

  predicate ValidEpilogueInput(input: CreateEpilogueInput) {
    IsUuid(input.roomId) && 1 <= |input.content| <= MaxEpilogueChars
  }

  /** `createEpilogue(input)`: the schema's first issue before the user is
      looked up; then the login check; then the room (`room` is its
      `is_completed`, `None` when it is missing or the lookup errs); then
      the insert of the trimmed content. `insertFails` is whether the
      insert errs. */
  function CreateEpilogue(input: CreateEpilogueInput, user: Option<string>, room: Option<bool>, insertFails: bool)
    : (r: (StoryActions.ActionResult<()>, seq<EpilogueInsert>))
    ensures CreateEpilogueIssues(input) != [] ==> r == (StoryActions.Failed(CreateEpilogueIssues(input)[0]), [])
    ensures r.1 != [] <==> CreateEpilogueIssues(input) == [] && user.Some? && room == Some(true)
    ensures r.1 != [] ==> r.1 == [EpilogueInsert(input.roomId, user.value, Trim(input.content))]
  {
    var issues := CreateEpilogueIssues(input);
    if issues != [] then (StoryActions.Failed(StoryActions.FirstIssue(issues, "입력값을 확인해주세요")), [])
    else if user.None? then (StoryActions.Failed(StoryActions.LoginRequired), [])
    else if room.None? then (StoryActions.Failed(RoomNotFound), [])
    else if !room.value then (StoryActions.Failed(RoomNotCompleted), [])
    else
      var insert := EpilogueInsert(input.roomId, user.value, Trim(input.content));
      (if insertFails then StoryActions.Failed(SaveFailed) else StoryActions.Succeeded(()), [insert])
  }

  /** The schema refuses exactly the invalid inputs, the room id's issue
      coming first. */
  lemma {:induction false} EpilogueSchemaAccepts(input: CreateEpilogueInput)
    ensures CreateEpilogueIssues(input) == [] <==> ValidEpilogueInput(input)
    ensures !IsUuid(input.roomId) ==> CreateEpilogueIssues(input)[0] == BadRoomId
    ensures IsUuid(input.roomId) && input.content == "" ==> CreateEpilogueIssues(input)[0] == ContentMissing
  {
  }

  /** The outcome for valid input: no user, no room and an unfinished room
      are refused in that order without a write; otherwise the trimmed
      content is inserted and the action succeeds unless the insert errs. */
  lemma {:induction false} CreateEpilogueOutcomes(input: CreateEpilogueInput, user: Option<string>, room: Option<bool>, insertFails: bool)
    requires ValidEpilogueInput(input)
    ensures var (res, writes) := CreateEpilogue(input, user, room, insertFails);
      && (user.None? ==> res == StoryActions.Failed(StoryActions.LoginRequired) && writes == [])
      && (user.Some? && room.None? ==> res == StoryActions.Failed(RoomNotFound) && writes == [])
      && (user.Some? && room == Some(false) ==> res == StoryActions.Failed(RoomNotCompleted) && writes == [])
      && (res.Succeeded? <==> user.Some? && room == Some(true) && !insertFails)
  {
    EpilogueSchemaAccepts(input);
  }

  /** The length bound is on the content as typed: the stored content is
      never longer, and content of spaces alone passes and is stored empty. */
  lemma {:induction false} StoredContentIsTrimmed(input: CreateEpilogueInput, user: Option<string>, room: Option<bool>, insertFails: bool)
    ensures var writes := CreateEpilogue(input, user, room, insertFails).1;
      && (writes != [] ==> |writes[0].content| <= MaxEpilogueChars)
      && (writes != [] && AllSpace(input.content) ==> writes[0].content == "")
  {
    TrimShape(input.content);
    TrimEmptyIffBlank(input.content);
  }
}
