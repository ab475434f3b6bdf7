/** The story server actions of actions/story.ts: creating a story with
    its first turn, taking the writing lease, submitting a turn and
    marking a story complete. The signed-in user is an `Option`; what the
    database and its stored procedures answer is passed in; what the
    action writes or calls is returned as a list of effects. The lease
    arbitration lives in the stored procedures `check_and_acquire_lock`
    and `submit_turn`, which are not modelled: only what the action does
    with their replies is. */
module StoryActions {
  import opened Common
  import opened Schema
  import GenreTables

  datatype CreateStoryInput = CreateStoryInput(
    title: string, genre: string, firstParagraph: string, tags: seq<string>)

  /** `{ success: true, ... } | { success: false, error }` */
  datatype ActionResult<T> = Succeeded(value: T) | Failed(error: string)

  /** A timestamp: one the database returned, or `new Date(ms).toISOString()`
      of an instant computed here. */
  datatype Timestamp = Iso(text: string) | At(ms: int)

  /** Writes and procedure calls, in the order the action issues them. */
  datatype Effect =
    | InsertRoom(title: string, genre: string, tags: seq<string>, createdBy: string, preview: string)
    | InsertTurn(roomId: string, authorId: string, content: string, turnIndex: int)
    | CallAcquireLock(roomId: string, userId: string)
    | CallSubmitTurn(roomId: string, userId: string, content: string)
    | CompleteRoom(roomId: string, createdBy: string, completedAt: Timestamp, updatedAt: Timestamp)

  /** The answer of an insert: the new row's id, or an error whose message
      may be missing. */
  datatype WriteOutcome = Written(id: string) | WriteFailed(message: Option<string>)

  /** The answer of `admin.rpc(...)`: a transport error or the procedure's
      record. */
  datatype RpcOutcome<T> = RpcError(message: string) | RpcData(data: T)

  datatype LockReply = LockReply(
    success: bool, message: Option<string>, lockExpireAt: Option<string>, currentLockUserId: Option<string>)

  datatype SubmitReply = SubmitReply(success: bool, message: Option<string>, turnId: Option<string>)

  datatype AcquireLockResult =
    | LockGranted(lockExpireAt: Timestamp)
    | LockDenied(error: string, lockHolder: Option<string>, deniedExpireAt: Option<string>)

  const LoginRequired := "로그인이 필요합니다"
  /** Five minutes, the expiry assumed when a grant carries none. */
  const LeaseMs := 5 * 60 * 1000
  const PreviewLength := 200

  // ---------------------------------------------------------------------
  // createStorySchema
  // ---------------------------------------------------------------------

  function TagIssues(tag: string): seq<string> {
    if |tag| > 10 then [TooLongDefault(10)] else []
  }

  /** Every issue of `createStorySchema`, in the order zod reports them. */
  function CreateStoryIssues(input: CreateStoryInput): (r: seq<string>)
    ensures r == [] <==> ValidCreateStoryInput(input)
  {
    assert forall k :: 0 <= k < |input.tags| ==> (TagIssues(input.tags[k]) == [] <==> |input.tags[k]| <= 10);
    LengthIssues(input.title, 1, "제목을 입력해주세요", 100, "제목은 100자 이내로 입력해주세요")
    + EnumIssues(GenreTables.UiCodes, input.genre)
    + LengthIssues(input.firstParagraph, 1, "첫 문단을 입력해주세요", 1000, "첫 문단은 1000자 이내로 입력해주세요")
    + LengthIssues(input.tags, 1, "태그를 최소 1개 선택해주세요", 5, "태그는 최대 5개까지 선택 가능합니다")
    + ElementIssues(input.tags, TagIssues)
  }

  /** What the schema accepts. */
  predicate ValidCreateStoryInput(input: CreateStoryInput) {
    && 1 <= |input.title| <= 100
    && input.genre in GenreTables.UiCodes
    && 1 <= |input.firstParagraph| <= 1000
    && 1 <= |input.tags| <= 5
    && forall k :: 0 <= k < |input.tags| ==> |input.tags[k]| <= 10
  }

  /** The schema reports no issue exactly on the inputs it accepts, and its
      first issue is the title's whenever the title is out of bounds. */
  lemma {:induction false} CreateStorySchemaAccepts(input: CreateStoryInput)
    ensures CreateStoryIssues(input) == [] <==> ValidCreateStoryInput(input)
    ensures input.title == [] ==> CreateStoryIssues(input)[0] == "제목을 입력해주세요"
    ensures |input.title| > 100 ==> CreateStoryIssues(input)[0] == "제목은 100자 이내로 입력해주세요"
  {
    var tagsOk := ElementIssues(input.tags, TagIssues) == [];
    assert tagsOk <==> forall k :: 0 <= k < |input.tags| ==> |input.tags[k]| <= 10 by {
      assert forall k :: 0 <= k < |input.tags| ==> (TagIssues(input.tags[k]) == [] <==> |input.tags[k]| <= 10);
    }
  }

  /** The first-issue message `createStory` returns for invalid input. */
  function FirstIssue(issues: seq<string>, fallback: string): (r: string)
    ensures issues != [] ==> r == issues[0]
    ensures issues == [] ==> r == fallback
  {
    if issues != [] then issues[0] else fallback
  }

  // ---------------------------------------------------------------------
  // createStory
  // ---------------------------------------------------------------------

  /** `createStory`: the outcome and the writes it issues. `turnInsert` is
      the error of the first-turn insert, `None` when it succeeded. */
  function CreateStory(input: CreateStoryInput, user: Option<string>, roomInsert: WriteOutcome,
                       turnInsert: Option<Option<string>>): (r: (ActionResult<string>, seq<Effect>))
    ensures CreateStoryIssues(input) != [] ==> r == (Failed(CreateStoryIssues(input)[0]), [])
    ensures r.1 != [] ==> user.Some? && r.1[0].InsertRoom? && r.1[0].createdBy == user.value
    ensures r.0.Succeeded? <==> CreateStoryIssues(input) == [] && user.Some? && roomInsert.Written? && turnInsert.None?
  {
    var issues := CreateStoryIssues(input);
    if issues != [] then (Failed(FirstIssue(issues, "입력값을 확인해주세요")), [])
    else
      var genreDb := GenreTables.ValueToDb(input.genre).GetOr("자유");
      var preview := Take(input.firstParagraph, PreviewLength);
      if user.None? then (Failed(LoginRequired), [])
      else
        var room := InsertRoom(Trim(input.title), genreDb, input.tags, user.value, preview);
        match roomInsert
        case WriteFailed(m) => (Failed(m.GetOr("스토리 생성에 실패했습니다")), [room])
        case Written(roomId) =>
          var turn := InsertTurn(roomId, user.value, Trim(input.firstParagraph), 1);
          if turnInsert.Some? then (Failed(turnInsert.value.GetOr("첫 문단 저장에 실패했습니다")), [room, turn])
          else (Succeeded(roomId), [room, turn])
  }

  /** Invalid input is refused with the schema's first message before the
      user is looked up or anything is written. */
  lemma {:induction false} CreateStoryRejectsInvalid(input: CreateStoryInput, user: Option<string>, roomInsert: WriteOutcome,
                                  turnInsert: Option<Option<string>>)
    requires !ValidCreateStoryInput(input)
    ensures var (res, effects) := CreateStory(input, user, roomInsert, turnInsert);
      res == Failed(CreateStoryIssues(input)[0]) && effects == []
  {
    CreateStorySchemaAccepts(input);
  }

  /** A signed-out caller with valid input is refused and nothing is
      written. */
  lemma {:induction false} CreateStoryNeedsLogin(input: CreateStoryInput, roomInsert: WriteOutcome, turnInsert: Option<Option<string>>)
    requires ValidCreateStoryInput(input)
    ensures CreateStory(input, None, roomInsert, turnInsert) == (Failed(LoginRequired), [])
  {
    CreateStorySchemaAccepts(input);
  }

  /** For valid input and a signed-in user, the room row carries the trimmed
      title, the genre's database label, the tags, the creator and the first
      200 characters of the paragraph; once the room exists the first turn
      is turn 1 by the creator with the trimmed paragraph; the action
      succeeds with the room's id exactly when both inserts succeed. */
  lemma {:induction false} CreateStoryWrites(input: CreateStoryInput, user: string, roomInsert: WriteOutcome,
                          turnInsert: Option<Option<string>>)
    requires ValidCreateStoryInput(input)
    ensures var (res, effects) := CreateStory(input, Some(user), roomInsert, turnInsert);
      && |effects| >= 1
      && effects[0] == InsertRoom(Trim(input.title), GenreTables.ValueToDb(input.genre).value, input.tags, user,
                                  Take(input.firstParagraph, 200))
      && (roomInsert.Written? <==> |effects| == 2)
      && (roomInsert.Written? ==> effects[1] == InsertTurn(roomInsert.id, user, Trim(input.firstParagraph), 1))
      && (res.Succeeded? <==> roomInsert.Written? && turnInsert.None?)
      && (res.Succeeded? ==> res.value == roomInsert.id)
  {
    CreateStorySchemaAccepts(input);
  }

  /** The stored preview is the paragraph's first 200 characters: a prefix
      of it, all of it when it is shorter. */
  lemma {:induction false} PreviewIsPrefix(paragraph: string)
    ensures var p := Take(paragraph, PreviewLength);
      |p| == (if |paragraph| < 200 then |paragraph| else 200) && paragraph[..|p|] == p
  {
  }

  // ---------------------------------------------------------------------
  // acquireLock, submitTurn, completeStory
  // ---------------------------------------------------------------------

  /** `acquireLock(roomId)` at instant `now` (milliseconds). */
  function AcquireLock(roomId: string, user: Option<string>, rpc: RpcOutcome<LockReply>, now: int): (r: (AcquireLockResult, seq<Effect>))
    ensures user.None? ==> r == (LockDenied(LoginRequired, None, None), [])
    ensures user.Some? ==> r.1 == [CallAcquireLock(roomId, user.value)]
    ensures user.Some? && rpc.RpcError? ==> r.0 == LockDenied(rpc.message, None, None)
  {
    if user.None? then (LockDenied(LoginRequired, None, None), [])
    else
      var call := [CallAcquireLock(roomId, user.value)];
      match rpc
      case RpcError(message) => (LockDenied(message, None, None), call)
      case RpcData(res) =>
        if !res.success then
          (LockDenied(res.message.GetOr("Lock 획득에 실패했습니다"), res.currentLockUserId, res.lockExpireAt), call)
        else
          (LockGranted(if res.lockExpireAt.Some? then Iso(res.lockExpireAt.value) else At(now + LeaseMs)), call)
  }

  /** A denial forwards the procedure's message (or the default), holder
      and expiry unchanged; a grant carries the procedure's expiry, or five
      minutes from now when it gave none. */
  lemma {:induction false} AcquireLockReply(roomId: string, user: string, res: LockReply, now: int)
    ensures var r := AcquireLock(roomId, Some(user), RpcData(res), now).0;
      && (r.LockGranted? <==> res.success)
      && (!res.success ==> r == LockDenied(if res.message.Some? then res.message.value else "Lock 획득에 실패했습니다",
                                           res.currentLockUserId, res.lockExpireAt))
      && (res.success && res.lockExpireAt.Some? ==> r.lockExpireAt == Iso(res.lockExpireAt.value))
      && (res.success && res.lockExpireAt.None? ==> r.lockExpireAt == At(now + 300000))
  {
  }

  /** `submitTurn(roomId, content)` */
  function SubmitTurn(roomId: string, content: string, user: Option<string>, rpc: RpcOutcome<SubmitReply>): (r: (ActionResult<string>, seq<Effect>))
    ensures user.None? ==> r == (Failed(LoginRequired), [])
    ensures user.Some? ==> r.1 == [CallSubmitTurn(roomId, user.value, Trim(content))]
    ensures user.Some? && rpc.RpcError? ==> r.0 == Failed(rpc.message)
  {
    if user.None? then (Failed(LoginRequired), [])
    else
      var call := [CallSubmitTurn(roomId, user.value, Trim(content))];
      match rpc
      case RpcError(message) => (Failed(message), call)
      case RpcData(res) =>
        if !res.success then (Failed(res.message.GetOr("제출에 실패했습니다")), call)
        else (Succeeded(res.turnId.GetOr("")), call)
  }

  /** A refused submission reports the procedure's message or the default;
      an accepted one reports the new turn's id, "" when the procedure gave
      none. */
  lemma {:induction false} SubmitTurnReply(roomId: string, content: string, user: string, res: SubmitReply)
    ensures var r := SubmitTurn(roomId, content, Some(user), RpcData(res)).0;
      && (r.Succeeded? <==> res.success)
      && (!res.success ==> r.error == if res.message.Some? then res.message.value else "제출에 실패했습니다")
      && (res.success ==> r.value == if res.turnId.Some? then res.turnId.value else "")
  {
  }

  /** `completeStory(roomId)` at instant `now`; `updateError` is the update's
      error, `None` when it succeeded. */
  function CompleteStory(roomId: string, user: Option<string>, updateError: Option<Option<string>>, now: int): (r: (ActionResult<()>, seq<Effect>))
    ensures user.None? ==> r == (Failed(LoginRequired), [])
    ensures user.Some? ==> r.1 == [CompleteRoom(roomId, user.value, At(now), At(now))]
    ensures user.Some? ==> (r.0.Succeeded? <==> updateError.None?)
  {
    if user.None? then (Failed(LoginRequired), [])
    else
      var update := [CompleteRoom(roomId, user.value, At(now), At(now))];
      if updateError.Some? then (Failed(updateError.value.GetOr("완성 처리에 실패했습니다")), update)
      else (Succeeded(()), update)
  }

  /** The row state `completeStory`'s update touches. */
  datatype RoomRow = RoomRow(id: string, createdBy: Option<string>, isCompleted: bool,
                             completedAt: Option<Timestamp>, updatedAt: Timestamp)

  /** What the update `.eq("id", roomId).eq("created_by", user)` does to a
      table. */
  function ApplyComplete(rows: seq<RoomRow>, e: Effect): (r: seq<RoomRow>)
    requires e.CompleteRoom?
    ensures |r| == |rows|
  {
    seq(|rows|, k requires 0 <= k < |rows| =>
      if rows[k].id == e.roomId && rows[k].createdBy == Some(e.createdBy)
      then rows[k].(isCompleted := true, completedAt := Some(e.completedAt), updatedAt := e.updatedAt)
      else rows[k])
  }

  /** Completing a story changes only the row with that id whose creator is
      the caller, marks it completed and stamps its completion and update
      times with the same instant; every other row is untouched. */
  lemma {:induction false} CompleteTouchesOnlyOwnRoom(rows: seq<RoomRow>, roomId: string, user: string, now: int, k: nat)
    requires k < |rows|
    ensures var e := CompleteStory(roomId, Some(user), None, now).1[0];
      var after := ApplyComplete(rows, e);
      && (rows[k].id == roomId && rows[k].createdBy == Some(user) ==> (after[k].isCompleted && after[k].completedAt == Some(At(now))
                                                                 && after[k].updatedAt == At(now)))
      && (rows[k].id != roomId || rows[k].createdBy != Some(user) ==> after[k] == rows[k])
  {
  }
}
