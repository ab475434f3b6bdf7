/** The profile server action of actions/profile.ts: `updateProfileSchema`
    and `updateProfile`. Path revalidation is not modelled. */
module ProfileAction {
  import opened Common
  import opened Schema
  import StoryActions

  /** The genres a profile may prefer: the five database labels. */
  const ValidGenres: seq<string> := ["자유", "판타지", "SF", "로맨스", "공포"]

  const NameMissing := "표시 이름을 입력해주세요"
  const NameTooLong := "표시 이름은 20자 이내로 입력해주세요"
  const BadAvatarUrl := "올바른 이미지 URL을 입력해주세요"
  const BioTooLong := "한 줄 소개는 150자 이내로 입력해주세요"
  const TooManyGenres := "선호 장르는 최대 5개까지 선택 가능합니다"
  const SaveFailed := "프로필 저장에 실패했습니다"

  datatype UpdateProfileInput = UpdateProfileInput(
    displayName: string, avatarUrl: Option<string>, bio: Option<string>, preferredGenres: seq<string>)

  /** The upsert keyed by the user id, the one write of the action. */
  datatype ProfileUpsert = ProfileUpsert(
    id: string, displayName: string, avatarUrl: Option<string>, bio: Option<string>,
    preferredGenres: seq<string>, updatedAt: StoryActions.Timestamp)

  /** The characters `.` in a JavaScript regular expression does not match. */
  predicate IsLineTerminator(c: char) {
    c == '\n' || c == '\r' || c == '\U{2028}' || c == '\U{2029}'
  }

  /** `/^https?:\/\/.+/.test(v)`: the scheme, then at least one character
      that is not a line terminator. */
  predicate HttpUrl(v: string)
    ensures HttpUrl(v) ==> |v| >= 8 && v[..4] == "http"
  {
    || (StartsWith(v, "http://") && |v| > 7 && !IsLineTerminator(v[7]))
    || (StartsWith(v, "https://") && |v| > 8 && !IsLineTerminator(v[8]))
  }

  function GenreIssues(g: string): seq<string> {
    EnumIssues(ValidGenres, g)
  }

  /** The issues of every field after the name, in schema order; a missing
      avatar URL or bio is "" before validation. */
  function OtherIssues(input: UpdateProfileInput): seq<string> {
    var avatar := input.avatarUrl.GetOr("");
    var bio := input.bio.GetOr("");
    (if avatar == "" || HttpUrl(avatar) then [] else [BadAvatarUrl])
    + LengthIssues(bio, 0, "", 150, BioTooLong)
    + LengthIssues(input.preferredGenres, 0, "", 5, TooManyGenres)
    + ElementIssues(input.preferredGenres, GenreIssues)
  }

  predicate ValidOtherFields(input: UpdateProfileInput) {
    var avatar := input.avatarUrl.GetOr("");
    && (avatar == "" || HttpUrl(avatar))
    && |input.bio.GetOr("")| <= 150
    && |input.preferredGenres| <= 5
    && forall k :: 0 <= k < |input.preferredGenres| ==> input.preferredGenres[k] in ValidGenres
  }

  lemma {:induction false} OtherIssuesAccept(input: UpdateProfileInput)
    ensures OtherIssues(input) == [] <==> ValidOtherFields(input)
  {
    assert forall g :: GenreIssues(g) == [] <==> g in ValidGenres;
  }

  /** `.min(1).max(20).trim()` as zod runs it: both length checks see the
      name as typed, and only then is it trimmed. */
  function NameIssuesAsWritten(name: string): seq<string> {
    LengthIssues(name, 1, NameMissing, 20, NameTooLong)
  }

  /** The name check the messages describe: the trimmed name must have 1 to
      20 characters. */
  function NameIssues(name: string): seq<string> {
    LengthIssues(Trim(name), 1, NameMissing, 20, NameTooLong)
  }

  /** `updateProfile(input)` given a name check: the first issue (before
      the user is looked up), the login check, then the upsert with the
      trimmed name, an empty avatar or bio stored as null, stamped `now`.
      `upsertFails` is whether the upsert errs. */
  function UpdateProfileWith(nameIssues: seq<string>, input: UpdateProfileInput, user: Option<string>,
                             upsertFails: bool, now: int): (r: (StoryActions.ActionResult<()>, seq<ProfileUpsert>))
    ensures nameIssues + OtherIssues(input) != [] ==>
      r == (StoryActions.Failed((nameIssues + OtherIssues(input))[0]), [])
    ensures nameIssues + OtherIssues(input) == [] && user.None? ==> r == (StoryActions.Failed(StoryActions.LoginRequired), [])
    ensures nameIssues + OtherIssues(input) == [] && user.Some? ==>
      var avatar, bio := input.avatarUrl.GetOr(""), input.bio.GetOr("");
      && r.1 == [ProfileUpsert(user.value, Trim(input.displayName), if avatar == "" then None else Some(avatar),
                               if bio == "" then None else Some(bio), input.preferredGenres, StoryActions.At(now))]
      && r.0 == if upsertFails then StoryActions.Failed(SaveFailed) else StoryActions.Succeeded(())
  {
    var issues := nameIssues + OtherIssues(input);
    if issues != [] then (StoryActions.Failed(StoryActions.FirstIssue(issues, "입력값을 확인해주세요")), [])
    else if user.None? then (StoryActions.Failed(StoryActions.LoginRequired), [])
    else
      var avatar, bio := input.avatarUrl.GetOr(""), input.bio.GetOr("");
      var upsert := ProfileUpsert(user.value, Trim(input.displayName), if avatar == "" then None else Some(avatar),
                                  if bio == "" then None else Some(bio), input.preferredGenres, StoryActions.At(now));
      (if upsertFails then StoryActions.Failed(SaveFailed) else StoryActions.Succeeded(()), [upsert])
  }

  /** `updateProfile` as written. */
  function UpdateProfileAsWritten(input: UpdateProfileInput, user: Option<string>, upsertFails: bool, now: int)
    : (r: (StoryActions.ActionResult<()>, seq<ProfileUpsert>))
    ensures r.1 != [] ==> 1 <= |input.displayName| <= 20 && r.1[0].displayName == Trim(input.displayName)
    ensures r.0.Succeeded? ==> |r.1| == 1
  {
    UpdateProfileWith(NameIssuesAsWritten(input.displayName), input, user, upsertFails, now)
  }

  /** `updateProfile` with the name trimmed before its length checks. */
  function UpdateProfile(input: UpdateProfileInput, user: Option<string>, upsertFails: bool, now: int)
    : (r: (StoryActions.ActionResult<()>, seq<ProfileUpsert>))
    ensures r.1 != [] ==> 1 <= |r.1[0].displayName| <= 20 && r.1[0].displayName == Trim(input.displayName)
    ensures r.0.Succeeded? ==> |r.1| == 1
  {
    UpdateProfileWith(NameIssues(input.displayName), input, user, upsertFails, now)
  }

  /** What the schema accepts, with the trimmed name checked. */
  predicate ValidProfileInput(input: UpdateProfileInput) {
    1 <= |Trim(input.displayName)| <= 20 && ValidOtherFields(input)
  }

  /** Invalid input is refused before the user is looked up and nothing is
      written; valid input from a signed-in user is upserted under that
      user's id, and only valid input ever is. */
  lemma {:induction false} UpdateProfileAcceptsValid(input: UpdateProfileInput, user: Option<string>, upsertFails: bool, now: int)
    ensures var (res, writes) := UpdateProfile(input, user, upsertFails, now);
      && (!ValidProfileInput(input) ==> res.Failed? && writes == [])
      && (writes != [] <==> ValidProfileInput(input) && user.Some?)
      && (writes != [] ==> writes[0].id == user.value && writes[0].displayName == Trim(input.displayName))
      && (res.Succeeded? <==> ValidProfileInput(input) && user.Some? && !upsertFails)
  {
    NoIssuesIffValid(input);
  }

  /** The schema finds no issue exactly when the input is valid. */
  lemma {:induction false} NoIssuesIffValid(input: UpdateProfileInput)
    ensures NameIssues(input.displayName) + OtherIssues(input) == [] <==> ValidProfileInput(input)
  {
    OtherIssuesAccept(input);
    var t := Trim(input.displayName);
    assert NameIssues(input.displayName) == [] <==> 1 <= |t| <= 20;
  }

  /** A stored name is never blank and never longer than 20 characters. */
  lemma {:induction false} StoredNameIsNonBlank(input: UpdateProfileInput, user: Option<string>, upsertFails: bool, now: int)
    ensures var writes := UpdateProfile(input, user, upsertFails, now).1;
      writes != [] ==> 1 <= |writes[0].displayName| <= 20 && !AllSpace(writes[0].displayName)
  {
    OtherIssuesAccept(input);
    var t := Trim(input.displayName);
    TrimShape(input.displayName);
    if t != [] {
      assert !IsSpace(t[0]);
    }
  }

  /** As written, a name of 1 to 20 spaces (one space, say) passes the
      length checks and is stored as the empty string. */
  lemma {:induction false} BlankNameStoredAsWritten(input: UpdateProfileInput, user: string, now: int)
    requires 1 <= |input.displayName| <= 20 && AllSpace(input.displayName) && ValidOtherFields(input)
    ensures var (res, writes) := UpdateProfileAsWritten(input, Some(user), false, now);
      res.Succeeded? && |writes| == 1 && writes[0].displayName == ""
  {
    TrimEmptyIffBlank(input.displayName);
    OtherIssuesAccept(input);
    assert NameIssuesAsWritten(input.displayName) + OtherIssues(input) == [];
  }

  lemma {:induction false} SpaceNamePasses()
    ensures NameIssuesAsWritten(" ") == [] && Trim(" ") == ""
  {
    var s := " ";
    assert |s| == 1 && s[0] == ' ';
    assert AllSpace(s);
    TrimEmptyIffBlank(s);
  }

  /** For a name that is already trimmed, which is what the settings form
      sends, the two checks agree. */
  lemma {:induction false} TrimmedNameChecksAgree(input: UpdateProfileInput, user: Option<string>, upsertFails: bool, now: int)
    requires Trim(input.displayName) == input.displayName
    ensures UpdateProfileAsWritten(input, user, upsertFails, now) == UpdateProfile(input, user, upsertFails, now)
  {
  }
}
