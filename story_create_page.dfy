/** The story-creation page of app/story/create/page.tsx: its form fields,
    the tag picker and the submission. Text inputs with a `maxLength`
    keep at most that many characters, which `SetTitle`, `SetParagraph`
    and `SetCustomTag` model by truncation. */
module StoryCreatePage {
  import opened Common
  import opened StoryActions
  import GenreTables

  const MaxTags := 5
  const PresetTags: seq<string> := ["힐링", "반전", "감동", "스릴러", "액션", "일상", "판타지", "미래",
                                    "과거", "현대", "학원", "직장", "가족", "우정", "사랑"]

  class CreatePage {
    var title: string
    /** The chosen genre code, "" until one is chosen. */
    var genre: string
    var firstParagraph: string
    var tags: seq<string>
    var customTag: string
    var isSubmitting: bool
    var showEffect: bool
    var createdRoomId: Option<string>

    /** The tag list never repeats a tag and never holds more than five;
        every field stays within its input's `maxLength`. */
    ghost predicate Valid()
      reads this
    {
      && |tags| <= MaxTags && NoRepeats(tags)
      && (forall t :: t in tags ==> |t| <= 10)
      && |title| <= 100 && |firstParagraph| <= 1000 && |customTag| <= 10
      && (genre == "" || genre in GenreTables.UiCodes)
    }

    constructor ()
      ensures Valid()
      ensures title == "" && genre == "" && firstParagraph == "" && tags == [] && customTag == ""
      ensures !isSubmitting && !showEffect && createdRoomId.None?
    {
      title, genre, firstParagraph, tags, customTag := "", "", "", [], "";
      isSubmitting, showEffect, createdRoomId := false, false, None;
    }

    method SetTitle(text: string)
      requires Valid()
      modifies this`title
      ensures Valid() && title == Take(text, 100)
    {
      title := Take(text, 100);
    }

    /** The genre select offers the five codes only. */
    method SetGenre(code: string)
      requires Valid() && code in GenreTables.UiCodes
      modifies this`genre
      ensures Valid() && genre == code
    {
      genre := code;
    }

    method SetParagraph(text: string)
      requires Valid()
      modifies this`firstParagraph
      ensures Valid() && firstParagraph == Take(text, 1000)
    {
      firstParagraph := Take(text, 1000);
    }

    method SetCustomTag(text: string)
      requires Valid()
      modifies this`customTag
      ensures Valid() && customTag == Take(text, 10)
    {
      customTag := Take(text, 10);
    }

    /** `handleAddTag(tag)` for a preset tag: appended only when absent and
        fewer than five tags are chosen. */
    method AddTag(tag: string)
      requires Valid() && tag in PresetTags
      modifies this`tags
      ensures Valid()
      ensures tags == if tag !in old(tags) && |old(tags)| < MaxTags then old(tags) + [tag] else old(tags)
    {
      if tag !in tags && |tags| < MaxTags {
        tags := tags + [tag];
      }
    }

    /** `handleRemoveTag(tag)`: drops that tag and keeps the others in order. */
    method RemoveTag(tag: string)
      requires Valid()
      modifies this`tags
      ensures Valid()
      ensures tags == Without(old(tags), tag)
    {
      WithoutKeepsNoRepeats(tags, tag);
      tags := Without(tags, tag);
    }

    /** `handleAddCustomTag`: the trimmed input is appended when it is not
        blank, not yet chosen and fewer than five tags are chosen, and the
        input is then cleared; otherwise nothing changes. */
    method AddCustomTag()
      requires Valid()
      modifies this`tags, this`customTag
      ensures Valid()
      ensures var t := Trim(old(customTag));
        if t != "" && t !in old(tags) && |old(tags)| < MaxTags
        then tags == old(tags) + [t] && customTag == ""
        else tags == old(tags) && customTag == old(customTag)
    {
      var t := Trim(customTag);
      if t != "" && t !in tags && |tags| < MaxTags {
        tags := tags + [t];
        customTag := "";
      }
    }

    /** `isFormValid` */
    predicate IsFormValid()
      reads this
      ensures IsFormValid() ==> !AllSpace(title) && !AllSpace(firstParagraph) && genre != [] && |tags| >= 1
    {
      TrimEmptyIffBlank(title);
      TrimEmptyIffBlank(firstParagraph);
      Trim(title) != "" && genre != "" && Trim(firstParagraph) != "" && |tags| > 0
    }

    /** The request `handleSubmit` sends: the paragraph trimmed, the rest as
        typed. */
    function Request(): (r: CreateStoryInput)
      reads this
      ensures Trim(r.firstParagraph) == r.firstParagraph
      ensures IsFormValid() ==> r.firstParagraph != [] && r.tags != []
    {
      TrimIdempotent(firstParagraph);
      CreateStoryInput(title, genre, Trim(firstParagraph), tags)
    }

    /** `handleSubmit` up to the `createStory` call. */
    method Submit() returns (request: CreateStoryInput)
      requires Valid()
      modifies this`isSubmitting
      ensures Valid() && isSubmitting
      ensures request == Request()
    {
      isSubmitting := true;
      request := Request();
    }

    /** The rest of `handleSubmit`: success records the new room and starts
        the creation effect; failure re-enables the form. */
    method FinishSubmit(result: ActionResult<string>)
      requires Valid()
      modifies this`isSubmitting, this`createdRoomId, this`showEffect
      ensures Valid()
      ensures result.Succeeded? ==> (createdRoomId == Some(result.value) && showEffect
        && isSubmitting == old(isSubmitting))
      ensures result.Failed? ==> (!isSubmitting && createdRoomId == old(createdRoomId)
        && showEffect == old(showEffect))
    {
      if result.Succeeded? {
        createdRoomId := Some(result.value);
        showEffect := true;
      } else {
        isSubmitting := false;
      }
    }

    /** `handleEffectComplete`: where the page navigates once the effect
        ends. */
    function EffectCompletePath(): (path: string)
      reads this
      ensures createdRoomId.Some? && createdRoomId.value != "" ==> path == "/story/" + createdRoomId.value
      ensures createdRoomId.None? || createdRoomId.value == "" ==> path == "/"
    {
      if createdRoomId.Some? && createdRoomId.value != "" then "/story/" + createdRoomId.value else "/"
    }
  }

  /** A form the page lets the user submit always passes the server's
      schema: the input limits, the genre select, the tag rules and the
      trimmed checks of `isFormValid` together imply every bound
      `createStorySchema` enforces. */
  lemma {:induction false} SubmittableFormPassesSchema(page: CreatePage)
    requires page.Valid() && page.IsFormValid()
    ensures ValidCreateStoryInput(page.Request())
  {
    var p := page.firstParagraph;
    var r := page.Request();
    assert r.title == page.title && r.genre == page.genre && r.tags == page.tags && r.firstParagraph == Trim(p);
    assert 1 <= |r.firstParagraph| <= 1000;
    assert 1 <= |r.title| <= 100;
    TagsFit(page.tags);
  }

  lemma {:induction false} TagsFit(tags: seq<string>)
    requires forall t :: t in tags ==> |t| <= 10
    ensures forall k :: 0 <= k < |tags| ==> |tags[k]| <= 10
  {
    assert forall k :: 0 <= k < |tags| ==> tags[k] in tags;
  }
}
