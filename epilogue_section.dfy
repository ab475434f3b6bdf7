/** The epilogue panel under a completed story,
    components/posts/EpilogueSection.tsx: the capped draft and the submit
    that appends the reader's epilogue to the list after a short delay.
    The component does not call the epilogue server action; the delay is
    split into the click and the moment it has elapsed. */
module EpilogueSection {
  import opened Common
  import opened Types

  const MaxEpilogueChars := 300
  const Me := "나"
  const JustNow := "방금 전"

  /** The epilogue a submit adds, stamped with the clock's `nowMs`. */
  function NewEpilogue(draft: string, nowMs: int): (e: Epilogue)
    ensures e.author == Me && e.content == Trim(draft) && e.likes == Some(0) && e.createdAt == JustNow
  {
    Epilogue("ep-" + IntToString(nowMs), Me, None, None, Trim(draft), JustNow, Some(0))
  }

  class Section {
    var epilogues: seq<Epilogue>
    var content: string
    var isSubmitting: bool

    constructor (initial: seq<Epilogue>)
      ensures epilogues == initial && content == "" && !isSubmitting
    {
      epilogues := initial;
      content := "";
      isSubmitting := false;
    }

    /** The textarea keeps at most 300 characters. */
    method SetContent(text: string)
      modifies this`content
      ensures content == Take(text, MaxEpilogueChars) && |content| <= MaxEpilogueChars
    {
      content := Take(text, MaxEpilogueChars);
    }

    /** A click on submit: nothing for a blank draft or while a submit is
        under way; otherwise the submit starts with the draft as it is now. */
    method SubmitClicked() returns (draft: Option<string>)
      modifies this`isSubmitting
      ensures draft.None? <==> AllSpace(content) || old(isSubmitting)
      ensures draft.None? ==> isSubmitting == old(isSubmitting)
      ensures draft.Some? ==> draft.value == content && isSubmitting
    {
      TrimEmptyIffBlank(content);
      if Trim(content) == "" || isSubmitting {
        return None;
      }
      isSubmitting := true;
      draft := Some(content);
    }

    /** The delay is over: the epilogue is appended after all others, the
        draft is cleared and submitting ends. */
    method SubmitSettled(draft: string, nowMs: int)
      modifies this`epilogues, this`content, this`isSubmitting
      ensures epilogues == old(epilogues) + [NewEpilogue(draft, nowMs)]
      ensures content == "" && !isSubmitting
    {
      var added := NewEpilogue(draft, nowMs);
      epilogues, content, isSubmitting := epilogues + [added], "", false;
    }

    /** The list heading's count, shown only when there are epilogues. */
    function ShownCount(): (r: Option<nat>)
      reads this
      ensures r.Some? <==> epilogues != []
      ensures r.Some? ==> r.value == |epilogues|
    {
      if |epilogues| > 0 then Some(|epilogues|) else None
    }
  }

  /** A submit adds exactly one epilogue, at the end, leaves the earlier
      ones as they were, and its content is never blank and never longer
      than the cap. */
  method SubmitAppendsOne(section: Section, text: string, nowMs: int)
    requires !section.isSubmitting && !AllSpace(Take(text, MaxEpilogueChars))
    modifies section
    ensures |section.epilogues| == |old(section.epilogues)| + 1
    ensures section.epilogues[..|old(section.epilogues)|] == old(section.epilogues)
    ensures var added := section.epilogues[|section.epilogues| - 1];
      && added.content != "" && |added.content| <= MaxEpilogueChars && added.author == Me
  {
    var before := section.epilogues;
    var capped := Take(text, MaxEpilogueChars);
    section.SetContent(text);
    var draft := section.SubmitClicked();
    assert draft == Some(capped);
    TrimmedDraftFits(capped);
    var added := NewEpilogue(capped, nowMs);
    assert section.epilogues == before;
    section.SubmitSettled(capped, nowMs);
    assert section.epilogues == before + [added];
    assert section.epilogues[..|before|] == before;
  }

  lemma {:induction false} TrimmedDraftFits(draft: string)
    requires !AllSpace(draft) && |draft| <= MaxEpilogueChars
    ensures Trim(draft) != "" && |Trim(draft)| <= MaxEpilogueChars
  {
    TrimShape(draft);
    TrimEmptyIffBlank(draft);
  }
}
