/** The sample fixtures of lib/sample-data.ts that carry logic: the
    completed-story detail lookup, and the numbering of the sample story's
    paragraphs. The fixture tables themselves are inputs to the lookup. */
module SampleData {
  import opened Common
  import opened Types
  import FullStoryView

  const JointWork := "공동 창작"

  /** `completedStories.find((s) => s.id === id)` */
  function FindCompleted(completed: seq<CompletedStory>, id: string): (r: Option<CompletedStory>)
    ensures r.None? <==> forall k :: 0 <= k < |completed| ==> completed[k].id != id
    ensures r.Some? ==> r.value in completed && r.value.id == id
    ensures r.Some? ==> exists i :: 0 <= i < |completed| && completed[i] == r.value
                                    && forall k :: 0 <= k < i ==> completed[k].id != id
  {
    if completed == [] then None
    else if completed[0].id == id then Some(completed[0])
    else
      var r := FindCompleted(completed[1..], id);
      if r.Some? then
        var i :| 0 < i + 1 <= |completed[1..]| && completed[1..][i] == r.value
                 && forall k :: 0 <= k < i ==> completed[1..][k].id != id;
        assert forall k :: 0 <= k < i + 1 ==> completed[k].id != id by {
          forall k | 0 <= k < i + 1 ensures completed[k].id != id {
            if k > 0 {
              assert completed[k] == completed[1..][k - 1];
            }
          }
        }
        r
      else r
  }

  /** The detail made up for a completed story without a detailed entry. */
  function Synthesised(c: CompletedStory): (d: StoryDetail)
    ensures d.story.id == c.id && d.story.title == c.title && d.story.genre == c.genre && d.story.tags == c.tags
    ensures d.story.likes == c.totalLikes && d.story.turns == c.totalTurns && d.story.isCompleted
    ensures d.story.preview == Some(c.preview)
    ensures |d.paragraphs| == 1
    ensures d.paragraphs[0].turnNumber == 1 && d.paragraphs[0].content == c.preview
    ensures d.paragraphs[0].createdAt == c.completedDate && d.paragraphs[0].author == JointWork
  {
    StoryDetail(
      Story(c.id, c.title, c.genre, c.tags, c.totalLikes, c.totalTurns, Some(c.preview), false, true, None),
      [Paragraph(JointWork, None, None, c.preview, 1, c.completedDate, None, None)])
  }

  /** `getCompletedStoryDetail(id)`: the detailed entry when there is one;
      else a detail made up from the completed story with that id; else
      null. The table is looked up by exact key (inherited object members
      are not modelled). */
  function GetCompletedStoryDetail(details: map<string, StoryDetail>, completed: seq<CompletedStory>, id: string)
    : (r: Option<StoryDetail>)
    ensures id in details ==> r == Some(details[id])
    ensures r.None? <==> id !in details && forall k :: 0 <= k < |completed| ==> completed[k].id != id
    ensures id !in details && r.Some? ==> r == Some(Synthesised(FindCompleted(completed, id).value))
  {
    if id in details then Some(details[id])
    else match FindCompleted(completed, id)
      case None => None
      case Some(c) => Some(Synthesised(c))
  }

  /** Every detail the lookup gives has its paragraphs in turn order: a
      made-up one trivially, a detailed one when the table's are. */
  lemma {:induction false} LookupIsInTurnOrder(details: map<string, StoryDetail>, completed: seq<CompletedStory>, id: string)
    requires forall key :: key in details ==> FullStoryView.SortedByTurn(details[key].paragraphs)
    ensures var r := GetCompletedStoryDetail(details, completed, id);
      r.Some? ==> FullStoryView.SortedByTurn(r.value.paragraphs)
  {
  }

  /** The fields of `sampleStoryDetail.paragraphs` that the numbering
      concerns: author, author id, turn number, age and likes. */
  datatype SampleTurn = SampleTurn(author: string, authorId: string, turnNumber: int, createdAt: string, likes: int)

  const SampleTurns: seq<SampleTurn> := [
    SampleTurn("별지기", "1", 1, "2일 전", 42),
    SampleTurn("숲의여행자", "2", 2, "2일 전", 38),
    SampleTurn("달빛작가", "3", 3, "1일 전", 51),
    SampleTurn("별지기", "1", 4, "12시간 전", 29),
    SampleTurn("새벽이슬", "4", 5, "3시간 전", 67)
  ]

  /** The sample story's paragraphs are numbered 1 to 5 in order, one per
      turn, matching its `turns: 5`. */
  lemma {:induction false} SampleTurnsNumberedInOrder()
    ensures |SampleTurns| == 5
    ensures forall k :: 0 <= k < |SampleTurns| ==> SampleTurns[k].turnNumber == k + 1
  {
  }
}
