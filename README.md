# Relay: a verified model of the turn-writing core

Relay is a web app for collaborative serial fiction. A story room grows one
turn at a time: a writer takes a short exclusive lease on the room, writes
for at most five minutes, and submits a paragraph. Readers like paragraphs
and stories, browse lists and rankings, and add epilogues to completed
stories. The app is a React front end on a hosted Postgres database. This
project models, in Dafny, the logic of that app that can be stated without
running it. That covers the parts below.

- **Server actions.**
  - `StoryActions` (`actions/story.ts`) covers creating a story with its first turn, and the result mapping and guards of acquiring the lease, submitting a turn and completing a story.
  - `ProfileAction` and `EpilogueAction` cover the profile and epilogue actions.
  - `Schema` models the validation library's issue order, which these actions rely on.
- **Query aggregation** (`lib/queries/*.ts`), as `StoryQueries`, `RankingQueries`, `AuthorQueries`, `ProfileQueries`, `EpilogueQueries` and `ChallengeQueries`. It covers:
  - the option defaults, the page window, and the filters built from the genre and the search;
  - per-room and per-author counting loops, like sums, and distinct rooms;
  - the first-seen rule, badge choice, rank numbering, the in-memory "sort by turns, then slice" path, and the time-bucket labels.
- **Mappers and tables.**
  - `Mappers` models `lib/mappers.ts`.
  - `GenreTables` models the genre code and label tables of `lib/constants.ts`.
  - `SampleData` models the completed-story lookup of `lib/sample-data.ts`.
- **Client state machines.** Each is a class whose fields are the component's state and whose methods are its handlers. A handler that awaits a call is split at the call.
  - The writing editor and its countdown (`WritingEditor`), and the story creation page's tag list and submit (`StoryCreatePage`).
  - The profile settings form, pagination, the header's active link and mobile menu, the challenge banner countdown, and the challenge card's time-left label.
  - The optimistic like toggles with rollback (`StoryActionBar`, `ParagraphCard`), the epilogue list, the author search filter, and the writing guide's tip cycling.
  - The full-story view, which sorts its paragraph array in place.
- **API routes.**
  - `CoverRoute` models the cover route's image signature check and its model-and-attempt retry loop.
  - `GuideRoute` models the guide route's extraction of the JSON span from the model's text, its default fields, its prompt, and the fallback from one AI provider to the other.
- **JavaScript built-ins** that the model needs are defined once in `Common`. These are `trim`, `slice`, `includes`, `toLowerCase`, `padStart`, a stable descending sort, `[...new Set(xs)]` and `new Map(rows)`.

The model treats the outside world as follows:
- Database reads are inputs.
- The stored procedures that arbitrate the writing lease are records handed to the action.
- The signed-in user is an optional id.
- The clock is an explicit parameter.
- Writes and remote calls are returned as lists of effects, so a property can say that a refused request writes nothing.

## Model

| member | source | states |
|---|---|---|
| StoryActions.CreateStorySchemaAccepts | actions/story.ts:9-14 | the schema finds no issue exactly when the title has 1 to 100 characters, the genre is one of the five codes, the first paragraph has 1 to 1000 characters and there are 1 to 5 tags of at most 10 characters each; an empty or over-long title is the first issue reported |
| StoryActions.FirstIssue | actions/story.ts:28-29 | the reported message is the first issue, or the fallback when there is none |
| StoryActions.CreateStoryRejectsInvalid | actions/story.ts:26-30 | invalid input fails with the schema's first message and issues no write, whoever the caller is |
| StoryActions.CreateStoryNeedsLogin | actions/story.ts:36-44 | valid input from a signed-out caller fails with "로그인이 필요합니다" and writes nothing |
| StoryActions.CreateStoryWrites | actions/story.ts:32-73 | the room insert carries the trimmed title, the genre's database label, the tags, the creator and the first 200 characters of the paragraph; the turn insert follows only when the room was created and is turn 1 by the creator with the trimmed paragraph; success, with the room id, exactly when both inserts succeed |
| StoryActions.PreviewIsPrefix | actions/story.ts:34 | the preview is the paragraph's prefix of length min(200, its length) |
| StoryActions.AcquireLock | actions/story.ts:82-100 | a signed-out caller is refused before any procedure call; otherwise exactly one `check_and_acquire_lock` call is made for that room and user, and a transport error is reported with its message |
| StoryActions.AcquireLockReply | actions/story.ts:102-115 | granted exactly when the procedure says success; a denial forwards the message (default "Lock 획득에 실패했습니다"), holder and expiry unchanged; a grant carries the procedure's expiry or now + 300000 ms |
| StoryActions.SubmitTurn | actions/story.ts:122-144 | a signed-out caller is refused with no call; otherwise one `submit_turn` call with the trimmed content, and a transport error is reported with its message |
| StoryActions.SubmitTurnReply | actions/story.ts:146-152 | succeeds exactly when the procedure does; a refusal reports its message or "제출에 실패했습니다"; a success reports the turn id or "" |
| StoryActions.CompleteStory | actions/story.ts:161-183 | a signed-out caller is refused with no update; otherwise one update of that room for that creator, stamped now, and success exactly when the update has no error |
| StoryActions.ApplyComplete | actions/story.ts:171-179 | the update keeps the number of rows |
| StoryActions.CompleteTouchesOnlyOwnRoom | actions/story.ts:171-179 | the row with that id and that creator becomes completed with `completed_at` and `updated_at` both set to now; every other row is unchanged |
| StoryActions.CreateStoryIssues | actions/story.ts:9-14 | the schema reports no issue exactly when the input is valid (title, genre code, first paragraph and 1 to 5 tags of at most 10 characters) |
| StoryActions.CreateStory | actions/story.ts:20-74 | invalid input fails with the schema's first issue and writes nothing; any write is a room insert by the signed-in user; success exactly when the input is valid, the user is signed in, the room insert succeeds and the turn insert does not fail |
| WritingEditor.TickDown | components/posts/WritingEditor.tsx:35-41 | a tick at 1 second or less gives 0; above that it takes one second off and stays at least 1 |
| WritingEditor.TicksCountDown | components/posts/WritingEditor.tsx:34-42 | n ticks from t seconds leave max(t - n, 0): the countdown never goes below zero |
| WritingEditor.FormatTime | components/posts/WritingEditor.tsx:88-92 | the text has at least four characters, with the colon third from the end |
| WritingEditor.FormatTimeRoundTrip | components/posts/WritingEditor.tsx:88-92 | every character but the colon is a digit, and reading the minutes and the two-digit seconds back gives the number of seconds rendered |
| WritingEditor.FormatTimeParts | components/posts/WritingEditor.tsx:89-91 | the minutes are `floor(s/60)` in decimal and the seconds `s % 60` padded to two digits, and together they read back as s |
| WritingEditor.Editor.constructor | components/posts/WritingEditor.tsx:22-29 | out of writing mode, empty draft, 300 seconds left, nothing in flight, no errors, no expiry |
| WritingEditor.Editor.Tick | components/posts/WritingEditor.tsx:31-45 | in writing mode one tick applies `TickDown`; otherwise nothing changes; time left never rises and stays in 0..300 |
| WritingEditor.Editor.StartWriting | components/posts/WritingEditor.tsx:47-56 | signed out it only opens the login modal and makes no acquire request; with a missing or empty room id nothing changes; otherwise it clears the lock error, marks acquiring and requests that room |
| WritingEditor.Editor.FinishStartWriting | components/posts/WritingEditor.tsx:57-66 | a grant enters writing mode with 300 seconds and the granted expiry; a denial keeps the mode and time, records the error and the expiry; acquiring ends either way |
| WritingEditor.Editor.Edit | components/posts/WritingEditor.tsx:159-161 | while time is left the draft becomes the first 500 characters of the text; once time is up the disabled field keeps the draft |
| WritingEditor.Editor.Submit | components/posts/WritingEditor.tsx:69-74 | with a blank draft, a submit in flight or a missing or empty room id nothing changes and nothing is sent; otherwise the submit error is cleared, submitting starts and the (non-empty) room id and draft are sent, which an enabled button always does when there is a room |
| WritingEditor.Editor.FinishSubmit | components/posts/WritingEditor.tsx:76-85 | success leaves writing mode with an empty draft and no errors; failure keeps mode and draft and records the action's error message; submitting ends either way |
| WritingEditor.Editor.Cancel | components/posts/WritingEditor.tsx:173-177 | leaves writing mode and empties the draft; nothing else changes and no release is requested |
| WritingEditor.Editor.SubmitDisabled | components/posts/WritingEditor.tsx:183 | an enabled submit button means a draft that is not blank, time left and no submission in flight |
| StoryCreatePage.CreatePage.constructor | app/story/create/page.tsx:55-62 | every field starts empty, no tags, nothing in flight, no created room |
| StoryCreatePage.CreatePage.SetTitle | app/story/create/page.tsx:144-145 | the title keeps at most 100 characters (`maxLength`) |
| StoryCreatePage.CreatePage.SetGenre | app/story/create/page.tsx:156 | the genre becomes the chosen one of the five codes |
| StoryCreatePage.CreatePage.SetParagraph | app/story/create/page.tsx:182-184 | the first paragraph keeps at most 1000 characters |
| StoryCreatePage.CreatePage.SetCustomTag | app/story/create/page.tsx:250-257 | the custom tag input keeps at most 10 characters |
| StoryCreatePage.CreatePage.AddTag | app/story/create/page.tsx:68-72 | a preset tag is appended exactly when it is absent and fewer than five tags are chosen; the list stays free of repeats and at most five long |
| StoryCreatePage.CreatePage.RemoveTag | app/story/create/page.tsx:74-76 | the list becomes the old one without that tag, the others in order, and keeps the tag invariant |
| StoryCreatePage.CreatePage.AddCustomTag | app/story/create/page.tsx:78-83 | the trimmed input is appended and the input cleared exactly when it is non-blank, not chosen yet and fewer than five are chosen; otherwise tags and input are unchanged |
| StoryCreatePage.CreatePage.Submit | app/story/create/page.tsx:87-91 | submitting starts and the request carries the trimmed paragraph with the other fields as typed |
| StoryCreatePage.CreatePage.FinishSubmit | app/story/create/page.tsx:93-103 | success records the room id and starts the effect; failure re-enables the form and changes nothing else |
| StoryCreatePage.CreatePage.EffectCompletePath | app/story/create/page.tsx:64-66 | navigates to `/story/{id}` for a recorded non-empty id, else to "/" |
| StoryCreatePage.SubmittableFormPassesSchema | app/story/create/page.tsx:106 | any form `isFormValid` lets through, within the inputs' limits, satisfies every bound of `createStorySchema` |
| StoryCreatePage.CreatePage.IsFormValid | app/story/create/page.tsx:106 | a submittable form has a title and a first paragraph that are not blank, a genre and at least one tag |
| StoryCreatePage.CreatePage.Request | app/story/create/page.tsx:91 | the request's first paragraph is already trimmed, and a submittable form sends a non-empty paragraph and at least one tag |
| GenreTables.ValueToDb | lib/constants.ts:6-12 | a code maps to a label exactly when it is one of the five codes, and the label is one of the five labels |
| GenreTables.DbToValue | lib/constants.ts:15-21 | a label maps to a code exactly when it is one of the five labels, and the code is one of the five codes |
| GenreTables.TablesHaveFiveKeys | lib/constants.ts:6-21 | each table has five distinct keys |
| GenreTables.CodeRoundTrip | lib/constants.ts:6-21 | code to label to code gives the code back |
| GenreTables.LabelRoundTrip | lib/constants.ts:6-21 | label to code to label gives the label back |
| GenreTables.ValueToDbInjective | lib/constants.ts:6-12 | distinct codes map to distinct labels |
| GenreTables.LookupAsText | lib/constants.ts:6-12 | a plain-object lookup yields a value exactly for the five codes and the names every object inherits; on a code it is the code's label, on an inherited name it is text that is no label |
| GenreTables.InheritedText | lib/constants.ts:6-12 | the text of an inherited value is never one of the five labels |
| Schema.LengthIssues | actions/story.ts:10 | no issue exactly when the length is within `min`..`max`; a too-short value reports the `min` message first; a too-long one reports only the `max` message |
| Schema.EnumIssues | actions/story.ts:11 | no issue exactly when the value is one of the enum's options |
| Schema.ElementIssues | actions/story.ts:13 | no issue exactly when every array element passes its own check |
| Mappers.NameOr | lib/mappers.ts:88 | a name that is not blank gives its trimmed, non-empty form; a missing or blank name gives the fallback |
| Mappers.NameOrClean | lib/mappers.ts:88 | with a clean fallback the shown name is non-empty and neither starts nor ends with white space |
| Mappers.BeforeT | lib/mappers.ts:72-73 | the result is the longest prefix without a "T"; when shorter than the input, a "T" follows it |
| Mappers.BeforeTOfIso | lib/mappers.ts:72-73 | for a timestamp `date` + "T" + `time` the result is exactly the date |
| Mappers.RoomToStory | lib/mappers.ts:21-34 | each story field comes from its column; missing tags become []; a story is a challenge entry exactly when it has a non-empty challenge id |
| Mappers.RoomToCompletedStory | lib/mappers.ts:41-57 | each field comes from its column; missing turn count gives 0; the completion date falls back to the update time and a missing preview to "" |
| Mappers.MapChallenge | lib/mappers.ts:63-78 | id, title and status are copied; description and participants default to "" and 0, theme to "자유"; the start and end dates are the parts of the timestamps before their first "T" (the whole timestamp when there is none) |
| Mappers.TurnToParagraph | lib/mappers.ts:84-99 | the author is the profile's trimmed name or "익명", and every other field comes from the turn or the profile's avatar |
| Mappers.ParagraphAuthorNeverBlank | lib/mappers.ts:88 | a paragraph's author is never empty and never starts or ends with white space |
| StoryQueries.Defaults | lib/queries/story.ts:28 | a missing option takes its default ("all", "", "latest", 1, 9); a given one is kept |
| StoryQueries.GenreFilter | lib/queries/story.ts:36-41 | a genre filter is added exactly when the genre is not "all" and the table lookup yields something: one of the five codes, whose label maps back to that code, or a name the plain object inherits (such as "toString"), whose text is no label at all |
| StoryQueries.SearchFilter | lib/queries/story.ts:43-46 | a blank term adds no filter; otherwise the filter term is the trimmed input with every '#' removed: it holds no '#', is no longer than the input, and keeps every other character as often as the trimmed input has it |
| StoryQueries.PageRange | lib/queries/story.ts:61-62 | the range starts at `(page - 1) * limit`, spans exactly `limit` rows, and starts at 0 or later for a valid page |
| StoryQueries.PagesTile | lib/queries/story.ts:61-62 | the next page's range starts right after this page's ends |
| StoryQueries.StoriesQuery | lib/queries/story.ts:31-62 | unfinished rooms only, with the genre and search filters, the order the sort option names, and the page's range |
| StoryQueries.FetchStories | lib/queries/story.ts:64-91 | an error gives no stories and a count of 0; otherwise one story per row in row order, each with its number of turn rows, and the exact count (0 when absent) |
| StoryQueries.LastWithId | lib/queries/story.ts:130-132 | the profile kept for an id is one of the profiles with that id, and there is one exactly when some profile has that id |
| StoryQueries.ProfilesById | lib/queries/story.ts:123-133 | the map holds an id exactly when some profile has it, and maps it to the last such profile |
| StoryQueries.FetchStoryDetail | lib/queries/story.ts:99-146 | a missing room or a failed turn query gives no detail; otherwise one paragraph per turn in turn order, each with its author's profile, the story's turn count is the number of paragraphs, and the creator is returned |
| StoryQueries.DetailParagraphsOrdered | lib/queries/story.ts:112-116 | turns in ascending `turn_index` give paragraphs in ascending turn number, and the turn count equals the number of paragraphs |
| StoryQueries.CompletedQuery | lib/queries/story.ts:169-205 | completed rooms only, with the same filters; the order follows the sort option, and only the turns sort fetches every row without a range |
| StoryQueries.TurnSortedPageOrdered | lib/queries/story.ts:227-231 | the turns-sorted page holds at most `limit` of the matching rooms, in non-increasing turn count |
| StoryQueries.TurnSortFromCounts | lib/queries/story.ts:222-228 | sorting by the counted map gives the same page as sorting by the number of turn rows |
| StoryQueries.FetchCompletedStories | lib/queries/story.ts:207-240 | an error gives no stories and a count of 0; otherwise one completed story per room on the page (the turn-sorted slice for the turns sort), each with its turn count, absent when the room has no turns |
| StoryQueries.PageFromCountsAgrees | lib/queries/story.ts:227-231 | the page computed from the counted map is the specified page |
| StoryQueries.CountedTurnsAgree | lib/queries/story.ts:234 | reading the counted map gives a room's number of turn rows, and nothing for a room without turns |
| StoryQueries.NoRowsNoPage | lib/queries/story.ts:227-231 | no matching rows give an empty page |
| StoryQueries.TurnPageOrdered | lib/queries/story.ts:227-230 | the completed page holds at most the limit, ordered by turn count descending, and only rooms that were fetched |
| StoryQueries.TurnSortedPage | lib/queries/story.ts:227-231 | the page never has more rooms than the answer, nor more than `limit` for a page of 1 or more |
| StoryQueries.CompletedPageRooms | lib/queries/story.ts:213-231 | any sort but "turns" keeps the answer's rows as they are; the turns sort yields at most `limit` of them for a valid page |
| RankingQueries.RankingQueryFor | lib/queries/ranking.ts:12-37 | the genre filter applies exactly for a non-empty genre other than "전체"; the limit defaults to 50; weekly and monthly bound the creation time, "all" does not |
| RankingQueries.FetchRankingStories | lib/queries/ranking.ts:39-62 | an error or no rooms gives []; otherwise one entry per room in order, with rank position + 1, its number of turn rows and a missing like count read as 0 |
| RankingQueries.RankingOrder | lib/queries/ranking.ts:22-62 | ranks run 1..n down the list, turn counts are never negative, and rooms returned by likes descending keep that order |
| AuthorQueries.BadgeOrder | lib/queries/author.ts:9-13 | the rank is between 0 and 3, and positive exactly for the three named badges; a badge type naming an inherited object member is ranked 0 here (see Left out) |
| AuthorQueries.StatsCountTurns | lib/queries/author.ts:28-38 | an author's turn total is the number of their rows, and their room count is at most their turn total |
| AuthorQueries.AggregateByAuthor | lib/queries/author.ts:24-38 | the map's keys are the authors in the order of their first turn, and each author's totals are their turns, likes (a missing count adds 0) and rooms |
| AuthorQueries.Entries | lib/queries/author.ts:40 | every entry is an author who wrote a turn, paired with their totals, and no author appears twice |
| AuthorQueries.BadgesByUser | lib/queries/author.ts:62-70 | a user is in the map exactly when they hold a badge row, and the value is the badge the replace-when-absent-or-higher rule keeps |
| AuthorQueries.BestBadgeFacts | lib/queries/author.ts:62-70 | the kept badge ranks at least as high as every other badge the user holds, and is the empty string only when all of theirs are |
| AuthorQueries.BestBadgeFirstOfRank | lib/queries/author.ts:67 | on a tie the earlier badge stays: a kept non-empty badge is the user's first non-empty badge of that rank |
| AuthorQueries.FetchPopularAuthors | lib/queries/author.ts:15-84 | an error or no turns gives []; otherwise one card per top entry in order (at most 12 when no limit is passed, the default), each the card `AuthorOf` defines: last profile's trimmed name or "익명", its avatar, the room, like and turn totals, and the kept badge |
| AuthorQueries.TopIsPrefix | lib/queries/author.ts:41-42 | the list is a prefix of the entries sorted by likes |
| AuthorQueries.PopularAuthorsOrdered | lib/queries/author.ts:40-42 | at most `limit` authors, by likes descending, each once, each among the authors who wrote a turn |
| AuthorQueries.PopularAuthorsCounts | lib/queries/author.ts:28-48 | every listed author wrote at least one turn, their turn total is their number of rows, and they wrote in no more rooms than turns |
| AuthorQueries.PopularAuthorsCutoff | lib/queries/author.ts:41-42 | nobody left out of the list has more likes than anybody on it |
| AuthorQueries.SortedIdsDistinct | lib/queries/author.ts:40-41 | sorting entries with distinct ids never puts the same id twice |
| AuthorQueries.StatsOf | lib/queries/author.ts:28-38 | an author's distinct rooms never outnumber their turns, which never outnumber the rows |
| AuthorQueries.TopAuthors | lib/queries/author.ts:40-42 | the cut list holds at most `limit` authors and never more than there are authors |
| AuthorQueries.BestBadge | lib/queries/author.ts:62-70 | a user gets a badge exactly when they hold one, and the badge chosen is one of their own rows |
| AuthorQueries.AuthorOf | lib/queries/author.ts:72-83 | the card carries the author's id, a non-empty name and the aggregated counts; its badge is absent exactly when the author holds none, and otherwise is one of theirs |
| AuthorQueries.Cards | lib/queries/author.ts:59-83 | the map-based card building yields one card per top author, each equal to the card defined from the profile and badge rows |
| ProfileQueries.FormatLastActivity | lib/queries/profile.ts:10-22 | an unparsable timestamp shows the date label; under an hour shows the floored minutes with "분 전" |
| ProfileQueries.LastActivityBuckets | lib/queries/profile.ts:13-21 | under an hour, a day and a week the text is the elapsed time rounded down to whole minutes, hours or days; from a week on it is the date |
| ProfileQueries.LikeSumAppend | lib/queries/profile.ts:59 | the received-likes sum adds up across a split of the rows |
| ProfileQueries.LikeSumNonNegative | lib/queries/profile.ts:59 | with no negative like count the sum is never negative |
| ProfileQueries.RoomCount | lib/queries/profile.ts:57 | the number of distinct room ids is the size of their set, at most the number of rows, and 0 only for no rows |
| ProfileQueries.FetchMyProfile | lib/queries/profile.ts:37-72 | no profile gives null; otherwise the turn, participated-room and liked counts, the sum of received likes, and the trimmed name or "사용자" |
| ProfileQueries.FetchAuthorProfile | lib/queries/profile.ts:174-209 | a missing profile or a failed turn query gives null; otherwise turn count, distinct-room count, like sum and the trimmed name or "익명" |
| ProfileQueries.ProfilesAgree | lib/queries/profile.ts:56-68 | over the same rows the own and the author profile agree on every counter and differ only in the fallback name for a blank name |
| ProfileQueries.LastTurnIsFirstSeen | lib/queries/profile.ts:90-93 | a room has a last-turn entry exactly when the user wrote in it, and the entry is the room's first non-empty timestamp in row order when there is one |
| ProfileQueries.LastTurnIsLatest | lib/queries/profile.ts:83-92 | with rows newest first, the entry kept for a room is no older than any of its turns |
| ProfileQueries.MyTurnsByRoom | lib/queries/profile.ts:88-93 | each room's count is the number of the user's rows in it, and the last-turn map holds the entry the rule keeps |
| ProfileQueries.FetchParticipatedStories | lib/queries/profile.ts:74-120 | an error or no turns gives []; the rooms are fetched by the distinct room ids; one story per room with its like count, all turns, the user's turns, and activity from the last turn, else the update time, else the id |
| ProfileQueries.MyTurnsCoverRows | lib/queries/profile.ts:87-91 | every fetched room counts at least one of the user's turns, and no other room counts any |
| ProfileQueries.FetchLikedStories | lib/queries/profile.ts:122-159 | an error, no likes or no rooms gives []; otherwise one story per room, activity from the update time, else the creation time, else the id, and no per-user turn count |
| ProfileQueries.LikeSum | lib/queries/profile.ts:59 | with no negative like count the total is never negative |
| ProfileQueries.LastTurnOf | lib/queries/profile.ts:89-93 | a timestamp kept for a room is one of that room's own rows |
| ProfileQueries.MyTurnsStep | lib/queries/profile.ts:90-93 | one pass of the loop keeps both maps in step with the rows seen so far: the count per room and the first non-empty timestamp per room |
| EpilogueQueries.RelativeTimeRefinesLastActivity | lib/queries/epilogue.ts:10-24 | under a minute the label is "방금 전"; from a minute on, and for an unparsable timestamp, it equals the profile page's activity label |
| EpilogueQueries.EpilogueOf | lib/queries/epilogue.ts:55-66 | id, author id, content and like count come from the row; the author is the profile's trimmed name or "익명", the avatar the profile's |
| EpilogueQueries.FetchEpilogues | lib/queries/epilogue.ts:26-68 | an error or no rows gives []; otherwise one epilogue per row in row order, each with the profile the map keeps for its author |
| EpilogueQueries.EpilogueLikeStatuses | lib/queries/epilogue.ts:70-84 | no user or no epilogues answers the empty set without a query; otherwise the set holds exactly the ids the query found |
| EpilogueQueries.FormatRelativeTime | lib/queries/epilogue.ts:10-24 | an unparsable date gives the date label; under a minute gives "방금 전"; seven days or more gives the date label |
| ChallengeQueries.FetchChallenges | lib/queries/challenge.ts:11-38 | an error or no challenges gives []; otherwise one challenge per row in order, each with its number of linked stories |
| ChallengeQueries.ChallengeCounts | lib/queries/challenge.ts:29-36 | a challenge without links counts 0, one with links at least 1, and never more than the links found |
| ChallengeQueries.Earliest | lib/queries/challenge.ts:51-71 | a row exists exactly when the filtered rows do; it is one of them, with the smallest instant |
| ChallengeQueries.WithStatus | lib/queries/challenge.ts:50-69 | keeps exactly the rows with that status |
| ChallengeQueries.BannerChallenge | lib/queries/challenge.ts:44-85 | the active challenge ending first, counting down to its end; else the upcoming one starting first, counting down to its start; null exactly when neither query gives a row |
| ChallengeQueries.CreatorIds | lib/queries/challenge.ts:118 | holds exactly the non-empty creators of the fetched rooms |
| ChallengeQueries.WinnerOf | lib/queries/challenge.ts:129-142 | id and rank from the winner row; a missing room gives "", 0, "" and "익명"; otherwise the room's title and likes, an excerpt that is the first 100 characters of its preview, and, for a room with a creator, the last matching profile's trimmed name or "익명"; the challenge's title or "" |
| ChallengeQueries.ChallengeWinners | lib/queries/challenge.ts:97-143 | an error gives []; otherwise one card per winner row, in row order |
| ChallengeQueries.WinnersInRankOrder | lib/queries/challenge.ts:103-104 | at most nine rows in rank order give at most nine cards in rank order, one per row |
| ChallengeQueries.ChallengeById | lib/queries/challenge.ts:145-164 | a missing challenge gives null; otherwise the mapped challenge with the count, 0 when the count is absent |
| ChallengeQueries.FetchChallengeStories | lib/queries/challenge.ts:175-213 | an error, no links or no rooms gives []; otherwise one story per room with its number of turn rows and a missing like count read as 0 |
| ProfileAction.OtherIssuesAccept | actions/profile.ts:15-30 | the avatar, bio and genre checks find nothing exactly when the avatar is empty or an http(s) URL, the bio has at most 150 characters, and at most five genres all among the five labels |
| ProfileAction.UpdateProfileWith | actions/profile.ts:43-88 | the first issue is reported before the user is looked up and nothing is written; then the login check; then one upsert under the user's id with the trimmed name, an empty avatar or bio stored as null, and success exactly when the upsert does not err |
| ProfileAction.NoIssuesIffValid | actions/profile.ts:9-31 | the corrected schema finds no issue exactly when the trimmed name has 1 to 20 characters and the other fields are valid |
| ProfileAction.UpdateProfileAcceptsValid | actions/profile.ts:43-88 | invalid input fails and writes nothing; a write happens exactly for valid input from a signed-in user, under their id with the trimmed name; success exactly when the upsert also succeeds |
| ProfileAction.StoredNameIsNonBlank | actions/profile.ts:10-14 | with the corrected check a stored name has 1 to 20 characters and is not blank |
| ProfileAction.BlankNameStoredAsWritten | actions/profile.ts:10-14 | as written, a name of 1 to 20 spaces (a single space, say) with otherwise valid fields passes both length checks, succeeds and is stored as the empty string |
| ProfileAction.TrimmedNameChecksAgree | actions/profile.ts:10-14 | for a name that is already trimmed the code as written and the corrected check behave identically |
| ProfileAction.SpaceNamePasses | actions/profile.ts:10-14 | as written, a name of one space passes the length checks and trims to the empty string |
| ProfileAction.UpdateProfileAsWritten | actions/profile.ts:9-14 | as written, the length checks see the untrimmed name: any upsert carries the trimmed name of an input whose untrimmed name has 1 to 20 characters, and success means exactly one upsert |
| ProfileAction.UpdateProfile | actions/profile.ts:9-14 | with the name trimmed before its checks, any upserted name is the trimmed input and has 1 to 20 characters; success means exactly one upsert |
| ProfileAction.HttpUrl | actions/profile.ts:18 | an accepted avatar URL starts with "http" and has at least eight characters ("http://" plus one more) |
| EpilogueAction.CreateEpilogue | actions/epilogue.ts:21-70 | the schema's first issue is reported without a write; a write happens exactly for valid input from a signed-in user on a completed room, and it is one insert of the trimmed content under the user's id |
| EpilogueAction.EpilogueSchemaAccepts | actions/epilogue.ts:9-15 | the schema finds nothing exactly when the room id is a UUID and the content has 1 to 300 characters; a bad room id is reported first, then missing content |
| EpilogueAction.CreateEpilogueOutcomes | actions/epilogue.ts:35-69 | for valid input: no user, then no room, then an unfinished room are refused in that order without a write; success exactly for a signed-in user on a completed room whose insert does not err |
| EpilogueAction.StoredContentIsTrimmed | actions/epilogue.ts:11-60 | the stored content is never longer than 300 characters, and content of spaces alone passes and is stored empty |
| EpilogueAction.IsUuid | actions/epilogue.ts:10 | an accepted room id has 36 characters, each a hyphen or a hexadecimal digit |
| EpilogueAction.CreateEpilogueIssues | actions/epilogue.ts:9-15 | no issue exactly when the room id is a UUID and the content has 1 to 300 characters; a bad room id is the first issue reported |
| AuthorBadge.GetBadge | components/profile/AuthorProfileContent.tsx:17-22 | "전설 작가" exactly at 10 stories and 1000 likes; else "베테랑 작가" exactly at 5 and 500; else "인기 작가" exactly at 3 stories or 200 likes; no badge exactly below both of those |
| AuthorBadge.GetBadgeMonotone | components/profile/AuthorProfileContent.tsx:17-22 | more stories or more likes never lower the tier |
| AuthorBadge.TiersMatchBadgeOrder | components/profile/AuthorProfileContent.tsx:18-20 | the three tiers rank 3, 2 and 1 in the popular-author list's badge order |
| ProfileSettingsForm.KeepIn | components/profile/ProfileSettingsForm.tsx:36-38 | keeps exactly the initial genres that are offered, never more than were given |
| ProfileSettingsForm.OptionsAreValidGenres | components/profile/ProfileSettingsForm.tsx:17 | the offered genres are exactly the five the profile schema accepts |
| ProfileSettingsForm.Toggled | components/profile/ProfileSettingsForm.tsx:43-47 | a chosen genre is removed and the list shrinks; an unchosen one is appended; no other genre's membership changes |
| ProfileSettingsForm.ToggledKeeps | components/profile/ProfileSettingsForm.tsx:43-47 | a toggle keeps the chosen genres among the offered ones and free of repeats |
| ProfileSettingsForm.ToggleTwice | components/profile/ProfileSettingsForm.tsx:43-47 | toggling twice restores membership, and the list itself when the genre was not chosen |
| ProfileSettingsForm.SettingsForm.constructor | components/profile/ProfileSettingsForm.tsx:32-40 | the fields start from the props, the genres filtered to the offered ones, not saving |
| ProfileSettingsForm.SettingsForm.SetDisplayName | components/profile/ProfileSettingsForm.tsx:120-121 | the name keeps at most 20 characters |
| ProfileSettingsForm.SettingsForm.SetAvatarUrl | components/profile/ProfileSettingsForm.tsx:99 | the URL is kept as typed |
| ProfileSettingsForm.SettingsForm.SetBio | components/profile/ProfileSettingsForm.tsx:165-167 | the bio keeps at most 150 characters |
| ProfileSettingsForm.SettingsForm.ToggleGenre | components/profile/ProfileSettingsForm.tsx:137-140 | a click on an enabled button toggles the genre; five or fewer stay five or fewer and a list without repeats keeps none |
| ProfileSettingsForm.SettingsForm.Save | components/profile/ProfileSettingsForm.tsx:49-56 | saving starts and the request carries the trimmed name, and the trimmed avatar and bio, left out when blank |
| ProfileSettingsForm.SettingsForm.FinishSave | components/profile/ProfileSettingsForm.tsx:57-63 | saving ends and the toast is the success title or the action's error |
| ProfileSettingsForm.FormRequestChecksAgree | components/profile/ProfileSettingsForm.tsx:52 | since the form trims the name, the server's check as written and the corrected one judge its request alike |
| ProfileSettingsForm.FormRequestPassesSchema | components/profile/ProfileSettingsForm.tsx:49-56 | within the form's own limits the schema accepts the request exactly when the avatar URL is empty or an http(s) URL |
| Pagination.TotalPages | components/posts/StoryList.tsx:61 | at least one page, and exactly enough pages of nine for every item |
| Pagination.OnePageIffFewItems | components/posts/StoryList.tsx:61-90 | there is one page exactly when there are at most nine items |
| Pagination.PageItems | components/posts/StoryList.tsx:104-135 | one item per page from 1 to the page count, in order |
| Pagination.PageBarButtons | components/posts/StoryList.tsx:104-135 | the first and last pages always have buttons, and the current page's is the one active button |
| Pagination.SkippedPagesAreMarked | components/posts/StoryList.tsx:105-118 | a hidden page before the current one means an ellipsis two pages back, and one after it an ellipsis two pages ahead |
| Pagination.PageBarIsBounded | components/posts/StoryList.tsx:105-118 | ellipses appear only two pages from the current one, and buttons only for the first, the last and the current page with its neighbours |
| Pagination.LikesOnPageSplits | app/completed/page.tsx:111 | the page's like total adds up across a split of the stories |
| Pagination.LikesOnPageNonNegative | app/completed/page.tsx:111 | with no negative like count the total is never negative |
| Pagination.Listing.constructor | components/posts/StoryList.tsx:18-21 | page 1, no stories, count 0, loading |
| Pagination.Listing.FiltersChanged | components/posts/StoryList.tsx:23-25 | a filter change goes back to page 1, where "previous" is disabled |
| Pagination.Listing.ChangePage | components/posts/StoryList.tsx:64-67 | the chosen page becomes current |
| Pagination.Listing.StartFetch | components/posts/StoryList.tsx:29 | a fetch sets loading, which hides the page bar |
| Pagination.Listing.FinishFetch | components/posts/StoryList.tsx:38-54 | a cancelled reply changes nothing; otherwise loading ends, and a failure empties the list and count while a reply's missing fields read as empty |
| Header.FirstPrefix | components/common/Header.tsx:35-37 | the match is a non-root href the path starts with, and there is none exactly when no non-root href is a prefix |
| Header.FirstPrefixIsFirst | components/common/Header.tsx:35-37 | no earlier non-root href is a prefix of the path |
| Header.ActiveHref | components/common/Header.tsx:31-39 | always a menu href: the path itself when it is one, a prefix of the path when not the root, and the root for a missing path |
| Header.ActiveHrefForNestedPath | components/common/Header.tsx:35-38 | for a path outside the menu the root is highlighted exactly when no other item is a prefix, and otherwise the first prefix is |
| Header.ExactlyOneActive | components/common/Header.tsx:62-63 | exactly one menu item is highlighted |
| Header.MobileMenu.constructor | components/common/Header.tsx:29 | the menu starts closed |
| Header.MobileMenu.Toggle | components/common/Header.tsx:98 | the menu button flips the open flag |
| Header.MobileMenu.Close | components/common/Header.tsx:50 | the logo and the mobile items close the menu |
| ProfileSettingsForm.GenreOptions | components/profile/ProfileSettingsForm.tsx:17 | the genre choices are the genres without "전체" |
| ProfileSettingsForm.NameWithinBounds | components/profile/ProfileSettingsForm.tsx:52 | a non-blank name the input caps at 20 characters is sent with 1 to 20 characters after trimming |
| ProfileSettingsForm.BioWithinBound | components/profile/ProfileSettingsForm.tsx:54 | a bio the input caps at 150 characters is sent with at most 150 |
| ProfileSettingsForm.AvatarDecides | components/profile/ProfileSettingsForm.tsx:49-56 | once name, bio and genres are within bounds, the avatar URL alone decides whether the schema accepts the request |
| Pagination.ShowPage | components/posts/StoryList.tsx:105-108 | the current, first and last pages are always shown, and any other shown page is at most one away from the current page |
| Pagination.PageItemFor | components/posts/StoryList.tsx:104-135 | the current page is an active button; a button carries its own page and is active exactly on the current page; an ellipsis stands only two pages away from the current one |
| Pagination.LikesOnPage | app/completed/page.tsx:111 | an empty page totals 0 likes, and a page of one story totals that story's likes |
| Pagination.Listing.PageBarShown | components/posts/StoryList.tsx:78-90 | the page bar shows only when stories are listed and there are more than nine items in all |
| Pagination.Listing.PrevDisabled | components/posts/StoryList.tsx:92-96 | an enabled "previous" button never leads below page 1 |
| Pagination.Listing.NextDisabled | components/posts/StoryList.tsx:139-143 | an enabled "next" button never leads past the last page, and both buttons are disabled only when one page holds every item |
| ProfileSettingsForm.SettingsForm.Request | components/profile/ProfileSettingsForm.tsx:51-56 | the avatar URL and the bio are left out of the request exactly when they are blank |
| ChallengeBanner.CanonicalIsUnique | components/posts/ChallengeBanner.tsx:26-44 | a canonical countdown is fixed by the seconds it stands for |
| ChallengeBanner.Banner.constructor | components/posts/ChallengeBanner.tsx:17-22 | the countdown starts at 2 days 14:32:45, canonical, 225165 seconds |
| ChallengeBanner.Banner.Tick | components/posts/ChallengeBanner.tsx:26-44 | from a canonical state a running countdown loses exactly one second and one at zero stays at all zeros; the state stays canonical |
| ChallengeBanner.Banner.Display | components/posts/ChallengeBanner.tsx:80-88 | four units are shown |
| ChallengeBanner.DisplayReadsBack | components/posts/ChallengeBanner.tsx:88 | hours, minutes and seconds are shown as exactly two digits that read back as the value |
| ChallengeCard.SplitSpan | components/posts/ChallengeCard.tsx:43-45 | whole days, then hours under 24, then minutes under 60, whose total is the span rounded down to the minute |
| ChallengeCard.TimeLeftLabelCases | components/posts/ChallengeCard.tsx:35-51 | "종료됨" exactly when the span is over; a day or more names days and hours, less names hours and minutes |
| ChallengeCard.DisplayTheme | components/posts/ChallengeCard.tsx:31 | a non-empty theme is shown as is, a missing or empty one as "자유"; never empty |
| ChallengeCard.LabelsTellStatusesApart | components/posts/ChallengeCard.tsx:61-65 | the three statuses have distinct badge labels and distinct button labels |
| ChallengeCard.TimeLeftClock.constructor | components/posts/ChallengeCard.tsx:32 | the time-left text starts empty |
| ChallengeCard.TimeLeftClock.Refresh | components/posts/ChallengeCard.tsx:53-56 | the text becomes the label of the span to the end, "종료됨" exactly when the end has passed |
| StoryActionBar.OptimisticCount | components/posts/StoryActionBar.tsx:55 | un-liking lowers the count by one, liking raises it by one |
| StoryActionBar.SummaryError | components/posts/StoryActionBar.tsx:90 | never empty: the reply's non-empty error, else the fallback message |
| StoryActionBar.ActionBar.constructor | components/posts/StoryActionBar.tsx:34-71 | the count and flag from the props, nothing in flight, the panel closed, nothing cached |
| StoryActionBar.ActionBar.LikeClicked | components/posts/StoryActionBar.tsx:50-57 | ignored while pending; otherwise the flag flips and the count moves by one at once, and the server is called |
| StoryActionBar.ActionBar.LikeReplied | components/posts/StoryActionBar.tsx:58-66 | a failure restores the flag and the count from before the click; a success takes the server's values |
| StoryActionBar.ActionBar.CompleteClicked | components/posts/StoryActionBar.tsx:40-43 | the server is called exactly when the story may be completed and no completion is in flight |
| StoryActionBar.ActionBar.CompleteReplied | components/posts/StoryActionBar.tsx:44-47 | only a success navigates, to the story's cover page |
| StoryActionBar.ActionBar.SummaryClicked | components/posts/StoryActionBar.tsx:73-81 | an open panel closes; a closed one opens and requests the summary exactly when none is cached |
| StoryActionBar.ActionBar.SummaryReplied | components/posts/StoryActionBar.tsx:82-98 | an ok reply caches its summary ("" when missing); a failed one records its error or the fallback; a throw records the unreachable message; loading ends |
| StoryActionBar.LikeRollsBack | components/posts/StoryActionBar.tsx:50-66 | a click followed by a failed reply leaves the like flag and count as before the click |
| ChallengeCard.TimeLeftLabel | components/posts/ChallengeCard.tsx:35-51 | a span that is over reads "종료됨" |
| ChallengeCard.StatusLabel | components/posts/ChallengeCard.tsx:61-65 | every status has a non-empty badge label, and it never reads like the status's button label |
| ChallengeCard.ButtonLabel | components/posts/ChallengeCard.tsx:139-146 | every status has a non-empty button label |
| ChallengeCard.ShowsAward | components/posts/ChallengeCard.tsx:130 | the award note shows only on a card labelled "종료됨" with at least one story |
| ParagraphCard.Card.constructor | components/posts/ParagraphCard.tsx:24-29 | the count and flag come from the props, 0 likes and unliked when not given |
| ParagraphCard.Card.LikeClicked | components/posts/ParagraphCard.tsx:31-39 | a card without a turn id does nothing; otherwise the flag flips, the count moves by one, and the click captures the values from before it |
| ParagraphCard.Card.LikeReplied | components/posts/ParagraphCard.tsx:40-46 | a failure puts back exactly the captured values; a success takes the server's |
| ParagraphCard.FailedLikeRestores | components/posts/ParagraphCard.tsx:31-46 | a click whose reply fails leaves the card as it was |
| EpilogueSection.NewEpilogue | components/posts/EpilogueSection.tsx:36-42 | the added epilogue is by "나", holds the trimmed draft, has no likes and reads "방금 전" |
| EpilogueSection.Section.constructor | components/posts/EpilogueSection.tsx:26-28 | the list from the props, an empty draft, not submitting |
| EpilogueSection.Section.SetContent | components/posts/EpilogueSection.tsx:76 | the draft keeps at most 300 characters |
| EpilogueSection.Section.SubmitClicked | components/posts/EpilogueSection.tsx:30-33 | nothing for a blank draft or while submitting; otherwise submitting starts with the draft as it is |
| EpilogueSection.Section.SubmitSettled | components/posts/EpilogueSection.tsx:34-45 | the new epilogue is appended after all others, the draft is cleared and submitting ends |
| EpilogueSection.Section.ShownCount | components/posts/EpilogueSection.tsx:107-110 | the count is shown exactly when there are epilogues, and it is their number |
| EpilogueSection.SubmitAppendsOne | components/posts/EpilogueSection.tsx:30-76 | a submit adds exactly one epilogue at the end, keeps the earlier ones, and its content is neither empty nor over 300 characters |
| PopularAuthors.Matching | components/posts/PopularAuthors.tsx:33 | keeps exactly the authors whose lower-cased name contains the query, never more than given |
| PopularAuthors.MatchingKeepsOrder | components/posts/PopularAuthors.tsx:33 | the matches keep the list's order, and each matching author occurs as often as in the list, others not at all |
| PopularAuthors.FilteredAuthors | components/posts/PopularAuthors.tsx:30-34 | a blank lower-cased, trimmed query keeps the whole list; otherwise exactly the matching authors |
| PopularAuthors.FilteredIsSubsequence | components/posts/PopularAuthors.tsx:30-34 | the shown list is always the list with some authors left out, in order |
| PopularAuthors.EmptyStateWhenNoMatch | components/posts/PopularAuthors.tsx:132-135 | the empty state shows exactly when there are no authors, or the query is not blank and no name contains it |
| EpilogueSection.TrimmedDraftFits | components/posts/EpilogueSection.tsx:31-76 | a non-blank draft within the cap is sent non-empty and within the cap after trimming |
| PopularAuthors.MatchingIsSubsequence | components/posts/PopularAuthors.tsx:33 | the matching authors are the list with some authors left out, in order |
| PopularAuthors.MatchingCounts | components/posts/PopularAuthors.tsx:33 | each matching author occurs as often as in the list, each other author not at all |
| WritingGuide.ShownTips | components/posts/WritingGuide.tsx:76-78 | never empty: the guide's tips when it has any, else the three defaults |
| WritingGuide.ShownSuggestions | components/posts/WritingGuide.tsx:90-94 | never empty: the guide's suggestions when it has any, else the three fixed sentences |
| WritingGuide.FetchError | components/posts/WritingGuide.tsx:53-61 | no error exactly for a fetched guide; a non-ok reply shows its body's error or "HTTP" and the status; a throw shows its message or the fallback |
| WritingGuide.NextTipIndexAsWritten | components/posts/WritingGuide.tsx:71-74 | as written, once the index is NaN it stays NaN |
| WritingGuide.ShownTipAsWritten | components/posts/WritingGuide.tsx:147-151 | as written, a NaN index shows the first default tip, and a number shows one of the tips on show |
| WritingGuide.NextTipStallsOnEmptyTips | components/posts/WritingGuide.tsx:71-82 | as written, a guide with no tips shows the defaults, one press makes the index NaN, and from then on the first default tip stays on screen although the second differs, drawn with the Lightbulb icon in blue, a pairing no default tip has |
| WritingGuide.NextTipIndex | components/posts/WritingGuide.tsx:71-74 | the corrected next index stays below the number of tips on show, counting up and wrapping to 0 after the last |
| WritingGuide.PressesCountUp | components/posts/WritingGuide.tsx:71-74 | the first presses step through the tips on show one by one |
| WritingGuide.PressesCycle | components/posts/WritingGuide.tsx:71-74 | as many more presses as there are tips on show come back to the same tip |
| WritingGuide.AsWrittenAgreesWithTips | components/posts/WritingGuide.tsx:71-74 | with no guide or a guide with tips the code as written and the corrected index move alike and never reach NaN |
| WritingGuide.Panel.constructor | components/posts/WritingGuide.tsx:37-42 | the genre defaults to "판타지"; the panel opens expanded, loading, on the first tip, without guide or error |
| WritingGuide.Panel.ToggleExpanded | components/posts/WritingGuide.tsx:100 | the header flips the expanded flag |
| WritingGuide.Panel.FetchStarted | components/posts/WritingGuide.tsx:45-46 | a fetch sets loading and clears the error |
| WritingGuide.Panel.FetchEnded | components/posts/WritingGuide.tsx:57-64 | a guide replaces the old one; a failure drops the guide and shows its error; loading ends either way |
| WritingGuide.Panel.HandleNextTip | components/posts/WritingGuide.tsx:71-74 | the corrected next-tip button: the index is the next one modulo the tips on show |
| WritingGuide.Panel.CurrentTip | components/posts/WritingGuide.tsx:79 | the current tip is always one of the tips on show |
| WritingGuide.Panel.CurrentTipMeta | components/posts/WritingGuide.tsx:80-82 | the icon and colour drawn are always those of a default tip, chosen by the index modulo 3 |
| WritingGuide.TipMeta | components/posts/WritingGuide.tsx:80-82 | a number index picks the icon and colour of default tip index mod 3; a NaN index, and only it, gives a pairing (Lightbulb, blue) that no default tip has |
| WritingGuide.TipMetaCycles | components/posts/WritingGuide.tsx:80-82 | the icon and colour repeat every three indices |
| WritingGuide.DefaultTipsKeepTheirMeta | components/posts/WritingGuide.tsx:71-82 | with the default tips on show, after k presses the panel shows default tip k mod 3 with that same tip's icon and colour |
| WritingGuide.DefaultPressesModulo | components/posts/WritingGuide.tsx:71-74 | with the default tips on show, k presses from 0 give index k mod 3 |
| WritingGuide.Panel.Analysis | components/posts/WritingGuide.tsx:84-88 | the guide's tone, pace and direction, or placeholders without a guide |
| WritingGuide.Panel.GenreTip | components/posts/WritingGuide.tsx:199-203 | the box shows exactly when the guide has a non-empty genre tip, or has none and the genre is not empty; it holds the guide's tip or the fixed one |
| WritingGuide.FailedFetchFallsBack | components/posts/WritingGuide.tsx:53-94 | a failed fetch that reports a message shows it, and the panel falls back to the built-in tips and suggestions |
| WritingGuide.PressesAsWrittenStayNaN | components/posts/WritingGuide.tsx:71-74 | as written, with an empty tips array every press after the first leaves the index NaN |
| WritingGuide.Presses | components/posts/WritingGuide.tsx:71-74 | however many presses, the index stays within the tips on show |
| WritingGuide.PressesAsWritten | components/posts/WritingGuide.tsx:71-74 | as written, the index after any number of presses is the corrected one whenever there is no guide or the guide has tips |
| GuideRoute.FirstIndex | app/api/guide/route.ts:30 | the position of the first occurrence of the character, or none exactly when it does not occur |
| GuideRoute.LastIndex | app/api/guide/route.ts:30 | the position of the last occurrence of the character, or none exactly when it does not occur |
| GuideRoute.JsonCandidate | app/api/guide/route.ts:30-31 | the whole text, or a slice that starts with `{`, ends with `}`, has no `{` before it and no `}` after it |
| GuideRoute.JsonCandidateFound | app/api/guide/route.ts:30-31 | a brace-delimited slice is cut out exactly when some `}` follows some `{` |
| GuideRoute.JsonCandidateIdempotent | app/api/guide/route.ts:30-31 | cutting the candidate out of a candidate gives it back unchanged |
| GuideRoute.OrDefault | app/api/guide/route.ts:34-36 | a present non-empty field is kept, a missing or empty one takes the default |
| GuideRoute.FillDefaults | app/api/guide/route.ts:34-38 | tone, pace and direction are never empty and take their defaults when missing; tips and suggestions that are not arrays become empty; the genre tip passes through |
| GuideRoute.FillDefaultsIdempotent | app/api/guide/route.ts:34-38 | a guide the endpoint returns needs no further defaults when read back |
| GuideRoute.ParseGuideResponse | app/api/guide/route.ts:29-43 | no guide exactly when the candidate does not parse; otherwise the parsed object with its defaults filled in |
| GuideRoute.Reverse | app/api/guide/route.ts:126 | same length, element k is the element k from the end |
| GuideRoute.Blocks | app/api/guide/route.ts:129 | one `[턴 n]` block per turn, in the same order |
| GuideRoute.TurnsText | app/api/guide/route.ts:126-130 | the placeholder when there are no turns, otherwise the blocks of the reversed rows joined by a blank line |
| GuideRoute.PromptTurnsAscend | app/api/guide/route.ts:119-126 | rows fetched by turn index descending are shown in ascending turn order |
| GuideRoute.GeminiKey | app/api/guide/route.ts:86-90 | the first of the four variables that is set; none exactly when all four are unset |
| GuideRoute.BlankKeyHidesLaterKeys | app/api/guide/route.ts:86-93 | a blank first variable makes the Gemini key unusable whatever the later variables hold |
| GuideRoute.Asked | app/api/guide/route.ts:143-158 | Gemini is asked exactly when its key is usable; Groq exactly when Gemini gave no text and the Groq key is usable; Gemini always first |
| GuideRoute.AnswerText | app/api/guide/route.ts:140-158 | there is text exactly when Gemini answered or Groq was asked and answered; Gemini's text wins when it has any |
| GuideRoute.AnswerReply | app/api/guide/route.ts:160-178 | 503 exactly when no text came back; 500 with the raw text when it does not parse; otherwise the filled-in guide |
| GuideRoute.Refusal | app/api/guide/route.ts:79-124 | no refusal exactly when the body parses, the room id is a non-empty string, some key is usable, the room is found and the turns are read; a refusal is 400 for a missing room id, 404 "Story not found" only for a missing room, and 500 otherwise (an unreadable body, no usable key, "Failed to fetch turns") |
| GuideRoute.Calls | app/api/guide/route.ts:143-158 | one call per provider asked, each with the same prompt |
| GuideRoute.Post | app/api/guide/route.ts:77-186 | a provider is called only after the body, room id, room and turns are all in hand, and always with the prompt for that room and those turns |
| GuideRoute.PostGuardOrder | app/api/guide/route.ts:79-101 | a bad body, missing room id or missing key is answered without regard to the database; a missing room id gets 400 |
| GuideRoute.PostAfterReads | app/api/guide/route.ts:126-178 | past the guards the reply is the one for the providers' answer and the calls are exactly the providers asked, with the room's prompt |
| GuideRoute.TurnBlock | app/api/guide/route.ts:129 | a turn's block starts with "[턴 " and ends with "]", a newline and the turn's content |
| GuideRoute.UserPrompt | app/api/guide/route.ts:132-138 | the title follows the opening `다음은 "` at once, the turns text sits between the rules and is followed directly by the closing request for a JSON guide |
| FullStoryView.Contents | components/posts/FullStoryView.tsx:26 | one content per paragraph, in the same order |
| FullStoryView.ContentsAppend | components/posts/FullStoryView.tsx:26 | the contents of two lists of paragraphs put together are the two lists of contents put together |
| FullStoryView.ContentsPermutation | components/posts/FullStoryView.tsx:24-26 | reordering the paragraphs only reorders their contents |
| FullStoryView.SortByTurn | components/posts/FullStoryView.tsx:24-25 | sorts the array in place by turn number, ascending, keeping the same paragraphs |
| FullStoryView.Insert | components/posts/FullStoryView.tsx:25 | one step of the sort: a sorted prefix grows by one, keeping the same paragraphs |
| FullStoryView.FullText | components/posts/FullStoryView.tsx:24-27 | the props array is left sorted by turn number and holds the same paragraphs; the text is their contents in that order joined by a blank line, the same contents as before; no paragraphs give the empty text |
| SampleData.FindCompleted | lib/sample-data.ts:511 | none exactly when no completed story has the id; otherwise the first one that has it |
| SampleData.Synthesised | lib/sample-data.ts:513-531 | the made-up detail copies the completed story's id, title, genre, tags, likes and turns, is completed, and has one paragraph: turn 1 by the joint-work author, holding the preview, dated at completion |
| SampleData.GetCompletedStoryDetail | lib/sample-data.ts:509-532 | the detailed entry when the id has one; otherwise the detail made up from the first completed story with that id; null exactly when neither exists, for ids that are not inherited object member names (see Left out) |
| SampleData.LookupIsInTurnOrder | lib/sample-data.ts:509-532 | every detail the lookup gives has its paragraphs in turn order when the detailed entries do |
| SampleData.SampleTurnsNumberedInOrder | lib/sample-data.ts:136-190 | the sample story's five paragraphs are numbered 1 to 5 in order, matching its turn count |
| CoverRoute.IsImageBuffer | app/api/cover/route.ts:10-16 | accepted exactly when there are at least four bytes and they start with the JPEG, PNG or RIFF signature |
| CoverRoute.ImageDecidedByHeader | app/api/cover/route.ts:10-16 | only the first four bytes decide; fewer than four never pass; every signature followed by enough bytes passes |
| CoverRoute.ChooseFormat | app/api/cover/route.ts:49-56 | PNG exactly when the blob type is empty or mentions "png", JPEG otherwise; content type and extension always agree |
| CoverRoute.GenerateImage | app/api/cover/route.ts:25-67 | the two loops give the generation the recursive definition gives: each model up to three attempts, a non-image abandons the model, the first image wins, otherwise the last error or "Unknown error" |
| CoverRoute.GenerateSound | app/api/cover/route.ts:43-66 | a generated image passes the signature check with an agreeing content type and extension; a failure always carries an error |
| CoverRoute.GenerateUsesOnlyLaterAttempts | app/api/cover/route.ts:32-33 | at most three attempts per model, in order, and none repeated: replies to any other attempts do not matter |
| CoverRoute.NonImageAbandonsModel | app/api/cover/route.ts:43-47 | after a non-image reply, later attempts on the same model are never made |
| CoverRoute.FirstImageWins | app/api/cover/route.ts:51-57 | an image reply on any model and attempt ends the search with that image, in the content type and extension its blob type chooses, whatever came before |
| CoverRoute.AllThrowsKeepLastError | app/api/cover/route.ts:58-66 | when every attempt throws, the result is none with the last attempt's message, or "Unknown error" when it is empty |
| CoverRoute.CoverGuard | app/api/cover/route.ts:74-118 | the guards in the route's order, each answering only when all before it pass: a missing room id 400 "roomId is required", no user 401, no room 404, an unfinished room 400, another user's room 403, no non-blank token 503, each with its message and no detail; the request passes exactly when the room id is given, the user is signed in, the room exists, is completed and was created by that user, and a non-blank token is set |
| CoverRoute.Post | app/api/cover/route.ts:69-176 | an unreadable body is a 500 with its message and a refused request gets the guard's reply, both writing nothing; a failed generation is a 502 with the last error as detail and writes nothing; nothing is written unless the guards pass; success exactly when the guards pass, an image is generated, and the upload and the update both succeed |
| CoverRoute.RefusalCallsNothing | app/api/cover/route.ts:71-118 | a refused request writes nothing and its reply does not depend on the image service |
| CoverRoute.UploadNamedAfterRoom | app/api/cover/route.ts:133-168 | a generated image is uploaded as room id, timestamp and png or jpg with a matching content type; on success the public address is saved on the room, stamped with the current time, and returned |
| CoverRoute.Generate | app/api/cover/route.ts:25-67 | a generated image passes the signature check and is png or jpg; a failure always carries an error, and once every model is tried a non-empty error is kept as it is |
| CoverRoute.CoverPrompt | app/api/cover/route.ts:107 | the prompt opens with the fixed lead-in, followed at once by the title, then the genre after the `" (genre: ` text |
| CoverRoute.CoverFileName | app/api/cover/route.ts:134 | the file name starts with the room id and a hyphen and ends with a dot and the extension |
| Common.TrimStart | actions/story.ts:49 | a suffix of the string with only white space removed in front, starting with a non-space |
| Common.TrimEnd | actions/story.ts:49 | a prefix of the string with only white space removed behind, ending with a non-space |
| Common.TrimShape | actions/story.ts:49 | `trim()` gives the string with a blank prefix and a blank suffix cut off, neither starting nor ending with white space |
| Common.TrimEmptyIffBlank | app/story/create/page.tsx:106 | `!s.trim()` holds exactly when every character is white space |
| Common.TrimIdempotent | actions/epilogue.ts:60 | trimming twice is trimming once |
| Common.Take | actions/story.ts:34 | `slice(0, n)`: a prefix of at most n characters, the whole string when it is no longer |
| Common.IncludesIffOccurs | components/posts/PopularAuthors.tsx:33 | `includes` holds exactly when the text occurs at some position |
| Common.ToLower | components/posts/PopularAuthors.tsx:31-33 | same length, each character lower-cased |
| Common.ToLowerIdempotent | components/posts/PopularAuthors.tsx:31-33 | lower-casing twice is lower-casing once |
| Common.Join | components/posts/FullStoryView.tsx:27 | joining no parts gives the empty string and one part gives that part; with two or more the result starts with the first part and the separator, and it always ends with the last part |
| Common.NatToString | components/posts/ChallengeBanner.tsx:88 | at least one decimal digit, no leading zero, a single digit exactly below ten |
| Common.NatToStringRoundTrip | components/posts/ChallengeBanner.tsx:88 | reading a rendered number back gives the number |
| Common.NatToStringInjective | components/posts/ChallengeBanner.tsx:88 | distinct numbers render differently |
| Common.PadStart2 | components/posts/ChallengeBanner.tsx:88 | `padStart(2, "0")`: at least two characters, the original at the end, zeros in front |
| Common.PadStart2Value | components/posts/ChallengeBanner.tsx:88 | a number below 100 is shown as two digits that read back as that number |
| Common.CountOfIsMultiplicity | lib/queries/story.ts:79-81 | the count of a key is its multiplicity among the keys |
| Common.CountOfPositiveIffPresent | lib/queries/story.ts:79-81 | a key's count is positive exactly when it occurs |
| Common.CountByKey | lib/queries/story.ts:79-81 | after the counting loop each key's entry, or 0 when absent, is its number of occurrences, and a key has an entry exactly when it occurs |
| Common.SumNonNegative | lib/queries/profile.ts:59 | a sum of non-negative like counts is non-negative |
| Common.SumAppend | lib/queries/profile.ts:59 | the sum over two lists put together is the sum of the two sums |
| Common.Distinct | lib/queries/challenge.ts:108 | `[...new Set(xs)]`: the same values, each once, no more of them than the input |
| Common.DistinctCardinality | lib/queries/challenge.ts:108 | a list without repetitions is as long as its set of values |
| Common.SortDesc | lib/queries/story.ts:228 | a permutation of the input, ordered by descending key |
| Common.SortDescStable | lib/queries/story.ts:228 | the sort is stable: for every key value, the elements with that key keep their input order |
| Common.InsertDescStable | lib/queries/story.ts:228 | inserting into a sorted list places the new element after every element of equal key |
| Common.SortDescCongruent | lib/queries/story.ts:228 | the order depends only on the key's values |
| Common.SliceIndex | lib/queries/story.ts:230 | `slice` reads an index as a position in 0 to the length, a non-negative in-range index as itself |
| Common.Slice | lib/queries/story.ts:230 | never longer than the input |
| Common.SlicePage | lib/queries/story.ts:230 | for a non-negative offset and limit, at most limit items, the items starting at the offset |
| Common.SortedPage | lib/queries/author.ts:41-42 | a page of a list sorted by descending key is sorted, no longer than the limit, and holds only items of the list |
| Common.LastWithKey | lib/queries/challenge.ts:116-117 | `new Map(rows.map(...)).get(k)`: a row with that key, none exactly when no row has it |
| Common.LastWithKeyIsLast | lib/queries/challenge.ts:116-117 | the row kept for a key is the last row with that key |
| Common.Without | components/profile/ProfileSettingsForm.tsx:45 | `filter((g) => g !== x)`, and also the `replace(/#/g, "")` of lib/queries/story.ts line 44: x is gone, every other value present is kept, and the result is no longer |
| Common.WithoutRemovesOne | components/profile/ProfileSettingsForm.tsx:45 | in a list without repetitions, filtering out a present value removes just its position and keeps the order |
| Common.WithoutAbsent | components/profile/ProfileSettingsForm.tsx:45 | filtering out an absent value leaves the list as it is |
| Common.AddThenRemove | components/profile/ProfileSettingsForm.tsx:45 | removing a value just appended restores the list |
| Common.WithoutKeepsNoRepeats | components/profile/ProfileSettingsForm.tsx:45 | filtering keeps a list free of repetitions |
| Common.WithoutCounts | lib/queries/story.ts:44 | removing every x keeps each other value exactly as many times as it occurs, and leaves none of x |
| Common.WithoutAppend | lib/queries/story.ts:44 | removing x from two joined pieces is removing it from each piece and joining the results, so the kept values keep their order |

## Left out

- String lengths count characters (code points), while JavaScript counts UTF-16 units. The two agree on text in the Basic Multilingual Plane, which includes all Korean text.
- `toLowerCase` is modelled on the ASCII letters only. There is no Unicode case mapping.
- The validation library is modelled by which check fails first and by the message the actions show. Its full issue wording and the exact UUID version check are not modelled.
- Timers (`setInterval`, `setTimeout`) are modelled as explicit tick or "delay elapsed" methods. The 5-second pause between cover attempts and the 800 ms epilogue delay are not modelled as time.
- Router navigation, toasts, `window.scrollTo`, `revalidatePath` and console logging are left out, because they only have effects outside the state modelled.
- The clock is a parameter. Locale date formatting (`toLocaleDateString`) is an input string rather than a computed one.
- The database, storage and auth are inputs or returned effects. The stored procedures `check_and_acquire_lock` and `submit_turn`, and their lease arbitration, are not part of this model. The model covers only what the actions do with their replies.
- `JSON.parse` in the guide route is a function parameter. Gemini, Groq and the Hugging Face service are modelled as their replies.
- GuideRoute.JsonCandidate: the greedy regular expression `\{[\s\S]*\}` is modelled as the span from the first `{` to the last `}` after it. This is the same match, but it is not derived from a regular-expression semantics.
- FullStoryView.SortByTurn: the sort is proved ordered and a permutation. Stability on equal turn numbers is not stated.
- Database ties are not modelled. Where the source relies on the database's order for equal keys, the model takes the rows in the order given.
- Pagination.TotalPages: stated for a non-negative total count only. A count of rows is never negative.
- Pagination.PageBarIsBounded: the window of page buttons is stated through which pages are shown. The number of buttons drawn is not stated.
- Pagination.Listing.FinishFetch: a reply the story list cancels is ignored. On the completed page the aborted fetch still runs its `catch` and clears the list; that interleaving is not modelled.
- SampleData: the sample fixtures are inputs to the lookup. Only the turn numbering of the sample story is restated, not its text.
- The summary route, the author statistics route, the like actions, and the routes that only forward to a query function (`app/api/stories`, `app/api/completed`, `app/api/ranking`, `app/api/authors`, `app/api/verify-setup`) are not part of this model.
- The participation progress bar of the challenge card and the avatar initial fallback are presentation only, and are left out.
- ChallengeCard.TimeLeftClock.Refresh: the end time is an integer timestamp, so an `endDate` that does not parse (which the card would show as "NaN시간 NaN분 남음") is not modelled.
- CoverRoute.Post: one clock reading serves both the file name and `updated_at`. The route reads the clock twice (`Date.now()` and `new Date()`), and the two readings may differ by a few milliseconds.
- AuthorQueries.BadgeOrder: the badge-rank lookup is an exact match on the three tier names, with 0 for anything else. In the source, `BADGE_ORDER[type]` on a plain object also finds inherited members, so a type such as "toString" or "__proto__" yields a function or an object and every comparison with it is false; a user's first badge of that kind would then never be replaced, where the model replaces it with any later badge. Badge types come from the `user_badges` table, which nothing in this repository writes, and the application names only the three tiers, so this is not modelled. AuthorQueries.BestBadge and AuthorQueries.BadgesByUser inherit the gap.
- SampleData.GetCompletedStoryDetail: the detail table is looked up by exact key. In the source, `completedStoryDetails[id]` on a plain object is truthy for an inherited name such as "constructor" or "__proto__", and that inherited value is returned; the model returns the made-up detail or null instead. The lookup serves the sample fixtures only and has no caller elsewhere in the source, so such ids are not modelled.
- StoryActions.CompleteStory: one clock reading serves both `completed_at` and `updated_at`. The action calls `new Date()` once for each field, and the two readings may differ by a millisecond.
- GenreTables.InheritedText: the text of an inherited method follows the form the JavaScript engine prints for a native function. Only the fact that it is never a genre label is relied on.

## Findings

| source | as written | input that shows it | evidently intended | confidence | as-written member | corrected member |
|---|---|---|---|---|---|---|
| actions/profile.ts:10-14 | `z.string().min(1).max(20).trim()` checks the length of the untrimmed name, then stores the trimmed name | `displayName: " "` passes `min(1)` and is stored as the empty display name | the trimmed name has 1 to 20 characters, so a blank name is refused | not executed | ProfileAction.BlankNameStoredAsWritten | ProfileAction.StoredNameIsNonBlank |
| components/posts/WritingGuide.tsx:71-74 | the next tip index is taken modulo `(guide?.tips ?? DEFAULT_TIPS).length`, which is 0 for a guide whose `tips` is `[]` | a fetched guide with `tips: []`: one press makes the index `NaN`, and the three default tips on show never advance past the first | the modulus is the number of tips on show, so the button cycles through the default tips | not executed | WritingGuide.NextTipStallsOnEmptyTips | WritingGuide.PressesCycle |
