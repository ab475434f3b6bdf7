/** The database rows the application reads and the records its pages
    display (lib/types.ts). Timestamps are kept as the ISO strings the
    database returns; nullable columns are `Option`s. */
module Types {
  import opened Common

  datatype ChallengeStatus = Active | Upcoming | Ended

  datatype DbProfile = DbProfile(
    id: string,
    displayName: Option<string>,
    avatarUrl: Option<string>,
    bio: Option<string>,
    preferredGenres: seq<string>)

  datatype DbChallenge = DbChallenge(
    id: string,
    title: string,
    description: Option<string>,
    theme: Option<string>,
    startAt: string,
    endAt: string,
    status: ChallengeStatus,
    participants: Option<int>)

  datatype DbStoryRoom = DbStoryRoom(
    id: string,
    title: string,
    genre: string,
    tags: Option<seq<string>>,
    createdBy: Option<string>,
    preview: Option<string>,
    coverImage: Option<string>,
    challengeId: Option<string>,
    likeCount: int,
    isCompleted: bool,
    completedAt: Option<string>,
    totalAuthors: int,
    createdAt: string,
    updatedAt: string)

  datatype DbStoryTurn = DbStoryTurn(
    id: string,
    roomId: string,
    authorId: string,
    content: string,
    turnIndex: int,
    likeCount: int,
    createdAt: string)

  datatype DbEpilogue = DbEpilogue(
    id: string,
    roomId: string,
    authorId: string,
    content: string,
    likeCount: int,
    createdAt: string)

  /** A story in progress, as the story list shows it. */
  datatype Story = Story(
    id: string,
    title: string,
    genre: string,
    tags: seq<string>,
    likes: int,
    turns: int,
    preview: Option<string>,
    isChallenge: bool,
    isCompleted: bool,
    coverImage: Option<string>)

  datatype CompletedStory = CompletedStory(
    id: string,
    title: string,
    genre: string,
    tags: seq<string>,
    totalTurns: int,
    totalAuthors: int,
    totalLikes: int,
    completedDate: string,
    preview: string,
    coverImage: Option<string>)

  datatype Paragraph = Paragraph(
    author: string,
    authorId: Option<string>,
    authorAvatar: Option<string>,
    content: string,
    turnNumber: int,
    createdAt: string,
    likes: Option<int>,
    turnId: Option<string>)

  datatype StoryDetail = StoryDetail(story: Story, paragraphs: seq<Paragraph>)

  datatype Challenge = Challenge(
    id: string,
    title: string,
    description: string,
    theme: string,
    startDate: string,
    endDate: string,
    participants: int,
    stories: int,
    status: ChallengeStatus)

  datatype Epilogue = Epilogue(
    id: string,
    author: string,
    authorId: Option<string>,
    authorAvatar: Option<string>,
    content: string,
    createdAt: string,
    likes: Option<int>)

  datatype ProfileStory = ProfileStory(
    id: string,
    title: string,
    genre: string,
    likes: int,
    turns: int,
    myTurns: Option<int>,
    lastActivity: string)

  datatype PopularAuthor = PopularAuthor(
    id: string,
    name: string,
    avatar: Option<string>,
    storiesCount: int,
    totalLikes: int,
    totalTurns: int,
    badge: Option<string>)

  datatype RankingStory = RankingStory(
    id: string, title: string, genre: string, likes: int, turns: int, rank: int)

  datatype AwardWinnerStory = AwardWinnerStory(
    id: string, title: string, author: string, challengeName: string,
    rank: int, likes: int, excerpt: string)

  /** `GENRES` (lib/types.ts): the filter labels, "전체" (all) first. */
  const Genres: seq<string> := ["전체", "자유", "판타지", "SF", "로맨스", "공포"]
}
