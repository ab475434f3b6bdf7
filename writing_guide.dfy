/** The writing-guide panel beside the editor,
    components/posts/WritingGuide.tsx: it fetches the guide, falls back to
    built-in tips, analysis and suggestions, and cycles through the tips.
    The fetch is split into its start and the outcome it ends with. */
module WritingGuide {
  import opened Common
  import opened GuideRoute

  /** `DEFAULT_TIPS`: their titles and descriptions here, their icons and
      colours in `TipMetas`. */
  const DefaultTips: seq<Tip> := [
    Tip("스토리 톤 유지하기", "이전 문단들의 분위기와 문체를 유지하면서 자연스럽게 이어가보세요."),
    Tip("캐릭터 일관성", "등장인물의 성격과 행동 패턴을 일관되게 유지해주세요."),
    Tip("갈등 심화하기", "이야기에 긴장감을 더하는 새로운 갈등이나 반전을 추가해보세요.")
  ]

  /** The icon and colour of each of `DEFAULT_TIPS`, in the same order. */
  const TipMetas: seq<(string, string)> := [
    ("TrendingUp", "text-blue-500"), ("Sparkles", "text-purple-500"), ("Lightbulb", "text-orange-500")
  ]

  /** What the panel draws when the index finds no default tip. */
  const FallbackMeta := ("Lightbulb", "text-blue-500")

  const DefaultSuggestions: seq<string> := [
    "소녀는 정령의 말에 놀라움을 감추지 못했다.",
    "숲 깊은 곳에서 이상한 소리가 들려왔다.",
    "빛이 갑자기 어두워지며 주변이 고요해졌다."
  ]

  const DefaultGenre := "판타지"
  const DefaultGenreTip := "신비로운 요소를 활용하여 독자의 호기심을 자극하세요."
  const CouldNotLoad := "가이드를 불러오지 못했습니다"

  /** The tips on show: the guide's when it has any, else the defaults. */
  function ShownTips(guide: Option<GuideResponse>): (r: seq<Tip>)
    ensures |r| >= 1
    ensures guide.Some? && guide.value.tips != [] ==> r == guide.value.tips
    ensures guide.None? || guide.value.tips == [] ==> r == DefaultTips
  {
    if guide.Some? && |guide.value.tips| > 0 then guide.value.tips else DefaultTips
  }

  /** The suggestions on show: the guide's when it has any, else three
      fixed sentences. */
  function ShownSuggestions(guide: Option<GuideResponse>): (r: seq<string>)
    ensures |r| >= 1
    ensures guide.Some? && guide.value.suggestions != [] ==> r == guide.value.suggestions
    ensures guide.None? || guide.value.suggestions == [] ==> r == DefaultSuggestions
  {
    if guide.Some? && |guide.value.suggestions| > 0 then guide.value.suggestions else DefaultSuggestions
  }

  /** How a fetch ended: the guide, a reply with a non-ok status and the
      `error` field of its body, or a throw with its message (`None` when
      what was thrown is not an `Error`). */
  datatype FetchOutcome = Fetched(guide: GuideResponse) | HttpError(status: int, error: Option<string>) | Threw(message: Option<string>)

  /** The error a failed fetch shows. */
  function FetchError(outcome: FetchOutcome): (r: Option<string>)
    ensures r.None? <==> outcome.Fetched?
    ensures outcome.HttpError? && outcome.error.Some? ==> r == outcome.error
    ensures outcome.HttpError? && outcome.error.None? ==> r == Some("HTTP " + IntToString(outcome.status))
    ensures outcome.Threw? ==> r == Some(outcome.message.GetOr(CouldNotLoad))
  {
    match outcome
      case Fetched(_) => None
      case HttpError(status, error) => Some(error.GetOr("HTTP " + IntToString(status)))
      case Threw(message) => Some(message.GetOr(CouldNotLoad))
  }

  // ---------------------------------------------------------------------
  // The tip index as written: `(prev + 1) % tips.length` with
  // `tips = guide?.tips ?? DEFAULT_TIPS`, a JavaScript number
  // ---------------------------------------------------------------------

  /** A JavaScript number as the tip index holds it: a natural number, or
      `NaN` after a remainder by zero. */
  datatype TipIndex = At(n: nat) | NaN

  function NextTipIndexAsWritten(guide: Option<GuideResponse>, prev: TipIndex): (r: TipIndex)
    ensures prev.NaN? ==> r.NaN?
  {
    var len := if guide.Some? then |guide.value.tips| else |DefaultTips|;
    if prev.NaN? || len == 0 then NaN else At((prev.n + 1) % len)
  }

  /** The tip shown for an index as written: `tips[NaN]` is `undefined`,
      and the heading then falls back to the first default tip. */
  function ShownTipAsWritten(guide: Option<GuideResponse>, index: TipIndex): (r: Tip)
    ensures index.NaN? ==> r == DefaultTips[0]
    ensures index.At? ==> r in ShownTips(guide)
  {
    var tips := ShownTips(guide);
    if index.NaN? then DefaultTips[0] else tips[index.n % |tips|]
  }

  /** `tipMeta?.icon ?? Lightbulb` and `tipMeta?.color ?? "text-blue-500"`
      for `tipMeta = DEFAULT_TIPS[index % 3]`: the icon and colour follow
      the index through the three default tips whatever tips are on show,
      and a NaN index finds none and gives a pairing no default tip has. */
  function TipMeta(index: TipIndex): (r: (string, string))
    ensures index.At? ==> r == TipMetas[index.n % |TipMetas|]
    ensures index.NaN? <==> r !in TipMetas
  {
    if index.NaN? then FallbackMeta else TipMetas[index.n % |TipMetas|]
  }

  /** The icon and colour repeat every three indices. */
  lemma {:induction false} TipMetaCycles(k: nat)
    ensures TipMeta(At(k + |TipMetas|)) == TipMeta(At(k))
  {
    assert (k + 3) % 3 == k % 3;
  }

  /** With the default tips on show, each keeps its own icon and colour:
      after `k` presses the panel shows default tip `k % 3` with meta
      `k % 3`, so three presses bring back the same pair. */
  lemma {:induction false} DefaultTipsKeepTheirMeta(guide: Option<GuideResponse>, k: nat)
    requires guide.None? || guide.value.tips == []
    ensures ShownTipAsWritten(guide, At(Presses(guide, k))) == DefaultTips[k % 3]
    ensures TipMeta(At(Presses(guide, k))) == TipMetas[k % 3]
  {
    DefaultPressesModulo(guide, k);
    var i := k % 3;
    assert ShownTips(guide) == DefaultTips;
    assert ShownTipAsWritten(guide, At(i)) == DefaultTips[i % 3];
  }

  /** With the default tips on show, the index after `k` presses from 0
      is `k` modulo 3. */
  lemma {:induction false} DefaultPressesModulo(guide: Option<GuideResponse>, k: nat)
    requires guide.None? || guide.value.tips == []
    ensures Presses(guide, k) == k % 3
  {
    if k > 0 {
      DefaultPressesModulo(guide, k - 1);
    }
  }

  /** A guide whose `tips` came back empty shows the three default tips,
      but the button divides by the guide's empty list: one press turns the
      index into NaN, and from then on every press leaves it NaN and the
      first default tip stays on screen, so the second is never shown. */
  lemma {:induction false} NextTipStallsOnEmptyTips(g: GuideResponse)
    requires g.tips == []
    ensures ShownTips(Some(g)) == DefaultTips
    ensures NextTipIndexAsWritten(Some(g), At(0)) == NaN
    ensures forall k: nat :: k >= 1 ==> ShownTipAsWritten(Some(g), PressesAsWritten(Some(g), k)) == DefaultTips[0]
    ensures forall k: nat :: k >= 1 ==> TipMeta(PressesAsWritten(Some(g), k)) == FallbackMeta
    ensures DefaultTips[1] != DefaultTips[0]
  {
    forall k: nat | k >= 1 ensures PressesAsWritten(Some(g), k) == NaN {
      PressesAsWrittenStayNaN(Some(g), k - 1);
    }
  }

  /** The index as written after `k` presses from 0. */
  function PressesAsWritten(guide: Option<GuideResponse>, k: nat): (r: TipIndex)
    ensures guide.None? || guide.value.tips != [] ==> r == At(Presses(guide, k))
  {
    if k == 0 then At(0) else NextTipIndexAsWritten(guide, PressesAsWritten(guide, k - 1))
  }

  lemma {:induction false} PressesAsWrittenStayNaN(guide: Option<GuideResponse>, k: nat)
    requires guide.Some? && guide.value.tips == []
    ensures PressesAsWritten(guide, k + 1) == NaN
  {
    if k > 0 {
      PressesAsWrittenStayNaN(guide, k - 1);
    }
  }

  // ---------------------------------------------------------------------
  // The tip index as intended: modulo the tips on show
  // ---------------------------------------------------------------------

  /** The next index, taken modulo the number of tips on show. */
  function NextTipIndex(guide: Option<GuideResponse>, prev: nat): (r: nat)
    ensures r < |ShownTips(guide)|
    ensures prev + 1 < |ShownTips(guide)| ==> r == prev + 1
    ensures prev + 1 == |ShownTips(guide)| ==> r == 0
  {
    (prev + 1) % |ShownTips(guide)|
  }

  /** The index after `k` presses from 0. */
  function Presses(guide: Option<GuideResponse>, k: nat): (r: nat)
    ensures r < |ShownTips(guide)|
  {
    if k == 0 then 0 else NextTipIndex(guide, Presses(guide, k - 1))
  }

  /** The first presses step through the tips on show one by one. */
  lemma {:induction false} PressesCountUp(guide: Option<GuideResponse>, k: nat)
    requires k < |ShownTips(guide)|
    ensures Presses(guide, k) == k
  {
    if k > 0 {
      PressesCountUp(guide, k - 1);
    }
  }

  /** The button cycles: `n` more presses, for the `n` tips on show, come
      back to the same tip. */
  lemma {:induction false} PressesCycle(guide: Option<GuideResponse>, k: nat)
    ensures Presses(guide, k + |ShownTips(guide)|) == Presses(guide, k)
  {
    var n := |ShownTips(guide)|;
    if k == 0 {
      PressesCountUp(guide, n - 1);
    } else {
      PressesCycle(guide, k - 1);
      assert Presses(guide, k + n) == NextTipIndex(guide, Presses(guide, k - 1 + n));
    }
  }

  /** Where the two agree: with tips on show from the guide itself, or
      with no guide, the written index never becomes NaN and moves as the
      intended one does. */
  lemma {:induction false} AsWrittenAgreesWithTips(guide: Option<GuideResponse>, prev: nat)
    requires guide.None? || guide.value.tips != []
    ensures NextTipIndexAsWritten(guide, At(prev)) == At(NextTipIndex(guide, prev))
  {
  }

  // ---------------------------------------------------------------------
  // The panel
  // ---------------------------------------------------------------------

  class Panel {
    const genre: string
    var isExpanded: bool
    var currentTipIndex: nat
    var guide: Option<GuideResponse>
    var loading: bool
    var error: Option<string>

    /** The panel opens expanded, loading, on the first tip. */
    constructor (genre: Option<string>)
      ensures this.genre == genre.GetOr(DefaultGenre)
      ensures isExpanded && currentTipIndex == 0 && guide.None? && loading && error.None?
    {
      this.genre := genre.GetOr(DefaultGenre);
      isExpanded := true;
      currentTipIndex := 0;
      guide := None;
      loading := true;
      error := None;
    }

    method ToggleExpanded()
      modifies this`isExpanded
      ensures isExpanded == !old(isExpanded)
    {
      isExpanded := !isExpanded;
    }

    /** `fetchGuide` starts: loading, and the last error cleared. */
    method FetchStarted()
      modifies this`loading, this`error
      ensures loading && error.None?
    {
      loading := true;
      error := None;
    }

    /** `fetchGuide` ends: a guide replaces the old one; a failure shows its
        error and drops the guide. Loading ends either way. */
    method FetchEnded(outcome: FetchOutcome)
      modifies this`guide, this`loading, this`error
      ensures !loading
      ensures outcome.Fetched? ==> guide == Some(outcome.guide) && error == old(error)
      ensures !outcome.Fetched? ==> guide.None? && error == FetchError(outcome)
    {
      if outcome.Fetched? {
        guide := Some(outcome.guide);
      } else {
        error := FetchError(outcome);
        guide := None;
      }
      loading := false;
    }

    /** The next-tip button, with the index taken modulo the tips on show. */
    method HandleNextTip()
      modifies this`currentTipIndex
      ensures currentTipIndex == NextTipIndex(guide, old(currentTipIndex))
      ensures currentTipIndex < |ShownTips(guide)|
    {
      var tips := ShownTips(guide);
      currentTipIndex := (currentTipIndex + 1) % |tips|;
    }

    /** `currentTip`: always one of the tips on show. */
    function CurrentTip(): (r: Tip)
      reads this
      ensures r in ShownTips(guide)
    {
      var tips := ShownTips(guide);
      tips[currentTipIndex % |tips|]
    }

    /** `TipIcon` and `tipColor` for the panel's index. */
    function CurrentTipMeta(): (r: (string, string))
      reads this
      ensures r in TipMetas
      ensures r == TipMeta(At(currentTipIndex))
    {
      TipMetas[currentTipIndex % |TipMetas|]
    }

    /** The three analysis badges: the guide's, or placeholders while there
        is none. */
    function Analysis(): (r: (string, string, string))
      reads this
      ensures guide.Some? ==> r == (guide.value.tone, guide.value.pace, guide.value.nextDirection)
      ensures guide.None? ==> r == ("분석 중", "-", "-")
    {
      if guide.Some? then (guide.value.tone, guide.value.pace, guide.value.nextDirection) else ("분석 중", "-", "-")
    }

    /** The genre tip box: shown when the guide has a genre tip or the
        genre is not empty, with the guide's tip or a fixed one. */
    function GenreTip(): (r: Option<string>)
      reads this
      ensures r.Some? <==> (guide.Some? && guide.value.genreTip.Some? && guide.value.genreTip.value != "")
                           || ((guide.None? || guide.value.genreTip.None?) && genre != "")
      ensures r.Some? && guide.Some? && guide.value.genreTip.Some? ==> r.value == guide.value.genreTip.value
      ensures r.Some? && (guide.None? || guide.value.genreTip.None?) ==> r.value == DefaultGenreTip
    {
      var tip := if guide.Some? then guide.value.genreTip else None;
      var shown := if tip.Some? then tip.value else genre;
      if shown == "" then None else Some(tip.GetOr(DefaultGenreTip))
    }

    /** Which body the expanded panel shows: the skeleton while loading,
        else the error when there is a non-empty one, else the guide. */
    predicate ShowsError()
      reads this
    {
      !loading && error.Some? && error.value != ""
    }
  }

  /** A failed fetch that reports a message shows it, and the panel goes
      back to the built-in tips and suggestions. */
  method FailedFetchFallsBack(panel: Panel, outcome: FetchOutcome)
    requires !outcome.Fetched?
    requires outcome.HttpError? ==> outcome.error != Some("")
    requires outcome.Threw? ==> outcome.message != Some("")
    modifies panel
    ensures panel.ShowsError()
    ensures ShownTips(panel.guide) == DefaultTips && ShownSuggestions(panel.guide) == DefaultSuggestions
  {
    panel.FetchStarted();
    panel.FetchEnded(outcome);
    if outcome.HttpError? && outcome.error.None? {
      assert panel.error.value[0] == 'H';
    }
  }
}
