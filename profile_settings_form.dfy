/** The profile settings form of
    components/profile/ProfileSettingsForm.tsx: its fields, the genre
    toggles and the save round trip. `Save` returns the request it sends
    and `FinishSave` applies the reply, returning the toast's title. */
module ProfileSettingsForm {
  import opened Common
  import opened Types
  import ProfileAction
  import StoryActions

  const MaxPreferred := 5
  const Saved := "프로필이 저장되었습니다"

  /** `xs.filter((x) => keep.includes(x))` */
  function KeepIn(xs: seq<string>, keep: seq<string>): (r: seq<string>)
    ensures forall x :: x in r <==> x in xs && x in keep
    ensures |r| <= |xs|
  {
    if xs == [] then [] else (if xs[0] in keep then [xs[0]] else []) + KeepIn(xs[1..], keep)
  }

  /** `GENRES.filter((g) => g !== "전체")` */
  function GenreOptions(): (r: seq<string>)
    ensures r == Without(Genres, "전체")
  {
    Without(Genres, "전체")
  }

  /** The options are exactly the genres the server's schema accepts. */
  lemma {:induction false} OptionsAreValidGenres()
    ensures GenreOptions() == ProfileAction.ValidGenres
  {
    assert Genres == ["전체"] + ProfileAction.ValidGenres;
    assert "전체" !in ProfileAction.ValidGenres;
    WithoutAbsent(ProfileAction.ValidGenres, "전체");
  }

  /** `toggleGenre(g)`: removes a chosen genre, appends an unchosen one. */
  function Toggled(chosen: seq<string>, g: string): (r: seq<string>)
    ensures g in chosen ==> g !in r && |r| < |chosen|
    ensures g !in chosen ==> r == chosen + [g]
    ensures forall x :: x != g ==> (x in r <==> x in chosen)
  {
    if g in chosen then WithoutShrinks(chosen, g); Without(chosen, g) else chosen + [g]
  }

  lemma {:induction false} WithoutShrinks(s: seq<string>, x: string)
    requires x in s
    ensures |Without(s, x)| < |s|
  {
    if s[0] != x {
      WithoutShrinks(s[1..], x);
    }
  }

  /** A toggle keeps the chosen genres among the allowed ones and keeps
      them free of repeats. */
  lemma {:induction false} ToggledKeeps(chosen: seq<string>, g: string, allowed: seq<string>)
    requires g in allowed && forall x :: x in chosen ==> x in allowed
    ensures forall x :: x in Toggled(chosen, g) ==> x in allowed
    ensures NoRepeats(chosen) ==> NoRepeats(Toggled(chosen, g))
  {
    if NoRepeats(chosen) {
      if g in chosen {
        WithoutKeepsNoRepeats(chosen, g);
      } else {
        var r := chosen + [g];
        forall i, j | 0 <= i < j < |r| ensures r[i] != r[j] {
          if j == |chosen| {
            assert r[i] == chosen[i];
          }
        }
      }
    }
  }

  /** Toggling twice restores membership, and the list itself when the
      genre was not chosen. */
  lemma {:induction false} ToggleTwice(chosen: seq<string>, g: string)
    ensures forall x :: x in Toggled(Toggled(chosen, g), g) <==> x in chosen
    ensures g !in chosen ==> Toggled(Toggled(chosen, g), g) == chosen
  {
    if g !in chosen {
      AddThenRemove(chosen, g);
    }
  }

  class SettingsForm {
    var displayName: string
    var avatarUrl: string
    var bio: string
    var preferredGenres: seq<string>
    var isSaving: bool

    /** Only offered genres are ever chosen. */
    ghost predicate Valid()
      reads this
    {
      forall g :: g in preferredGenres ==> g in GenreOptions()
    }

    /** The initial genres keep only the offered ones, in order. */
    constructor (initialDisplayName: string, initialAvatarUrl: string, initialBio: string,
                 initialPreferredGenres: seq<string>)
      ensures Valid()
      ensures displayName == initialDisplayName && avatarUrl == initialAvatarUrl && bio == initialBio
      ensures preferredGenres == KeepIn(initialPreferredGenres, GenreOptions())
      ensures !isSaving
    {
      displayName := initialDisplayName;
      avatarUrl := initialAvatarUrl;
      bio := initialBio;
      preferredGenres := KeepIn(initialPreferredGenres, GenreOptions());
      isSaving := false;
    }

    method SetDisplayName(text: string)
      requires Valid()
      modifies this`displayName
      ensures Valid() && displayName == Take(text, 20)
    {
      displayName := Take(text, 20);
    }

    method SetAvatarUrl(text: string)
      requires Valid()
      modifies this`avatarUrl
      ensures Valid() && avatarUrl == text
    {
      avatarUrl := text;
    }

    method SetBio(text: string)
      requires Valid()
      modifies this`bio
      ensures Valid() && bio == Take(text, 150)
    {
      bio := Take(text, 150);
    }

    /** Whether the button of genre `g` is disabled: it is unchosen and five
        are chosen. */
    predicate GenreDisabled(g: string)
      reads this
    {
      g !in preferredGenres && |preferredGenres| >= MaxPreferred
    }

    /** A click on the enabled button of an offered genre. Five or fewer
        chosen genres stay five or fewer, and a list without repeats keeps
        none. */
    method ToggleGenre(g: string)
      requires Valid() && g in GenreOptions() && !GenreDisabled(g)
      modifies this`preferredGenres
      ensures Valid()
      ensures preferredGenres == Toggled(old(preferredGenres), g)
      ensures |old(preferredGenres)| <= MaxPreferred ==> |preferredGenres| <= MaxPreferred
      ensures NoRepeats(old(preferredGenres)) ==> NoRepeats(preferredGenres)
    {
      ToggledKeeps(preferredGenres, g, GenreOptions());
      preferredGenres := Toggled(preferredGenres, g);
    }

    /** The request `handleSave` sends: the trimmed name, and the trimmed
        avatar URL and bio, left out when blank. */
    function Request(): (r: ProfileAction.UpdateProfileInput)
      reads this
      ensures r.avatarUrl.None? <==> AllSpace(avatarUrl)
      ensures r.bio.None? <==> AllSpace(bio)
    {
      var avatar := Trim(avatarUrl);
      var b := Trim(bio);
      TrimEmptyIffBlank(avatarUrl);
      TrimEmptyIffBlank(bio);
      ProfileAction.UpdateProfileInput(Trim(displayName), if avatar == "" then None else Some(avatar),
                                       if b == "" then None else Some(b), preferredGenres)
    }

    method Save() returns (request: ProfileAction.UpdateProfileInput)
      requires Valid()
      modifies this`isSaving
      ensures Valid() && isSaving && request == Request()
    {
      isSaving := true;
      request := Request();
    }

    /** The reply ends the save and picks the toast: the success title, or
        the action's error. */
    method FinishSave(result: StoryActions.ActionResult<()>) returns (toast: string)
      requires Valid()
      modifies this`isSaving
      ensures Valid() && !isSaving
      ensures toast == if result.Succeeded? then Saved else result.error
    {
      isSaving := false;
      toast := if result.Succeeded? then Saved else result.error;
    }
  }

  /** What the form sends is judged the same by the schema as written and
      by the corrected one, since the name is already trimmed. */
  lemma {:induction false} FormRequestChecksAgree(form: SettingsForm, user: Option<string>, upsertFails: bool, now: int)
    ensures ProfileAction.UpdateProfileAsWritten(form.Request(), user, upsertFails, now)
         == ProfileAction.UpdateProfile(form.Request(), user, upsertFails, now)
  {
    TrimIdempotent(form.displayName);
    ProfileAction.TrimmedNameChecksAgree(form.Request(), user, upsertFails, now);
  }

  /** With the form's own limits kept (a name of at most 20 characters that
      is not blank, a bio of at most 150, at most five offered genres), the
      schema accepts the request exactly when the avatar URL is empty or an
      http(s) URL. */
  lemma {:induction false} FormRequestPassesSchema(form: SettingsForm)
    requires form.Valid() && |form.preferredGenres| <= MaxPreferred
    requires |form.displayName| <= 20 && !AllSpace(form.displayName) && |form.bio| <= 150
    ensures ProfileAction.ValidProfileInput(form.Request()) <==>
      (Trim(form.avatarUrl) == "" || ProfileAction.HttpUrl(Trim(form.avatarUrl)))
  {
    var req := form.Request();
    NameWithinBounds(form.displayName);
    BioWithinBound(form.bio);
    OptionsAreValidGenres();
    ChosenAreValid(req.preferredGenres, GenreOptions(), ProfileAction.ValidGenres);
    AvatarDecides(req);
    assert req.avatarUrl.GetOr("") == Trim(form.avatarUrl);
  }

  lemma {:induction false} AvatarDecides(input: ProfileAction.UpdateProfileInput)
    requires 1 <= |Trim(input.displayName)| <= 20 && |input.bio.GetOr("")| <= 150
    requires |input.preferredGenres| <= 5
    requires forall k :: 0 <= k < |input.preferredGenres| ==> input.preferredGenres[k] in ProfileAction.ValidGenres
    ensures ProfileAction.ValidProfileInput(input) <==>
      (input.avatarUrl.GetOr("") == "" || ProfileAction.HttpUrl(input.avatarUrl.GetOr("")))
  {
  }

  lemma {:induction false} ChosenAreValid(chosen: seq<string>, options: seq<string>, valid: seq<string>)
    requires (forall g :: g in chosen ==> g in options) && options == valid
    ensures forall k :: 0 <= k < |chosen| ==> chosen[k] in valid
  {
  }

  lemma {:induction false} NameWithinBounds(name: string)
    requires |name| <= 20 && !AllSpace(name)
    ensures 1 <= |Trim(Trim(name))| <= 20
  {
    TrimIdempotent(name);
    TrimShape(name);
    TrimEmptyIffBlank(name);
  }

  lemma {:induction false} BioWithinBound(bio: string)
    requires |bio| <= 150
    ensures |Trim(bio)| <= 150
  {
    TrimShape(bio);
  }
}
