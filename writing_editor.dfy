/** The turn-writing editor of components/posts/WritingEditor.tsx. Each
    handler that awaits a server action is split in two: the part before
    the call, which returns the request it sends (or `None` when it sends
    none), and the part that applies the reply. The one-second interval is
    the `Tick` method. */
module WritingEditor {
  import opened Common
  import opened StoryActions

  const MaxChars := 500
  /** Five minutes, in seconds. */
  const WritingTime := 300

  /** One timer tick: down by one second, never below zero. */
  function TickDown(prev: int): (r: int)
    ensures prev <= 1 ==> r == 0
    ensures prev > 1 ==> r == prev - 1 && r >= 1
  {
    if prev <= 1 then 0 else prev - 1
  }

  /** After `n` ticks from `t`, `max(t - n, 0)` seconds are left. */
  function TicksFrom(t: int, n: nat): int {
    if n == 0 then t else TickDown(TicksFrom(t, n - 1))
  }

  lemma {:induction false} TicksCountDown(t: nat, n: nat)
    ensures TicksFrom(t, n) == if n < t then t - n else 0
  {
    if n > 0 { TicksCountDown(t, n - 1); }
  }

  /** `formatTime(seconds)`: minutes, a colon, two-digit seconds. */
  function FormatTime(seconds: nat): (r: string)
    ensures |r| >= 4 && r[|r| - 3] == ':'
  {
    NatToString(seconds / 60) + ":" + PadStart2(NatToString(seconds % 60))
  }

  /** Reading a rendered `m:ss` back as seconds. */
  function ParseTime(t: string): int
    requires |t| >= 4
    requires forall k :: 0 <= k < |t| && k != |t| - 3 ==> IsDigit(t[k])
  {
    ParseDecimal(t[..|t| - 3]) * 60 + DigitValue(t[|t| - 2]) * 10 + DigitValue(t[|t| - 1])
  }

  /** The rendering loses nothing: its minutes and seconds read back as the
      number of seconds shown. */
  lemma {:induction false} FormatTimeRoundTrip(seconds: nat)
    ensures var t := FormatTime(seconds);
      (forall k :: 0 <= k < |t| && k != |t| - 3 ==> IsDigit(t[k])) && ParseTime(t) == seconds
  {
    var m := NatToString(seconds / 60);
    var p := PadStart2(NatToString(seconds % 60));
    FormatTimeParts(seconds, m, p);
    ColonJoin(m, p);
  }

  /** The minutes and the padded seconds each read back. */
  lemma {:induction false} FormatTimeParts(seconds: nat, m: string, p: string)
    requires m == NatToString(seconds / 60) && p == PadStart2(NatToString(seconds % 60))
    ensures |m| >= 1 && (forall k :: 0 <= k < |m| ==> IsDigit(m[k]))
    ensures |p| == 2 && IsDigit(p[0]) && IsDigit(p[1])
    ensures ParseDecimal(m) * 60 + DigitValue(p[0]) * 10 + DigitValue(p[1]) == seconds
    ensures FormatTime(seconds) == m + ":" + p
  {
    PadStart2Value(seconds % 60);
    NatToStringRoundTrip(seconds / 60);
  }

  /** The parts of `m + ":" + p` for two-character `p`. */
  lemma {:induction false} ColonJoin(m: string, p: string)
    requires |m| >= 1 && |p| == 2 && (forall k :: 0 <= k < |m| ==> IsDigit(m[k])) && IsDigit(p[0]) && IsDigit(p[1])
    ensures var t := m + ":" + p;
      && |t| == |m| + 3 && t[..|m|] == m && t[|m|] == ':' && t[|m| + 1] == p[0] && t[|m| + 2] == p[1]
      && (forall k :: 0 <= k < |t| && k != |t| - 3 ==> IsDigit(t[k]))
      && ParseTime(t) == ParseDecimal(m) * 60 + DigitValue(p[0]) * 10 + DigitValue(p[1])
  {
    var t := m + ":" + p;
    forall k | 0 <= k < |t| && k != |t| - 3 ensures IsDigit(t[k]) {
      if k < |m| {
        assert t[k] == m[k];
      }
    }
  }

  /** The editor's room guard `!roomId`: a missing id and the empty id both
      count as no room. */
  predicate HasRoom(roomId: Option<string>) {
    roomId.Some? && roomId.value != ""
  }

  class Editor {
    const roomId: Option<string>
    /** The login modal of the auth provider, which the editor can open. */
    var showLoginModal: bool
    var isWriting: bool
    var content: string
    var timeLeft: int
    var isSubmitting: bool
    var isAcquiring: bool
    var lockError: Option<string>
    var submitError: Option<string>
    var lockExpireAt: Option<Timestamp>

    ghost predicate Valid()
      reads this
    {
      0 <= timeLeft <= WritingTime && |content| <= MaxChars
    }

    constructor (roomId: Option<string>)
      ensures Valid()
      ensures this.roomId == roomId && !showLoginModal
      ensures !isWriting && content == "" && timeLeft == WritingTime
      ensures !isSubmitting && !isAcquiring
      ensures lockError.None? && submitError.None? && lockExpireAt.None?
    {
      this.roomId := roomId;
      showLoginModal := false;
      isWriting := false;
      content := "";
      timeLeft := WritingTime;
      isSubmitting := false;
      isAcquiring := false;
      lockError := None;
      submitError := None;
      lockExpireAt := None;
    }

    /** The interval callback, which runs only in writing mode. */
    method Tick()
      requires Valid()
      modifies this`timeLeft
      ensures Valid()
      ensures timeLeft == if old(isWriting) then TickDown(old(timeLeft)) else old(timeLeft)
      ensures timeLeft <= old(timeLeft)
    {
      if isWriting {
        timeLeft := TickDown(timeLeft);
      }
    }

    /** `handleStartWriting` up to the `acquireLock` call. Signed out, it
        only opens the login modal; without a room (no id, or the empty id) it
        does nothing; either
        way no lock is requested. */
    method StartWriting(isLoggedIn: bool) returns (request: Option<string>)
      requires Valid()
      modifies this`showLoginModal, this`lockError, this`isAcquiring
      ensures Valid()
      ensures !isLoggedIn ==> request.None? && showLoginModal && unchanged(this`lockError, this`isAcquiring)
      ensures isLoggedIn && !HasRoom(roomId) ==> request.None? && unchanged(this)
      ensures isLoggedIn && HasRoom(roomId) ==> (request == roomId && lockError.None? && isAcquiring
        && showLoginModal == old(showLoginModal))
    {
      if !isLoggedIn {
        showLoginModal := true;
        return None;
      }
      if !HasRoom(roomId) {
        return None;
      }
      lockError := None;
      isAcquiring := true;
      return roomId;
    }

    /** The rest of `handleStartWriting`, given `acquireLock`'s result: a
        grant starts a five-minute writing session; a denial records the
        error and the expiry and stays out of writing mode. */
    method FinishStartWriting(result: AcquireLockResult)
      requires Valid()
      modifies this`isAcquiring, this`isWriting, this`timeLeft, this`lockExpireAt, this`lockError
      ensures Valid() && !isAcquiring
      ensures result.LockGranted? ==> (isWriting && timeLeft == WritingTime
        && lockExpireAt == Some(result.lockExpireAt) && lockError == old(lockError))
      ensures result.LockDenied? ==> (isWriting == old(isWriting) && timeLeft == old(timeLeft)
        && lockError == Some(result.error)
        && lockExpireAt == (if result.deniedExpireAt.Some? then Some(Iso(result.deniedExpireAt.value)) else None))
    {
      isAcquiring := false;
      if result.LockGranted? {
        isWriting := true;
        timeLeft := WritingTime;
        lockExpireAt := Some(result.lockExpireAt);
      } else {
        lockError := Some(result.error);
        lockExpireAt := if result.deniedExpireAt.Some? then Some(Iso(result.deniedExpireAt.value)) else None;
      }
    }

    /** The textarea's change handler; it is disabled once time is up. The
        draft keeps at most the first 500 characters. */
    method Edit(text: string)
      requires Valid()
      modifies this`content
      ensures Valid()
      ensures old(timeLeft) != 0 ==> content == Take(text, MaxChars)
      ensures old(timeLeft) == 0 ==> content == old(content)
    {
      if timeLeft != 0 {
        content := Take(text, MaxChars);
      }
    }

    /** Whether the submit button is disabled: an enabled button means a
        non-empty draft, time left and no submission in flight. */
    predicate SubmitDisabled()
      reads this
      ensures !SubmitDisabled() ==> !AllSpace(content) && timeLeft != 0 && !isSubmitting
    {
      TrimEmptyIffBlank(content);
      Trim(content) == "" || timeLeft == 0 || isSubmitting
    }

    /** `handleSubmit` up to the `submitTurn` call: nothing happens when the
        trimmed draft is empty, a submission is in flight or there is no
        room (no id, or the empty id). */
    method Submit() returns (request: Option<(string, string)>)
      requires Valid()
      modifies this`submitError, this`isSubmitting
      ensures Valid()
      ensures (Trim(content) == "" || old(isSubmitting) || !HasRoom(roomId)) ==> request.None? && unchanged(this)
      ensures !(Trim(content) == "" || old(isSubmitting) || !HasRoom(roomId)) ==>
        (request == Some((roomId.value, content)) && request.value.0 != "" && submitError.None? && isSubmitting)
      ensures !old(SubmitDisabled()) && HasRoom(roomId) ==> request.Some?
    {
      if Trim(content) == "" || isSubmitting || !HasRoom(roomId) {
        return None;
      }
      submitError := None;
      isSubmitting := true;
      return Some((roomId.value, content));
    }

    /** The rest of `handleSubmit`, given `submitTurn`'s result: success
        leaves writing mode with an empty draft and no errors; failure stays
        in writing mode with the error shown. Either way the submission is
        no longer in flight. */
    method FinishSubmit(result: ActionResult<string>)
      requires Valid()
      modifies this`isWriting, this`content, this`lockError, this`submitError, this`isSubmitting
      ensures Valid() && !isSubmitting
      ensures result.Succeeded? ==> !isWriting && content == "" && lockError.None? && submitError.None?
      ensures result.Failed? ==> (isWriting == old(isWriting) && content == old(content)
        && lockError == old(lockError) && submitError == Some(result.error))
    {
      if result.Succeeded? {
        isWriting := false;
        content := "";
        lockError := None;
        submitError := None;
      } else {
        submitError := Some(result.error);
      }
      isSubmitting := false;
    }

    /** The cancel button: leaves writing mode and drops the draft. No lock
        release is requested. */
    method Cancel()
      requires Valid()
      modifies this`isWriting, this`content
      ensures Valid() && !isWriting && content == ""
    {
      isWriting := false;
      content := "";
    }
  }
}
