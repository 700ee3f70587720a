/**
 * The first-run screen: the player types a nickname (at most 20 UTF-16 code
 * units, JavaScript's `length`) and submits it; after a short loading pause
 * the trimmed nickname is handed on to create the profile. The submit button
 * is live only for a nickname of 2 to 20 code units after trimming, and not
 * while loading. A character beyond the Basic Multilingual Plane, such as an
 * emoji, counts two.
 */
module ProfileSetup {
  import opened Wrappers
  import opened Text
  import UserProfile

  /** The input's `maxLength`, in UTF-16 code units. */
  const MaxNicknameLength: nat := 20

  /** The shortest nickname accepted after trimming, in UTF-16 code units. */
  const MinNicknameLength: nat := 2

  /**
   * The screen: the raw input, the loading flag, and the nickname a submit
   * has scheduled for hand-over after the pause.
   */
  datatype Setup = Setup(nickname: string, loading: bool, pending: Option<string>)

  const Initial: Setup := Setup("", false, None)

  /**
   * Typing into the input: ignored while loading (the input is disabled);
   * otherwise the input takes the longest prefix of the typed text that
   * fits in 20 code units.
   */
  function Edit(s: Setup, typed: string): (r: Setup)
    ensures s.loading ==> r == s
    ensures !s.loading ==> r.loading == s.loading && r.pending == s.pending
    ensures !s.loading ==> Utf16Length(r.nickname) <= MaxNicknameLength && r.nickname <= typed
    ensures !s.loading && Utf16Length(typed) <= MaxNicknameLength ==> r.nickname == typed
    ensures !s.loading && |r.nickname| < |typed| ==>
      Utf16Length(typed[..|r.nickname| + 1]) > MaxNicknameLength
  {
    if s.loading then s
    else s.(nickname := CapUtf16(typed, MaxNicknameLength))
  }

  /**
   * `isValidNickname`: the trimmed nickname has 2 to 20 code units. In
   * characters that is 1 to 20, and any 2 to 10 characters will do.
   */
  predicate IsValidNickname(nickname: string): (ok: bool)
    ensures ok ==> 1 <= |Trim(nickname)| <= MaxNicknameLength
    ensures 2 <= |Trim(nickname)| <= MaxNicknameLength / 2 ==> ok
  {
    MinNicknameLength <= Utf16Length(Trim(nickname)) <= MaxNicknameLength
  }

  /** The submit button is enabled: a valid nickname and not loading. */
  function ButtonEnabled(s: Setup): (r: bool)
    ensures r <==> IsValidNickname(s.nickname) && !s.loading
  {
    var n := Utf16Length(Trim(s.nickname));
    !s.loading && n >= MinNicknameLength && n <= MaxNicknameLength
  }

  /**
   * `handleSubmit`: a trimmed nickname shorter than 2 code units does
   * nothing; otherwise loading starts and the trimmed nickname is scheduled.
   */
  function Submit(s: Setup): (r: Setup)
    ensures Utf16Length(Trim(s.nickname)) < MinNicknameLength ==> r == s
    ensures Utf16Length(Trim(s.nickname)) >= MinNicknameLength ==>
      r == s.(loading := true, pending := Some(Trim(s.nickname)))
  {
    var t := Trim(s.nickname);
    if Utf16Length(t) < MinNicknameLength then s
    else s.(loading := true, pending := Some(t))
  }

  /** The pause ends: the scheduled nickname is handed on and loading stops. */
  function Deliver(s: Setup): (r: (Setup, Option<string>))
    ensures r.1 == s.pending
    ensures r.0 == (if s.pending.Some? then s.(loading := false, pending := None) else s)
  {
    match s.pending
    case None => (s, None)
    case Some(n) => (s.(loading := false, pending := None), Some(n))
  }

  /** What every reachable screen satisfies: a short input, and a hand-over exactly while loading. */
  predicate Reachable(s: Setup) {
    && Utf16Length(s.nickname) <= MaxNicknameLength
    && (s.loading <==> s.pending.Some?)
    && (s.pending.Some? ==> s.pending.value == Trim(s.nickname) && IsValidNickname(s.nickname))
  }

  /** The user's moves on the screen. */
  datatype Move = Type(text: string) | Press | PauseEnds

  /** One move; a press only counts on an enabled button. */
  function Apply(s: Setup, m: Move): (r: (Setup, Option<string>))
    ensures r.1.Some? ==> m.PauseEnds? && r.1 == s.pending
    ensures m.Press? && !ButtonEnabled(s) ==> r.0 == s
  {
    match m
    case Type(text) => (Edit(s, text), None)
    case Press => (if ButtonEnabled(s) then Submit(s) else s, None)
    case PauseEnds => Deliver(s)
  }

  lemma ReachableInitial()
    ensures Reachable(Initial)
  {
  }

  /** The upper bound of the button is implied by the input cap: a submit never sees more than 20. */
  lemma LengthCapImpliesUpperBound(nickname: string)
    requires Utf16Length(nickname) <= MaxNicknameLength
    ensures IsValidNickname(nickname) <==> Utf16Length(Trim(nickname)) >= MinNicknameLength
  {
    TrimFacts(nickname);
    var a := TrimFrom(nickname);
    Utf16LengthSlice(nickname, a, a + |Trim(nickname)|);
  }

  /**
   * A single emoji is a valid nickname: one character, but two code units,
   * so the button lights up for it.
   */
  lemma EmojiNicknameValid()
    ensures |"\U{1F600}"| == 1 && Utf16Length("\U{1F600}") == 2
    ensures IsValidNickname("\U{1F600}")
    ensures ButtonEnabled(Setup("\U{1F600}", false, None))
  {
    assert SpaceEnd("\U{1F600}", 0) == 0;
    assert SpaceStart("\U{1F600}", 1, 0) == 1;
    assert Trim("\U{1F600}") == "\U{1F600}";
    assert "\U{1F600}"[..0] == [];
  }

  /**
   * Every move keeps the screen reachable, and any nickname handed on is the
   * trimmed input: valid, with no white space at either end, and its own trim.
   */
  lemma ApplyReachable(s: Setup, m: Move)
    requires Reachable(s)
    ensures Reachable(Apply(s, m).0)
    ensures var out := Apply(s, m).1;
      out.Some? ==>
        && IsValidNickname(out.value)
        && Trim(out.value) == out.value
        && !IsSpace(out.value[0]) && !IsSpace(out.value[|out.value| - 1])
  {
    match m
    case Type(text) =>
      assert Apply(s, m) == (Edit(s, text), None);
      EditReachable(s, text);
    case Press =>
      assert Apply(s, m) == (if ButtonEnabled(s) then Submit(s) else s, None);
      PressReachable(s);
    case PauseEnds =>
      assert Apply(s, m) == Deliver(s);
      DeliverFacts(s);
  }

  lemma EditReachable(s: Setup, typed: string)
    requires Reachable(s)
    ensures Reachable(Edit(s, typed))
  {
  }

  lemma PressReachable(s: Setup)
    requires Reachable(s)
    ensures Reachable(if ButtonEnabled(s) then Submit(s) else s)
  {
    if ButtonEnabled(s) {
      var r := Submit(s);
      assert r.nickname == s.nickname && r.loading && r.pending == Some(Trim(s.nickname));
    }
  }

  lemma DeliverFacts(s: Setup)
    requires Reachable(s)
    ensures Reachable(Deliver(s).0)
    ensures var out := Deliver(s).1;
      out.Some? ==>
        && IsValidNickname(out.value)
        && Trim(out.value) == out.value
        && !IsSpace(out.value[0]) && !IsSpace(out.value[|out.value| - 1])
  {
    if s.pending.Some? {
      var n := s.pending.value;
      TrimIdempotent(s.nickname);
      TrimFacts(s.nickname);
      assert n == Trim(s.nickname) && Utf16Length(n) >= MinNicknameLength;
    }
  }

  /**
   * A press on an enabled button, then the end of the pause, creates a
   * profile under the trimmed nickname with empty records.
   */
  lemma SubmitCreatesProfile(s: Setup, st: UserProfile.Store, now: nat)
    requires Reachable(s) && ButtonEnabled(s)
    ensures var (s2, out) := Deliver(Submit(s));
      && out == Some(Trim(s.nickname))
      && !s2.loading && s2.nickname == s.nickname
      && var (st1, p) := UserProfile.CreateProfile(st, out.value, now);
         p.nickname == Trim(s.nickname) && st1.profile == Some(p) && p.badges == []
  {
  }
}
