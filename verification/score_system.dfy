/**
 * The per-game score hook: a countdown timer, the points of the current
 * answer, the running total of a session and the best total ever saved for
 * the game mode. Every update of the hook is a pure transition on
 * `ScoreState`; the wall clock is the parameter `now` (milliseconds) and
 * the saved best score is the text stored under the mode's key.
 */
module ScoreSystem {
  import opened Wrappers
  import Text

  /** Points for a correct answer, whatever the time left. */
  const PointsPerCorrect := 100

  /** The countdown length when the game passes none, in seconds. */
  const DefaultMaxTime := 10

  /**
   * The hook's state. `timeLeftMs` is the displayed seconds times 1000, exact
   * because the clock counts whole milliseconds; `bestScore` is `None` when
   * the stored text did not parse (JavaScript's NaN).
   */
  datatype ScoreState = ScoreState(
    maxTime: nat,
    startTime: Option<int>,
    timeLeftMs: int,
    currentScore: int,
    totalScore: int,
    bestScore: Option<int>,
    isActive: bool,
    isNewRecord: bool)

  function MaxTimeMs(s: ScoreState): nat {
    s.maxTime * 1000
  }

  /**
   * The best score read from the stored text: absent or empty text reads as
   * 0, anything else goes through `parseInt`.
   */
  function GetBestScore(saved: Option<string>): (r: Option<int>)
    ensures saved.None? || saved.value == "" ==> r == Some(0)
    ensures saved.Some? && saved.value != "" ==> r == Text.ParseInt(saved.value)
    ensures forall n :: saved == Some(Text.IntToString(n)) ==> r == Some(n)
  {
    Text.IntStringRoundTripAll();
    if saved.Some? && saved.value != "" then Text.ParseInt(saved.value) else Some(0)
  }

  /** The state when a game screen mounts the hook. */
  function Init(maxTime: nat, saved: Option<string>): (s: ScoreState)
    ensures s.maxTime == maxTime && s.timeLeftMs == maxTime * 1000
    ensures s.startTime.None? && !s.isActive && !s.isNewRecord
    ensures s.currentScore == 0 && s.totalScore == 0
    ensures s.bestScore == GetBestScore(saved)
  {
    ScoreState(maxTime, None, maxTime * 1000, 0, 0, GetBestScore(saved), false, false)
  }

  /** Starts the countdown at `now` with the full time. */
  function StartTimer(s: ScoreState, now: int): (r: ScoreState)
    ensures r.isActive && r.startTime == Some(now) && r.timeLeftMs == MaxTimeMs(s)
    ensures r.currentScore == s.currentScore && r.totalScore == s.totalScore
    ensures r.bestScore == s.bestScore && r.isNewRecord == s.isNewRecord && r.maxTime == s.maxTime
  {
    s.(startTime := Some(now), timeLeftMs := MaxTimeMs(s), isActive := true)
  }

  /** Stops the countdown, leaving the time shown as it was. */
  function StopTimer(s: ScoreState): (r: ScoreState)
    ensures !r.isActive && r.startTime.None?
    ensures r.timeLeftMs == s.timeLeftMs && r.currentScore == s.currentScore
    ensures r.totalScore == s.totalScore && r.bestScore == s.bestScore
    ensures r.isNewRecord == s.isNewRecord && r.maxTime == s.maxTime
  {
    s.(startTime := None, isActive := false)
  }

  /**
   * A correct answer scores a fixed 100 and deactivates the timer. It is not
   * gated on the timer being active: an answer after time-out still counts.
   */
  function HandleCorrectAnswer(s: ScoreState): (r: (ScoreState, int))
    ensures r.1 == PointsPerCorrect
    ensures r.0.currentScore == PointsPerCorrect && r.0.totalScore == s.totalScore + PointsPerCorrect
    ensures !r.0.isActive && r.0.startTime == s.startTime && r.0.timeLeftMs == s.timeLeftMs
    ensures r.0.bestScore == s.bestScore && r.0.isNewRecord == s.isNewRecord && r.0.maxTime == s.maxTime
  {
    (s.(currentScore := PointsPerCorrect, totalScore := s.totalScore + PointsPerCorrect,
        isActive := false), PointsPerCorrect)
  }

  /** A wrong answer scores 0, keeps the total and deactivates the timer. */
  function HandleWrongAnswer(s: ScoreState): (r: (ScoreState, int))
    ensures r.1 == 0 && r.0.currentScore == 0 && r.0.totalScore == s.totalScore
    ensures !r.0.isActive && r.0.startTime == s.startTime && r.0.timeLeftMs == s.timeLeftMs
    ensures r.0.bestScore == s.bestScore && r.0.isNewRecord == s.isNewRecord && r.0.maxTime == s.maxTime
  {
    (s.(currentScore := 0, isActive := false), 0)
  }

  /** `finalScore > bestScore`, false when the best score is NaN. */
  predicate Beats(finalScore: int, best: Option<int>) {
    best.Some? && finalScore > best.value
  }

  /**
   * Ends a round with `finalScore`: a new record becomes the best score and
   * its decimal text is what gets stored (third component); otherwise nothing
   * is stored and the record flag is cleared.
   */
  function CompleteRound(s: ScoreState, finalScore: int): (r: (ScoreState, bool, Option<string>))
    ensures r.1 <==> Beats(finalScore, s.bestScore)
    ensures r.0.isNewRecord == r.1
    ensures r.1 ==> r.0.bestScore == Some(finalScore) && r.2 == Some(Text.IntToString(finalScore))
    ensures !r.1 ==> r.0.bestScore == s.bestScore && r.2.None?
    ensures r.0 == s.(bestScore := r.0.bestScore, isNewRecord := r.1)
  {
    if Beats(finalScore, s.bestScore) then
      (s.(bestScore := Some(finalScore), isNewRecord := true), true, Some(Text.IntToString(finalScore)))
    else
      (s.(isNewRecord := false), false, None)
  }

  /** Back to a fresh game; only the best score survives. */
  function ResetGame(s: ScoreState): (r: ScoreState)
    ensures r == Init(s.maxTime, None).(bestScore := s.bestScore)
  {
    s.(currentScore := 0, totalScore := 0, timeLeftMs := MaxTimeMs(s), isActive := false,
       startTime := None, isNewRecord := false)
  }

  /** Back to the start of a round; the total and the record flag survive. */
  function ResetRound(s: ScoreState): (r: ScoreState)
    ensures r.currentScore == 0 && r.timeLeftMs == MaxTimeMs(s) && !r.isActive && r.startTime.None?
    ensures r.totalScore == s.totalScore && r.bestScore == s.bestScore
    ensures r.isNewRecord == s.isNewRecord && r.maxTime == s.maxTime
  {
    s.(currentScore := 0, timeLeftMs := MaxTimeMs(s), isActive := false, startTime := None)
  }

  /** Whether the countdown interval is running: active, with a truthy start time. */
  predicate Ticking(s: ScoreState) {
    s.isActive && s.startTime.Some? && s.startTime.value != 0
  }

  /**
   * One firing of the 100 ms interval at time `now`: the time left is the full
   * time less the elapsed time, never below 0; reaching 0 deactivates the
   * timer and zeroes the current score. Without a running interval nothing
   * happens.
   */
  function Tick(s: ScoreState, now: int): (r: ScoreState)
    ensures !Ticking(s) ==> r == s
    ensures Ticking(s) ==>
      var remaining := MaxTimeMs(s) - (now - s.startTime.value);
      && r.timeLeftMs == (if remaining > 0 then remaining else 0)
      && (remaining <= 0 ==> !r.isActive && r.currentScore == 0)
      && (remaining > 0 ==> r.isActive && r.currentScore == s.currentScore)
      && r.totalScore == s.totalScore && r.bestScore == s.bestScore
      && r.startTime == s.startTime && r.isNewRecord == s.isNewRecord && r.maxTime == s.maxTime
  {
    if !Ticking(s) then s
    else
      var elapsed := now - s.startTime.value;
      var remaining := if MaxTimeMs(s) - elapsed > 0 then MaxTimeMs(s) - elapsed else 0;
      if remaining <= 0 then s.(timeLeftMs := remaining, isActive := false, currentScore := 0)
      else s.(timeLeftMs := remaining)
  }

  /**
   * The hook's invariant: the total is a whole number of correct answers, the
   * current score is 0 or 100, the time left lies within the countdown, and
   * an active timer has a start time.
   */
  predicate Valid(s: ScoreState) {
    && s.totalScore >= 0 && s.totalScore % PointsPerCorrect == 0
    && (s.currentScore == 0 || s.currentScore == PointsPerCorrect)
    && 0 <= s.timeLeftMs <= MaxTimeMs(s)
    && (s.isActive ==> s.startTime.Some?)
  }

  /** The events a game screen sends to the hook. */
  datatype Event =
    | Start(now: int)
    | Stop
    | Correct
    | Wrong
    | Complete(finalScore: int)
    | NewGame
    | NewRound
    | TickAt(now: int)

  function Step(s: ScoreState, e: Event): ScoreState {
    match e
    case Start(now) => StartTimer(s, now)
    case Stop => StopTimer(s)
    case Correct => HandleCorrectAnswer(s).0
    case Wrong => HandleWrongAnswer(s).0
    case Complete(f) => CompleteRound(s, f).0
    case NewGame => ResetGame(s)
    case NewRound => ResetRound(s)
    case TickAt(now) => Tick(s, now)
  }

  function Run(s: ScoreState, es: seq<Event>): ScoreState
    decreases |es|
  {
    if |es| == 0 then s else Run(Step(s, es[0]), es[1..])
  }

  /** A tick never happens before the countdown it measures started. */
  predicate ClockOk(s: ScoreState, e: Event) {
    e.TickAt? && s.startTime.Some? ==> e.now >= s.startTime.value
  }

  predicate ClockOkRun(s: ScoreState, es: seq<Event>)
    decreases |es|
  {
    |es| == 0 || (ClockOk(s, es[0]) && ClockOkRun(Step(s, es[0]), es[1..]))
  }

  /** Every event keeps the invariant, provided the clock does not run backwards. */
  lemma StepValid(s: ScoreState, e: Event)
    requires Valid(s) && ClockOk(s, e)
    ensures Valid(Step(s, e))
  {
  }

  lemma {:induction false} RunValid(s: ScoreState, es: seq<Event>)
    requires Valid(s) && ClockOkRun(s, es)
    ensures Valid(Run(s, es))
    decreases |es|
  {
    if |es| > 0 {
      StepValid(s, es[0]);
      RunValid(Step(s, es[0]), es[1..]);
    }
  }

  /** Counts the correct answers of a sequence of events. */
  function Corrects(es: seq<Event>): nat
    decreases |es|
  {
    if |es| == 0 then 0 else (if es[0].Correct? then 1 else 0) + Corrects(es[1..])
  }

  /** Within a game (no reset), the total is 100 per correct answer and nothing else. */
  lemma {:induction false} TotalCountsCorrectAnswers(s: ScoreState, es: seq<Event>)
    requires forall k :: 0 <= k < |es| ==> !es[k].NewGame?
    ensures Run(s, es).totalScore == s.totalScore + PointsPerCorrect * Corrects(es)
    decreases |es|
  {
    if |es| > 0 {
      TotalCountsCorrectAnswers(Step(s, es[0]), es[1..]);
    }
  }

  /** The best score never goes down, and a stored record reads back as the new best. */
  lemma CompleteRoundRecord(s: ScoreState, finalScore: int)
    ensures var r := CompleteRound(s, finalScore);
      && (s.bestScore.Some? ==> r.0.bestScore.Some? && r.0.bestScore.value >= s.bestScore.value)
      && (r.2.Some? ==> GetBestScore(r.2) == r.0.bestScore)
  {
    var r := CompleteRound(s, finalScore);
    if r.1 {
      Text.IntStringRoundTrip(finalScore);
    }
  }

  /**
   * A countdown started at `t0` is still running, with time left, at any tick
   * before `maxTime` seconds have passed, and is over, with the current score
   * zeroed, at any tick from then on.
   */
  lemma TimeUp(s: ScoreState, t0: int, now: int)
    requires t0 != 0 && now >= t0
    ensures var r := Tick(StartTimer(s, t0), now);
      && (now - t0 < MaxTimeMs(s) ==> r.isActive && r.timeLeftMs == MaxTimeMs(s) - (now - t0) > 0)
      && (now - t0 >= MaxTimeMs(s) ==> !r.isActive && r.timeLeftMs == 0 && r.currentScore == 0)
  {
  }

  /** After time-out a correct answer still scores: the hook does not check the timer. */
  lemma CorrectAfterTimeUp(s: ScoreState, t0: int)
    requires t0 != 0
    ensures var late := Tick(StartTimer(s, t0), t0 + MaxTimeMs(s));
      && !late.isActive
      && HandleCorrectAnswer(late).0.totalScore == s.totalScore + PointsPerCorrect
  {
  }
}
