/** Whole usage sequences, verified against the components' contracts: what a
    user sees after a full session, a pause, or an early unlock. */
module Scenarios {
  import opened Wrappers
  import opened Challenge
  import opened Timer
  import opened Home
  import Clock

  /** A user opens the breathing challenge and presses "Breathe" `n` times:
      the unlock button appears on the tenth press and not before. */
  method BreatheTimes(n: nat) returns (unlockShown: bool)
    requires n <= BreathTarget
    ensures unlockShown <==> n == BreathTarget
  {
    var c := new TaskChallenge();
    c.SelectChallenge(Breathing);
    var i := 0;
    while i < n
      invariant 0 <= i <= n
      invariant c.Valid() && c.selectedChallenge == Some(Breathing)
      invariant c.breathingCount == i
      invariant c.challengeCompleted <==> i >= BreathTarget
    {
      c.BreathingStep();
      i := i + 1;
    }
    unlockShown := c.UnlockShown();
  }

  /** A 25-minute session left alone for 1500 seconds ends at 00:00, stopped,
      with `onComplete` called exactly once; one second earlier it still runs. */
  method UninterruptedPomodoro() returns (completions: nat, display: string)
    ensures completions == 1 && display == "00:00"
  {
    var t := new FocusTimer(25);
    RunTicksExact(1500, 1499);
    RunTicksExact(1500, 1500);
    completions := t.Elapse(1500);
    display := Clock.FormatTime(t.timeLeft);
  }

  /** Pause, resume, one tick: exactly one second is lost, the pause costs none. */
  method PauseResumeTick() returns (left: nat)
    ensures left == 1499
  {
    var t := new FocusTimer(25);
    t.Pause();
    t.Resume();
    var _ := t.Tick();
    left := t.timeLeft;
  }

  /** Two page-level ticks in a row: the page stays in focus with two
      seconds off the selected 25 minutes. */
  method TwoPageTicks() returns (inFocus: bool, left: nat)
    ensures inFocus && left == 1498
  {
    var page := new IndexPage();
    page.StartFocus();
    var _ := page.TimerTick();
    var _ := page.TimerTick();
    inFocus := page.isInFocus;
    left := page.timer.timeLeft;
  }

  /** Start a session, ask to unlock, take the breathing challenge, breathe
      ten times and unlock: the page leaves focus and unmounts the timer. */
  method EarlyExitByBreathing() returns (inFocus: bool)
    ensures !inFocus
  {
    var page := new IndexPage();
    page.StartFocus();
    var t := page.timer;
    t.UnlockRequest();
    t.ChooseChallenge();
    var c := t.challenge;
    c.SelectChallenge(Breathing);
    var i := 0;
    while i < BreathTarget
      invariant 0 <= i <= BreathTarget
      invariant c.Valid() && c.selectedChallenge == Some(Breathing) && c.breathingCount == i
      invariant i >= BreathTarget ==> c.challengeCompleted
      invariant page.Valid() && page.isInFocus && page.timer == t && t.challenge == c && t.showTaskChallenge
    {
      c.BreathingStep();
      i := i + 1;
    }
    page.ChallengeUnlock();
    inFocus := page.isInFocus;
  }

  /** "Resume Focus" stays on screen beside the unlock options, so the
      countdown can be running when the challenge is opened, and it keeps
      counting down while the challenge is shown. */
  method CountdownDuringChallenge() returns (left: nat, challengeShown: bool)
    ensures challengeShown && left == 1499
  {
    var t := new FocusTimer(25);
    t.UnlockRequest();
    t.Resume();
    assert t.timeLeft == 1500;
    t.ChooseChallenge();
    assert t.timeLeft == 1500 && t.isRunning;
    var _ := t.Tick();
    left := t.timeLeft;
    challengeShown := t.showTaskChallenge;
  }
}
