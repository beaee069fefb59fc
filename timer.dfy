/** The focus-session countdown (FocusTimer): a one-second tick and the
    buttons of the timer screen, the unlock options and the challenge. */
module Timer {
  import opened Challenge

  /** What the countdown updater returns: the new remaining time and whether
      it has just signalled completion. */
  datatype TickResult = TickResult(next: nat, completed: bool)

  /** The updater applied to `timeLeft` once per second: one second less,
      stopping at zero, and completion is signalled exactly when zero is reached. */
  function TickUpdate(prev: nat): (r: TickResult)
    ensures r.next == if prev >= 1 then prev - 1 else 0
    ensures r.completed <==> r.next == 0
  {
    if prev <= 1 then TickResult(0, true) else TickResult(prev - 1, false)
  }

  /** The state of the countdown after some seconds without user action:
      remaining time, whether it still runs, and how often completion fired. */
  datatype Countdown = Countdown(left: nat, running: bool, completions: nat)

  /** `n` seconds of the interval, starting from a running timer; once the
      updater signals completion the timer stops and no further tick happens. */
  function RunTicks(left: nat, n: nat): Countdown {
    if n == 0 then Countdown(left, true, 0)
    else
      var r := TickUpdate(left);
      if r.completed then Countdown(r.next, false, 1) else RunTicks(r.next, n - 1)
  }

  /** An uninterrupted session of `left` seconds decrements by exactly one per
      second, is still running after fewer than `left` ticks, and after
      `left` ticks (at least one) has stopped at zero having signalled
      completion exactly once, however many more seconds pass. */
  lemma {:induction false} RunTicksExact(left: nat, n: nat)
    ensures n < left ==> RunTicks(left, n) == Countdown(left - n, true, 0)
    ensures n >= left && n >= 1 ==> RunTicks(left, n) == Countdown(0, false, 1)
  {
    if n > 0 && left >= 2 {
      RunTicksExact(left - 1, n - 1);
    }
  }

  class FocusTimer {
    var timeLeft: nat
    /** Set once from the duration; the source never updates it. */
    const totalTime: nat
    var isRunning: bool
    var showUnlockOptions: bool
    var showTaskChallenge: bool
    /** The challenge component, mounted exactly while it is shown. */
    var challenge: TaskChallenge?

    /** The remaining time stays within the session, and the challenge is
        only ever reached through the unlock options. */
    ghost predicate Valid()
      reads this
    {
      && timeLeft <= totalTime
      && (showTaskChallenge ==> showUnlockOptions)
      && (showTaskChallenge <==> challenge != null)
    }

    /** Mounting with a duration in minutes: the countdown starts at once. */
    constructor (duration: nat)
      ensures Valid()
      ensures timeLeft == totalTime == duration * 60
      ensures isRunning && !showUnlockOptions && !showTaskChallenge
    {
      timeLeft := duration * 60;
      totalTime := duration * 60;
      isRunning := true;
      showUnlockOptions := false;
      showTaskChallenge := false;
      challenge := null;
    }

    /** One firing of the one-second interval, which only exists while the
        timer runs. Returns whether `onComplete` was called. */
    method Tick() returns (completed: bool)
      requires Valid() && isRunning
      modifies this`timeLeft, this`isRunning
      ensures Valid()
      ensures TickUpdate(old(timeLeft)) == TickResult(timeLeft, completed)
      ensures isRunning <==> !completed
    {
      if timeLeft <= 1 {
        isRunning := false;
        completed := true;
        timeLeft := 0;
      } else {
        timeLeft := timeLeft - 1;
        completed := false;
      }
    }

    /** `seconds` firings of the interval with no user action in between.
        Returns how many times `onComplete` was called. */
    method Elapse(seconds: nat) returns (completions: nat)
      requires Valid() && isRunning
      modifies this`timeLeft, this`isRunning
      ensures Valid()
      ensures RunTicks(old(timeLeft), seconds) == Countdown(timeLeft, isRunning, completions)
    {
      completions := 0;
      var i := 0;
      while i < seconds && isRunning
        invariant Valid() && 0 <= i <= seconds
        invariant isRunning ==> completions == 0 && RunTicks(old(timeLeft), seconds) == RunTicks(timeLeft, seconds - i)
        invariant !isRunning ==> RunTicks(old(timeLeft), seconds) == Countdown(timeLeft, false, completions)
      {
        var done := Tick();
        if done {
          completions := completions + 1;
        }
        i := i + 1;
      }
    }

    /** "Pause": only stops the countdown. */
    method Pause()
      requires Valid() && !showTaskChallenge && isRunning
      modifies this`isRunning
      ensures Valid() && !isRunning
    {
      isRunning := false;
    }

    /** "Resume Focus": only restarts the countdown. It is on screen whenever
        the timer is stopped, also while the unlock options are shown. */
    method Resume()
      requires Valid() && !showTaskChallenge && !isRunning
      modifies this`isRunning
      ensures Valid() && isRunning
    {
      isRunning := true;
    }

    /** "Unlock Early": stops the countdown and shows the unlock options. */
    method UnlockRequest()
      requires Valid() && !showTaskChallenge && isRunning
      modifies this`isRunning, this`showUnlockOptions
      ensures Valid() && !isRunning && showUnlockOptions
    {
      isRunning := false;
      showUnlockOptions := true;
    }

    /** "Complete Challenge": mounts a fresh challenge; the countdown is left
        as it is. */
    method ChooseChallenge()
      requires Valid() && !showTaskChallenge && showUnlockOptions
      modifies this`showTaskChallenge, this`challenge
      ensures Valid() && showTaskChallenge
      ensures fresh(challenge) && challenge.Valid()
      ensures challenge.selectedChallenge.None? && !challenge.challengeCompleted
      ensures challenge.breathingCount == 0 && challenge.reflectionText == ""
      ensures challenge.gratitudeItems == ["", "", ""]
    {
      showTaskChallenge := true;
      challenge := new TaskChallenge();
    }

    /** "Pay to Unlock": the payment itself is not implemented; the options
        close and the countdown resumes. */
    method PaymentUnlock()
      requires Valid() && !showTaskChallenge && showUnlockOptions
      modifies this`showUnlockOptions, this`isRunning
      ensures Valid() && !showUnlockOptions && isRunning
    {
      showUnlockOptions := false;
      isRunning := true;
    }

    /** "Never mind, stay focused": the options close and the countdown resumes. */
    method StayFocused()
      requires Valid() && !showTaskChallenge && showUnlockOptions
      modifies this`showUnlockOptions, this`isRunning
      ensures Valid() && !showUnlockOptions && isRunning
    {
      showUnlockOptions := false;
      isRunning := true;
    }

    /** The challenge's "Unlock & Exit Focus", which exists only once the
        challenge is completed: hides the challenge and the options. The
        caller's `onEarlyExit` follows. */
    method HandleTaskComplete()
      requires Valid() && showTaskChallenge && challenge != null && challenge.UnlockShown()
      modifies this`showTaskChallenge, this`showUnlockOptions, this`challenge
      ensures Valid() && !showTaskChallenge && !showUnlockOptions
    {
      showTaskChallenge := false;
      showUnlockOptions := false;
      challenge := null;
    }

    /** The challenge's "Back to Focus", shown on its selection grid: unmounts
        the challenge (its progress is lost) and resumes the countdown, while
        the unlock options stay open. */
    method CancelChallenge()
      requires Valid() && showTaskChallenge && challenge != null && challenge.selectedChallenge.None?
      modifies this`showTaskChallenge, this`isRunning, this`challenge
      ensures Valid() && !showTaskChallenge && isRunning && showUnlockOptions
    {
      showTaskChallenge := false;
      isRunning := true;
      challenge := null;
    }
  }
}
