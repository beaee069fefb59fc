/** The home page (Index): whether a focus session is on screen and which
    duration it was started with. The timer component is mounted exactly while
    the page is in focus. */
module Home {
  import opened Timer

  /** The three duration cards. */
  datatype DurationOption = Pomodoro | DeepWork | FlowState {
    function Minutes(): nat {
      match this
      case Pomodoro => 25
      case DeepWork => 45
      case FlowState => 90
    }
  }

  class IndexPage {
    var isInFocus: bool
    var selectedDuration: nat
    /** Page state that no handler ever sets. */
    const focusStreakDays: int
    const totalFocusTime: int
    const currentSession: int
    /** The mounted timer, rendered with `duration = selectedDuration`. */
    var timer: FocusTimer?

    ghost predicate Valid()
      reads this, timer
    {
      && (isInFocus <==> timer != null)
      && (timer != null ==> timer.Valid() && timer.totalTime == selectedDuration * 60)
    }

    constructor ()
      ensures Valid() && !isInFocus && selectedDuration == 25
      ensures focusStreakDays == 7 && totalFocusTime == 1847 && currentSession == 0
    {
      isInFocus := false;
      selectedDuration := 25;
      focusStreakDays := 7;
      totalFocusTime := 1847;
      currentSession := 0;
      timer := null;
    }

    /** "Start Focus Session": enters focus with the duration already chosen. */
    method StartFocus()
      requires Valid() && !isInFocus
      modifies this
      ensures Valid() && isInFocus && selectedDuration == old(selectedDuration)
      ensures fresh(timer) && timer.timeLeft == selectedDuration * 60 && timer.isRunning
      ensures !timer.showUnlockOptions && !timer.showTaskChallenge
    {
      isInFocus := true;
      timer := new FocusTimer(selectedDuration);
    }

    /** Clicking a duration card: remembers its duration and enters focus. */
    method PickDuration(option: DurationOption)
      requires Valid() && !isInFocus
      modifies this
      ensures Valid() && isInFocus && selectedDuration == option.Minutes()
      ensures fresh(timer) && timer.timeLeft == selectedDuration * 60 && timer.isRunning
      ensures !timer.showUnlockOptions && !timer.showTaskChallenge
    {
      selectedDuration := option.Minutes();
      isInFocus := true;
      timer := new FocusTimer(selectedDuration);
    }

    /** "End Session": leaves focus and unmounts the timer. */
    method EndSession()
      requires Valid() && isInFocus
      modifies this
      ensures Valid() && !isInFocus && selectedDuration == old(selectedDuration)
    {
      isInFocus := false;
      timer := null;
    }

    /** One second of the mounted timer; its `onComplete` leaves focus. */
    method TimerTick() returns (completed: bool)
      requires Valid() && isInFocus && timer != null && timer.isRunning
      modifies this, timer
      ensures Valid() && selectedDuration == old(selectedDuration)
      ensures completed <==> old(timer.timeLeft) <= 1
      ensures completed ==> !isInFocus
      ensures !completed ==> isInFocus && timer == old(timer) && timer.timeLeft == old(timer.timeLeft) - 1
      ensures !completed ==> timer.isRunning && timer.showUnlockOptions == old(timer.showUnlockOptions)
      ensures !completed ==> timer.showTaskChallenge == old(timer.showTaskChallenge) && timer.challenge == old(timer.challenge)
    {
      completed := timer.Tick();
      if completed {
        isInFocus := false;
        timer := null;
      }
    }

    /** The challenge's unlock button, through the timer's task-complete
        handler; the timer's `onEarlyExit` leaves focus. */
    method ChallengeUnlock()
      requires Valid() && isInFocus && timer != null && timer.showTaskChallenge
      requires timer.challenge != null && timer.challenge.UnlockShown()
      modifies this, timer
      ensures Valid() && !isInFocus && selectedDuration == old(selectedDuration)
    {
      timer.HandleTaskComplete();
      isInFocus := false;
      timer := null;
    }
  }
}
