# Focus Zen: a Dafny model of the focus session logic

Focus Zen is a mobile "digital wellbeing" app. Its home page lets the user
pick a focus duration. A countdown then runs, and it can be paused, resumed
or unlocked early. There are two unlock routes. The user can pay (not yet
implemented) or complete a short mindful challenge: breathing, gratitude,
intention or reflection. Around this sit a statistics dashboard, an
app-blocking panel and a device layer that records which apps are blocked.

This project models the logic of those parts in Dafny. Each source file is
one module:

- `timer.dfy` (`Timer`, from `FocusTimer.tsx`): the countdown updater and
  the `FocusTimer` class. The class has the fields `timeLeft`, `totalTime`,
  `isRunning`, `showUnlockOptions` and `showTaskChallenge`. Each of its
  methods is one event handler, and `Tick` is one firing of the one-second
  interval.
- `challenge.dfy` (`Challenge`, from `TaskChallenge.tsx`): the completion
  rules and the `TaskChallenge` class. Its handlers update the breath
  counter, the three gratitude slots, the shared free text and the sticky
  `challengeCompleted` flag.
- `home.dfy` (`Home`, from `pages/Index.tsx`): `isInFocus` and
  `selectedDuration`. The page mounts a fresh `FocusTimer` exactly while it
  is in focus. The timer's `onComplete` and `onEarlyExit` callbacks both
  leave focus.
- `devices.dfy` (`Devices`, from `utils/deviceManager.ts`): the blocking
  registry of `MobileDeviceManager`, the case-insensitive package match,
  the session-duration arithmetic and the outcome rules of the permission
  and device-information requests.
- `stats.dfy` (`Stats`, from `StatsOverview.tsx`): hours, days and the
  minute remainder, the achievement thresholds and the choice of insight.
- `blocker.dfy` (`Blocker`, from `AppBlocker.tsx`): the permission record
  and its badges, the grant button, the per-app blocked flags and the
  remaining-time line.
- `clock.dfy` (`Clock`): the `mm:ss` formatter. `FocusTimer.tsx` and
  `AppBlocker.tsx` each define it, identically.
- `text.dfy` (`Text`): the JavaScript string operations the code relies on
  (`trim`, `length`, `toLowerCase`, `includes`).
- `scenarios.dfy` (`Scenarios`): complete usage sequences checked against
  the components' contracts.

How the source's mechanics are represented:

- A handler can only be called while its control is on screen. So its
  `requires` is the source's render condition for that control. For
  example, "Pause" exists only while the timer runs and no challenge is
  shown, and "Breathe" is disabled from the tenth breath on.
- A React child that is mounted is an object. Unmounting it sets the
  reference to `null`, and mounting it again creates a fresh object.
  Cancelling a challenge therefore discards its progress.
- Platform calls are parameters. `Device.getInfo` and the notification
  plugin's permission request become `Option` parameters, with `None`
  meaning the call threw. Whether the start notification could be scheduled
  is a `bool`. `Date.now()` becomes a `now` parameter in milliseconds.

## Behaviour worth knowing

- "Pay to Unlock" hides the unlock options and resumes the countdown
  (`FocusTimer.tsx:66-71`).
- Cancelling the challenge resumes the countdown but leaves the unlock
  options open (`FocusTimer.tsx:77-80`).
- Nothing rejects a zero duration. A zero-minute timer starts at `00:00`
  and completes on its first tick (`Timer.RunTicksExact` with `left == 0`).
- "Resume Focus" appears whenever the timer is stopped, including while the
  unlock options are open (`FocusTimer.tsx:109-134`). After "Unlock Early"
  and "Resume", the challenge can be opened with the countdown running, and
  it keeps ticking while the challenge is shown
  (`Scenarios.CountdownDuringChallenge`).
- `challengeCompleted` and the breath counter survive "Choose Different"
  (`TaskChallenge.tsx:229-235`). Once any challenge has been met, the unlock
  button appears for every kind.
- `startAppBlocking` records the apps and the start time before its first
  call that can fail. A failed start notification therefore returns
  `false` with blocking already on (`deviceManager.ts:66-97`).

## Model

| member | source | states |
|---|---|---|
| `Text.Trim` | src/components/TaskChallenge.tsx:77 | `trim()` returns the slice `s[i..j]` left after removing a whitespace prefix `s[..i]` and a whitespace suffix `s[j..]`. The slice has no whitespace at either end, and it is empty exactly when the input is all whitespace (ECMAScript whitespace and line terminators). |
| `Text.TrimIgnoresPadding` | src/components/TaskChallenge.tsx:84 | Whitespace around a text does not change what it trims to. |
| `Text.Utf16Length` | src/components/TaskChallenge.tsx:84 | `length` counts UTF-16 code units: one for a single character inside the Basic Multilingual Plane and two for one outside it. The total lies between one and two units per character, and equals the character count for text inside the plane. |
| `Text.Utf16LengthAppend` | src/components/TaskChallenge.tsx:84 | Code units add over concatenation. Together with the single-character case this fixes the length of every string. |
| `Text.LowerChar` | src/utils/deviceManager.ts:168 | An ASCII capital maps to the letter 32 code points later, its lower-case form. Every other character is kept. |
| `Text.ToLower` | src/utils/deviceManager.ts:168 | `toLowerCase` keeps the length and maps each character by `LowerChar`. |
| `Text.ToLowerIdempotent` | src/utils/deviceManager.ts:168 | Lower-casing twice equals lower-casing once. |
| `Text.Includes` | src/utils/deviceManager.ts:168 | The position scan of `includes` is true exactly when the needle occurs at some index. |
| `Text.IncludesSelfAndEmpty` | src/utils/deviceManager.ts:168 | Every string includes itself and the empty string. |
| `Clock.NatToString` | src/components/FocusTimer.tsx:50 | `toString()` gives digits with no leading zero, one digit exactly below 10, and reads back as the number. |
| `Clock.Pad2` | src/components/FocusTimer.tsx:50 | `padStart(2, '0')` leaves strings of two or more characters alone. Otherwise it prefixes zeros up to length 2. |
| `Clock.FormatTime` | src/components/FocusTimer.tsx:47-51 | The text is minutes, ':' and two seconds digits. The fields read back as `s div 60` and `s mod 60` and the whole parses back to `s`. Below 100 minutes it is exactly 5 characters; a longer text does not start with '0', so the minutes field is the canonical decimal of `s div 60`, as `padStart(2, '0')` leaves three or more digits alone. |
| `Clock.FormatTimeInjective` | src/components/FocusTimer.tsx:47-51 | Two second counts display the same exactly when they are equal. |
| `Challenge.GratitudeSatisfiedIff` | src/components/TaskChallenge.tsx:77-79 | The gratitude rule holds exactly when every slot has a non-whitespace character. A blank or whitespace-only slot keeps it unmet. |
| `Challenge.ReflectionIgnoresPadding` | src/components/TaskChallenge.tsx:82-87 | Whitespace around the intention/reflection text does not count toward the 50-character minimum. |
| `Challenge.ReflectionThresholdBmp` | src/components/TaskChallenge.tsx:84 | For Basic Multilingual Plane text the rule is "trimmed character count ≥ 50": 49 is not enough, 50 is. |
| `Challenge.TaskChallenge.constructor` | src/components/TaskChallenge.tsx:23-27 | Mounting starts with no challenge chosen, the flag false, empty text, zero breaths and three empty slots. |
| `Challenge.TaskChallenge.UnlockShown` | src/components/TaskChallenge.tsx:237-245 | The unlock button is shown only when `challengeCompleted` holds. |
| `Challenge.TaskChallenge.SelectChallenge` | src/components/TaskChallenge.tsx:186 | A grid card sets the chosen kind and changes nothing else. |
| `Challenge.TaskChallenge.ChooseDifferent` | src/components/TaskChallenge.tsx:231 | Only the selection is reset to none. Progress and `challengeCompleted` are kept. |
| `Challenge.TaskChallenge.BreathingStep` | src/components/TaskChallenge.tsx:64-70 | The breath count goes up by exactly 1 and never past 10. The flag becomes true once the count reaches 10 and never turns false. The invariant is kept. |
| `Challenge.TaskChallenge.GratitudeChange` | src/components/TaskChallenge.tsx:72-80 | Only slot `index` changes and there are still three slots. The flag becomes true once all slots trim non-empty, and stays true. |
| `Challenge.TaskChallenge.ReflectionChange` | src/components/TaskChallenge.tsx:82-87 | The shared text is replaced. The flag becomes true once the trimmed length is at least 50, and stays true. |
| `Timer.TickUpdate` | src/components/FocusTimer.tsx:34-41 | A tick removes one second but never goes below zero, and signals completion exactly when it reaches zero. |
| `Timer.RunTicksExact` | src/components/FocusTimer.tsx:30-45 | An uninterrupted session of T seconds runs with T−n left after n < T ticks. After max(T,1) ticks it has stopped at 0, with completion signalled exactly once however many further seconds pass. |
| `Timer.FocusTimer.constructor` | src/components/FocusTimer.tsx:24-28 | Initially `timeLeft == totalTime == duration*60` and the timer is running. No options and no challenge are shown. |
| `Timer.FocusTimer.Tick` | src/components/FocusTimer.tsx:33-42 | A tick happens only while running and applies the updater. From ≥ 2 it decrements and keeps running. From ≤ 1 it sets 0, stops and calls `onComplete`. Only `timeLeft` and `isRunning` change, and `0 ≤ timeLeft ≤ totalTime` is kept. |
| `Timer.FocusTimer.Elapse` | src/components/FocusTimer.tsx:30-45 | Each second of the interval with no user action ends in the state `RunTicks` predicts, including the number of `onComplete` calls. |
| `Timer.FocusTimer.Pause` | src/components/FocusTimer.tsx:113 | Only `isRunning` changes, to false. |
| `Timer.FocusTimer.Resume` | src/components/FocusTimer.tsx:129 | Only `isRunning` changes, to true. Pause then resume leaves `timeLeft` as it was. |
| `Timer.FocusTimer.UnlockRequest` | src/components/FocusTimer.tsx:55-58 | The countdown stops and the unlock options are shown. Nothing else changes. |
| `Timer.FocusTimer.ChooseChallenge` | src/components/FocusTimer.tsx:152-155 | A fresh challenge is mounted and shown. The countdown and the options are untouched. |
| `Timer.FocusTimer.PaymentUnlock` | src/components/FocusTimer.tsx:66-71 | The options are hidden and the countdown resumes. Nothing else changes. |
| `Timer.FocusTimer.StayFocused` | src/components/FocusTimer.tsx:189-192 | The options are hidden and the countdown resumes. Nothing else changes. |
| `Timer.FocusTimer.HandleTaskComplete` | src/components/FocusTimer.tsx:60-64 | This needs a challenge whose unlock button is shown. It hides both the challenge and the options, and the caller then leaves early. |
| `Timer.FocusTimer.CancelChallenge` | src/components/FocusTimer.tsx:77-80 | The challenge is unmounted and hidden and the countdown resumes. `showUnlockOptions` stays set. |
| `Home.IndexPage.constructor` | src/pages/Index.tsx:13-17 | The page starts out of focus, with duration 25, streak 7, 1847 total minutes and session 0. The last three are never changed by any handler. |
| `Home.IndexPage.StartFocus` | src/pages/Index.tsx:45 | Enters focus without changing `selectedDuration`, and mounts a running timer of `selectedDuration*60` seconds. |
| `Home.IndexPage.PickDuration` | src/pages/Index.tsx:94-105 | `selectedDuration` becomes the card's 25, 45 or 90, then the page enters focus with a timer of that length. |
| `Home.IndexPage.EndSession` | src/pages/Index.tsx:58 | Leaves focus, unmounts the timer and keeps the duration. |
| `Home.IndexPage.TimerTick` | src/pages/Index.tsx:72-77 | The mounted timer ticks. When it completes, `onComplete` leaves focus. Otherwise the page stays in focus with one second less, and the timer keeps running with its options, challenge flag and challenge unchanged. The timer exists exactly while in focus, with `totalTime == selectedDuration*60`. |
| `Home.IndexPage.ChallengeUnlock` | src/pages/Index.tsx:76 | A completed challenge's unlock goes through the timer's task-complete handler, and `onEarlyExit` leaves focus. |
| `Devices.GetDeviceInfo` | src/utils/deviceManager.ts:23-39 | Returns what the device reports. If the query throws it returns platform web, version and model "unknown". |
| `Devices.RequestPermissions` | src/utils/deviceManager.ts:41-64 | The result is false if the notification request throws. On Android and iOS it is true exactly when notifications were granted, and on web (or an unknown device) it is true. |
| `Devices.MatchesAny` | src/utils/deviceManager.ts:167-169 | True exactly when some blocked name, lower-cased, is a substring of the lower-cased package name. |
| `Devices.MatchesAnyIgnoresCase` | src/utils/deviceManager.ts:168 | Lower-casing the package name first does not change the match. |
| `Devices.EmptyNameMatchesEverything` | src/utils/deviceManager.ts:167-169 | An empty name in the blocked list matches every package. |
| `Devices.MobileDeviceManager.constructor` | src/utils/deviceManager.ts:19-21 | Starts not blocking, with no apps and no session start. |
| `Devices.MobileDeviceManager.IsAppBlocked` | src/utils/deviceManager.ts:166-170 | Always false when not blocking. Otherwise true exactly when some blocked app name occurs case-insensitively in the package name. |
| `Devices.MobileDeviceManager.GetFocusSessionDuration` | src/utils/deviceManager.ts:172-175 | 0 with no session. Otherwise the floor of the elapsed milliseconds divided by 1000. |
| `Devices.MobileDeviceManager.StartAppBlocking` | src/utils/deviceManager.ts:66-97 | Sets `isBlocking`, `blockedApps == apps` and the session start to `now`, whether or not the notification succeeds. Returns whether it did. Each listed app is then blocked. |
| `Devices.MobileDeviceManager.StopAppBlocking` | src/utils/deviceManager.ts:99-103 | Clears blocking, the apps and the session start. No package is blocked afterwards. |
| `Stats.TotalHours` | src/components/StatsOverview.tsx:19 | `Math.floor(totalMinutes / 60)`: the largest h with `h*60 ≤ totalMinutes`. |
| `Stats.TotalDays` | src/components/StatsOverview.tsx:20 | The floor of hours over 24, which equals the floor of minutes over 1440. |
| `Stats.JsRemainder` | src/components/StatsOverview.tsx:36 | JavaScript `%`: for a non-negative dividend it is in `[0, b)` and recombines with the quotient. For a negative dividend it takes the dividend's sign. |
| `Stats.HoursAndMinutesRecombine` | src/components/StatsOverview.tsx:35-36 | For a non-negative total, `totalHours*60 + totalMinutes % 60 == totalMinutes` and the minutes are below 60. |
| `Stats.FocusMasterInMinutes` | src/components/StatsOverview.tsx:64 | "Focus Master" (100 hours) is earned exactly from 6000 minutes. |
| `Stats.EarnedMonotone` | src/components/StatsOverview.tsx:61-66 | A longer streak and more minutes never lose an achievement. "Zen Champion" implies "Week Warrior". |
| `Stats.Achievements` | src/components/StatsOverview.tsx:61-66 | The four achievements appear once each, with `earned` matching their rules: First Focus always, Week Warrior at streak ≥ 7, Focus Master at hours ≥ 100, Zen Champion at streak ≥ 30. |
| `Stats.SelectInsight` | src/components/StatsOverview.tsx:143-148 | The streak message is chosen exactly at streak ≥ 7. Otherwise the hours message is chosen exactly from 3000 minutes (50 hours). Otherwise the default message. |
| `Blocker.BadgeLabel` | src/components/AppBlocker.tsx:152 | A badge reads "Granted" exactly when the permission is held and "Required" exactly when it is not. |
| `Blocker.SocialApps` | src/components/AppBlocker.tsx:44-50 | Five apps in display order, each `blocked` exactly when the panel is active. |
| `Blocker.SocialAppsAreBlockedApps` | src/components/AppBlocker.tsx:30-50 | The five displayed apps are the same names as the initial `blockedApps` state, in another order. This is a fact about the two literal lists: the panel sets `blockedApps` and never reads it. |
| `Blocker.RemainingLabel` | src/components/AppBlocker.tsx:52-56 | A line exists exactly while active. It is `FormatTime(timeRemaining)`, the same formatter as the timer, so it parses back to `timeRemaining`. |
| `Blocker.AppBlocker.constructor` | src/components/AppBlocker.tsx:30-41 | Initially `deviceAdmin` and `accessibility` are false and `notifications` is true, so the grant button is shown. |
| `Blocker.AppBlocker.GrantButtonShown` | src/components/AppBlocker.tsx:171 | The button is shown exactly when one of the two badges reads "Required". |
| `Blocker.AppBlocker.RequestPermissions` | src/components/AppBlocker.tsx:58-76 | Sets `deviceAdmin` and `accessibility` and leaves `notifications` unchanged. Afterwards the button is gone. |
| `Scenarios.BreatheTimes` | src/components/TaskChallenge.tsx:64-70 | After n ≤ 10 presses of "Breathe", the unlock button is shown exactly when n is 10. |
| `Scenarios.UninterruptedPomodoro` | src/components/FocusTimer.tsx:30-45 | A 25-minute session left alone for 1500 seconds shows `00:00`, with `onComplete` called exactly once. |
| `Scenarios.PauseResumeTick` | src/components/FocusTimer.tsx:109-134 | Pause, resume and one tick leave 1499 of 1500 seconds. |
| `Scenarios.TwoPageTicks` | src/pages/Index.tsx:72-77 | Two ticks in a row through the page keep it in focus with 1498 of 1500 seconds left. |
| `Scenarios.EarlyExitByBreathing` | src/pages/Index.tsx:72-77 | Start, unlock request, breathing challenge, ten breaths and unlock leaves focus. |
| `Scenarios.CountdownDuringChallenge` | src/components/FocusTimer.tsx:109-134 | After unlock request, resume and choosing the challenge, a tick still decrements while the challenge is shown. |

## Left out

- Real time is not modelled. The interval's scheduling and cleanup, the
  `setTimeout` that stops blocking after the duration, and the one-second
  delay of the simulated permission grant are left out. A tick is an
  explicit call, and the grant is applied at once.
- Capacitor plugin calls are not modelled. `App.addListener` and
  `stopAppBlocking`'s `schedule` are left out. `Device.getInfo`,
  `LocalNotifications.requestPermissions` and the start `schedule` appear
  as outcome parameters. Notification titles,
  bodies and ids (including the `Math.random` id of
  `showBlockedAppNotification`) are left out. So are the app-state
  listener, which only logs, and console logging.
- `getAppUsageStats` is left out because it returns canned data.
- Percentage progress values are floating-point display values and are
  left out.
- JSX rendering, CSS classes, icons, copy strings and the hard-coded usage
  figures are left out. Only the state a control changes, and the condition
  under which it is shown, are modelled.
- The `alert` in the payment handler is left out. Only its state effect is
  kept.
- AppBlocker's `onToggle` switch only calls back into its parent, so it is
  left out.
- Index's setters for streak, total time and session are never called. The
  model makes those three values constants.
- Props are natural numbers: FocusTimer's `duration`, AppBlocker's
  `timeRemaining` and the timer's seconds. Fractional or negative inputs
  are not modelled, because no caller passes them.
- `Text.ToLower`: only ASCII letters are mapped. Non-ASCII letters are
  compared as written, whereas JavaScript's `toLowerCase` applies full
  Unicode case mapping.
- `Clock.NatToString`: models integers written in plain decimal. JavaScript
  switches to exponent notation from 10^21, far beyond any session length.
- `Devices.MobileDeviceManager.StartAppBlocking`: the `duration` argument is
  dropped. It only feeds the auto-stop timer and the notification text,
  both left out.
- `Devices.MobileDeviceManager.StopAppBlocking`: the awaited
  `LocalNotifications.schedule` call (`deviceManager.ts:104-113`) has no
  outcome parameter. If it rejects, the returned promise rejects after the
  fields are cleared. The model does not capture that rejection.
- `Devices.MobileDeviceManager.StartAppBlocking`: `this.blockedApps = apps`
  (`deviceManager.ts:69`) keeps a reference to the caller's array, so a
  later change to that array changes the blocked list. The model stores a
  `seq` value and does not capture this aliasing.
- React's double invocation of state updaters in development mode is not
  modelled.
