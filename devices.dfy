/** The device layer (MobileDeviceManager): which apps are being blocked, when
    the session started, and the outcome rules of the permission and
    device-information requests. Platform calls appear as their outcomes
    (`None` when the call throws) and the clock as a `now` in milliseconds. */
module Devices {
  import opened Wrappers
  import opened Text

  datatype Platform = Ios | Android | Web

  datatype DeviceInfo = DeviceInfo(platform: Platform, version: string, model: string)

  /** The display permission state that the notification plugin reports. */
  datatype PermissionState = Granted | Denied | Prompt | PromptWithRationale

  /** `getDeviceInfo`: what the device reports, or a web device of unknown
      version and model when the query throws. */
  function GetDeviceInfo(reported: Option<DeviceInfo>): (info: DeviceInfo)
    ensures reported.Some? ==> info == reported.value
    ensures reported.None? ==> info == DeviceInfo(Web, "unknown", "unknown")
  {
    match reported
    case Some(d) => d
    case None => DeviceInfo(Web, "unknown", "unknown")
  }

  /** `requestPermissions`: false when the notification request throws; on
      Android and iOS, whether notifications were granted; otherwise true. */
  function RequestPermissions(reported: Option<DeviceInfo>, notification: Option<PermissionState>): (granted: bool)
    ensures notification.None? ==> !granted
    ensures notification == Some(Granted) ==> granted
    ensures granted <==> notification.Some? && (notification.value == Granted || GetDeviceInfo(reported).platform == Web)
    ensures reported.None? ==> (granted <==> notification.Some?)
  {
    match notification
    case None => false
    case Some(display) =>
      var platform := GetDeviceInfo(reported).platform;
      if platform == Android then display == Granted
      else if platform == Ios then display == Granted
      else assert platform == Web; true
  }

  /** Some blocked app name, lower-cased, occurs in the lower-cased package
      name (`blockedApps.some(...)`). */
  function MatchesAny(packageName: string, apps: seq<string>): (r: bool)
    ensures r <==> exists j :: 0 <= j < |apps| && Includes(ToLower(packageName), ToLower(apps[j]))
  {
    if apps == [] then false
    else Includes(ToLower(packageName), ToLower(apps[0])) || MatchesAny(packageName, apps[1..])
  }

  /** Matching ignores the letter case of the package name. */
  lemma MatchesAnyIgnoresCase(packageName: string, apps: seq<string>)
    ensures MatchesAny(ToLower(packageName), apps) == MatchesAny(packageName, apps)
  {
    ToLowerIdempotent(packageName);
  }

  /** An empty app name blocks every package, since every string includes "". */
  lemma EmptyNameMatchesEverything(packageName: string, apps: seq<string>)
    requires "" in apps
    ensures MatchesAny(packageName, apps)
  {
    var j :| 0 <= j < |apps| && apps[j] == "";
    IncludesSelfAndEmpty(ToLower(packageName));
    assert ToLower(apps[j]) == "";
  }

  class MobileDeviceManager {
    var isBlocking: bool
    var blockedApps: seq<string>
    /** The start of the blocking session, in milliseconds. */
    var focusSessionStart: Option<int>

    constructor ()
      ensures !isBlocking && blockedApps == [] && focusSessionStart == None
    {
      isBlocking := false;
      blockedApps := [];
      focusSessionStart := None;
    }

    /** `isAppBlocked`: only while blocking, and then when the package name
        contains one of the blocked app names, both lower-cased. */
    function IsAppBlocked(packageName: string): (blocked: bool)
      reads this
      ensures !isBlocking ==> !blocked
      ensures blocked <==> isBlocking && exists j :: 0 <= j < |blockedApps| && Includes(ToLower(packageName), ToLower(blockedApps[j]))
    {
      isBlocking && MatchesAny(packageName, blockedApps)
    }

    /** `getFocusSessionDuration`: whole seconds since the start (rounded
        down, as `Math.floor` does), or 0 without a session. */
    function GetFocusSessionDuration(now: int): (seconds: int)
      reads this
      ensures focusSessionStart.None? ==> seconds == 0
      ensures focusSessionStart.Some? ==>
        seconds * 1000 <= now - focusSessionStart.value < seconds * 1000 + 1000
    {
      match focusSessionStart
      case None => 0
      case Some(start) => (now - start) / 1000
    }

    /** `startAppBlocking`: records the apps and the start time before any
        call that can fail, so the state is set whether or not the start
        notification is scheduled; the result is whether it was. */
    method StartAppBlocking(apps: seq<string>, now: int, notificationScheduled: bool) returns (ok: bool)
      modifies this
      ensures isBlocking && blockedApps == apps && focusSessionStart == Some(now)
      ensures ok == notificationScheduled
      ensures forall j :: 0 <= j < |apps| ==> IsAppBlocked(apps[j])
    {
      isBlocking := true;
      blockedApps := apps;
      focusSessionStart := Some(now);
      forall j | 0 <= j < |apps| ensures IsAppBlocked(apps[j]) {
        IncludesSelfAndEmpty(ToLower(apps[j]));
      }
      ok := notificationScheduled;
    }

    /** `stopAppBlocking`: forgets the apps and the session; afterwards no
        package is blocked. */
    method StopAppBlocking()
      modifies this
      ensures !isBlocking && blockedApps == [] && focusSessionStart == None
      ensures forall p :: !IsAppBlocked(p)
    {
      isBlocking := false;
      blockedApps := [];
      focusSessionStart := None;
    }
  }
}
