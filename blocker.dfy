/** The app-blocking panel (AppBlocker): the device-permission record and its
    badges, the grant button, the per-app blocked flags and the remaining-time
    line. `isActive` and `timeRemaining` are the panel's inputs. */
module Blocker {
  import opened Wrappers
  import opened Clock

  datatype Permissions = Permissions(deviceAdmin: bool, accessibility: bool, notifications: bool)

  datatype SocialApp = SocialApp(name: string, blocked: bool)

  /** The five apps listed by the panel, in display order. */
  const SocialAppNames: seq<string> := ["Instagram", "TikTok", "YouTube", "Twitter", "Facebook"]

  /** The panel's initial `blockedApps` state. */
  const InitialBlockedApps: seq<string> := ["Instagram", "TikTok", "Facebook", "Twitter", "YouTube"]

  /** A permission badge reads "Granted" exactly when the permission is held,
      and "Required" otherwise. */
  function BadgeLabel(granted: bool): (text: string)
    ensures text == "Granted" <==> granted
    ensures text == "Required" <==> !granted
  {
    if granted then "Granted" else "Required"
  }

  /** The listed apps: the five names, each blocked exactly when the panel
      is active. */
  function SocialApps(isActive: bool): (apps: seq<SocialApp>)
    ensures |apps| == |SocialAppNames|
    ensures forall i :: 0 <= i < |apps| ==> apps[i].name == SocialAppNames[i] && apps[i].blocked == isActive
  {
    seq(|SocialAppNames|, i requires 0 <= i < |SocialAppNames| => SocialApp(SocialAppNames[i], isActive))
  }

  /** The listed apps are the initial blocked apps, in another order. */
  lemma SocialAppsAreBlockedApps(isActive: bool)
    ensures (set i | 0 <= i < |SocialApps(isActive)| :: SocialApps(isActive)[i].name) == set a | a in InitialBlockedApps
  {
    var apps := SocialApps(isActive);
    assert apps[0].name == "Instagram" && apps[1].name == "TikTok" && apps[2].name == "YouTube";
    assert apps[3].name == "Twitter" && apps[4].name == "Facebook";
    assert InitialBlockedApps[2] == "Facebook" && InitialBlockedApps[4] == "YouTube";
  }

  /** The remaining-time line: `formatTime(timeRemaining)` while active, none
      otherwise; the shown time reads back as `timeRemaining`. */
  function RemainingLabel(isActive: bool, timeRemaining: nat): (line: Option<string>)
    ensures line.Some? <==> isActive
    ensures line.Some? ==> line.value == FormatTime(timeRemaining)
    ensures line.Some? ==> ParseTime(line.value) == Some(timeRemaining)
  {
    if isActive then Some(FormatTime(timeRemaining)) else None
  }

  class AppBlocker {
    var blockedApps: seq<string>
    var devicePermissions: Permissions

    constructor ()
      ensures blockedApps == InitialBlockedApps
      ensures devicePermissions == Permissions(false, false, true)
      ensures GrantButtonShown()
    {
      blockedApps := InitialBlockedApps;
      devicePermissions := Permissions(false, false, true);
    }

    /** "Grant Permissions" is shown while either permission is missing. */
    function GrantButtonShown(): (shown: bool)
      reads this
      ensures shown <==> BadgeLabel(devicePermissions.deviceAdmin) == "Required" || BadgeLabel(devicePermissions.accessibility) == "Required"
    {
      !devicePermissions.deviceAdmin || !devicePermissions.accessibility
    }

    /** `requestPermissions`, with the simulated grant applied at once: both
        permissions become held, notifications are left as they were, and the
        button disappears. */
    method RequestPermissions()
      requires GrantButtonShown()
      modifies this`devicePermissions
      ensures devicePermissions == old(devicePermissions).(deviceAdmin := true, accessibility := true)
      ensures devicePermissions.notifications == old(devicePermissions.notifications)
      ensures !GrantButtonShown()
    {
      devicePermissions := devicePermissions.(deviceAdmin := true, accessibility := true);
    }
  }
}
