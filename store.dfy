/** The application-state store: the tracked-app catalogue, the settings
    record, the append-only usage log, the monitoring flag and the session in
    progress. Each action is a method that replaces one field; the getters
    are functions of the fields. The clock is a parameter: `now` for
    `Date.now()` and `todayStart` for the local midnight of today. */
module Store {
  import opened Types
  import opened Lists
  import opened Counting

  /** Seven days in milliseconds: the window of the weekly statistics. */
  const WeekMs: int := 7 * 24 * 60 * 60 * 1000

  const DefaultSettings: AppSettings := AppSettings(
    "Why are you opening this app?", 5, ["bored", "nothing", "waste time"], true, true, 0, 0)

  const DefaultTrackedApps: seq<TrackedApp> := [
    TrackedApp("com.facebook.katana", "Facebook", None, true, Social),
    TrackedApp("com.instagram.android", "Instagram", None, true, Social),
    TrackedApp("com.twitter.android", "Twitter", None, true, Social),
    TrackedApp("com.netflix.mediaclient", "Netflix", None, true, Entertainment)]

  // ---- the catalogue ----

  /** The callback of `toggleAppTracking`: flips `isEnabled` on an entry of package `p`. */
  function ToggleIf(p: string): TrackedApp -> TrackedApp {
    (app: TrackedApp) => if app.packageName == p then app.(isEnabled := !app.isEnabled) else app
  }

  /** The catalogue after `toggleAppTracking(p)`: same length and order, every
      entry unchanged except for `isEnabled`, which flips exactly on the
      entries of package `p`. */
  function Toggled(apps: seq<TrackedApp>, p: string): (r: seq<TrackedApp>)
    ensures |r| == |apps|
    ensures forall i :: 0 <= i < |apps| ==> r[i].(isEnabled := apps[i].isEnabled) == apps[i]
    ensures forall i :: 0 <= i < |apps| ==> (r[i].isEnabled != apps[i].isEnabled <==> apps[i].packageName == p)
  {
    MapSeq(ToggleIf(p), apps)
  }

  /** Toggling the same package twice restores the catalogue. */
  lemma ToggleTwice(apps: seq<TrackedApp>, p: string)
    ensures Toggled(Toggled(apps, p), p) == apps
  {
    var once := Toggled(apps, p);
    var twice := Toggled(once, p);
    forall i | 0 <= i < |apps| ensures twice[i] == apps[i] {
      assert once[i].packageName == apps[i].packageName;
    }
  }

  /** The callback of `removeTrackedApp`: keeps the entries of other packages. */
  function OtherPackage(p: string): TrackedApp -> bool {
    (app: TrackedApp) => app.packageName != p
  }

  /** The entries `removeTrackedApp(p)` drops and `getAppByPackage(p)` looks for. */
  function SamePackage(p: string): TrackedApp -> bool {
    (app: TrackedApp) => app.packageName == p
  }

  /** The callback `getEnabledApps` filters with. */
  predicate IsEnabled(app: TrackedApp) {
    app.isEnabled
  }

  /** `filter(app => app.isEnabled)`: exactly the enabled entries, in catalogue order. */
  function EnabledApps(apps: seq<TrackedApp>): (r: seq<TrackedApp>)
    ensures forall a :: a in r <==> a in apps && a.isEnabled
  {
    Filter(apps, IsEnabled)
  }

  /** The catalogue after `removeTrackedApp(p)`: exactly the entries of other
      packages remain. */
  function WithoutPackage(apps: seq<TrackedApp>, p: string): (r: seq<TrackedApp>)
    ensures forall a :: a in r <==> a in apps && a.packageName != p
  {
    Filter(apps, OtherPackage(p))
  }

  /** Removing a package twice is removing it once. */
  lemma RemoveIdempotent(apps: seq<TrackedApp>, p: string)
    ensures WithoutPackage(WithoutPackage(apps, p), p) == WithoutPackage(apps, p)
  {
    FilterIdempotent(apps, OtherPackage(p));
  }

  /** Removal keeps the relative order of what remains: it works part by part. */
  lemma RemoveKeepsOrder(a: seq<TrackedApp>, b: seq<TrackedApp>, p: string)
    ensures WithoutPackage(a + b, p) == WithoutPackage(a, p) + WithoutPackage(b, p)
  {
    FilterAppend(a, b, OtherPackage(p));
  }

  /** Removal drops exactly the entries of package `p`, however many there are. */
  lemma RemoveDropsExactly(apps: seq<TrackedApp>, p: string)
    ensures multiset(WithoutPackage(apps, p)) + multiset(Filter(apps, SamePackage(p))) == multiset(apps)
    ensures |WithoutPackage(apps, p)| + |Filter(apps, SamePackage(p))| == |apps|
  {
    FilterPartition(apps, OtherPackage(p), SamePackage(p));
  }

  // ---- the settings record ----

  /** A present patch field, or the stored value when the field is absent. */
  function PatchedValue<T>(field: Option<T>, stored: T): T {
    match field
    case Some(v) => v
    case None => stored
  }

  /** `{ ...settings, ...patch }`: every present field of the patch overwrites
      the stored one, every absent field keeps its value. */
  function Merge(s: AppSettings, patch: SettingsPatch): (r: AppSettings)
    ensures patch.promptText.Some? ==> r.promptText == patch.promptText.value
    ensures patch.promptText.None? ==> r.promptText == s.promptText
    ensures patch.delayTime.Some? ==> r.delayTime == patch.delayTime.value
    ensures patch.delayTime.None? ==> r.delayTime == s.delayTime
    ensures patch.blockKeywords.Some? ==> r.blockKeywords == patch.blockKeywords.value
    ensures patch.blockKeywords.None? ==> r.blockKeywords == s.blockKeywords
    ensures patch.enableMoodTracking.Some? ==> r.enableMoodTracking == patch.enableMoodTracking.value
    ensures patch.enableMoodTracking.None? ==> r.enableMoodTracking == s.enableMoodTracking
    ensures patch.enableInsights.Some? ==> r.enableInsights == patch.enableInsights.value
    ensures patch.enableInsights.None? ==> r.enableInsights == s.enableInsights
    ensures patch.mindfulnessScore.Some? ==> r.mindfulnessScore == patch.mindfulnessScore.value
    ensures patch.mindfulnessScore.None? ==> r.mindfulnessScore == s.mindfulnessScore
    ensures patch.streakDays.Some? ==> r.streakDays == patch.streakDays.value
    ensures patch.streakDays.None? ==> r.streakDays == s.streakDays
  {
    AppSettings(
      PatchedValue(patch.promptText, s.promptText),
      PatchedValue(patch.delayTime, s.delayTime),
      PatchedValue(patch.blockKeywords, s.blockKeywords),
      PatchedValue(patch.enableMoodTracking, s.enableMoodTracking),
      PatchedValue(patch.enableInsights, s.enableInsights),
      PatchedValue(patch.mindfulnessScore, s.mindfulnessScore),
      PatchedValue(patch.streakDays, s.streakDays))
  }

  /** The empty patch changes nothing. */
  lemma MergeEmpty(s: AppSettings)
    ensures Merge(s, EmptyPatch) == s
  {
  }

  /** Applying the same patch twice is applying it once. */
  lemma MergeIdempotent(s: AppSettings, patch: SettingsPatch)
    ensures Merge(Merge(s, patch), patch) == Merge(s, patch)
  {
  }

  // ---- the usage log ----

  /** The callback of the time-window filters: logs at or after `since`. */
  function LoggedSince(since: int): UsageLog -> bool {
    (log: UsageLog) => log.timestamp >= since
  }

  /** The callback that counts blocked sessions. */
  predicate WasBlocked(log: UsageLog) {
    log.wasBlocked
  }

  /** `getTodayLogs`: the logs at or after today's midnight, in log order. */
  function TodayLogs(logs: seq<UsageLog>, todayStart: int): (r: seq<UsageLog>)
    ensures forall l :: l in r <==> l in logs && l.timestamp >= todayStart
  {
    Filter(logs, LoggedSince(todayStart))
  }

  /** The logs of the last seven days, in log order. */
  function WeeklyLogs(logs: seq<UsageLog>, now: int): (r: seq<UsageLog>)
    ensures forall l :: l in r <==> l in logs && l.timestamp >= now - 604800000
  {
    Filter(logs, LoggedSince(now - WeekMs))
  }

  /** A log appended to the store shows up last in a time window that covers
      its timestamp, and nowhere otherwise; the earlier part of the window is unchanged. */
  lemma AppendedLogInWindow(logs: seq<UsageLog>, log: UsageLog, since: int)
    ensures Filter(logs + [log], LoggedSince(since))
      == Filter(logs, LoggedSince(since)) + (if log.timestamp >= since then [log] else [])
  {
    FilterAppend(logs, [log], LoggedSince(since));
  }

  /** `log.sessionDuration || 0`. */
  function DurationOrZero(log: UsageLog): int {
    match log.sessionDuration
    case None => 0
    case Some(d) => d
  }

  /** The `reduce` that sums the session durations.
      Session durations that are never negative sum to a total that is not negative. */
  function SessionTimeSum(logs: seq<UsageLog>): (r: int)
    ensures (forall i :: 0 <= i < |logs| ==> DurationOrZero(logs[i]) >= 0) ==> r >= 0
  {
    if logs == [] then 0 else SessionTimeSum(logs[..|logs| - 1]) + DurationOrZero(logs[|logs| - 1])
  }

  /** The sum over two runs of logs is the sum of their sums, so the total
      does not depend on how the log is split up. */
  lemma {:induction false} SessionTimeSumAppend(logs: seq<UsageLog>, more: seq<UsageLog>)
    ensures SessionTimeSum(logs + more) == SessionTimeSum(logs) + SessionTimeSum(more)
    decreases |more|
  {
    if more == [] {
      assert logs + more == logs;
    } else {
      var init := more[..|more| - 1];
      assert (logs + more)[..|logs + more| - 1] == logs + init;
      assert (logs + more)[|logs + more| - 1] == more[|more| - 1];
      SessionTimeSumAppend(logs, init);
    }
  }

  /** `count > 0 ? sum / count : 0`: the mean, which multiplied back by a
      positive count gives the sum. */
  function Mean(sum: int, count: nat): (m: real)
    ensures count > 0 ==> m * count as real == sum as real
    ensures count == 0 ==> m == 0.0
  {
    if count > 0 then sum as real / count as real else 0.0
  }

  /** `entries.sort(...)[0]?.[0] || 'None'`: the key of the first ranked
      entry, with 'None' for no entry and for the empty key. */
  function MostUsedLabel(ranked: seq<Entry>): (r: string)
    ensures ranked == [] ==> r == "None"
    ensures ranked != [] && ranked[0].key != "" ==> r == ranked[0].key
    ensures ranked != [] && ranked[0].key == "" ==> r == "None"
    ensures r != "None" ==> ranked != [] && r == ranked[0].key
    ensures r != ""
  {
    if ranked == [] || ranked[0].key == "" then "None" else ranked[0].key
  }

  /** The key at the head of a ranked tally is one of the counted keys and
      occurs at least as often as any other key. */
  lemma RankedHeadMaximal(keys: seq<string>)
    requires keys != []
    ensures Ranked(Tally(keys)) != []
    ensures Ranked(Tally(keys))[0].key in keys
    ensures forall k :: Occurrences(keys, k) <= Occurrences(keys, Ranked(Tally(keys))[0].key)
  {
    var t := Tally(keys);
    var r := Ranked(t);
    TallySpec(keys);
    TallyEntries(keys);
    RankedSpec(keys);
    assert keys[0] in keys;
    assert HasKey(r, keys[0]);
    forall k ensures Occurrences(keys, k) <= Occurrences(keys, r[0].key) {
      if k in keys {
        var i :| 0 <= i < |r| && r[i].key == k;
      } else {
        OccurrencesPositive(keys, k);
      }
    }
  }

  /** The label of the weekly statistics is 'None' when no reason was given,
      never the empty string (an empty winning reason shows as 'None'), and
      otherwise either 'None' or a reason given at least as often as any
      other; when no reason is an array index, a tie goes to the reason logged first. */
  lemma MostUsedLabelSpec(reasons: seq<string>)
    ensures reasons == [] ==> MostUsedLabel(Ranked(Tally(reasons))) == "None"
    ensures MostUsedLabel(Ranked(Tally(reasons))) != ""
    ensures var top := MostUsedLabel(Ranked(Tally(reasons)));
      top != "None" ==> top in reasons && forall k :: Occurrences(reasons, k) <= Occurrences(reasons, top)
    ensures var top := MostUsedLabel(Ranked(Tally(reasons)));
      top != "None" && (forall k :: k in reasons ==> !IsArrayIndex(k)) ==>
        forall k :: k in reasons && Occurrences(reasons, k) == Occurrences(reasons, top) ==>
          FirstIndex(reasons, top) <= FirstIndex(reasons, k)
  {
    if reasons != [] {
      RankedHeadMaximal(reasons);
      if forall k :: k in reasons ==> !IsArrayIndex(k) {
        RankedHeadFirstSeen(reasons);
      }
    }
  }

  /** The store. `set` becomes assignment to the fields an action names. */
  class AppStore {
    var trackedApps: seq<TrackedApp>
    var settings: AppSettings
    var usageLogs: seq<UsageLog>
    var isMonitoring: bool
    var currentSession: Option<Session>

    /** The initial state: the four default apps, the default settings, no
        logs, not monitoring, no session. */
    constructor ()
      ensures trackedApps == DefaultTrackedApps && settings == DefaultSettings
      ensures usageLogs == [] && !isMonitoring && currentSession == None
      ensures LogsStamped()
    {
      trackedApps := DefaultTrackedApps;
      settings := DefaultSettings;
      usageLogs := [];
      isMonitoring := false;
      currentSession := None;
    }

    /** Every stored log carries an id. */
    predicate LogsStamped()
      reads this
    {
      AllStamped(usageLogs)
    }

    method SetTrackedApps(apps: seq<TrackedApp>)
      modifies this`trackedApps
      ensures trackedApps == apps
    {
      trackedApps := apps;
    }

    method ToggleAppTracking(p: string)
      modifies this`trackedApps
      ensures trackedApps == Toggled(old(trackedApps), p)
    {
      trackedApps := Toggled(trackedApps, p);
    }

    /** Appends with no check for an entry of the same package. */
    method AddTrackedApp(app: TrackedApp)
      modifies this`trackedApps
      ensures trackedApps == old(trackedApps) + [app]
      ensures |trackedApps| == |old(trackedApps)| + 1 && trackedApps[|trackedApps| - 1] == app
      ensures trackedApps[..|old(trackedApps)|] == old(trackedApps)
    {
      trackedApps := trackedApps + [app];
    }

    method RemoveTrackedApp(p: string)
      modifies this`trackedApps
      ensures trackedApps == WithoutPackage(old(trackedApps), p)
    {
      trackedApps := WithoutPackage(trackedApps, p);
    }

    method SetSettings(patch: SettingsPatch)
      modifies this`settings
      ensures settings == Merge(old(settings), patch)
    {
      settings := Merge(settings, patch);
    }

    method UpdateMindfulnessScore(score: int)
      modifies this`settings
      ensures settings == old(settings).(mindfulnessScore := score)
    {
      settings := settings.(mindfulnessScore := score);
    }

    method IncrementStreak()
      modifies this`settings
      ensures settings == old(settings).(streakDays := old(settings).streakDays + 1)
    {
      settings := settings.(streakDays := settings.streakDays + 1);
    }

    method ResetStreak()
      modifies this`settings
      ensures settings == old(settings).(streakDays := 0)
    {
      settings := settings.(streakDays := 0);
    }

    /** Stores `log` with the clock value `now` as its id. */
    method AddUsageLog(log: UsageLog, now: int)
      modifies this`usageLogs
      ensures usageLogs == old(usageLogs) + [log.(id := Some(now))]
      ensures old(LogsStamped()) ==> LogsStamped()
    {
      usageLogs := usageLogs + [log.(id := Some(now))];
    }

    method ClearUsageLogs()
      modifies this`usageLogs
      ensures usageLogs == [] && LogsStamped()
    {
      usageLogs := [];
    }

    method SetMonitoring(monitoring: bool)
      modifies this`isMonitoring
      ensures isMonitoring == monitoring
    {
      isMonitoring := monitoring;
    }

    method SetCurrentSession(session: Option<Session>)
      modifies this`currentSession
      ensures currentSession == session
    {
      currentSession := session;
    }

    /** `getEnabledApps`: exactly the enabled entries, in catalogue order. */
    function GetEnabledApps(): (r: seq<TrackedApp>)
      reads this
      ensures forall a :: a in r <==> a in trackedApps && a.isEnabled
    {
      EnabledApps(trackedApps)
    }

    /** `getAppByPackage`: the first entry of package `p`, or none when the
        catalogue has no entry of that package. */
    function GetAppByPackage(p: string): (r: Option<TrackedApp>)
      reads this
      ensures r.None? <==> forall i :: 0 <= i < |trackedApps| ==> trackedApps[i].packageName != p
      ensures r.Some? ==> exists i :: (0 <= i < |trackedApps| && trackedApps[i] == r.value
        && r.value.packageName == p && forall j :: 0 <= j < i ==> trackedApps[j].packageName != p)
    {
      Find(trackedApps, SamePackage(p))
    }

    function GetTodayLogs(todayStart: int): (r: seq<UsageLog>)
      reads this
      ensures forall l :: l in r <==> l in usageLogs && l.timestamp >= todayStart
    {
      TodayLogs(usageLogs, todayStart)
    }

    /** `getWeeklyStats`: over the logs of the last seven days, the number of
        sessions, how many were blocked, the mean session time and the reason
        given most often ('None' when there is none or it is the empty string). */
    method GetWeeklyStats(now: int) returns (totalSessions: nat, blockedSessions: nat,
                                             averageSessionTime: real, mostUsedReason: string)
      ensures var weekly := WeeklyLogs(usageLogs, now);
        && totalSessions == |weekly|
        && blockedSessions == |Filter(weekly, WasBlocked)|
        && averageSessionTime == Mean(SessionTimeSum(weekly), totalSessions)
        && mostUsedReason == MostUsedLabel(Ranked(Tally(KeysOf(weekly, ReasonField))))
      ensures blockedSessions <= totalSessions
      ensures totalSessions == 0 ==> blockedSessions == 0 && averageSessionTime == 0.0 && mostUsedReason == "None"
      ensures mostUsedReason != ""
      ensures var reasons := KeysOf(WeeklyLogs(usageLogs, now), ReasonField);
        mostUsedReason != "None" ==>
          mostUsedReason in reasons && forall k :: Occurrences(reasons, k) <= Occurrences(reasons, mostUsedReason)
      ensures var reasons := KeysOf(WeeklyLogs(usageLogs, now), ReasonField);
        mostUsedReason != "None" && (forall k :: k in reasons ==> !IsArrayIndex(k)) ==>
          forall k :: k in reasons && Occurrences(reasons, k) == Occurrences(reasons, mostUsedReason) ==>
            FirstIndex(reasons, mostUsedReason) <= FirstIndex(reasons, k)
    {
      var weekly := WeeklyLogs(usageLogs, now);
      totalSessions := |weekly|;
      blockedSessions := |Filter(weekly, WasBlocked)|;
      averageSessionTime := Mean(SessionTimeSum(weekly), totalSessions);
      var reasonCounts := CountBy(weekly, ReasonField);
      mostUsedReason := MostUsedLabel(Ranked(reasonCounts));
      MostUsedLabelSpec(KeysOf(weekly, ReasonField));
    }
  }
}
