/** The insights screen: the two top-five frequency tables, the duration
    format, the block rate and the "Recent Activity" list, all computed from
    the store's usage log and weekly statistics. */
module Insights {
  import opened Types
  import opened Lists
  import opened Counting

  /** Rows kept in each frequency table. */
  const TableSize: nat := 5

  /** Logs listed under "Recent Activity". */
  const RecentCount: nat := 10

  // ---- frequency tables ----

  /** `top` is a frequency table of `keys` cut to `n` rows: at most `n` rows,
      one per key, counts never increasing, every count exact, and a key is
      left out only when the table is full of keys counted at least as often. */
  predicate IsTopTable(top: seq<Entry>, keys: seq<string>, n: nat) {
    && |top| <= n
    && DistinctKeys(top)
    && (forall i, j :: 0 <= i < j < |top| ==> top[i].count >= top[j].count)
    && (forall i :: 0 <= i < |top| ==> top[i].key in keys && top[i].count == Occurrences(keys, top[i].key))
    && (forall k :: k in keys ==>
          (HasKey(top, k) || (|top| == n && forall i :: 0 <= i < |top| ==> top[i].count >= Occurrences(keys, k))))
  }

  /** The first `n` rows of the ranked tally form a frequency table cut to `n` rows. */
  lemma TopOfRanked(keys: seq<string>, n: nat)
    ensures IsTopTable(Take(Ranked(Tally(keys)), n), keys, n)
  {
    var top := Take(Ranked(Tally(keys)), n);
    TopRows(keys, n);
    forall k | k in keys ensures HasKey(top, k) ||
      (|top| == n && forall i :: 0 <= i < |top| ==> top[i].count >= Occurrences(keys, k))
    {
      TopCovers(keys, n, k);
    }
  }

  /** The rows of a top table have distinct keys, counts never increasing,
      and each the exact count of a counted key. */
  lemma TopRows(keys: seq<string>, n: nat)
    ensures var top := Take(Ranked(Tally(keys)), n);
      && DistinctKeys(top)
      && (forall i, j :: 0 <= i < j < |top| ==> top[i].count >= top[j].count)
      && (forall i :: 0 <= i < |top| ==> top[i].key in keys && top[i].count == Occurrences(keys, top[i].key))
  {
    var r := Ranked(Tally(keys));
    var top := Take(r, n);
    RankedSpec(keys);
    assert forall i :: 0 <= i < |top| ==> top[i] == r[i];
  }

  /** A counted key is in the top table, or the table is full of keys counted
      at least as often. */
  lemma TopCovers(keys: seq<string>, n: nat, k: string)
    requires k in keys
    ensures var top := Take(Ranked(Tally(keys)), n);
      HasKey(top, k) || (|top| == n && forall i :: 0 <= i < |top| ==> top[i].count >= Occurrences(keys, k))
  {
    var r := Ranked(Tally(keys));
    var top := Take(r, n);
    RankedSpec(keys);
    var m :| 0 <= m < |r| && r[m].key == k;
    if m < |top| {
      assert top[m].key == k;
    } else {
      forall i | 0 <= i < |top| ensures top[i].count >= Occurrences(keys, k) {
        assert top[i] == r[i];
        assert r[i].count >= r[m].count;
      }
    }
  }

  /** The first rows of a table whose ties are in first-seen order keep that order. */
  lemma TakeTiesFirstSeen(s: seq<Entry>, keys: seq<string>, n: nat)
    requires TiesFirstSeen(s, keys)
    ensures TiesFirstSeen(Take(s, n), keys)
  {
    var top := Take(s, n);
    assert forall i :: 0 <= i < |top| ==> top[i] == s[i];
  }

  /** `getMostUsedApps`: counts the logs per app name (not per package) in a
      `forEach`, sorts the entries by count and keeps the first five. */
  method MostUsedApps(logs: seq<UsageLog>) returns (top: seq<Entry>)
    ensures top == Take(Ranked(Tally(KeysOf(logs, AppNameField))), TableSize)
    ensures IsTopTable(top, KeysOf(logs, AppNameField), TableSize)
    ensures (forall k :: k in KeysOf(logs, AppNameField) ==> !IsArrayIndex(k)) ==>
      TiesFirstSeen(top, KeysOf(logs, AppNameField))
  {
    var appCounts := CountBy(logs, AppNameField);
    top := Take(Ranked(appCounts), TableSize);
    TopOfRanked(KeysOf(logs, AppNameField), TableSize);
    TopTies(KeysOf(logs, AppNameField));
  }

  /** `getMostCommonReasons`: the same table, counted per reason. */
  method MostCommonReasons(logs: seq<UsageLog>) returns (top: seq<Entry>)
    ensures top == Take(Ranked(Tally(KeysOf(logs, ReasonField))), TableSize)
    ensures IsTopTable(top, KeysOf(logs, ReasonField), TableSize)
    ensures (forall k :: k in KeysOf(logs, ReasonField) ==> !IsArrayIndex(k)) ==>
      TiesFirstSeen(top, KeysOf(logs, ReasonField))
  {
    var reasonCounts := CountBy(logs, ReasonField);
    top := Take(Ranked(reasonCounts), TableSize);
    TopOfRanked(KeysOf(logs, ReasonField), TableSize);
    TopTies(KeysOf(logs, ReasonField));
  }

  /** With no array-index key, rows of equal count in a top table are in the
      order their keys were first logged. */
  lemma TopTies(keys: seq<string>)
    ensures (forall k :: k in keys ==> !IsArrayIndex(k)) ==> TiesFirstSeen(Take(Ranked(Tally(keys)), TableSize), keys)
  {
    if forall k :: k in keys ==> !IsArrayIndex(k) {
      RankedTiesFirstSeen(keys);
      TakeTiesFirstSeen(Ranked(Tally(keys)), keys, TableSize);
    }
  }

  // ---- durations and rates ----

  /** A duration as the screen shows it, "<minutes>m <seconds>s". */
  datatype Duration = Duration(minutes: int, seconds: int)

  /** `Math.trunc`: rounds toward zero. */
  function Trunc(x: real): int {
    if x >= 0.0 then x.Floor else -((-x).Floor)
  }

  /** JavaScript's `%` on numbers: the remainder keeps the sign of the dividend. */
  function JsRem(x: real, d: real): real
    requires d != 0.0
  {
    x - d * Trunc(x / d) as real
  }

  /** Subtracting a whole number commutes with `Math.floor`. */
  lemma FloorMinusInt(y: real, n: int)
    ensures (y - n as real).Floor == y.Floor - n
  {
    var f := y.Floor;
    assert f as real <= y < f as real + 1.0;
    assert (f - n) as real <= y - n as real < (f - n) as real + 1.0;
  }

  /** `formatDuration(ms)`: whole minutes, then the whole seconds of the
      minute begun. For a duration that is not negative the seconds are below
      60 and the two together give back the whole seconds of `ms`. */
  function FormatDuration(ms: real): (d: Duration)
    ensures ms >= 0.0 ==> 0 <= d.minutes && 0 <= d.seconds < 60
    ensures ms >= 0.0 ==> d.minutes * 60 + d.seconds == (ms / 1000.0).Floor
  {
    var x := ms / 1000.0;
    MinutesAndSeconds(x);
    Duration((x / 60.0).Floor, JsRem(x, 60.0).Floor)
  }

  /** Whole minutes and the whole seconds of the minute begun split the whole
      seconds of a time that is not negative. */
  lemma MinutesAndSeconds(x: real)
    ensures x >= 0.0 ==> 0 <= (x / 60.0).Floor && 0 <= JsRem(x, 60.0).Floor < 60
    ensures x >= 0.0 ==> (x / 60.0).Floor * 60 + JsRem(x, 60.0).Floor == x.Floor
  {
    if x >= 0.0 {
      var minutes := (x / 60.0).Floor;
      assert Trunc(x / 60.0) == minutes;
      assert minutes as real <= x / 60.0 < minutes as real + 1.0;
      assert 0.0 <= JsRem(x, 60.0) < 60.0;
      FloorMinusInt(x, 60 * minutes);
    }
  }

  /** The "Avg Session Time" cell: the formatted average when it is positive,
      "0m 0s" otherwise, so it never shows a negative part. */
  function AverageDisplay(average: real): (d: Duration)
    ensures 0 <= d.minutes && 0 <= d.seconds < 60
    ensures average > 0.0 ==> d == FormatDuration(average)
    ensures average <= 0.0 ==> d == Duration(0, 0)
  {
    if average > 0.0 then FormatDuration(average) else Duration(0, 0)
  }

  /** `Math.round`: the nearest integer, halves rounded up. */
  function Round(x: real): (r: int)
    ensures r as real - 0.5 <= x < r as real + 0.5
  {
    (x + 0.5).Floor
  }

  /** A share of blocked sessions, in percent, lies in 0..100. */
  lemma PercentInRange(blocked: nat, total: nat)
    requires 0 < total
    ensures 0.0 <= blocked as real / total as real * 100.0
    ensures blocked <= total ==> blocked as real / total as real * 100.0 <= 100.0
    ensures blocked == total ==> blocked as real / total as real * 100.0 == 100.0
  {
    var q := blocked as real / total as real;
    assert q * total as real == blocked as real;
    if blocked <= total {
      assert q * total as real <= 1.0 * total as real;
    }
  }

  /** The "Block Rate" cell: the rounded percentage of blocked sessions, 0 when
      there were none. It lies in 0..100 whenever no more sessions were
      blocked than there were. */
  function BlockRate(blocked: nat, total: nat): (rate: int)
    ensures total == 0 ==> rate == 0
    ensures 0 < total ==> rate as real - 0.5 <= blocked as real / total as real * 100.0 < rate as real + 0.5
    ensures blocked <= total ==> 0 <= rate <= 100
    ensures 0 < total && blocked == total ==> rate == 100
    ensures blocked == 0 ==> rate == 0
  {
    if total > 0 then
      PercentInRange(blocked, total);
      Round(blocked as real / total as real * 100.0)
    else 0
  }

  // ---- recent activity ----

  /** Each log was stored after every log before it. */
  predicate Chronological(logs: seq<UsageLog>) {
    forall i, j :: 0 <= i < j < |logs| ==> logs[i].timestamp < logs[j].timestamp
  }

  /** `usageLogs.slice(0, 10)`, as the screen lists it under "Recent Activity". */
  function RecentActivity(logs: seq<UsageLog>): (shown: seq<UsageLog>)
    ensures |shown| == if |logs| < RecentCount then |logs| else RecentCount
    ensures shown == logs[..|shown|]
  {
    Take(logs, RecentCount)
  }

  /** Every row of the list has a key when every stored log has an id, as
      the store keeps it (`LogsStamped`). */
  lemma RecentActivityKeyed(logs: seq<UsageLog>)
    requires AllStamped(logs)
    ensures AllStamped(RecentActivity(logs))
  {
  }

  /** The list as written shows the oldest logs: once there are more than ten,
      every log shown is older than every log left out, and the newest log is
      not shown. */
  lemma RecentActivityShowsOldest(logs: seq<UsageLog>)
    requires Chronological(logs) && |logs| > RecentCount
    ensures logs[|logs| - 1] !in RecentActivity(logs)
    ensures forall l, j :: l in RecentActivity(logs) && RecentCount <= j < |logs| ==> l.timestamp < logs[j].timestamp
  {
    var shown := RecentActivity(logs);
    forall l, j | l in shown && RecentCount <= j < |logs| ensures l.timestamp < logs[j].timestamp {
      var i :| 0 <= i < |shown| && shown[i] == l;
      assert logs[i] == l;
    }
  }

  /** Eleven logs one second apart: the eleventh, the newest, is not listed. */
  lemma RecentActivityExample()
    ensures var logs := seq(11, i => UsageLog(None, "com.example", "Example", 1000 * i, "bored", None, false, None, None));
      |RecentActivity(logs)| == 10 && logs[10] !in RecentActivity(logs)
  {
    var logs := seq(11, i => UsageLog(None, "com.example", "Example", 1000 * i, "bored", None, false, None, None));
    assert Chronological(logs);
    RecentActivityShowsOldest(logs);
  }

  /** `s` in reverse order. */
  function Reverse<T>(s: seq<T>): (r: seq<T>)
    ensures |r| == |s|
    ensures forall i :: 0 <= i < |s| ==> r[i] == s[|s| - 1 - i]
  {
    if s == [] then [] else Reverse(s[1..]) + [s[0]]
  }

  /** The list "Recent Activity" is meant to show: the ten latest logs,
      newest first. */
  function LatestActivity(logs: seq<UsageLog>): (shown: seq<UsageLog>)
    ensures |shown| == if |logs| < RecentCount then |logs| else RecentCount
    ensures forall i :: 0 <= i < |shown| ==> shown[i] == logs[|logs| - 1 - i]
  {
    var n := if |logs| < RecentCount then |logs| else RecentCount;
    Reverse(logs[|logs| - n..])
  }

  /** The corrected list starts with the newest log, runs from newer to older,
      and every log shown is newer than every log left out. */
  lemma LatestActivityShowsNewest(logs: seq<UsageLog>)
    requires Chronological(logs) && logs != []
    ensures LatestActivity(logs)[0] == logs[|logs| - 1]
    ensures forall i, j :: 0 <= i < j < |LatestActivity(logs)| ==>
      LatestActivity(logs)[i].timestamp > LatestActivity(logs)[j].timestamp
    ensures forall l, j :: l in LatestActivity(logs) && 0 <= j < |logs| - |LatestActivity(logs)| ==>
      l.timestamp > logs[j].timestamp
  {
    var shown := LatestActivity(logs);
    forall l, j | l in shown && 0 <= j < |logs| - |shown| ensures l.timestamp > logs[j].timestamp {
      var i :| 0 <= i < |shown| && shown[i] == l;
      assert logs[|logs| - 1 - i] == l;
    }
  }
}
