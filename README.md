# MindGate core, modelled in Dafny

MindGate is a React Native app that puts a pause between the user and
distracting apps. It keeps a catalogue of tracked apps, a settings record and
a usage log in a zustand store. Its screens let the user:

- add and remove apps and switch their tracking on and off;
- edit the prompt, the delay and the block keywords;
- read weekly statistics and frequency tables.

This project models that store and the logic of three screens (Settings,
Insights, App Selection).

Each JavaScript module that changes state becomes a class whose methods
reassign its fields:

- the store becomes `Store.AppStore`;
- the `useState` fields of a screen, together with the store it acts on,
  become `Settings.SettingsScreen` and `AppSelection.AppSelectionScreen`.

Each method's contract gives its whole new state. It gives that state in terms
of functions such as `Toggled`, `WithoutPackage`, `Merge`, `WeeklyLogs`,
`ParseKeywords` and `ParseDelay`. Lemmas then prove what the app relies on
about those functions.

The modules are:

- `Types`: the records of `types/index.ts`.
- `Lists`: `map`, `filter`, `find` and `slice(0, n)`.
- `Text`: three groups of helpers:
  - `trim`, `split(',')` and `join`;
  - `parseInt`, as section 19.2.5 of ECMA-262 defines it: leading white space, sign, `0x` prefix, longest digit prefix;
  - `Number.prototype.toString` for integers.
- `Counting`: the `forEach` loops that fill a counting object, and the order in which `Object.entries` lists it. Array-index keys come first, in ascending order, and the other keys follow in insertion order (section 10.1.11.1 of ECMA-262). That list then goes through a stable descending sort, so among equal counts ties go to the key enumerated first.
- `Store`, `Insights`, `Settings`, `AppSelection`: the store and the three screens.

The clock is passed in as a parameter: `now` for `Date.now()`, and `todayStart` for today's local midnight. Numbers that JavaScript holds as floats are modelled as follows:

- The session average and the values derived from it are `real`.
- Counts, timestamps and settings values are `int`.

## Model

| member | source | states |
|---|---|---|
| Lists.MapSeq | MindGate/src/store/useAppStore.ts:88-92 | `map` gives one result per element |
| Lists.MapSeqElements | MindGate/src/store/useAppStore.ts:88-92 | each result is the callback applied to the element in the same place |
| Lists.Filter | MindGate/src/store/useAppStore.ts:102-104 | `filter` is no longer than its input and keeps exactly the elements the callback accepts |
| Lists.FilterAppend | MindGate/src/store/useAppStore.ts:102-104 | `filter` keeps relative order: filtering a concatenation is concatenating the filtered parts |
| Lists.FilterPartition | MindGate/src/screens/AppSelectionScreen.tsx:77-78 | a callback and its negation split a list: lengths add up and every element is kept as often as it occurs |
| Lists.FilterIdempotent | MindGate/src/store/useAppStore.ts:102-104 | filtering twice with the same callback equals filtering once |
| Lists.Find | MindGate/src/store/useAppStore.ts:142 | `find` gives none exactly when no element is accepted, otherwise the accepted element with no accepted element before it |
| Lists.Take | MindGate/src/screens/InsightsScreen.tsx:41 | `slice(0, n)` is the prefix of length min(n, length) |
| Text.Trim | MindGate/src/screens/SettingsScreen.tsx:45 | the result has no leading or trailing JavaScript white space, is no longer than the input, and a trimmed string is its own trim |
| Text.TrimSlice | MindGate/src/screens/SettingsScreen.tsx:45 | the trim of a string is its slice `s[a..b]` with only white space before `a` and from `b` on |
| Text.TrimKeepsVisible | MindGate/src/screens/AppSelectionScreen.tsx:32 | trimming removes no character that is not white space, so a field with a visible character never trims to the empty string |
| Text.SplitJoinRoundTrip | MindGate/src/screens/SettingsScreen.tsx:44 | joining the pieces of `split(',')` with ',' gives back the text, so splitting loses no character |
| Text.SplitCommas | MindGate/src/screens/SettingsScreen.tsx:44 | `split(',')` gives at least one piece, and no piece contains a comma |
| Text.Join | MindGate/src/screens/SettingsScreen.tsx:27 | joining no parts gives the empty string, one part gives that part, and the result always starts with the first part |
| Text.ParseKeywords | MindGate/src/screens/SettingsScreen.tsx:43-46 | no parsed keyword is empty, starts or ends with white space, or contains a comma |
| Text.ParseAtComma | MindGate/src/screens/SettingsScreen.tsx:43-46 | parsing text with a comma after a comma-free prefix is parsing both sides and concatenating |
| Text.ParseLeadingSpace | MindGate/src/screens/SettingsScreen.tsx:43-46 | a space in front of the text changes no keyword |
| Text.KeywordsRoundTrip | MindGate/src/screens/SettingsScreen.tsx:27 | a list of well-formed keywords joined with ", " (the initial text of the box) parses back to the same list |
| Text.DigitPrefix | MindGate/src/screens/SettingsScreen.tsx:34 | `parseInt` reads the longest prefix of digits: the prefix is all digits and is followed by a non-digit or the end |
| Text.ParseSigned | MindGate/src/screens/SettingsScreen.tsx:34 | after the white space, a number comes only from text starting with a digit or a sign, and text starting with a decimal digit and no `0x` prefix always gives a number that is not negative |
| Text.ParseInt | MindGate/src/screens/SettingsScreen.tsx:34 | `parseInt` is NaN unless the text after leading white space starts with a digit or a sign, and is a number that is not negative whenever that text starts with a decimal digit and no `0x` prefix |
| Text.DecimalString | MindGate/src/screens/SettingsScreen.tsx:26 | `toString` of an integer starts with '-' exactly for a negative number and is otherwise made of decimal digits, at least one |
| Text.ParseDecimalString | MindGate/src/screens/SettingsScreen.tsx:34 | `parseInt` of an integer written out in decimal, followed by anything that does not continue the number, gives back that integer; only a tail of a non-digit is needed, except that after a lone 0 it must not be the `x`/`X` of a hexadecimal prefix |
| Counting.Bump | MindGate/src/store/useAppStore.ts:165 | bumping the count of a key keeps every existing key in its place, and adds a new key last with count 1 |
| Counting.Tally | MindGate/src/store/useAppStore.ts:164-166 | the counting object has no more keys than there are logs, and every key comes from a log |
| Counting.CountBy | MindGate/src/store/useAppStore.ts:163-166 | the `forEach` loop leaves one entry per distinct value, whose count is the number of logs carrying that value |
| Counting.TallySpec | MindGate/src/store/useAppStore.ts:164-166 | the counting object has distinct keys, every count is positive, and the count of every key is its number of occurrences |
| Counting.TallyFirstOccurrence | MindGate/src/store/useAppStore.ts:164-166 | the counting object holds its keys in the order each was first counted |
| Counting.EnumerationOrder | MindGate/src/store/useAppStore.ts:167 | `Object.entries` lists as many entries as there are keys, and with no array-index key it lists them in insertion order |
| Counting.EnumerationOrderSpec | MindGate/src/store/useAppStore.ts:167 | `Object.entries` lists every own property of the counting object exactly once |
| Counting.SortSpec | MindGate/src/store/useAppStore.ts:167 | the stable sort is a permutation, is sorted, and keeps the relative order of entries of equal rank |
| Counting.SortBy | MindGate/src/store/useAppStore.ts:167 | the sort keeps the length |
| Counting.Ranked | MindGate/src/store/useAppStore.ts:167 | the sorted entries are as many as the keys |
| Counting.RankedSpec | MindGate/src/screens/InsightsScreen.tsx:39-40 | the sorted entries have distinct keys, non-increasing counts and exact counts of keys that occur, and every occurring key is listed |
| Counting.RankedHead | MindGate/src/store/useAppStore.ts:167 | the first sorted entry has the highest count, and no entry enumerated before it has that count |
| Counting.RankedTiesFirstSeen | MindGate/src/store/useAppStore.ts:163-167 | with no array-index key, of two sorted entries with the same count the first has the key counted first |
| Counting.RankedHeadFirstSeen | MindGate/src/store/useAppStore.ts:163-167 | with no array-index key, the first sorted key is, among the keys of highest count, the one counted first |
| Store.Toggled | MindGate/src/store/useAppStore.ts:86-93 | same length and order; each entry is unchanged except `isEnabled`, which flips exactly on the entries of the package |
| Store.ToggleTwice | MindGate/src/store/useAppStore.ts:86-93 | toggling the same package twice restores the catalogue |
| Store.WithoutPackage | MindGate/src/store/useAppStore.ts:100-105 | exactly the entries of other packages remain |
| Store.RemoveIdempotent | MindGate/src/store/useAppStore.ts:100-105 | removing a package twice equals removing it once |
| Store.RemoveKeepsOrder | MindGate/src/store/useAppStore.ts:100-105 | removal keeps the relative order of what remains |
| Store.RemoveDropsExactly | MindGate/src/store/useAppStore.ts:100-105 | what removal keeps and the entries of the package together are the catalogue, as a multiset |
| Store.Merge | MindGate/src/store/useAppStore.ts:107-110 | each field present in the patch overwrites the stored one, and each absent field keeps its value |
| Store.MergeEmpty | MindGate/src/store/useAppStore.ts:107-110 | the empty patch changes nothing |
| Store.MergeIdempotent | MindGate/src/store/useAppStore.ts:107-110 | applying the same patch twice equals applying it once |
| Store.EnabledApps | MindGate/src/store/useAppStore.ts:139 | exactly the enabled entries of the catalogue |
| Store.TodayLogs | MindGate/src/store/useAppStore.ts:149 | exactly the logs stamped at or after today's midnight |
| Store.WeeklyLogs | MindGate/src/store/useAppStore.ts:153-154 | exactly the logs stamped at or after `now - 604800000` |
| Store.AppendedLogInWindow | MindGate/src/store/useAppStore.ts:129 | an appended log shows up last in a time window exactly when its timestamp is inside it, and the earlier part of the window is unchanged |
| Store.SessionTimeSum | MindGate/src/store/useAppStore.ts:159 | if no session duration is negative, the summed session time is not negative |
| Store.SessionTimeSumAppend | MindGate/src/store/useAppStore.ts:159 | the sum over two runs of logs is the sum of their sums |
| Store.Mean | MindGate/src/store/useAppStore.ts:158-160 | the mean times a positive count is the sum, and it is 0 for no sessions |
| Store.RankedHeadMaximal | MindGate/src/store/useAppStore.ts:167 | for a non-empty window, the first ranked reason was given and no reason was given more often |
| Store.MostUsedLabel | MindGate/src/store/useAppStore.ts:167 | 'None' for no entry and for an empty first key; the first key when it is not empty; never the empty string; any label other than 'None' is the first key |
| Store.MostUsedLabelSpec | MindGate/src/store/useAppStore.ts:167 | the label is 'None' for an empty window and is never the empty string; any other label is a given reason of maximal count; and when no reason is an array index, no other reason of that count was given before it |
| Store.AppStore.constructor | MindGate/src/store/useAppStore.ts:77-81 | the initial state: four default apps, default settings, no logs, not monitoring, no session |
| Store.AppStore.SetTrackedApps | MindGate/src/store/useAppStore.ts:84 | the catalogue is replaced and no other field changes |
| Store.AppStore.ToggleAppTracking | MindGate/src/store/useAppStore.ts:86-93 | the catalogue becomes `Toggled` of the old one; no other field changes |
| Store.AppStore.AddTrackedApp | MindGate/src/store/useAppStore.ts:95-98 | the app is appended with no check for duplicates; the length grows by one and earlier entries are untouched |
| Store.AppStore.RemoveTrackedApp | MindGate/src/store/useAppStore.ts:100-105 | the catalogue becomes `WithoutPackage` of the old one |
| Store.AppStore.SetSettings | MindGate/src/store/useAppStore.ts:107-110 | the settings become the old settings merged with the patch; no other field changes |
| Store.AppStore.UpdateMindfulnessScore | MindGate/src/store/useAppStore.ts:112-115 | only `mindfulnessScore` changes |
| Store.AppStore.IncrementStreak | MindGate/src/store/useAppStore.ts:117-120 | only `streakDays` changes, by one |
| Store.AppStore.ResetStreak | MindGate/src/store/useAppStore.ts:122-125 | only `streakDays` changes, to 0 |
| Store.AppStore.AddUsageLog | MindGate/src/store/useAppStore.ts:127-130 | one log is appended with the clock value as its id; earlier logs are unchanged, and every stored log still carries an id |
| Store.AppStore.ClearUsageLogs | MindGate/src/store/useAppStore.ts:132 | the log becomes empty; catalogue, settings and monitoring flag are untouched |
| Store.AppStore.SetMonitoring | MindGate/src/store/useAppStore.ts:134 | only the monitoring flag changes |
| Store.AppStore.SetCurrentSession | MindGate/src/store/useAppStore.ts:136 | only the current session changes |
| Store.AppStore.GetEnabledApps | MindGate/src/store/useAppStore.ts:139 | exactly the enabled entries of the catalogue |
| Store.AppStore.GetAppByPackage | MindGate/src/store/useAppStore.ts:141-142 | none exactly when no entry has the package, otherwise the first entry that has it |
| Store.AppStore.GetTodayLogs | MindGate/src/store/useAppStore.ts:144-150 | exactly the logs stamped at or after today's midnight |
| Store.AppStore.GetWeeklyStats | MindGate/src/store/useAppStore.ts:152-175 | over the last seven days: total and blocked counts with blocked ≤ total; the mean session time; (0, 0, 0, 'None') for an empty window; and a reason of maximal count, or 'None', never the empty string; when no reason is an array index, ties go to the reason given first |
| Insights.TopOfRanked | MindGate/src/screens/InsightsScreen.tsx:39-41 | the first n sorted entries form a top-n table: at most n rows, distinct keys, non-increasing exact counts, and a key is left out only when the table is full of keys counted at least as often |
| Insights.MostUsedApps | MindGate/src/screens/InsightsScreen.tsx:33-43 | a top-5 table of the logs counted by app name; when no app name is an array index, rows of equal count are in the order the names were first logged |
| Insights.MostCommonReasons | MindGate/src/screens/InsightsScreen.tsx:45-55 | a top-5 table of the logs counted by reason; when no reason is an array index, rows of equal count are in the order the reasons were first logged |
| Insights.FormatDuration | MindGate/src/screens/InsightsScreen.tsx:27-31 | for a duration that is not negative, the seconds are in 0..59, and minutes × 60 + seconds is the whole number of seconds |
| Insights.MinutesAndSeconds | MindGate/src/screens/InsightsScreen.tsx:28-29 | whole minutes, plus the `%`-remainder seconds, split the whole seconds of a time that is not negative |
| Insights.AverageDisplay | MindGate/src/screens/InsightsScreen.tsx:100-102 | the average cell shows `formatDuration` of a positive average, and 0m 0s otherwise; it never shows a negative part |
| Insights.PercentInRange | MindGate/src/screens/InsightsScreen.tsx:93 | the blocked share in percent lies in 0..100 when blocked ≤ total, and is 100 when all sessions were blocked |
| Insights.Round | MindGate/src/screens/InsightsScreen.tsx:93 | `Math.round` gives the integer within half of x, the half going up |
| Insights.BlockRate | MindGate/src/screens/InsightsScreen.tsx:92-94 | 0 for no sessions; otherwise the rounded percentage, within 0.5 of blocked / total × 100; in 0..100 when blocked ≤ total; 100 when all were blocked; 0 when none were |
| Insights.RecentActivity | MindGate/src/screens/InsightsScreen.tsx:159 | the first at most ten logs, in store order |
| Insights.RecentActivityKeyed | MindGate/src/screens/InsightsScreen.tsx:159-160 | every listed row has the log id the list uses as its key |
| Insights.RecentActivityShowsOldest | MindGate/src/screens/InsightsScreen.tsx:159 | with more than ten logs appended in time order, the newest log is not shown, and every log shown is older than every log left out |
| Insights.RecentActivityExample | MindGate/src/screens/InsightsScreen.tsx:159 | eleven logs one second apart: the eleventh is not listed |
| Insights.LatestActivity | MindGate/src/screens/InsightsScreen.tsx:159 | the ten latest logs, newest first |
| Insights.LatestActivityShowsNewest | MindGate/src/screens/InsightsScreen.tsx:159 | the corrected list starts with the newest log, is strictly newer-to-older, and every log shown is newer than every log left out |
| Settings.ParseDelay | MindGate/src/screens/SettingsScreen.tsx:34-35 | a delay is accepted exactly when `parseInt` gives a number in 0..60, and that number is the delay |
| Settings.DelayRoundTrip | MindGate/src/screens/SettingsScreen.tsx:33-39 | the box starts with the stored delay as text (line 26); saving it unedited stores the same delay when it is in 0..60, and rejects it otherwise |
| Settings.DelayIgnoresTrailingText | MindGate/src/screens/SettingsScreen.tsx:34 | a delay followed by text that does not continue the number (any non-digit, but not `x` after a delay of 0) still saves as that delay |
| Settings.SettingsScreen.constructor | MindGate/src/screens/SettingsScreen.tsx:25-27 | the boxes start with the stored prompt, the stored delay in decimal, and the keywords joined with ", " |
| Settings.SettingsScreen.EditPrompt | MindGate/src/screens/SettingsScreen.tsx:83 | the prompt box holds the typed text |
| Settings.SettingsScreen.EditDelay | MindGate/src/screens/SettingsScreen.tsx:111 | the delay box holds the typed text |
| Settings.SettingsScreen.EditKeywords | MindGate/src/screens/SettingsScreen.tsx:130 | the keyword box holds the typed text |
| Settings.SettingsScreen.HandleSavePrompt | MindGate/src/screens/SettingsScreen.tsx:29-31 | only the prompt setting changes, to the box's text |
| Settings.SettingsScreen.HandleSaveDelay | MindGate/src/screens/SettingsScreen.tsx:33-40 | a delay is accepted exactly when it parses into 0..60; then only `delayTime` changes; otherwise the settings are unchanged |
| Settings.SettingsScreen.HandleSaveBlockKeywords | MindGate/src/screens/SettingsScreen.tsx:42-48 | only the keyword list changes, to the parsed list, and every stored keyword is well formed |
| Settings.SettingsScreen.HandleClearData | MindGate/src/screens/SettingsScreen.tsx:50-70 | once confirmed: logs emptied, score and streak 0, every other setting kept; cancelled: nothing changes |
| Settings.SettingsScreen.SetMoodTracking | MindGate/src/screens/SettingsScreen.tsx:95 | only `enableMoodTracking` changes |
| Settings.SettingsScreen.SetInsights | MindGate/src/screens/SettingsScreen.tsx:152 | only `enableInsights` changes |
| AppSelection.CategoryIcon | MindGate/src/screens/AppSelectionScreen.tsx:62-65 | the listed icon for each of the five ids, and 'apps' for anything else |
| AppSelection.CategoryColor | MindGate/src/screens/AppSelectionScreen.tsx:67-75 | blue, purple, green and orange for social, entertainment, games and shopping; grey exactly for any other string |
| AppSelection.CategoryColorsDistinct | MindGate/src/screens/AppSelectionScreen.tsx:67-75 | distinct categories get distinct colours, and 'other' gets the grey of an unknown string |
| AppSelection.DisabledApps | MindGate/src/screens/AppSelectionScreen.tsx:78 | exactly the disabled entries of the catalogue |
| AppSelection.ActiveInactivePartition | MindGate/src/screens/AppSelectionScreen.tsx:77-78 | every entry is in exactly one of the two lists, as often as in the catalogue, and the lengths add up |
| AppSelection.ActiveInactiveKeepOrder | MindGate/src/screens/AppSelectionScreen.tsx:77-78 | both lists keep catalogue order |
| AppSelection.NewApp | MindGate/src/screens/AppSelectionScreen.tsx:37-42 | the new entry is enabled, has no icon, has the selected category, and its names are the trimmed fields |
| AppSelection.AppSelectionScreen.constructor | MindGate/src/screens/AppSelectionScreen.tsx:18-21 | the form starts hidden and empty, with category 'other' |
| AppSelection.AppSelectionScreen.ToggleAddForm | MindGate/src/screens/AppSelectionScreen.tsx:86 | the form's visibility flips |
| AppSelection.AppSelectionScreen.EditAppName | MindGate/src/screens/AppSelectionScreen.tsx:108 | the name field holds the typed text |
| AppSelection.AppSelectionScreen.EditPackageName | MindGate/src/screens/AppSelectionScreen.tsx:118 | the package field holds the typed text |
| AppSelection.AppSelectionScreen.SelectCategory | MindGate/src/screens/AppSelectionScreen.tsx:130 | the selected category changes |
| AppSelection.AppSelectionScreen.HandleAddApp | MindGate/src/screens/AppSelectionScreen.tsx:31-49 | rejected exactly when a trimmed field is empty, and then nothing changes; otherwise the trimmed, enabled entry is appended and the form resets to empty, 'other' and hidden |
| AppSelection.AppSelectionScreen.HandleRemoveApp | MindGate/src/screens/AppSelectionScreen.tsx:51-60 | once confirmed, every entry of the package is removed; cancelled, nothing changes |
| AppSelection.AppSelectionScreen.ToggleApp | MindGate/src/screens/AppSelectionScreen.tsx:177 | the switch toggles the package's entries through the store |

## Left out

- Persistence through the zustand `persist` middleware and AsyncStorage, and zustand's subscription and re-rendering. `set` becomes assignment to fields.
- Rendering, navigation and the Home and Onboarding screens. They are presentation only; the Home screen's enabled filter is `Store.EnabledApps`.
- `Alert.alert` dialogs.
  - A confirmation becomes a `confirmed` parameter.
  - A rejected delay or app becomes a `false` result.
- `Date.now()`, local midnight (`setHours`), time zones, `toLocaleDateString` and the `formatTime` helper. The clock values are parameters.
- Floating point.
  - Divisions and the session average are exact reals.
  - `Math.round` is floor(x + 0.5), and `Math.floor` is exact.
- Insights.FormatDuration: does not model the rendering of the result as the string "<m>m <s>s". It returns the two numbers.
- Text.ParseDecimalString: does not cover `parseInt("-0")`, which yields -0. Integers have no negative zero here.
- Counting.RankedTiesFirstSeen: the tie rule is stated only when no key is an array index. Array-index keys are listed first, in ascending numeric order, by `Counting.EnumerationOrder`, but no lemma states the resulting tie rule for them.
- Text.DecimalString: does not model the exponent form that `toString` uses from 1e21 on.
- Counting.CountBy: does not model keys that collide with inherited properties of `Object.prototype` (such as "__proto__" or "toString"). Every key is counted as a plain own property.
- Store.Merge: a patch field present but set to `undefined` is treated as absent. JavaScript's spread would store `undefined`.
- `mood`, `delayTime` and `icon` of a log or an app are carried in the records but read by no modelled operation.
- `MoodOption`, `QuickReason` and `RootStackParamList` declare types only and have no behaviour.

## Findings

| source | as written | input that shows it | evidently intended | confidence | as-written member | corrected member |
|---|---|---|---|---|---|---|
| MindGate/src/screens/InsightsScreen.tsx:159 | "Recent Activity" lists `usageLogs.slice(0, 10)`. `addUsageLog` appends new logs at the end (useAppStore.ts:129), so the list shows the ten oldest logs. | eleven logs stamped 0, 1000, …, 10000 ms, in append order: the log at 10000 is not listed | the ten latest logs, newest first | not executed | Insights.RecentActivityShowsOldest | Insights.LatestActivityShowsNewest |
