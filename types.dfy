/** The records the MindGate application keeps: tracked apps, usage logs,
    the settings singleton and the in-progress session. */
module Types {

  datatype Option<+T> = None | Some(value: T)

  /** The five categories a tracked app may belong to. */
  datatype Category = Social | Entertainment | Games | Shopping | Other

  /** The string a category is stored and compared as. */
  function CategoryId(c: Category): (id: string)
    ensures |id| > 0
  {
    match c
    case Social => "social"
    case Entertainment => "entertainment"
    case Games => "games"
    case Shopping => "shopping"
    case Other => "other"
  }

  datatype TrackedApp = TrackedApp(
    packageName: string,
    appName: string,
    icon: Option<string>,
    isEnabled: bool,
    category: Category)

  /** One recorded interception. `id` is absent on a log not yet stored. Durations
      and times are whole milliseconds. */
  datatype UsageLog = UsageLog(
    id: Option<int>,
    packageName: string,
    appName: string,
    timestamp: int,
    reason: string,
    mood: Option<string>,
    wasBlocked: bool,
    delayTime: Option<int>,
    sessionDuration: Option<int>)

  /** Every log carries an id: the store gives one to each log it keeps, and
      the "Recent Activity" list uses it as the key of a row. */
  predicate AllStamped(logs: seq<UsageLog>) {
    forall i :: 0 <= i < |logs| ==> logs[i].id.Some?
  }

  datatype AppSettings = AppSettings(
    promptText: string,
    delayTime: int,
    blockKeywords: seq<string>,
    enableMoodTracking: bool,
    enableInsights: bool,
    mindfulnessScore: int,
    streakDays: int)

  /** A partial settings record: each present field overwrites the stored one. */
  datatype SettingsPatch = SettingsPatch(
    promptText: Option<string>,
    delayTime: Option<int>,
    blockKeywords: Option<seq<string>>,
    enableMoodTracking: Option<bool>,
    enableInsights: Option<bool>,
    mindfulnessScore: Option<int>,
    streakDays: Option<int>)

  /** The patch with no field present. */
  const EmptyPatch := SettingsPatch(None, None, None, None, None, None, None)

  datatype Session = Session(packageName: string, startTime: int)
}
