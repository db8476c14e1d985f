/** The settings screen: three text boxes (prompt, delay, block keywords)
    that are saved into the store when they lose focus, two switches, and the
    confirmed "Clear All Data" action. Dialogs are left out: a rejected delay
    is reported by the result of the save, and the confirmation of the clear
    action is a parameter. */
module Settings {
  import opened Types
  import opened Text
  import opened Store

  /** `parseInt(text)` checked the way `handleSaveDelay` checks it: the delay
      to store, or none when the text is not a number or is out of 0..60. */
  function ParseDelay(text: string): (d: Option<int>)
    ensures d.Some? ==> 0 <= d.value <= 60 && ParseInt(text) == Some(d.value)
    ensures d.None? ==> ParseInt(text).None? || ParseInt(text).value < 0 || ParseInt(text).value > 60
  {
    match ParseInt(text)
    case None => None
    case Some(v) => if v < 0 || v > 60 then None else Some(v)
  }

  /** The delay box starts with the stored delay written out; saving it
      unedited stores the same delay whenever that delay is in 0..60. */
  lemma DelayRoundTrip(delay: int)
    ensures 0 <= delay <= 60 ==> ParseDelay(DecimalString(delay)) == Some(delay)
    ensures (delay < 0 || delay > 60) ==> ParseDelay(DecimalString(delay)) == None
  {
    ParseDecimalString(delay, []);
    assert DecimalString(delay) + [] == DecimalString(delay);
  }

  /** `delay` followed by anything that does not continue it still saves as
      `delay`, as `parseInt` stops at the first character that is not a digit
      ("12abc" saves 12). */
  lemma DelayIgnoresTrailingText(delay: int, tail: string)
    requires 0 <= delay <= 60
    requires StopsNumber(delay, tail)
    ensures ParseDelay(DecimalString(delay) + tail) == Some(delay)
  {
    ParseDecimalString(delay, tail);
  }

  class SettingsScreen {
    const store: AppStore
    var promptText: string
    var delayText: string
    var keywordsText: string

    /** The text boxes start from the stored settings: the prompt, the delay
        written as a decimal number, and the keywords joined by ", ". */
    constructor (store: AppStore)
      ensures this.store == store
      ensures promptText == store.settings.promptText
      ensures delayText == DecimalString(store.settings.delayTime)
      ensures keywordsText == Join(store.settings.blockKeywords, ", ")
    {
      this.store := store;
      promptText := store.settings.promptText;
      delayText := DecimalString(store.settings.delayTime);
      keywordsText := Join(store.settings.blockKeywords, ", ");
    }

    method EditPrompt(text: string)
      modifies this`promptText
      ensures promptText == text
    {
      promptText := text;
    }

    method EditDelay(text: string)
      modifies this`delayText
      ensures delayText == text
    {
      delayText := text;
    }

    method EditKeywords(text: string)
      modifies this`keywordsText
      ensures keywordsText == text
    {
      keywordsText := text;
    }

    /** `handleSavePrompt`: stores the prompt box as it is and changes no other setting. */
    method HandleSavePrompt()
      modifies store`settings
      ensures store.settings == old(store.settings).(promptText := promptText)
    {
      store.SetSettings(EmptyPatch.(promptText := Some(promptText)));
    }

    /** `handleSaveDelay`: a number in 0..60 is stored as the delay and nothing
        else changes; anything else is rejected and the settings stay as they were. */
    method HandleSaveDelay() returns (accepted: bool)
      modifies store`settings
      ensures accepted <==> ParseDelay(delayText).Some?
      ensures accepted ==> store.settings == old(store.settings).(delayTime := ParseDelay(delayText).value)
      ensures accepted ==> 0 <= store.settings.delayTime <= 60
      ensures !accepted ==> store.settings == old(store.settings)
    {
      var delay := ParseInt(delayText);
      if delay.None? || delay.value < 0 || delay.value > 60 {
        return false;
      }
      store.SetSettings(EmptyPatch.(delayTime := Some(delay.value)));
      accepted := true;
    }

    /** `handleSaveBlockKeywords`: stores the parsed keyword list, every entry
        of which is non-empty, trimmed and free of commas. */
    method HandleSaveBlockKeywords()
      modifies store`settings
      ensures store.settings == old(store.settings).(blockKeywords := ParseKeywords(keywordsText))
      ensures WellFormedKeywords(store.settings.blockKeywords)
    {
      var keywords := ParseKeywords(keywordsText);
      assert WellFormedKeywords(keywords);
      store.SetSettings(EmptyPatch.(blockKeywords := Some(keywords)));
      assert store.settings.blockKeywords == keywords;
    }

    /** `handleClearData`: once confirmed, the usage log is emptied and the
        score and streak are reset; prompt, delay, keywords and both switches
        keep their values. Cancelled, nothing changes. */
    method HandleClearData(confirmed: bool)
      modifies store`settings, store`usageLogs
      ensures confirmed ==> store.usageLogs == []
      ensures confirmed ==> store.settings == old(store.settings).(mindfulnessScore := 0, streakDays := 0)
      ensures !confirmed ==> store.usageLogs == old(store.usageLogs) && store.settings == old(store.settings)
    {
      if confirmed {
        store.ClearUsageLogs();
        store.SetSettings(EmptyPatch.(mindfulnessScore := Some(0), streakDays := Some(0)));
      }
    }

    /** The "Enable Mood Tracking" switch. */
    method SetMoodTracking(value: bool)
      modifies store`settings
      ensures store.settings == old(store.settings).(enableMoodTracking := value)
    {
      store.SetSettings(EmptyPatch.(enableMoodTracking := Some(value)));
    }

    /** The "Enable Insights" switch. */
    method SetInsights(value: bool)
      modifies store`settings
      ensures store.settings == old(store.settings).(enableInsights := value)
    {
      store.SetSettings(EmptyPatch.(enableInsights := Some(value)));
    }
  }
}
