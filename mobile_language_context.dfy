/**
 * The mobile app's language provider: the choice among a saved language, the
 * device language and the default, and `setLanguage`, which updates the state
 * first and then asks i18n to switch and AsyncStorage to remember.
 */
module MobileLanguageContext {
  import opened Util

  /** The AsyncStorage key the language is saved under. */
  const SavedKey := "user_language"

  const DefaultLanguage := "en"

  /** The device languages taken over when nothing is saved. */
  const DeviceChoices: seq<string> := ["en", "am", "or"]

  /**
   * `loadSavedLanguage`'s rule, from the current language: a saved non-empty
   * value wins whatever it is; otherwise the first device locale's language
   * when it is one of the three; otherwise the language stays.
   */
  function SelectLanguage(current: string, saved: Option<string>, deviceLanguage: Option<string>): (l: string)
    ensures saved.Some? && saved.value != "" ==> l == saved.value
    ensures !(saved.Some? && saved.value != "") && deviceLanguage.Some? && deviceLanguage.value in DeviceChoices ==>
      l == deviceLanguage.value
    ensures !(saved.Some? && saved.value != "") && !(deviceLanguage.Some? && deviceLanguage.value in DeviceChoices) ==>
      l == current
  {
    if saved.Some? && saved.value != "" then saved.value
    else if deviceLanguage.Some? && deviceLanguage.value in DeviceChoices then deviceLanguage.value
    else current
  }

  /** Whether the rule switches language at all, rather than keeping the current one. */
  predicate Chooses(saved: Option<string>, deviceLanguage: Option<string>)
  {
    (saved.Some? && saved.value != "") || (deviceLanguage.Some? && deviceLanguage.value in DeviceChoices)
  }

  /** What `AsyncStorage.getItem` gives for a key: the value, or null. */
  function Stored(storage: map<string, string>, key: string): (v: Option<string>)
    ensures v.Some? <==> key in storage
    ensures key in storage ==> v.value == storage[key]
  {
    if key in storage then Some(storage[key]) else None
  }

  /** From a fresh provider the language is always one of a saved value, a device choice or 'en'. */
  lemma StartingLanguage(saved: Option<string>, deviceLanguage: Option<string>)
    ensures var l := SelectLanguage(DefaultLanguage, saved, deviceLanguage);
      (saved.Some? && l == saved.value) || l in DeviceChoices
  {
  }

  /** 'ar' is only ever chosen when it was saved: the device cannot select it. */
  lemma ArabicOnlyWhenSaved(current: string, saved: Option<string>, deviceLanguage: Option<string>)
    requires current == DefaultLanguage
    ensures SelectLanguage(current, saved, deviceLanguage) == "ar" <==> saved == Some("ar")
  {
  }

  class MobileLanguageProvider {
    var language: string
    /** The language i18next was last switched to. */
    var i18nLanguage: string
    /** The app's AsyncStorage. */
    var storage: map<string, string>

    constructor (stored: map<string, string>)
      ensures language == DefaultLanguage && i18nLanguage == DefaultLanguage && storage == stored
    {
      language, i18nLanguage, storage := DefaultLanguage, DefaultLanguage, stored;
    }

    /**
     * `loadSavedLanguage`, run once on mount; `readFails` is a rejected
     * `getItem`, which the handler catches and logs, changing nothing.
     */
    method LoadSavedLanguage(readFails: bool, deviceLanguage: Option<string>)
      modifies this`language, this`i18nLanguage
      ensures readFails ==> language == old(language) && i18nLanguage == old(i18nLanguage)
      ensures !readFails ==>
        language == SelectLanguage(old(language), Stored(storage, SavedKey), deviceLanguage)
      ensures !readFails && Chooses(Stored(storage, SavedKey), deviceLanguage) ==> i18nLanguage == language
      ensures !readFails && !Chooses(Stored(storage, SavedKey), deviceLanguage) ==> i18nLanguage == old(i18nLanguage)
    {
      if readFails {
        return;
      }
      var saved := Stored(storage, SavedKey);
      if saved.Some? && saved.value != "" {
        language := saved.value;
        i18nLanguage := saved.value;
      } else if deviceLanguage.Some? && deviceLanguage.value in DeviceChoices {
        language := deviceLanguage.value;
        i18nLanguage := deviceLanguage.value;
      }
    }

    /**
     * `setLanguage`: the state changes first; a rejected `changeLanguage`
     * skips the write to storage, and a rejected `setItem` is only logged.
     */
    method SetLanguage(lang: string, switchFails: bool, writeFails: bool)
      modifies this`language, this`i18nLanguage, this`storage
      ensures language == lang
      ensures i18nLanguage == (if switchFails then old(i18nLanguage) else lang)
      ensures storage == (if switchFails || writeFails then old(storage) else old(storage)[SavedKey := lang])
    {
      language := lang;
      if switchFails {
        return;
      }
      i18nLanguage := lang;
      if !writeFails {
        storage := storage[SavedKey := lang];
      }
    }

    function IsRTL(): (b: bool)
      reads this
      ensures b <==> language == "ar"
    {
      language == "ar"
    }
  }

  /** A language set without errors is the one the next start of the app selects, if it is non-empty. */
  lemma SavedLanguageComesBack(storage: map<string, string>, lang: string, deviceLanguage: Option<string>)
    requires lang != ""
    ensures SelectLanguage(DefaultLanguage, Stored(storage[SavedKey := lang], SavedKey), deviceLanguage) == lang
  {
  }

  /** Setting the empty language is forgotten: the next start chooses from the device again. */
  lemma EmptyLanguageNotKept(storage: map<string, string>, deviceLanguage: Option<string>)
    ensures SelectLanguage(DefaultLanguage, Stored(storage[SavedKey := ""], SavedKey), deviceLanguage)
      == SelectLanguage(DefaultLanguage, None, deviceLanguage)
  {
  }

  /** Saving and restarting: the provider's language after `setLanguage` and a later load agree. */
  method SetThenRestart(stored: map<string, string>, lang: string, deviceLanguage: Option<string>)
    returns (before: string, after: string)
    requires lang != ""
    ensures before == lang && after == lang
  {
    var first := new MobileLanguageProvider(stored);
    first.SetLanguage(lang, false, false);
    before := first.language;
    var second := new MobileLanguageProvider(first.storage);
    second.LoadSavedLanguage(false, deviceLanguage);
    after := second.language;
  }
}
