/**
 * The web portal's translation context: the dictionaries, the resolver `t`
 * with its English retry and fallback chain, and the provider state (the
 * active language, its persisted copy and the document direction).
 */
module LanguageContext {
  import opened Util
  import opened Text

  /** A translation dictionary value: a string, or an object whose properties are values. */
  datatype Tree = Leaf(text: string) | Node(entries: map<string, Tree>)

  /** JavaScript truthiness of what a walk found: objects are truthy, strings when non-empty. */
  predicate Truthy(v: Option<Tree>)
  {
    v.Some? && (v.value.Node? || v.value.text != "")
  }

  /** One step of the walk: `value[k]` on an object, `undefined` on anything else. */
  function Step(v: Option<Tree>, k: string): Option<Tree>
  {
    if v.Some? && v.value.Node? && k in v.value.entries then Some(v.value.entries[k]) else None
  }

  /** The value reached by descending through `keys` one segment at a time. */
  function WalkSpec(v: Option<Tree>, keys: seq<string>): Option<Tree>
    decreases |keys|
  {
    if keys == [] then v else WalkSpec(Step(v, keys[0]), keys[1..])
  }

  /** `translations[language]`: the dictionary of a language, if it has one. */
  function Dictionary(translations: map<string, Tree>, language: string): Option<Tree>
  {
    if language in translations then Some(translations[language]) else None
  }

  /** The walk loop of `t`: stop with `undefined` as soon as the value is not an object. */
  method Walk(root: Option<Tree>, keys: seq<string>) returns (value: Option<Tree>)
    ensures value == WalkSpec(root, keys)
  {
    value := root;
    var i := 0;
    while i < |keys|
      invariant 0 <= i <= |keys|
      invariant WalkSpec(value, keys[i..]) == WalkSpec(root, keys)
    {
      if value.Some? && value.value.Node? {
        var entries := value.value.entries;
        value := if keys[i] in entries then Some(entries[keys[i]]) else None;
        assert keys[i..][1..] == keys[i + 1..];
      } else {
        WalkStuck(value, keys[i..]);
        value := None;
        break;
      }
      i := i + 1;
    }
  }

  /** The value found for a dotted key: the active language first, then English. */
  function Found(translations: map<string, Tree>, language: string, keys: seq<string>): Option<Tree>
  {
    var value := WalkSpec(Dictionary(translations, language), keys);
    if !Truthy(value) && language != "en" then WalkSpec(Dictionary(translations, "en"), keys) else value
  }

  /**
   * `t(key, fallback)`. An absent fallback and an empty one behave alike, so
   * `""` stands for both. The result is a `Tree` because, on a nested
   * dictionary, a key naming an inner object yields that object.
   */
  function Resolve(translations: map<string, Tree>, language: string, key: string, fallback: string): Tree
  {
    if '.' !in key then Leaf(Or(fallback, key))
    else
      var value := Found(translations, language, Split(key, '.'));
      if Truthy(value) then value.value else Leaf(Or(fallback, Or(LastPart(key, '.'), key)))
  }

  /** The imperative `t`: both walks are loops. */
  method Translate(translations: map<string, Tree>, language: string, key: string, fallback: string)
    returns (r: Tree)
    ensures r == Resolve(translations, language, key, fallback)
  {
    if '.' !in key {
      return Leaf(Or(fallback, key));
    }
    var keys := Split(key, '.');
    var value := Walk(Dictionary(translations, language), keys);
    if !Truthy(value) && language != "en" {
      var englishValue := Walk(Dictionary(translations, "en"), keys);
      value := englishValue;
    }
    if Truthy(value) {
      r := value.value;
    } else {
      r := Leaf(Or(fallback, Or(LastPart(key, '.'), key)));
    }
  }

  // ---------------------------------------------------------------
  // Properties of the resolver

  /** A walk that meets a non-object with segments left yields `undefined`. */
  lemma {:induction false} WalkStuck(v: Option<Tree>, keys: seq<string>)
    requires keys != [] && !(v.Some? && v.value.Node?)
    ensures WalkSpec(v, keys) == None
    decreases |keys|
  {
    if |keys| > 1 {
      WalkStuck(None, keys[1..]);
    }
  }

  /** A key without '.' is returned as the fallback, or as itself, and no dictionary is read. */
  lemma PlainKey(translations: map<string, Tree>, language: string, key: string, fallback: string)
    requires '.' !in key
    ensures Resolve(translations, language, key, fallback) == Leaf(if fallback != "" then fallback else key)
  {
  }

  /** The English dictionary is read only when the active language's walk found nothing truthy. */
  lemma EnglishOnlyOnMiss(t1: map<string, Tree>, t2: map<string, Tree>, language: string, key: string, fallback: string)
    requires language in t1 && language in t2 && t1[language] == t2[language]
    requires language != "en" ==> Truthy(WalkSpec(Dictionary(t1, language), Split(key, '.')))
    ensures Resolve(t1, language, key, fallback) == Resolve(t2, language, key, fallback)
  {
  }

  /** A language without a dictionary (a stored 'ar', say) is resolved entirely in English. */
  lemma MissingLanguageUsesEnglish(translations: map<string, Tree>, language: string, key: string, fallback: string)
    requires language !in translations
    ensures Resolve(translations, language, key, fallback) == Resolve(translations, "en", key, fallback)
  {
    if '.' in key {
      WalkStuck(None, Split(key, '.'));
    }
  }

  /** A key containing the separator splits into at least two segments. */
  lemma SplitAtSeparator(key: string)
    requires '.' in key
    ensures |Split(key, '.')| >= 2
  {
    JoinSplit(key, '.');
  }

  /** For a non-empty key, `t` never yields the empty string. */
  lemma NonEmptyResult(translations: map<string, Tree>, language: string, key: string, fallback: string)
    requires key != ""
    ensures Resolve(translations, language, key, fallback) != Leaf("")
  {
  }

  /** A dictionary as the portal ships it: one object whose values are all strings. */
  predicate Flat(d: Tree)
  {
    d.Node? && forall k :: k in d.entries ==> d.entries[k].Leaf?
  }

  /** Walking a flat dictionary along two or more segments always fails. */
  lemma FlatWalkFails(d: Tree, keys: seq<string>)
    requires Flat(d) && |keys| >= 2
    ensures WalkSpec(Some(d), keys) == None
  {
    var v := Step(Some(d), keys[0]);
    assert keys[1..] != [];
    WalkStuck(v, keys[1..]);
  }

  /**
   * With flat dictionaries, no dotted key is ever found: the result is the
   * fallback, else the last segment, else the key itself.
   */
  lemma DottedKeyNeverResolves(translations: map<string, Tree>, language: string, key: string, fallback: string)
    requires forall l :: l in translations ==> Flat(translations[l])
    requires '.' in key
    ensures Resolve(translations, language, key, fallback) == Leaf(Or(fallback, Or(LastPart(key, '.'), key)))
  {
    var keys := Split(key, '.');
    SplitAtSeparator(key);
    if language in translations {
      FlatWalkFails(translations[language], keys);
    } else {
      WalkStuck(None, keys);
    }
    if "en" in translations {
      FlatWalkFails(translations["en"], keys);
    } else {
      WalkStuck(None, keys);
    }
  }

  /** An excerpt of the shipped dictionaries: the navigation entries of each language. */
  function ShippedDictionaries(): (t: map<string, Tree>)
    ensures forall l :: l in t ==> Flat(t[l])
  {
    map["en" := EnglishNav(), "am" := AmharicNav(), "or" := OromoNav()]
  }

  function EnglishNav(): (d: Tree)
    ensures Flat(d)
  {
    Node(map[
      "nav.dashboard" := Leaf("Dashboard"), "nav.bikes" := Leaf("Bike Management"),
      "nav.users" := Leaf("User Management"), "nav.userTypes" := Leaf("User Types"),
      "nav.permissions" := Leaf("User Permissions"), "nav.reports" := Leaf("Financial Reports")])
  }

  function AmharicNav(): (d: Tree)
    ensures Flat(d)
  {
    Node(map[
      "nav.dashboard" := Leaf("ዳሽቦርድ"), "nav.bikes" := Leaf("ብስክሌት አስተዳደር"),
      "nav.users" := Leaf("ተጠቃሚዎች አስተዳደር"), "nav.userTypes" := Leaf("የተጠቃሚ ዓይነቶች"),
      "nav.permissions" := Leaf("የተጠቃሚ ፈቃዶች"), "nav.reports" := Leaf("የገንዘብ ሪፖርቶች")])
  }

  function OromoNav(): (d: Tree)
    ensures Flat(d)
  {
    Node(map[
      "nav.dashboard" := Leaf("Gabatee Hojii"), "nav.bikes" := Leaf("Bulchiinsa Biskileetii"),
      "nav.users" := Leaf("Bulchiinsa Fayyadamtootaa"), "nav.userTypes" := Leaf("Gosoota Fayyadamtootaa"),
      "nav.permissions" := Leaf("Hayyama Fayyadamtootaa"), "nav.reports" := Leaf("Gabaasa Maallaqaa")])
  }

  /** 'nav.dashboard' shows 'dashboard' in every language, although each dictionary has that key. */
  lemma DashboardKeyShowsLastSegment(language: string)
    ensures Resolve(ShippedDictionaries(), language, "nav.dashboard", "") == Leaf("dashboard")
  {
    DashboardLastPart("nav.dashboard");
    DottedKeyNeverResolves(ShippedDictionaries(), language, "nav.dashboard", "");
  }

  /** 'nav.dashboard' holds a dot and ends in 'dashboard'. */
  lemma DashboardLastPart(key: string)
    requires key == "nav.dashboard"
    ensures '.' in key && LastPart(key, '.') == "dashboard"
  {
    assert key == "nav" + ['.'] + "dashboard";
    assert key[3] == '.';
    SplitJoin(["nav", "dashboard"], '.');
    assert Join(["nav", "dashboard"], '.') == key;
  }

  /**
   * The lookup the flat dictionaries call for: the whole key is one property
   * of the language's dictionary, with the same English retry and fallback
   * chain as `t`.
   */
  function ResolveFlat(translations: map<string, Tree>, language: string, key: string, fallback: string): Tree
  {
    var value := Step(Dictionary(translations, language), key);
    var found := if !Truthy(value) && language != "en" then Step(Dictionary(translations, "en"), key) else value;
    if Truthy(found) then found.value else Leaf(Or(fallback, Or(LastPart(key, '.'), key)))
  }

  /**
   * The flat lookup shows the active language's entry when it has a
   * non-empty one, else the English entry when that is non-empty, else the
   * fallback chain of `t`.
   */
  lemma ResolveFlatFinds(translations: map<string, Tree>, language: string, key: string, fallback: string)
    ensures var own := Step(Dictionary(translations, language), key);
      var english := Step(Dictionary(translations, "en"), key);
      && (Truthy(own) ==> ResolveFlat(translations, language, key, fallback) == own.value)
      && (!Truthy(own) && language != "en" && Truthy(english) ==>
            ResolveFlat(translations, language, key, fallback) == english.value)
      && (!Truthy(own) && (language == "en" || !Truthy(english)) ==>
            ResolveFlat(translations, language, key, fallback) == Leaf(Or(fallback, Or(LastPart(key, '.'), key))))
  {
  }

  /** For a dotted key that neither dictionary holds, the flat lookup and `t` agree. */
  lemma ResolveFlatAgreesOnMiss(translations: map<string, Tree>, language: string, key: string, fallback: string)
    requires forall l :: l in translations ==> Flat(translations[l])
    requires '.' in key
    requires !Truthy(Step(Dictionary(translations, language), key)) && !Truthy(Step(Dictionary(translations, "en"), key))
    ensures ResolveFlat(translations, language, key, fallback) == Resolve(translations, language, key, fallback)
  {
    DottedKeyNeverResolves(translations, language, key, fallback);
  }

  /**
   * With the flat lookup 'nav.dashboard' shows each shipped language's own
   * entry, and English for a language without a dictionary.
   */
  lemma DashboardKeyFlat(language: string)
    ensures language == "en" ==> ResolveFlat(ShippedDictionaries(), language, "nav.dashboard", "") == Leaf("Dashboard")
    ensures language == "am" ==> ResolveFlat(ShippedDictionaries(), language, "nav.dashboard", "") == Leaf("ዳሽቦርድ")
    ensures language == "or" ==> ResolveFlat(ShippedDictionaries(), language, "nav.dashboard", "") == Leaf("Gabatee Hojii")
    ensures language !in ShippedDictionaries() ==> ResolveFlat(ShippedDictionaries(), language, "nav.dashboard", "") == Leaf("Dashboard")
  {
    var t := ShippedDictionaries();
    var english := Step(Some(EnglishNav()), "nav.dashboard");
    assert english == Some(Leaf("Dashboard"));
    if language == "am" {
      assert Step(Dictionary(t, language), "nav.dashboard") == Some(Leaf("ዳሽቦርድ"));
    } else if language == "or" {
      assert Step(Dictionary(t, language), "nav.dashboard") == Some(Leaf("Gabatee Hojii"));
    } else if language !in t {
      assert Step(Dictionary(t, language), "nav.dashboard") == None;
    }
  }

  // ---------------------------------------------------------------
  // Provider state

  const StorageKey := "bisklet-language"

  /** The language the provider starts with: the stored one when it is a non-empty string, else 'en'. */
  function InitialLanguage(storage: map<string, string>): (l: string)
    ensures StorageKey in storage && storage[StorageKey] != "" ==> l == storage[StorageKey]
    ensures !(StorageKey in storage && storage[StorageKey] != "") ==> l == "en"
  {
    if StorageKey in storage then Or(storage[StorageKey], "en") else "en"
  }

  /** The document direction for a language. */
  function Direction(language: string): (d: string)
    ensures d == "rtl" <==> language == "ar"
    ensures d == "rtl" || d == "ltr"
  {
    if language == "ar" then "rtl" else "ltr"
  }

  class LanguageProvider {
    var language: string
    /** The browser's localStorage. */
    var storage: map<string, string>
    /** `document.documentElement.dir` and `.lang`. */
    var dir: string
    var documentLang: string

    /** The provider state is always what the language effect last wrote. */
    ghost predicate Valid()
      reads this
    {
      StorageKey in storage && storage[StorageKey] == language
      && dir == Direction(language) && documentLang == language
    }

    /** Mounting: read the stored language, then run the effect once. */
    constructor (stored: map<string, string>)
      ensures Valid()
      ensures language == InitialLanguage(stored)
      ensures storage == stored[StorageKey := language]
    {
      language := InitialLanguage(stored);
      storage := stored[StorageKey := InitialLanguage(stored)];
      dir := Direction(InitialLanguage(stored));
      documentLang := InitialLanguage(stored);
    }

    /** `setLanguage`, followed by the effect that persists it and updates the document. */
    method SetLanguage(lang: string)
      requires Valid()
      modifies this
      ensures Valid()
      ensures language == lang
      ensures storage == old(storage)[StorageKey := lang]
    {
      language := lang;
      storage := storage[StorageKey := lang];
      dir := Direction(lang);
      documentLang := lang;
    }

    function IsRTL(): (b: bool)
      reads this
      requires Valid()
      ensures b <==> dir == "rtl"
    {
      language == "ar"
    }

    /** `t` as the provider offers it: the resolver over the shipped dictionaries and the current language. */
    method T(key: string, fallback: string) returns (r: Tree)
      ensures r == Resolve(ShippedDictionaries(), language, key, fallback)
    {
      r := Translate(ShippedDictionaries(), language, key, fallback);
    }
  }
}
