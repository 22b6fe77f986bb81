/** The interface language of both clients' `LanguageContext.jsx`
    (`client/src/contexts/LanguageContext.jsx` and `chillsync/client/src/contexts/LanguageContext.jsx`):
    the two share the state machine and differ only in the size of their tables, both keyed
    `en` and `zh`. The translated strings are not modelled; a lookup says which entry it hits. */
module Language {
  import opened Wrappers

  /** The local-storage key the choice is saved under. */
  const StorageKey := "language"

  /** The own keys of `translations`. */
  const Languages: set<string> := {"en", "zh"}

  /** The names every object literal inherits from `Object.prototype`; indexing `translations`
      with one of them yields a (truthy) function or object rather than `undefined`. */
  const Inherited: set<string> := {"constructor", "hasOwnProperty", "isPrototypeOf",
    "propertyIsEnumerable", "toLocaleString", "toString", "valueOf", "__proto__",
    "__defineGetter__", "__defineSetter__", "__lookupGetter__", "__lookupSetter__"}

  /** What `translations[key]` yields. */
  datatype Entry = Table(language: string) | PrototypeMember(name: string) | Undefined

  function Lookup(key: string): (r: Entry)
    ensures r.Table? <==> key in Languages
    ensures r.Undefined? <==> key !in Languages && key !in Inherited
    ensures r.Table? ==> r.language == key
  {
    if key in Languages then Table(key)
    else if key in Inherited then PrototypeMember(key)
    else Undefined
  }

  /** The `useState` initialiser: the saved value when it is truthy, otherwise `'en'`. */
  function Initial(saved: Option<string>): (r: string)
    ensures r != ""
    ensures saved.Some? && saved.value != "" ==> r == saved.value
    ensures saved.None? || saved.value == "" ==> r == "en"
  {
    if saved.Some? && saved.value != "" then saved.value else "en"
  }

  /** `toggleLanguage`'s updater: English goes to Chinese, anything else to English. */
  function Toggled(language: string): (r: string)
    ensures r in Languages
    ensures r == "zh" <==> language == "en"
  {
    if language == "en" then "zh" else "en"
  }

  /** Toggling twice is the identity on the two table languages; from any other value it ends
      on Chinese. */
  lemma ToggleTwice(language: string)
    ensures language in Languages ==> Toggled(Toggled(language)) == language
    ensures language !in Languages ==> Toggled(Toggled(language)) == "zh"
  {
    assert "en" != "zh";
  }

  /** The provider's state, with local storage. */
  class Provider {
    var language: string
    var storage: map<string, string>

    /** The persisting effect has run for the current language. */
    predicate Persisted()
      reads this
    {
      StorageKey in storage && storage[StorageKey] == language
    }

    /** `t`: the table of the current language. */
    function T(): Entry
      reads this
    {
      Lookup(language)
    }

    /** Mounting: the initial language, then the persisting effect. */
    constructor (storage: map<string, string>)
      ensures language == Initial(if StorageKey in storage then Some(storage[StorageKey]) else None)
      ensures this.storage == storage[StorageKey := language]
      ensures Persisted()
    {
      var initial := Initial(if StorageKey in storage then Some(storage[StorageKey]) else None);
      language := initial;
      this.storage := storage[StorageKey := initial];
    }

    method ToggleLanguage()
      modifies this
      requires Persisted()
      ensures language == Toggled(old(language))
      ensures storage == old(storage)[StorageKey := language]
      ensures Persisted() && T().Table?
    {
      language := Toggled(language);
      storage := storage[StorageKey := language];
    }

    /** `changeLanguage(lang)`: taken when `translations[lang]` is truthy, which holds for the
        table languages and for the inherited names; otherwise nothing changes. The effect only
        runs when the value changed, and then saves it. */
    method ChangeLanguage(lang: string)
      modifies this
      requires Persisted()
      ensures !Lookup(lang).Undefined? ==> language == lang && storage == old(storage)[StorageKey := lang]
      ensures Lookup(lang).Undefined? ==> language == old(language) && storage == old(storage)
      ensures Persisted()
    {
      if !Lookup(lang).Undefined? {
        var changed := lang != language;
        language := lang;
        if changed {
          storage := storage[StorageKey := language];
        }
      }
    }
  }

  /** A saved table language survives a reload, and a language outside the table and the
      inherited names is refused; an inherited name is accepted and leaves no table behind. */
  method ChangeThenReload(storage: map<string, string>, lang: string) returns (reloaded: string, table: Entry)
    ensures lang in Languages ==> reloaded == lang && table == Table(lang)
    ensures lang in Inherited ==> reloaded == lang && table == PrototypeMember(lang)
    ensures Lookup(lang).Undefined? ==> reloaded == Initial(if StorageKey in storage then Some(storage[StorageKey]) else None)
  {
    var p := new Provider(storage);
    p.ChangeLanguage(lang);
    table := p.T();
    var q := new Provider(p.storage);
    reloaded := q.language;
  }
}
