/** The language store behind `LanguageProvider`: the active language, the
    per-origin storage entry holding the preference, and the document's
    `lang` and `dir` attributes. */
module LanguageStore {
  import opened Wrappers
  import opened I18n

  const StorageKey := "portfolio-language-preference"

  /** The language code written to storage and to `document.documentElement.lang`. */
  function Code(l: Language): (c: string)
    ensures Parse(c) == Some(l)
  {
    match l
    case En => "en"
    case Ar => "ar"
  }

  /** A stored value is adopted only when it is exactly one of the two codes. */
  function Parse(s: string): (r: Option<Language>)
    ensures r == Some(En) <==> s == "en"
    ensures r == Some(Ar) <==> s == "ar"
    ensures r.None? <==> s != "en" && s != "ar"
  {
    if s == "en" then Some(En) else if s == "ar" then Some(Ar) else None
  }

  /** The text direction for a language: right-to-left for Arabic only. */
  function Direction(l: Language): (d: string)
    ensures d == "rtl" <==> l == Ar
    ensures d == "ltr" <==> l == En
  {
    match l
    case Ar => "rtl"
    case En => "ltr"
  }

  /** The language the mount-time load adopts, if any: nothing when reading
      storage throws, when the key is absent, or when its value is not a code. */
  function SavedLanguage(storage: map<string, string>, storageThrows: bool): (r: Option<Language>)
    ensures r.Some? <==>
              !storageThrows && StorageKey in storage && (storage[StorageKey] == "en" || storage[StorageKey] == "ar")
    ensures r.Some? ==> storage[StorageKey] == Code(r.value)
  {
    if storageThrows || StorageKey !in storage then None else Parse(storage[StorageKey])
  }

  /** Round trip: after the preference for `l` is written, loading finds `l`. */
  lemma SavedAfterWrite(storage: map<string, string>, l: Language)
    ensures SavedLanguage(storage[StorageKey := Code(l)], false) == Some(l)
  {
  }

  /** The store of one `LanguageProvider`. `storageThrows` stands for a
      browser whose storage raises on access. */
  class Store {
    var language: Language
    var storage: map<string, string>
    var docLang: string
    var docDir: string
    var storageThrows: bool

    /** Before the stored preference is read the language is English; the
        document attributes are whatever the page started with. */
    constructor (storage: map<string, string>, storageThrows: bool, docLang: string, docDir: string)
      ensures language == En
      ensures this.storage == storage && this.storageThrows == storageThrows
      ensures this.docLang == docLang && this.docDir == docDir
    {
      language := En;
      this.storage := storage;
      this.storageThrows := storageThrows;
      this.docLang := docLang;
      this.docDir := docDir;
    }

    /** The mount effect: adopt a valid stored value and mirror it on the
        document; otherwise change nothing. */
    method Mount()
      modifies this
      ensures storage == old(storage) && storageThrows == old(storageThrows)
      ensures match SavedLanguage(old(storage), old(storageThrows))
              case Some(l) => language == l && docLang == Code(l) && docDir == Direction(l)
              case None => language == old(language) && docLang == old(docLang) && docDir == old(docDir)
    {
      if storageThrows {
        return;
      }
      if StorageKey in storage {
        var saved := storage[StorageKey];
        if saved == "en" || saved == "ar" {
          var l := Parse(saved).value;
          language := l;
          docLang := saved;
          docDir := if saved == "ar" then "rtl" else "ltr";
        }
      }
    }

    /** `setLanguage`: write the preference, then the document attributes,
        then the state. If the write throws, none of the later steps happen. */
    method SetLanguage(l: Language)
      modifies this
      ensures storageThrows == old(storageThrows)
      ensures old(storageThrows) ==> unchanged(this)
      ensures !old(storageThrows) ==>
                storage == old(storage)[StorageKey := Code(l)] && language == l &&
                docLang == Code(l) && docDir == Direction(l)
    {
      if storageThrows {
        return;
      }
      storage := storage[StorageKey := Code(l)];
      docLang := Code(l);
      docDir := if l == Ar then "rtl" else "ltr";
      language := l;
    }
  }

  /** A successful `setLanguage(l)` followed by a reload (a fresh provider
      over the same storage, then its mount effect) yields `l`. */
  method ReloadAfterSet(l: Language, storage: map<string, string>, docLang: string, docDir: string)
    returns (reloaded: Language, dir: string)
    ensures reloaded == l && dir == Direction(l)
  {
    var before := new Store(storage, false, docLang, docDir);
    before.SetLanguage(l);
    var after := new Store(before.storage, false, docLang, docDir);
    after.Mount();
    reloaded, dir := after.language, after.docDir;
  }

  /** A failed storage read on mount leaves a fresh provider in English. */
  method MountWhenStorageThrows(storage: map<string, string>, docLang: string, docDir: string)
    returns (l: Language, lang: string, dir: string)
    ensures l == En && lang == docLang && dir == docDir
  {
    var s := new Store(storage, true, docLang, docDir);
    s.Mount();
    l, lang, dir := s.language, s.docLang, s.docDir;
  }

  /** What `useLanguageContext()` reports: the provider's language, or the
      context's default 'en' when no provider is mounted. */
  function ContextLanguage(provider: Store?): (l: Language)
    reads provider
    ensures provider == null ==> l == En
    ensures provider != null ==> l == provider.language
  {
    if provider == null then En else provider.language
  }

  /** The context's setter: the provider's `setLanguage`, or the default
      no-op when no provider is mounted. */
  method ContextSetLanguage(provider: Store?, l: Language)
    modifies provider
    ensures provider != null ==> provider.storageThrows == old(provider.storageThrows)
    ensures provider != null && !old(provider.storageThrows) ==>
              provider.storage == old(provider.storage)[StorageKey := Code(l)] && provider.language == l &&
              provider.docLang == Code(l) && provider.docDir == Direction(l)
    ensures provider != null && old(provider.storageThrows) ==> unchanged(provider)
  {
    if provider != null {
      provider.SetLanguage(l);
    }
  }
}
