/** The language switcher button: a toggle over the language store, the
    flag it shows and its accessible label. */
module LanguageSwitcher {
  import opened I18n
  import opened LanguageStore

  /** The language a click requests: Arabic from English, English otherwise. */
  function ToggleTarget(l: Language): (r: Language)
    ensures r != l
    ensures l == En <==> r == Ar
  {
    if l == En then Ar else En
  }

  /** Toggling twice asks for the language one started from. */
  lemma ToggleTwiceRestores(l: Language)
    ensures ToggleTarget(ToggleTarget(l)) == l
  {
  }

  datatype Flag = UnitedKingdom | SaudiArabia

  /** The image the button shows for the current language. */
  function RenderFlag(l: Language): (f: Flag)
    ensures f == UnitedKingdom <==> l == En
    ensures f == SaudiArabia <==> l == Ar
  {
    match l
    case En => UnitedKingdom
    case Ar => SaudiArabia
  }

  function LanguageName(l: Language): string
  {
    match l
    case En => "English"
    case Ar => "Arabic"
  }

  /** The aria-label names the language a click switches to. */
  function AriaLabel(l: Language): (s: string)
    ensures s == "Switch to " + LanguageName(ToggleTarget(l)) + " language"
  {
    "Switch to " + (if l == En then "Arabic" else "English") + " language"
  }

  /** `toggleLanguage`: ask the store for the other language. */
  method ToggleLanguage(store: Store)
    modifies store
    ensures store.storageThrows == old(store.storageThrows)
    ensures old(store.storageThrows) ==> unchanged(store)
    ensures !old(store.storageThrows) ==>
              store.language == ToggleTarget(old(store.language)) &&
              store.language != old(store.language) &&
              store.storage == old(store.storage)[StorageKey := Code(store.language)] &&
              store.docLang == Code(store.language) && store.docDir == Direction(store.language)
  {
    store.SetLanguage(ToggleTarget(store.language));
  }

  /** Two clicks with working storage restore the language and leave the
      stored preference naming it. */
  method ToggleTwice(store: Store)
    modifies store
    ensures old(store.storageThrows) ==> unchanged(store)
    ensures !old(store.storageThrows) ==>
              store.language == old(store.language) &&
              store.storage == old(store.storage)[StorageKey := Code(old(store.language))]
  {
    ToggleLanguage(store);
    ToggleLanguage(store);
  }
}
