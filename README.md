# portfolio-main, modelled in Dafny

This project models the behaviour behind the pages of a bilingual (English and Arabic) personal portfolio site built with Next.js. It does not model how the pages look. The modelled parts are:

- **Translation resolver** (`I18n`). `t(key)` splits the key on dots and walks the active language's dictionary. At the first missing segment it warns once and returns the key itself. Otherwise it returns `String(value)`.
- **Language store** (`LanguageStore`). It holds the active language. It reads the saved preference from browser storage on mount. `setLanguage` writes the storage entry and the document's `lang`/`dir` attributes. Storage that throws is a flag of the store.
- **Language switcher** (`LanguageSwitcher`). Toggling between the two languages, the flag shown and the accessible label.
- **Contact form** (`Contact`). The three validation rules, including the e-mail pattern `^[^\s@]+@[^\s@]+\.[^\s@]+$`. The input-name mapping with error clearing. The submit path through the e-mail relay, whose reply is a parameter.
- **Analytics** (`Analytics`). The scroll-depth tracker reports each of 25/50/75/90 % once. It also covers the form and project event names.
- **Performance monitoring** (`Performance`). The web-vitals rating, the running CLS total of the layout-shift observer, and the LCP and FID values.
- **Star cursor** (`StarCursor`). A throttled mouse handler (50 ms) appends three stars per accepted move. A delayed trim keeps the newest twelve. The whole effect exists only on desktop widths.
- **Navigation bar** (`Navbar`). The first section whose interval holds `scrollY + 100` becomes active. This module also covers link activity, the mobile menu and the theme classes.
- **Media-query hooks** (`MediaQuery`). Breakpoint query strings, what they match, and the array update of `useMediaQueries`.
- **Flicker text** (`FlickerText`). The per-character glyphs and keys, the timing formulas and the delay patterns.
- **Projects section** (`Projects`). Cycling border colours, and the reversed, sticky mobile order.
- **Middleware** (`Middleware`). A 301 redirect (Moved Permanently, section 15.4.2 of RFC 9110) from any host containing `netlify.app` to `https://3mmar.info`, keeping the path.

`Text` holds the JavaScript string operations the others rely on: decimal rendering, `includes`, and `split`/`join` on one character. `Wrappers` holds `Option`.

State that the source updates in place is a class with `modifies` clauses. This covers the language provider, the contact form, the scroll listener, the CLS observer, the star field, the navigation bar and the media-query hooks. The source's explicit loops are loops here, each proved against a specification function: the key walk (`for … of`), the threshold scan, the layout-shift and FID `forEach` callbacks, and the array copy. `navigation.find` and `Array.from` are library calls and are modelled as recursive and comprehension functions.

Behaviours of the code worth noting:

- `setLanguage` whose storage write throws changes nothing, not even the in-memory language. The write happens before the state update inside the same `try`.
- A missing or invalid saved preference leaves the document's `lang`/`dir` untouched on mount. No default direction is applied.
- A key that reaches an inner dictionary object yields `"[object Object]"`, not the key.
- A leaf that is the empty string yields `""`.

## Model

| member | source | states |
|---|---|---|
| `Text.NatToString` | src/utils/analytics.ts:117 | the decimal text of a number, as a template literal gives it: at least one character, all of them digits. DecimalRoundTrip and NatToStringInjective specify it further |
| `Text.Includes` | middleware.ts:8 | `String.prototype.includes`, specified by IncludesIffOccurs and IncludesInContext |
| `Text.DecimalRoundTrip` | src/utils/analytics.ts:117 | reading the decimal text of `n` back gives `n` |
| `Text.NatToStringInjective` | src/components/FlickerText.tsx:39 | different numbers render to different decimal texts |
| `Text.IncludesIffOccurs` | middleware.ts:8 | `includes` holds exactly when the substring occurs at some position |
| `Text.IncludesInContext` | middleware.ts:8 | a string with `sub` anywhere inside it includes `sub` |
| `Text.Split` | src/utils/i18n.ts:30 | `split` on one character always yields at least one part |
| `Text.SplitPartsHaveNoSeparator` | src/utils/i18n.ts:30 | no part of a split contains the separator |
| `Text.JoinSplit` | src/utils/i18n.ts:30 | joining the parts of a split with the separator restores the string |
| `Text.SplitJoin` | src/utils/i18n.ts:30 | splitting the join of separator-free parts restores the parts |
| `Text.SplitWithoutSeparator` | src/utils/i18n.ts:30 | a string without the separator splits into itself alone |
| `I18n.Lookup` | src/utils/i18n.ts:34-35 | one step of the walk succeeds exactly on an object holding the segment, and yields that child |
| `I18n.Stringify` | src/utils/i18n.ts:42 | `String(result)`, specified by TranslatedLeaf (a string's own text) and TranslatedInnerNode ("[object Object]") |
| `I18n.Resolve` | src/utils/i18n.ts:33-40 | no segments reach the dictionary itself; a walk that succeeds starts in an object holding the first segment; a walk from a string leaf misses at once |
| `I18n.Translated` | src/utils/i18n.ts:30-42 | a dictionary that is a bare string gives back the key; any result other than the key comes from a walk that succeeded |
| `I18n.Translate` | src/utils/i18n.ts:28-45 | the loop returns the reference translation: `String` of the value reached, or the key on a miss. On a miss it emits exactly one warning, "Translation key not found: " + key, after looking up the resolved prefix plus the failing segment. On success it emits no warning and looks up every segment |
| `I18n.ResolveAppend` | src/utils/i18n.ts:33-40 | segments are looked up left to right: resolving `a + b` is resolving `b` from wherever `a` led |
| `I18n.MissStopsTheWalk` | src/utils/i18n.ts:34-39 | once a segment misses, no later segment can make the walk succeed |
| `I18n.MissIffShortPrefix` | src/utils/i18n.ts:33-40 | the walk misses exactly when fewer segments resolve than the key has |
| `I18n.TranslatedAlongPath` | src/utils/i18n.ts:30-42 | a key joined from dot-free segments is resolved along exactly those segments, and falls back to the key |
| `I18n.TranslatedTopLevel` | src/utils/i18n.ts:30-42 | a key without a dot is a single top-level lookup |
| `I18n.TranslatedLeaf` | src/utils/i18n.ts:42 | a walk that ends on a string leaf returns that string |
| `I18n.TranslatedInnerNode` | src/utils/i18n.ts:42 | a walk that ends on a nested object returns "[object Object]", not the key |
| `I18n.HelloExample` | src/utils/i18n.ts:28-45 | with `a.b` = Hello/مرحبا, `a.b` gives each language's text and `a.c` gives `a.c` in both |
| `LanguageStore.Code` | src/context/LanguageContext.tsx:53-54 | the code written for a language is read back as that language |
| `LanguageStore.Parse` | src/context/LanguageContext.tsx:37-38 | a stored value is adopted exactly when it is "en" or "ar": "en" gives English and "ar" gives Arabic |
| `LanguageStore.Direction` | src/context/LanguageContext.tsx:41 | the direction is "rtl" exactly for Arabic and "ltr" exactly for English |
| `LanguageStore.SavedLanguage` | src/context/LanguageContext.tsx:36-45 | a language is adopted on mount exactly when storage can be read, holds the key, and the value is "en" or "ar"; the adopted language's code is the stored value |
| `LanguageStore.SavedAfterWrite` | src/context/LanguageContext.tsx:35-60 | after the preference for `l` is written, loading finds `l` |
| `LanguageStore.Store.constructor` | src/context/LanguageContext.tsx:32 | a new provider starts in English |
| `LanguageStore.Store.Mount` | src/context/LanguageContext.tsx:35-46 | a valid saved preference becomes the language and sets `lang`/`dir`; otherwise, or when storage throws, nothing changes |
| `LanguageStore.Store.SetLanguage` | src/context/LanguageContext.tsx:49-60 | storage, `lang`, `dir` and the language all take the new value; when storage throws nothing changes |
| `LanguageStore.ReloadAfterSet` | src/context/LanguageContext.tsx:35-60 | set, then reload, then mount yields the language that was set, with its direction |
| `LanguageStore.MountWhenStorageThrows` | src/context/LanguageContext.tsx:35-46 | failing storage leaves a new provider in English with the document untouched |
| `LanguageStore.ContextLanguage` | src/context/LanguageContext.tsx:16-22 | without a provider the context reports English, otherwise the provider's language |
| `LanguageStore.ContextSetLanguage` | src/context/LanguageContext.tsx:16-22 | without a provider the setter is a no-op. With a provider whose storage works, the preference is saved, the document's `lang`/`dir` follow the language and the language is set. If the storage throws, the provider is unchanged |
| `LanguageSwitcher.ToggleTarget` | src/components/LanguageSwitcher.tsx:20-22 | the requested language always differs from the current one: Arabic exactly from English |
| `LanguageSwitcher.ToggleTwiceRestores` | src/components/LanguageSwitcher.tsx:20-22 | toggling twice requests the starting language |
| `LanguageSwitcher.RenderFlag` | src/components/LanguageSwitcher.tsx:25-45 | the UK flag exactly for English, the Saudi flag exactly for Arabic |
| `LanguageSwitcher.LanguageName` | src/components/LanguageSwitcher.tsx:57 | the language names in the label, specified by AriaLabel |
| `LanguageSwitcher.AriaLabel` | src/components/LanguageSwitcher.tsx:57 | the label names the language a click switches to |
| `LanguageSwitcher.ToggleLanguage` | src/components/LanguageSwitcher.tsx:20-22 | with working storage, a click switches to the other language and persists it; with failing storage it changes nothing |
| `LanguageSwitcher.ToggleTwice` | src/components/LanguageSwitcher.tsx:20-22 | two clicks restore the language and leave it as the stored preference |
| `Contact.Trim` | grubby-giant/src/components/Contact.tsx:62 | `String.prototype.trim`, specified by TrimStartSpec, TrimEndSpec and TrimEmptyIffBlank |
| `Contact.TrimStartSpec` | grubby-giant/src/components/Contact.tsx:62 | the result is a suffix, everything dropped is whitespace, and it does not start with whitespace |
| `Contact.TrimEndSpec` | grubby-giant/src/components/Contact.tsx:62 | the result is a prefix, everything dropped is whitespace, and it does not end with whitespace |
| `Contact.TrimStartEmptyIffBlank` | grubby-giant/src/components/Contact.tsx:62 | trimming the start leaves nothing exactly for an all-whitespace string |
| `Contact.TrimEndEmptyIffBlank` | grubby-giant/src/components/Contact.tsx:62 | trimming the end leaves nothing exactly for an all-whitespace string |
| `Contact.TrimEmptyIffBlank` | grubby-giant/src/components/Contact.tsx:62-72 | `!value.trim()` holds exactly for an all-whitespace value |
| `Contact.MatchesEmailPattern` | grubby-giant/src/components/Contact.tsx:68 | the regular-expression test, specified in both directions by EmailPatternIff |
| `Contact.EmailPatternIff` | grubby-giant/src/components/Contact.tsx:68 | the pattern matches exactly the strings that are non-empty plain text, one `@`, non-empty plain text, a dot, and non-empty plain text. Plain text has no whitespace and no `@` |
| `Contact.NameError` | grubby-giant/src/components/Contact.tsx:62-64 | the only name error is "Name is required", and an empty name gets it |
| `Contact.EmailError` | grubby-giant/src/components/Contact.tsx:66-70 | the only e-mail errors are "Email is required" and "Please enter a valid email address", and an empty value gets the first |
| `Contact.MessageError` | grubby-giant/src/components/Contact.tsx:72-76 | the only message errors are "Message is required" and the 10-character message; an empty message gets the first, and a message without error has at least 10 characters |
| `Contact.Record` | grubby-giant/src/components/Contact.tsx:59-79 | storing one rule's message under its field, specified by RecordEntries |
| `Contact.RecordEntries` | grubby-giant/src/components/Contact.tsx:59-79 | recording sets the field exactly when there is an error, holding that error, and keeps every other entry |
| `Contact.ValidationErrors` | grubby-giant/src/components/Contact.tsx:59-79 | the record built by the three rules has no field but `name`, `email` and `message`, and holds only the five rule messages |
| `Contact.CheckName` | grubby-giant/src/components/Contact.tsx:62-64 | the name step adds exactly the name rule's error to the record it is given |
| `Contact.CheckEmail` | grubby-giant/src/components/Contact.tsx:66-70 | the e-mail step adds exactly the e-mail rule's error to the record it is given |
| `Contact.CheckMessage` | grubby-giant/src/components/Contact.tsx:72-76 | the message step adds exactly the message rule's error to the record it is given |
| `Contact.NameErrorMeaning` | grubby-giant/src/components/Contact.tsx:62-64 | a name error exactly for a blank name |
| `Contact.EmailErrorMeaning` | grubby-giant/src/components/Contact.tsx:66-70 | "required" exactly for a blank value, "invalid" exactly for a non-blank value of the wrong shape, and no error exactly for a valid shape |
| `Contact.MessageErrorMeaning` | grubby-giant/src/components/Contact.tsx:72-76 | "required" exactly for a blank message, "too short" exactly for a non-blank one under 10 characters, none otherwise |
| `Contact.ValidationErrorsFields` | grubby-giant/src/components/Contact.tsx:59-79 | the error record has only the three fields, each present exactly when its rule fails, holding that rule's message |
| `Contact.ValidIffRulesPass` | grubby-giant/src/components/Contact.tsx:59-79 | validation succeeds exactly when the name is not blank, the e-mail has the right shape, and the message is non-blank with at least 10 characters |
| `Contact.ValidFormShape` | grubby-giant/src/components/Contact.tsx:59-79 | a form that validates has a non-empty name, a message of at least 10 characters, and an e-mail with exactly one `@` |
| `Contact.FieldKey` | grubby-giant/src/components/Contact.tsx:86-97 | `user_name`, `user_email` and `message` write `name`, `email` and `message`; any other input name writes itself |
| `Contact.ClearedErrors` | grubby-giant/src/components/Contact.tsx:99-105 | an edit removes at most the mapped field's error, and only when it is shown; every other error stays as it was |
| `Contact.UnmappedEditKeepsErrors` | grubby-giant/src/components/Contact.tsx:99-105 | an input name outside the map clears nothing |
| `Contact.ContactForm.constructor` | grubby-giant/src/components/Contact.tsx:33-40 | the form starts empty, with no errors, not submitting, status idle |
| `Contact.ContactForm.ValidateForm` | grubby-giant/src/components/Contact.tsx:59-80 | the error record is replaced by the rules' record for the current values, and success means it is empty |
| `Contact.ContactForm.HandleChange` | grubby-giant/src/components/Contact.tsx:86-106 | the value lands under the mapped field, and the errors become the cleared record |
| `Contact.ContactForm.BeginSend` | grubby-giant/src/components/Contact.tsx:129-130 | the form is submitting and the status is reset to idle |
| `Contact.ContactForm.CompleteSend` | grubby-giant/src/components/Contact.tsx:132-151 | only the reply "OK" gives success and empties the form; any other reply or a throw gives error; submitting ends either way |
| `Contact.ContactForm.SendIfConfigured` | grubby-giant/src/components/Contact.tsx:119-151 | it sends exactly when all three relay settings are set and non-empty; otherwise the status becomes error and nothing else changes |
| `Contact.ContactForm.HandleSubmit` | grubby-giant/src/components/Contact.tsx:112-152 | it always recomputes the errors. An invalid form changes nothing else. A valid form without relay settings gets status error. A valid, configured form is sent, and the reply decides the status |
| `Analytics.NewlyReached` | src/utils/analytics.ts:112-121 | one scroll reports exactly the thresholds that are reached and not tracked before |
| `Analytics.Step` | src/utils/analytics.ts:112-121 | one scroll's effect on the tracked depths, specified by StepKeepsWellTracked |
| `Analytics.Run` | src/utils/analytics.ts:124 | the tracked depths after a sequence of scroll events, specified by RunReportsEachThresholdOnce |
| `Analytics.NewlyReachedAscending` | src/utils/analytics.ts:103-121 | over ascending thresholds the reported depths come out ascending |
| `Analytics.ThresholdsAscending` | src/utils/analytics.ts:103 | 25 < 50 < 75 < 90 |
| `Analytics.StepKeepsWellTracked` | src/utils/analytics.ts:112-121 | one scroll keeps the tracked depths distinct thresholds and includes every threshold the scroll reached |
| `Analytics.RunReportsEachThresholdOnce` | src/utils/analytics.ts:104-124 | over any sequence of scrolls each threshold is reported at most once, the record only grows, and every reached threshold is reported |
| `Analytics.ScrollTracker.constructor` | src/utils/analytics.ts:103-104 | the tracker starts with nothing tracked and nothing sent |
| `Analytics.ScrollTracker.CalculateScrollDepth` | src/utils/analytics.ts:106-122 | the loop appends exactly the newly reached thresholds to the tracked depths and sends one event per threshold, in threshold order |
| `Analytics.ScrollLabels` | src/utils/analytics.ts:117 | the four labels are "Scrolled 25%" … "Scrolled 90%" |
| `Analytics.TrackFormInteraction` | src/utils/analytics.ts:65-81 | the event has category "form", the form name as label, the given error message, and the action's event name |
| `Analytics.FormEventName` | src/utils/analytics.ts:70-74 | the action-to-event-name table, specified by FormEventNamesDistinct |
| `Analytics.FormEventNamesDistinct` | src/utils/analytics.ts:70-74 | different form actions map to different event names, all starting "form_" |
| `Analytics.ProjectEventName` | src/utils/analytics.ts:55-56 | "project_view" exactly for the action "view", "project_click" for every other action |
| `Performance.Classify` | src/utils/performance.ts:101-110 | good exactly up to and including the first limit; with ordered limits, poor exactly above the second |
| `Performance.GetRating` | src/utils/performance.ts:99-113 | good exactly for an unknown metric or a value up to the metric's first limit; poor exactly for a known metric above its second limit |
| `Performance.ReportWebVital` | src/utils/performance.ts:80-96 | the report keeps the metric's name and value, and carries the rating: good and poor under the same conditions as `getRating` |
| `Performance.RatingByLimits` | src/utils/performance.ts:99-113 | for LCP, FID and CLS: good up to the first limit, needs-improvement up to the second, poor above. Any other metric is good |
| `Performance.RatingMonotone` | src/utils/performance.ts:99-113 | for a fixed metric a larger value never gets a better rating |
| `Performance.BoundariesRateBetter` | src/utils/performance.ts:99-113 | values exactly at 2500/4000, 100/300 and 0.1/0.25 take the better rating |
| `Performance.ShiftSum` | src/utils/performance.ts:60-64 | the CLS sum of a batch, specified by ShiftSumAppend and IgnoredEntryAddsNothing |
| `Performance.ShiftSumAppend` | src/utils/performance.ts:57-66 | the counted total of two batches is the sum of their totals |
| `Performance.IgnoredEntryAddsNothing` | src/utils/performance.ts:62-64 | an entry with recent input or a falsy value does not change the total |
| `Performance.ClsObserver.constructor` | src/utils/performance.ts:57 | the CLS total starts at 0 |
| `Performance.ClsObserver.OnEntries` | src/utils/performance.ts:58-67 | the loop adds exactly the counted values of the batch to the running total and reports the new total once |
| `Performance.LcpValue` | src/utils/performance.ts:19-30 | a non-empty batch reports the last entry's render time if truthy, else its load time if truthy, else 0; an empty batch reports nothing |
| `Performance.LcpUsesLastEntryOnly` | src/utils/performance.ts:20-28 | earlier entries of a batch never affect the LCP value |
| `Performance.FidValues` | src/utils/performance.ts:41-46 | the FID values of a batch, specified by FidValuesAppend and FidValuesSingle (every truthy entry's delay, in entry order) and FidValuesFromTruthyEntries |
| `Performance.FidValuesFromTruthyEntries` | src/utils/performance.ts:41-46 | every reported value is the delay of an entry with a truthy processing start; all entries are reported when all have one, and none when none has |
| `Performance.FidValuesAppend` | src/utils/performance.ts:41-46 | the values of two consecutive runs of entries are those of the first run followed by those of the second, so entries are reported in order and none is skipped |
| `Performance.FidValuesSingle` | src/utils/performance.ts:42-45 | one entry reports its delay `processingStart - startTime` exactly when its processing start is truthy, and nothing otherwise |
| `Performance.OnFidEntries` | src/utils/performance.ts:39-48 | the `forEach` loop sends one FID report per value of the batch, in order, each rated by `getRating` |
| `StarCursor.Pick` | src/components/StarCursor.tsx:47-49 | `floor(random * n)` is a valid index below `n` |
| `StarCursor.MakeStar` | src/components/StarCursor.tsx:43-50 | a star has id `now + i`, lies within 10 px of the pointer on each axis, uses a listed character and colour, and has a size in [0.7, 1) |
| `StarCursor.NewStars` | src/components/StarCursor.tsx:43-50 | an accepted move creates three well-formed stars with ids `now`, `now + 1`, `now + 2` |
| `StarCursor.BatchIdsDistinct` | src/components/StarCursor.tsx:43-44 | the stars of one batch have distinct ids |
| `StarCursor.Trimmed` | src/components/StarCursor.tsx:54-60 | the trim keeps the newest twelve stars when there are more, otherwise all of them; the result is a suffix of the trail |
| `StarCursor.TrimIdempotent` | src/components/StarCursor.tsx:54-60 | trimming twice is trimming once |
| `StarCursor.Accepts` | src/components/StarCursor.tsx:68 | the first move (`lastCall` 0) is always accepted; a move within 50 ms of the last handled one is rejected |
| `StarCursor.AcceptsLater` | src/components/StarCursor.tsx:68 | waiting longer never turns an accepted move away |
| `StarCursor.StarField.constructor` | src/components/StarCursor.tsx:20-23 | the component starts off desktop with no stars and a throttle that has never fired |
| `StarCursor.StarField.Resize` | src/components/StarCursor.tsx:25-73 | desktop means a width of at least 768 px; a change of the flag re-installs the handler with `lastCall` 0 |
| `StarCursor.StarField.MouseMove` | src/components/StarCursor.tsx:36-72 | a move is handled exactly on desktop when the throttle never fired or more than 50 ms have passed. A handled move appends three new stars after the old ones and sets `lastCall`. Otherwise nothing changes. Handled moves of one handler are always more than 50 ms apart |
| `StarCursor.StarField.TrimStars` | src/components/StarCursor.tsx:54-60 | the delayed trim replaces the trail by its trimmed form |
| `StarCursor.StarColor` | src/components/StarCursor.tsx:85-86 | the dark colour class exactly under the dark theme |
| `StarCursor.StarShadow` | src/components/StarCursor.tsx:85-87 | the dark glow colour exactly under the dark theme |
| `StarCursor.RenderStar` | src/components/StarCursor.tsx:84-128 | a star renders as its own character with its theme's colour and glow |
| `StarCursor.Rendered` | src/components/StarCursor.tsx:79-132 | off desktop nothing is rendered; on desktop, one rendered star per star, in trail order |
| `Navbar.DropFirst` | src/components/Navbar.tsx:200 | `substring(1)` drops exactly the first character, and gives "" for "" |
| `Navbar.SectionMatches` | src/components/Navbar.tsx:237-239 | the `find` predicate, specified through FindSection and ActiveAfterScroll |
| `Navbar.FindSection` | src/components/Navbar.tsx:235-240 | the result is the first item in navigation order whose section exists and holds the position; none exactly when no section holds it |
| `Navbar.FirstMatchUnique` | src/components/Navbar.tsx:236-240 | there is only one first match |
| `Navbar.SectionIdsDistinct` | src/components/Navbar.tsx:33-39 | the five section ids are non-empty and pairwise distinct |
| `Navbar.AtMostOneActive` | src/components/Navbar.tsx:200 | whatever the active section, at most one link is active |
| `Navbar.IsActive` | src/components/Navbar.tsx:200 | a link whose href starts with '#' is active exactly when its href is '#' followed by the active section |
| `Navbar.NoneActiveInitially` | src/components/Navbar.tsx:226 | the initial active section "" makes no link active |
| `Navbar.NavbarState.constructor` | src/components/Navbar.tsx:225-226 | the menu starts closed and no section is active |
| `Navbar.NavbarState.HandleScroll` | src/components/Navbar.tsx:230-245 | the first section holding `scrollY + 100` becomes active, stored without its '#'; when none holds it the active section stays |
| `Navbar.NavbarState.ToggleMenu` | src/components/Navbar.tsx:336 | the menu button flips `isOpen` |
| `Navbar.NavbarState.LinkClick` | src/components/Navbar.tsx:206 | a mobile link click closes the menu; a desktop click leaves it as it was |
| `Navbar.ActiveAfterScroll` | src/components/Navbar.tsx:235-243 | after a scroll that finds a section, a link is active exactly when it is the first matching section |
| `Navbar.GetThemeClasses` | src/components/Navbar.tsx:172-182 | the dark class set exactly under the dark theme |
| `MediaQuery.ValueIsWidth` | src/hooks/useMediaQuery.ts:5-11 | each breakpoint string is its width in decimal followed by "px" |
| `MediaQuery.WidthsAscending` | src/hooks/useMediaQuery.ts:5-11 | sm < md < lg < xl < 2xl |
| `MediaQuery.Render` | src/hooks/useMediaQuery.ts:41-43 | the text of a query, specified by BreakpointQuery and the three device renderings |
| `MediaQuery.Matches` | src/hooks/useMediaQuery.ts:20 | what `matchMedia` answers for a width, specified by BreakpointQueryMeaning and DevicePartition |
| `MediaQuery.BreakpointQuery` | src/hooks/useMediaQuery.ts:40-45 | `min` builds the min-width query of the breakpoint's width and `max` the max-width one |
| `MediaQuery.BreakpointQueryMeaning` | src/hooks/useMediaQuery.ts:40-44 | a min query holds from the width upwards, a max query up to and including it |
| `MediaQuery.MobileQueryRenders` | src/hooks/useMediaQuery.ts:47-49 | the mobile string is the max-width 639 query |
| `MediaQuery.TabletQueryRenders` | src/hooks/useMediaQuery.ts:51-53 | the tablet string is min-width 640 and max-width 1023 |
| `MediaQuery.DesktopQueryRenders` | src/hooks/useMediaQuery.ts:55-57 | the desktop string is the min-width 1024 query |
| `MediaQuery.DevicePartition` | src/hooks/useMediaQuery.ts:47-57 | every integer width matches exactly one of mobile, tablet and desktop |
| `MediaQuery.MediaQueryState.constructor` | src/hooks/useMediaQuery.ts:16 | `useMediaQuery` starts at false |
| `MediaQuery.MediaQueryState.Update` | src/hooks/useMediaQuery.ts:18-34 | an evaluation or change event sets the flag to the query's current match |
| `MediaQuery.MediaQueriesState.constructor` | src/hooks/useMediaQuery.ts:61 | one false flag per query |
| `MediaQuery.MediaQueriesState.SetAll` | src/hooks/useMediaQuery.ts:69 | the initial evaluation replaces all flags with a new array of the current matches |
| `MediaQuery.MediaQueriesState.HandleChange` | src/hooks/useMediaQuery.ts:72-77 | a change for query `i` copies the flags into a new array of the same length; only entry `i` changes |
| `FlickerText.Shown` | src/components/FlickerText.tsx:39 | a space is shown as a no-break space, every other character as itself |
| `FlickerText.GlyphKey` | src/components/FlickerText.tsx:39 | a key starts with the original character followed by '-' |
| `FlickerText.Characters` | src/components/FlickerText.tsx:38-41 | one glyph per character of the text, showing it and keyed by the character and its index |
| `FlickerText.TextFromKeys` | src/components/FlickerText.tsx:38-41 | the keys' first characters spell the original text, spaces included |
| `FlickerText.GlyphKeysDistinct` | src/components/FlickerText.tsx:39 | glyphs at different positions have different keys |
| `FlickerText.SpanKey` | src/components/FlickerText.tsx:95 | a span's key extends its glyph's key |
| `FlickerText.Divisor` | src/components/FlickerText.tsx:44-45 | the divisor is the speed clamped below at 0.0001, so it is never zero |
| `FlickerText.BaseDelay` | src/components/FlickerText.tsx:44 | the base delay is positive |
| `FlickerText.FlickerDuration` | src/components/FlickerText.tsx:45 | the flicker duration is positive |
| `FlickerText.TotalDuration` | src/components/FlickerText.tsx:46 | the total duration is positive |
| `FlickerText.TimingsInBaseDelays` | src/components/FlickerText.tsx:44-46 | base delay × divisor = 0.1 s, a flicker lasts 3 base delays, and a pass over `n` characters lasts `n + 3` base delays |
| `FlickerText.GetDelay` | src/components/FlickerText.tsx:48-58 | sequential gives `index × base delay`, random gives a value in [0, 0.7 × total), and sync or any other pattern gives 0 |
| `FlickerText.RandomDelay` | src/components/FlickerText.tsx:53 | a draw in [0, 1) scaled by the total and 0.7 lands in [0, 0.7 × total) |
| `FlickerText.SequentialDelayMonotone` | src/components/FlickerText.tsx:50-51 | sequential delays never decrease with the index |
| `FlickerText.SequentialFitsTotal` | src/components/FlickerText.tsx:44-51 | under the sequential pattern every character's flicker ends before the total duration |
| `FlickerText.Flicker` | src/components/FlickerText.tsx:73-84 | "loop" repeats forever with a repeat delay of the total duration; "once" repeats 0 times with delay 0 |
| `Projects.GetBorderColor` | src/components/Projects.tsx:71-81 | the colour is always one of the six, for every index |
| `Projects.BorderColorsDistinct` | src/components/Projects.tsx:72-79 | the six colours are pairwise distinct |
| `Projects.BorderColorPeriodic` | src/components/Projects.tsx:80 | the colours repeat every six cards |
| `Projects.NeighboursDiffer` | src/components/Projects.tsx:71-81 | neighbouring indices never share a colour |
| `Projects.DesktopCards` | src/components/Projects.tsx:263-266 | the grid shows every project in declared order, coloured by its index |
| `Projects.Reverse` | src/components/Projects.tsx:272 | the copy holds the projects in reverse order |
| `Projects.ReverseInvolutive` | src/components/Projects.tsx:272 | reversing twice restores the list |
| `Projects.MobileItems` | src/components/Projects.tsx:272-284 | the stack holds the reversed list; item `i` is coloured by `i` and has sticky top and padding `4i` vh |
| `Projects.MobileMirrorsDesktop` | src/components/Projects.tsx:264-284 | the project at desktop position `k` sits at mobile position `n - 1 - k`, coloured by that mirrored index |
| `Projects.StickyOffsetsIncrease` | src/components/Projects.tsx:276-282 | later mobile items stick strictly lower |
| `Projects.TitlesDistinct` | src/components/Projects.tsx:9-69 | the six titles, used as list keys, are distinct |
| `Middleware.Handle` | middleware.ts:4-13 | it redirects exactly when a host header is present and contains `netlify.app`. A redirect is a 301 to `https://3mmar.info` followed by the path |
| `Middleware.MissingHostPassesThrough` | middleware.ts:5-12 | a request without a host header passes through |
| `Middleware.NetlifyHostRedirects` | middleware.ts:8-9 | any host with `netlify.app` anywhere in it is redirected |
| `Middleware.RedirectKeepsPath` | middleware.ts:9 | the redirect target is the canonical origin followed by exactly the original path and nothing more |
| `Middleware.RedirectTargetPassesThrough` | middleware.ts:8-12 | the canonical host is not redirected again, so the redirect cannot loop |

## Left out

- Rendering, animation and styling: JSX, framer-motion variants and Tailwind class strings beyond the theme-dependent choices modelled above. The sun/moon theme toggle and the theme store are also left out.
- External services become parameters. The browser's `localStorage` is a map plus a "throws" flag. The e-mail relay's reply is a `SendOutcome`. `Math.random()` draws are reals in [0, 1). `Date.now()` is an integer. Window sizes, scroll offsets and section boxes are integers. Performance-observer entries are sequences. Outgoing `gtag` calls are events or `Report` values, and are kept only where the source's logic produces them.
- Console logging, including the `console.warn` in the translation walk, which is counted as a `warnings` output. The development/production switch in `reportWebVital`, the `toFixed`/`Math.round` formatting and the `emailjs.init` effect are also left out.
- The Navbar scroll-progress percentage and the analytics scroll-percentage computation. The latter enters `CalculateScrollDepth` as a real parameter.
- JavaScript numbers are modelled as exact reals or unbounded integers. NaN, infinities and rounding are not modelled. For example, a NaN speed in flicker text or a NaN CLS value is outside the model.
- Strings are sequences of characters. `split('')` and `.length` work on UTF-16 code units in the source. Text outside the Basic Multilingual Plane is therefore not modelled.
- Translation dictionaries are trees of string leaves. JavaScript property access on string leaves (such as a `length` segment) and inherited object properties (such as a `constructor` segment) are not modelled. The locale files themselves are data and are not part of this model.
- `HandleChange` removes a cleared error from the record, where the source sets it to `undefined`. The next `validateForm` replaces the record either way, and an `undefined` entry is falsy like a missing one.
- `StarCursor.StarField.MouseMove`: requires `now > 0`, because `Date.now()` is positive. The source reads the clock up to five times in one handler call: once in the throttle test (StarCursor.tsx:68), once per star for the ids (line 44, three times) and once for `lastCall` (line 70). The model uses one reading for the throttle test, the ids and `lastCall`.
- `MediaQuery.MediaQueriesState.HandleChange`: requires the index to be within the array. The handlers are created from the same query list that sized the array. Growing a JavaScript array by assigning past its end is not modelled.
- `Navbar.NavbarState.HandleScroll`: the section elements are a map from id to offsets. A section missing from the page is an id missing from the map.
- The other components and pages of the site (layout, hero, about, education, footer, SEO) are not part of this model.
