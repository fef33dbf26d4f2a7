# Add to Homescreen: a Dafny model

This project models the `AddToHomescreen` class of the add-to-homescreen
callout (src/index.js). The class decides whether to invite a mobile
visitor to put the site on the homescreen, keeps a per-visitor session
record in `localStorage`, and adds or removes an `ath` token in the page
URL to guess whether the page was launched from the homescreen.

The modules follow the parts of the class:

- `Strings`: the JavaScript string operations the class relies on: `indexOf`, anchored regex tests, `toLowerCase` (ASCII letters only) and `replace` with a one-character pattern.
- `Environment`: `sniffEnvironment` as pure functions of the user-agent string. This covers the device and browser predicates, the platform precedence, the `OSVersion` regex with its leftmost-match search, and `isCompatible`.
- `Config`: the options, their normalisation in the constructor (`mandatory`, `modal`, `detectHomescreen`, `startDelay`) and the `debug` override of the sniffed environment.
- `Sessions`: the session record, the stored text as `JSON.parse` sees it, parsing and the merge with `defaultSession`.
- `Tokens`: the three URL token forms (hash `#ath`, smartURL `/ath`, query string `ath=`) and how they are added and removed by `_removeToken`, written out as string functions.
- `Messages`: the five-way message choice, the `%icon` substitution and the class names of the callout elements.
- `Policy`: `shouldPreventDisplay` and the guards of `show`, as pure functions over the part of an instance they read and change.
- `Homescreen`: the class itself. It has the instance fields, the constructor flow, the policy run step by step on the fields, `show`, `remove`, `_removeElements` and the session mutators. Each method is proved against the functions of `Policy`; the constructor's end state is tied to `Policy.Admit`, the policy run on the stored session.

How the environment is modelled:

- The browser is reduced to parameters: the user agent, `'standalone' in navigator`, `navigator.standalone`, the device pixel ratio and the navigator language.
- The page URL is the `href` field. `history.replaceState` assigns it.
- `localStorage` is a map from keys to stored items. Two fixed flags say whether it can be read and whether it can be written.
- `Date.now()` is the `now` parameter.
- Whether the document has loaded, and whether the page has an icon link, are parameters.
- Calls of the user's callbacks are appended to a `fired` log.
- The stored text is kept only as what `JSON.parse` makes of it: a value with its session fields, a falsy value, text that is not JSON, or the empty string.

How the construction outcome is modelled:

- How a construction ended is a `Status` value.
- The constructor's `throw 'Preventing display.'` (src/index.js:174) is the status `Suppressed`, and `ready` stays false. The code throws; the model records the throw as this status.
- The autostart `show` (src/index.js:182-185) can throw a TypeError after it has counted the display, when the message does not resolve to a string. The constructor then throws too, with `ready` already set; the model records this as the status `AutostartThrew`.

## Model

| member | source | states |
|---|---|---|
| `Strings.ContainsIff` | src/index.js:339-346 | `indexOf(t) > -1` holds exactly when `t` occurs somewhere in the string |
| `Strings.ContainsLowerIff` | src/index.js:337 | a case-insensitive search of the lower-cased text succeeds exactly when the name occurs in that text |
| `Strings.Lower` | src/index.js:82-84 | `toLowerCase` keeps the length and folds each ASCII capital to its small letter, leaving other characters alone |
| `Strings.IndexOf` | src/index.js:744 | the first position of the character, or the length exactly when it is absent; nothing before it is that character |
| `Strings.IndexOfLower` | src/index.js:82-84 | lower-casing does not move the first hyphen, so `replace` after `toLowerCase` finds the hyphen of the original text |
| `Strings.ReplaceFirst` | src/index.js:83 | `replace` with a one-character pattern changes only the first occurrence and keeps the length; without an occurrence the string is unchanged |
| `Environment.IsIDevice` | src/index.js:337 | `iphone`, `ipod` or `ipad` occurs in the user agent, in any ASCII letter case |
| `Environment.IsMobileChrome` | src/index.js:338-341 | `Android` and `Chrome/` occur and `Version` does not |
| `Environment.IsMobileIE` | src/index.js:342 | `Windows Phone` occurs |
| `Environment.IsMobileSafari` | src/index.js:343-346 | an iOS device whose user agent names `Safari` and not `CriOS` |
| `Environment.DetectOS` | src/index.js:347-353 | the platform is one of the four names, and `ios` exactly for an iOS device |
| `Environment.OSPrecedence` | src/index.js:347-353 | the platform is `ios` iff the device test holds, `android` iff only Chrome's holds, `windows` iff only IE's holds, and `unsupported` otherwise |
| `Environment.DigitRun` | src/index.js:355 | a greedy `\d+` consumes digits only, and stops at the first non-digit or at the end |
| `Environment.DigitRunExact` | src/index.js:355 | a run of digits followed by a non-digit or the end is exactly what `\d+` takes |
| `Environment.VersionAfterIff` | src/index.js:355 | `\d+[_.]\d+` matches at a position iff a digit run, `_` or `.`, and a second digit run are there; both runs are taken whole |
| `Environment.VersionAfterSound` | src/index.js:355 | the major part, separator and minor part of a match are the text at that position |
| `Environment.VersionAfterExact` | src/index.js:355 | two whole digit runs around a separator are matched as exactly those runs |
| `Environment.VersionAt` | src/index.js:355 | at one position `OS ` is tried before `Android `, the version is read after the prefix and its space, and no other start matches |
| `Environment.VersionAtSound` | src/index.js:355 | a match at `p` means `OS ` or `Android ` followed by the version text occurs at `p` |
| `Environment.VersionFrom` | src/index.js:355 | the leftmost search returns only well-formed versions |
| `Environment.VersionFromNone` | src/index.js:355-359 | the search fails iff no position matches |
| `Environment.VersionFromLeftmost` | src/index.js:355 | a successful search returns the match at a position before which nothing matches |
| `Environment.VersionFromSkips` | src/index.js:355 | positions where the regex cannot start do not change the search result |
| `Environment.NoMatchInPrefix` | src/index.js:355 | no match can start inside text that holds neither `O` nor `A` |
| `Environment.MinorFraction` | src/index.js:358 | the digits after the separator add a fraction in [0, 1) |
| `Environment.OSVersion` | src/index.js:355-359 | the version is 0 without a match, and otherwise its integer part is the major number of the leftmost match |
| `Environment.OSVersionZeroWhenNoMatch` | src/index.js:355-359 | `OSVersion` is 0 when the regex matches nowhere |
| `Environment.OSVersionAtLeast` | src/index.js:367 | `OSVersion >= n` iff n is 0, or the leftmost match has a major number of at least n |
| `Environment.OSVersionOfFirstMatch` | src/index.js:355-359 | the version is `major + minor / 10^(digits of minor)` read from the first position where the regex matches |
| `Environment.IOSAgentMatch` | src/index.js:355 | in an agent whose first `O` or `A` begins `OS <major>_<minor>`, the regex first matches there and reads those runs |
| `Environment.OSVersionOfIOSAgent` | src/index.js:355-359 | such an agent reports the version `major.minor`: `OS 9_3` is read as 9.3 |
| `Environment.IsCompatible` | src/index.js:367 | a compatible browser is on `ios` with version at least 6 |
| `Environment.CompatibleIff` | src/index.js:367 | `isCompatible` iff mobile Safari and the leftmost version match has major number 6 or more |
| `Environment.Sniff` | src/index.js:335-368 | os, version and compatibility are those of the user agent; standalone iff `'standalone' in navigator` and `navigator.standalone`; retina iff the pixel ratio exceeds 1; a tablet is Safari on an iPad or Chrome without `Mobile`, hence on ios or android |
| `Environment.Language` | src/index.js:82-84 | the language keeps its length, every character is lower-cased, and the first hyphen, and only it, becomes `_` |
| `Config.Normalize` | src/index.js:115-129 | `mandatory` holds iff asked for and (`standalone` in navigator or `debug`); `modal` iff modal or the given mandatory; `true` detection becomes `hash`; mandatory forces `startDelay` -0.5; nothing else changes |
| `Config.MandatoryWithoutStandaloneStaysModal` | src/index.js:117-120 | without `standalone` in the navigator or debug, a mandatory callout is no longer mandatory but stays modal, with its start delay kept |
| `Config.NormalizeIdempotent` | src/index.js:115-129 | normalising normalised options changes nothing |
| `Config.DebugOverride` | src/index.js:131-140 | without debug the environment is kept; with it the device is compatible and the version is 8 on ios and 4 elsewhere; a platform string replaces the platform, and `true` turns `unsupported` into `android` and keeps any other platform; only these three fields change |
| `Sessions.Load` | src/index.js:147-149 | parsing throws iff the stored text is not JSON; a falsy JSON value carries no fields; a missing item gives the truthy `{}` |
| `Sessions.Merge` | src/index.js:165-168 | every stored field wins over the default, every missing field takes the value of `defaultSession`; no fields gives `defaultSession` |
| `Sessions.Serialize` | src/index.js:695 | `JSON.stringify` writes every field, and merging what it wrote gives the session back |
| `Sessions.LoadSerialized` | src/index.js:147-168 | a session written by `JSON.stringify` is read back, truthy and merged, as the same session |
| `Policy.Persist` | src/index.js:687-698 | `updateSession` writes the session under `appID` when storage is usable and otherwise changes nothing |
| `Policy.GetItem` | src/index.js:705-716 | a read answers the stored item iff storage is readable and the key is present; a failing read marks storage unusable |
| `Policy.MarkAdded` | src/index.js:227-236 | `added` becomes true; the first time, the session is persisted, and `onAdd` fires only if it was supplied and storage works |
| `Policy.AddedTokenDetected` | src/index.js:268-288 | whatever the mode, the rewritten address of a page without fragment or query carries a token the next load detects |
| `Policy.FinalChecks` | src/index.js:291-313 | the visitor becomes returning; the URL, the log and the storage flag are kept |
| `Policy.AfterLegacyCheck` | src/index.js:199-202 | a legacy `addToHome` entry opts the visitor out; otherwise only the storage flag can change |
| `Policy.Decide` | src/index.js:189-314 | an opted-out visitor or a legacy key suppresses; an allowed page is a valid location; `optedout` and the storage flag end as the legacy check left them |
| `Policy.DecideFrom` | src/index.js:204-313 | the callout is allowed only on a valid location for a visitor not opted out, not added and not standalone; opt-out, storage flag and display counters are kept |
| `Policy.TestStorage` | src/index.js:316-333 | storage is usable iff readable and writable; success writes the session, failure keeps the store and fires `onPrivate` if supplied |
| `Policy.AdmittedState` | src/index.js:162-177 | a visitor the constructor admits has not opted out or added the app, is returning, is not standalone, and has working storage unless private mode is overridden; the stored fields did not say opted out or added |
| `Policy.OptedOutSuppresses` | src/index.js:199-210 | an opted-out visitor (or a legacy key) is suppressed; the session only gains `optedout`, and the URL and callbacks are untouched |
| `Policy.DecideIff` | src/index.js:189-314 | the policy suppresses iff one of its disqualifying conditions holds, all listed in one disjunction |
| `Policy.DecideMonotonic` | src/index.js:189-314 | the policy never clears `optedout`, `added` or `returningVisitor` and never touches the display counters |
| `Policy.AddedOnHomescreen` | src/index.js:225-265 | standalone mode, or detection with a token, marks `added`, persists it, fires at most `onAdd` and suppresses; the token is removed from the URL |
| `Policy.AddedFiresNothing` | src/index.js:211-216 | a session already marked `added` is suppressed and fires no callback |
| `Policy.FiredMeansPersistedAdded` | src/index.js:227-259 | any callback fired by the policy is `onAdd`, and the stored session then says `added` |
| `Policy.OnAddAtMostOnce` | src/index.js:250-259 | after the policy fires `onAdd`, the next page load reading that store is suppressed and fires nothing |
| `Policy.FirstVisit` | src/index.js:291-313 | a first visit becomes returning and is persisted; it is suppressed iff `skipFirstVisit` is set or storage is unusable without the override |
| `Policy.HashModeAddsToken` | src/index.js:267-273 | in hash mode without a token the URL gains `#ath`, and the decision is left to the later steps |
| `Policy.AllowedState` | src/index.js:172-177 | when the callout is allowed, the session was only marked returning, no callback fired, and storage works or is overridden |
| `Policy.ShowAllowed` | src/index.js:396-443 | a display needs the callout not shown and, unless forced, the instance ready |
| `Policy.AfterShow` | src/index.js:445-450 | a display counts once more and records `now`; `optedout`, `added` and `returningVisitor` are kept |
| `Policy.ShowRespectsPacing` | src/index.js:416-443 | an unforced display needs the instance ready and not shown, the pace elapsed, and the count below the maximum |
| `Policy.PacingExample` | src/index.js:426-431 | with a 60-minute pace, 30 minutes is too early and 61 minutes is late enough |
| `Policy.MaxCountExample` | src/index.js:434-442 | a reached maximum count blocks every unforced display |
| `Policy.WelcomeEffect` | src/index.js:176-186 | becoming ready logs `onInit` iff it was supplied and keeps the URL and the storage flag. It shows iff `autostart` is on and the guards of an unforced `show` pass; a display counts once at `now` and is written through when storage works. Without a display the session and the store are untouched |
| `Policy.WelcomedState` | src/index.js:162-186 | a visitor the constructor admits is, once ready and after any autostart display, not opted out, not added, returning and not standalone, with working storage unless private mode is overridden |
| `Tokens.HashNonEmpty` | src/index.js:143 | `location.hash` is non-empty iff the URL has a `#` followed by something |
| `Tokens.HashIsTail` | src/index.js:143 | a non-empty `location.hash` starts with `#`, ends the URL, and follows `split('#')[0]` exactly |
| `Tokens.SearchOf` | src/index.js:145 | `location.search` is empty or a `?` with at least one more character, before the fragment |
| `Tokens.SearchIsQuery` | src/index.js:145 | `location.search` is the end of the part before the fragment, starting at its first `?`; it is empty exactly when that part has no `?` or the `?` is its last character |
| `Tokens.SearchFrom` | src/index.js:145 | without a fragment, `location.search` starts at the first `?` when something follows it |
| `Tokens.QueryAtSpec` | src/index.js:22 | the query-token regex matches at `i` iff `?ath=` or `&ath=` starts there and, for `?`, no `&` follows; the match ends at the end of the text, or just after the next `&` with that `&` as group 2 |
| `Tokens.QueryFrom` | src/index.js:22 | a match found from `i` starts at or after `i`, lies inside the text and is the regex's match at that start |
| `Tokens.QueryFromNone` | src/index.js:22 | the search fails iff the regex matches at no position from `i` on |
| `Tokens.QueryFromLeftmost` | src/index.js:22 | no position before the returned match matches |
| `Tokens.QueryFromSkips` | src/index.js:22 | no query-token match starts before the first `?` or `&` |
| `Tokens.QueryFromSkipsNone` | src/index.js:22 | positions where the regex does not match are passed over by the search |
| `Tokens.HasToken` | src/index.js:142-145 | a URL with a token ends with `#ath`, `/ath` or `/ath/`, or has a query |
| `Tokens.BeforeHash` | src/index.js:744 | `split('#')[0]` is the whole prefix of the URL up to its first `#`, or the URL without one |
| `Tokens.StripSmart` | src/index.js:752 | with the smartURL token the URL loses its `ath` (keeping a trailing `/`); without it the URL is unchanged |
| `Tokens.StripQuerySpec` | src/index.js:760 | without a query-token match the URL is unchanged; with one, the text before and after the match is kept and at least four characters go |
| `Tokens.RemoveTokenSpec` | src/index.js:739-763 | `_removeToken` leaves a URL without any token form unchanged and never lengthens one |
| `Tokens.HashTokenDetected` | src/index.js:268-273 | on a URL without a fragment, the added `#ath` is detected and `split('#')[0]` gives the URL back |
| `Tokens.AddSmartToken` | src/index.js:274-279 | the rewritten URL carries the smartURL token |
| `Tokens.AddQueryToken` | src/index.js:280-287 | a URL without fragment or query gains exactly `?ath=` |
| `Tokens.QueryTokenDetected` | src/index.js:280-287 | on such a URL the added query token is detected |
| `Tokens.QueryTokenJoin` | src/index.js:280-287 | the token is joined with `&` exactly when `location.search` is non-empty, and with `?` otherwise |
| `Tokens.AppendedSearch` | src/index.js:280-287 | on a URL with a query string and no fragment, appending `&ath=` extends `location.search` by `&ath=` |
| `Tokens.AppendedQueryMatch` | src/index.js:22 | in a text where the regex matches nowhere, the appended `&ath=` is the leftmost match and runs to the end with an empty group 2 |
| `Tokens.JoinedTokenForm` | src/index.js:142-145 | such a URL with `&ath=` appended carries the query token and neither the hash nor the smartURL token |
| `Tokens.QueryJoinRoundTrip` | src/index.js:280-287 | a URL with a query string, no fragment and no query token gains `&ath=`, which the next load detects and `_removeToken` removes, restoring the URL |
| `Tokens.QueryJoinExample` | src/index.js:280-287 | `http://a/?x=1` has the query string `?x=1`, no fragment and no query token, so the joined round trip applies to it |
| `Tokens.HashTokenAtEnd` | src/index.js:143 | a hash token is the end of the URL |
| `Tokens.HashRoundTrip` | src/index.js:739-746 | adding `#ath` to a URL without a fragment or token, then removing tokens, restores it |
| `Tokens.SmartRoundTrip` | src/index.js:748-754 | adding the smartURL token to a URL without a token, then removing tokens, restores it |
| `Tokens.StripSmartAdded` | src/index.js:752 | the smartURL replace undoes the smartURL rewrite, trailing `/` included |
| `Tokens.SmartTokenIsNoHash` | src/index.js:740 | a URL ending in the smartURL token has no hash token |
| `Tokens.NoSearch` | src/index.js:285 | a URL without `#` or `?` has an empty `location.search` |
| `Tokens.SearchOfAppended` | src/index.js:280-287 | appending `?ath=` to such a URL gives the query string `?ath=` |
| `Tokens.StripAppendedQuery` | src/index.js:760 | the query replace removes an appended `?ath=` whole |
| `Tokens.QueryRoundTrip` | src/index.js:280-287 | adding the query token to a URL with no query, fragment, `&` or smartURL token, then removing tokens, restores it |
| `Tokens.QueryAtMiddle` | src/index.js:22 | `&ath=v&` matches the second alternative up to and including the `&` |
| `Tokens.QueryMiddleKeepsSeparator` | src/index.js:756-762 | a query token in the middle is removed with its value, keeping the `&` that followed |
| `Messages.ResolveMessageSpec` | src/index.js:465-488 | each of the five branches in order: a locale entry (its platform template, or a throw), a platform entry, a forced locale, a custom string used as is, and the visitor's own locale template; an unknown locale with no message throws |
| `Messages.DefaultMessageFromTable` | src/index.js:485-488 | with no custom message, the template of the visitor's locale and platform is used |
| `Messages.LocaleBeforePlatform` | src/index.js:467-478 | an entry for the locale wins over one for the platform |
| `Messages.IconAt` | src/index.js:493 | a token is matched iff the text starts with `%icon` in any case; with a non-empty bracketed caption it spans the brackets and yields the caption, otherwise it is five characters with caption `icon` |
| `Messages.ReplaceIcons` | src/index.js:491-503 | text without `%` comes through the substitution unchanged |
| `Messages.NoIconAt` | src/index.js:493 | no token starts at a character other than `%` |
| `Messages.ReplaceIconsAfterPlainPrefix` | src/index.js:493-501 | a prefix without `%` is kept, and the substitution continues after it |
| `Messages.CaptionedIcon` | src/index.js:491-503 | `%icon[caption]`, with `icon` in any letter case, becomes a span carrying the caption, and the rest is substituted in turn |
| `Messages.PlainIcon` | src/index.js:491-503 | `%icon` in any letter case, not followed by `[`, becomes a span with the caption `icon`, and the rest is substituted in turn |
| `Messages.CaptionedIconAt` | src/index.js:493-499 | the token scanner reads the whole captioned token and its caption, in any letter case of `icon` |
| `Messages.MessageHtml` | src/index.js:491-503 | the message is wrapped in `<p>`…`</p>`; without `%` the text inside is the message itself |
| `Messages.NatToString` | src/index.js:523 | the decimal form of a number is a non-empty run of digits that starts with `0` only for the number 0 |
| `Messages.NatToStringRoundTrip` | src/index.js:523 | reading the decimal form back gives the number |
| `Messages.VersionSuffix` | src/index.js:523 | `parseInt(OSVersion) \|\| ''` is the integer part of a version of at least 1, in decimal digits without a leading zero, and empty below 1 |
| `Messages.ContainerClass` | src/index.js:518-536 | `ath-container ath-<os> ath-<os>`, then the integer version, then ` ath-tablet` or ` ath-phone`, then ` ath-show-close` iff the close button is shown, then ` ath-icon` iff the icon is shown, and nothing else |
| `Messages.ViewportClass` | src/index.js:506-513 | `ath-viewport`, then ` ath-modal` iff modal, then ` ath-mandatory` iff mandatory, and nothing else |
| `Homescreen.TokenOnUnsupportedDeviceThrows` | src/index.js:152-155 | as written, a token on an unsupported device makes the constructor throw |
| `Homescreen.ConstructorTokenStep` | src/index.js:151-155 | as intended, the token step never throws; when it drops the token, the URL loses it, and otherwise the token and the URL are kept |
| `Homescreen.SharedHashLinkIsCleaned` | src/index.js:151-155 | a link shared with `#ath` opens on an unsupported device at its clean address |
| `Homescreen.ClearSessionBreaksNextLoad` | src/index.js:700-703 | as written, `clearSession` stores text that the next load cannot parse |
| `Homescreen.ClearSessionReloadsDefaults` | src/index.js:700-703 | as intended, `clearSession` makes the next load start from the default session |
| `Homescreen.AddToHomescreen.constructor` | src/index.js:97-187 | without `addEventListener` nothing happens and the store and the URL are untouched. Otherwise the options are normalised, the environment is sniffed with the debug override, and the end state is `Started` for the stored sessions and the URL's token test. Unparsable stored JSON stops construction before the token step, with the token test and the URL kept. An unsupported device keeps no token and the URL loses it (the token step as intended). Both exits leave the store and the callback log as they were and show nothing. A supported device keeps the token iff the stored session is truthy. It is suppressed exactly when `Policy.Admit` of the stored session says so, in the state `Admit` gives. Otherwise it is ready, with `shown` and the whole policy state (session, store, URL, storage flag, callback log) those `Policy.Welcome` gives from the admitted state. Construction then throws from the autostart display exactly when that display happened and the message does not resolve. `Policy.WelcomedState` gives the visitor flags of that state |
| `Homescreen.AddToHomescreen.Init` | src/index.js:105-187 | options normalised and the debug override applied, then `Started` with the URL's token test as the token; its two early exits leave the store and the callback log untouched |
| `Homescreen.AddToHomescreen.Open` | src/index.js:142-187 | the token is tested on the URL, then `Started` with that test as the token; its two early exits leave the store and the callback log untouched |
| `Homescreen.AddToHomescreen.Start` | src/index.js:147-187 | `Started`, from the loaded session on: a stored value that is not JSON ends in `ParseFailed`, with the store, the callback log, the token and the URL untouched and nothing shown |
| `Homescreen.AddToHomescreen.Proceed` | src/index.js:151-187 | after a parsed load: `Started`. The token step runs; an unsupported device ends there with no token, with the store and the callback log untouched and nothing shown |
| `Homescreen.AddToHomescreen.Admitted` | src/index.js:162-187 | on a supported device after the token step: `Started`, its suppressed-or-ready outcome taken from `Policy.Admit` and `Policy.Welcome` |
| `Homescreen.AddToHomescreen.DropToken` | src/index.js:151-155 | as intended, the token is kept iff present, on a supported device and with a truthy session; when it is dropped, the URL loses it |
| `Homescreen.AddToHomescreen.Begin` | src/index.js:162-186 | `Entered`: on a supported device the instance is suppressed exactly when `Policy.Admit` says so, in the state it gives. Otherwise it is ready, with `shown` and the policy state those `Policy.Welcome` gives from the admitted state. The status records a throw from the autostart display exactly when it displayed and the message does not resolve |
| `Homescreen.AddToHomescreen.Screen` | src/index.js:162-174 | the decision and the new policy state are exactly those `Policy.Admit` gives for the stored fields |
| `Homescreen.AddToHomescreen.PrepareSession` | src/index.js:162-170 | the session is the merge of the stored fields, then storage is tested as `Policy.TestStorage` says |
| `Homescreen.AddToHomescreen.BecomeReady` | src/index.js:176-186 | the instance is ready, and `shown` and the policy state are those `Policy.Welcome` gives. The outcome is not `Skipped` iff the callout was shown. It is a throw iff it was shown and the message does not resolve, and the status is `AutostartThrew` exactly then. Elements change only when the callout was rendered, and then they hold the instance's rendering |
| `Homescreen.AddToHomescreen.StartShow` | src/index.js:182-185 | `shown` and the policy state are those `Policy.Autostart` gives. The outcome, the status and the elements are as for `BecomeReady` |
| `Homescreen.AddToHomescreen.AutoShow` | src/index.js:182-184 | the automatic, unforced `show` acts iff its guards allow it, and otherwise changes nothing. Acting counts the display at `now` and persists it. It throws iff the message does not resolve, leaving the elements as they were; otherwise it attaches the rendering |
| `Homescreen.AddToHomescreen.LoadSession` | src/index.js:147-149 | the loaded value is `JSON.parse` of the stored item under `appID` when storage is readable, and of nothing otherwise; it throws iff that item is not JSON. A failed read marks storage as unusable |
| `Homescreen.AddToHomescreen.RunPolicy` | src/index.js:172-177 | the decision and the new state are those of `Policy.Decide`; when the callout is allowed, the visitor is not opted out, not added and returning, not standalone, and storage works or is overridden |
| `Homescreen.AddToHomescreen.GetItem` | src/index.js:705-716 | agrees with `Policy.GetItem` on the item and on the new state |
| `Homescreen.AddToHomescreen.TestLocalStorage` | src/index.js:316-333 | the new state is `Policy.TestStorage` of the old |
| `Homescreen.AddToHomescreen.UpdateSession` | src/index.js:687-698 | the new state is `Policy.Persist` of the old |
| `Homescreen.AddToHomescreen.OptOut` | src/index.js:718-721 | only `optedout` changes, to true, and it is persisted |
| `Homescreen.AddToHomescreen.OptIn` | src/index.js:723-726 | only `optedout` changes, to false, and it is persisted |
| `Homescreen.AddToHomescreen.ClearDisplayCount` | src/index.js:728-731 | only `displayCount` changes, to 0, and it is persisted |
| `Homescreen.AddToHomescreen.ClearSession` | src/index.js:700-703 | the session becomes the default one and the store is that of `ClearSessionStore` (the corrected behaviour) |
| `Homescreen.AddToHomescreen.RemoveSession` | src/index.js:370-380 | the entry is removed when storage is readable and an `appID` is given; otherwise nothing changes |
| `Homescreen.AddToHomescreen.RemoveTokenFromUrl` | src/index.js:739-763 | the URL becomes `RemoveToken` of the old URL |
| `Homescreen.AddToHomescreen.IsValidLocation` | src/index.js:190-197 | the count-down loop answers true iff there are no matchers or one of them accepts the URL |
| `Homescreen.AddToHomescreen.ShouldPreventDisplay` | src/index.js:189-314 | the decision and the new state are those of `Policy.Decide` |
| `Homescreen.AddToHomescreen.LegacyCheck` | src/index.js:199-202 | the new state is `Policy.AfterLegacyCheck` of the old |
| `Homescreen.AddToHomescreen.DecideStep` | src/index.js:204-313 | the decision and the new state are those of `Policy.DecideFrom` |
| `Homescreen.AddToHomescreen.DetectStep` | src/index.js:244-289 | with a token: suppress and mark added on the cleaned URL; without one: add the mode's token and run the final checks |
| `Homescreen.AddToHomescreen.FinalChecksStep` | src/index.js:291-313 | the decision and the new state are those of `Policy.FinalChecks` |
| `Homescreen.AddToHomescreen.MarkAddedOnce` | src/index.js:227-236 | the new state is `Policy.MarkAdded` of the old |
| `Homescreen.AddToHomescreen.Show` | src/index.js:396-450 | `show` acts iff its guards allow it and otherwise changes nothing. Acting counts the display, persists it, sets `shown` and records whether an icon was found. It throws iff the message does not resolve to a string, leaving the elements as they were; otherwise it attaches the rendered class names and paragraph |
| `Homescreen.AddToHomescreen.Display` | src/index.js:445-562 | counts the display, then renders or throws as `show` does |
| `Homescreen.AddToHomescreen.Count` | src/index.js:445-450 | `shown` is set and the session records the display, persisted |
| `Homescreen.AddToHomescreen.Render` | src/index.js:452-562 | the icon is found once and kept; throws iff the message does not resolve, keeping the elements; otherwise attaches the rendering of the instance |
| `Homescreen.AddToHomescreen.ShowNow` | src/index.js:569-610 | `onShow` fires if supplied |
| `Homescreen.AddToHomescreen.Remove` | src/index.js:612-635 | the fade-out starts iff a message element exists (otherwise a TypeError); `shown` is untouched |
| `Homescreen.AddToHomescreen.RemoveElements` | src/index.js:637-651 | after a fade-out of an attached callout it is detached, `shown` is cleared and `onRemove` fires; otherwise nothing changes |

## Left out

- DOM construction and styling: `createElement`, the inline CSS transforms, the icon `<img>` and `querySelector`. The model keeps only what is rendered (the two class names and the message paragraph) and two flags, element present and attached. Whether an icon link exists is a parameter.
- Timers:
  - The 50 ms `autostart` retry is modelled as a `show` that does nothing.
  - `_delayedShow`, the one-second click grace, the lifespan timer and the resize debounce are left out. Their effects are the methods `ShowNow`, `Remove` and `RemoveElements`, called explicitly.
- `updateViewport` and `resize`: floating-point layout from the screen metrics.
- Event-listener wiring (`handleEvent`, `addEventListener`/`removeEventListener`, `_preventDefault`), except the fact that `_removeElements` is only delivered after `remove` attached its listeners.
- `doLog` and the `logging` option: console output only. The `fontSize` option is only used by `updateViewport`.
- The `./i18n` string table is an opaque map. The CSS import and `webpack.config.js` carry no logic.
- `JSON.parse`/`JSON.stringify`: the stored text is kept as the value `JSON.parse` would give. A parsed value's fields are taken as having the right types.
- `OSVersion` is an exact real. JavaScript number rounding of `+"6.10"` is not modelled. The debug override's strings `'8'`/`'4'` are the numbers 8 and 4.
- `displayPace` and `maxDisplayCount` are integers; fractional option values, which JavaScript numbers allow, are not modelled.
- `validLocation` regexes are opaque predicates on the URL.
- Callbacks (`onInit`, `onShow`, `onAdd`, `onRemove`, `onPrivate`) are entries in the `fired` log with no effect of their own. A callback that changes the instance, such as an `onInit` that opts the visitor out, is not modelled; the contracts that say `onInit` keeps the session rely on this.
- Lower: folds the ASCII capitals only. `toLowerCase` also folds other capitals, so a navigator language with non-ASCII capitals is lowered differently in the source. The `/iphone|ipod|ipad/i` test is modelled exactly: without the `u` flag, a case-insensitive match of these ASCII letters accepts only their ASCII capitals.
- After a construction that returned early, the source leaves fields unset: without `addEventListener` (status `Inert`), `options`, the environment and the session are never assigned. `show`, `optOut`, `optIn` and `clearDisplayCount` then throw a TypeError. The model gives such an instance the raw options and the default session, and those methods act on them.
- On an unsupported device the source returns before the merge with `defaultSession` (src/index.js:158-168). Whatever was stored, the session stays `{}` (nothing stored), the stored object as parsed, or a falsy value (`null`, `false`, `0`). The model keeps the default session there. So a later `show(true)` in the source counts from the stored `displayCount`, or gives `NaN` where it is missing, and the session mutators throw on a falsy value; the model counts from 0.

## Findings

| source | as written | input that shows it | evidently intended | confidence | as-written member | corrected member |
|---|---|---|---|---|---|---|
| src/index.js:152-155 | `this._removeToken()` calls a member the class does not have (`_removeToken` is a module-level function), so the call throws a TypeError | a page opened at `https://example.com/#ath` on a desktop browser (token present, device not compatible) | drop the token from the URL and continue the constructor, as the call at line 248 does | not executed | `Homescreen.TokenOnUnsupportedDeviceThrows` | `Homescreen.SharedHashLinkIsCleaned` |
| src/index.js:700-703 | `clearSession` assigns `AddToHomescreen._defaultSession`, which does not exist (the static is `defaultSession`). `undefined` is written through as the text `undefined`, and the next `JSON.parse` of it throws | `clearSession()` with working storage, then a new page load | reset the session to `defaultSession` and persist it | not executed | `Homescreen.ClearSessionBreaksNextLoad` | `Homescreen.ClearSessionReloadsDefaults` |
