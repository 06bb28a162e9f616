# Splitrail leaderboard: helper library and API-token panel in Dafny

This project models the two logic-bearing parts of the Splitrail leaderboard
web front end and proves properties of them.

- **The helper library** (`src/lib/utils.ts`, module `Utils`). It covers
  large-number abbreviation on the `$bigint` path, with the number path's
  tier choice. It covers the unit ladder of relative times, rank badges, the
  case-insensitive language icon table, and API token validation
  (`^st_[a-zA-Z0-9]{20,}$`). It also covers the choice of a display name,
  the activity streak and truncation with an ellipsis. The streak is an
  imperative method: it sorts the records and runs the source's counting
  loop with its early exit. Dates are given as whole days before today.
- **The API-token panel** (`src/components/cli-token-display.tsx`, module
  `TokenDisplay`). It is a class whose fields are the component's state:
  the ordered `tokens`, the `visibleTokens` and `copiedTokens` id sets, the
  status `message`, the name being typed, and the `loading` and
  `creatingToken` flags. Each async handler is split at its `await`. The
  token service's answer is a `Reply` parameter: `Ok(payload)`,
  `Err(optional text)` or `Thrown`. The copy reset and the banner timeout
  are events of their own. The pure redaction `MaskToken` and the create
  button's guard are functions beside the class.
- **JavaScript built-ins** (module `JsBuiltins`). These are the built-ins
  that the two files rely on: `BigInt(string)` with its trimming, radix
  prefixes and sign, `BigInt.prototype.toString()`, `substring`, `slice`
  with a negative start, `repeat` and `toLowerCase`.

The session is a `hasSession` parameter of the handlers that check it.

Three behaviours of the code are worth knowing:

- Duplicate dates in the streak are not skipped. Two records from
  yesterday count as two days. Two records from today stop the scan at the
  second one, so `[0, 0, 1]` gives 1.
- A record dated in the future sorts first and ends the streak at 0.
- With `maxLength < 3`, a text longer than `maxLength` becomes `"..."`,
  because `substring` clamps the negative end to 0. A text that fits is
  returned as it is: `truncate("ab", 2)` is `"ab"`.

## Model

| member | source | states |
|---|---|---|
| `JsBuiltins.StringToBigInt` | src/lib/utils.ts:37 | `BigInt(text)` for a string: trims JS whitespace, takes the empty string as 0, reads `0x`/`0o`/`0b` digits or signed decimal digits; None is the SyntaxError |
| `JsBuiltins.IntToString` | src/lib/utils.ts:39-43 | `toString()` of a BigInt: a leading minus exactly for negative values, then decimal digits without leading zeros |
| `JsBuiltins.NatToStringValue` | src/lib/utils.ts:39-43 | the decimal digits written for n read back as n |
| `JsBuiltins.StringToBigIntRoundTrip` | src/lib/utils.ts:37-43 | `BigInt(v.toString())` is v for every integer v |
| `JsBuiltins.StringToBigIntSkipsLeadingSpace` | src/lib/utils.ts:37 | a whitespace character in front of any text does not change what `BigInt` reads |
| `JsBuiltins.StringToBigIntPlusSign` | src/lib/utils.ts:37 | `"+"` followed by the decimal digits of n reads as n |
| `JsBuiltins.TrimStart` | src/lib/utils.ts:37 | the result is a suffix of the input, everything cut is whitespace, and it does not start with whitespace |
| `JsBuiltins.TrimEnd` | src/lib/utils.ts:37 | the result is a prefix of the input, everything cut is whitespace, and it does not end with whitespace |
| `JsBuiltins.ParseDigits` | src/lib/utils.ts:37 | a value is produced exactly when the text is a non-empty run of digits of the radix |
| `JsBuiltins.Substring` | src/lib/utils.ts:209 | bounds in order within the text give that slice, and reversed bounds the same slice; a bound at or below 0 counts as 0 and one at or past the length as the length, for either argument and in every combination, so for example ("abc", 1, 10) gives "bc"; the length is the distance between the clamped bounds |
| `JsBuiltins.SliceFrom` | src/components/cli-token-display.tsx:163 | a negative start counts back from the end; one reaching past the start gives the whole string |
| `JsBuiltins.Repeat` | src/components/cli-token-display.tsx:163 | count copies of the character |
| `JsBuiltins.ToLowerCase` | src/lib/utils.ts:131 | same length, every character lower-cased |
| `JsBuiltins.ToLowerCaseIdempotent` | src/lib/utils.ts:131 | lower-casing twice is lower-casing once |
| `Utils.FormatLargeNumber` | src/lib/utils.ts:30-46 | on the number path: abbreviated exactly from 1000 up, with a suffix B, M or k whose scale times the quotient is the number, the quotient at least 1 and below 1000 unless B (so B from 1e9, M from 1e6, k from 1e3); below 1000 the number itself; the empty `$bigint` and other values give ""; a SyntaxError exactly when `BigInt` rejects a non-empty text |
| `Utils.FormatBigIntText` | src/lib/utils.ts:36-44 | for any non-empty text that `BigInt` reads as v: v ≥ 1e9 gives decimal(v div 1e9)+"B", v ≥ 1e6 "M", v ≥ 1e3 "k", otherwise exactly decimal(v) |
| `Utils.FormatBigIntTiers` | src/lib/utils.ts:36-45 | for every integer v: v ≥ 1e9 gives decimal(v div 1e9)+"B", v ≥ 1e6 gives "M", v ≥ 1e3 gives "k", otherwise exactly decimal(v) |
| `Utils.FormatBigIntSkipsLeadingSpace` | src/lib/utils.ts:36-37 | whitespace in front of a non-empty `$bigint` text does not change the output |
| `Utils.FormatBigIntPlusSign` | src/lib/utils.ts:36-37 | a plus sign in front of decimal digits does not change the output |
| `Utils.FormatBigIntRejectsDecimal` | src/lib/utils.ts:36-37 | `"1.5e3"` throws the SyntaxError, since `BigInt` takes no decimal point or exponent |
| `Utils.FormatTierAgrees` | src/lib/utils.ts:31-43 | a whole number is left unabbreviated on both paths exactly below 1000; from 1000 up the number path abbreviates, with the suffix the BigInt path's text ends in |
| `Utils.ElapsedSeconds` | src/lib/utils.ts:65 | the whole seconds elapsed, rounded down (`Math.floor`), also for a future time |
| `Utils.RelativeTimeOf` | src/lib/utils.ts:69-81 | seconds exactly below 60 with value -d; otherwise the value is minus the whole number of units that fit in d; the unit is below its limit and every finer unit's limit is reached |
| `Utils.RelativeTimeUnitMonotone` | src/lib/utils.ts:69-81 | more elapsed time never gives a finer unit |
| `Utils.RelativeTimeBetween` | src/lib/utils.ts:59-82 | seconds exactly when under 60000 ms have passed, with the value minus the elapsed whole seconds; otherwise the coarsest unit whose limit in ms is not reached (every finer unit's limit is), with a negative value whose units, times the unit's length in ms, bracket the elapsed time from below and above |
| `Utils.MonthsRunToTwelve` | src/lib/utils.ts:77-78 | the month unit shows 1 to 12 months |
| `Utils.CalculateBadge` | src/lib/utils.ts:85-92 | a badge exactly for ranks 1, 2 and 3, and the badge's rank is the rank given |
| `Utils.BadgeOfItsRank` | src/lib/utils.ts:88-90 | gold, silver and bronze come back from ranks 1, 2 and 3 |
| `Utils.GetLanguageIcon` | src/lib/utils.ts:95-133 | the table's glyph for the lower-cased name, the default glyph 📄 for a name not in the table; always a non-empty glyph from the table |
| `Utils.LanguageIconIgnoresCase` | src/lib/utils.ts:130-133 | getLanguageIcon(s) equals getLanguageIcon(lowercase(s)) |
| `Utils.LanguageIconSameForSameLowerCase` | src/lib/utils.ts:130-133 | names that lower-case alike get the same glyph |
| `Utils.AlphanumericRunCoversAll` | src/lib/utils.ts:146 | `[a-zA-Z0-9]*` consumes the whole text exactly when every character is an ASCII letter or digit |
| `Utils.IsValidApiToken` | src/lib/utils.ts:145-147 | accepted exactly when the token is at least 23 long, starts with `st_`, and every later character is an ASCII letter or digit |
| `Utils.ValidApiTokenShape` | src/lib/utils.ts:145-147 | `st_` + r is accepted exactly when r has at least 20 characters, all ASCII letters or digits |
| `Utils.GetDisplayName` | src/lib/utils.ts:150-158 | the display name exactly when it is preferred, present and non-empty; the username in every other case |
| `Utils.DisplayNameNonEmpty` | src/lib/utils.ts:150-158 | the chosen name is non-empty whenever the username is |
| `Utils.Insert` | src/lib/utils.ts:166-168 | inserting into a sorted list keeps it sorted and adds exactly that element |
| `Utils.SortAscending` | src/lib/utils.ts:166-168 | sorted, and a permutation of the input |
| `Utils.SortedUnique` | src/lib/utils.ts:166-168 | two sorted lists with the same elements are equal |
| `Utils.CalculateStreakDays` | src/lib/utils.ts:161-192 | the loop over the sorted offsets computes the streak of the records |
| `Utils.StreakFromBounds` | src/lib/utils.ts:174-189 | the scan never lowers the streak and adds at most one per record |
| `Utils.StreakAtMostRecordCount` | src/lib/utils.ts:164-191 | no records give 0, and the streak never exceeds the number of records |
| `Utils.StreakIgnoresOrder` | src/lib/utils.ts:166-168 | records with the same dates in any order give the same streak |
| `Utils.StreakStarts` | src/lib/utils.ts:174-189 | the streak is positive exactly when a record is from today or yesterday and none is from the future |
| `Utils.StreakFromConsecutive` | src/lib/utils.ts:182-185 | consecutive offsets that start at the streak or one past it each add one |
| `Utils.StreakOfConsecutiveDays` | src/lib/utils.ts:161-192 | one record for each of n consecutive days ending today or yesterday gives n |
| `Utils.StreakRepeatedTodayStops` | src/lib/utils.ts:182-188 | records today, today, yesterday give 1 |
| `Utils.StreakRepeatedYesterdayCountsTwice` | src/lib/utils.ts:182-185 | records yesterday, yesterday give 2 |
| `Utils.Truncate` | src/lib/utils.ts:207-210 | text within maxLength unchanged; otherwise its first max(maxLength-3, 0) characters and "...", of length exactly max(maxLength, 3) |
| `Utils.TruncateIdempotent` | src/lib/utils.ts:207-210 | truncating twice is truncating once |
| `Utils.TruncateExample` | src/lib/utils.ts:207-210 | "hello world" cut at 8 is "hello..." |
| `TokenDisplay.ErrorText` | src/components/cli-token-display.tsx:47 | the server's text when it sent a non-empty one, the fallback otherwise |
| `TokenDisplay.FailureMessage` | src/components/cli-token-display.tsx:79-86 | an error banner with the server's text or the fallback; a thrown request always gets the fallback |
| `TokenDisplay.MaskToken` | src/components/cli-token-display.tsx:161-164 | same length; a token of at most 4 characters unchanged; otherwise bullets up to the last 4 characters, which are the token's own |
| `TokenDisplay.MaskRevealsOnlyLengthAndSuffix` | src/components/cli-token-display.tsx:161-164 | tokens with the same length and the same last 4 characters are masked alike |
| `TokenDisplay.MaskTokenIdempotent` | src/components/cli-token-display.tsx:161-164 | masking a masked token changes nothing |
| `TokenDisplay.MaskTokenExamples` | src/components/cli-token-display.tsx:161-164 | "abcdefgh" shows as four bullets and "efgh"; "ab" shows as itself |
| `TokenDisplay.DisplayedToken` | src/components/cli-token-display.tsx:251-267 | the secret when its id is visible, its mask otherwise, of the secret's length |
| `TokenDisplay.CreateEnabled` | src/components/cli-token-display.tsx:217-219 | enabled exactly when no creation is in flight and fewer than 50 tokens are listed, so one more stays within 50 |
| `TokenDisplay.Toggled` | src/components/cli-token-display.tsx:149-159 | the id's membership is flipped and every other id keeps its membership |
| `TokenDisplay.ToggleTwiceRestores` | src/components/cli-token-display.tsx:149-159 | toggling twice restores the set |
| `TokenDisplay.ToggleShowsOnlyThatToken` | src/components/cli-token-display.tsx:149-159 | toggling one id changes how no other token is shown, and changes that token's display unless its mask equals it |
| `TokenDisplay.WithoutId` | src/components/cli-token-display.tsx:102 | no entry with the id remains, and the list does not grow |
| `TokenDisplay.WithoutIdKeepsOthers` | src/components/cli-token-display.tsx:102 | every entry with another id is kept as often as it occurred |
| `TokenDisplay.WithoutIdAppend` | src/components/cli-token-display.tsx:102 | filtering splits over concatenation, so the kept entries keep their order |
| `TokenDisplay.WithoutIdAbsent` | src/components/cli-token-display.tsx:102 | a list without the id is left exactly as it is |
| `TokenDisplay.DeleteUndoesCreate` | src/components/cli-token-display.tsx:74-102 | deleting a just-created token whose id was new restores the earlier list |
| `TokenDisplay.CLITokenDisplay.constructor` | src/components/cli-token-display.tsx:23-32 | the initial state: no tokens, empty sets, no banner, flags down |
| `TokenDisplay.CLITokenDisplay.EditTokenName` | src/components/cli-token-display.tsx:210-215 | the typed name is taken unless a creation is in flight, and nothing else changes |
| `TokenDisplay.CLITokenDisplay.BeginFetch` | src/components/cli-token-display.tsx:37 | the listing is marked as loading |
| `TokenDisplay.CLITokenDisplay.FinishFetch` | src/components/cli-token-display.tsx:42-55 | on success the tokens are exactly the listing; on failure they stay and the error banner holds the server's text or "Failed to fetch tokens"; loading is off in every case |
| `TokenDisplay.CLITokenDisplay.FetchTokens` | src/components/cli-token-display.tsx:34-56 | without a session nothing changes; otherwise the outcome of FinishFetch |
| `TokenDisplay.CLITokenDisplay.SessionChanged` | src/components/cli-token-display.tsx:166-172 | with a session the tokens are fetched; without one only the loading flag is cleared |
| `TokenDisplay.CLITokenDisplay.BeginCreate` | src/components/cli-token-display.tsx:61-69 | creation in flight, banner cleared, and the name sent only when non-empty |
| `TokenDisplay.CLITokenDisplay.FinishCreate` | src/components/cli-token-display.tsx:73-89 | on success the new token is prepended, its id made visible, the name emptied and a success banner set; on failure tokens, visible ids and name stay and the error banner holds the server's text or "Failed to create token"; the in-flight flag is off in every case |
| `TokenDisplay.CLITokenDisplay.CreateNewToken` | src/components/cli-token-display.tsx:58-90 | without a session nothing changes; otherwise the outcome of FinishCreate |
| `TokenDisplay.CLITokenDisplay.PressCreateButton` | src/components/cli-token-display.tsx:217-226 | a request is made exactly when there is a session and the button is enabled; otherwise nothing changes; a press never takes the list past 50 |
| `TokenDisplay.CLITokenDisplay.DeleteToken` | src/components/cli-token-display.tsx:92-119 | on success only entries with the id leave the tokens, only that id leaves the visible set, and a success banner is set; on failure both stay and the error banner holds the server's text or "Failed to delete token"; copied ids are never touched |
| `TokenDisplay.CLITokenDisplay.CopiedCanBeReset` | src/components/cli-token-display.tsx:136-143 | under the class invariant, every id marked as copied has its reset scheduled, so the mark is always cleared |
| `TokenDisplay.CLITokenDisplay.CopyToken` | src/components/cli-token-display.tsx:121-147 | a successful write marks the id as copied and schedules its reset; a failed one changes nothing and sets no banner |
| `TokenDisplay.CLITokenDisplay.CopyResetFires` | src/components/cli-token-display.tsx:137-143 | the reset removes that id, and no other, from the copied set |
| `TokenDisplay.CLITokenDisplay.ToggleTokenVisibility` | src/components/cli-token-display.tsx:149-159 | the visible set becomes the toggled set and nothing else changes |
| `TokenDisplay.CLITokenDisplay.MessageTimerFires` | src/components/cli-token-display.tsx:174-179 | the banner's timeout clears it |

## Left out

- `cn` (src/lib/utils.ts:4-6) wraps the `clsx` and `tailwind-merge` libraries, which are not part of this model.
- `formatNumber`, `formatCurrency` and `formatDate` delegate to the locale formatting of `Intl`, which is not part of this model.
- `getRelativeTime`: the phrasing by `Intl.RelativeTimeFormat`, the parsing of a date string and the clock reading are left out. The clock and the date enter as millisecond timestamps.
- `Utils.FormatLargeNumber`: on the number path, the text of `toFixed(1)` and `toString()` is left out (floating point). The model returns the quotient and the suffix that feed them. NaN and the infinities are not modelled, as Dafny reals have none.
- `Utils.FormatLargeNumber`: a `null` argument, which throws a TypeError at run time, lies outside the declared parameter type and is not modelled.
- `generateApiToken` depends on `Math.random`.
- `debounce` is built on timers and a captured mutable timeout handle.
- `Utils.CalculateStreakDays`: dates enter as whole days before today. Midnight normalisation, daylight-saving shifts and the flooring of milliseconds to days are left out.
- `Utils.GetLanguageIcon`: inherited keys of the object literal, such as `constructor`, are not modelled.
- JsBuiltins.ToLowerCase: exact for ASCII letters and the Kelvin sign. Other characters are left as they are. Their JavaScript lower case is never an ASCII string, so no table lookup can tell the difference.
- Strings are sequences of Unicode code points. JavaScript lengths count UTF-16 code units. So `Utils.Truncate` and `TokenDisplay.MaskToken` differ from the source for text outside the Basic Multilingual Plane.
- `Utils.Truncate` and `Utils.CalculateBadge`: a `maxLength` or rank that is NaN is not modelled. A non-integer `maxLength` is not modelled either. Ranks are reals, so fractional ranks are covered.
- Token panel: the `fetch` transport and JSON decoding are reduced to the `Reply` parameter.
- Token panel: the clipboard API and the `textarea`/`execCommand` fallback are reduced to the `written` outcome of `CopyToken`. The copied secret itself is not modelled.
- Token panel: the 2000 ms and 5000 ms durations become explicit timer events.
- Token panel: React's scheduling of state updates, the JSX rendering and the setup-instructions text are left out.
- Token panel: interleavings of requests in flight at the same time are not analysed, although the split handlers allow such sequences.
- Token panel: updates that arrive after the component is unmounted are not modelled.
- `src/components/auth/sign-in-button.tsx` is UI around the `next-auth` sign-in calls. Its only logic reuses `getDisplayName`.
- `src/app/layout.tsx` (composition, fonts, theme, analytics) and `src/types/next-auth.d.ts` (type declarations) hold no logic.
