# ROBLOX-TRACKER client rules, modelled in Dafny

This project models the client-side logic of the ROBLOX-TRACKER dashboard
and proves properties of it. The logic comes from three browser scripts:

- `app.js`:
  - the thousands-separator formatter `formatNumber` and the read-back of a
    formatted counter in `updatePlayerCount`;
  - the local validation chains of `handleLogin` and `handleSignup`;
  - the card filter `handleSearch`;
  - the session globals `authToken` / `currentUser` that `checkAuth`,
    `handleLogout` and a successful login change.
- `script.js`:
  - the deduplicating, newest-first search history `addToHistory` (capped at
    five);
  - `setMode` and its buttons, and the endpoint choice and empty-input guard
    of `search`;
  - the panels `search` shows afterwards, and the status badge and bio
    fallback of `updateUserUI`.
- `live-ccp-updates.js`: the one-step-per-tick counter animation
  `animatePlayerCountUpdate`.

The DOM, `localStorage` and the network become plain values. The page
elements become fields of a class or datatype. `localStorage` becomes a
`map<string, string>` (the session) or a `seq<string>` (the history). The
result of a `fetch` becomes a parameter. Timers become explicit `Tick` calls.

Files (one module each):

| file | module | models |
|---|---|---|
| wrappers.dfy | Wrappers | `Option`, for null, undefined and NaN |
| js_runtime.dfy | JsRuntime | the JavaScript built-ins used: `trim`, `parseInt`, integer `toString`, `includes`, `toLowerCase`, UTF-16 `length` |
| app_format.dfy | AppFormat | `formatNumber`, its regular expression, and the comma-stripping read-back |
| app_validation.dfy | AppValidation | the login and signup checks and the email pattern |
| app_search.dfy | AppSearch | `handleSearch` over an array of card display styles |
| app_session.dfy | AppSession | `checkAuth`, `handleLogout`, the successful branch of `handleLogin` |
| script_history.dfy | ScriptHistory | the list `addToHistory` writes back, and its properties |
| script_page.dfy | ScriptPage | `setMode`, `search`, `addToHistory` as a method, `updateUserUI` |
| live_counter.dfy | LiveCounter | `animatePlayerCountUpdate` |

Modelling notes:

- `formatNumber` is modelled literally. The regular expression
  `\B(?=(\d{3})+(?!\d))` is written as a word-boundary test plus a recursive
  lookahead, and is applied at every position of `num.toString()`. That
  literal model is then proved equal to a grouping of the digits in threes
  from the right (`AppFormat.FormatNumberGroups`). It covers negative
  integers too: the minus sign gets no comma after it.
- `parseInt` follows ECMAScript:
  - leading whitespace is skipped, then one sign is read;
  - a `0x`/`0X` prefix selects radix 16;
  - the longest run of digits is read, and no digits gives NaN (`None`);
  - `|| 0` turns NaN into 0.
- `password.length` counts UTF-16 code units. A character above U+FFFF
  counts twice toward the six-character minimum.
- The email rule is stated two ways: as the regular expression itself
  (`EmailRegexMatches`) and as a plain-language test (`EmailShape`). The plain
  test is that the string has no whitespace, exactly one '@' with something
  before it, and a '.' strictly inside the part after it. The two are proved
  equivalent.
- The domain behind `/game` and `/user` is a different part of the system:
  resolving a game link or username and aggregating upstream statistics.
  None of the modelled files defines or performs it. `script.js` only calls
  those endpoints, so the model follows the client code, and the server-side
  pipeline is not part of this model.

## Model

| member | source | states |
|---|---|---|
| JsRuntime.Trim | app.js:110 | the result is the input with whitespace removed from both ends only; it is empty exactly when the input is all whitespace, otherwise it starts and ends with non-whitespace |
| JsRuntime.NatToString | app.js:315 | `toString` of a non-negative integer is a non-empty string of digits; it has at most three digits exactly when the number is below 1000 |
| JsRuntime.IntToString | app.js:315 | `toString` of an integer is non-empty and starts with '-' exactly when the integer is negative |
| JsRuntime.IntToStringShape | app.js:315 | after the optional minus sign, `toString` writes digits only |
| JsRuntime.ParseInt | ROBLOX-TRACKER-FIXED/ROBLOX-TRACKER-FIXED/live-ccp-updates.js:16 | `parseInt` with no radix: skip leading whitespace, read one sign, take a `0x` prefix as radix 16, read the longest run of digits; NaN (None) when that run is empty, so an all-whitespace text is NaN |
| JsRuntime.ParseSigned | ROBLOX-TRACKER-FIXED/ROBLOX-TRACKER-FIXED/live-ccp-updates.js:16 | the sign stage of `parseInt`: a '-' negates the magnitude, a '+' is dropped (definition) |
| JsRuntime.ParseMagnitude | ROBLOX-TRACKER-FIXED/ROBLOX-TRACKER-FIXED/live-ccp-updates.js:16 | the digit stage of `parseInt`: the radix prefix and the longest digit run, NaN when it is empty (definition) |
| JsRuntime.ParseIntOrZero | app.js:282 | `parseInt(s)` with NaN replaced by 0 (definition; its read-back is ParseIntOfIntToString) |
| JsRuntime.ParseIntOfIntToString | ROBLOX-TRACKER-FIXED/ROBLOX-TRACKER-FIXED/live-ccp-updates.js:16-25 | `parseInt` of the text that `toString` writes gives back the integer, also after NaN is replaced by 0 |
| JsRuntime.Utf16Length | app.js:168 | `length` is between the number of characters and twice that; it equals the number of characters exactly when no character is above U+FFFF |
| JsRuntime.Includes | app.js:325 | `includes` holds exactly when the needle occurs at some index of the haystack |
| JsRuntime.ToLower | app.js:320 | `toLowerCase` keeps the length and maps each character on its own: ASCII and Latin-1 capitals to their small letters, every other character to itself |
| AppFormat.CommaBefore | app.js:315 | the regular expression `\B(?=(\d{3})+(?!\d))` matches at a position: not a word boundary, and one or more groups of three digits follow with no digit after the last (definition; characterised by CommaBeforeOnNumeral) |
| AppFormat.ReplaceFrom | app.js:315 | the global replace: a comma in front of every position where the expression matches, the characters unchanged (definition; characterised by ReplaceGroups and RemoveCommasOfReplace) |
| AppFormat.FormatNumber | app.js:314-316 | `formatNumber(n)` is the sign of n followed by the digits of abs(n) grouped in threes from the right, and removing its commas gives `n.toString()` back |
| AppFormat.ReplaceOfNumeral | app.js:315 | the replace applied to `n.toString()` gives the sign followed by the grouped digits, and inserts commas only |
| AppFormat.RemoveCommas | app.js:282 | `replace(/,/g, '')` leaves no comma |
| AppFormat.RemoveCommasKeeps | app.js:282 | `replace(/,/g, '')` leaves a text without commas unchanged, and keeps every other character as often as it occurred |
| AppFormat.RemoveCommasAppend | app.js:282 | removing commas works piecewise: on `a + b` it gives the result for `a` followed by the result for `b`, so the order of the kept characters is the order in the text |
| AppFormat.RemoveCommasOfReplace | app.js:315 | on a text without commas, removing the commas the replace inserted gives the text back |
| AppFormat.ParseDisplayedCount | app.js:282 | `parseInt` of the counter text with its commas removed, NaN as 0 (definition; its read-back is FormatNumberReadBack) |
| AppFormat.GroupsAheadOnDigits | app.js:315 | on a run of digits the lookahead `(\d{3})+(?!\d)` succeeds exactly where a positive multiple of three digits remains |
| AppFormat.CommaBeforeOnNumeral | app.js:315 | in a numeral the pattern matches exactly at the positions strictly inside the digits that have a multiple of three digits to their right |
| AppFormat.ReplaceGroups | app.js:315 | the global replace over the digits of a numeral equals grouping them in threes from the right |
| AppFormat.FormatSmallNumber | app.js:315 | an integer strictly between -1000 and 1000 is returned as `toString` gives it, with no comma |
| AppFormat.FormatNumberGroupShape | app.js:315 | after the sign, the first comma-separated group has 1 to 3 digits and every later group exactly 3; joining the groups gives the digits of abs(n) |
| AppFormat.FormatNumberReadBack | app.js:282 | reading back a counter that shows `formatNumber(n)` (commas removed, `parseInt`, NaN as 0) gives n |
| AppValidation.EmailShapeIsRegex | app.js:178-179 | `^[^\s@]+@[^\s@]+\.[^\s@]+$` matches exactly when the string has no whitespace, exactly one '@' with something before it, and a '.' with something on both sides after it |
| AppValidation.CheckLogin | app.js:110-116 | login is refused locally with "Please fill in all fields" exactly when the username is all whitespace or the password is empty; otherwise the request carries the trimmed (non-empty) username and the password as typed |
| AppValidation.CheckSignup | app.js:157-182 | the errors come in order: an empty field (username and email after trimming) always gives "Please fill in all fields"; then under 6 UTF-16 units; then a confirmation mismatch; then an email the pattern rejects; the request is sent exactly when all four checks pass, and carries the trimmed username and email |
| AppValidation.SignupEmailShape | app.js:178-182 | the email of a signup request has no whitespace, exactly one '@' with something before it, and a '.' strictly inside its domain |
| AppValidation.SignupThenLogin | app.js:199-203 | the username and password that a successful signup copies into the login form pass the login check unchanged |
| AppSearch.DisplayFor | app.js:324-329 | a card gets 'block' exactly when its lower-cased title contains the lower-cased term, 'none' otherwise |
| AppSearch.CardGrid.constructor | app.js:251-255 | the rendered cards with their titles, none with an inline display style yet |
| AppSearch.CardGrid.HandleSearch | app.js:319-331 | after the loop, every card's display is the one the rule gives for its title; the titles stay the same and only the display styles change |
| AppSearch.EmptyTermShowsAll | app.js:325 | an empty term shows every card |
| AppSearch.NarrowingTerm | app.js:320-325 | if the old term occurs in the new one, any card the new term shows was also shown by the old one |
| AppSearch.CaseInsensitive | app.js:320-324 | lower-casing the title or the term does not change the display |
| AppSession.GetItem | app.js:16-17 | `getItem` gives a value exactly for a stored key, and that value is the stored one |
| AppSession.AfterCheckAuth | app.js:15-25 | the token is always reloaded from storage; the app is entered exactly when both the stored token and the stored username are non-empty, and `currentUser` is then that username; otherwise `currentUser` is left as it was; the result is always signed-in-consistent |
| AppSession.AfterLogout | app.js:221-233 | both keys leave storage and no other key changes; `authToken` and `currentUser` are both null; the login form is cleared and shown in the auth modal |
| AppSession.AfterLogin | app.js:133-140 | the token and username the server returned become the globals and the stored values; other keys stay; the app is shown; the session is consistent exactly when the token is non-empty |
| AppSession.LogoutThenCheckAuth | app.js:221-225 | after a logout, checking again stays on the auth modal with both globals null |
| AppSession.LoginThenCheckAuth | app.js:137-138 | after a login with a non-empty token and username, checking again enters the app as that user |
| AppSession.Session.constructor | app.js:2-3 | on page load both globals are null |
| AppSession.Session.CheckAuth | app.js:15-25 | the object's new state is `AfterCheckAuth` of its old state |
| AppSession.Session.HandleLogout | app.js:221-233 | the object's new state is `AfterLogout` of its old state |
| AppSession.Session.LoginSucceeded | app.js:133-140 | the object's new state is `AfterLogin` of its old state |
| ScriptHistory.Added | script.js:110-118 | the term is in the new history: a term already present leaves the history unchanged; a new term is at index 0, followed by the old entries in order, with the oldest dropped exactly when there were already five or more |
| ScriptHistory.AddedBounded | script.js:114 | a history of at most five entries has at most five after an add |
| ScriptHistory.AddedFrom | script.js:112-114 | every entry after an add is the term or was already there |
| ScriptHistory.AddedNoDuplicates | script.js:112-113 | a history without repeats has none after an add |
| ScriptHistory.AddedIdempotent | script.js:112 | adding the same term twice gives the same history as adding it once |
| ScriptHistory.AddedDropsOldest | script.js:113-114 | when a new term meets a full history, the result is the term followed by all entries except the last |
| ScriptPage.ButtonClass | script.js:25-26 | a button has the class 'nav-btn active' exactly when it is active, 'nav-btn' otherwise |
| ScriptPage.Placeholder | script.js:27 | the game placeholder appears exactly in mode 'game', the username placeholder otherwise |
| ScriptPage.Endpoint | script.js:44 | '/game' exactly in mode 'game', '/user' in every other mode |
| ScriptPage.PlanSearch | script.js:34-45 | no request exactly when the input is all whitespace; otherwise the request goes to the mode's endpoint with the trimmed, non-empty input |
| ScriptPage.PresenceOf | script.js:89-101 | PLAYING exactly when `isPlaying` holds, whatever `isOnline` is; ONLINE exactly when online and not playing; OFFLINE otherwise |
| ScriptPage.BioText | script.js:82 | a missing or empty bio is shown as "No bio available."; any other bio is shown as it is |
| ScriptPage.RenderUser | script.js:78-101 | the badge text follows the presence rule, the bio follows the fallback, and a playing user's location reads "Playing: " and the last location |
| ScriptPage.ErrorText | script.js:48-61 | a refused reply shows its `error`, or "Unknown error" when that is missing or empty; a thrown exception shows its own message |
| ScriptPage.ModeView | script.js:23-31 | btnGame is active exactly in mode 'game' and btnUser exactly in mode 'user'; the placeholder follows the mode; all three panels are hidden; the rest stays |
| ScriptPage.ResultView | script.js:37-64 | the loader ends hidden; the game panel shows exactly after success in mode 'game'; the user panel shows exactly after success in any other mode, and then holds the rendered profile; the error box shows exactly on failure, with its message |
| ScriptPage.Tracker.constructor | script.js:4 | the page starts in mode 'game' with the stored history |
| ScriptPage.Tracker.SetMode | script.js:23-31 | the mode becomes the new one, the view becomes `ModeView` of the old view, and the history stays |
| ScriptPage.Tracker.AddToHistory | script.js:110-118 | the stored history becomes `Added` of the old one; nothing else changes |
| ScriptPage.Tracker.Search | script.js:33-65 | the request sent is `PlanSearch` of the mode and input; with no request nothing changes; otherwise the view becomes `ResultView`, and the trimmed input is added to the history exactly when the reply succeeded |
| LiveCounter.StartValue | ROBLOX-TRACKER-FIXED/ROBLOX-TRACKER-FIXED/live-ccp-updates.js:16 | the counter's starting value: `parseInt` of the element text, NaN as 0 (definition; see StartFromWritten) |
| LiveCounter.Step | ROBLOX-TRACKER-FIXED/ROBLOX-TRACKER-FIXED/live-ccp-updates.js:23-29 | one callback moves the counter one unit toward the target (none when already there); the new value lies between the old value and the target |
| LiveCounter.AfterMoves | ROBLOX-TRACKER-FIXED/ROBLOX-TRACKER-FIXED/live-ccp-updates.js:22-29 | after k callbacks the counter has moved min(k, abs(target - start)) units toward the target |
| LiveCounter.AfterBetween | ROBLOX-TRACKER-FIXED/ROBLOX-TRACKER-FIXED/live-ccp-updates.js:20-29 | the counter always lies in the closed interval between the start and the target |
| LiveCounter.AfterReaches | ROBLOX-TRACKER-FIXED/ROBLOX-TRACKER-FIXED/live-ccp-updates.js:23-32 | the counter equals the target exactly from abs(target - start) callbacks on |
| LiveCounter.AfterFixed | ROBLOX-TRACKER-FIXED/ROBLOX-TRACKER-FIXED/live-ccp-updates.js:23-32 | a counter that starts at its target never moves |
| LiveCounter.AfterStays | ROBLOX-TRACKER-FIXED/ROBLOX-TRACKER-FIXED/live-ccp-updates.js:23-32 | once at the target, a further callback leaves it there |
| LiveCounter.StartFromWritten | ROBLOX-TRACKER-FIXED/ROBLOX-TRACKER-FIXED/live-ccp-updates.js:16-25 | the value an animation writes into the element is the value the next animation starts from |
| LiveCounter.Animation.constructor | ROBLOX-TRACKER-FIXED/ROBLOX-TRACKER-FIXED/live-ccp-updates.js:15-22 | the counter starts at the parsed element text, or 0 when it does not parse, with the interval set |
| LiveCounter.Animation.Tick | ROBLOX-TRACKER-FIXED/ROBLOX-TRACKER-FIXED/live-ccp-updates.js:22-33 | a firing moves the counter by `Step`; it rewrites the text only when the value changed, and clears the interval exactly when the target is reached; once cleared, nothing changes |
| LiveCounter.RunAnimation | ROBLOX-TRACKER-FIXED/ROBLOX-TRACKER-FIXED/live-ccp-updates.js:15-34 | the interval is cleared after exactly abs(target - start) callbacks, or after one when start equals target; the element then shows the target, or its original text when nothing moved, and that text parses back to the target |

## Left out

- server.js and ROBLOX-TRACKER-FIXED/server.js: HTTP routing, database queries, password hashing and token signing. These are I/O and library calls.
- auth-config.js, db-schema.js and config.js: wrappers over unseen libraries, schema declarations, a constant URL.
- Resolving game links and usernames and aggregating upstream statistics: no modelled file performs it.
- `fetch`, the network answers and their failure modes: each answer is a parameter (`Reply`, the token and user of `LoginSucceeded`).
- The server's own error messages in handleLogin and handleSignup ("Login failed", "Signup failed", network errors), and the text and disabled state of their submit buttons: these are network branches and DOM cosmetics.
- The JSON encoding of `localStorage` 'bloxHistory': the history is a `seq<string>`. A corrupt or non-array stored value, which makes `JSON.parse` throw or misbehave, is not modelled.
- `loadHistory`, `updateGameUI`, `showSignupForm`, `clearErrors` and the modal title text: DOM rendering only. `toLocaleString` also depends on the browser's locale.
- `showLoginForm`, `showAuthModal`, `showApp` and `showError` are modelled by their effect only: which form and screen show (`AppSession.State`), and the error box's text and visibility (`ScriptPage.View`). The CSS classes and titles they set are not modelled. The login and signup error boxes of app.js are not modelled: the checks return the message they would show.
- `loadGames`: hard-coded sample data rendered to HTML. Its card titles are the `CardGrid` constructor's parameter.
- `showApp` starting `loadGames` and the player-count timer: timers and rendering.
- The connection check of `window.onload`: network I/O.
- `animateNumber` and the polling in `updatePlayerCount`: floating-point progress from wall-clock time. Only their read-back of the displayed count is modelled.
- The `stepTime` computation and the interval's timing: a floating-point division, by zero when start equals target. Only the order of callbacks is modelled.
- The 10-second polling of `fetchPlayerCount`: overlapping animations on the same element would interleave their writes, and this concurrency is not modelled.
- An exception thrown by `updateGameUI` or `updateUserUI` themselves (a missing numeric field, for example) after a successful reply: the history has then already been updated. The model treats rendering as total.
- `encodeURIComponent` of the search query: the request holds the trimmed query unencoded.
- Numbers are unbounded integers. JavaScript's loss of precision above 2^53, and `toString`'s exponent notation from 1e21 on, are not modelled.
- `formatNumber` on non-integers: every caller passes integers.
- JsRuntime.LowerChar: lower-cases only ASCII and Latin-1 capitals. Full Unicode case mapping (including characters that lower-case to two) is not modelled.
- ScriptPage.UserProfile: `isPlaying` and `isOnline` are booleans, not arbitrary JSON values judged by truthiness. `None` for `lastLocation` stands for JSON null, which renders "Playing: null". A missing `lastLocation` is `undefined` in JavaScript and renders "Playing: undefined"; that case is not modelled. For `bio`, a missing and a null value behave the same (the fallback text).
- ScriptPage.InitialView: the page's markup is not part of this model. The starting view assumes that btnGame starts active with the game placeholder, and that the game panel, user panel, error box and loader all start hidden.
- AppSession.Session.constructor: the markup is not part of this model either. The starting screen (auth modal) and form (login) are assumptions; app.js:2-3 fixes only that both globals start null, and checkAuth then sets the screen on load.
- ScriptPage.Tracker.Search: each search is modelled as atomic. The source reads the global `mode` once before its `await` to choose the endpoint (script.js:44), and again after the reply to choose the panel (script.js:54). A `setMode`, or a second `search()` started from a history entry, can run in between. The endpoint and the panel can then disagree (game data given to `updateUserUI`, or the reverse), and two searches can interleave their writes to the view and the history. The model reads the mode once for both.
- LiveCounter.RunAnimation: the new count is assumed to be an integer, which is what makes the interval terminate. `data.playerCount` is untyped JSON, and for other values the source's interval never clears. With 10.5 the counter swings between 10 and 11 for ever. With `undefined` every comparison is false, so it keeps firing and writes nothing. With the string "15" it climbs to 15, and then `15 === "15"` is false. This is a property of the source, not modelled here.
