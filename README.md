# LoL profile search page, modelled in Dafny

This project models the logic of the single-page League of Legends profile
client in `src/App.jsx`. That file holds five pieces of logic:

- **Riot-ID parser.** The search text is trimmed and split on `#`. It names a
  player only when that gives exactly two non-empty parts. The parts are not
  trimmed again.
- **Search controller.** The `App` component has five state fields. Its
  `handleSearch` becomes two events. `Submit` runs up to the `await fetch`,
  that is, up to issuing the request. `Resolve` is the `try`/`catch`/`finally`
  once the request has ended. It takes the later `await response.json()`
  steps as one step, since no state changes between them.
- **Request URL.** The URL is a fixed endpoint, then the region, then the
  game name and tag line encoded with `encodeURIComponent`.
- **Outcome mapping.** The end of the request becomes either profile data or
  the text of the error banner.
- **Presenters and page gating.** These are the profile header, the champion
  table and the match list, with JavaScript's `||` fallbacks and "no data"
  checks. They also cover the conditions that decide which part of the page
  shows.

Modules, one per concern:

| file | module | what it holds |
|---|---|---|
| `wrappers.dfy` | `Wrappers` | `Option` |
| `js_text.dfy` | `JsText` | `String.prototype.trim`, `split` on one character, decimal text of integers |
| `js_value.dfy` | `JsValue` | JavaScript scalar values, truthiness, the logical or, `String(v)`, JSX text |
| `riot_id.dfy` | `RiotId` | the parser and its characterisation |
| `uri_component.dfy` | `UriComponent` | `encodeURIComponent` (UTF-8, section 2.1 of RFC 3986), a decoder, the round trip |
| `player_data.dfy` | `PlayerData` | the profile as the page reads it |
| `presenters.dfy` | `Presenters` | `ProfileHeader`, `ChampionStats`, `SimpleMatchHistory` |
| `profile_service.dfy` | `ProfileService` | request URL, the backend route's reading of it, outcome to banner text |
| `app.dfy` | `App` | page rendering conditions; class `SearchController` with `ChangeInput`, `Submit`, `Resolve` |

How the environment is represented:

- **Network.** `fetch` and `response.json()` become the `Outcome` datatype
  handed to `Resolve`. An outcome is a response, or a failure of `fetch` with
  its message. A response has a status, a status text and a body. The body
  either did not parse (with the rejection message) or is an object, read as
  a profile together with its `message` property.
- **Region.** The region is the constant `las`.
- **Invalid input keeps the old profile.** Text that is not `name#tag` sets
  the format error and does not clear the previous profile (lines 190-193).
  `StaleResultsBesideError` shows the consequence: the old results and the
  format error show together.

## Model

| member | source | states |
|---|---|---|
| `JsText.TrimStart` | src/App.jsx:186 | drops exactly the leading JavaScript white space: the rest is a suffix whose first character is not white space |
| `JsText.TrimEnd` | src/App.jsx:186 | drops exactly the trailing JavaScript white space: the rest is a prefix whose last character is not white space |
| `JsText.Trim` | src/App.jsx:186 | `trim()` never grows the text and leaves no white space at either end |
| `JsText.TrimRemovesSurroundingSpace` | src/App.jsx:186 | independent description of `trim`: all-white-space text around a core not starting or ending with white space is removed, and nothing else |
| `JsText.TrimEmptyIffAllSpace` | src/App.jsx:187 | the trimmed input is empty exactly when the input is all white space |
| `JsText.TrimKeepsTrimmed` | src/App.jsx:186 | text with no white space at its ends is its own trim |
| `JsText.TrimIdempotent` | src/App.jsx:186 | trimming twice is trimming once |
| `JsText.Split` | src/App.jsx:189 | `split('#')` gives at least one part, and no part contains the separator |
| `JsText.JoinSplit` | src/App.jsx:189 | joining the parts back with the separator restores the input |
| `JsText.SplitJoin` | src/App.jsx:189 | splitting a join of separator-free parts gives those parts back |
| `JsText.SplitTwo` | src/App.jsx:189-190 | `a#b` with no `#` in `a` or `b` splits into exactly `[a, b]` |
| `JsText.SplitThree` | src/App.jsx:189-190 | `a#b#c` with separator-free parts splits into exactly three parts |
| `JsText.NatText` | src/App.jsx:229 | the decimal text of a number: non-empty, all digits, starting with `0` only for zero itself |
| `JsText.IntText` | src/App.jsx:229-231 | `${response.status}`: a minus sign exactly for a negative number, then digits in canonical form, with no leading zero |
| `JsText.IntTextRoundTrip` | src/App.jsx:229-231 | the decimal text of the status reads back as the status |
| `JsValue.Truthy` | src/App.jsx:89-105 | JavaScript's ToBoolean behind every logical-or, `&&` and `!` guard: `undefined`, `null`, `false`, `0` and `""` are falsy, and every other value is truthy |
| `JsValue.ToText` | src/App.jsx:101 | `String(v)` in template literals and `new Error(v)`: `undefined`, `null`, `true`/`false`, the integer's decimal text, or the string itself; it is empty only for the empty string |
| `JsValue.RenderText` | src/App.jsx:96-97 | the text JSX prints for a child `{v}`: `String(v)` for a string or number, nothing for a boolean, `null` or `undefined` |
| `JsValue.Or` | src/App.jsx:89 | JavaScript's logical or of `a` and `b` is `a` when `a` is truthy and `b` otherwise; the result is truthy exactly when either operand is |
| `JsValue.RenderOr` | src/App.jsx:96-97 | a JSX child `v` or-ed with a fallback shows the fallback for every falsy value (`0`, `""`, `null`, `undefined`, `false`) and the value's text otherwise |
| `JsValue.TruthyTextNonEmpty` | src/App.jsx:231 | a truthy value's `String()` is never empty, so a thrown message taken from it is kept |
| `RiotId.ParseRiotId` | src/App.jsx:186-195 | a parsed player has non-empty game name and tag line, neither containing `#` |
| `RiotId.ParseAcceptsExactlyRiotIds` | src/App.jsx:189-195 | the parser yields `(gameName, tagLine)` if and only if the trimmed input is exactly `gameName#tagLine` with both non-empty and `#`-free |
| `RiotId.ParseBlankIffAllSpace` | src/App.jsx:186-187 | a submission is ignored as blank exactly when the input is all white space |
| `RiotId.ParseRejectsTheRest` | src/App.jsx:189-193 | the format error is raised exactly for non-blank input that is not a Riot ID |
| `RiotId.InnerSpaceIsKept` | src/App.jsx:186-195 | white space around the whole text is dropped, while white space beside the `#` stays in the parts: `"  a #b"` names `"a "` and `"b"` |
| `RiotId.SecondHashRejected` | src/App.jsx:189-193 | trimmed text holding two `#` is a bad format |
| `RiotId.HashPosition` | src/App.jsx:189-190 | in a `gameName#tagLine` text the only `#` is the one right after the game name |
| `RiotId.EmptySideRejected` | src/App.jsx:189-193 | trimmed text starting or ending with `#` leaves a side empty and is a bad format |
| `RiotId.MissingHashRejected` | src/App.jsx:186-193 | non-blank text without `#` is a bad format |
| `UriComponent.Utf8` | src/App.jsx:214 | a character's UTF-8 encoding is one to four bytes |
| `UriComponent.EscapeBytes` | src/App.jsx:214 | each byte becomes three characters, `%` followed by hex digits |
| `UriComponent.EncodeChar` | src/App.jsx:214 | an unescaped character is kept as itself; any other character becomes the `%XY` triplets of its UTF-8 bytes (3 to 12 characters) |
| `UriComponent.Encode` | src/App.jsx:214 | `encodeURIComponent` emits only the unreserved set of section 2.3 of RFC 3986, `! * ' ( )` and `%` |
| `UriComponent.EncodeKeepsUnescaped` | src/App.jsx:214 | text made only of unescaped characters is encoded as itself |
| `UriComponent.EncodeConcat` | src/App.jsx:214 | the encoding of a concatenation is the concatenation of the encodings |
| `UriComponent.EncodeCons` | src/App.jsx:214 | the encoding of a character followed by text is that character's encoding followed by the text's |
| `UriComponent.EncodeAt` | src/App.jsx:214 | every character is encoded in its place by `EncodeChar`, which pins the whole encoding down |
| `UriComponent.EncodeHasNoDelimiters` | src/App.jsx:214 | the encoding of a name or tag never contains `/`, `?` or `#` |
| `UriComponent.DecodeEncode` | src/App.jsx:214 | decoding the encoding of any string gives that string back |
| `ProfileService.RequestUrl` | src/App.jsx:214 | the URL is the fixed endpoint followed by `region/enc(gameName)/enc(tagLine)` |
| `ProfileService.RequestUrlRoundTrip` | src/App.jsx:214 | reading the URL string as built, the backend route splits it into exactly three segments and recovers region, game name and tag line, whatever characters the name and tag hold |
| `ProfileService.UnreservedNamesSentVerbatim` | src/App.jsx:214 | a name and tag made of unescaped characters appear in the URL as they are, so `.` and `..` are not escaped |
| `ProfileService.RequestUrlHasNoQueryOrFragment` | src/App.jsx:214 | past the endpoint, the URL has no `?` or `#`, so no part of a name or tag becomes a query or fragment |
| `ProfileService.ErrorText` | src/App.jsx:239 | the banner text is the error's message when that is non-empty and exactly `No se pudieron obtener los datos.` when it is empty, so it is never empty |
| `ProfileService.IsOk` | src/App.jsx:227 | `response.ok`: the status lies in 200 to 299 |
| `ProfileService.StatusErrorMessage` | src/App.jsx:227-231 | the message thrown for a non-ok response is never empty |
| `ProfileService.Settle` | src/App.jsx:223-242 | the profile results exactly when the status is ok and the body parses, and it is that body. A non-ok status gives the message thrown for it. An ok status with an unparsable body gives the parse error's message, or the generic one. A network failure gives its message, or the generic one. Every error is non-empty |
| `ProfileService.BodyMessageIsShown` | src/App.jsx:229-231 | a non-ok response whose body has a truthy `message` shows that message |
| `ProfileService.UnparsableBodyNamesStatus` | src/App.jsx:229 | a non-ok response with an unparsable body shows `Error del servidor: <statusText> (<status>)` |
| `ProfileService.MissingMessageNamesStatus` | src/App.jsx:231 | a non-ok response whose parsed body has no truthy `message` shows `Error <status> al contactar el backend` |
| `ProfileService.StatusCanBeReadBack` | src/App.jsx:231 | the numeric status can be read back out of that synthesized message |
| `ProfileService.NotFoundExample` | src/App.jsx:227-231 | a 404 with body `{"message":"not found"}` shows `not found` |
| `Presenters.FirstLetter` | src/App.jsx:89 | `gameName?.[0]` is the first character of a non-empty string and `undefined` otherwise |
| `Presenters.IconSource` | src/App.jsx:89 | the icon is the profile's own when truthy; otherwise a placeholder labelled with the name's first letter, or `?` |
| `Presenters.TitleLine` | src/App.jsx:96 | the heading is the name's text, or `Desconocido` when it is falsy, then `#`, then the tag's text, or `???` when it is falsy; each side falls back on its own |
| `Presenters.LevelLine` | src/App.jsx:97 | a falsy level, `0` included, reads `Nivel N/A`; a non-zero number reads as its digits |
| `Presenters.IsRanked` | src/App.jsx:100-104 | the guard `data.ranking && data.ranking.tier !== 'UNRANKED'` shared by the rank line and the win-rate line: a ranking is present and its tier is not `UNRANKED` |
| `Presenters.RankLabel` | src/App.jsx:100-102 | the rank line is `Unranked` if and only if the ranking is absent or its tier is `UNRANKED`; otherwise it is `<tier> <rank> (<leaguePoints> LP)` with each field as `String()` prints it |
| `Presenters.WinRateLine` | src/App.jsx:104-106 | the win-rate paragraph shows if and only if ranked and `winRate` is truthy, reading `Winrate: <winRate>`; a ranked `winRate` of the number `0` leaves the stray text `0`, exactly as the `&&` chain renders it; otherwise nothing shows |
| `Presenters.ProfileHeader` | src/App.jsx:82-111 | the header reads `Unranked` exactly when unranked, and nothing from the win rate accompanies `Unranked` |
| `Presenters.UnrankedTierHidesRanking` | src/App.jsx:100-106 | with tier `UNRANKED` the header reads `Unranked` with no win rate, whatever the other ranking fields hold |
| `Presenters.MissingTierIsShownAsUndefined` | src/App.jsx:100-102 | a ranking object with no tier, rank or leaguePoints counts as ranked and prints `undefined undefined (undefined LP)` |
| `Presenters.ChampionRows` | src/App.jsx:132-139 | one row per champion, in order |
| `Presenters.ChampionStats` | src/App.jsx:114-145 | the "no data" message exactly when the list is absent or empty, otherwise one row per champion |
| `Presenters.ChampionRowOf` | src/App.jsx:133-138 | a table row shows the champion's name as JSX prints it; the games, win-rate and K/D/A cells each show `N/A` when falsy (`0` included) and their own text otherwise |
| `Presenters.ZeroGamesShowsPlaceholder` | src/App.jsx:135 | a champion with `0` games shows `N/A` |
| `Presenters.MatchItems` | src/App.jsx:157-162 | one `ID Partida: <matchId>` item per match, in order |
| `Presenters.SimpleMatchHistory` | src/App.jsx:148-167 | the "no data" message exactly when the history is absent or empty, otherwise one item per match |
| `Presenters.MatchItem` | src/App.jsx:157-160 | a list item is `ID Partida: ` followed by the match id as JSX prints it |
| `App.HasError` | src/App.jsx:290-298 | the `error` state counts as set exactly when it holds a message that is truthy as a JavaScript string |
| `App.SearchBlockedIffSpaceOrLoading` | src/App.jsx:186-187 | `App.SearchBlocked`, the guard `handleSearch` returns on and the button's `disabled` (line 269) repeats, holds exactly when the input is all white space or a request is pending |
| `App.ResultsOf` | src/App.jsx:306-315 | the results block: the profile header, the champion panel over `mainChampions` and the match panel over `matchHistory` of one profile |
| `App.RenderPage` | src/App.jsx:267-306 | the page for a state: a disabled input comes with a disabled button, the loading notice excludes the banner, placeholder and results, a banner never shows an empty message, and the placeholder never shows beside a banner or results |
| `App.PageNeverBlank` | src/App.jsx:283-315 | some part always shows: the loading notice, the error banner, the placeholder or the results |
| `App.LoadingShowsOnlyTheNotice` | src/App.jsx:267-306 | while loading, input and button are disabled and only the loading notice shows |
| `App.PlaceholderOnlyWhenIdle` | src/App.jsx:298-302 | the placeholder shows if and only if there is no data, no error and no loading, and then nothing else shows |
| `App.ResultsPresentTheProfile` | src/App.jsx:306-315 | results show if and only if there is data and no loading, and they present that data |
| `App.BannerAndNoticeRule` | src/App.jsx:267-295 | the banner shows the `error` text exactly when it is truthy and nothing is loading, and is absent otherwise; the loading notice and the disabled input appear exactly while a request is pending |
| `App.SubmitDisabledWhenBlankOrLoading` | src/App.jsx:269 | the button is disabled exactly when the input is blank or a request is pending, the same guard `handleSearch` returns on |
| `App.SearchController.constructor` | src/App.jsx:172-177 | the page starts with empty input, no data, no error, not loading, region `las` |
| `App.SearchController.ChangeInput` | src/App.jsx:179-181 | typing replaces the input and changes nothing else |
| `App.SearchController.Submit` | src/App.jsx:184-214 | input the parser finds blank, or a pending request, changes nothing and sends nothing (`App.SubmitDisabledWhenBlankOrLoading` shows this is the button's `disabled` guard); a bad format sets exactly the format error, keeps the data and sends nothing; a Riot ID clears data and error, starts loading and sends the request built from that ID |
| `App.SearchController.Begin` | src/App.jsx:197-214 | the valid-submission step: loading starts, data and error are cleared, the input is kept, and the request for exactly the given name and tag in the page's region is returned |
| `App.SearchController.Resolve` | src/App.jsx:223-242 | loading always ends; a profile replaces the data and leaves the error; a failure sets its non-empty message and leaves the data |
| `App.SearchOnce` | src/App.jsx:184-242 | a search from a fresh page asks for exactly the typed player in `las` and ends with the profile and no error, its results on the page and no banner, or with an error and no profile, that error in the banner and no results or loading notice; a malformed ID puts the format error in the banner |
| `App.StaleResultsBesideError` | src/App.jsx:190-193 | a malformed search after a successful one leaves the old results on the page beside the format error |
| `App.RetryAfterFailure` | src/App.jsx:197-199 | searching again after a failure clears the error before the new request is pending |

## Left out

- UI primitives (`Card`, `Button`, `Table` and the rest, lines 10-76), class names, the loading spinner and button label (lines 270-278), and the CSS animation (lines 324-332): presentation only.
- `fetch` and `response.json()`: foreign I/O, represented by the `Outcome` datatype. JSON parsing itself is not modelled.
- A JSON body that parses to something other than an object (for example `null`) is not modelled. For `null`, reading `.message` would throw.
- React hooks, state batching, `e.preventDefault()` and the `useCallback` dependency list: framework runtime. The async gap is modelled as the two events `Submit` and `Resolve`.
- The image `onError` fallback (line 92): a DOM event side effect.
- `console.log` and `console.error` (lines 221, 238): logging only.
- `renderServiceName` (line 210): dead code.
- The React `key` of the results block (line 307): it affects only DOM reconciliation.
- `ChangeInput` does not model that the input is disabled while loading; the page state says so through `inputDisabled`.
- Numbers are integers only. Fractional numbers and `NaN` in the profile or status are not modelled.
- JsValue.ToText, JsValue.RenderText: `Num` holds an unbounded integer, not an IEEE double. `String(n)` is modelled only for |n| < 10^21; from 10^21 on, JavaScript switches to exponent form (`1e+21`) and the model prints all the digits. JSON integers above 2^53 are kept exact here, while JavaScript rounds them when the body is parsed. This affects the level, LP, games, win-rate and body `message` texts.
- Dafny characters are Unicode scalar values, while JavaScript strings are UTF-16.
  - A lone surrogate, on which `encodeURIComponent` throws, cannot be represented.
  - `gameName?.[0]` is modelled as the first character, not the first UTF-16 code unit.
- `UriComponent.Decode` and `ProfileService.RouteProfile` model how the receiving side reads the URL. The backend is not part of this model; these two exist to state the round trip.
- Profile and body fields holding arrays or objects are not modelled; every field is a scalar or absent. For example, a non-ok response with body `{"message": []}` shows `No se pudieron obtener los datos.` in the source: `[]` is truthy, so the status fallback is not chosen, but `String([])` is empty, so the thrown error has an empty message.
- `ProfileService.RequestUrlRoundTrip`: reads the URL string as built, not the URL `fetch` sends. The URL parser resolves `.` and `..` path segments, which `encodeURIComponent` does not escape, so a name `..` or `.` leads to a different path (`..#tag` requests `/api/profile/tag`). `UnreservedNamesSentVerbatim` shows such names reach the URL unchanged.
- A `URIError` from `encodeURIComponent` (line 214) is thrown after `setIsLoading(true)` and outside the `try`, which would leave the page loading for good. It needs a lone surrogate, which a Dafny string cannot hold, so the model has no such path.
- There is no region selector and no champion name, K/D/A or win field in the match list. `region` is the constant `las` (line 177), and matches render only `matchId` (lines 157-161).
