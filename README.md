# spotify-importer, modelled in Dafny

A model of the decision-making core of a small Deno command-line tool. The
tool logs in to the Spotify Web API, searches the catalogue and lets the user
pick matches for records imported from a directory tree. Every network call,
file, clock, random number and terminal read is an input to the model.

- `auth.dfy` (module `Auth`) covers `auth.ts`:
  - the PKCE pair: the base64 text of the SHA-256 digest rewritten to unpadded
    base64url (sections 4 and 5 of RFC 4648; S256 of section 4.2 of RFC 7636);
  - the authorization URI (section 4.1.1 of RFC 6749);
  - the one-shot redirect listener `getTokens`, as a loop over the requests in
    the order it serves them;
  - the callback check and the code-exchange form of `exchangeToken`;
  - the refresh grant of `getFreshTokens` (section 6 of RFC 6749);
  - `tryTokenCache` and the orchestrator `auth`.
- `spotify.dfy` (module `SpotifyClient`) covers `spotify.ts`. The class
  `Spotify` keeps its mutable `token`. `Request` issues fetches and follows the
  429 retry rule, as a loop over the replies the network yields. `Search`
  builds the search parameters and the `q` text.
- `prompt.dfy` (module `Prompt`) covers `prompt.ts`: `formatRecord`, the
  recursive `promptActions`, `definiteMatchPrompt` and `possibleMatchPrompt`.
  The answers typed at the terminal are a sequence.
- `csv.dfy` (module `Csv`) covers `csv.ts`. It walks the directory listings
  with nested loops and serialises the rows with `|` and newlines.
- `js.dfy` (module `Js`) and `http.dfy` (module `Http`) hold the JavaScript
  built-ins the code relies on:
  - `parseInt` with no radix;
  - `String(n)`;
  - `Array.prototype.join`;
  - `String.prototype.split` on one character;
  - `URLSearchParams.get`, which returns the first match.
- `types.dfy` (module `Types`) holds the `Matches` and `PossibleMatch` shapes
  of `types/index.ts`.

The model follows the code, including where it departs from what the protocols or a careful client would do:

- The refresh reply's body is cached and returned as it is. No earlier
  refresh token is kept.
- The `Retry-After` value is passed to `setTimeout`, so it counts as
  milliseconds, not the seconds of section 10.2.3 of RFC 9110.
- The "100" fallback applies only when the header is absent. A header that
  does not parse gives NaN.
- Retries have no cap.
- The error log line carries the status and status text, not the body.
- The listener has no timeout.
- The cache write is not atomic.
- There is no batch write. `definiteMatchPrompt` calls `spotify.saveAlbums`,
  which `spotify.ts` does not define, so choosing "Save to library" throws a
  TypeError. The model records the call together with that throw.

## Model

| member | source | states |
|---|---|---|
| `Auth.ReplaceAll` | auth.ts:32-33 | Every occurrence of the pattern character is replaced, position by position. All other characters and the length stay the same. |
| `Auth.ReplaceAllUndone` | auth.ts:32-33 | Replacing back undoes a replacement whose target character did not occur. |
| `Auth.TrimEnd` | auth.ts:34 | Only the trailing run is removed. The result is a prefix of the input, everything cut off is the trimmed character, and the result does not end in it. |
| `Auth.Base64Url` | auth.ts:29-34 | The challenge maps `+` to `-` and `/` to `_` position by position and keeps everything else. It has no `+` or `/`, does not end in `=`, and is the input less its trailing `=` run. |
| `Auth.Base64UrlRoundTrip` | auth.ts:29-34 | For any padded base64 text, restoring the standard alphabet and the `=` padding gives the input back, so no digest information is lost. |
| `Auth.UuidPairIsVerifier` | auth.ts:27 | Two UUIDs run together are 72 unreserved characters, a valid verifier under section 4.1 of RFC 7636. |
| `Auth.GeneratePkce` | auth.ts:25-36 | The verifier is the two UUIDs joined. It is a valid RFC 7636 verifier when they are UUIDs. The challenge is URL-safe, unpadded, and decodes back to the digest's base64 text. |
| `Auth.AuthQueryNamesClient` | auth.ts:39-42 | The authorization query carries the client id, `response_type=code` and the loopback redirect URI. |
| `Auth.AuthQueryCarriesChallenge` | auth.ts:43-44 | The authorization query carries `code_challenge_method=S256` and the given challenge. |
| `Auth.AuthQueryAsksScopes` | auth.ts:45 | The authorization query asks for the tool's two scopes. |
| `Auth.GetAuthUri` | auth.ts:38-49 | The URI is the authorize endpoint with exactly six parameters. Each of them reads back as the request requires. |
| `Http.Get` | auth.ts:103-104 | `searchParams.get` gives null exactly when no parameter has the name. Otherwise it gives the first such parameter's value. |
| `Auth.CodeExchangeForm` | auth.ts:101-117 | The exchange proceeds exactly when `code` is truthy and `error` is not. Otherwise it throws "Spotify redirected without token: " followed by the error, or `null`. The form carries the client id, `authorization_code`, the code, the redirect URI and the verifier. |
| `Auth.ExchangeFormGrant` | auth.ts:111-114 | The code-exchange form reads back the client id, `grant_type=authorization_code` and the code from the callback. |
| `Auth.ExchangeFormRedirect` | auth.ts:115-116 | The code-exchange form reads back the loopback redirect URI and the code verifier of the PKCE pair. |
| `Auth.RedirectUriAgrees` | auth.ts:111-117 | The redirect URI in the token request equals the one in the authorization request, as section 4.1.3 of RFC 6749 requires. |
| `Auth.RefreshForm` | auth.ts:126-137 | The refresh grant posts the client id, `grant_type=refresh_token` and the cached refresh token. |
| `Auth.Route` | auth.ts:63-93 | `/login` gets 302 with `Location` equal to the authorization URI, and only `/login` gets it. The callback gets 200 "Success!". Every other path gets 404 with an empty body. |
| `Auth.Captured` | auth.ts:97-98 | Tokens come out exactly when the exchange's body is truthy. A falsy body throws "Couldn't get tokens.". A rejected fetch's error escapes. |
| `Auth.GetTokens` | auth.ts:51-99 | Each request up to and including the first callback gets Route's response, and nothing after it is served. The first callback alone decides the exchange. With no callback the result is "Couldn't get tokens.". |
| `Auth.ListenerSingleShot` | auth.ts:83-84 | Once a callback has arrived, later requests change neither the responses nor the exchange nor the result. |
| `Auth.BadCallbackPostsNothing` | auth.ts:102-107 | A first callback without a code, or with an error, is still answered 200 "Success!". It then throws and nothing is POSTed. |
| `Auth.NoCallbackNoTokens` | auth.ts:59-97 | When the connections end without a callback, every request got a 302 or a 404, nothing was POSTed, and getTokens throws "Couldn't get tokens.". |
| `Auth.TryTokenCache` | auth.ts:142-155 | A refresh is sent exactly when the cache parses to a truthy value. The refresh body is cached and returned as it is, whatever its status. The result is null exactly when the file is missing, unreadable or falsy, or the refresh throws, or the body is falsy. |
| `Auth.Authenticate` | auth.ts:162-174 | A truthy cache result is returned without starting the listener. Otherwise the listener runs with a fresh PKCE pair and the URI built from its challenge. Forms are posted in order, and captured tokens are written to the cache after any refresh body. |
| `SpotifyClient.RequestUrl` | spotify.ts:16-18 | The URL is the v1 base, then the path, then `?`, then the params. With no params, the query is empty and the URL ends in a bare `?`. |
| `SpotifyClient.BearerToken` | spotify.ts:20 | A token is read from the headers exactly when the first Authorization header starts with `Bearer `, and it is the text after that prefix. |
| `SpotifyClient.FetchFor` | spotify.ts:17-23 | With no caller headers, the only header is a bearer header for the current token. Caller headers replace it entirely. The caller's method and body are passed on. |
| `SpotifyClient.FetchCarriesToken` | spotify.ts:19-20 | Without caller headers, the one header the fetch carries reads back as a bearer credential for exactly the current token. |
| `SpotifyClient.RetryDelayDefault` | spotify.ts:26 | A 429 without `Retry-After` waits 100. |
| `SpotifyClient.RetryDelayOfHeader` | spotify.ts:26 | A `Retry-After` holding the decimal text of n waits exactly n, which `setTimeout` reads as milliseconds. |
| `Js.ParseIntToString` | spotify.ts:26 | parseInt reads back the decimal text of every integer. |
| `SpotifyClient.Spotify.constructor` | spotify.ts:3-5 | A new client has the v1 base URL and an empty token. |
| `SpotifyClient.Spotify.Init` | spotify.ts:7-9 | init sets the token and nothing else. |
| `SpotifyClient.Spotify.Request` | spotify.ts:11-39 | The client re-issues the identical fetch once per leading 429, with no cap, and logs each retry's delay. It hands back the first non-429 reply. A non-ok status is logged and returned, never thrown. |
| `SpotifyClient.RetriedStops` | spotify.ts:25-38 | After a run of 429s, the first other reply ends the retries. It is fetched once more, handed back, and logged only when it is not ok. |
| `SpotifyClient.RetryCount` | spotify.ts:25-38 | With k leading 429 replies before a different one, exactly k + 1 fetches are made and reply k is returned. |
| `SpotifyClient.Terms` | spotify.ts:46-47 | A record query has one `key:value` term per entry, in entry order. |
| `SpotifyClient.QueryStringOfEmptyRecord` | spotify.ts:46-48 | An empty record gives the empty query. |
| `SpotifyClient.QueryTermsRecoverable` | spotify.ts:46-48 | If no key or value holds a space, splitting `q` on spaces gives exactly the record's terms, in order. |
| `SpotifyClient.SearchParams` | spotify.ts:51-55 | A search sends exactly `type`, `q` and `market=from_token`. |
| `SpotifyClient.SearchPassesTextThrough` | spotify.ts:43-44 | A string query is sent as `q` unchanged. |
| `SpotifyClient.Spotify.Search` | spotify.ts:41-58 | search requests `/search` with those parameters and no init, under the same retry rule. |
| `Js.SplitJoin` | spotify.ts:48 | Splitting a join on the separator's first character gives the pieces back, provided no piece contains that character. |
| `Prompt.KeptFieldsMembers` | prompt.ts:11-13 | A field is kept exactly when it is in the record and its key is `name`, `artists`, `album` or `release_date`. |
| `Prompt.KeptFieldsAppend` | prompt.ts:12-13 | Filtering keeps the record's own key order. |
| `Prompt.RenderField` | prompt.ts:14-18 | `artists` is written as the artist names joined by ", ". Under any other key, a string is written as it is, an object as `[object Object]`, and a list of objects as that text once per element, joined by ",". An `artists` value that is not a list throws. |
| `Prompt.RenderAll` | prompt.ts:14-18 | Each kept field is rendered in order, and the whole fails exactly when one of them throws. |
| `Prompt.FormatRecordThrows` | prompt.ts:14-17 | formatRecord throws exactly when the record has an `artists` field that is not a list. |
| `Prompt.FormatRecordLines` | prompt.ts:19 | The fields are joined by a newline and five spaces. Cutting at newlines gives the first field, then each later one indented by five spaces. |
| `Prompt.Picked` | prompt.ts:39-40 | The input is the answer if there is one, else the default's decimal text. It is falsy when it is an empty answer, or a missing answer with no default or a default of 0. |
| `Prompt.Selected` | prompt.ts:42-43 | An input selects an action exactly when parseInt of it is an index of the actions. |
| `Prompt.ReadInput` | prompt.ts:39-43 | An input is dismissed exactly when it is falsy. It names action i exactly when parseInt of it is the index i of an action. Otherwise it names nothing. |
| `Prompt.Prompting` | prompt.ts:22-48 | Null comes back exactly when the input is dismissed. An action comes back exactly when the input names one, and it is that action, after one menu. An input that names nothing gives undefined, or the stack error, and the stack error only when the input read once the answers run out also names nothing. Every re-shown menu carries the retry text, and each one uses up one answer. |
| `Prompt.PromptActions` | prompt.ts:22-48 | The first menu is shown with the given options, and every later one with the retry text. An action is returned exactly when the first input names one, and it is one of the offered actions. Null is returned exactly when the input is falsy. The stack error needs a truthy default that names no action; with no default, an input that names nothing returns undefined. |
| `Prompt.NothingPickedIsNull` | prompt.ts:39-40 | An absent or empty answer with no truthy default returns null after one menu. A default of 0 behaves the same. |
| `Prompt.TypedIndexSelects` | prompt.ts:42-47 | Typing the index of an action returns that action after one menu. |
| `Prompt.DefaultIndexSelects` | prompt.ts:39-47 | With no answer, a non-zero default index returns that action. |
| `Prompt.InvalidInputReprompts` | prompt.ts:43-47 | Non-numeric input re-prompts with "Invalid input. Please retry:". The result is never an action, and with no default it is undefined. |
| `Prompt.ActionLines` | prompt.ts:33-36 | Action i is listed as `  i) text`, in order. Each is followed by an empty line when space is set. |
| `Prompt.MenuLines` | prompt.ts:32-37 | A menu logs the before-text first, the numbered actions next, and the after-text last. |
| `Prompt.DefiniteIds` | prompt.ts:68 | The ids passed on are those of the definite matches, in order. |
| `Prompt.DefiniteMatchPrompt` | prompt.ts:50-79 | Nothing happens when there are no definite matches. Otherwise there is one promptActions call. "library" passes the definite ids to `saveAlbums`, which is undefined and throws. "json" writes the matches file. |
| `Prompt.LibraryAnswerSavesIds` | prompt.ts:63-69 | Answering 1 passes the definite ids, in order, to `saveAlbums`. |
| `Prompt.MatchActions` | prompt.ts:86-90 | Each match becomes an action with its uri as id, its formatted record as text, and the match itself. |
| `Prompt.ItemOptions` | prompt.ts:91-96 | A possible item offers its matches in order and then the skip action, under the formatted target, with "Select the correct match." and spacing. |
| `Prompt.ItemChoice` | prompt.ts:92-97 | A chosen action carries one of that item's matches, or it is the skip action, whose match is undefined. |
| `Prompt.PossibleRunsBounds` | prompt.ts:85-98 | At most one entry is saved per item, and each saved match belongs to some item. A completed run shows at least one menu per item. |
| `Prompt.PossibleMatchPrompt` | prompt.ts:81-99 | The prompt goes item by item and logs the count first. Any chosen action with an id, skip included, pushes its match. A throw ends the loop. |
| `Csv.AlbumRowsMembers` | csv.ts:5-9 | The rows for an artist are exactly its album directories, as `[artist, album]`. |
| `Csv.ArtistRowsMembers` | csv.ts:3-11 | A data row is exactly an album directory under an artist directory. Plain files contribute nothing at either level. |
| `Csv.AlbumRowsCount` | csv.ts:8-9 | An artist contributes one row per album directory. |
| `Csv.ArtistRowsCount` | csv.ts:3-11 | There is one data row per album directory under an artist directory. |
| `Csv.CollectRows` | csv.ts:1-11 | The header `artist`, `album` comes first, then the album rows in traversal order. |
| `Csv.SerializedLines` | csv.ts:13 | Rows are joined by `\n` with no trailing newline. If no field holds a newline, cutting at newlines gives one line per row. |
| `Csv.ParseSerialize` | csv.ts:13 | If no field holds `\|` or a newline, reading the text back gives every row. |
| `Csv.ExportCsv` | csv.ts:1-14 | The text written is the serialised header and rows. |
| `Csv.ExportLineCount` | csv.ts:1-13 | The output has one line more than there are album directories, provided no name holds a newline. |

## Left out

- Hashing, UUID generation and the library's base64 rendering are foreign calls. The UUIDs and the digest's base64 text are inputs; only the rewriting step is modelled.
- URLSearchParams percent-encoding is not modelled. A query is kept as its ordered list of parameters, and a URL as the text before the query plus that list.
- Networking and HTTP parsing are not modelled. The requests are one sequence in the order the listener serves them: each connection's requests until it closes, then the next connection's. A callback on a later connection therefore waits behind an open keep-alive connection.
- `Auth.GetTokens`: the end of the request sequence stands for the connection stream ending. Nothing in the source closes the listener, so without a callback it would wait for ever.
- The token endpoint's reply is an input. It is either a rejected promise or the parsed body, where any truthy body counts as tokens. Its HTTP status is never read by the source.
- The listener's console output, the Content-Type header and the POST method of the token requests are not modelled.
- File I/O for the token cache is not modelled. That covers `existsSync`, reading, `ensureDirSync`, the unawaited write, and JSON parsing and printing. The cache file is one of missing, unreadable, or parsed; a failure of the cache write itself is not modelled.
- `Js.ParseIntToString`: the model's integers are exact. JavaScript's `parseInt` returns a Number, which rounds above 2^53, and `String` switches to exponent form from 1e21, so the round trip holds in the source only for safe integers.
- `Auth.TryTokenCache`: the `console.debug` line written when the cache access fails is not modelled.
- Timing is not modelled: `setTimeout` and the wait it causes are dropped, and only the chosen delay is logged.
- `SpotifyClient.Spotify.Request`: does not model an `init` call from elsewhere during a retry wait. The model reads the token once, as a single caller would see it.
- `SpotifyClient.Spotify.Request`: a fetch that rejects (a network failure) makes `request` and `search` throw. Replies model only responses that arrive, so that throw is not modelled.
- `SpotifyClient.Spotify.Request`: when every supplied reply is a 429, the source would keep fetching forever. The model ends with no response after the last supplied reply.
- Record values in a search query, and `Retry-After` values, are taken as strings. Other JavaScript types are not modelled.
- Catalogue objects keep only the values `formatRecord` can meet: strings, lists of artists, or other objects. Numbers, null and nested arrays of non-objects are not modelled.
- `Prompt.PromptActions`: when the answers have run out and a truthy default names no action, the source recurses until the stack is exhausted. The model returns `StackOverflow` with only the first menu recorded.
- Answers are what `prompt("> ")` returns, including null. Terminal echo and the prompt text are not modelled.
- The JSON file written by `definiteMatchPrompt` is recorded as an effect; its content is not modelled.
- `Csv.ParseSerialize`: a name holding `|` or a newline breaks the rows, because the source does not quote or escape fields.
- A directory listing that fails to read (`Deno.readDir` throwing) is not modelled, and the command-line argument naming the root is not modelled.
- `main.ts` is not part of this model; it is top-level glue. Neither is `util.ts`, which spawns a browser, nor `prompt.test.ts`, which asserts nothing.
