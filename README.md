# aiosxm in Dafny

A model of the core of aiosxm, an asynchronous Python client for the SiriusXM
streaming API, together with proofs of what that core promises. It has three parts:

- **The session and token state machine of `SxmClient`** (aiosxm/client.py):
  - `request`, with its token-expiry check, bearer override, content-type decoding and error wrapping;
  - the five-step authentication chain (device session, anonymous session, identity status,
    password authentication, authenticated session), run by `_authenticate`;
  - `connect`, `get_stream`, and the two exception types.
- **Stream resolution in `SxmStream`** (aiosxm/stream.py):
  - the tune request;
  - the scan of the bitrate manifest that fills the bitrate → playlist-URL table;
  - the `stream_id`, `streams_by_bitrate_url` and `base_url` properties;
  - the URLs fetched by `get_playlist`, `get_segment` and `get_key`.
- **The local proxy** (aiosxm/proxy.py):
  - the `re.sub` that points each `#EXT-X-KEY:METHOD=AES-128,URI="…"` directive of a playlist
    at the proxy's own key route;
  - the path shapes of the playlist, key and segment routes.

The files are:

| file | module | contents |
|---|---|---|
| `common.dfy` | `Common` | Shared values: decoded JSON, response bodies, the package's errors, Python truthiness, and `d[key]` / `x[0]` with the exceptions they raise. |
| `http.dfy` | `Http` | The transport half of `request`: the bearer override, `raise_for_status`, decoding by content type. |
| `auth.dfy` | `Auth` | The client as functions over a `ClientState` value: `Request`, each chain step, `Authenticate`, `Connect`. Also the lemmas about the chain. |
| `stream.dfy` | `Stream` | `SxmStream` as functions over a `Handle` value: `split`, `strip`, the manifest scan, `rsplit`, `Initialize`, and the calls made by the three getters. Also their lemmas. |
| `proxy.dfy` | `Proxy` | The key-URI rewrite as a left-to-right scanner, its lemmas, and route resolution. |
| `client.dfy` | `Client` | The classes `SxmClient` and `SxmStream` with their mutable fields. Each method runs its Python counterpart statement by statement and is proved equal to the matching `Auth` or `Stream` function. |

The network and the clock are inputs:

- `Server.reply(k, request)` is the transport's answer to the k-th request sent.
- `Server.clock(k)` is the time just before the k-th request.
- The client keeps the log of requests it has handed to the transport (`sent`), so the proofs can talk about what was sent and in what order.

The recursion `request` → `_authenticate` → step → `request` terminates. `request` re-enters the chain only while an expiry is held, and it clears that expiry first.

## Model

| member | source | states |
|---|---|---|
| Http.Authorize | aiosxm/client.py:98-99 | With a non-empty token, the headers get exactly one more key, `Authorization`, set to `"Bearer " + token`, which overrides the caller's value. Every other header is kept. With no token or an empty one, the headers pass through unchanged. |
| Http.Decode | aiosxm/client.py:105-111 | No contract of its own: `DecodeByContentType` states which view of the body it picks. |
| Http.DecodeByContentType | aiosxm/client.py:104-110 | `application/json` decodes as JSON. The three text types decode as text. Every other type decodes as bytes. The body is always the response's own view of that kind. |
| Http.Receive | aiosxm/client.py:101-114 | The call fails exactly on a transport failure or a status of at least 400. The failure is a RequestError carrying the URL and the cause, or the status. Otherwise the result is the decoded body. |
| Auth.Wrap | aiosxm/client.py:194-197 | A RequestError leaving the chain becomes an AuthenticationError whose cause is that RequestError. Any other error passes through unchanged. |
| Auth.ExpiryField | aiosxm/client.py:192-193 | Reading the expiry succeeds exactly when the stored session has a numeric `accessTokenExpiresAt`. Any failure is a Python fault, never a RequestError. |
| Auth.Send | aiosxm/client.py:95-114 | Only the shared headers and the log change. Without a URL nothing is sent and the result is a TypeError. With a URL, exactly one request is appended: the caller's verb, URL and payload, with the bearer-overridden headers. |
| Auth.Request | aiosxm/client.py:87-114 | The log only grows. A state without an expiry keeps none, so the chain's own requests never refresh again. |
| Auth.CreateDeviceSession | aiosxm/client.py:116-123 | The log only grows, and a cleared expiry stays cleared. What the step sends is stated by ChainFromClearedState and AuthenticateRun. |
| Auth.CreateAnonymousSession | aiosxm/client.py:125-134 | The same guarantees as CreateDeviceSession, for the anonymous-session step. |
| Auth.GetIdentityStatus | aiosxm/client.py:136-147 | The same guarantees as CreateDeviceSession, for the identity-status step. |
| Auth.AuthenticateWithPassword | aiosxm/client.py:149-163 | The same guarantees as CreateDeviceSession, for the password step. |
| Auth.CreateAuthenticatedSession | aiosxm/client.py:165-176 | The same guarantees as CreateDeviceSession, for the authenticated-session step. |
| Auth.Authenticate | aiosxm/client.py:178-197 | The chain only appends to the log. |
| Auth.AfterDevice | aiosxm/client.py:183 | The chain after the device step only appends to the log. What it sends and when it fails are stated by AfterDeviceRun and AfterDeviceFromCleared. |
| Auth.AfterAnonymous | aiosxm/client.py:184-188 | The same, for the identity-status stage and the no-password check; see AfterAnonymousRun. |
| Auth.AfterIdentity | aiosxm/client.py:189 | The same, for the password stage; see AfterIdentityRun. |
| Auth.AfterPassword | aiosxm/client.py:190-193 | The same, for the authenticated-session stage and the token store; see AfterPasswordRun. |
| Auth.StoreToken | aiosxm/client.py:191-193 | Success needs both a string `accessToken` and a readable expiry, and then the state holds both. With a bad token nothing is written. With a bad expiry the token is already stored and the expiry is not. |
| Auth.Connect | aiosxm/client.py:66-70 | No contract of its own: ConnectRegistersDeviceOnce and ConnectSucceeds state what it sends. |
| Auth.IdentityUrlIsDistinct | aiosxm/client.py:139-140 | The identity-status URL differs from every other URL the chain or `connect` requests, whatever the username. |
| Auth.ClearedRequest | aiosxm/client.py:87-114 | Without a token or an expiry, `request` sends exactly one request, with the caller's headers untouched. Its result is what the transport replied. |
| Auth.RequestWithoutRefresh | aiosxm/client.py:89-99 | When no expiry is held, or it has not been reached, no session field, token or expiry changes. A token held without an expiry is never renewed. At most one request is sent, with the override applied. The shared headers are overridden in place only when the caller passed no headers. |
| Auth.RequestRefreshesWhenExpired | aiosxm/client.py:89-93 | When the expiry has been reached, the new requests are a prefix of the chain's URLs followed by the caller's URL. The caller's request is sent exactly when the chain succeeds, so the chain runs once and never recursively. Whenever it was sent, the state holds the new token and expiry of the authenticated session, which `RequestAnswersItsOwnCall` shows as the request's bearer. |
| Auth.RequestAnswersItsOwnCall | aiosxm/client.py:95-114 | A body, or a RequestError for the caller's URL, comes from the reply to the last request sent. That request is the caller's verb, URL and payload. Its headers are the shared dictionary when the caller passed none, otherwise the caller's with the bearer overridden. Either way, a held non-empty token (the refreshed one after a refresh) is its `Authorization` bearer. A RequestError raised during a refresh never escapes `request`. |
| Auth.AfterPasswordFromCleared | aiosxm/client.py:190-193 | When the last two stages succeed, they send one request: the authenticated session, bearing the stored authentication grant. The stored token and expiry are then the authenticated session's. |
| Auth.AfterIdentityFromCleared | aiosxm/client.py:189-193 | A successful run sends the password request and then the authenticated session. The password request bears the anonymous token. |
| Auth.AfterAnonymousFromCleared | aiosxm/client.py:184-193 | A successful run sends the identity status and then the password request, both bearing the stored anonymous token. The authenticated session follows, in that order. |
| Auth.AfterDeviceFromCleared | aiosxm/client.py:183-193 | A successful run first sends the anonymous session, bearing the device grant. The rest follows as above. The device session is kept. |
| Auth.ChainFromClearedState | aiosxm/client.py:181-193 | A successful chain sends exactly its own requests, in order. It registers the device only when no truthy device session is cached. The bearers are the device grant, the anonymous token twice, then the authentication grant. It ends holding the stored token and expiry. |
| Auth.AfterPasswordRun | aiosxm/client.py:190-197 | The last stage requests a prefix of its URL list, and all of it on success. On failure, no expiry is written, and a token only when the expiry after it is malformed. When the last request failed in transport, the stage fails with exactly the chain-failed AuthenticationError whose original exception is that failure. Conversely, an AuthenticationError with a cause carries the last request's failure. |
| Auth.AfterIdentityRun | aiosxm/client.py:189-197 | The same promises, including the wrapping of a failed last request, for the password and authenticated-session stages. |
| Auth.AfterAnonymousRun | aiosxm/client.py:184-197 | The same promises, for the stages from the identity status on. The run fails with the no-password error exactly when its last request was the identity status and the reply denied a password. |
| Auth.AfterDeviceRun | aiosxm/client.py:183-197 | The same promises, including the wrapping of a failed last request, for the stages from the anonymous session on. |
| Auth.AuthenticateRun | aiosxm/client.py:178-197 | The same promises, for the whole chain and its URL list. The list starts with the device registration unless a truthy device session is cached. |
| Auth.NoPasswordStopsEarly | aiosxm/client.py:185-188 | A run that fails with the no-password error sent no password request and wrote no token and no expiry. |
| Auth.ChainFailureFromClearedState | aiosxm/client.py:178-197 | The chain's failure contract in one statement. A prefix of the chain's URLs is sent and no expiry is written. When the last request failed in transport, the chain fails with exactly `AuthenticationError(chain-failed message, that RequestError)`. The no-password error is raised exactly when the identity status denies a password; it comes before any password request and writes no token. |
| Auth.ConnectRegistersDeviceOnce | aiosxm/client.py:66-70 | `connect` registers the device first. When that registration returns a truthy session, the chain skips its own registration, so the device is registered once. A successful `connect` sends the chain's requests in order and ends with the web player fetch. |
| Auth.ChainAfterRegistration | aiosxm/client.py:68-69 | After the explicit registration, a successful chain's URLs follow it in the chain's order. |
| Auth.ConnectSucceeds | aiosxm/client.py:66-70 | The successful path of `connect`: the registration, the chain's URLs, then the player page, last. |
| Auth.WrapAsWritten | aiosxm/client.py:194-197 | As written, the handler turns a RequestError into a TypeError, not an AuthenticationError. The TypeError's context is the RequestError. Any other error passes through. |
| Auth.AuthenticateAsWritten | aiosxm/client.py:178-197 | `_authenticate` with both of its raises evaluated as written. No contract of its own: AuthenticateAsWrittenAgrees relates it to `Authenticate`. |
| Auth.RequestAsWritten | aiosxm/client.py:87-114 | `request` running the as-written chain on an expired token. No contract of its own: RequestAsWrittenAgrees relates it to `Request`. |
| Auth.UnexpiredRequestErrors | aiosxm/client.py:87-114 | Without a reached expiry, `request` fails only with its own errors: a RequestError, or the TypeError of a missing URL. |
| Auth.AuthenticateAsWrittenAgrees | aiosxm/client.py:178-197 | From a state without an expiry, the as-written chain sends the same requests and leaves the same state as the intended one. It differs only in raising a TypeError, with the same context, wherever an AuthenticationError is meant. |
| Auth.RequestAsWrittenAgrees | aiosxm/client.py:87-93 | For every state and call, `request` as written returns the intended result and state, except that an AuthenticationError from a refresh becomes the TypeError. |
| Auth.NoPasswordAsWritten | aiosxm/client.py:185-188 | As written, an identity status denying a password ends the chain with `TypeError` and no context, after the same requests as the intended chain. |
| Auth.ChainFailureAsWritten | aiosxm/client.py:194-197 | As written, a transport failure of the chain's last request surfaces as a TypeError whose context is that RequestError. The chain never raises an AuthenticationError. |
| Auth.RefreshFailureAsWritten | aiosxm/client.py:89-93 | The caller of `request` holds an expired token and has no cached device session, and the device registration is answered with status 500. It then gets the chain-failed AuthenticationError wrapping `RequestError(devices URL, 500)` in the intended code, and an unwrapped TypeError with that context as written. |
| Stream.SplitOn | aiosxm/stream.py:73-74 | `str.split`: at least one piece, and no piece contains the separator. |
| Stream.JoinSplit | aiosxm/stream.py:73-74 | Joining the pieces of a split gives the text back. |
| Stream.SplitJoin | aiosxm/stream.py:73-74 | Splitting a join of separator-free pieces gives the pieces back. |
| Stream.SplitAround | aiosxm/stream.py:73-74 | Splitting at an occurrence of the separator gives the pieces of each side, in order. |
| Stream.Strip | aiosxm/stream.py:46 | `str.strip`: the result has whitespace on neither end and is no longer than the input. |
| Stream.StripCutsSpaces | aiosxm/stream.py:46 | The stripped text is a slice of the input, and only whitespace was cut from each side. |
| Stream.StripPadding | aiosxm/stream.py:46 | Whitespace around a trimmed text is exactly what `strip` removes. |
| Stream.StripIdempotent | aiosxm/stream.py:46 | Stripping twice equals stripping once. |
| Stream.Lines | aiosxm/stream.py:43 | The lines that `^` and `$` delimit under `re.MULTILINE`. Joined with line breaks they give the manifest back, and none contains a line break. |
| Stream.FirstLine | aiosxm/stream.py:42-43 | The first line containing the marker, with none before it; or none, when no line contains it. |
| Stream.Probe | aiosxm/stream.py:42-48 | A bitrate gets a URL exactly when some line contains `_<bitrate>_full_v3.m3u8`. The URL is the base URL, `/`, and the first such line, stripped. |
| Stream.Fill | aiosxm/stream.py:41-48 | After probing a list of bitrates, the table's keys are the old keys plus those bitrates. Each probed bitrate holds its probe. Every other entry is kept. |
| Stream.RerunOverwrites | aiosxm/stream.py:41-48 | Rerunning the scan over a table that holds only bitrates forgets everything the table held. |
| Stream.RefillForgets | aiosxm/stream.py:41-48 | The same for any list of bitrates that covers the table's keys: the result does not depend on what the table held. |
| Stream.ProbeFromLine | aiosxm/stream.py:42-46 | The entry computed from the first matching line, as the loop body computes it, is the probe. Without a matching line the probe is empty. |
| Stream.FirstMatchingLineWins | aiosxm/stream.py:43-46 | When the first line of a manifest contains the marker, that line, stripped, gives the entry. |
| Stream.OtherLineSkipped | aiosxm/stream.py:43-48 | A first line without the marker is passed over. |
| Stream.FirstStream | aiosxm/stream.py:55 | `tune["streams"][0]` succeeds only on a stored JSON response. |
| Stream.ManifestEntry | aiosxm/stream.py:60 | `tune["streams"][0]["urls"][0]["url"]` exists only when the first stream does. |
| Stream.ManifestUrl | aiosxm/stream.py:57-60 | `streams_by_bitrate_url` succeeds exactly when that entry exists and is a string. |
| Stream.StreamId | aiosxm/stream.py:52-55 | `stream_id` is the string `id` of the first stream. |
| Stream.BaseUrl | aiosxm/stream.py:65 | `rsplit("/", 1)[0]`: a URL without `/` is returned whole. Otherwise the result is the prefix before the last `/`. |
| Stream.BaseUrlOfChild | aiosxm/stream.py:65 | Cutting the last component of `dir + "/" + name` gives back `dir`. |
| Stream.BaseUrlOf | aiosxm/stream.py:62-65 | `base_url` succeeds exactly when the manifest URL does, and is its `BaseUrl`. |
| Stream.Initialize | aiosxm/stream.py:22-50 | `initialize` only appends to the client's log. What it stores and requests is stated by InitializeResult and TuneSourceStoredFirst. |
| Stream.InitializeResult | aiosxm/stream.py:22-50 | `initialized` becomes true exactly when a run succeeds, and never goes back. A failing run leaves the table as it was. After a successful run: the table's keys are the old keys plus 256k, 96k, 64k and 32k, and exactly those four when it held only bitrates; the last request fetched the manifest named by the stored tune response; every bitrate holds the probe of that reply's lines. |
| Stream.TuneSourceStoredFirst | aiosxm/stream.py:24-35 | The tune request is a POST of the entity to the tune-source URL. Its response is stored even when a later step fails. When the tune request itself fails, nothing of the stream changes. |
| Stream.Stored | aiosxm/stream.py:69 | `dict.get`: absent and `None` entries both read as no URL. |
| Stream.FillStep | aiosxm/stream.py:41-48 | One more pass of the loop sets that bitrate's entry on top of the shorter fill. |
| Stream.PlaylistCall | aiosxm/stream.py:67-69 | No contract of its own: PlaylistFetchesStoredUrl states what `get_playlist` then sends. |
| Stream.PlaylistFetchesStoredUrl | aiosxm/stream.py:67-69 | `get_playlist` fetches exactly the stored URL. There is no availability check: without a stored URL nothing is sent for it, and the call fails with a TypeError. |
| Stream.SecondToLast | aiosxm/stream.py:73-74 | `parts[-2]` exists exactly when there are at least two parts. Otherwise it is an IndexError. |
| Stream.SegmentCall | aiosxm/stream.py:71-75 | Without a stored URL the call is an AttributeError. With a stored URL that has no `/`, it is an IndexError. |
| Stream.SegmentBesidePlaylist | aiosxm/stream.py:73-75 | A segment is fetched from `base_url + "/" + dir + "/" + segment_file`, where `dir` is the second-to-last component of the stored playlist URL. |
| Stream.KeyId | aiosxm/stream.py:79 | The key id is the zero UUID for any `channel-linear` entity, whatever its id. Otherwise it is `stream_id`. |
| Stream.KeyUrl | aiosxm/stream.py:80-83 | No contract of its own: KeyUrlNamesKeyId relates it to the key id. |
| Stream.KeyUrlNamesKeyId | aiosxm/stream.py:80-83 | The key URL is the key endpoint's prefix followed by the key id, so different ids give different URLs. |
| Stream.KeyCall | aiosxm/stream.py:77-84 | `get_key` sends a GET exactly when the key id can be read, to the key URL of that id. |
| Proxy.QuoteAt | aiosxm/proxy.py:43 | The lazy `(.+?)"` stops at the first quote, and no line break may come before it. |
| Proxy.MatchLen | aiosxm/proxy.py:43 | A match starts with the literal prefix and spans at least one group character plus the closing quote. |
| Proxy.Rewrite | aiosxm/proxy.py:43-46 | The left-to-right scan of `re.sub`. No contract of its own: NoPrefixUnchanged, ByLine, KeyLine and Fixed state what it does. |
| Proxy.RewritePlaylist | aiosxm/proxy.py:43-46 | The rewrite with the AES-128 key prefix and the proxy's key URI. No contract of its own: NoKeyLineUnchanged, RewriteByLine, LineWithoutKeyKept, RewriteKeyLine and RewriteIdempotent state what it does. |
| Proxy.NoKeyLineUnchanged | aiosxm/proxy.py:43-46 | A playlist that does not contain `#EXT-X-KEY:METHOD=AES-128,URI="` comes back unchanged. |
| Proxy.RewriteByLine | aiosxm/proxy.py:43-46 | No match spans a line break, so the playlist is rewritten line by line. |
| Proxy.LineWithoutKeyKept | aiosxm/proxy.py:43 | A line without the prefix, such as an `EXT-X-KEY` with another method or attribute order, is kept exactly. |
| Proxy.RewriteKeyLine | aiosxm/proxy.py:43-46 | All text before a key directive is preserved, and so is the text after it, which is rewritten on its own. The directive becomes `URI="/stream/{entity_type}/{entity_id}/key"`. Its quoted value must be non-empty and end at the first quote. |
| Proxy.NoPrefixUnchanged | aiosxm/proxy.py:46 | The general scanner leaves a text without the prefix unchanged. |
| Proxy.ByLine | aiosxm/proxy.py:46 | The general scanner distributes over line breaks. |
| Proxy.KeyLine | aiosxm/proxy.py:46 | The general scanner replaces exactly the first directive after a prefix-free text. |
| Proxy.Fixed | aiosxm/proxy.py:46 | A rewritten text rewrites to itself when the replacement matches itself. |
| Proxy.ReplacementSelfMatching | aiosxm/proxy.py:44-45 | With no quote and no line break in the entity names, the pattern matches the replacement exactly. |
| Proxy.RewriteIdempotent | aiosxm/proxy.py:43-46 | For entity names without quotes or line breaks, rewriting twice equals rewriting once. |
| Proxy.SplitSlash | aiosxm/proxy.py:33 | The text before the first `/` contains no slash, and together with the rest it rebuilds the input. |
| Proxy.StreamParts | aiosxm/proxy.py:33 | A path under `/stream/` splits into two slash-free components and a tail that rebuild it. |
| Proxy.Resolve | aiosxm/proxy.py:33-62 | A resolved route's variables are non-empty and contain no `/`, `{` or `}`. The path is `/stream/{entity_type}/{entity_id}/` followed by the route's tail. A segment file is non-empty before its `.aac` suffix. |
| Proxy.ResolveParts | aiosxm/proxy.py:33-62 | Every path built from two components resolves by its tail, trying the routes in registration order: `playlist.m3u8`, `key`, then the segment pattern. |
| Proxy.RewrittenUriHitsKeyRoute | aiosxm/proxy.py:44-50 | The URI written into a served playlist resolves to the key route of the same entity. |
| Proxy.KeyPathRoundTrip | aiosxm/proxy.py:50 | The key path of an entity whose names are route components resolves back to that entity. |
| Proxy.SegmentPathRoundTrip | aiosxm/proxy.py:62 | A segment path resolves back to its entity and its file. |
| Proxy.PlaylistPathRoundTrip | aiosxm/proxy.py:33 | A playlist path resolves back to its entity. |
| Client.SxmClient.constructor | aiosxm/client.py:43-51 | The client starts with nothing cached, no token, no expiry and no streams. |
| Client.SxmClient.Request | aiosxm/client.py:87-114 | The result and the new fields are exactly those of `Auth.Request`. No stream is touched. |
| Client.SxmClient.CreateDeviceSession | aiosxm/client.py:116-123 | Equal to `Auth.CreateDeviceSession`. |
| Client.SxmClient.CreateAnonymousSession | aiosxm/client.py:125-134 | Equal to `Auth.CreateAnonymousSession`. |
| Client.SxmClient.GetIdentityStatus | aiosxm/client.py:136-147 | Equal to `Auth.GetIdentityStatus`. |
| Client.SxmClient.AuthenticateWithPassword | aiosxm/client.py:149-163 | Equal to `Auth.AuthenticateWithPassword`. |
| Client.SxmClient.CreateAuthenticatedSession | aiosxm/client.py:165-176 | Equal to `Auth.CreateAuthenticatedSession`. |
| Client.SxmClient.Authenticate | aiosxm/client.py:178-188 | Equal to `Auth.Authenticate`. |
| Client.SxmClient.AuthenticateWithIdentity | aiosxm/client.py:189-197 | Equal to the rest of the chain, `Auth.AfterIdentity`. |
| Client.SxmClient.Connect | aiosxm/client.py:66-70 | Equal to `Auth.Connect`. |
| Client.SxmClient.GetStream | aiosxm/client.py:256-266 | A stream is created only when its key is absent, and an existing one is never replaced. Every other registered stream is unchanged. An initialized stream is returned as it is, with nothing sent. Otherwise it is initialized exactly as `Stream.Initialize` says. A successful call returns an initialized stream. |
| Client.SxmStream.constructor | aiosxm/stream.py:12-20 | A new stream is not initialized, has no tune response and has an empty table. |
| Client.SxmStream.Initialize | aiosxm/stream.py:22-50 | The outcome, the client's new state and the stream's new fields are those of `Stream.Initialize`. |
| Client.SxmStream.FillTable | aiosxm/stream.py:41-48 | The loop leaves the table that `Stream.Fill` computes for the four bitrates in order. |
| Client.SxmStream.SearchBitrate | aiosxm/stream.py:42-48 | One pass of the loop computes `Stream.Probe` for that bitrate, from the base URL of the stored tune response. |
| Client.SxmStream.GetPlaylist | aiosxm/stream.py:67-69 | `request` applied to `Stream.PlaylistCall`. |
| Client.SxmStream.GetSegment | aiosxm/stream.py:71-75 | When `Stream.SegmentCall` fails, that error is returned and the client is untouched. Otherwise, `request` applied to the call. |
| Client.SxmStream.GetKey | aiosxm/stream.py:77-84 | When `Stream.KeyCall` fails, that error is returned and the client is untouched. Otherwise, `request` applied to the call. |

## Left out

- The aiohttp session and its lifecycle (`_get_http_client_session`, `disconnect`, aiosxm/client.py:72-85) are network code. The transport is the `Server.reply` oracle, and the transport's own JSON, text and byte decoders are given as already-decoded views of each response.
- The clock and timestamp parsing (`datetime.now`, `datetime.fromisoformat`) are modelled as an integer clock indexed by the number of requests sent, with the expiry already an integer. A non-numeric expiry stands in for one that `fromisoformat` rejects (a ValueError).
- `_load_config` (aiosxm/client.py:199-214) scrapes HTML and writes a file. Only the player-page request that `connect` makes is modelled. Parsing that page, and the file write, are not.
- `get_library`, `get_channels` and `get_podcast_episodes` are not part of this model. They only reshape vendor JSON.
- The base64 decoding of the key, the proxy handlers' bodies (including the playlist handler's extra call to `initialize`), route registration, `proxy_server` and `web.run_app` are server plumbing. Only the rewrite and the route shapes are modelled.
- Percent-decoding of route variables by the web framework is not modelled. Paths are compared as decoded text.
- Concurrency: calls are modelled one after another. The source has no locking, and interleaved refreshes are not modelled.
- `__aenter__` (aiosxm/client.py:53-55) connects but returns `None` instead of the client. The context-manager protocol is not modelled.
- JSON numbers are integers. Floats do not arise in the fields the core reads.
- String-valued fields: a grant, token, URL or id read from a response must be a JSON string. Otherwise the model raises a TypeError. Python would pass a non-string value on and fail later, or format it into a URL. `base_url` on a non-string raises the AttributeError that `rsplit` raises.
- There is no not-available check for a bitrate without a playlist. `get_playlist` passes a `None` entry to `request`, and `get_segment` fails on `.split`.
- Proxy.RewritePlaylist: requires entity names without backslashes. `re.sub` would interpret backslash escapes in the replacement template, and that is not modelled.
- `Proxy.Rewrite` models the regular expression as a scanner over its literal prefix, group and quote, not as a general regular-expression engine.
- The manifest search is modelled through its lines. Under `re.MULTILINE` the pattern `^.*m.*$` matches exactly the lines that contain `m`, and the match is the whole line.
- `Stream.Strip` removes the characters Python's `str.isspace` accepts, written out as code-point ranges.
- The chain lemmas in `Auth` (`ChainFromClearedState`, `AuthenticateRun` and the stage lemmas) require a state with no token and no expiry. That is the state `request` runs the chain from, and the state `connect` starts in. With a token already held, each step's explicit bearer would be overridden by that token.
- Auth.CreateDeviceSession: its own contract states only log growth and that a cleared expiry stays cleared. What it sends and stores is stated by the chain lemmas.
- Auth.CreateAnonymousSession: its own contract states only log growth and that a cleared expiry stays cleared. What it sends and stores is stated by the chain lemmas.
- Auth.GetIdentityStatus: its own contract states only log growth and that a cleared expiry stays cleared. What it sends and stores is stated by the chain lemmas.
- Auth.AuthenticateWithPassword: its own contract states only log growth and that a cleared expiry stays cleared. What it sends and stores is stated by the chain lemmas.
- Auth.CreateAuthenticatedSession: its own contract states only log growth and that a cleared expiry stays cleared. What it sends and stores is stated by the chain lemmas.
- Auth.Authenticate: its own contract states only log growth. What it sends and stores is stated by the chain lemmas.
- Client.SxmClient.Authenticate: runs the source's straight-line `_authenticate` in two methods. The second, `AuthenticateWithIdentity`, holds the steps after the password check.
- Client.SxmStream.Initialize: evaluates `base_url` through the same tune response inside the loop, as the source does, but the loop itself lives in `FillTable`.
- Auth.AuthenticateAsWritten: its steps' own requests go through the intended `Request`. Those requests never refresh, because the chain's states hold no expiry, so the difference is never reached.
- The module-level header dictionary that `request` updates in place is the client field `defaultHeaders`. It is shared by one client only.

## Findings

| source | as written | input that shows it | evidently intended | confidence | as-written member | corrected member |
|---|---|---|---|---|---|---|
| aiosxm/client.py:188 | `raise AuthenticationError(message)` passes one argument to a constructor that requires two (aiosxm/client.py:282), so a TypeError is raised instead. It is not a RequestError, so it escapes the chain unwrapped. | An identity-status reply `{"hasPassword": false}` | An AuthenticationError with the no-password message and no original exception | high; not executed | Auth.NoPasswordAsWritten | Auth.AuthenticateRun |
| aiosxm/client.py:197 | The same one-argument call inside `except RequestError`: the caller gets a TypeError whose context is the RequestError. | Any chain request answered with status 500 | An AuthenticationError with the chain-failed message and the RequestError as its original exception | high; not executed | Auth.RefreshFailureAsWritten | Auth.ChainFailureFromClearedState |
