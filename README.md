# im-server session gateway, modelled in Dafny

im-server sits between WebSocket clients and one AI bus connected over a gRPC bidirectional
stream. Each admitted WebSocket connection is a session. The gateway:

- keeps a registry from session id to connection;
- announces each session to the bus with a `session_open` envelope;
- relays client frames upstream as `data` envelopes;
- routes bus envelopes down to the session's connection;
- sends `session_close` when a client goes.

Admission works as follows:

1. In browser mode, query parameters are translated into headers.
2. A `Bearer` JWT is checked against the server secret.
3. The token's `device_id` must equal the request's `Device-Id`.
4. The gateway waits a bounded time for the bus.

Supporting parts:

- device tokens;
- device-id validation and the bind-key message;
- the configuration defaults and the load fallback;
- the logger's string and file-name logic (level names, console colouring, attribute pairing, archive naming and retention);
- the application's health check, routing and shutdown order.

Layout, one module per source file:

| file | module | source |
|---|---|---|
| `wrappers.dfy` | `Wrappers` | `Option` and `Result` |
| `text.dfy` | `Text` | the meaning of the Go `strings`/`fmt` functions the code uses |
| `device.dfy` | `Device` | `src/device/bind_utils.go` |
| `token.dfy` | `Token` | `im-server/auth/token.go` |
| `config.dfy` | `Configs` | `im-server/configs/config.go` |
| `logger.dfy` | `Logging` | `im-server/utils/logger.go` |
| `gateway.dfy` | `Gateway` | `im-server/gateway/service.go` |
| `app.dfy` | `App` | `im-server/main.go` |

The gateway is a class, `Gateway.GatewayServer`. Its fields are:

- the registry `conns`;
- the held bus stream `stream`;
- logs of the envelopes sent up the bus (`sent`), the client writes (`writes`) and the connection closes (`closed`).

Every method is specified against a pure function on a `State` value (`Send`, `Accept`, `Forward`, `Open`, `Frame`, `Teardown`). Goroutines, `sync.Map` and the mutex are modelled as interleavings of atomic `Step`s, applied in order by `Run`. Each `sync.Map` `Store` or `Delete`, each locked section (the stream store, `gatewaySend`) and each `WriteMessage` or `Close` on a connection is one step. `Load` only reads, so it is not a step: `ForwardSteps` computes what `forwardToClient` does from the state its `Load` observed, and those steps may then interleave with any others. Each operation's contract says it equals running its steps without interference. The lemmas about races hold for any order of the racing steps, or name the interleaving they are about.

Where the system's design notes and the code disagree, the model follows the code:

- **Bus connectivity is never cleared.** The design notes say connectivity is cleared when the bus stream ends. In the code, `messageGatewayHandler` stores the stream and never resets it, so `IsGatewayConnected` stays true after EOF, and envelopes keep going to the dead stream (`Gateway.StreamNeverReset`).
- **The session is registered before `session_open` is sent.** The design notes say the session is registered after `session_open` is sent (`Gateway.Open`, `Gateway.ReplyToOpenIsDelivered`).
- **A duplicate `Session-Id` overwrites the registered session.** The design notes say ids are never reused while registered. The displaced connection's teardown later deletes the replacement's entry (`Gateway.DisplacedTeardownOrphansReplacement`). A teardown interleaved with a re-open of the same id leaves the id routed to the new connection after the bus was last told `session_close` (`Gateway.TeardownRacesReopen`). A bus close whose `Load` saw the old connection deletes the new entry (`Gateway.ForwardRacesReopen`).
- **Teardown is not exactly once.** The design notes call it exactly once and idempotent. When the bus close sees the session before the client's teardown deletes it, the client's teardown still sends `session_close` upstream and the connection is closed a second time. In every interleaving, the registry and the bus traffic end the same (`Gateway.TeardownOrderIndependent`).
- **Any HMAC method is accepted.** The design notes name a single HMAC-SHA-256 algorithm. Strict verification accepts HS256, HS384 and HS512 alike (`Token.StrictVerifyExactly`).
- **Health needs a gateway server.** `handleHealth` reports `degraded` only when a gateway server exists and is not connected. It calls `ActiveSessions` on the server unconditionally, so it needs one (`App.Application.HandleHealth`).

## Model

| member | source | states |
|---|---|---|
| Device.ValidateDeviceID | src/device/bind_utils.go:23-34 | accepted exactly when the id is 1 to 64 bytes long (UTF-8 bytes, as Go's `len`); the empty id is refused |
| Device.ValidateDependsOnlyOnLength | src/device/bind_utils.go:29-33 | two ids with the same byte length get the same verdict: the content never matters |
| Device.ValidateByCharacters | src/device/bind_utils.go:29-31 | every id of 1 to 16 characters passes and no id longer than 64 characters does |
| Device.ValidateAscii | src/device/bind_utils.go:29-31 | for ASCII ids the rule is 1 to 64 characters |
| Device.ByteLenBounds | src/device/bind_utils.go:29 | a string's byte length lies between its character count and four times it |
| Device.BindMessage | src/device/bind_utils.go:16 | the HMAC input `deviceID:userID:timestamp` parses back into the three inputs, read from its last two fields, even when the device id contains `:` |
| Device.BindMessageInjective | src/device/bind_utils.go:16 | different (device, user, timestamp) triples give different messages |
| Device.DecodeLowerHex | src/device/bind_utils.go:19 | the `%x` rendering of a byte string decodes back to the bytes |
| Device.GenerateBindKey | src/device/bind_utils.go:11-20 | the key is 64 lower-case hex characters whose decoding is the HMAC-SHA-256 digest, under the server secret, of the bind message |
| Token.NewAuthToken | im-server/auth/token.go:15-20 | never fails: the instance holds the given secret, and a warning is printed exactly when it is empty |
| Token.Parse | im-server/auth/token.go:56-65 | the parser reports no error exactly when it returns a valid token, and returns no token object only for a malformed string; undecodable segments are malformed, an unresolvable `alg` is unverifiable, then the allow-list, the key function, the signature and the time claims reject in that order |
| Token.ClaimsVerdict | im-server/auth/token.go:78-90 | valid exactly when the claims are a map with a string `device_id` and a numeric `user_id`, which are then returned; otherwise `(false, "", 0, error)` |
| Token.UnknownAlgIsUnverifiable | im-server/auth/token.go:56-68 | a token whose `alg` is missing or unregistered is refused strictly with the library's unverifiable error, whatever the allow-list |
| Token.VerifyToken | im-server/auth/token.go:45-91 | the verdict is valid exactly when no error is returned, and a rejection carries `""` and 0 |
| Token.VerifyNilRejects | im-server/auth/token.go:46-51 | a nil receiver or a nil secret gives `(false, "", 0, error)` whatever the token |
| Token.StrictVerifyExactly | im-server/auth/token.go:56-77 | without `ignoreExpiry`, a token passes exactly when it decodes, uses an HMAC method, is signed with the secret, its `exp`/`nbf` hold (an `exp` of 0 counting as absent, as the JWT library reads it) and its claims carry the two identities; any parse error rejects |
| Token.SkipAcceptsUnsignedTokens | im-server/auth/token.go:57-72 | with `ignoreExpiry`, as written, any token object passes on its claims alone, whatever its method, its `alg` header or its signature |
| Token.VerifyTokenIntended | im-server/auth/token.go:45-91 | agrees with `VerifyToken` without `ignoreExpiry`; with it, a valid verdict implies an HS256 token signed with the secret |
| Token.TokenClaims | im-server/auth/token.go:29-35 | the claims carry a string `device_id` and a numeric `user_id` that the verifier extracts as the given identities, and their time claims hold exactly before issue time plus expiry, or always when that sum is 0 |
| Token.GenerateTokenWithExpiry | im-server/auth/token.go:28-42 | the token is HS256; under the instance's key, the parser accepts it with claims validation exactly before issue time plus expiry (always when that sum is 0); its claims carry the given identities |
| Token.GenerateToken | im-server/auth/token.go:23-25 | the same with user 0 and one hour (3600 s) |
| Token.GenerateThenVerify | im-server/auth/token.go:28-42 | a token issued with expiry e at time t verifies strictly as `(true, device, user)` at every time before t + e |
| Token.ExpiredRejectedUnlessIgnored | im-server/auth/token.go:28-77 | after t + e the same token is rejected with a claims error strictly, unless t + e is 0, when it is accepted; with `ignoreExpiry` it is accepted |
| Token.ZeroExpiryNeverExpires | im-server/auth/token.go:56-65 | a token signed with the secret whose `exp` is 0 passes the time checks at every time, so strict verification depends on its identity claims only |
| Token.GenerateTokenLastsOneHour | im-server/auth/token.go:23-25 | `GenerateToken` issues a token for user 0 that verifies exactly during the hour after issue |
| Token.ForgedTokenWithIgnoredExpiry | im-server/auth/token.go:66-72 | a token signed with another key is refused strictly and by the corrected check, but accepted as written with `ignoreExpiry` |
| Configs.Config.constructor | im-server/configs/config.go:76 | a new config holds the zero value in every field |
| Configs.Config.Assign | im-server/configs/config.go:87 | decoding leaves exactly the decoded values in the fields |
| Configs.Config.SetDefaults | im-server/configs/config.go:52-71 | afterwards every field holds its default (WebSocket on 0.0.0.0:9000, gRPC with browser mode on 0.0.0.0:9001, token `your_token`, log dir `logs`, level `INFO`, file `im-server.log`, the format string), whatever it held, so a second call changes nothing |
| Configs.LoadedValues | im-server/configs/config.go:81-91 | the defaults when the file cannot be read or fails to decode (even after a partial decode), the decoded values otherwise |
| Configs.ConfigsPackage.LoadConfig | im-server/configs/config.go:75-95 | returns a fresh config holding `LoadedValues`, the path `config.yaml` and no error, and sets the global `Cfg` to that config |
| Configs.ListenAddress | im-server/main.go:52 | the `%s:%d` address starts with the IP and a colon, and the port reads back from the rest |
| Logging.ConfigLogLevelToSlogLevel | im-server/utils/logger.go:80-93 | each of `DEBUG`, `INFO`, `WARN`, `ERROR` gives the level of that name; every other string gives Info |
| Logging.ConfigLevelRoundTrip | im-server/utils/logger.go:80-93 | the upper-case name of each level maps back to that level |
| Logging.ConfigLevelOthersAreInfo | im-server/utils/logger.go:80-93 | any other string, including the lower-case `debug`/`error` constants, maps to Info |
| Logging.ColorWrite | im-server/utils/logger.go:52-65 | a line containing `ERROR` is only prefixed with the error colour; any other line becomes the time colour followed by the line with `DEBUG`, `INFO`, `WARN` each wrapped in its colour and a reset, the prefix itself untouched by the replacements |
| Logging.ColorWritePlain | im-server/utils/logger.go:58-63 | a line with none of the four level words is only prefixed with the time colour |
| Logging.ReplaceKeepsText | im-server/utils/logger.go:60-62 | wrapping a level word in colour codes keeps the text well coded and leaves what a terminal shows unchanged |
| Logging.ColorWriteKeepsText | im-server/utils/logger.go:52-65 | the rewrite only inserts colour codes: stripping them gives the original line back |
| Logging.PairAttrsBound | im-server/utils/logger.go:233-237 | pairing makes at most half as many attributes as there are fields |
| Logging.PairAttrsMember | im-server/utils/logger.go:233-237 | an attribute is produced exactly for a string at an even position followed by a value; other keys and a trailing unpaired field are dropped |
| Logging.BuildAttrs | im-server/utils/logger.go:225-239 | no attributes for no fields or a nil first field; one attribute per entry for a map first field; the key/value pairing otherwise |
| Logging.Logger.constructor | im-server/utils/logger.go:105-117 | the minimum level comes from the configured level name, the current date is today and the file is open |
| Logging.Logger.Log | im-server/utils/logger.go:219-245 | builds the attributes and appends one record to both handlers exactly when the level is at or above the minimum |
| Logging.Logger.Debug | im-server/utils/logger.go:247-253 | a message containing `%` is formatted with the arguments and logged with no fields; otherwise the arguments become fields |
| Logging.Logger.Info | im-server/utils/logger.go:259-265 | the same dispatch at Info |
| Logging.Logger.Warn | im-server/utils/logger.go:267-273 | the same dispatch at Warn |
| Logging.Logger.Error | im-server/utils/logger.go:275-281 | the same dispatch at Error |
| Logging.Ext | im-server/utils/logger.go:158-159 | the extension is the suffix of the file name from the last dot of its final path element: empty exactly when that element has no dot, otherwise starting with its only dot and holding no `/` |
| Logging.FormatDate | im-server/utils/logger.go:115 | the date in layout `2006-01-02`: ten characters, four digits, a dash, two digits, a dash, two digits |
| Logging.ParseDate | im-server/utils/logger.go:196 | accepts only strings of that shape naming an existing date (month 1 to 12, day within the month, leap years included) |
| Logging.ParseFormatDate | im-server/utils/logger.go:196 | parsing with layout `2006-01-02` recovers any date formatted with it |
| Logging.FormatParseDate | im-server/utils/logger.go:196 | every string the parser accepts is exactly the formatting of the date it returns, so parsing and formatting are inverse |
| Logging.FormatDateSplits | im-server/utils/logger.go:193-194 | a formatted date splits on `-` into exactly its three fields |
| Logging.DateOrderIsTimeOrder | im-server/utils/logger.go:196 | an earlier calendar date starts at an earlier instant |
| Logging.ArchiveName | im-server/utils/logger.go:158-160 | the archive name is one character plus the date longer than the log file name, so it never is the active file |
| Logging.ArchiveDate | im-server/utils/logger.go:188-195 | the active log file never has the archive shape |
| Logging.Expired | im-server/utils/logger.go:188-197 | only names with the archive shape expire, and the active log file never does |
| Logging.ArchiveNameRoundTrip | im-server/utils/logger.go:158-195 | for a date with three `-` parts, the cleanup filter accepts the archive name and recovers that date |
| Logging.ArchiveExpiresByDate | im-server/utils/logger.go:182-197 | an archive written at rotation is removed exactly when its day starts before the cutoff |
| Logging.OlderArchivesExpireFirst | im-server/utils/logger.go:182-197 | if an archive expires, every older one does too |
| Logging.ExpiredEntriesExactly | im-server/utils/logger.go:190-201 | an entry is removed exactly when it is in the listing and is an expired archive; all other files are untouched |
| Logging.CleanOldLogs | im-server/utils/logger.go:178-202 | removes nothing when the directory cannot be read, and otherwise exactly the expired archives, in listing order, with cutoff now minus 7 days |
| Logging.Logger.RotateLogFile | im-server/utils/logger.go:150-175 | an existing active file is renamed to the archive name of the day it covered; the day advances only if the new file opens |
| Logging.Logger.CheckAndRotate | im-server/utils/logger.go:141-147 | nothing happens on the same day; on a new day the logger rotates and then runs the retention pass |
| Gateway.Send | im-server/gateway/service.go:334-348 | `gatewaySend` sends nothing without a stream and exactly that one envelope on the held stream otherwise, and touches nothing else |
| Gateway.Accept | im-server/gateway/service.go:143-145 | storing the stream is the one locked step `AttachStream` |
| Gateway.Forward | im-server/gateway/service.go:166-198 | `forwardToClient` is the steps its `Load` decides, run without interference: nothing, one write, or Close then Delete |
| Gateway.Open | im-server/gateway/service.go:250-270 | the end of `HandleWebSocket` is `Store`, then the locked send of `session_open` |
| Gateway.Frame | im-server/gateway/service.go:292-298 | a client frame is the one locked send of its data envelope |
| Gateway.Teardown | im-server/gateway/service.go:274-280 | the deferred teardown is `Delete`, the locked send of `session_close`, then `Close` |
| Gateway.RunAppend | im-server/gateway/service.go:141-300 | running two sequences of steps one after the other is running their concatenation |
| Gateway.CloseStepsEffect | im-server/gateway/service.go:182-184 | a mix of deletes of one id, closes of one connection and sends of its `session_close`, in any order, has an effect fixed by how often each occurs |
| Gateway.ForwardDropsUnroutable | im-server/gateway/service.go:168-177 | a nil envelope, an empty session id or an unregistered id writes nothing, closes nothing and leaves the registry alone |
| Gateway.ForwardCloseRemovesOne | im-server/gateway/service.go:182-186 | a bus `session_close` closes exactly that session's connection and deletes exactly its key; every other entry is kept |
| Gateway.ForwardDataWrites | im-server/gateway/service.go:188-197 | any other routed envelope is written to the session's connection with its message type, 0 meaning text (1); the session stays registered |
| Gateway.ForwardAllShrinks | im-server/gateway/service.go:149-161 | downstream traffic only shrinks the registry, keeps every remaining binding, and sends nothing upstream |
| Gateway.FrameAllSendsInOrder | im-server/gateway/service.go:283-299 | a session's frames go up as one data envelope each, in read order, tagged with the session id |
| Gateway.TeardownOrderIndependent | im-server/gateway/service.go:166-280 | the steps of a bus close and of the client's teardown, in any order, leave the registry without the session and send exactly one upstream `session_close`; the connection is closed twice when the bus close's `Load` saw the session, once otherwise |
| Gateway.TeardownRacesReopen | im-server/gateway/service.go:250-280 | when a re-open of the id runs between the teardown's `Delete` and its send, the id is routed to the new connection and the bus's last envelope for it is `session_close` |
| Gateway.ForwardRacesReopen | im-server/gateway/service.go:174-185 | when a re-open of the id runs between a bus close's `Load` and its `Delete`, the id is deleted and the new connection is left open with no route to it |
| Gateway.ReplyToOpenIsDelivered | im-server/gateway/service.go:254-270 | at every point of `HandleWebSocket`'s store-then-send after `session_open` has been sent, the id is already routed to the new connection and a bus reply to it reaches that connection; the opposite order would break this |
| Gateway.DisplacedTeardownOrphansReplacement | im-server/gateway/service.go:250-276 | a duplicate session id replaces the registered connection; the displaced connection's teardown then deletes the id, and the replacement gets no more downstream traffic |
| Gateway.StreamNeverReset | im-server/gateway/service.go:141-162 | once a bus stream is held, every sequence of steps keeps one, so `IsGatewayConnected` (103-107) stays true; without a new bus attach the stream is unchanged |
| Gateway.BearerToken | im-server/gateway/service.go:308-314 | a credential exists exactly when `Authorization` starts with `Bearer `, and it is the rest of the header |
| Gateway.BrowserTranslation | im-server/gateway/service.go:205-224 | a non-empty query parameter overrides its header and an empty one leaves it alone; a token `t` becomes `Authorization: Bearer t` and `Token: t`, so the extracted credential is exactly `t`; outside browser mode the headers are untouched |
| Gateway.VerifyJWTAuth | im-server/gateway/service.go:306-330 | admits exactly when there is a Bearer credential, the token verifies with expiry enforced, and its `device_id` equals the `Device-Id` header; then the token's user id is returned |
| Gateway.DeviceBinding | im-server/gateway/service.go:322-326 | a live token issued for a device admits a request claiming that device, with its user id, and refuses any other `Device-Id` with a mismatch |
| Gateway.MissingBearerRejected | im-server/gateway/service.go:309-311 | a credential without the `Bearer ` prefix is refused before the token is looked at |
| Gateway.WaitFrom | im-server/gateway/service.go:353-369 | a successful wait always leaves a stream held |
| Gateway.WaitSucceedsIff | im-server/gateway/service.go:353-369 | the wait succeeds exactly when there is at least one poll and a stream is held or attaches before the last poll; a failed wait leaves the stream as it was |
| Gateway.SessionIdFor | im-server/gateway/service.go:250-253 | the session id is the `Session-Id` header when non-empty, else the fresh id; it is never empty |
| Gateway.SessionOpenHeaders | im-server/gateway/service.go:259-270 | `session_open` carries exactly the six headers `Device-Id`, `Client-Id`, `Session-Id`, `Transport-Type`, `Authorization` and `User-Id` |
| Gateway.GatewayServer.constructor | im-server/gateway/service.go:66-74 | the token verifier holds the configured server token; no session, no stream, empty logs |
| Gateway.GatewayServer.ActiveSessions | im-server/gateway/service.go:110-117 | the count equals the registry size |
| Gateway.GatewayServer.GatewaySend | im-server/gateway/service.go:334-348 | the new state is `Send` of the old one |
| Gateway.GatewayServer.AcceptStream | im-server/gateway/service.go:143-145 | the new stream replaces whatever was held |
| Gateway.GatewayServer.ForwardToClient | im-server/gateway/service.go:166-198 | the new state is `Forward` of the old one |
| Gateway.GatewayServer.MessageGatewayHandler | im-server/gateway/service.go:141-162 | holds the new stream, forwards every envelope received in order, keeps the stream after the receive ends, and returns an error only for a non-EOF failure |
| Gateway.GatewayServer.WaitGatewayConnected | im-server/gateway/service.go:353-369 | the result and the stream afterwards are those of `WaitFrom` |
| Gateway.GatewayServer.HandleWebSocket | im-server/gateway/service.go:203-271 | a refused request (401) or a failed wait (503) leaves the registry and the bus untouched; after a successful upgrade the session is stored under its id and then announced with the six headers, `User-Id` being the decimal user id |
| Gateway.GatewayServer.ClientFrame | im-server/gateway/service.go:292-298 | one client frame becomes one data envelope for its session |
| Gateway.GatewayServer.ClientTeardown | im-server/gateway/service.go:275-280 | deletes the id, sends one `session_close` and closes the connection |
| Gateway.GatewayServer.ClientReadLoop | im-server/gateway/service.go:273-300 | every frame read goes up in order, and then the teardown runs |
| App.HealthStatus | im-server/main.go:85-88 | the status is `degraded` exactly when a gateway server exists and is not connected, `ok` otherwise |
| App.HealthBodyRoundTrip | im-server/main.go:90 | the body `{"status":"<s>","sessions":<n>}` reads back as its status and session count |
| App.Route | im-server/main.go:67-69 | `/health` exactly goes to the health handler; every other path goes to the WebSocket entry |
| App.Application.constructor | im-server/main.go:109 | a new application has no servers and has shut nothing down |
| App.Application.Start | im-server/main.go:50-81 | a failed listen creates nothing; otherwise a fresh gateway server with the configured token and browser mode and no sessions is created, and the HTTP server is set on `wsIP:wsPort` |
| App.Application.HandleHealth | im-server/main.go:84-91 | a JSON body with the status for the gateway's connectivity and the registry size; nothing changes |
| App.Application.Stop | im-server/main.go:95-104 | the HTTP server is shut down before the gRPC server, each only when it exists |

## Left out

- JWT encoding, base64 and HMAC-SHA-256 (RFC 2104) are not modelled. A token string is seen through the abstract decode result `Token.Unverified`, and HMAC is a function parameter of `Device.GenerateBindKey`.
- The float64-to-uint conversion of `user_id` is not modelled. Numeric claims are natural numbers.
- Token.Parse: only the checks token.go depends on are kept: segment decoding, the method allow-list, the key function, the signature, and `exp`/`nbf`, with a numeric 0 read as an absent claim. `iat` is not checked, as the library does by default.
- Clocks and randomness are parameters:
  - `now` for tokens, logger dates and the retention cutoff;
  - the bind-key timestamp;
  - the fresh uuid session id;
  - the number of polls of the bus wait, given by the length of `arrivals`.
- Logging.RetentionCutoff: the cutoff is computed as now minus 7 × 86400 seconds. The local-time-zone and daylight-saving arithmetic of `AddDate` is not modelled.
- slog is not modelled. The handlers' JSON and text rendering, `fmt.Sprintf` of a formatted message (kept as format plus arguments), and the console-only error messages that rotation and cleanup print are left out.
- File-system calls are boolean or listing parameters: `MkdirAll`, `OpenFile`, `Stat`, `Rename`, `Remove` and `ReadDir`. `NewLogger`'s failure paths and `Close` are not modelled.
- The rotation ticker goroutine, `startRotationChecker` and the `DefaultLogger` global are not modelled.
- The `colorWriter` mutex is not modelled. The byte count `colorWriter.Write` returns is not modelled either.
- Go's map iteration order is not modelled. `Logging.BuildAttrs` admits any order of the map's entries.
- The gRPC server is not modelled: `Start`, `Stop`, `registerService`, `Serve` and `GracefulStop`. The WebSocket upgrade handshake is not modelled; its outcome is the `upgraded` parameter.
- `SendMsg` and `WriteMessage` errors are not modelled. The code ignores them, so only the attempts are logged.
- The log lines and HTTP error texts of the gateway are not modelled. The `Response` value carries the reason instead.
- HTTP headers and query values are single-valued maps with canonical names. Multi-valued headers and name canonicalisation are not modelled.
- Gateway.GatewayServer.HandleWebSocket: starting the read-loop goroutine is not part of this method. The loop is `Gateway.GatewayServer.ClientReadLoop`, run as its own sequence of steps.
- `Application.init`, signal handling, `ListenAndServe`, `main` and ServeMux path cleaning and redirects are not modelled.
- YAML encoding and decoding and `os.ReadFile` are abstract outcomes. `Config.ToString` and `Config.FromString` are YAML wrappers and are not modelled.

## Findings

| source | as written | input that shows it | evidently intended | confidence | as-written member | corrected member |
|---|---|---|---|---|---|---|
| im-server/auth/token.go:66-72 | with `ignoreExpiry` true, every parse error is tolerated as long as the library returned a token object, including a wrong signature, a non-HS256 method and an unsigned token | an HS256 token carrying `device_id` and `user_id`, signed with any key other than the server secret, verified with `ignoreExpiry` true, returns `(true, device_id, user_id, nil)` | only the expiry check is skipped; the HS256 method and the signature are still enforced | not executed; high | Token.ForgedTokenWithIgnoredExpiry | Token.VerifyTokenIntended |
