# HA Dashboard: a verified model

A Dafny 4.11 model of the Home Assistant dashboard service: the websocket fetch, the parsing of what it
brings, the host address functions, the credential store under concurrent saves, the routes that join
them, and the registry refresh loop. `dafny verify dfyconfig.toml` checks all of it.

| file | what it holds |
|---|---|
| `Json.dfy`, `Sequences.dfy`, `Text.dfy` | JSON values with Python's truthiness and equality; filter and map; `strip`, `in`, `lower` |
| `Summary.dfy`, `Parsers.dfy`, `Entries.dfy` | the summary types; the three parsing loops against filter-then-map specifications; the same in the wire's own terms |
| `Urls.dfy`, `Validation.dfy`, `Hosts.dfy` | URL splitting and recomposition (RFC 3986 sections 3 and 5.3), the address functions, the form, which hosts it accepts and what addresses they get |
| `Transport.dfy`, `Client.dfy`, `ClientTheorems.dfy` | the adversarial peer, the fetch step by step, and its guarantees |
| `Cipher.dfy`, `Store.dfy`, `SessionCache.dfy` | the ideal cipher; the table, the upsert and a session updated in place; the session cache |
| `Tiles.dfy` | tiles, the tile route's choice of state, and its agreement with Test Connection |
| `System.dfy`, `SystemTheorems.dfy`, `ServiceTheorems.dfy`, `RouteTheorems.dfy` | the service as a transition system, its invariant, its guarantees, and every answer of its routes |
| `Registry.dfy` | the refresh loop and its shutdown |

## What is assumed

- **Peers.** A peer is a table giving the end of every await: a value, an ordinary exception, or a
  cancellation by the fetch's own deadline or by someone cancelling the request. The transport itself
  raises neither of the two `HAAuthError`/`HAConnectionError` exceptions and swallows no cancellation.
  Because the client is deterministic, all such tables cover every peer, however it reacts.
- **`asyncio.wait_for`** behaves as in Python 3.12 (the version the project requires): it reports a
  timeout only if its own deadline is the only canceller.
- **The URL splitter's authority checks** (brackets, NFKC) are an arbitrary function from a non-empty
  authority to an optional error message. Every address theorem holds for every such function and every
  string; there is no alphabet restriction.
- **The cipher** is ideal: the key that sealed a text opens it, every other key is refused.
- **The database** is read-committed. An open transaction holds a lock on each user whose row it has
  written, until commit or rollback; a second upsert for that user, and the cascade from deleting that
  user, wait for it. New row ids are never reused. Unique and foreign keys are checked, not built in. A
  commit succeeds, or fails without effect, or takes effect although the request sees an exception or is
  cancelled.
- **Steps.** Requests interleave between their database awaits. A fetch is one step: it shares nothing with
  other requests, so its own awaits are not interleaved with theirs.
- Clocks, nonces, new ids, the user id and the scheduler are inputs of each step.

## Where the code and its documentation differ

- The client promises that only a summary or one of two errors crosses its boundary. Cancelling the
  request itself lets `CancelledError` through as well; `ClientTheorems.AbortedExactly` says exactly when,
  and `ClientTheorems.PromiseHolds` proves the promise for every run nobody cancels from outside.
- The "Host and token are required." message is documented as meaning a blank field. It is also shown
  when the URL splitter refuses the host in words that contain "must not be blank", which it does for a
  bracketed authority spelling that phrase. `Validation.RequiredCopyExactly` gives the exact condition and
  `Validation.RequiredCopyExample` the host.
- Tile building sits outside the tile route's error handling. It raises exactly when the fetch succeeds
  although the host cannot be split (`Tiles.TestAndTilesAgreeExactly`): never for a validated host, never
  with the production transport.

## Model

| member | source | states |
|---|---|---|
| Parsers.ParsePendingUpdates | app/services/ha_client/client.py:122-135 | the loop returns, in order, exactly the object entries with an `update.` id and state `on`, and fails exactly on a non-list, a non-string id, or truthy non-object attributes of a matching entry |
| Parsers.ParseRepairIssues | app/services/ha_client/client.py:138-155 | the loop returns, in order, exactly the object issues not marked ignored, and fails exactly when there is no issues list |
| Parsers.ParseIntegrationErrors | app/services/ha_client/client.py:158-175 | the loop returns, in order, exactly the object entries in one of the four error states, and fails exactly on a non-list or an object entry whose state cannot be hashed |
| Parsers.ParsersAreHomomorphisms | app/services/ha_client/client.py:122-175 | each parse of a concatenation is the concatenation of the parses and fails exactly when a half fails |
| Parsers.IrrelevantEntriesChangeNothing | app/services/ha_client/client.py:122-175 | entries a loop neither keeps nor chokes on can be inserted anywhere without changing the result |
| Entries.PendingUpdatesExactly | app/services/ha_client/client.py:122-135 | in the wire's own fields: the updates are, in order, exactly the objects whose `entity_id` starts with `update.` and whose `state` is `on`, each under its id and its true friendly name or else its id; the list fails exactly on a non-list, an id that is no text, or true attributes of such an object that are no object |
| Entries.RepairIssuesExactly | app/services/ha_client/client.py:138-155 | likewise the issues not truly `ignored`, each under its `issue_id` and its true translation key or else "Unknown issue"; only a missing list fails |
| Entries.IntegrationErrorsExactly | app/services/ha_client/client.py:158-175 | likewise the entries in one of the four error states, each under its true title, else its true domain, else "Unknown integration"; only a non-list or a state that is a list or an object fails |
| Entries.NamesAreNeverEmpty | app/schemas/ha_summary.py:11-37 | no parsed item has a false display name |
| Tiles.TileOfEntries | app/pages/ha_dashboard_tiles.py:78-91 | a tile built from the items describing some entries shows those entries: it counts them, shows the names of the first five in order and the number of the rest |
| Urls.SplitOfUnsplit | app/services/ha_client/transport.py:71-73 | splitting a recomposed URL gives its components back, or the splitter's refusal of the authority |
| Urls.NetlocIsClean | app/services/ha_client/transport.py:49-62 | a split authority has no delimiter, nothing the splitter deletes, and was not refused |
| Urls.WebsocketAndLinksShareTheAuthority | app/services/ha_client/transport.py:49-73 | for any host with an authority, the websocket URL and any deep link split back to that authority, the fixed path, no query or fragment, and downgrade to plain text together |
| Urls.BaseIsIdempotentExactly | app/pages/ha_dashboard_tiles.py:49-59 | taking the base of a base URL gives it back exactly when the authority does not end in whitespace |
| Text.StripMeaning | app/schemas/ha_credential.py:43-47 | stripping takes whitespace and nothing else off both ends until none is left there, and leaves exactly the stripped strings alone |
| Validation.AcceptsExactlyConnectable | app/schemas/ha_credential.py:41-65 | a stripped host is accepted exactly when it has no `://` and starts with an authority, or starts in any letter case with an allowed scheme, `://` and an authority, and the splitter does not refuse that authority |
| Hosts.AcceptsExactly | app/schemas/ha_credential.py:41-65 | the same letter by letter: a host is accepted exactly when it reaches an authority, by itself or after `http`, `ws`, `https` or `wss` in any letter case and `://`, once leading control characters, tabs and line ends are taken away |
| Hosts.FormValidExactly | app/schemas/ha_credential.py:41-65 | a form is valid exactly when its stripped host reaches an authority and its stripped token is not empty |
| Hosts.AddressesExactly | app/services/ha_client/transport.py:49-73 | the websocket address of any host that reaches authority a is `ws://a/api/websocket` after `http` or `ws` and `wss://a/api/websocket` otherwise, and its base is `http://a` or `https://a` |
| Validation.AcceptedFormsAreFixedPoints | app/schemas/ha_credential.py:32-73 | an accepted form is the stripped submission, and validating it again changes nothing |
| Validation.AcceptedHostAddressesAgree | app/pages/ha_dashboard_tiles.py:49-59 | the websocket URL and every deep link of an accepted host lead to that host's own authority |
| Validation.RequiredCopyExactly | app/pages/settings_fragments.py:39-46 | the "required" message is shown exactly when a field is blank or the splitter's refusal contains the same phrase |
| Validation.RequiredCopyForFilledForm | app/pages/settings_fragments.py:39-46 | any refusal quoting the phrase is reported as a missing field although both fields are filled in |
| Validation.RequiredCopyExample | app/pages/settings_fragments.py:39-46 | one such host |
| Transport.FakeHATransport.Recv | app/services/ha_client/fake.py:82-83 | receives are the script in order, and an exhausted script raises from then on |
| Transport.SocketPeerExactly | app/services/ha_client/transport.py:83-106 | a frame that is a JSON object comes out unchanged, any other frame raises, and connecting, sending, closing and cancellations show through |
| Transport.WebSocketsHATransport.AExit | app/services/ha_client/transport.py:87-94 | exiting closes the connection if there is one and otherwise does nothing |
| Transport.WebSocketsHATransport.Send | app/services/ha_client/transport.py:96-98 | sending before connecting raises and touches no socket |
| Transport.WebSocketsHATransport.Recv | app/services/ha_client/transport.py:100-106 | once connected, a value comes out exactly when the frame is a JSON object, and it is that object; a cancellation comes out exactly when the socket's receive was cancelled; all else raises |
| Client.Authenticate | app/services/ha_client/client.py:77-89 | the first three steps of the conversation, their trace, and the exception of the first that goes wrong |
| Client.RunCommand | app/services/ha_client/client.py:91-103 | the two steps of a numbered command, their trace, its payload, and the exception of the first that goes wrong |
| Client.Converse | app/services/ha_client/client.py:58-61 | the whole conversation is determined by the first of its nine awaits that goes wrong |
| Client.ParsePayloads | app/services/ha_client/client.py:63-68 | all three parses or none |
| Client.FetchOver | app/services/ha_client/client.py:48-75 | the exchange, the disconnect and the parse, with every ordinary exception turned into a connection error |
| Client.FetchDashboardSummary | app/services/ha_client/client.py:37-46 | the outcome and the full trace of a fetch under its deadline, for every factory and peer |
| ClientTheorems.AuthFailedExactly | app/services/ha_client/client.py:77-89 | the auth error comes out exactly when the greeting was `auth_required`, the auth message was sent, the reply was `auth_invalid`, and entering and closing completed |
| ClientTheorems.FetchedExactly | app/services/ha_client/client.py:48-75 | a summary comes out exactly when every receive and send goes as it must, the connection closes and all three payloads parse; it holds those three parses whole |
| ClientTheorems.AbortedExactly | app/services/ha_client/client.py:43-46 | a cancellation escapes exactly when the request was cancelled from outside at a reached await and closing did not raise over it |
| ClientTheorems.PromiseHolds | app/services/ha_client/client.py:37-46 | without outside cancellation, a summary or one of the two errors comes out for every peer and wherever the deadline strikes |
| ClientTheorems.EveryPrefixIsDisciplined | app/services/ha_client/client.py:77-103 | at every point of every run the messages are a prefix of auth, `get_states`, `repairs/list_issues`, `config_entries/get` with ids 1, 2, 3, and receives are level with sends or one ahead |
| ClientTheorems.TokenOnlyAfterGreeting | app/services/ha_client/client.py:77-82 | the token is handed over only in the first message, after an `auth_required` greeting |
| ClientTheorems.ExitedExactlyOnce | app/services/ha_client/client.py:56-61 | the transport is exited exactly once if its enter completed and never otherwise |
| ClientTheorems.NoParsingWhileOpen | app/services/ha_client/client.py:56-68 | no parser runs while the transport is open |
| ClientTheorems.FetchFollowsTheScript | app/services/ha_client/client.py:58-61 | every fetch that connects says and hears, in order, the literal conversation of nine messages up to the first that goes wrong, then exits, and parses only if all went well |
| ClientTheorems.SummaryIsTheAnswers | app/services/ha_client/client.py:58-68 | the three lists of a summary are the parses of the replies heard right after `get_states`, `repairs/list_issues` and `config_entries/get` were sent with ids 1, 2 and 3 |
| ClientTheorems.OtherIdFails | app/services/ha_client/client.py:93-97 | a reply with any other number for its id ends in a connection error |
| ClientTheorems.DefaultScriptSucceeds | app/services/ha_client/fake.py:18-49 | the canned script is one successful fetch with one item of each kind |
| Store.DbSession.GetHaCredential | app/models/ha_credential.py:49-57 | a read sees the session's own writes over the committed table, and keeps the values of an unexpired loaded instance |
| Store.DbSession.UpsertHaCredential | app/models/ha_credential.py:60-101 | one statement updates the user's row in place under its old id or inserts one under the new id, then expires every loaded instance |
| Store.DbSession.Commit | app/pages/settings_fragments.py:167-169 | committing publishes the written rows, or fails on uniqueness and publishes nothing |
| Store.DbSession.Rollback | app/db/session.py:23-30 | closing without a commit discards the written rows, and every read shows the committed row again |
| Store.UpsertRowExactly | app/models/ha_credential.py:70-90 | the statement updates the row the user has, whatever new id was offered, and otherwise inserts one unless the id is taken or the user gone |
| SessionCache.ReadsOwnWrite | app/models/ha_credential.py:95-101 | after its own upsert, and until the transaction ends, a session reads exactly the written row |
| SessionCache.EverySessionReadsItsOwnWrite | app/models/ha_credential.py:95-101 | the same value by value, from a new session after any history of gets, upserts, commits, rollbacks, evictions and other sessions' commits |
| SessionCache.RollbackForgetsEverything | app/db/session.py:23-30 | after a rollback a read shows the committed row |
| SessionCache.LoadedRowsStayAsLoaded | app/models/ha_credential.py:95-101 | without expiry a loaded row is shown as loaded whatever others commit to it |
| SessionCache.CommitPublishesWhatIsSeen | app/db/session.py:28 | a commit goes through exactly if the session sees one row per user, publishes what it sees and keeps loaded instances as they are |
| Tiles.TestAndTilesAgreeExactly | app/pages/ha_dashboard_tiles.py:114-145 | a row sealed with the current key shows what testing its host and token shows, except exactly when the fetch succeeds although the host cannot be split |
| Tiles.TestAndTilesAgree | app/pages/settings_fragments.py:64-77 | on every host validation accepts they always agree |
| Tiles.ProductionAgreesOnEveryHost | app/services/ha_client/transport.py:79-81 | with the production transport they agree on every host |
| Tiles.ProductionDialsTheHost | app/services/ha_client/transport.py:76-85 | the production transport dials the literal websocket address of the authority a host reaches |
| Tiles.ProductionFetchSucceeds | app/services/ha_client/transport.py:76-106 | if what answers there sends the canned script as frames, the production fetch brings the canned summary |
| Tiles.PageExactly | app/pages/ha_dashboard_tiles.py:114-145 | with a key configured and a validated host the page never raises and is in exactly the state due: re-login, not configured, or by decryption and fetch outcome the tiles, auth failure, generic failure or cancelled |
| Tiles.WireToScreen | app/pages/ha_dashboard_tiles.py:78-102 | each tile counts the raw entries wanted, shows the names of the first min(count, 5) of them in order, and accounts for the rest |
| Tiles.TileLinks | app/pages/ha_dashboard_tiles.py:94-102 | each tile links to the authority the accepted host reaches and that tile's literal path, and the link splits back to just that |
| Tiles.PageShowsFetchedTiles | app/pages/ha_dashboard_tiles.py:128-145 | a page with tiles shows what the peer at the row's host sent when asked with the row's decrypted token, and links to that host if validation accepts it |
| SystemTheorems.CommitIsSerial | app/models/ha_credential.py:70-94 | an open write can always be committed, and leaves the table one save alone would |
| SystemTheorems.StepKeepsInv | app/pages/settings_fragments.py:80-176 | every step of every request and of the environment keeps the service invariant |
| SystemTheorems.EveryRunKeepsInv | app/pages/settings_fragments.py:80-176 | so does every run |
| ServiceTheorems.CommittedTableIsSerial | app/models/ha_credential.py:60-94 | in every reachable state the committed table is what the committed saves leave when run one at a time in commit order, with one row per user |
| ServiceTheorems.NoUniquenessErrors | app/models/ha_credential.py:70-73 | no step fails on uniqueness; an upsert fails exactly for a deleted user |
| ServiceTheorems.HistoryRecordsCommits | app/pages/settings_fragments.py:159-169 | the history gains a save exactly when a commit takes effect, and it is the committing request's own submission, write and key |
| ServiceTheorems.FetchesAreTheirRequests | app/pages/settings_fragments.py:146 | a fetch is logged only by the request that made it, with its own stripped pair, when it succeeded |
| ServiceTheorems.UpsertSealsWithTheConfiguredKey | app/pages/settings_fragments.py:159-166 | an upsert writes the stripped host and the stripped token sealed with the key configured then, and fails exactly without a key or for a deleted user |
| ServiceTheorems.RowsAreTheLastSaves | app/pages/settings_fragments.py:139-169 | a user has a row exactly when a committed save of theirs stands; it holds the stripped host and the stripped token of the last one, sealed with that save's key, the host is valid, and the saving request itself had fetched with that pair before |
| ServiceTheorems.NothingElseTouchesARow | app/pages/settings_fragments.py:94-176 | only a commit of a user's own save that takes effect, or deleting the user, changes that user's row |
| ServiceTheorems.RowIdsAreStable | app/models/ha_credential.py:25-28 | a user's row keeps its id through every run that does not delete the user |
| ServiceTheorems.TilesNeverRaise | app/pages/ha_dashboard_tiles.py:114-145 | from every reachable state with a key configured, across key changes, showing tiles ends in a documented state or a cancelled request, and the reply is that state |
| ServiceTheorems.ReadsShowTheCommittedRow | app/pages/settings_fragments.py:49-58 | every settings reply shows the user's own committed row as it is when read |
| ServiceTheorems.SuccessMeansCommitted | app/pages/settings_fragments.py:166-176 | a save reports success only after that very request's submission was committed for its own user |
| ServiceTheorems.LoadsTheUsersOwnRow | app/pages/ha_dashboard_tiles.py:124-126 | the dashboard loads the requesting user's own committed row, or says there is none |
| ServiceTheorems.DashboardShowsTheLastSave | app/pages/ha_dashboard_tiles.py:114-145 | whatever others do after a dashboard request has loaded its row, its reply is what testing the user's last saved pair says while that save's key is configured, with the tiles of what that peer sent, linked to that host; a generic failure under another key; a server error without one |
| ServiceTheorems.UndisturbedSaveSucceeds | app/pages/settings_fragments.py:139-176 | from every reachable state, if the form is valid, the fetch succeeds, a key is configured and the user exists and is not locked, some run ends with the stripped host and sealed stripped token stored as the user's row and shown as saved |
| RouteTheorems.ArrivalExactly | app/pages/settings_fragments.py:86-130 | a request without a user is answered with the re-login fragment at once and changes nothing; any other starts as its user's |
| RouteTheorems.OnlyOwnSavesChangeARow | app/pages/settings_fragments.py:119-169 | in any run a user's row changes only when the user is deleted or when a save takes effect that this very user submitted, logged in |
| RouteTheorems.EveryRowWasSubmitted | app/pages/settings_fragments.py:119-169 | in any run every stored row holds a pair its own user submitted, logged in |
| RouteTheorems.BeginExactly | app/pages/settings_fragments.py:102-143 | a test or save goes on with the stripped pair exactly if neither field is blank and the host reaches an authority, and otherwise answers with the right one of the two messages |
| RouteTheorems.FetchExactly | app/pages/settings_fragments.py:64-157 | a test answers success, auth failure or generic failure as the fetch with its stripped pair ended; a save goes on exactly if it succeeded and otherwise answers likewise |
| RouteTheorems.CommitExactly | app/pages/settings_fragments.py:167-176 | an acknowledged commit goes on to read the row back, and every other end of it ends the request |
| RouteTheorems.EveryAnswerIsTrue | app/pages/settings_fragments.py:80-176 | in any run every answer of the settings routes is true of what happened: refusals are of unacceptable forms, outcomes are those of a fetch this very request made, and writes follow a successful one |
| RouteTheorems.NobodyIsStuck | app/models/ha_credential.py:60-94 | every open request has a next step, or is a save waiting for another open write of its user's row, which can be committed |
| RouteTheorems.EnvironmentIsFree | app/pages/settings_fragments.py:80-176 | arrivals, fetch and commit outcomes, clocks and key changes are restricted by nothing but row locks |
| RouteTheorems.DeletionExactly | migrations/versions/0003_create_ha_credential.py:40-43 | deleting a user waits for open writes of theirs, removes their row and nobody else's |
| Registry.RefreshTask.RefreshLoop | app/core/registry.py:49-76 | wherever it is cancelled, the loop leaves the list of the last good fetch it got through |
| Registry.RefreshTask.RunUntilStopped | app/core/registry.py:87-99 | stopping leaves the task done and the client closed, unless the loop had already failed; then stopping raises and the client stays open |
| Registry.HoldsTheLastGoodList | app/core/registry.py:61-71 | after any number of attempts the source holds the last successful list, or its own entry alone |
| Registry.SurvivesEveryFetchFailure | app/core/registry.py:63-67 | unless updating the source raises, the loop gets through every attempt, however many fetches fail |

## Left out

- Message texts of the two client errors, logging, and HTML rendering: no route branches on them.
- `app/models/host_user.py`: its flush guard is one membership test over a session's pending sets; nothing modelled here writes host users.
- JWT verification: each request starts with the user id it yields, or none.
- `app/services/ha_client/factory.py`: the choice between the production and the fake factory; every theorem about a fetch holds for any factory.
- Exceptions from `websockets`, SQLAlchemy and httpx are not told apart: each is one ordinary exception.
- A transport that swallows a cancellation and carries on, and a peer cancelled twice at one await.
- Store.DbSession.UpsertHaCredential: does not wait; the lock that makes a second upsert for the user wait is a rule of the transition system in `System.dfy`.
- Store.DbSession.GetHaCredential: loaded instances are values, so two readers of one instance sharing it is not modelled.
- `last_tested_at` is read before the lock is taken, so it is not claimed to grow with commit order.
- The registry's token provider, fetch and refresh interval: a fetch is one attempt that brings a list or raises.
- Navigation context, settings loading, migrations beyond the unique and cascading foreign keys, and all build scripts.
