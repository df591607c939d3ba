# Watcher pipeline of modulate, modelled in Dafny

modulate moves tracks for Spotify users. A *watcher* links a source (the user's Liked Tracks collection or a playlist) to a target playlist. On each sync the watcher copies the source tracks the target lacks, then empties the source.

This project models and proves the core of that pipeline:

- **Endpoint values and playlist ids** (`playlist_id.dfy`, `playlist_type.dfy`):
  - the unanchored pattern search of `PlaylistId::from_str`, written out as a leftmost-match search and proved equal to a declarative definition of what the pattern captures;
  - `PlaylistType::to_value` / `try_from_value` and their round trip.
- **The stored watcher** (`watcher_model.dfy`):
  - the sync interval codec and its durations;
  - the default interval `Hour`;
  - the row decoder `Watcher::try_from`, which is lenient for the sync times and strict for the creation time.
- **The `watchers` table** (`watcher_repo.dfy`):
  - a class holding the table's rows as SQL values in `COLUMNS` order;
  - every repository query as a function, and every statement as a method;
  - an integrity invariant: unique ids and a unique (user, source, target) key.
- **Watcher creation, deletion and manual sync** (`watcher_router.dfy`):
  - the guard chain of `create_watcher`;
  - the proof that each creation, taken on its own, keeps the invariant "a source with a removal-enabled watcher has no other watcher", across users (handlers are modelled one at a time; see "## Left out");
  - the consequence that one user's removal-enabled Liked Tracks watcher refuses every other user's Liked Tracks watcher, since `_liked` is the same stored value for all users.
- **The transfer** (`transfer.dfy`, `sync_util.dfy`):
  - the remote account (`remote.dfy`) is a value: the saved tracks, the playlists, and the calls the service refuses;
  - each remote call is specified by a function of that value;
  - `PlaylistTransfer::transfer` and `sync_user_playlist` are methods that make the calls one by one on a logged service object;
  - both are proved equal to the functional specification `Run`;
  - the algorithm's properties are proved about `Run`: what is inserted, that the source is emptied, the exact call sequences, and that a second run does nothing.
- **Small decisions**:
  - editability probing (`api_util.dfy`);
  - the two refresh-if-expired token helpers (`tokens.dfy`, `api_client.dfy`, `util_client.dfy`);
  - the mapping from web errors to HTTP responses (`response.dfy`);
  - JWT claims and their checks (`jwt.dfy`);
  - the environment key rewrite and the log level conversion (`config.dfy`).

Foreign code is turned into parameters:

- rspotify's network calls become operations on the account value;
- the token endpoint's and the token cache's answers are parameters;
- chrono's RFC 3339 printing and parsing are the function parameters `formatTime` / `parseTime` over integer seconds;
- the clock is a `now` parameter;
- rspotify's `PlaylistId::from_id_or_uri`, the API layer's user-id parser and the scheduler's `sync_watcher` are function parameters;
- HMAC signing is an ideal MAC: a token records the secret that signed it.

Points where the code's behaviour is easy to misread:

- `transfer` computes `ids_to_insert` from the difference of two `HashSet`s (src/sync/transfer.rs:47-50, 77-80, built at 106-114 and 120-134), so the tracks are sent in the sets' iteration order. The model carries that order as the ghost out-parameter `inserted`, which may be any enumeration of the difference.
- Expiry is rspotify's `Token::is_expired` (src/api/client.rs:55, src/util/client.rs:54-61), modelled as the token's `expired` field.
- After inserting, `transfer` always removes the source's tracks from the source (src/sync/transfer.rs:59-63, 89-95).
- The id parser keeps the bare id. The crate's own test at `src/api/id.rs:36-55` expects the full URI; see `PlaylistIds.ParsesTestUri`.

## Model

| member | source | states |
|---|---|---|
| PlaylistIds.Uri | src/api/id.rs:20-22 | the URI is exactly `spotify:playlist:` followed by the id |
| PlaylistIds.AlnumRun | src/api/id.rs:12 | the greedy `[a-zA-Z0-9]+` run: every character in it is alphanumeric, and the character after it is not |
| PlaylistIds.MatchAtSpec | src/api/id.rs:12-14 | the search matches at a position with capture `c` exactly when the pattern's reference definition says it captures `c` there |
| PlaylistIds.FirstCaptureSome | src/api/id.rs:12-13 | when the left-to-right search succeeds, its capture is the one at some position and no earlier position captures |
| PlaylistIds.FirstCaptureNone | src/api/id.rs:12-13 | the search finds nothing exactly when no position captures |
| PlaylistIds.ParseIsLeftmostMatch | src/api/id.rs:11-16 | a parse returns the capture of the leftmost match; it fails exactly when nothing matches, with `InvalidSpotifyId` carrying the whole input |
| PlaylistIds.ParsePrefixed | src/api/id.rs:12-14 | an id after the `https://`, `http://` or `spotify:playlist:` prefix is recovered, whatever non-alphanumeric text follows it |
| PlaylistIds.ParseUri | src/api/id.rs:11-22 | round trip: the URI of a well-formed id parses back to that id |
| PlaylistIds.ParseYieldsValidId | src/api/id.rs:12-14 | a parsed id is a non-empty alphanumeric run, and its URI parses back to it |
| PlaylistIds.ParsesTestUri | src/api/id.rs:36-41 | the test's URI parses to the bare id, not the full URI the test expects |
| PlaylistIds.ParsesTestUrlWithQuery | src/api/id.rs:49-55 | a URL with a query string parses to the bare id |
| PlaylistIds.ParseNeedsColon | src/api/id.rs:12-15 | text without a colon never parses, and fails with `InvalidSpotifyId` carrying the text |
| PlaylistIds.RejectsTestBadId | src/api/id.rs:29-32 | `"some bad id"` is rejected |
| Playlists.ToValueForms | src/model/playlist.rs:26-31 | only Liked Tracks is stored as `_liked`; an id is stored as its URI |
| Playlists.TryFromToValue | src/model/playlist.rs:26-39 | round trip: a well-formed endpoint decodes back from its stored value |
| Playlists.TryFromValueOther | src/model/playlist.rs:34-39 | any value other than `_liked` decodes as the id parser decides, and a parse failure is an error carrying the value |
| Playlists.TryFromValueCanonical | src/model/playlist.rs:34-39 | whatever decodes is well formed, and its stored value decodes to the same endpoint |
| Playlists.DisplayIsNotValue | src/model/playlist.rs:14-21 | the display text is never the stored value, and the display text of an id does not decode |
| WatcherModel.IntervalRoundTrip | src/db/model/watcher.rs:50-71 | parsing the displayed name of an interval gives the interval back |
| WatcherModel.IntervalFromStrExact | src/db/model/watcher.rs:60-71 | only `hour`, `day` and `week` parse; any other text fails with `InvalidSyncInterval` carrying the input |
| WatcherModel.IntervalDurations | src/db/model/watcher.rs:73-81 | the durations are one hour, one day and one week, strictly increasing |
| WatcherModel.DecodeEncode | src/db/model/watcher.rs:26-38 | a storable watcher decodes back from the row that stores it |
| WatcherModel.DecodeReadsColumns | src/db/model/watcher.rs:26-38 | a decoded watcher is read from the nine cells in `COLUMNS` order; each field comes from its own cell, and cells past the ninth are ignored |
| WatcherModel.LenientSyncTimes | src/db/model/watcher.rs:34-35 | unparsable `last_sync_at` and `next_sync_at` text decodes to `None`, and the row still decodes |
| WatcherModel.NextSyncRewrite | src/db/model/watcher.rs:35 | rewriting the stored `next_sync_at` changes only that field of the decoded watcher |
| WatcherModel.StrictCreatedAt | src/db/model/watcher.rs:36 | an unparsable `created_at` fails the row |
| WatcherModel.InvalidIntervalFails | src/db/model/watcher.rs:33 | an unparsable interval fails the row with `InvalidSyncInterval` |
| WatcherModel.InvalidPlaylistFails | src/db/model/watcher.rs:30-31 | a source or target value that does not decode fails the row |
| WatcherRepo.Select | src/db/repo/watcher.rs:37 | a `WHERE` clause keeps exactly the rows that satisfy it, without creating duplicates |
| WatcherRepo.DecodeRows | src/db/repo/watcher.rs:26-27 | collecting the decoded rows gives one watcher per row, in order, or the error of the first row that does not decode |
| WatcherRepo.SelectDecoded | src/db/repo/watcher.rs:42-43 | a filtered read yields a watcher for exactly the kept rows, none exactly when no row is kept, and otherwise a kept row's error |
| WatcherRepo.FirstMatchSpec | src/db/repo/watcher.rs:78-85 | the lookup by id and user gives `None` exactly when no row matches; otherwise the decoded first match or its error |
| WatcherRepo.SelectKeepsInvariants | src/db/repo/watcher.rs:131 | a `DELETE` keeps unique ids and keys and keeps sources exclusive |
| WatcherRepo.UpdateKeepsInvariants | src/db/repo/watcher.rs:97 | rewriting `next_sync_at` keeps unique ids and keys and keeps sources exclusive |
| WatcherRepo.AppendKeepsInvariants | src/db/mod.rs:36 | appending a row with the next id and a fresh (user, source, target) key keeps the table's integrity |
| WatcherRepo.WatcherTable.GetAllWatchers | src/db/repo/watcher.rs:21-28 | every row decoded, in order; an error exactly when some row does not decode |
| WatcherRepo.WatcherTable.GetWatchersForPlaylist | src/db/repo/watcher.rs:31-44 | exactly the watchers whose stored source is `to_value(from)`, for every user |
| WatcherRepo.WatcherTable.GetWatchersByUser | src/db/repo/watcher.rs:47-60 | exactly the watchers of one user |
| WatcherRepo.WatcherTable.GetWatcherByIdAndUser | src/db/repo/watcher.rs:63-86 | the first row with that id and user, or `None` exactly when there is none |
| WatcherRepo.WatcherTable.UpdateWatcherNextSyncAt | src/db/repo/watcher.rs:89-101 | only `next_sync_at` of the rows with that id changes; the decoded watcher differs only in that field |
| WatcherRepo.WatcherTable.CreateWatcher | src/db/repo/watcher.rs:104-119 | a repeated (user, source, target) key is a constraint violation that changes nothing; otherwise one row is appended with the next id, no sync times and the creation time, and it decodes back to the new watcher |
| WatcherRepo.WatcherTable.DeleteWatcherByUserAndPlaylists | src/db/repo/watcher.rs:122-135 | exactly the rows with all three keys go |
| WatcherRepo.WatcherTable.DeleteAllWatchersByUser | src/db/repo/watcher.rs:138-146 | exactly that user's rows go; all others stay |
| WatcherRouter.ParseEndpoints | src/web/router/watcher.rs:52-59 | both endpoints decode and differ, or the first failure: the source's decode error, else the target's, else the same-playlist refusal |
| WatcherRouter.Removing | src/web/router/watcher.rs:64-67 | keeps exactly the watchers that remove tracks |
| WatcherRouter.ExistingVerdict | src/web/router/watcher.rs:63-79 | creation goes on exactly when no existing watcher of the source removes tracks and, for a removing watcher, none exists; otherwise the matching message |
| WatcherRouter.EditableVerdict | src/web/router/watcher.rs:81-94 | passes exactly when the source is editable, or not editable while nothing is removed; a 502 means the source does not exist; other errors propagate |
| WatcherRouter.InsertVerdict | src/web/router/watcher.rs:96-110 | a constraint violation becomes "Watcher already exists for these playlists."; other errors propagate |
| WatcherRouter.NoRemovingRow | src/web/router/watcher.rs:63-73 | when the guard passes, no row of the source, from any user, removes tracks |
| WatcherRouter.AdmittedKeepsExclusive | src/web/router/watcher.rs:63-79 | a row the guards admit keeps sources exclusive |
| WatcherRouter.LikedRefusedAcrossUsers | src/web/router/watcher.rs:63-79 | a removal-enabled Liked Tracks row of another user makes the existing-watcher guard refuse any Liked Tracks watcher with the removal-exists message |
| WatcherRouter.CheckSource | src/web/router/watcher.rs:81-94 | a playlist source is probed with the user's id, and a failing id parse or the probe's verdict is the refusal; Liked Tracks skips the probe; the account is unchanged |
| WatcherRouter.InsertAdmitted | src/web/router/watcher.rs:96-110 | the insert after the guards gives the duplicate message exactly when a row has the same (user, source, target) key and succeeds otherwise, appending the new row; it keeps the table's integrity and keeps sources exclusive |
| WatcherRouter.CreateWatcher | src/web/router/watcher.rs:45-113 | each guard's refusal is returned in order with the table unchanged: decode and same-playlist, the existing-watcher read and verdict, the user id and editability probe, then the duplicate key; when every guard passes and the key is new the result is `Ok` and exactly the new watcher's row is appended; sources stay exclusive |
| WatcherRouter.DeleteWatcher | src/web/router/watcher.rs:120-139 | `NotFoundError` when no watcher has that id and user; otherwise the fetched watcher's (user, source, target) rows go |
| WatcherRouter.SyncWatcher | src/web/router/watcher.rs:141-161 | `NotFoundError` when no watcher has that id and user; otherwise the sync of the fetched watcher |
| Transfer.SavedTrackIds | src/sync/transfer.rs:106-115 | the set of ids of the saved tracks that have one |
| Transfer.PlaylistTrackIds | src/sync/transfer.rs:117-135 | the set of ids of the entries that are tracks with an id; episodes and empty entries are dropped |
| Transfer.CollectIds | src/sync/transfer.rs:47-50 | collecting a set lists each element exactly once |
| Transfer.UnsupportedMakesNoCalls | src/sync/transfer.rs:102 | a transfer to Liked Tracks fails with "unsupported transfer type" before any call |
| Transfer.EmptySourceStops | src/sync/transfer.rs:36-72 | an empty source gives `false` after the source read alone |
| Transfer.TransferCalls | src/sync/transfer.rs:44-100 | an accepted transfer inserts exactly source minus target (skipped when empty), removes the whole source set, and answers `true`; it states the exact calls |
| Transfer.TransferState | src/sync/transfer.rs:52-98 | the account after an accepted transfer is the insert followed by the removal |
| Transfer.TransferEmptiesSource | src/sync/transfer.rs:59-98 | afterwards the source holds none of its tracks, including those the target already had |
| Transfer.TransferFillsTarget | src/sync/transfer.rs:47-57 | between different endpoints, the target gains the missing tracks and ends with the union of both sets |
| Transfer.TransferLeavesOthers | src/sync/transfer.rs:28-104 | no playlist other than the two endpoints changes |
| Transfer.SecondRunIsNoOp | src/sync/transfer.rs:36-72 | a second run after an accepted one stops after reading the empty source |
| Transfer.SelfTransferEmpties | src/sync/transfer.rs:66-100 | a transfer from a playlist to itself inserts nothing and removes all its tracks |
| Transfer.PlaylistTransfer.GetSavedTrackIds | src/sync/transfer.rs:106-115 | one read of the saved tracks, giving their id set |
| Transfer.PlaylistTransfer.GetPlaylistTrackIds | src/sync/transfer.rs:117-135 | one read of the playlist, giving its track id set |
| Transfer.PlaylistTransfer.Transfer | src/sync/transfer.rs:28-104 | answer, new account state and calls are those of `Run`, with the inserted ids an enumeration of the difference |
| Transfer.PlaylistTransfer.TransferSaved | src/sync/transfer.rs:34-65 | the Liked Tracks arm does what `Run` says |
| Transfer.PlaylistTransfer.TransferBetween | src/sync/transfer.rs:66-101 | the playlist-to-playlist arm does what `Run` says |
| SyncUtil.SyncUserPlaylist | src/sync/util.rs:11-70 | a refresh error or an unparsable id ends the sync before any remote call; otherwise the sync is the Liked-Tracks transfer of `Run`; the stored token of an existing user is replaced exactly when a refresh succeeded, and the users table is otherwise unchanged |
| SyncUtil.CopySavedInto | src/sync/util.rs:22-69 | the reads, the insertion of the saved tracks the playlist lacks and the deletion of all saved tracks have exactly the result, state and calls of `Run` from Liked Tracks to the playlist |
| Tokens.RefreshOutcome | src/api/client.rs:55-72 | a token that has not expired is kept; otherwise the refetched token, or the error of the refetch, the cache write or the store |
| Tokens.UserStore.UpsertUserToken | src/repo/user.rs:11-19 | the user's token is inserted or replaced, unless the store fails |
| Tokens.UserStore.UpdateToken | src/util/client.rs:79-82 | only an existing user row gets the token; no row is created |
| ApiClient.GetTokenEnsureRefreshed | src/api/client.rs:47-76 | returns the token in use and a client holding it; a refreshed token is upserted for the user; any failure leaves the store unchanged |
| UtilClient.GetTokenEnsureRefreshed | src/util/client.rs:47-87 | the same refresh, with the stored token changed by an UPDATE of an existing row only |
| ApiUtil.GetPlaylistsByIds | src/api/util.rs:11-25 | one summary per id, in input order, or the first error, with the exact calls made |
| ApiUtil.EditableDecision | src/api/util.rs:33-52 | owner means `true` with no rename; otherwise a successful rename means `true`, a 403 means `false`, and any other error propagates |
| ApiUtil.CheckPlaylistEditable | src/api/util.rs:28-53 | the probe's answer and calls; the account is unchanged because the rename keeps the name |
| ApiUtil.ProbeReflectsPermission | src/api/util.rs:28-53 | on an account that refuses nothing else, the probe answers whether the user owns or may edit the playlist |
| Response.HandleErrorResponse | src/web/response.rs:25-59 | 404, 401 and 422 for exactly the errors listed, the API's own status when valid, and `None` (the fallback) for all the rest, including CSRF |
| Response.IntoResponse | src/web/response.rs:10-21 | the body's status always equals the status sent, which is valid; the fallback is 500 with the error's text |
| Response.NotFoundExactly | src/web/response.rs:27-45 | 404 exactly for a missing resource, a query with no rows, or an API 404 |
| Response.UnauthorizedExactly | src/web/response.rs:46-57 | 401 exactly for the three auth errors or an API 401; an invalid CSRF token gets 500 |
| Response.DatabaseErrorsAreInternal | src/web/response.rs:28-37 | any database error other than "no rows" is a 500 with its text |
| Jwt.ExtractClaims | src/util/jwt.rs:31-34 | the claims come back exactly when the token was signed with that secret |
| Jwt.SignJwt | src/util/jwt.rs:15-28 | the claims have exactly the keys `sub`, `iat` and `exp`, with `sub` the user and `exp` ninety days after `iat` |
| Jwt.VerifyJwt | src/util/jwt.rs:37-55 | signature first, then a missing `exp`, then expiry (strictly before now), then a missing `sub`; success exactly when all pass, giving `sub` |
| Jwt.ExpiryBeforeSubject | src/util/jwt.rs:40-54 | an expired token without `sub` reports `JwtExpired` |
| Jwt.SignThenVerify | src/util/jwt.rs:8-55 | a signed token verifies to its user until ninety days after issue, then reports `JwtExpired`; another secret is refused |
| Config.ReplaceFirst | src/config.rs:52 | only the first occurrence is replaced; the length is kept |
| Config.EnvKeyShape | src/config.rs:52 | the key keeps its length, its first underscore becomes a dot, other characters are lowercased, later underscores stay, and a key without one is only lowercased |
| Config.ToLevelFilter | src/config.rs:69-79 | no level maps to `Off` |
| Config.ToLevelFilterFaithful | src/config.rs:69-79 | the conversion is injective and lets through exactly the levels the configured level enables |

## Left out

- The sync scheduler (src/sync/mod.rs, src/watcher/mod.rs) is left out. It is timer plumbing and calls code that is not part of this model. A manual sync takes the scheduler's `sync_watcher` as a parameter.
- rspotify and the Spotify web API are modelled as operations on the account value. Not modelled:
  - pagination, and all HTTP concerns;
  - token endpoint requests;
  - token cache files.
- A remote call fails only when the account value says so. Transport errors are entries of its `failures` map.
- Transfer.TransferCalls, TransferState, TransferEmptiesSource, TransferFillsTarget, SecondRunIsNoOp and SelfTransferEmpties are proved only for an account that refuses none of the transfer's calls (`Serves`). On other accounts only `Run` itself describes the transfer.
- The table definition has no `last_sync_at` column, although `COLUMNS` lists one. The model stores rows in the `COLUMNS` layout. src/db/mod.rs is cited only for the unique key.
- `create_watcher` calls `data.validate()`, which has no validation rules here. It is not modelled.
- A pool checkout failure (`PoolError`) and a statement preparation failure are not modelled. The table methods fail only as the model's rows dictate.
- src/db/model/watcher.rs imports `PlaylistType` from `src/db/model/playlist.rs`. That file is not part of this model; the `PlaylistType` of src/model/playlist.rs is used instead. A playlist cell that does not decode is reported as `InvalidId` with the stored value.
- WatcherRouter.CreateWatcher: the `?` on `try_from_value` produces a crate error. The web error type has no conversion from it, so the model wraps it as `AppError`.
- WatcherRouter.CreateWatcher: the API layer's user-id parser is a parameter.
- Sync and token errors: the crate's error type in this snapshot lacks conversions from the rspotify error types. The model wraps remote errors as `Error.Client`, and the `.await?` conversions are not modelled beyond that.
- SyncUtil.SyncUserPlaylist: rspotify's `PlaylistId::from_id_or_uri` is a parameter.
- Jwt: the JWT's compact text form is not modelled, and neither is HMAC-SHA256 itself. A token records the secret it was signed with.
- Jwt: `Hmac::new_from_slice` accepts keys of any length, so its error path is not modelled. Signing is total.
- Jwt.SignJwt: the jwt crate's JSON encoding of the claims, and its failure, are not modelled. Signing always succeeds.
- ApiClient.GetTokenEnsureRefreshed: serde's failure to serialise a token to JSON is not modelled. The serialisation is the function parameter `json`.
- Config.ToLower: Rust's `to_lowercase` is Unicode-aware. The model lowercases ASCII letters only, since environment variable names are ASCII.
- Config: reading the environment and figment's extraction into `Config` are not modelled.
- Response: the validator crate's JSON renderings of field errors are carried as text. `StatusCode::from_u16` is modelled as accepting 100 to 999.
- Remote.Spotify: calls are atomic and sequential. Concurrent sessions are not modelled.
- WatcherRouter.CreateWatcher: handlers are modelled one at a time; the read at src/web/router/watcher.rs:63 and the insert at :96 are not atomic, so concurrent requests can break SourceExclusive. The invariant is proved only for creations that do not interleave.
- Errors: `DateParseError` and `ChronoParseError` carry the text that failed to parse, not chrono's `ParseError`; their display text is therefore that input, where the program shows chrono's message.
- Errors: src/error.rs declares only `ConfigError`, `ClientError`, `SyncError`, `DbError` and `WebError`. The model's `InvalidSpotifyId`, `InvalidJwt`, `JwtExpired`, `JwtSignatureError`, `ChronoParseError` and `Anyhow` variants, and their display texts, are its own; the `jwt::Error` of src/util/jwt.rs:33 has no conversion in the source.
- The older src/model/watcher.rs calls a `PlaylistType::from_value` that does not exist, so it is not modelled.
- Tokens.UserStore.UpsertUserToken: `INSERT OR REPLACE INTO users (user_id, token)` gives no `created_at`, which the `users` table of src/util/db.rs:14-19 declares `NOT NULL` without a default, so against that schema every upsert would fail. The model assumes a schema where the upsert succeeds; a failure is only the store's `fault`.
