# Bon-de-Livraison delivery core, modelled in Dafny

Bon-de-Livraison is an Android app for a delivery operator. An agent records
who received an item and captures a proof photo, and the app posts the
delivery to a server. A delivery that cannot be sent waits in a local
pending table. It is retried later, either one row at a time or in one bulk
request for the whole queue. The delivery history is fetched page by page and
cached locally with a paging cursor. Errors are shown to the user as French
messages.

This project models the sequential core of that app:

- **Offline submission queue.**
  - `Repository.DeliveryRepository` covers submit, retry-one and sync-all.
  - It works over the pending table of `Dao.DeliveryDao`.
  - The transport outcome and the proof-file store (`Repository.FileStore`) are inputs.
- **History paging.**
  - `Mediator.HistoryRemoteMediator.Load` covers page selection, the capped limit, item mapping, `rowOrder`, end detection and the transactional rewrite of the cache and cursor tables.
  - `PagingSource.Load` and `PagingSource.GetRefreshKey` cover the same key rules for the network-only list.
  - `RemoteKeysStore.RemoteKeysDao` is the cursor table.
- **String classifiers.**
  - `NetworkUtils.MapNetworkErrorToFrench` maps a transport error to a French message.
  - `ProofReference` turns a receiver-proof reference into the URL given to the image loader.
  - `PendingScreen.MapStatusToFrench` gives the status label; `PendingScreen` also has the bulk button's enable rule.
- **Snackbar de-duplication.** `Snackbar.SnackbarHelper.ShowIfUnique`.

How the model is built:

- Kotlin `Int` is `Common.Int32`, with 32-bit wrap-around written out (`Common.Wrap`, `Common.Inc`). Kotlin `Long` values (ids, timestamps) are unbounded integers.
- Strings are `seq<char>`, and case mapping is ASCII.
- JSON objects follow the `org.json` rules the code relies on:
  - `optString` gives a fallback for a missing key.
  - `optString` gives the text `"null"` for a JSON null.
  - `has` together with `!isNull` guards the optional fields.
- A `try` block whose body may throw is modelled in one of two ways:
  - `Repository.Attempt`, whose `Raised` case says the body threw;
  - a malformed response body (`Transport.HistoryBody.NotArray`, or an element that is not an object), which leads to the `catch` branch.

Where the specification and the code differ, the model follows the code:

- The paging cursor is stored under the constant key `"HISTORY"`, whatever the search keyword is.
- `rowOrder` is computed with the capped limit, in 32-bit `Int` arithmetic, before widening to `Long`.
- `syncSinglePending` reports an unknown id as `Failure("Not found")`.
- No call has a single-flight guard or a retry ceiling.
- The `DeliveryItem` class at MainActivity.kt:81 does not declare the `receiverProofPath` field that HistoryPagingSource.kt:45 passes. The model's `Entities.DeliveryItem` includes that field.
- The declarations of `getPendingById`, `clearHistory` and `insertHistory` are not part of this model's sources. They are modelled from their call sites: a lookup by key, emptying the table, and insert-or-replace by `id`.

## Model

| member | source | states |
|---|---|---|
| Common.Inc | app/src/main/java/com/infosetgroup/delivery/repository/DeliveryRepository.kt:97 | `retryCount + 1` on a Kotlin `Int` is exact below `Int.MAX_VALUE` and wraps to `Int.MIN_VALUE` at it |
| Entities.NewDelivery | app/src/main/java/com/infosetgroup/delivery/data/DeliveryEntity.kt:7-24 | a new delivery has the declared defaults: id 0 (auto-generate), retry count 0, the creation time given, code "" and status "PENDING" |
| Transport.HistoryLimit | app/src/main/java/com/infosetgroup/delivery/paging/HistoryRemoteMediator.kt:43 | the requested limit is never above 50; it is the page size when that is at most 50, and 50 otherwise |
| Transport.FailureThrowable | app/src/main/java/com/infosetgroup/delivery/paging/HistoryRemoteMediator.kt:98 | a transport failure's own throwable is kept; a missing one becomes "Unknown network error" |
| Transport.BodyOrEmpty | app/src/main/java/com/infosetgroup/delivery/paging/HistoryRemoteMediator.kt:47 | a missing body reads as the empty array; a present body is used unchanged |
| Transport.OptString | app/src/main/java/com/infosetgroup/delivery/paging/HistoryRemoteMediator.kt:65-72 | a missing key gives the fallback; a string value is returned as it is |
| Dao.DeliveryDao.InsertPending | app/src/main/java/com/infosetgroup/delivery/data/DeliveryDao.kt:13-14 | id 0 is replaced by the next sequence id, which no row has yet; any other id is kept and overwrites a row with that id; the returned id is the written row's id; no other row changes |
| Dao.DeliveryDao.GetPendingById | app/src/main/java/com/infosetgroup/delivery/repository/DeliveryRepository.kt:75 | returns the row stored under the id, which carries that id, and null exactly when no row has it |
| Dao.DeliveryDao.PendingCount | app/src/main/java/com/infosetgroup/delivery/data/DeliveryDao.kt:19-20 | the count is zero exactly when the table is empty |
| Dao.DeliveryDao.GetAllPending | app/src/main/java/com/infosetgroup/delivery/data/DeliveryDao.kt:16-17 | returns every stored row exactly once and unchanged, in ascending `createdAt` order, with as many entries as the count |
| Dao.DeliveryDao.DeleteByIds | app/src/main/java/com/infosetgroup/delivery/data/DeliveryDao.kt:22-23 | removes exactly the rows whose id is listed, returns how many of them existed, and leaves every other row untouched |
| Dao.DeliveryDao.UpdateRetryCount | app/src/main/java/com/infosetgroup/delivery/data/DeliveryDao.kt:25-26 | changes only the `retryCount` of the row with that id and reports 1; reports 0 and changes nothing when the id is absent |
| Dao.DeliveryDao.ClearHistory | app/src/main/java/com/infosetgroup/delivery/paging/HistoryRemoteMediator.kt:84 | the history cache is empty afterwards |
| Dao.DeliveryDao.InsertHistory | app/src/main/java/com/infosetgroup/delivery/paging/HistoryRemoteMediator.kt:87 | the rows are written in order, each replacing the cached row with the same id |
| RemoteKeysStore.RemoteKeysDao.RemoteKeysByRepoId | app/src/main/java/com/infosetgroup/delivery/data/RemoteKeysDao.kt:10-11 | returns the single row whose `repoId` matches, or null exactly when none does |
| RemoteKeysStore.RemoteKeysDao.InsertAll | app/src/main/java/com/infosetgroup/delivery/data/RemoteKeysDao.kt:13-14 | the table becomes the old table with each row written in order under its `repoId`, replacing any row with the same key |
| RemoteKeysStore.RemoteKeysDao.ClearRemoteKeys | app/src/main/java/com/infosetgroup/delivery/data/RemoteKeysDao.kt:16-17 | the table is empty, and every lookup returns null |
| RemoteKeysStore.InsertAllLastWins | app/src/main/java/com/infosetgroup/delivery/data/RemoteKeysDao.kt:13-14 | after `insertAll`, a key is held by the last row written with that key |
| RemoteKeysStore.InsertAllKeepsOthers | app/src/main/java/com/infosetgroup/delivery/data/RemoteKeysDao.kt:13-14 | `insertAll` leaves a key that no inserted row uses exactly as it was, present or absent |
| Tables.UpsertAllKeys | app/src/main/java/com/infosetgroup/delivery/paging/HistoryRemoteMediator.kt:87 | after an insert-or-replace of a list, the keys are the old keys plus the keys of the list |
| Tables.UpsertAllDistinctKeepsAll | app/src/main/java/com/infosetgroup/delivery/paging/HistoryRemoteMediator.kt:87 | inserting rows with distinct keys into an empty table keeps every row, under its own key |
| Repository.FileToBase64 | app/src/main/java/com/infosetgroup/delivery/repository/DeliveryRepository.kt:112-124 | gives "" for a null or blank path, a missing file or an unreadable file; a non-blank path to a readable file gives exactly that file's Base64 text |
| Repository.FileStore.Delete | app/src/main/java/com/infosetgroup/delivery/repository/DeliveryRepository.kt:144 | the file at the path no longer exists, and no other file changes |
| Repository.DeliveryRepository.SubmitDelivery | app/src/main/java/com/infosetgroup/delivery/repository/DeliveryRepository.kt:126-160 | the request carries the entity's fields and the proof's Base64 text; a 2xx answer returns Sent, leaves the queue alone and removes the proof file; a non-2xx answer, a transport failure or a throw queues the entity exactly once under the returned id and keeps the file; id 0 gets a fresh id and the queue grows by one |
| Repository.DeliveryRepository.SyncSinglePending | app/src/main/java/com/infosetgroup/delivery/repository/DeliveryRepository.kt:74-110 | an unknown id returns Failure("Not found"), makes no request and changes nothing; a 2xx answer removes the proof file and exactly that row and returns Sent; any other outcome keeps the row with its retry count set to the value read plus one (32-bit), and returns Queued with the same id |
| Repository.DeliveryRepository.BuildBulkRequest | app/src/main/java/com/infosetgroup/delivery/repository/DeliveryRepository.kt:168-185 | one payload per snapshot row in snapshot order; the id list is the snapshot's ids in the same order |
| Repository.DeliveryRepository.BumpRetryCounts | app/src/main/java/com/infosetgroup/delivery/repository/DeliveryRepository.kt:201-203 | each snapshot row still in the table gets its snapshot retry count plus one |
| Repository.DeliveryRepository.DeleteProofs | app/src/main/java/com/infosetgroup/delivery/repository/DeliveryRepository.kt:191-196 | the store afterwards is the old store minus exactly the proof paths the snapshot rows name |
| Repository.DeliveryRepository.SyncPending | app/src/main/java/com/infosetgroup/delivery/repository/DeliveryRepository.kt:162-214 | reads an ordered snapshot of the queue; an empty queue returns NothingToSync with no request and no change; otherwise one bulk request holds one entry per row in order; a 2xx answer deletes exactly the snapshot rows, removes exactly the proof paths they name and no other file, and returns Success(row count); any other answer bumps every row's retry count once, keeps the files, and returns Failure("Server returned code N") or the throwable's message |
| Repository.BumpedIncrementsSnapshotRows | app/src/main/java/com/infosetgroup/delivery/repository/DeliveryRepository.kt:201-203 | bumping a snapshot with distinct ids, taken from the table, raises each snapshot row's count by one and leaves every other row alone |
| Repository.BumpedSnapshotIncrementsAll | app/src/main/java/com/infosetgroup/delivery/repository/DeliveryRepository.kt:208-210 | bumping a full ordered snapshot raises every row of the table by exactly one |
| Repository.WithoutProofsRemovesExactlyTheProofs | app/src/main/java/com/infosetgroup/delivery/repository/DeliveryRepository.kt:191-196 | removing the proof of each snapshot row in turn leaves the old store minus exactly the paths the snapshot names |
| Repository.SnapshotIdsAreKeys | app/src/main/java/com/infosetgroup/delivery/repository/DeliveryRepository.kt:184 | the ids collected from a full snapshot are exactly the table's ids |
| Repository.SubmitThenRetry | app/src/main/java/com/infosetgroup/delivery/repository/DeliveryRepository.kt:91-95 | a delivery built by the form with the entity's defaults, queued by a failed submit and then retried successfully, leaves neither its row nor its proof file |
| Mediator.RowOrder | app/src/main/java/com/infosetgroup/delivery/paging/HistoryRemoteMediator.kt:61 | when it fits in an `Int`, the row order is `(page - 1) * limit + i` |
| Mediator.NonNullText | app/src/main/java/com/infosetgroup/delivery/paging/HistoryRemoteMediator.kt:60 | a field is read exactly when it is present and not JSON null, and then as its text |
| Mediator.ItemFromJson | app/src/main/java/com/infosetgroup/delivery/paging/HistoryRemoteMediator.kt:51-77 | the id is "id", else "code", else `<page>_<i>`; the proof is `receiverProofPath`, else `receiverProof`, else null; `createdAt` is set exactly when present and not null; the row order is the page position |
| Mediator.ItemFromJsonCopiesFields | app/src/main/java/com/infosetgroup/delivery/paging/HistoryRemoteMediator.kt:60-72 | each of the eight text fields is the member's text when present and "" when missing, and `createdAt` is the member's text when present and not null |
| Mediator.ItemsOf | app/src/main/java/com/infosetgroup/delivery/paging/HistoryRemoteMediator.kt:50-78 | one cached row per response element, in response order, each mapped from its own element and index |
| Mediator.ParseItems | app/src/main/java/com/infosetgroup/delivery/paging/HistoryRemoteMediator.kt:49-78 | returns the mapped rows exactly when every element is an object; otherwise it reports the `getJSONObject` failure |
| Mediator.StoredKeys | app/src/main/java/com/infosetgroup/delivery/paging/HistoryRemoteMediator.kt:88-89 | the cursor is stored under "HISTORY"; `prevKey` is null exactly on page 1 and otherwise page - 1; `nextKey` is null exactly at the end and otherwise page + 1 |
| Mediator.LoadFailure | app/src/main/java/com/infosetgroup/delivery/paging/HistoryRemoteMediator.kt:94-101 | a non-2xx answer gives "Server returned code N"; a malformed 2xx body gives "History mediator failed"; a transport failure gives its throwable or "Unknown network error" |
| Mediator.HistoryRemoteMediator.WritePage | app/src/main/java/com/infosetgroup/delivery/paging/HistoryRemoteMediator.kt:82-91 | a refresh clears both tables first; then the rows are inserted-or-replaced and the cursor is written |
| Mediator.HistoryRemoteMediator.Load | app/src/main/java/com/infosetgroup/delivery/paging/HistoryRemoteMediator.kt:29-103 | PREPEND ends without a request; REFRESH requests page 1; APPEND requests the stored `nextKey` and ends without a request when there is none; the limit is capped at 50; a page sets the end flag iff fewer than `limit` items came back and rewrites both tables; any error writes nothing |
| Mediator.RowOrderIncreasesWithinPage | app/src/main/java/com/infosetgroup/delivery/paging/HistoryRemoteMediator.kt:61 | within a page, element i has row order `(page - 1) * limit + i`, strictly increasing with i |
| Mediator.RowOrderIncreasesAcrossPages | app/src/main/java/com/infosetgroup/delivery/paging/HistoryRemoteMediator.kt:61 | when a page returns at most `limit` items, every row of it orders before every row of the next page |
| Mediator.SyntheticIdsDiffer | app/src/main/java/com/infosetgroup/delivery/paging/HistoryRemoteMediator.kt:53 | two positions of one page get different synthetic ids |
| Mediator.PageWithoutIdsKeepsEveryRow | app/src/main/java/com/infosetgroup/delivery/paging/HistoryRemoteMediator.kt:53 | a page whose elements have neither "id" nor "code" keeps all of its rows in the cache, none replacing another |
| PagingSource.DeliveryItemFromJson | app/src/main/java/com/infosetgroup/delivery/paging/HistoryPagingSource.kt:36-46 | each of the nine fields is the member's text when present (JSON null as "null") and "" when missing |
| PagingSource.GetRefreshKey | app/src/main/java/com/infosetgroup/delivery/paging/HistoryPagingSource.kt:16-21 | null without an anchor or closest page; otherwise null only when the page has neither key |
| PagingSource.Load | app/src/main/java/com/infosetgroup/delivery/paging/HistoryPagingSource.kt:23-61 | requests page `key` or 1 with the limit capped at 50; a page holds one item per element in order; `prevKey` is null iff page 1, else page - 1; `nextKey` is null iff fewer than `limit` items, else page + 1; a non-2xx answer, a transport failure or a malformed body each gives its own error |
| PagingSource.RefreshKeyRecoversPage | app/src/main/java/com/infosetgroup/delivery/paging/HistoryPagingSource.kt:16-21 | applied to a page's own keys, the refresh key is that page again, including across 32-bit wrap-around |
| PagingSource.KeysAgreeWithMediator | app/src/main/java/com/infosetgroup/delivery/paging/HistoryPagingSource.kt:50-51 | the list's prev/next keys equal the keys the mediator stores for the same page, limit and item count |
| NetworkUtils.ServerErrorText | app/src/main/java/com/infosetgroup/delivery/util/NetworkUtils.kt:20-24 | the last space-separated token, upper-cased, is shown in "(code X)", and the suffix is dropped when the token is blank |
| NetworkUtils.ClassifyLowered | app/src/main/java/com/infosetgroup/delivery/util/NetworkUtils.kt:10-24 | the tests apply in order: a connectivity phrase, then a timeout phrase, then a TLS phrase, then the "server returned code" prefix, each giving its message; no class applies exactly when none of them matches |
| NetworkUtils.MapNetworkErrorToFrench | app/src/main/java/com/infosetgroup/delivery/util/NetworkUtils.kt:5-28 | null or blank gives "Échec de la synchronisation"; an unclassified error gives "Échec: " followed by the trimmed original |
| NetworkUtils.BlankIsNotConnectivity | app/src/main/java/com/infosetgroup/delivery/util/NetworkUtils.kt:6 | a blank text contains no connectivity phrase, so the blank check shadows nothing |
| NetworkUtils.ConnectivityComesFirst | app/src/main/java/com/infosetgroup/delivery/util/NetworkUtils.kt:11-12 | any connectivity phrase, in any letter case, gives "Pas de connexion", whatever else the text contains |
| NetworkUtils.TimeoutComesSecond | app/src/main/java/com/infosetgroup/delivery/util/NetworkUtils.kt:14-15 | "timeout" or "timed out" without a connectivity phrase gives "Délai d'attente réseau" |
| NetworkUtils.SecurityComesThird | app/src/main/java/com/infosetgroup/delivery/util/NetworkUtils.kt:17-18 | "ssl", "certificate" or "handshake" without a connectivity or timeout phrase gives "Erreur de sécurité réseau" |
| NetworkUtils.ClassificationIgnoresCase | app/src/main/java/com/infosetgroup/delivery/util/NetworkUtils.kt:8 | two errors that differ only in letter case get the same message, except in the fallback, where each is quoted in its own case |
| NetworkUtils.FallbackQuotesTrimmedError | app/src/main/java/com/infosetgroup/delivery/util/NetworkUtils.kt:26 | an error matching no class is shown as "Échec: " plus the trimmed original, in its own case and never empty |
| NetworkUtils.NoPhraseWithoutLetters | app/src/main/java/com/infosetgroup/delivery/util/NetworkUtils.kt:10-18 | a text without any of the letters a, f, h, i, k, l and w, which every phrase contains, matches none of the three phrase classes |
| NetworkUtils.ServerPrefixShowsToken | app/src/main/java/com/infosetgroup/delivery/util/NetworkUtils.kt:20-24 | an error that starts with "server returned code" in any case and matches no phrase shows its last space-separated token, upper-cased, as the code, and just "Erreur du serveur" when that token is blank |
| NetworkUtils.ServerTextIsShownAsServerError | app/src/main/java/com/infosetgroup/delivery/util/NetworkUtils.kt:20-24 | "Server returned code D", for any number D, gives "Erreur du serveur (code D)" |
| NetworkUtils.ServerCodeIsShownAsServerError | app/src/main/java/com/infosetgroup/delivery/repository/DeliveryRepository.kt:204 | the bulk-sync failure text for any HTTP code N becomes "Erreur du serveur (code N)" |
| NetworkUtils.TransportShapeHasNoPhrase | app/src/main/java/com/infosetgroup/delivery/util/NetworkUtils.kt:10-20 | a text shaped like "network request failed" matches no class and does not start with the server prefix |
| NetworkUtils.TransportFailureReachesFallback | app/src/main/java/com/infosetgroup/delivery/network/NetworkClient.kt:43 | the message of every transport failure, "Network request failed", reaches the fallback: "Échec: Network request failed" |
| ProofReference.ClassifyCandidate | app/src/main/java/com/infosetgroup/delivery/ui/DetailComponents.kt:199-230 | base64-looking text becomes a JPEG data URL and wins over the other tests; otherwise an "http" or "file:" candidate (any case) is returned unchanged; otherwise a candidate containing "/" becomes "file://" + candidate; null exactly when no test applies |
| ProofReference.DetailImageData | app/src/main/java/com/infosetgroup/delivery/ui/DetailComponents.kt:175-231 | as written: a null or blank reference shows nothing; a trimmed "data:" prefix in any case is kept as it is; otherwise a trimmed reference wrapped in a pair of quotes (two or more characters) has them stripped and is then classified, and an unquoted one is classified as it is |
| ProofReference.NormalizeProofReference | app/src/main/java/com/infosetgroup/delivery/ui/DetailComponents.kt:175-231 | corrected: the same rule with a length guard on quote stripping; blank gives null, a "data:" prefix is kept, a quoted reference of two or more characters is stripped and then classified, and an unquoted one is classified as it is |
| ProofReference.ThumbnailData | app/src/main/java/com/infosetgroup/delivery/ui/DetailComponents.kt:337-357 | as written: a null path shows nothing; a trimmed "data:" prefix in any case is kept as it is |
| ProofReference.ThumbnailAgreesWithDetail | app/src/main/java/com/infosetgroup/delivery/ui/DetailComponents.kt:337-357 | the thumbnail rule gives the same outcome as the detail rule for every input, blank ones included |
| ProofReference.EmptyClassifiesAsNothing | app/src/main/java/com/infosetgroup/delivery/ui/DetailComponents.kt:346-356 | an empty candidate, which a blank thumbnail path trims to, shows nothing |
| ProofReference.TrimmedCrashIffLoneQuote | app/src/main/java/com/infosetgroup/delivery/ui/DetailComponents.kt:193-197 | after trimming, the quote stripping throws exactly when the candidate is a lone `"` or `'` |
| ProofReference.DetailCrashIffLoneQuote | app/src/main/java/com/infosetgroup/delivery/ui/DetailComponents.kt:193-197 | the detail rule throws exactly when the reference trims to a lone quote character |
| ProofReference.LoneQuoteCrashes | app/src/main/java/com/infosetgroup/delivery/ui/DetailComponents.kt:194-195 | the reference `"` makes the rule as written throw, and the corrected rule shows nothing |
| ProofReference.CorrectedAgreesWithDetail | app/src/main/java/com/infosetgroup/delivery/ui/DetailComponents.kt:175-231 | the corrected rule agrees with the rule as written on every input that does not throw, and gives null where it throws |
| ProofReference.ClassifiedIsUrl | app/src/main/java/com/infosetgroup/delivery/ui/DetailComponents.kt:203-227 | every classified result starts with "data:", "http" or "file:" in some case |
| ProofReference.NormalizedIsUrl | app/src/main/java/com/infosetgroup/delivery/ui/DetailComponents.kt:187-227 | every non-null normalised reference starts with "data:", "http" or "file:" in some case |
| ProofReference.LeadingSlashIsRedundant | app/src/main/java/com/infosetgroup/delivery/ui/DetailComponents.kt:204-205 | the leading-"/" alternative adds nothing, because "/" is already in the base64 alphabet |
| ProofReference.Base64BecomesDataUrl | app/src/main/java/com/infosetgroup/delivery/ui/DetailComponents.kt:200-210 | a reference that compacts to more than 40 base64 characters shows as "data:image/jpeg;base64," + the compact text, in both the corrected rule and the rule as written |
| PendingScreen.MapStatusToFrench | app/src/main/java/com/infosetgroup/delivery/ui/PendingScreen.kt:408-416 | SENT gives "ENVOYÉ" and FAILED gives "ÉCHOUÉ"; PENDING or null gives "EN ATTENTE"; any other status is shown upper-cased; all comparisons are on the upper-cased status |
| PendingScreen.StatusLabelIgnoresCase | app/src/main/java/com/infosetgroup/delivery/ui/PendingScreen.kt:409 | statuses that differ only in letter case get the same label |
| PendingScreen.StatusLabelIsUpperCase | app/src/main/java/com/infosetgroup/delivery/ui/PendingScreen.kt:408-416 | every label is already upper-case |
| PendingScreen.PendingLabelIffPending | app/src/main/java/com/infosetgroup/delivery/ui/PendingScreen.kt:412-414 | the label is "EN ATTENTE" exactly when the status is null, "pending" in any case, or "en attente" in any case |
| PendingScreen.BulkClickStartsSync | app/src/main/java/com/infosetgroup/delivery/ui/PendingScreen.kt:392 | a click while a sync runs starts nothing |
| PendingScreen.BulkSyncEnabled | app/src/main/java/com/infosetgroup/delivery/ui/PendingScreen.kt:392 | the button is enabled exactly when no sync runs and the pending count is positive, and a click on the enabled button starts a sync |
| Snackbar.After | app/src/main/java/com/infosetgroup/delivery/util/SnackbarHelper.kt:25-35 | a shown message becomes the last message, with the time read inside the lock; a suppressed one leaves the state unchanged |
| Snackbar.SnackbarHelper.constructor | app/src/main/java/com/infosetgroup/delivery/util/SnackbarHelper.kt:15-16 | starts with no last message, a timestamp of 0 and nothing shown |
| Snackbar.SnackbarHelper.ShowIfUnique | app/src/main/java/com/infosetgroup/delivery/util/SnackbarHelper.kt:20-37 | shows the message, exactly once, iff neither the quick check nor the locked re-check finds the same message within 2500 ms; the state moves as `After` says |
| Snackbar.FirstCallShows | app/src/main/java/com/infosetgroup/delivery/util/SnackbarHelper.kt:25 | the first call on a fresh helper always shows |
| Snackbar.DifferentMessageShows | app/src/main/java/com/infosetgroup/delivery/util/SnackbarHelper.kt:25 | a message other than the last one is shown however little time has passed |
| Snackbar.WindowIsInclusive | app/src/main/java/com/infosetgroup/delivery/util/SnackbarHelper.kt:18 | the same message exactly 2500 ms later is suppressed, and 2501 ms later it is shown |
| Snackbar.BurstIsShownOnce | app/src/main/java/com/infosetgroup/delivery/util/SnackbarHelper.kt:25 | repeats within 2500 ms of the last showing show nothing more |
| Snackbar.SpacedRepeatsAllShow | app/src/main/java/com/infosetgroup/delivery/util/SnackbarHelper.kt:25 | repeats more than 2500 ms apart are all shown |

## Left out

- Compose UI is left out. That covers the screen layouts, the image loading and the temporary files the detail screen writes. It is rendering only; what is kept is the two proof-reference rules, the status label and the bulk button's enable rule.
- The HTTP client internals (OkHttp, timeouts, URL encoding) are left out. Each call is an input `NetworkResult`.
- JSON text is not encoded or parsed. Payloads are records, and responses are sequences of objects, each a map from field to value.
- Base64 encoding and file reads are left out. A file is either `Readable` with its Base64 text or `Unreadable`.
- File deletion is modelled as always succeeding. A failure of `delete()` is not modelled.
- Coroutines, flows, `withContext`, the `Mutex` and the atomics are left out.
  - `showIfUnique` is modelled as one call with its two clock readings as parameters.
  - Interleaving with other calls is not modelled.
  - The clock itself is left out; `System.currentTimeMillis` values are parameters.
- The double-checked singleton `getInstance` (DeliveryRepository.kt:221-227) is left out, since it is concurrency plumbing.
- Room configuration and migrations are left out. So are database faults inside a DAO call, and the exception path of the mediator's transaction.
- `getAllDeliveries` and `observeAllPending` are pass-throughs to DAO queries and are not modelled separately.
- `syncDeliveries` is an alias of `syncPending` and has no member of its own.
- `getHistoryPaging` (HistoryViewModel.kt:63) is left out. It is the Room paging query read by the view model, which is not part of this model.
- The view models, `formatMillisToFrench` and `MainActivity.fetchHistory` are left out. They are launch glue, `java.text` date formatting and raw thread I/O.
- Case mapping is ASCII only. Other Unicode letters and the device locale are not modelled.
- Kotlin `Long` overflow is not modelled. Ids, timestamps and `rowOrder` after widening are unbounded.
- PagingSource.GetRefreshKey: `closestPageToPosition` is taken as an input, so the lookup of the page nearest the anchor is not modelled.
- Mediator.RowOrderIncreasesWithinPage: proved only for positive pages and limits, and only while the positions fit in an `Int`. Beyond that the 32-bit product wraps, and the order is not monotone.
- Mediator.RowOrderIncreasesAcrossPages has the same range restriction.
- NetworkUtils.ServerTextIsShownAsServerError is stated for decimal codes in general. The single example "Server returned code 500" is a case of it, not a separate member.
- NetworkUtils.MapNetworkErrorToFrench: its own contract states the blank and fallback cases. The connectivity, timeout, security and server branches are stated by `ClassifyLowered` and by the lemmas `ConnectivityComesFirst`, `TimeoutComesSecond`, `SecurityComesThird` and `ServerPrefixShowsToken`.

## Findings

| source | as written | input that shows it | evidently intended | confidence | as-written member | corrected member |
|---|---|---|---|---|---|---|
| app/src/main/java/com/infosetgroup/delivery/ui/DetailComponents.kt:194-195 | a trimmed reference that starts and ends with the same quote character is cut with `substring(1, length - 1)`, with no length check; the thumbnail copy does the same (lines 343-344) | a proof reference that trims to a single `"` or `'`: the cut is `substring(1, 0)`, which throws `StringIndexOutOfBoundsException` inside `remember` | strip the quotes only from a text of length at least 2, so that a lone quote shows no image | not executed | ProofReference.LoneQuoteCrashes | ProofReference.CorrectedAgreesWithDetail |
