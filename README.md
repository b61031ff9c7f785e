# ndomog inventory: the offline-first write path, modelled in Dafny

ndomog is an inventory app with an Android client (Kotlin) and a web
client (TypeScript), both backed by a remote Supabase database. This
project models the Android client's offline-first write path and proves
properties of it. It also models several self-contained pieces of logic
from both clients.

**The write path.**
- `ItemRepository` writes every change to the device's Room cache first.
- It then pushes the same change to the remote store when the caller says
  the device is online.
- When the device is offline, or the push throws, it queues a
  `PendingAction` carrying the change instead.
- `SyncRepository.syncPendingActions` later drains that queue in order. It
  marks and counts what succeeded, records one error line per failure,
  deletes the synced rows, refreshes the cache from the remote store and
  reports a `SyncResult`.

**The other pieces.**
- the `ActionType` converter;
- the cloud-storage release list (version ordering, latest release,
  Drive and Dropbox link rewriting);
- the username dialog;
- the add/edit item form;
- the PIN, password and biometric settings of the profile screen;
- the sign-in view model;
- the notification bell.

**Files.**
- `models.dfy`: the data classes, plus `Outcome` and `Result`, which stand
  for a call that may throw.
- `item_table.dfy`: an items table keyed by id and its row updates.
- `actions.dfy`: the four mutations, their remote writes, their queued
  actions, and the sync engine's decoding.
- `local_store.dfy`: the Room database as a class holding a map, a
  sequence and the next key.
- `remote_store.dfy`: the remote store as a class whose every call takes
  an `Outcome` saying whether it throws.
- `item_repository.dfy` and `sync_repository.dfy`: the two repositories, as
  classes whose methods are proved against the specification functions
  beside them.
- `converters.dfy`, `cloud_releases.dfy`, `username_prompt.dfy`,
  `item_form.dfy`, `profile_security.dfy`, `auth_view_model.dfy`,
  `notification_bell.dfy`: one module per source file.
- `text.dfy`: the character and string operations those modules share.

**What is a parameter.** Every network call, every storage call, the clock
and every random UUID becomes a parameter of the method that makes it.
- A call that may throw takes an `Outcome`: `Ok`, or `Thrown(message)`.
- In the sync engine, `attempts(i)` decides the two calls made for the
  `i`-th action: the remote write and the `markActionSynced`.
- The sync engine takes a `Dispatch`: `AsWritten` decodes the actions as
  the code does, so a queued `DELETE_ITEM` never decodes (see Findings);
  `Intended` decodes every action to the push that queued it. Every
  property of the run is proved for both, and the examples state each.

**Assumptions about the Room DAOs.** The DAO declarations are not part of
this model, so their behaviour is stated as assumptions:
- inserting an item replaces the row with the same key;
- an UPDATE matches at most one row, by key;
- action keys are auto-incremented and never reused;
- `getPendingActions` returns the unsynced rows in ascending key order
  (first in, first out);
- `getItems` returns the rows that are not soft-deleted, each once.

## Model

| member | source | states |
|---|---|---|
| Models.NewPendingAction | ndomog-android/app/src/main/java/com/ndomog/inventory/data/models/Models.kt:64-73 | a new pending action has the placeholder key 0, is not synced, and keeps the given type, entity id, payload and timestamp |
| ItemTable.Upsert | ndomog-android/app/src/main/java/com/ndomog/inventory/data/models/Models.kt:11-12 | after an insert the item sits under its own key, the table still holds at most one row per id, no other key is added and every other row is unchanged |
| ItemTable.UpsertAll | ndomog-android/app/src/main/java/com/ndomog/inventory/data/repository/ItemRepository.kt:39 | inserting a list keeps every row under its own key |
| ItemTable.UpsertAllKeeps | ndomog-android/app/src/main/java/com/ndomog/inventory/data/repository/ItemRepository.kt:39 | inserting a list adds exactly the list's ids to the keys, and leaves every row whose id is not in the list unchanged |
| ItemTable.UpsertAllLastWins | ndomog-android/app/src/main/java/com/ndomog/inventory/data/repository/ItemRepository.kt:39 | when an id repeats in the list, its last occurrence is the row that is stored |
| ItemTable.UpsertAllDistinct | ndomog-android/app/src/main/java/com/ndomog/inventory/data/repository/SyncRepository.kt:102 | every item of a list with distinct ids is stored as it is |
| ItemTable.Replace | ndomog-android/app/src/main/java/com/ndomog/inventory/data/repository/ItemRepository.kt:77 | an update by key replaces the row with the item's id, if there is one; it adds no key and leaves every other row unchanged |
| ItemTable.WithQuantity | ndomog-android/app/src/main/java/com/ndomog/inventory/data/repository/ItemRepository.kt:97 | a quantity update changes only the quantity of the row with that id, if there is one, and nothing else |
| ItemTable.WithDeletion | ndomog-android/app/src/main/java/com/ndomog/inventory/data/repository/ItemRepository.kt:118 | a soft delete sets the deletion flag, time and user on the row with that id, if there is one; the row stays, and every other row is unchanged |
| ItemTable.NonDeletedRows | ndomog-android/app/src/main/java/com/ndomog/inventory/data/repository/ItemRepository.kt:43 | the rows listed are exactly the rows of the table that are not soft-deleted, each once |
| ItemTable.UpsertNonDeletedRows | ndomog-android/app/src/main/java/com/ndomog/inventory/data/repository/SyncRepository.kt:95-102 | caching the source's non-deleted rows, in any order, overwrites every cached row the source has live and keeps every other cached row, including one the source has since deleted |
| Actions.ApplyItems | ndomog-android/app/src/main/java/com/ndomog/inventory/data/repository/SyncRepository.kt:36-72 | an item write keeps every row under its own key; a category insert leaves the items table as it was. An insert of an existing key is taken as an upsert (see Left out) |
| Actions.QueuedAction | ndomog-android/app/src/main/java/com/ndomog/inventory/data/repository/ItemRepository.kt:142-150 | the queued action is unsynced, has the placeholder key, and carries the mutation's type and entity id |
| Actions.Decode | ndomog-android/app/src/main/java/com/ndomog/inventory/data/repository/SyncRepository.kt:35-79 | an action that decodes sends a category insert exactly when it is an `ADD_CATEGORY` action |
| Actions.QueuedActionReplaysPush | ndomog-android/app/src/main/java/com/ndomog/inventory/data/repository/ItemRepository.kt:57-140 | whatever key storage gives a queued action, the sync engine decodes it to exactly the remote write the online path pushes (whole item, `{quantity}`, or `{deleted_at, deleted_by}`) |
| Actions.QueuedActionReplaysPushBy | ndomog-android/app/src/main/java/com/ndomog/inventory/data/repository/ItemRepository.kt:57-150 | under the intended dispatch every queued action decodes to its push; under the dispatch as written the same holds except that a queued delete does not decode at all |
| Actions.LocalWriteMirrorsPush | ndomog-android/app/src/main/java/com/ndomog/inventory/data/repository/ItemRepository.kt:57-140 | the remote write of each mutation does to a table exactly what its local write did, so after a successful push the cache and the remote store agree on that row |
| Actions.DecodeAsWritten | ndomog-android/app/src/main/java/com/ndomog/inventory/data/repository/SyncRepository.kt:59-60 | as written, a `DELETE_ITEM` action never decodes; every other type decodes as `Decode` does |
| Actions.QueuedDeleteNeverDecodesAsWritten | ndomog-android/app/src/main/java/com/ndomog/inventory/data/repository/SyncRepository.kt:59-72 | a queued soft delete fails to decode under the dispatch as written, and decodes to its soft-delete write under the corrected one |
| RemoteStore.ApplyOp | ndomog-android/app/src/main/java/com/ndomog/inventory/data/repository/SyncRepository.kt:74-77 | an item write changes only the items table; a category insert appends only to the categories table |
| RemoteStore.Remote.Write | ndomog-android/app/src/main/java/com/ndomog/inventory/data/repository/ItemRepository.kt:64 | every call is logged; a call that returns applies its write, and a call that throws changes nothing |
| RemoteStore.Remote.SelectNonDeleted | ndomog-android/app/src/main/java/com/ndomog/inventory/data/repository/ItemRepository.kt:30-36 | the rows returned are exactly the remote store's non-deleted rows, each once; a failing query throws with its message |
| LocalStore.Unsynced | ndomog-android/app/src/main/java/com/ndomog/inventory/data/repository/SyncRepository.kt:25 | the pending list is exactly the unsynced rows, in key order |
| LocalStore.Marked | ndomog-android/app/src/main/java/com/ndomog/inventory/data/repository/SyncRepository.kt:82 | marking flags exactly the rows whose key is marked, in place, and changes nothing else |
| LocalStore.MarkIdempotent | ndomog-android/app/src/main/java/com/ndomog/inventory/data/repository/SyncRepository.kt:82 | marking a key twice is marking it once |
| LocalStore.LocalDatabase.InsertItem | ndomog-android/app/src/main/java/com/ndomog/inventory/data/repository/ItemRepository.kt:59 | an insert that returns upserts the item; one that throws changes nothing |
| LocalStore.LocalDatabase.UpdateItem | ndomog-android/app/src/main/java/com/ndomog/inventory/data/repository/ItemRepository.kt:77 | an update that returns replaces the row by key; one that throws changes nothing |
| LocalStore.LocalDatabase.UpdateQuantity | ndomog-android/app/src/main/java/com/ndomog/inventory/data/repository/ItemRepository.kt:97 | a quantity update that returns sets that row's quantity; one that throws changes nothing |
| LocalStore.LocalDatabase.SoftDelete | ndomog-android/app/src/main/java/com/ndomog/inventory/data/repository/ItemRepository.kt:118 | a soft delete that returns flags that row; one that throws changes nothing |
| LocalStore.LocalDatabase.InsertItems | ndomog-android/app/src/main/java/com/ndomog/inventory/data/repository/ItemRepository.kt:39 | a list insert that returns upserts the list in order; one that throws changes nothing |
| LocalStore.LocalDatabase.GetItems | ndomog-android/app/src/main/java/com/ndomog/inventory/data/repository/ItemRepository.kt:43 | the cache read returns exactly the cached rows that are not soft-deleted, each once |
| LocalStore.LocalDatabase.InsertAction | ndomog-android/app/src/main/java/com/ndomog/inventory/data/repository/ItemRepository.kt:143-149 | an action with the placeholder key is appended under the next key, and the next key goes up by one; a throwing insert changes nothing |
| LocalStore.LocalDatabase.GetPendingActions | ndomog-android/app/src/main/java/com/ndomog/inventory/data/repository/SyncRepository.kt:25 | the pending list holds only unsynced rows, in ascending key order; a throwing read fails with its message |
| LocalStore.LocalDatabase.MarkActionSynced | ndomog-android/app/src/main/java/com/ndomog/inventory/data/repository/SyncRepository.kt:82 | a mark that returns flags the row with that key; one that throws changes nothing |
| LocalStore.LocalDatabase.DeleteSyncedActions | ndomog-android/app/src/main/java/com/ndomog/inventory/data/repository/SyncRepository.kt:92 | a cleanup that returns leaves exactly the unsynced rows, in order; one that throws changes nothing |
| ItemRepo.ItemRepository.LoadItems | ndomog-android/app/src/main/java/com/ndomog/inventory/data/repository/ItemRepository.kt:26-51 | never fails. Online, with the fetch and the cache write returning, it returns exactly the remote non-deleted items, not from the cache, and the cache is refreshed from them. Otherwise it returns exactly the cached non-deleted items, from the cache, and the cache is unchanged |
| ItemRepo.ItemRepository.GetItem | ndomog-android/app/src/main/java/com/ndomog/inventory/data/repository/ItemRepository.kt:54 | the cached row with that id, or none |
| ItemRepo.ItemRepository.QueueAction | ndomog-android/app/src/main/java/com/ndomog/inventory/data/repository/ItemRepository.kt:142-150 | exactly one unsynced action with the given type, entity id and payload is appended under the next key; a throwing insert queues nothing |
| ItemRepo.ItemRepository.AddItem | ndomog-android/app/src/main/java/com/ndomog/inventory/data/repository/ItemRepository.kt:57-73 | the local write comes first, and if it throws nothing else happens. Offline, there is no remote call. Online, the push is attempted once; a push that returns queues nothing. Offline, or when the push throws, exactly one action is queued. A call that returns has pushed the write or queued an action that replays it |
| ItemRepo.ItemRepository.UpdateItem | ndomog-android/app/src/main/java/com/ndomog/inventory/data/repository/ItemRepository.kt:76-93 | the same steps as `AddItem`, with the update by key and the whole item as payload |
| ItemRepo.ItemRepository.UpdateQuantity | ndomog-android/app/src/main/java/com/ndomog/inventory/data/repository/ItemRepository.kt:96-113 | the same steps as `AddItem`, with the quantity update and `{quantity}` as payload |
| ItemRepo.ItemRepository.DeleteItem | ndomog-android/app/src/main/java/com/ndomog/inventory/data/repository/ItemRepository.kt:116-140 | the same steps as `AddItem`, with the soft delete. One timestamp and one user id are used for the local row, the push and the queued payload. When the delete is queued, the intended dispatch replays it as the push, and the dispatch as written cannot decode it |
| Converters.FromActionType | ndomog-android/app/src/main/java/com/ndomog/inventory/data/local/Converters.kt:8-10 | a type is stored as a non-empty name |
| Converters.ToActionType | ndomog-android/app/src/main/java/com/ndomog/inventory/data/local/Converters.kt:13-15 | `valueOf`: a string that reads back is exactly that constant's name; any other string is the exception |
| Converters.ToFromRoundTrip | ndomog-android/app/src/main/java/com/ndomog/inventory/data/local/Converters.kt:8-15 | reading back a stored type gives the same type |
| Converters.FromActionTypeInjective | ndomog-android/app/src/main/java/com/ndomog/inventory/data/local/Converters.kt:9 | distinct types are stored as distinct names |
| Converters.FromToRoundTrip | ndomog-android/app/src/main/java/com/ndomog/inventory/data/local/Converters.kt:13-15 | a string that reads back as a type is exactly that type's name |
| Converters.ToActionTypeFailsOnOtherNames | ndomog-android/app/src/main/java/com/ndomog/inventory/data/local/Converters.kt:14 | reading fails exactly on the strings that are no type's name |
| SyncRepo.Errors | ndomog-android/app/src/main/java/com/ndomog/inventory/data/repository/SyncRepository.kt:81-88 | every action processed either adds one error line or bumps the counter, never both |
| SyncRepo.Sent | ndomog-android/app/src/main/java/com/ndomog/inventory/data/repository/SyncRepository.kt:33-79 | a run sends at most one write per action |
| SyncRepo.Marks | ndomog-android/app/src/main/java/com/ndomog/inventory/data/repository/SyncRepository.kt:82 | the keys marked after `k` iterations: at most one per action processed |
| SyncRepo.Count | ndomog-android/app/src/main/java/com/ndomog/inventory/data/repository/SyncRepository.kt:83 | `actionsSynced` after `k` iterations, never above `k` |
| SyncRepo.RemoteAfter | ndomog-android/app/src/main/java/com/ndomog/inventory/data/repository/SyncRepository.kt:33-79 | the remote store after `k` iterations: rows stay under their own keys, and categories are only appended |
| SyncRepo.MarksAreActionKeys | ndomog-android/app/src/main/java/com/ndomog/inventory/data/repository/SyncRepository.kt:82 | a run marks only keys of the actions it processed |
| SyncRepo.MarksBelowLastKey | ndomog-android/app/src/main/java/com/ndomog/inventory/data/repository/SyncRepository.kt:33-82 | over a log in key order, no key above the last action reached is marked |
| SyncRepo.MarksExactlySucceeded | ndomog-android/app/src/main/java/com/ndomog/inventory/data/repository/SyncRepository.kt:81-88 | an action's key is marked exactly when its decode, its remote write and its mark all returned |
| SyncRepo.CountIsMarked | ndomog-android/app/src/main/java/com/ndomog/inventory/data/repository/SyncRepository.kt:81-83 | `actionsSynced` equals the number of keys marked in the run |
| SyncRepo.NoErrorsIffAllSucceeded | ndomog-android/app/src/main/java/com/ndomog/inventory/data/repository/SyncRepository.kt:104-105 | the error list is empty exactly when every action succeeded, so `success` reports exactly that |
| SyncRepo.DrainReplaysInOrder | ndomog-android/app/src/main/java/com/ndomog/inventory/data/repository/SyncRepository.kt:33-79 | under either dispatch, draining actions that decode to the pushes of a list of mutations, while every write returns, leaves the remote store as pushing those mutations online in the same order would |
| SyncRepo.SurvivorsOfCleanup | ndomog-android/app/src/main/java/com/ndomog/inventory/data/repository/SyncRepository.kt:92 | after marking and cleanup, exactly the rows that were unsynced and not marked remain |
| SyncRepo.CleanupKeepsExactlyFailed | ndomog-android/app/src/main/java/com/ndomog/inventory/data/repository/SyncRepository.kt:81-92 | after a run and its cleanup, an action of the run is still pending exactly when it failed, and nothing else is pending |
| SyncRepo.CleanupOfAllMarkedIsEmpty | ndomog-android/app/src/main/java/com/ndomog/inventory/data/repository/SyncRepository.kt:92 | once every unsynced row is marked, the cleanup leaves nothing |
| SyncRepo.SecondRunFindsNothing | ndomog-android/app/src/main/java/com/ndomog/inventory/data/repository/SyncRepository.kt:25-29 | when every action of a run succeeds and the cleanup runs, nothing is left pending, so the next run takes the empty-list exit |
| SyncRepo.AddThenQuantityKeepsOrder | ndomog-android/app/src/main/java/com/ndomog/inventory/data/repository/SyncRepository.kt:33-79 | draining an offline add and then a quantity change in log order leaves the new quantity on the remote row; the reverse order would lose it |
| SyncRepo.PartialFailureIsReported | ndomog-android/app/src/main/java/com/ndomog/inventory/data/repository/SyncRepository.kt:85-88 | under the intended dispatch, for add, quantity change and delete of one item, with the second write failing: two actions are counted, and one error line names `UPDATE_QUANTITY` and the message |
| SyncRepo.PartialFailureKeepsOnlySecond | ndomog-android/app/src/main/java/com/ndomog/inventory/data/repository/SyncRepository.kt:81-92 | under the intended dispatch, only the failed second action of that run stays pending after the cleanup |
| SyncRepo.PartialFailureIsReportedAsWritten | ndomog-android/app/src/main/java/com/ndomog/inventory/data/repository/SyncRepository.kt:59-88 | as written, the same run counts one action, and reports two error lines: `UPDATE_QUANTITY` with the message, then `DELETE_ITEM` with the decode failure's message |
| SyncRepo.PartialFailureKeepsSecondAndDeleteAsWritten | ndomog-android/app/src/main/java/com/ndomog/inventory/data/repository/SyncRepository.kt:59-92 | as written, the second and the third actions of that run stay pending after the cleanup |
| SyncRepo.FailuresAreReported | ndomog-android/app/src/main/java/com/ndomog/inventory/data/repository/SyncRepository.kt:85-87 | under either dispatch, every action of the run that fails has its error line, naming its type and its message |
| SyncRepo.QueuedDeleteNeverSyncsAsWritten | ndomog-android/app/src/main/java/com/ndomog/inventory/data/repository/SyncRepository.kt:59-92 | as written, a pending delete sends no write, is never marked, is reported as a `DELETE_ITEM` error, and survives the cleanup, whatever the remote and the marks return |
| SyncRepo.ThreeQueued | ndomog-android/app/src/main/java/com/ndomog/inventory/data/repository/ItemRepository.kt:142-150 | three queued actions have ascending keys and are all unsynced |
| SyncRepo.SyncRepository.SyncAction | ndomog-android/app/src/main/java/com/ndomog/inventory/data/repository/SyncRepository.kt:34-88 | for the engine's dispatch, one iteration fails exactly when the decode, the write or the mark throws, and then yields the one error line naming the type and the message. The remote store, the write log and the markings follow the one-step specification |
| SyncRepo.SyncRepository.DrainOne | ndomog-android/app/src/main/java/com/ndomog/inventory/data/repository/SyncRepository.kt:34-88 | for the engine's dispatch, one pass of the loop body carries the run's folds from the first `i` actions to the first `i + 1`: remote store, writes sent, error lines, counter and markings each grow by exactly that action's step |
| SyncRepo.SyncRepository.DrainLog | ndomog-android/app/src/main/java/com/ndomog/inventory/data/repository/SyncRepository.kt:33-89 | for the engine's dispatch, the loop leaves the remote store, the writes sent, the errors, the counter and the markings the run's specification folds give |
| SyncRepo.SyncRepository.SyncPendingActions | ndomog-android/app/src/main/java/com/ndomog/inventory/data/repository/SyncRepository.kt:20-120 | for the engine's dispatch, covers every exit of the run. A failed list read gives one error and no change. An empty list gives a trivial success with no remote call. Otherwise the actions are sent in log order, and the counter counts the successes. A failure of the cleanup, the refresh or the cache write gives `success = false`, the per-action errors plus the outer message, and markings that are not undone. Normal completion removes the synced rows, refreshes the cache, and sets `success` exactly when no action failed, with `itemsSynced` the refreshed list's size |
| SyncRepo.SyncRepository.GetPendingActionsCount | ndomog-android/app/src/main/java/com/ndomog/inventory/data/repository/SyncRepository.kt:122-124 | the count is the number of unsynced rows; a throwing read propagates |
| CloudReleases.CompareMeaning | src/lib/cloudStorageReleases.ts:79-89 | the comparator puts `a` first exactly when `a`'s first three numeric components are lexicographically greater; it ties exactly when they agree; it is antisymmetric |
| CloudReleases.Compare | src/lib/cloudStorageReleases.ts:79-89 | the comparator is negative exactly when `a` is newer, and zero exactly when the first three components agree |
| CloudReleases.CompareTotalPreorder | src/lib/cloudStorageReleases.ts:79-89 | "not after" is total and transitive, so the comparator is consistent |
| CloudReleases.SortReleases | src/lib/cloudStorageReleases.ts:95-107 | the sorted copy is newest first, is a permutation of the input, and is stable: the releases sharing a version keep their input order |
| CloudReleases.GetLatest | src/lib/cloudStorageReleases.ts:75-92 | none exactly when there are no releases; otherwise one of the releases, no release is newer, and every release listed before it is older (it is the first-listed of the newest) |
| CloudReleases.GetAllCloudReleases | src/lib/cloudStorageReleases.ts:95-107 | the shipped list, sorted newest first and a permutation of it |
| CloudReleases.IsConfigured | src/lib/cloudStorageReleases.ts:110-113 | configured only when some release carries a link; when every release carries one, configured exactly when the list is not empty |
| CloudReleases.ShippedReleasesNotConfigured | src/lib/cloudStorageReleases.ts:110-113 | with the shipped list, the latest release is the 1.1.0 entry, sorting leaves the list as it is, and cloud storage is not configured because that entry's link is empty |
| CloudReleases.Capture | src/lib/cloudStorageReleases.ts:56 | a match captures a non-empty run of `[a-zA-Z0-9_-]` following the leftmost occurrence of the pattern that is followed by such a character, and the run is maximal; there is no match exactly when the pattern is nowhere followed by such a character |
| CloudReleases.DriveFileId | src/lib/cloudStorageReleases.ts:49-60 | the id is a non-empty run of `[a-zA-Z0-9_-]`; there is none exactly when none of the three patterns matches |
| CloudReleases.ConvertGoogleDriveLink | src/lib/cloudStorageReleases.ts:47-63 | a link with no matching pattern comes back unchanged; otherwise the result is the direct-download prefix followed by the id the first matching pattern captures |
| CloudReleases.DirectLinkIsFixedPoint | src/lib/cloudStorageReleases.ts:49-58 | on a direct-download link, neither `/`-pattern matches and `id=` captures exactly its id, so the conversion returns the link unchanged |
| CloudReleases.ConvertGoogleDriveLinkIdempotent | src/lib/cloudStorageReleases.ts:47-63 | converting twice is converting once |
| CloudReleases.DropboxRewritesFirstDl | src/lib/cloudStorageReleases.ts:66-72 | a Dropbox link keeps its length and everything before its first `dl=0`, which becomes `dl=1`. A non-Dropbox link, or one without `dl=0`, comes back unchanged |
| CloudReleases.ConvertDropboxLink | src/lib/cloudStorageReleases.ts:66-72 | only a link on dropbox.com that contains `dl=0` is changed |
| CloudReleases.ToDirectDownloadLink | src/lib/cloudStorageReleases.ts:116-124 | a URL containing `drive.google.com` is the Drive conversion; otherwise one containing `dropbox.com` is the Dropbox conversion; one naming neither host comes back unchanged, so a changed URL names one of them |
| CloudReleases.DirectLinkUnchanged | src/lib/cloudStorageReleases.ts:116-119 | a Drive direct-download link passes through unchanged |
| CloudReleases.ShareLinkConverts | src/lib/cloudStorageReleases.ts:47-63 | a Drive share link `https://drive.google.com/file/d/<id>/view` becomes the direct-download link of `<id>` |
| Text.FilterDigitsKeepsDigits | ndomog-android/app/src/main/java/com/ndomog/inventory/presentation/dashboard/AddEditItemDialog.kt:591 | the digit filter keeps every digit occurrence and nothing else |
| Text.FilterDigitsOfDigits | ndomog-android/app/src/main/java/com/ndomog/inventory/presentation/dashboard/AddEditItemDialog.kt:612 | a digit string passes through the filter unchanged |
| Text.ToUpperProperties | ndomog-android/app/src/main/java/com/ndomog/inventory/presentation/dashboard/AddEditItemDialog.kt:296-299 | upper-casing changes only letters, leaves no lower-case letter, and is idempotent |
| Text.TrimEmptyIffBlank | ndomog-android/app/src/main/java/com/ndomog/inventory/presentation/dashboard/AddEditItemDialog.kt:650 | trimming gives the empty string exactly when the text is blank |
| Text.JsBlankIsBlank | src/components/UsernamePrompt.tsx:129 | what JavaScript's `trim` finds blank Kotlin's `isBlank` finds blank too, but a lone U+001F is blank to Kotlin only |
| Text.ToIntOrNull | ndomog-android/app/src/main/java/com/ndomog/inventory/presentation/dashboard/AddEditItemDialog.kt:654-655 | a parsed value fits in 32 bits; a digit string parses to its value when non-empty and within range, and to null otherwise |
| Text.IntToStringRoundTrip | ndomog-android/app/src/main/java/com/ndomog/inventory/presentation/dashboard/AddEditItemDialog.kt:64-65 | every 32-bit integer survives `toString` followed by `toIntOrNull` |
| Username.ValidateUsername | src/components/UsernamePrompt.tsx:26-37 | no error exactly when the length is 3 to 20 and every character is in `[a-zA-Z0-9_]`; otherwise one of the three messages |
| Username.ValidationOrder | src/components/UsernamePrompt.tsx:27-35 | the short message exactly for fewer than 3 characters, whatever the characters; the long message exactly above 20; the character message only for an acceptable length |
| Username.TwentyIsAccepted | src/components/UsernamePrompt.tsx:30-32 | a 20-character name passes, although the message says "less than 20" |
| Username.ValidateLowered | src/components/UsernamePrompt.tsx:61-81 | lower-casing gives the same validation result, so the stored name passes exactly when the typed one did |
| Username.ValidIsNotBlank | src/components/UsernamePrompt.tsx:129 | a valid name is not blank, so the button is disabled for it only while loading |
| Username.CaughtMessage | src/components/UsernamePrompt.tsx:82-85 | an `Error`'s own message, or the fallback for anything else thrown |
| Username.UsernamePrompt.OnChange | src/components/UsernamePrompt.tsx:111-114 | takes the text and clears the error, changing nothing else |
| Username.UsernamePrompt.SubmitDisabled | src/components/UsernamePrompt.tsx:129 | disabled while loading; never disabled, while idle, for a name the validator accepts |
| Username.UsernamePrompt.HandleSubmit | src/components/UsernamePrompt.tsx:39-89 | a rejected name shows its message and makes no request. Without a session the dialog shows "Not authenticated". A taken name is looked up lower-cased and reported. Otherwise the lower-cased name is stored, and a thrown update shows its message. Past validation, loading always ends. Whatever is completed is the lower-cased name and passes the validator |
| ItemForm.ParsedOr | ndomog-android/app/src/main/java/com/ndomog/inventory/presentation/dashboard/AddEditItemDialog.kt:654-655 | a numeric field gives its parsed value, or the default when it does not parse |
| ItemForm.FinalCategory | ndomog-android/app/src/main/java/com/ndomog/inventory/presentation/dashboard/AddEditItemDialog.kt:645 | the category submitted: the new category's name while one is being entered, otherwise the selected category |
| ItemForm.BuildItem | ndomog-android/app/src/main/java/com/ndomog/inventory/presentation/dashboard/AddEditItemDialog.kt:646-657 | the existing id is kept when editing, else the new UUID is used. Details are null exactly when blank, and trimmed otherwise. The photo is null exactly when empty. The quantity is a 32-bit value or 0. The item is live and has no category id or creation fields |
| ItemForm.FilteredNumbersAreNonNegative | ndomog-android/app/src/main/java/com/ndomog/inventory/presentation/dashboard/AddEditItemDialog.kt:654-655 | with digit-only fields, the submitted quantity and threshold are never negative. Empty fields give 0 and 5, and an in-range digit run gives its value |
| ItemForm.UntouchedEditKeepsItem | ndomog-android/app/src/main/java/com/ndomog/inventory/presentation/dashboard/AddEditItemDialog.kt:56-65 | opening on an item and confirming unedited keeps its id, quantity, threshold and non-empty photo, and its name and category up to trimming |
| ItemForm.SubmitEnabledConfirmsNonBlank | ndomog-android/app/src/main/java/com/ndomog/inventory/presentation/dashboard/AddEditItemDialog.kt:667 | under the corrected rule, an enabled button submits an item with a non-empty name and category |
| ItemForm.SubmitRulesDiffer | ndomog-android/app/src/main/java/com/ndomog/inventory/presentation/dashboard/AddEditItemDialog.kt:667 | the written rule allows everything the corrected one does. It also allows exactly one more state: a new category being entered with a blank name, while the old selection is not blank |
| ItemForm.SubmitEnabledAsWritten | ndomog-android/app/src/main/java/com/ndomog/inventory/presentation/dashboard/AddEditItemDialog.kt:667 | the button's rule as written: never enabled without a name, and equal to the intended rule outside new-category mode |
| ItemForm.SeparatorNameDisables | ndomog-android/app/src/main/java/com/ndomog/inventory/presentation/dashboard/AddEditItemDialog.kt:667 | `isBlank` counts U+001F as whitespace, so a name made of it alone keeps the button disabled under both rules |
| ItemForm.SubmitEnabledAsWrittenAllowsBlankCategory | ndomog-android/app/src/main/java/com/ndomog/inventory/presentation/dashboard/AddEditItemDialog.kt:667 | "TOOLS" selected, then "Add New Category" chosen and nothing typed: the written rule enables the button, and the submitted category is empty |
| ItemForm.ItemFormState.constructor | ndomog-android/app/src/main/java/com/ndomog/inventory/presentation/dashboard/AddEditItemDialog.kt:56-65 | the fields start from the existing item, or empty with quantity "0" and threshold "5" |
| ItemForm.ItemFormState.EditName | ndomog-android/app/src/main/java/com/ndomog/inventory/presentation/dashboard/AddEditItemDialog.kt:270 | the name takes the text |
| ItemForm.ItemFormState.EditCategoryField | ndomog-android/app/src/main/java/com/ndomog/inventory/presentation/dashboard/AddEditItemDialog.kt:296-299 | the upper-cased text goes to the new name while a new category is entered, else to the selected category. The other field is kept, and the category submitted has no lower-case letter |
| ItemForm.ItemFormState.ChooseNewCategory | ndomog-android/app/src/main/java/com/ndomog/inventory/presentation/dashboard/AddEditItemDialog.kt:332-336 | sets new-category mode and clears the new name |
| ItemForm.ItemFormState.ChooseCategory | ndomog-android/app/src/main/java/com/ndomog/inventory/presentation/dashboard/AddEditItemDialog.kt:348-352 | selects the category as listed and leaves new-category mode, so it is the category submitted |
| ItemForm.ItemFormState.EditNewCategoryName | ndomog-android/app/src/main/java/com/ndomog/inventory/presentation/dashboard/AddEditItemDialog.kt:363 | the new name takes the upper-cased text |
| ItemForm.ItemFormState.EditDetails | ndomog-android/app/src/main/java/com/ndomog/inventory/presentation/dashboard/AddEditItemDialog.kt:385 | the details take the text |
| ItemForm.ItemFormState.SetPhoto | ndomog-android/app/src/main/java/com/ndomog/inventory/presentation/dashboard/AddEditItemDialog.kt:82-96 | a picked or taken image's URI becomes the photo URL |
| ItemForm.ItemFormState.ClearPhoto | ndomog-android/app/src/main/java/com/ndomog/inventory/presentation/dashboard/AddEditItemDialog.kt:423 | the photo URL becomes empty |
| ItemForm.ItemFormState.EditQuantity | ndomog-android/app/src/main/java/com/ndomog/inventory/presentation/dashboard/AddEditItemDialog.kt:591 | the quantity field keeps only the digits of the edit |
| ItemForm.ItemFormState.EditLowStockThreshold | ndomog-android/app/src/main/java/com/ndomog/inventory/presentation/dashboard/AddEditItemDialog.kt:612 | the low-stock field keeps only the digits of the edit |
| ItemForm.ItemFormState.Enabled | ndomog-android/app/src/main/java/com/ndomog/inventory/presentation/dashboard/AddEditItemDialog.kt:667 | the button's state under the corrected rule, not the rule as written: the written rule less the one state where a new category is being entered with a blank name |
| ItemForm.ItemFormState.Confirm | ndomog-android/app/src/main/java/com/ndomog/inventory/presentation/dashboard/AddEditItemDialog.kt:644-658 | the item handed on is the one built from the fields and the chosen category, with the existing id or the UUID. Under the corrected rule its name and category are non-empty, and a new category, which the handlers keep upper-cased, is submitted upper-cased |
| ProfileSecurity.PinSetup.constructor | ndomog-android/app/src/main/java/com/ndomog/inventory/presentation/profile/ProfileScreen.kt:1106-1109 | the dialog starts at step 1 with empty fields and no error |
| ProfileSecurity.PinSetup.Edit | ndomog-android/app/src/main/java/com/ndomog/inventory/presentation/profile/ProfileScreen.kt:1129-1134 | an edit of at most 4 digits replaces the current step's field and clears the error; any other edit changes nothing |
| ProfileSecurity.PinSetup.Confirm | ndomog-android/app/src/main/java/com/ndomog/inventory/presentation/profile/ProfileScreen.kt:1158-1173 | step 1 advances only on 4 characters, else shows "PIN must be 4 digits". Step 2 hands the PIN on when the repetition matches; else it clears the repetition, shows "PINs don't match" and stays. A PIN handed on is four digits, entered twice |
| ProfileSecurity.PasswordError | ndomog-android/app/src/main/java/com/ndomog/inventory/presentation/profile/ProfileScreen.kt:1081-1086 | no error exactly when the current password is non-empty, the new one has at least 6 characters, and it matches its confirmation |
| ProfileSecurity.PasswordChecksInOrder | ndomog-android/app/src/main/java/com/ndomog/inventory/presentation/profile/ProfileScreen.kt:1081-1086 | the message shown is the first failing check's: a missing current password hides the others, and a short new password hides a mismatch |
| ProfileSecurity.ChangePassword.EditOld | ndomog-android/app/src/main/java/com/ndomog/inventory/presentation/profile/ProfileScreen.kt:995 | the field takes the text, the error clears, the other fields are kept |
| ProfileSecurity.ChangePassword.EditNew | ndomog-android/app/src/main/java/com/ndomog/inventory/presentation/profile/ProfileScreen.kt:1021 | the field takes the text, the error clears, the other fields are kept |
| ProfileSecurity.ChangePassword.EditConfirm | ndomog-android/app/src/main/java/com/ndomog/inventory/presentation/profile/ProfileScreen.kt:1047 | the field takes the text, the error clears, the other fields are kept |
| ProfileSecurity.ChangePassword.Confirm | ndomog-android/app/src/main/java/com/ndomog/inventory/presentation/profile/ProfileScreen.kt:1078-1087 | the first failing check's message, or the current and new passwords handed on. What is handed on passed every check |
| ProfileSecurity.SecuritySettings.Load | ndomog-android/app/src/main/java/com/ndomog/inventory/presentation/profile/ProfileScreen.kt:92-99 | the stored flags are copied in; biometric-implies-PIN holds exactly when it holds for the stored flags |
| ProfileSecurity.SecuritySettings.TogglePin | ndomog-android/app/src/main/java/com/ndomog/inventory/presentation/profile/ProfileScreen.kt:471-485 | turning the PIN on only opens the setup dialog. Turning it off clears both flags and launches both writes. Biometric-implies-PIN is preserved |
| ProfileSecurity.SecuritySettings.ToggleBiometric | ndomog-android/app/src/main/java/com/ndomog/inventory/presentation/profile/ProfileScreen.kt:494-529 | offered only while the PIN is on; sets the flag and launches its write, keeping biometric-implies-PIN |
| ProfileSecurity.SecuritySettings.DismissPinSetup | ndomog-android/app/src/main/java/com/ndomog/inventory/presentation/profile/ProfileScreen.kt:845 | the setup dialog closes |
| ProfileSecurity.SecuritySettings.PinSetupConfirmed | ndomog-android/app/src/main/java/com/ndomog/inventory/presentation/profile/ProfileScreen.kt:843-856 | the PIN is enabled, the dialog closes, and the enable and hash writes are launched in that order |
| ProfileSecurity.SecuritySettings.ConfirmPinSetup | ndomog-android/app/src/main/java/com/ndomog/inventory/presentation/profile/ProfileScreen.kt:843-856 | the PIN is enabled and stored only once a four-digit PIN was entered twice; otherwise the settings are unchanged |
| Auth.FailureMessage | ndomog-android/app/src/main/java/com/ndomog/inventory/presentation/auth/AuthViewModel.kt:40 | the exception's message, or "An unknown error occurred" when it is null |
| Auth.Finished | ndomog-android/app/src/main/java/com/ndomog/inventory/presentation/auth/AuthViewModel.kt:36-41 | a finished request is a success exactly when the call succeeded, else an error with the failure message; it is never idle or loading |
| Auth.AuthViewModel.constructor | ndomog-android/app/src/main/java/com/ndomog/inventory/presentation/auth/AuthViewModel.kt:12-20 | the session state starts loading and the login state idle |
| Auth.AuthViewModel.CheckAuthState | ndomog-android/app/src/main/java/com/ndomog/inventory/presentation/auth/AuthViewModel.kt:22-30 | authenticated exactly when a session exists, else unauthenticated |
| Auth.AuthViewModel.Login | ndomog-android/app/src/main/java/com/ndomog/inventory/presentation/auth/AuthViewModel.kt:32-43 | the login state goes through loading to the result. Only a success authenticates; a failure leaves the session state as it was |
| Auth.AuthViewModel.Signup | ndomog-android/app/src/main/java/com/ndomog/inventory/presentation/auth/AuthViewModel.kt:45-55 | the same progression, and the session state is never changed |
| Notifications.UnreadIn | src/components/NotificationBell.tsx:44 | the unread count of a list is at most its length |
| Notifications.UnreadInPrefix | src/components/NotificationBell.tsx:56 | a prefix has no more unread notifications than the whole list |
| Notifications.Prepend | src/components/NotificationBell.tsx:56 | the new notification first, then the old ones in order, at most 20 in all |
| Notifications.PrependUnread | src/components/NotificationBell.tsx:56-57 | prepending adds at most the new notification to the unread ones |
| Notifications.MarkedRead | src/components/NotificationBell.tsx:76 | every notification is read and has no other field changed, in the same order |
| Notifications.MarkedReadHasNoUnread | src/components/NotificationBell.tsx:76-77 | a list marked read has no unread notification, which agrees with the counter's reset to 0 |
| Notifications.CounterCanExceedList | src/components/NotificationBell.tsx:56-57 | after 20 unread notifications and an insert of a read one, the counter says 21 while the list holds 19 unread |
| Notifications.AllUnread | src/components/NotificationBell.tsx:44 | a list of unread notifications counts all of them |
| Notifications.ActionColor | src/components/NotificationBell.tsx:80-91 | the three known actions map to their colours; any other action, and only those, maps to the foreground colour |
| Notifications.ActionColorsDistinct | src/components/NotificationBell.tsx:80-91 | the three known actions get three different colours |
| Notifications.Badge | src/components/NotificationBell.tsx:98-101 | hidden exactly when the count is at most 0; "9+" above 9; otherwise one digit |
| Notifications.BadgeShowsCount | src/components/NotificationBell.tsx:100 | a one-digit badge reads back as the counter |
| Notifications.NotificationBell.Fetch | src/components/NotificationBell.tsx:32-46 | with a session and data, the list is the data and the counter is its unread count; otherwise nothing changes |
| Notifications.NotificationBell.OnInsert | src/components/NotificationBell.tsx:54-58 | the notification goes first, at most 20 are kept, and the counter goes up by exactly one. The counter never drops below the listed unread notifications |
| Notifications.NotificationBell.MarkAllAsRead | src/components/NotificationBell.tsx:67-78 | with a session, one update is sent, every listed notification is read, and the counter is 0; otherwise nothing changes |

## Left out

- Supabase and Room are not part of this model. Every remote and DAO call is a parameter saying whether the call returns or throws, and the DAO semantics are the assumptions stated above.
- JSON encoding and decoding become the `Payload` datatype. A payload that does not decode as its action type demands stands for the serializer's exception, with a fixed stand-in message.
- Concurrency is not modelled: coroutines, `viewModelScope.launch`, `Flow` observation (`observeItems`) and React effects. Each handler runs to completion in one step. The asynchronous preference writes of the profile screen are recorded in launch order, and are not awaited.
- Floating point: `buyingPrice` and `sellingPrice` of `Item`, and the price fields of the item form, are not modelled.
- The item form passes `lastUpdated`, which is not a field of `Item`; it is not modelled.
- The clock (`System.currentTimeMillis`, `Instant.now`) and `UUID.randomUUID` are parameters.
- Logging (`Timber`) and toasts are left out: they change no modelled state.
- Characters are ASCII. `isDigit`, `uppercase`, `toLowerCase`, `isWhitespace` and `trim` treat only ASCII letters, digits and whitespace as such, and lengths count characters rather than UTF-16 units. ASCII whitespace is tab, line feed, vertical tab, form feed, carriage return and space for JavaScript's `trim`; Kotlin's `isWhitespace`, `trim` and `isBlank` also count the separators U+001C to U+001F. Unicode spaces such as U+00A0 are whitespace to both and are not modelled.
- CloudReleases.ComponentValue: a version component reads as its value only when it is a plain digit run; JavaScript's `Number` forms with whitespace, sign, fraction, exponent or hex prefix read as 0 here.
- CloudReleases.SortReleases: `Array.prototype.sort` is stable since ECMAScript 2019, and the model is an insertion sort with that order; the source's algorithm and its comparator call count are not modelled.
- Username.UsernamePrompt.HandleSubmit: `getUser`, the lookup and the update are parameters. A lookup error reads as "not taken", as the code does. Whether the thrown update error is an `Error` instance is part of the `Outcome` parameter.
- Notifications.NotificationBell.Fetch requires at most 20 rows: the query's `limit(20)` is assumed, not modelled.
- Notifications.NotificationBell.MarkAllAsRead: the remote update's result is ignored by the code, and the model records only that one was sent.
- The realtime channel subscription and its removal are not modelled; its insert handler is `OnInsert`.
- ItemRepo.ItemRepository.LoadItems: the cache read in the `catch` branch is taken never to throw. In the code, an exception there would propagate.
- ItemForm.ItemFormState.EditCategoryField covers both branches of the handler, although the category field is read-only outside new-category mode.
- Rendering and layout of every screen are not modelled.
- Actions.ApplyItems: a remote `insert` of a key that already exists replaces that row. A Postgres INSERT of an existing primary key throws instead, so an `ADD_ITEM` replayed after its push returned but its mark threw fails on each later run in the source, and succeeds in the model.
- RemoteStore.Remote.Write: the remote store is a map with upsert semantics for every insert, for the same reason; a duplicate-key error is not modelled, and it can only reach the sync engine through the `attempts` parameter.
- The online soft-delete push (ItemRepository.kt:122-127) and its replay (SyncRepository.kt:61-66) build a map of a Boolean and two Strings, whose value type is `Any`, the type whose decode fails at SyncRepository.kt:60. Serializing it is expected to fail as well, so the online delete is expected to throw and queue its action. The model does not decide this: the `push` outcome stands for either case, and `DeleteItem`'s contract holds in both.

## Findings

| source | as written | input that shows it | evidently intended | confidence | as-written member | corrected member |
|---|---|---|---|---|---|---|
| ndomog-android/app/src/main/java/com/ndomog/inventory/data/repository/SyncRepository.kt:60 | the `DELETE_ITEM` branch decodes its payload as `Map<String, Any>`. kotlinx.serialization has no serializer for `Any`, so that decode throws on every payload. A queued soft delete therefore fails on every run and is never synced | any queued delete, e.g. payload `{"deleted_at": "2025-01-01T00:00:00Z", "deleted_by": "u1"}` | decode `{deleted_at, deleted_by}` as strings and send the soft delete | high (not executed) | Actions.QueuedDeleteNeverDecodesAsWritten | Actions.QueuedActionReplaysPush |
| ndomog-android/app/src/main/java/com/ndomog/inventory/presentation/dashboard/AddEditItemDialog.kt:667 | the button is enabled when the selected category is not blank, even while a new category is being entered with a blank name. The submitted category is then the trimmed new name, which is empty | name "Hammer", category "TOOLS" selected, then "Add New Category" chosen and nothing typed | enable only when the category that will be submitted is not blank | high (not executed) | ItemForm.SubmitEnabledAsWrittenAllowsBlankCategory | ItemForm.SubmitEnabledConfirmsNonBlank |
