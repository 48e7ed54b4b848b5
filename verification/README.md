# Shared records: record store and identity publication

A Dafny model of two sequential pieces of a medical-records mobile app.

1. **The record store** (`src/utilities/store.js`). All records are one JSON
   list kept under the key `<namespace>.records` of an asynchronous string
   key-value store. `records()` reads and decodes it. `addRecord` and
   `removeRecord` read the list, change it, and write the whole list back.
   Storage is a `map<string, Blob>`. A `Blob` is either valid JSON text
   (`Encoded(value)`) or text `JSON.parse` rejects (`Corrupt`). A
   `Primitive` value says whether the storage read or write fails during a
   call. Each operation returns a `Settlement`: `Resolved(value)`,
   `Rejected(reason)` or `NeverSettles`.
2. **The shared-records screen** (`src/screens/SharedRecordsScreen.js`). This
   covers the "My Record Sharing Information" handler:
   - check that keys exist;
   - read the cached shared key;
   - if no key is cached, export the PEM, add it to IPFS and persist the
     returned hash;
   - read the shared info and navigate to the QR code screen.

   It also covers `onShareKeyUploadFailed`, `hideModal`, `reloadRecords`
   and `onQRCodeScanned`. Every external call is an oracle. Its reply
   (`Ok(value)` or `Fail`) is an input, and the call is recorded in a
   trace. The handler is written twice: `OnPress` follows the handler's
   control flow, and `Step`/`Run` is a step machine over the phases. A
   lemma proves the two agree.

Modules:
- `Outcomes` (outcomes.dfy): `Option` and `Reply`.
- `Json` (json.dfy): `Record`, decoded JSON `Value`s and JavaScript truthiness.
- `RecordList` (record_list.dfy): the list logic.
- `Store` (store.dfy): the store operations.
- `Screen` (screen.dfy): component state and the small handlers.
- `Publication` (publication.dfy): the publication handler.

Behaviour of the code that the model keeps:
- `addRecord` and `removeRecord` never reject. Their `try/catch` only
  catches synchronous throws, so a rejected read, a failed write or a
  truthy stored value that is neither an array nor a string leaves the
  promise pending forever. No storage error ever reaches the caller.
- `addRecord` does not check ids for uniqueness, so duplicates are possible.
- `records()` replaces any falsy decoded value (`null`, `false`, `0`) with
  `[]`. A missing key decodes as `null`. `records()` rejects on a failed
  read or text that is not JSON.
- A rejected `keysExist()` comes before the handler's `try`, so it shows
  nothing: no alert, no modal, no navigation.
- `hideModal` does not clear `uploadError`.

## Model

| member | source | states |
|---|---|---|
| Store.Records | src/utilities/store.js:10-22 | Resolves exactly when the read succeeds and the stored text is JSON or absent. Otherwise it rejects. An absent key or a falsy decoded value gives `[]`. A truthy value is returned as decoded. The resolved value is never falsy. |
| Store.AddRecord | src/utilities/store.js:24-39 | Never rejects. Resolves exactly when the read yields an array and the write succeeds. The result is the previous list plus `data` as its last element (length +1, prefix unchanged). Only the records key is written, and it holds the resolved list. On any failure it never settles and writes nothing. |
| Store.RemoveRecord | src/utilities/store.js:41-56 | Never rejects. Resolves exactly when the read yields an array and the write succeeds. The result is a removal of `r.id` from the previous list: order kept, no entry with that id, every other entry kept with its multiplicity. Only the records key is written, and it holds the resolved list. On failure it never settles and writes nothing. |
| Store.ReadAfterMutation | src/utilities/store.js:24-56 | After a successful add or remove, a later `records()` read resolves with exactly the list the mutation resolved with. |
| Store.AddRecordKeepsDuplicates | src/utilities/store.js:29 | Adding a record whose id is already stored leaves at least two entries with that id. |
| Store.RemoveUndoesAdd | src/utilities/store.js:29-48 | Adding a record with a fresh id and then removing it resolves with the list read before the add, and stores that list. |
| Store.RemoveAbsentIsNoop | src/utilities/store.js:46-48 | Removing an id that no stored entry carries resolves with the stored list unchanged. |
| Store.RemoveRecordIdempotent | src/utilities/store.js:41-56 | Two successive removals of the same record give the same outcome and storage as one, including when the first never settles. |
| Store.EmptyStoreScenario | src/utilities/store.js:10-56 | From an empty store, adding `{id: 'r1', type: 'lab'}` resolves with and stores `[r1]`. Removing `r1` then resolves with and stores `[]`. |
| RecordList.RemoveIdIsRemoval | src/utilities/store.js:46 | The filter's result is an order-preserving subsequence with no entry carrying the id. Every other entry keeps its multiplicity. |
| RecordList.RemovalIsUnique | src/utilities/store.js:46 | Any list meeting that description equals the filter's result, so the description determines the filter. |
| RecordList.RemoveIdAbsent | src/utilities/store.js:46 | Filtering out an id no entry carries returns the list unchanged. |
| RecordList.RemoveIdIdempotent | src/utilities/store.js:46 | Filtering twice by the same id equals filtering once. |
| RecordList.RemoveIdAfterAppend | src/utilities/store.js:29-46 | Appending a record with a fresh id and then filtering that id out restores the list. |
| RecordList.CountIdAppend | src/utilities/store.js:29 | Appending raises the count of the appended record's id by one and leaves other ids' counts alone. |
| Screen.OnShareKeyUploadFailed | src/screens/SharedRecordsScreen.js:36-38 | The modal is shown in its error form (`modalVisible` and `uploadError` set). The other state is unchanged. |
| Screen.HideModal | src/screens/SharedRecordsScreen.js:44-46 | `modalVisible` is cleared. `uploadError` and the rest of the state are unchanged. |
| Screen.HideModalKeepsUploadError | src/screens/SharedRecordsScreen.js:36-46 | Closing the modal after an upload failure leaves `uploadError` set. |
| Screen.ReloadRecords | src/screens/SharedRecordsScreen.js:25-34 | Calls the contacts, shared and external getters in that order and stops at the first rejection: the shared getter is called exactly when the contacts getter resolves, the external one exactly when both earlier ones resolve. When all three resolve, `contacts` becomes their grouping and `loading` is cleared. Otherwise the state is unchanged. |
| Screen.MountLoadsOnSuccess | src/screens/SharedRecordsScreen.js:25-42 | On a freshly mounted screen, loading ends exactly when every getter resolves. |
| Screen.OnQrCodeScanned | src/screens/SharedRecordsScreen.js:48-65 | The helper is called first. A reload happens exactly when its result carries a record, and then the state and the calls after the helper are exactly those of `reloadRecords`. The scan-error alert is the only alert, shown exactly when the result has no record. Otherwise nothing changes. |
| Screen.ScanRefreshesContacts | src/screens/SharedRecordsScreen.js:48-65 | Scanning a result that carries a record, with all getters resolving, ends loading and sets the contacts to the grouping of the fetched lists. Any other scan result leaves the state unchanged. |
| Publication.OnPress | src/screens/SharedRecordsScreen.js:151-191 | The handler. `keysExist` is always the first call and the only one when keys are missing or the check rejects. The only possible alert is "keys not present", shown exactly when keys are missing. Navigation goes only to `QRCode` with the fetched shared info, after `mySharedInfo` is called. The state either stays as it was or shows the upload-failed modal. The lemmas below pin the rest. |
| Publication.Step | src/screens/SharedRecordsScreen.js:151-191 | Each step performs one call, appends it to the trace without altering earlier entries, and strictly lowers the phase rank. So the workflow ends. |
| Publication.MachineMatchesHandler | src/screens/SharedRecordsScreen.js:151-191 | The step machine over the phases produces the same trace, state, alerts and navigation as the handler, for every set of replies. |
| Publication.KeysMissingOnlyAlerts | src/screens/SharedRecordsScreen.js:152-161 | Without keys, the only call is `keysExist` and the only effect is the "keys not present" alert. There is no state change and no navigation. |
| Publication.CachedKeySkipsPublish | src/screens/SharedRecordsScreen.js:165-179 | With a truthy cached shared key, the trace is `keysExist`, `sharedPublickKey`, `mySharedInfo`. No PEM export, IPFS add or hash write happens. |
| Publication.UncachedKeyPublishes | src/screens/SharedRecordsScreen.js:165-176 | With keys present and no truthy shared key stored, the calls begin `keysExist`, `sharedPublickKey`, `publicKeyPEM`. The exported PEM is passed to `ipfs.add` when the export resolves. The returned hash is persisted when both resolve. When every step succeeds the trace is exactly PEM → IPFS add → persist → shared info after the two checks. |
| Publication.CallsFollowPath | src/screens/SharedRecordsScreen.js:165-179 | The trace is a prefix of the cached path or of PEM → IPFS add → persist → shared info. The PEM passed to IPFS is the one exported. The persisted hash is the one IPFS returned. |
| Publication.NoPersistOnFailure | src/screens/SharedRecordsScreen.js:169-190 | If the PEM export or the IPFS add fails, `setSharedPublicKey` is never called. |
| Publication.NavigatesIffStepsSucceed | src/screens/SharedRecordsScreen.js:163-190 | Once keys exist, the handler navigates to `QRCode` with `type: 'contact'` and the shared info exactly when every later step succeeds. Otherwise it shows the upload-failed modal and does not navigate. |
| Publication.StateChangesOnlyOnFailure | src/screens/SharedRecordsScreen.js:151-191 | The handler changes the state only by showing the error modal. It navigates only when keys exist. |

## Left out

- `getIPFSProvider` is the constant `Store.IpfsProvider`. It needs no contract.
- AsyncStorage, JSON text encoding, IPFS networking and PEM/key cryptography are external primitives. Their results are inputs.
- A failed `setItem` is assumed to store nothing.
- Top-level JSON strings in storage are not modelled. Spreading a non-empty string splits it into characters, which are not records.
- JSON numbers are whole numbers. Arrays hold only records with a string `id`. Elements of other shapes are not modelled.
- `STORE_KEY` comes from `src/utilities/constants`, which is not part of this model. The namespace is a parameter.
- `importHelpers.groupByContact`, `applySharedRecordUpdates` and `qrCodeRecordHelper` are not part of this model. Grouping is a function parameter. The helper's result is an oracle reply. So no dedup or merge-idempotence claim is made about them.
- The store functions `contacts`, `sharedRecords`, `externalRecords`, `sharedPublickKey`, `setSharedPublicKey` and `mySharedInfo` are oracles; their code is not part of this model.
- Each oracle reply is fixed for a run, so the IPFS reply does not depend on the PEM passed in.
- `groupByContact` is a total function parameter. In the program a throw inside it would skip the `setState` and leave the state unchanged; that path is not modelled.
- `mergeContacts` assigns `this.state` directly, and `mapStateToProps` is redux wiring. Both are framework plumbing and are left out.
- Rendering, alert text and layout, navigation internals, and the `loading`/`creatingSharedKey` render branches are left out.
- The navigation's title, subtitle and share-message strings are left out. A throwing `navigate` call is not modelled.
- The `console.log` in the handler's `catch` only writes a diagnostic and is not modelled.
- The `nextFrame` yields only keep the UI responsive. They do not change the outcome.
- Overlapping `addRecord`/`removeRecord` calls can lose updates. That depends on the host's async interleaving; the model is sequential.
- `src/screens/ProfileScreen.js` is left out. It only copies two store getters into component state for display.
