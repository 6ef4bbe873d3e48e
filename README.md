# Document identity and revision history (AbiWord `AD_Document`)

A Dafny model of the part of AbiWord's application-framework document,
`AD_Document` and `AD_VersionData`, that manages a document's identity and history:

- the document UUID;
- the history ledger of version records: one per auto-revisioning toggle, per first save and per
  save under auto-revisioning, while any other save folds into the last record;
- the revision table of change-tracking revisions;
- the counters and flags that tie these together: version, current revision id, shown revision id,
  history-was-saved, auto-revisioning, mark/show revisions, forced-dirty.

Layout:

- `basics.dfy` (module `Basics`): `UT_uint32` as `u32` with explicit wrap-around (`Inc32`) and
  truncation (`Trunc32`), `Option`, and the abstract UUID. A UUID is a value compared by equality
  that carries its creation time. `NullUuid` is the null UUID, and also a missing UUID object.
- `version_data.dfy` (module `VersionRecords`): `AD_VersionData` as a value type. It holds the
  constructors for new and imported entries, `operator==`, `getTime`, `newUID` and edit time.
- `revision_table.dfy` (module `RevisionTable`): `AD_Revision` and the functions that say what the
  table scans compute: largest id, first record at a version, first record above a version, and the
  longest prefix below a version.
- `document_model.dfy` (module `DocumentModel`): a value snapshot `DocState` of the document's
  fields. Each operation is a transition function on it. The lemmas state what the transitions
  guarantee, and `Invariant` is the document invariant: distinct revision ids, and a saved history
  is never empty.
- `document.dfy` (module `Documents`): class `Document` with the source's fields. Each method that
  changes the model state is proved to perform a `DocumentModel` transition. `MakeAutoRevision`
  performs `AutoRevision`, `AddRevisionBounded` performs `AddRevision`, `ToggleMarkRevisions` and
  `ToggleShowRevisions` perform `SetMarkRevisions` and `SetShowRevisions`, and every other such
  method performs the transition of the same name. All of them except `ForceDirty` also keep
  `Valid()`. `Ref` and `Unref` change only the reference count. The revision-table queries are the
  source's loops, proved against the `RevisionTable` functions; `AreDocumentHistoriesEqual` is
  proved against `DocumentModel.HistoriesEqual`.

Inputs the source reads from its environment are parameters: the wall clock (`time(NULL)`) and
each UUID the generator creates or a record's UUID regenerates (`minted`). Where
`_adjustHistoryOnSave` reads the clock twice, there are two time parameters.

Some of what the code does is not what its comments and names suggest; the model follows the code:

- The constructor for new entries replaces the start time it is given with the new UUID's time
  (xad_Document.cpp:622), although the comment at xad_Document.cpp:572-574 says the first save
  records the open time as the start time. So a first save records the save time as the start time, not the open
  time, and a new entry's edit time is 0 (`FirstSaveStartsAtSaveTime`).
- `setAutoRevisioning(false)` is not just a flag flip. It bumps the version, appends a history
  record and switches revision marking off (`SetAutoRevisioningOff`).
- `m_iRevisionID` starts at 1, so the first automatic revision gets id 2, not 1
  (`SessionScenario`). If that id is already taken, `addRevision` rejects the revision, but the
  current revision id has already moved on (`AutoRevisionSpec`).
- `getHighestRevision` returns null when the table is empty and also when every id is 0.
- `areDocumentsRelated` dereferences a null pointer when neither document has a UUID. The model
  excludes that case by a precondition; it does not return false there.
- When the string set is missing, `setAutoRevisioning(true)` returns after the version bump, the
  history append and the store of the new flag value (xad_Document.cpp:473-477). It then skips the
  revision, the shown-id change and `setMarkRevisions` (494). `_adjustHistoryOnSave` likewise returns
  after its history update and skips the revision. That is a partial update, not a failure that
  leaves the state untouched.

## Model

| member | source | states |
|---|---|---|
| Basics.Inc32 | src/af/xap/xp/xad_Document.cpp:568 | the version and revision-id increments are unsigned 32-bit: the result is (x+1) mod 2^32, and it is larger than x below the maximum |
| Basics.Trunc32 | src/af/xap/xp/xad_Document.cpp:245-249 | the edit-time difference returned as UT_uint32 equals the difference when it is in range and agrees with it mod 2^32 otherwise |
| VersionRecords.NewEntry | src/af/xap/xp/xad_Document.cpp:614-623 | a new record gets the given id and flag and the minted UUID; its start time is the UUID's time (edit time 0); without a generator it keeps the passed start time and has no UUID |
| VersionRecords.Imported | src/af/xap/xp/xad_Document.cpp:627-645 | an imported record keeps exactly the id, parsed UUID, start time and flag it was built from (the UUID string is abstracted to its value, so this is field preservation, not the string round trip) |
| VersionRecords.ImportExportRoundTrip | src/af/xap/xp/xad_Document.cpp:627-645 | rebuilding a record from its exported fields, the UUID taken as a value, yields that record; the UUID string round trip is not modelled |
| VersionRecords.SameIsEquality | src/af/xap/xp/xad_Document.cpp:670-674 | operator== (equal id, start, UUID and flag) holds exactly when the records are equal |
| VersionRecords.NewUid | src/af/xap/xp/xad_Document.cpp:690-696 | newUID changes only the UUID, to the regenerated one; a record without a UUID, or a regeneration that produces nothing, leaves the record unchanged; a present UUID is never removed |
| VersionRecords.NewUidGrowsEditTime | src/af/xap/xp/xad_Document.cpp:589-594 | regenerating the UUID later raises the edit time by exactly the time elapsed since the previous save |
| VersionRecords.Time | src/af/xap/xp/xad_Document.cpp:682-688 | getTime: the UUID's time, 0 without a UUID; its properties are `NewEntry`'s ensures and `NewUidGrowsEditTime` |
| VersionRecords.EditTime | src/af/xap/xp/xad_Document.cpp:245-249 | the save time minus the start time of a record; its properties are `NewEntry`'s ensures, `NewUidGrowsEditTime` and `FirstSaveStartsAtSaveTime` |
| VersionRecords.Same | src/af/xap/xp/xad_Document.cpp:670-674 | operator==; its property is `SameIsEquality` |
| DocumentModel.Initial | src/af/xap/xp/xad_Document.cpp:41-72 | the state after construction; its properties are `ManualSavesFromNewDocument` and `SessionScenario` |
| DocumentModel.PurgeHistory | src/af/xap/xp/xad_Document.cpp:155-159 | the transition; its property is `PurgeHistorySpec` |
| DocumentModel.AddRecordToHistory | src/af/xap/xp/xad_Document.cpp:165-170 | the transition; its property is `AddRecordToHistoryKeepsInvariant` |
| DocumentModel.AddRevision | src/af/xap/xp/xad_Document.cpp:367-382 | the transition; its properties are `AddRevisionSpec` and `AddRevisionKeepsIdsDistinct` |
| DocumentModel.PurgeRevisionTable | src/af/xap/xp/xad_Document.cpp:412-416 | the transition; its property is `PurgeRevisionTableSpec` |
| DocumentModel.SetMarkRevisions | src/af/xap/xp/xad_Document.cpp:418-425 | the transition; its properties are `FlagSettersDirtyOnlyOnChange` and `TogglingTwiceRestores` |
| DocumentModel.SetShowRevisions | src/af/xap/xp/xad_Document.cpp:432-439 | the transition; its properties are `FlagSettersDirtyOnlyOnChange` and `TogglingTwiceRestores` |
| DocumentModel.SetShowRevisionId | src/af/xap/xp/xad_Document.cpp:446-453 | the transition; its property is `FlagSettersDirtyOnlyOnChange` |
| DocumentModel.SetRevisionId | src/af/xap/xp/xad_Document.cpp:455-463 | the transition; its property is `FlagSettersDirtyOnlyOnChange` |
| DocumentModel.AutoRevision | src/af/xap/xp/xad_Document.cpp:482-488 | the automatic-revision block shared with 600-606; its property is `AutoRevisionSpec` |
| DocumentModel.SetAutoRevisioning | src/af/xap/xp/xad_Document.cpp:465-496 | the transition; its properties are `SetAutoRevisioningUnchangedIsNoop`, `SetAutoRevisioningOn` and `SetAutoRevisioningOff` |
| DocumentModel.AdjustHistoryOnSave | src/af/xap/xp/xad_Document.cpp:564-608 | the transition; its properties are `SaveBumpsVersion`, `SaveAppendsEntry`, `FirstSaveStartsAtSaveTime`, `SaveCollapsesIntoLastEntry`, `ManualSavesKeepCount` and `SessionScenario` |
| DocumentModel.SameHistory | src/af/xap/xp/xad_Document.cpp:291-302 | the record-by-record comparison; its property is `SameHistoryIsEquality` |
| DocumentModel.HistoriesEqual | src/af/xap/xp/xad_Document.cpp:283-305 | areDocumentHistoriesEqual on states; its property is `HistoriesEqualProperties` |
| RevisionTable.MaxId | src/af/xap/xp/xad_Document.cpp:335-345 | bounds every id in the table, is attained by some record, and is 0 for an empty table |
| RevisionTable.LesserPrefix | src/af/xap/xp/xad_Document.cpp:535-541 | the length of the longest prefix whose versions are all below v: every record before it is below v, the record at it is not |
| RevisionTable.FirstAtVersion | src/af/xap/xp/xad_Document.cpp:504-511 | the position of the first record at version v, or the table length when none is |
| RevisionTable.FirstAboveVersion | src/af/xap/xp/xad_Document.cpp:542-546 | the position of the first record (insertion order) above version v, or the table length when none is |
| RevisionTable.LesserPrefixIsAllLesser | src/af/xap/xp/xad_Document.cpp:535-541 | when versions ascend in insertion order, a record is below v exactly when it lies in the scanned prefix |
| RevisionTable.LesserPrefixStopsAtFirstNotLesser | src/af/xap/xp/xad_Document.cpp:535-541 | without ascending versions the scan stops early and misses a later record below v |
| RevisionTable.FirstGreaterIsSmallestGreater | src/af/xap/xp/xad_Document.cpp:542-546 | when versions ascend, the first record above v has the smallest version above v |
| RevisionTable.Prefix | src/af/xap/xp/xad_Document.cpp:397-402 | the bounded copy of a description is a prefix of it, of length min(iLen, length) |
| DocumentModel.AddRevisionKeepsIdsDistinct | src/af/xap/xp/xad_Document.cpp:367-382 | appending a revision whose id is not in the table keeps ids pairwise distinct |
| DocumentModel.AddRevisionSpec | src/af/xap/xp/xad_Document.cpp:367-382 | a taken id changes nothing; otherwise exactly the new record is appended after the untouched old ones, its id becomes current and the document is dirty; the invariant holds after |
| DocumentModel.PurgeRevisionTableSpec | src/af/xap/xp/xad_Document.cpp:412-416 | purging empties the table (highest id 0), changes nothing else and keeps the invariant |
| DocumentModel.PurgeHistorySpec | src/af/xap/xp/xad_Document.cpp:155-159 | purging empties the history, clears historyWasSaved and keeps the invariant |
| DocumentModel.AddRecordToHistoryKeepsInvariant | src/af/xap/xp/xad_Document.cpp:165-170 | adding a record appends exactly it after the untouched old entries, changes nothing else and keeps the invariant |
| DocumentModel.FlagSettersDirtyOnlyOnChange | src/af/xap/xp/xad_Document.cpp:418-463 | mark/show/show-id setters store the value and set forcedDirty exactly when it changes; setRevisionId never touches forcedDirty |
| DocumentModel.TogglingTwiceRestores | src/af/xap/xp/xad_Document.cpp:427-444 | toggling mark or show revisions twice restores the flag, and a single mark toggle or show toggle always dirties the document |
| DocumentModel.AutoRevisionSpec | src/af/xap/xp/xad_Document.cpp:482-488 | the automatic revision takes id current+1 in any case and is appended (labelled, at the current version, dirty) only when that id is free |
| DocumentModel.SetAutoRevisioningUnchangedIsNoop | src/af/xap/xp/xad_Document.cpp:465-467 | setting auto-revisioning to its current value changes nothing |
| DocumentModel.SetAutoRevisioningOn | src/af/xap/xp/xad_Document.cpp:465-496 | turning it on bumps the version, appends one auto-tagged record, sets the flag and marking, takes the next revision id, adds the revision at the new version when the id is free, and sets the shown revision id to 0xffffffff (collapse all revisions); it dirties the document exactly when it was dirty, the revision was added, the shown id changed or marking was off; nothing else changes |
| DocumentModel.SetAutoRevisioningOff | src/af/xap/xp/xad_Document.cpp:465-496 | turning it off also bumps the version and appends one untagged record, and clears the flag and marking; the revision table, revision id and shown id stay; nothing else changes |
| DocumentModel.SaveBumpsVersion | src/af/xap/xp/xad_Document.cpp:564-568 | every save increments the version by one (mod 2^32) and keeps the UUID and the auto flag |
| DocumentModel.SaveAppendsEntry | src/af/xap/xp/xad_Document.cpp:564-607 | a first save, or a save under auto-revisioning, appends one record with the new version as id, records its save time and sets historyWasSaved; under auto-revisioning it also adds the revision at the new version and then leaves the document dirty when the revision was added; marking, showing, shown id, open time and the UUID are untouched |
| DocumentModel.FirstSaveStartsAtSaveTime | src/af/xap/xp/xad_Document.cpp:570-582 | the first save's record starts at the minted UUID's time, not at the open time, so its edit time is 0 |
| DocumentModel.SaveCollapsesIntoLastEntry | src/af/xap/xp/xad_Document.cpp:583-595 | a later manual save keeps the history length and earlier entries, sets the last entry's id to the new version, regenerates its UUID only (never removing one), and changes nothing but the version, the history and the last-saved time |
| DocumentModel.ManualSavesKeepCount | src/af/xap/xp/xad_Document.cpp:583-595 | any run of manual saves after the first keeps the history length and all but the last entry, whose id follows the version |
| DocumentModel.ManualSavesFromNewDocument | src/af/xap/xp/xad_Document.cpp:564-595 | N >= 1 manual saves of a new document leave exactly one history entry, whose id is the current version |
| DocumentModel.Related | src/af/xap/xp/xad_Document.cpp:271-277 | related exactly when both UUIDs are present and equal |
| DocumentModel.RelatedIsSymmetric | src/af/xap/xp/xad_Document.cpp:271-277 | relatedness does not depend on which document asks |
| DocumentModel.SameHistoryIsEquality | src/af/xap/xp/xad_Document.cpp:291-302 | position-by-position comparison of histories with equal length is history equality |
| DocumentModel.HistoriesEqualProperties | src/af/xap/xp/xad_Document.cpp:283-305 | equal histories imply related documents and identical ledgers; the comparison is symmetric |
| DocumentModel.SessionScenario | src/af/xap/xp/xad_Document.cpp:564-607 | open, save, save, enable auto-revisioning: one entry with id 2 after the saves, then a second auto-tagged entry with id 3, revision 2 at version 3, shown revision id set to 0xffffffff (collapse all revisions) |
| Documents.Document.constructor | src/af/xap/xp/xad_Document.cpp:41-72 | the initial state: version 0, revision id 1, shown id 0, show revisions on, every other flag off, empty history and table, one reference |
| Documents.Document.Ref | src/af/xap/xp/xad_Document.cpp:111-116 | adds one reference and changes nothing else |
| Documents.Document.Unref | src/af/xap/xp/xad_Document.cpp:119-127 | drops one reference and reports the last one gone when the count reaches 0 |
| Documents.Document.PurgeHistory | src/af/xap/xp/xad_Document.cpp:155-159 | empties the history and clears historyWasSaved, nothing else |
| Documents.Document.AddRecordToHistory | src/af/xap/xp/xad_Document.cpp:165-170 | appends the record, nothing else |
| Documents.Document.HistoryNthId | src/af/xap/xp/xad_Document.cpp:175-186 | the i-th id, 0 when the history is empty or i is out of range |
| Documents.Document.HistoryNthTime | src/af/xap/xp/xad_Document.cpp:192-203 | the i-th save time, 0 when there is no such record |
| Documents.Document.HistoryNthTimeStarted | src/af/xap/xp/xad_Document.cpp:205-216 | the i-th start time, 0 when there is no such record |
| Documents.Document.HistoryNthAutoRevisioned | src/af/xap/xp/xad_Document.cpp:218-229 | the i-th auto flag, false when there is no such record |
| Documents.Document.HistoryNthEditTime | src/af/xap/xp/xad_Document.cpp:235-250 | the i-th edit time when it fits 32 bits, and that edit time mod 2^32 otherwise; 0 when there is no such record or the document has no UUID |
| Documents.Document.HistoryNthUid | src/af/xap/xp/xad_Document.cpp:255-266 | the i-th record's UUID, the null UUID when there is no such record |
| Documents.Document.AreDocumentsRelated | src/af/xap/xp/xad_Document.cpp:271-277 | false when exactly one document has a UUID, otherwise UUID equality |
| Documents.DocumentsRelatedIsSymmetric | src/af/xap/xp/xad_Document.cpp:271-277 | a.AreDocumentsRelated(b) equals b.AreDocumentsRelated(a) |
| Documents.Document.AreDocumentHistoriesEqual | src/af/xap/xp/xad_Document.cpp:283-305 | true exactly when the UUIDs are equal, the lengths are equal and the records agree by position (equivalently, the ledgers are equal) |
| Documents.Document.HighestRevisionId | src/af/xap/xp/xad_Document.cpp:335-345 | the maximum id of the table, 0 when empty |
| Documents.Document.HighestRevision | src/af/xap/xp/xad_Document.cpp:347-365 | none exactly when the largest id is 0; otherwise a record of the table with the largest id, every earlier record having a smaller id |
| Documents.Document.AddRevision | src/af/xap/xp/xad_Document.cpp:367-382 | reports whether the id was free and performs AddRevision on the state, keeping ids distinct |
| Documents.Document.AddRevisionBounded | src/af/xap/xp/xad_Document.cpp:384-410 | as AddRevision, with the description cut to its first iLen characters |
| Documents.Document.PurgeRevisionTable | src/af/xap/xp/xad_Document.cpp:412-416 | empties the table, nothing else |
| Documents.Document.FindAutoRevisionId | src/af/xap/xp/xad_Document.cpp:502-517 | the id of the first revision at version v, 0 when none is |
| Documents.Document.FindNearestAutoRevisionId | src/af/xap/xp/xad_Document.cpp:526-557 | lesser: the id of the last record of the longest prefix below v (0 if that prefix is empty); greater: the id of the first record above v in insertion order, 0 if none |
| Documents.Document.SetMarkRevisions | src/af/xap/xp/xad_Document.cpp:418-425 | sets the flag, dirty only on change |
| Documents.Document.ToggleMarkRevisions | src/af/xap/xp/xad_Document.cpp:427-430 | negates the flag and dirties the document |
| Documents.Document.SetShowRevisions | src/af/xap/xp/xad_Document.cpp:432-439 | sets the flag, dirty only on change |
| Documents.Document.ToggleShowRevisions | src/af/xap/xp/xad_Document.cpp:441-444 | negates the flag and dirties the document |
| Documents.Document.SetShowRevisionId | src/af/xap/xp/xad_Document.cpp:446-453 | sets the shown id, dirty only on change |
| Documents.Document.SetRevisionId | src/af/xap/xp/xad_Document.cpp:455-463 | sets the current revision id and never changes forcedDirty |
| Documents.Document.MakeAutoRevision | src/af/xap/xp/xad_Document.cpp:600-606 | performs AutoRevision: next revision id, labelled revision at the current version when that id is free |
| Documents.Document.SetAutoRevisioning | src/af/xap/xp/xad_Document.cpp:465-496 | performs the SetAutoRevisioning transition (see the On/Off lemmas) and keeps the invariant |
| Documents.Document.AdjustHistoryOnSave | src/af/xap/xp/xad_Document.cpp:564-608 | performs the AdjustHistoryOnSave transition (see the Save lemmas) and keeps the invariant |

## Left out

- Clock and UUID generation: `time(NULL)`, the generator's `createUUID`, `UT_UUID::makeUUID` and the thin wrappers
  `getNewUUID`, `getNewUUID32` and `getNewUUID64` (xad_Document.cpp:89-108) are not modelled.
  Their results are parameters, and the generator's internals are outside the model.
- UUID strings are not modelled: `getDocUUIDString` (static buffer), `setDocUUID` and the parsing
  inside the importer constructors. The importer constructors take the parsed UUID value.
- Auto-revision label: the string-set lookup is the constant `AUTO_REVISION_LABEL`, and the string
  set is assumed present. The early return when it is missing (xad_Document.cpp:483, 601) is not
  modelled.
- Memory management is not modelled: `delete this`, the destructor and `UT_VECTOR_PURGEALL`. Only
  the reference counter is kept.
- Copying: the copy constructor and `operator=` are value copies. The copy constructor's early
  return for a record without a UUID (start time left uninitialised) is not modelled.
- `VersionRecords.NewUid` does not return `newUID`'s success flag. It is the result of `makeUUID`
  called on the record's own `UT_UUID` (xad_Document.cpp:695), and the only caller ignores it. A
  `minted` of `NullUuid` stands for a regeneration that produced nothing; the UUID is then kept.
- `Documents.Document.AreDocumentsRelated` and `Documents.Document.AreDocumentHistoriesEqual`
  require that the two documents do not both lack a UUID. The source dereferences a null pointer
  there, so those calls have no defined result.
- `operator==` on records without UUIDs dereferences null pointers in the source. Here two missing
  UUIDs compare equal.
- `forceDirty`, `getHistoryCount` and `getRevisionId` are defined in the class header, which is not
  part of this model. They are modelled as setting `m_bForcedDirty`, the ledger length, and reading
  `m_iRevisionID`.
- Times are unbounded integers; `time_t` overflow is not modelled.
- The UCS-4 description copy is the sequence prefix `Prefix`. A description is its characters
  without the terminator, and reading past the terminator is not modelled.
- Unrelated members of the same file are left out because they are not part of the identity logic:
  `isPieceTableChanging`, `getFilename`, `setEncodingName`/`getEncodingName`, the resource manager
  and `m_iEditTime`.
- The ledger ids are not proved strictly increasing. Importers and the wrap-around of the 32-bit
  version can break that, and the code does not enforce it.
