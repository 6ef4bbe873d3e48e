/**
 * The state of an AD_Document that the identity and revision-history logic
 * touches, as a value, and each of the document's operations as a function
 * from the old state to the new one. The class in Documents keeps these
 * fields and its methods are proved to perform exactly these transitions;
 * the lemmas below state what the transitions guarantee.
 */
module DocumentModel {
  import opened Basics
  import opened VersionRecords
  import opened RevisionTable

  /**
   * The m_iShowRevisionID value setAutoRevisioning(true) stores, which the
   * source calls collapsing all revisions (0, the initial value, means show all).
   */
  const COLLAPSE_ALL_REVISIONS: u32 := 0xffff_ffff

  /**
   * The localised "auto revision" description (XAP_STRING_ID_MSG_AutoRevision);
   * its text belongs to the string set, so any fixed label will do.
   */
  const AUTO_REVISION_LABEL: seq<Ucs4Char> := [0x41, 0x75, 0x74, 0x6f, 0x72, 0x65, 0x76, 0x69, 0x73, 0x69, 0x6f, 0x6e]

  datatype DocState = DocState(
    uuid: Uuid,
    lastSavedTime: int,
    lastOpenedTime: int,
    version: u32,
    historyWasSaved: bool,
    markRevisions: bool,
    showRevisions: bool,
    revisionId: u32,
    showRevisionId: u32,
    autoRevisioning: bool,
    forcedDirty: bool,
    history: seq<VersionData>,
    revisions: seq<Revision>)

  /**
   * What every operation keeps: revision ids are pairwise distinct, and a
   * history that has been saved is not empty (so the collapse branch of a
   * save always has a last entry to update).
   */
  predicate Invariant(s: DocState)
  {
    DistinctIds(s.revisions) && (s.historyWasSaved ==> |s.history| > 0)
  }

  /** The state right after construction, opened at openTime with the document UUID docUuid. */
  function Initial(openTime: int, docUuid: Uuid): DocState
  {
    DocState(docUuid, 0, openTime, 0, false, false, true, 1, 0, false, false, [], [])
  }

  function ForceDirty(s: DocState): DocState
  {
    s.(forcedDirty := true)
  }

  function PurgeHistory(s: DocState): DocState
  {
    s.(history := [], historyWasSaved := false)
  }

  function AddRecordToHistory(s: DocState, v: VersionData): DocState
  {
    s.(history := s.history + [v])
  }

  function PurgeRevisionTable(s: DocState): DocState
  {
    s.(revisions := [])
  }

  /** addRevision: rejected when the id is taken, otherwise appended, made current and marked dirty. */
  function AddRevision(s: DocState, rev: Revision): DocState
  {
    if HasId(s.revisions, rev.id) then s
    else ForceDirty(s.(revisions := s.revisions + [rev], revisionId := rev.id))
  }

  function SetMarkRevisions(s: DocState, b: bool): DocState
  {
    if s.markRevisions != b then ForceDirty(s.(markRevisions := b)) else s
  }

  function SetShowRevisions(s: DocState, b: bool): DocState
  {
    if s.showRevisions != b then ForceDirty(s.(showRevisions := b)) else s
  }

  function SetShowRevisionId(s: DocState, id: u32): DocState
  {
    if id != s.showRevisionId then ForceDirty(s.(showRevisionId := id)) else s
  }

  /** setRevisionId: the current revision id is not persistent, so the document does not get dirty. */
  function SetRevisionId(s: DocState, id: u32): DocState
  {
    if id != s.revisionId then s.(revisionId := id) else s
  }

  /** The automatic revision both setAutoRevisioning(true) and an auto-revisioned save create. */
  function AutoRevision(s: DocState, t: int): DocState
  {
    var id := Inc32(s.revisionId);
    var desc := Prefix(AUTO_REVISION_LABEL, |AUTO_REVISION_LABEL|);
    AddRevision(SetRevisionId(s, id), Revision(id, Some(desc), t, s.version))
  }

  /** setAutoRevisioning(b) with the clock reading t and a newly minted UUID. */
  function SetAutoRevisioning(s: DocState, b: bool, t: int, minted: Uuid): DocState
  {
    if b == s.autoRevisioning then s
    else
      var ver := Inc32(s.version);
      var s1 := AddRecordToHistory(s.(version := ver), NewEntry(ver, t, b, minted)).(autoRevisioning := b);
      var s2 := if b then SetShowRevisionId(AutoRevision(s1, t), COLLAPSE_ALL_REVISIONS) else s1;
      SetMarkRevisions(s2, b)
  }

  /**
   * _adjustHistoryOnSave with a newly minted UUID, the clock reading tNow
   * taken for the history entry and tRevision taken for the auto revision.
   */
  function AdjustHistoryOnSave(s: DocState, minted: Uuid, tNow: int, tRevision: int): DocState
  {
    var ver := Inc32(s.version);
    var s0 := s.(version := ver);
    if !s.historyWasSaved || s.autoRevisioning then
      var t := if !s.historyWasSaved then s.lastOpenedTime else tNow;
      var v := NewEntry(ver, t, s.autoRevisioning, minted);
      var s1 := AddRecordToHistory(s0.(lastSavedTime := Time(v)), v).(historyWasSaved := true);
      if s.autoRevisioning then AutoRevision(s1, tRevision) else s1
    else if |s.history| == 0 then
      s0
    else
      var n := |s.history|;
      var v := NewUid(s.history[n - 1].(id := ver), minted);
      s0.(history := s.history[..n - 1] + [v], lastSavedTime := Time(v))
  }

  //////////////////////////////////////////////////////////////////
  // The revision table

  lemma AddRevisionKeepsIdsDistinct(revs: seq<Revision>, rev: Revision)
    requires DistinctIds(revs) && !HasId(revs, rev.id)
    ensures DistinctIds(revs + [rev])
  {
  }

  /**
   * addRevision with a taken id changes nothing; otherwise it appends
   * exactly the new record after the untouched old ones, makes its id the
   * current revision id and marks the document dirty. Either way the ids
   * stay distinct.
   */
  lemma AddRevisionSpec(s: DocState, rev: Revision)
    requires Invariant(s)
    ensures var r := AddRevision(s, rev);
      && Invariant(r)
      && (HasId(s.revisions, rev.id) ==> r == s)
      && (!HasId(s.revisions, rev.id) ==>
            && r.revisions == s.revisions + [rev]
            && r.revisionId == rev.id
            && r.forcedDirty
            && r == s.(revisions := r.revisions, revisionId := rev.id, forcedDirty := true))
      && HasId(r.revisions, rev.id)
  {
    if !HasId(s.revisions, rev.id) {
      AddRevisionKeepsIdsDistinct(s.revisions, rev);
      var r := s.revisions + [rev];
      assert r[|s.revisions|].id == rev.id;
    }
  }

  lemma PurgeRevisionTableSpec(s: DocState)
    requires Invariant(s)
    ensures Invariant(PurgeRevisionTable(s)) && MaxId(PurgeRevisionTable(s).revisions) == 0
    ensures PurgeRevisionTable(s) == s.(revisions := [])
  {
  }

  //////////////////////////////////////////////////////////////////
  // The history ledger

  lemma PurgeHistorySpec(s: DocState)
    requires Invariant(s)
    ensures var r := PurgeHistory(s); Invariant(r) && r.history == [] && !r.historyWasSaved
  {
  }

  lemma AddRecordToHistoryKeepsInvariant(s: DocState, v: VersionData)
    requires Invariant(s)
    ensures var r := AddRecordToHistory(s, v);
      Invariant(r) && |r.history| == |s.history| + 1 && r.history[|s.history|] == v
    ensures AddRecordToHistory(s, v) == s.(history := s.history + [v])
  {
  }

  //////////////////////////////////////////////////////////////////
  // Flag setters

  /** Each setter stores its value and marks the document dirty exactly when the value changes. */
  lemma FlagSettersDirtyOnlyOnChange(s: DocState, b: bool, id: u32)
    ensures SetMarkRevisions(s, b) == s.(markRevisions := b, forcedDirty := s.forcedDirty || s.markRevisions != b)
    ensures SetShowRevisions(s, b) == s.(showRevisions := b, forcedDirty := s.forcedDirty || s.showRevisions != b)
    ensures SetShowRevisionId(s, id) == s.(showRevisionId := id, forcedDirty := s.forcedDirty || s.showRevisionId != id)
    ensures SetRevisionId(s, id) == s.(revisionId := id)
  {
  }

  /** toggleMarkRevisions / toggleShowRevisions applied twice restore the flag. */
  lemma TogglingTwiceRestores(s: DocState)
    ensures var t := SetMarkRevisions(s, !s.markRevisions);
      SetMarkRevisions(t, !t.markRevisions).markRevisions == s.markRevisions
    ensures var t := SetShowRevisions(s, !s.showRevisions);
      SetShowRevisions(t, !t.showRevisions).showRevisions == s.showRevisions
    ensures var t := SetMarkRevisions(s, !s.markRevisions); t.forcedDirty
    ensures var t := SetShowRevisions(s, !s.showRevisions); t.forcedDirty
  {
  }

  //////////////////////////////////////////////////////////////////
  // The automatic revision

  /**
   * An automatic revision takes the id after the current one, whether or
   * not that id is free; the record (at the current version, with the
   * label) is added only when the id is free.
   */
  lemma AutoRevisionSpec(s: DocState, t: int)
    requires Invariant(s)
    ensures var r := AutoRevision(s, t);
      var id := Inc32(s.revisionId);
      && Invariant(r)
      && r.revisionId == id
      && (HasId(s.revisions, id) ==> r == s.(revisionId := id))
      && (!HasId(s.revisions, id) ==>
            r == s.(revisionId := id, forcedDirty := true,
                    revisions := s.revisions + [Revision(id, Some(AUTO_REVISION_LABEL), t, s.version)]))
  {
    var id := Inc32(s.revisionId);
    var s1 := SetRevisionId(s, id);
    assert s1 == s.(revisionId := id);
    assert Prefix(AUTO_REVISION_LABEL, |AUTO_REVISION_LABEL|) == AUTO_REVISION_LABEL;
    AddRevisionSpec(s1, Revision(id, Some(AUTO_REVISION_LABEL), t, s.version));
  }

  //////////////////////////////////////////////////////////////////
  // Auto-revisioning toggle

  lemma SetAutoRevisioningUnchangedIsNoop(s: DocState, t: int, minted: Uuid)
    ensures SetAutoRevisioning(s, s.autoRevisioning, t, minted) == s
  {
  }

  /**
   * Turning auto-revisioning on bumps the version, appends one history
   * record tagged auto, takes the next revision id, adds the automatic
   * revision at the new version when that id is free, collapses the view
   * (shown id 0xffffffff) and switches revision marking on.
   */
  lemma SetAutoRevisioningOn(s: DocState, t: int, minted: Uuid)
    requires Invariant(s) && !s.autoRevisioning
    ensures var r := SetAutoRevisioning(s, true, t, minted);
      var ver := Inc32(s.version);
      var id := Inc32(s.revisionId);
      && Invariant(r)
      && r.version == ver
      && r.history == s.history + [NewEntry(ver, t, true, minted)]
      && r.history[|s.history|].autoRevision
      && r.autoRevisioning && r.markRevisions
      && r.revisionId == id
      && r.showRevisionId == COLLAPSE_ALL_REVISIONS
      && r.revisions == (if HasId(s.revisions, id) then s.revisions
                         else s.revisions + [Revision(id, Some(AUTO_REVISION_LABEL), t, ver)])
      && r.historyWasSaved == s.historyWasSaved
      && r.showRevisions == s.showRevisions
      && r.uuid == s.uuid && r.lastSavedTime == s.lastSavedTime
      && r.forcedDirty == (s.forcedDirty || !HasId(s.revisions, id)
                           || s.showRevisionId != COLLAPSE_ALL_REVISIONS || !s.markRevisions)
      && r == s.(version := ver, history := r.history, autoRevisioning := true, markRevisions := true,
                 revisionId := id, showRevisionId := COLLAPSE_ALL_REVISIONS, revisions := r.revisions,
                 forcedDirty := r.forcedDirty)
  {
    var ver := Inc32(s.version);
    var s1 := AddRecordToHistory(s.(version := ver), NewEntry(ver, t, true, minted)).(autoRevisioning := true);
    assert Invariant(s1);
    AutoRevisionSpec(s1, t);
  }

  /**
   * Turning auto-revisioning off is more than a flag flip: it also bumps
   * the version, appends a history record (not tagged auto) and switches
   * revision marking off, leaving the revision table alone.
   */
  lemma SetAutoRevisioningOff(s: DocState, t: int, minted: Uuid)
    requires Invariant(s) && s.autoRevisioning
    ensures var r := SetAutoRevisioning(s, false, t, minted);
      var ver := Inc32(s.version);
      && Invariant(r)
      && r.version == ver
      && r.history == s.history + [NewEntry(ver, t, false, minted)]
      && !r.history[|s.history|].autoRevision
      && !r.autoRevisioning && !r.markRevisions
      && r.revisions == s.revisions
      && r.revisionId == s.revisionId
      && r.showRevisionId == s.showRevisionId
      && r.forcedDirty == (s.forcedDirty || s.markRevisions)
      && r == s.(version := ver, history := r.history, autoRevisioning := false, markRevisions := false,
                 forcedDirty := r.forcedDirty)
  {
  }

  //////////////////////////////////////////////////////////////////
  // Save-time history adjustment

  lemma SaveBumpsVersion(s: DocState, minted: Uuid, tNow: int, tRevision: int)
    ensures var r := AdjustHistoryOnSave(s, minted, tNow, tRevision);
      r.version == Inc32(s.version) && (s.version < MAX_U32 ==> r.version == s.version + 1)
      && r.uuid == s.uuid && r.autoRevisioning == s.autoRevisioning
  {
  }

  /**
   * On the first save, or with auto-revisioning on, a save appends one new
   * record whose id is the new version, remembers its save time and sets
   * historyWasSaved; with auto-revisioning on it also adds the automatic
   * revision at the new version.
   */
  lemma SaveAppendsEntry(s: DocState, minted: Uuid, tNow: int, tRevision: int)
    requires Invariant(s) && (!s.historyWasSaved || s.autoRevisioning)
    ensures var r := AdjustHistoryOnSave(s, minted, tNow, tRevision);
      var ver := Inc32(s.version);
      var v := NewEntry(ver, if !s.historyWasSaved then s.lastOpenedTime else tNow, s.autoRevisioning, minted);
      && Invariant(r)
      && r.version == ver
      && r.history == s.history + [v]
      && r.history[|s.history|].id == r.version
      && r.history[|s.history|].autoRevision == s.autoRevisioning
      && r.historyWasSaved
      && r.lastSavedTime == Time(v)
      && (!s.autoRevisioning ==> r.revisions == s.revisions && r.revisionId == s.revisionId)
      && (s.autoRevisioning ==>
            var id := Inc32(s.revisionId);
            && r.revisionId == id
            && r.revisions == (if HasId(s.revisions, id) then s.revisions
                               else s.revisions + [Revision(id, Some(AUTO_REVISION_LABEL), tRevision, ver)]))
      && r.forcedDirty == (s.forcedDirty || (s.autoRevisioning && !HasId(s.revisions, Inc32(s.revisionId))))
      && r == s.(version := ver, history := r.history, historyWasSaved := true, lastSavedTime := Time(v),
                 revisionId := r.revisionId, revisions := r.revisions, forcedDirty := r.forcedDirty)
  {
    var ver := Inc32(s.version);
    var v := NewEntry(ver, if !s.historyWasSaved then s.lastOpenedTime else tNow, s.autoRevisioning, minted);
    var s1 := AddRecordToHistory(s.(version := ver, lastSavedTime := Time(v)), v).(historyWasSaved := true);
    assert Invariant(s1);
    if s.autoRevisioning {
      AutoRevisionSpec(s1, tRevision);
    }
  }

  /**
   * The first save passes the open time as the new record's start time,
   * but the record's constructor replaces it with the minted UUID's time:
   * the entry starts and ends at the save, whatever the open time was.
   */
  lemma FirstSaveStartsAtSaveTime(s: DocState, minted: Uuid, tNow: int, tRevision: int)
    requires Invariant(s) && !s.historyWasSaved && minted.Uid?
    ensures var r := AdjustHistoryOnSave(s, minted, tNow, tRevision);
      var v := r.history[|s.history|];
      && |r.history| == |s.history| + 1
      && v.start == minted.time && r.lastSavedTime == minted.time
      && EditTime(v) == 0
  {
  }

  /**
   * A manual save after the first one appends nothing: it gives the last
   * history entry the new version as id and a new UUID (so a new save
   * time), keeps its start time, flag and every earlier entry, and leaves
   * the revision table alone.
   */
  lemma SaveCollapsesIntoLastEntry(s: DocState, minted: Uuid, tNow: int, tRevision: int)
    requires Invariant(s) && s.historyWasSaved && !s.autoRevisioning
    ensures var r := AdjustHistoryOnSave(s, minted, tNow, tRevision);
      var n := |s.history|;
      && Invariant(r)
      && r.version == Inc32(s.version)
      && |r.history| == n
      && r.history[..n - 1] == s.history[..n - 1]
      && r.history[n - 1].id == r.version
      && r.history[n - 1].start == s.history[n - 1].start
      && r.history[n - 1].autoRevision == s.history[n - 1].autoRevision
      && r.history[n - 1].uid == (if s.history[n - 1].uid.Uid? && minted.Uid? then minted else s.history[n - 1].uid)
      && r.lastSavedTime == Time(r.history[n - 1])
      && r.revisions == s.revisions && r.revisionId == s.revisionId
      && r.historyWasSaved && !r.autoRevisioning
      && r == s.(version := r.version, history := r.history, lastSavedTime := r.lastSavedTime)
  {
  }

  /** Manual saves applied one after another, the i-th with the i-th minted UUID. */
  function ManualSaves(s: DocState, minted: seq<Uuid>, t: int): DocState
    decreases |minted|
  {
    if |minted| == 0 then s
    else ManualSaves(AdjustHistoryOnSave(s, minted[0], t, t), minted[1..], t)
  }

  /**
   * A run of manual saves after the history was saved keeps the history's
   * length and every entry but the last, whose id follows the version.
   */
  lemma {:induction false} ManualSavesKeepCount(s: DocState, minted: seq<Uuid>, t: int)
    requires Invariant(s) && s.historyWasSaved && !s.autoRevisioning
    ensures var r := ManualSaves(s, minted, t);
      var n := |s.history|;
      && Invariant(r) && r.historyWasSaved && !r.autoRevisioning
      && |r.history| == n
      && r.history[..n - 1] == s.history[..n - 1]
      && r.revisions == s.revisions
      && (|minted| > 0 ==> r.history[n - 1].id == r.version)
    decreases |minted|
  {
    if |minted| > 0 {
      var s1 := AdjustHistoryOnSave(s, minted[0], t, t);
      SaveCollapsesIntoLastEntry(s, minted[0], t, t);
      ManualSavesKeepCount(s1, minted[1..], t);
    }
  }

  /**
   * From a freshly constructed document, N >= 1 saves with auto-revisioning
   * off leave exactly one history entry, whose id is the current version.
   */
  lemma ManualSavesFromNewDocument(openTime: int, docUuid: Uuid, minted: seq<Uuid>, t: int)
    requires |minted| > 0
    ensures var r := ManualSaves(Initial(openTime, docUuid), minted, t);
      |r.history| == 1 && r.history[0].id == r.version && r.revisions == []
  {
    var s := Initial(openTime, docUuid);
    var s1 := AdjustHistoryOnSave(s, minted[0], t, t);
    SaveAppendsEntry(s, minted[0], t, t);
    assert |s1.history| == 1 && s1.history[0].id == s1.version;
    ManualSavesKeepCount(s1, minted[1..], t);
  }

  //////////////////////////////////////////////////////////////////
  // Identity

  /** areDocumentsRelated on two document UUIDs that are not both null. */
  function Related(a: Uuid, b: Uuid): (r: bool)
    requires !(a.NullUuid? && b.NullUuid?)
    ensures r <==> (a.Uid? && b.Uid? && a == b)
  {
    if (a.NullUuid? && b.Uid?) || (a.Uid? && b.NullUuid?) then false else a == b
  }

  lemma RelatedIsSymmetric(a: Uuid, b: Uuid)
    requires !(a.NullUuid? && b.NullUuid?)
    ensures Related(a, b) == Related(b, a)
  {
  }

  /** Position-by-position comparison of two histories with operator==. */
  predicate SameHistory(h1: seq<VersionData>, h2: seq<VersionData>)
  {
    |h1| == |h2| && forall i :: 0 <= i < |h1| ==> Same(h1[i], h2[i])
  }

  /** Comparing histories record by record is the same as comparing them as values. */
  lemma SameHistoryIsEquality(h1: seq<VersionData>, h2: seq<VersionData>)
    ensures SameHistory(h1, h2) <==> h1 == h2
  {
  }

  /** areDocumentHistoriesEqual on two document states whose UUIDs are not both null. */
  predicate HistoriesEqual(a: DocState, b: DocState)
    requires !(a.uuid.NullUuid? && b.uuid.NullUuid?)
  {
    Related(a.uuid, b.uuid) && SameHistory(a.history, b.history)
  }

  /** Equal histories belong to related documents, and the comparison is symmetric. */
  lemma HistoriesEqualProperties(a: DocState, b: DocState)
    requires !(a.uuid.NullUuid? && b.uuid.NullUuid?)
    ensures HistoriesEqual(a, b) ==> Related(a.uuid, b.uuid) && a.history == b.history
    ensures HistoriesEqual(a, b) == HistoriesEqual(b, a)
  {
  }

  //////////////////////////////////////////////////////////////////
  // A session

  /**
   * Open at t0, save with a UUID minted at t1, save again with one minted
   * at t2, then turn auto-revisioning on with one minted at t3: one entry
   * (id 2) after the two saves, a second entry tagged auto, revision 2 at
   * version 3 and the shown id set to collapse all revisions.
   */
  lemma SessionScenario(t0: int, docUuid: Uuid, u1: Uuid, u2: Uuid, u3: Uuid, t3: int)
    requires u1.Uid? && u2.Uid? && u3.Uid?
    ensures var s1 := AdjustHistoryOnSave(Initial(t0, docUuid), u1, 0, 0);
      && |s1.history| == 1 && s1.history[0].start == u1.time && s1.lastSavedTime == u1.time
      && s1.history[0].id == 1
    ensures var s2 := AdjustHistoryOnSave(AdjustHistoryOnSave(Initial(t0, docUuid), u1, 0, 0), u2, 0, 0);
      && |s2.history| == 1 && s2.history[0].id == 2 && s2.version == 2
      && s2.history[0].start == u1.time && s2.lastSavedTime == u2.time
    ensures var s3 := SetAutoRevisioning(AdjustHistoryOnSave(AdjustHistoryOnSave(Initial(t0, docUuid), u1, 0, 0), u2, 0, 0), true, t3, u3);
      && |s3.history| == 2 && s3.history[1].autoRevision && s3.history[1].id == 3
      && s3.revisions == [Revision(2, Some(AUTO_REVISION_LABEL), t3, 3)]
      && s3.showRevisionId == COLLAPSE_ALL_REVISIONS && s3.markRevisions
  {
    var s0 := Initial(t0, docUuid);
    var s1 := AdjustHistoryOnSave(s0, u1, 0, 0);
    SaveAppendsEntry(s0, u1, 0, 0);
    var s2 := AdjustHistoryOnSave(s1, u2, 0, 0);
    SaveCollapsesIntoLastEntry(s1, u2, 0, 0);
    assert s2.history[0] == s2.history[|s1.history| - 1];
    SetAutoRevisioningOn(s2, t3, u3);
    assert !HasId(s2.revisions, 2);
  }
}
