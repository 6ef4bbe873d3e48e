/**
 * AD_Document's identity and revision-history logic as a class with the
 * same fields. Each method that changes the document's state is proved to
 * perform a DocumentModel transition: MakeAutoRevision performs
 * AutoRevision, AddRevisionBounded performs AddRevision, the toggles
 * perform the matching setter, and the others the one of the same name.
 * All but ForceDirty also keep the document's invariant, and Ref/Unref
 * change only the reference count. The revision-table queries are the
 * source's linear scans, proved against the RevisionTable functions;
 * AreDocumentHistoriesEqual is proved against DocumentModel.HistoriesEqual.
 */
module Documents {
  import opened Basics
  import opened VersionRecords
  import opened RevisionTable
  import opened DocumentModel

  class Document {
    var uuid: Uuid                  // m_pUUID (NullUuid when the generator gave none)
    var refCount: nat               // m_iRefCount
    var lastSavedTime: int          // m_lastSavedTime
    var lastOpenedTime: int         // m_lastOpenedTime
    var version: u32                // m_iVersion
    var historyWasSaved: bool       // m_bHistoryWasSaved
    var markRevisions: bool         // m_bMarkRevisions
    var showRevisions: bool         // m_bShowRevisions
    var revisionId: u32             // m_iRevisionID
    var showRevisionId: u32         // m_iShowRevisionID
    var autoRevisioning: bool       // m_bAutoRevisioning
    var forcedDirty: bool           // m_bForcedDirty
    var history: seq<VersionData>   // m_vHistory
    var revisions: seq<Revision>    // m_vRevisions

    /** The fields the identity and history logic works on, as a value. */
    function State(): DocState
      reads this
    {
      DocState(uuid, lastSavedTime, lastOpenedTime, version, historyWasSaved, markRevisions,
               showRevisions, revisionId, showRevisionId, autoRevisioning, forcedDirty,
               history, revisions)
    }

    predicate Valid()
      reads this
    {
      Invariant(State())
    }

    /** Opened at openTime; docUuid is what the UUID generator created for the document. */
    constructor (openTime: int, docUuid: Uuid)
      ensures Valid() && State() == Initial(openTime, docUuid) && refCount == 1
    {
      uuid := docUuid;
      refCount := 1;
      lastSavedTime := 0;
      lastOpenedTime := openTime;
      version := 0;
      historyWasSaved := false;
      markRevisions := false;
      showRevisions := true;
      revisionId := 1;
      showRevisionId := 0;
      autoRevisioning := false;
      forcedDirty := false;
      history := [];
      revisions := [];
    }

    method Ref()
      requires refCount > 0
      modifies this
      ensures refCount == old(refCount) + 1 && State() == old(State())
    {
      refCount := refCount + 1;
    }

    /** Drops a reference; `destroyed` says the last one went (the C++ object deletes itself). */
    method Unref() returns (destroyed: bool)
      requires refCount > 0
      modifies this
      ensures refCount == old(refCount) - 1 && State() == old(State())
      ensures destroyed <==> refCount == 0
    {
      refCount := refCount - 1;
      destroyed := refCount == 0;
    }

    method ForceDirty()
      modifies this
      ensures State() == DocumentModel.ForceDirty(old(State())) && refCount == old(refCount)
    {
      forcedDirty := true;
    }

    //////////////////////////////////////////////////////////////////
    // History ledger

    method PurgeHistory()
      requires Valid()
      modifies this
      ensures Valid() && history == [] && !historyWasSaved
      ensures State() == DocumentModel.PurgeHistory(old(State())) && refCount == old(refCount)
    {
      history := [];
      historyWasSaved := false;
    }

    /** addRecordToHistory: appends a copy of v. */
    method AddRecordToHistory(v: VersionData)
      requires Valid()
      modifies this
      ensures Valid() && history == old(history) + [v]
      ensures State() == DocumentModel.AddRecordToHistory(old(State()), v) && refCount == old(refCount)
    {
      history := history + [v];
    }

    /** getHistoryNthId: the n-th record's id, 0 when there is no such record. */
    function HistoryNthId(i: u32): (r: u32)
      reads this
      ensures i < |history| ==> r == history[i].id
      ensures i >= |history| ==> r == 0
    {
      if |history| == 0 then 0 else if i < |history| then history[i].id else 0
    }

    /** getHistoryNthTime: the n-th record's save time, 0 when there is no such record. */
    function HistoryNthTime(i: u32): (r: int)
      reads this
      ensures i < |history| ==> r == Time(history[i])
      ensures i >= |history| ==> r == 0
    {
      if |history| == 0 then 0 else if i < |history| then Time(history[i]) else 0
    }

    /** getHistoryNthTimeStarted: the n-th record's start time, 0 when there is no such record. */
    function HistoryNthTimeStarted(i: u32): (r: int)
      reads this
      ensures i < |history| ==> r == history[i].start
      ensures i >= |history| ==> r == 0
    {
      if |history| == 0 then 0 else if i < |history| then history[i].start else 0
    }

    /** getHistoryNthAutoRevisioned: the n-th record's flag, false when there is no such record. */
    function HistoryNthAutoRevisioned(i: u32): (r: bool)
      reads this
      ensures i < |history| ==> r == history[i].autoRevision
      ensures i >= |history| ==> !r
    {
      if |history| == 0 then false else if i < |history| then history[i].autoRevision else false
    }

    /**
     * getHistoryNthEditTime: save time minus start time of the n-th record,
     * as UT_uint32; 0 when there is no such record or the document has no UUID.
     */
    function HistoryNthEditTime(i: u32): (r: u32)
      reads this
      ensures i >= |history| || uuid.NullUuid? ==> r == 0
      ensures i < |history| && uuid.Uid? && 0 <= EditTime(history[i]) <= MAX_U32 ==> r == EditTime(history[i])
      ensures i < |history| && uuid.Uid? ==> (EditTime(history[i]) - r) % 0x1_0000_0000 == 0
    {
      if |history| == 0 || uuid.NullUuid? then 0
      else if i < |history| then Trunc32(Time(history[i]) - history[i].start)
      else 0
    }

    /** getHistoryNthUID: the n-th record's UUID, the null UUID when there is no such record. */
    function HistoryNthUid(i: u32): (r: Uuid)
      reads this
      ensures i < |history| ==> r == history[i].uid
      ensures i >= |history| ==> r == NullUuid
    {
      if |history| == 0 then NullUuid else if i < |history| then history[i].uid else NullUuid
    }

    //////////////////////////////////////////////////////////////////
    // Identity

    /**
     * areDocumentsRelated: false when exactly one document has a UUID,
     * otherwise whether the UUIDs are equal. (When neither has one the
     * source dereferences a null pointer; that case is excluded.)
     */
    function AreDocumentsRelated(d: Document): (r: bool)
      reads this, d
      requires !(uuid.NullUuid? && d.uuid.NullUuid?)
      ensures r <==> (uuid.Uid? && d.uuid.Uid? && uuid == d.uuid)
    {
      Related(uuid, d.uuid)
    }

    /**
     * areDocumentHistoriesEqual: related documents whose histories have the
     * same length and are equal record by record.
     */
    method AreDocumentHistoriesEqual(d: Document) returns (r: bool)
      requires !(uuid.NullUuid? && d.uuid.NullUuid?)
      ensures r == HistoriesEqual(State(), d.State())
      ensures r <==> uuid == d.uuid && history == d.history
    {
      SameHistoryIsEquality(history, d.history);
      if (uuid.NullUuid? && d.uuid.Uid?) || (uuid.Uid? && d.uuid.NullUuid?) {
        return false;
      }
      if uuid != d.uuid {
        return false;
      }
      var count := |history|;
      if count != |d.history| {
        return false;
      }
      var i := 0;
      while i < count
        invariant 0 <= i <= count
        invariant forall k :: 0 <= k < i ==> Same(history[k], d.history[k])
      {
        if !Same(history[i], d.history[i]) {
          return false;
        }
        i := i + 1;
      }
      return true;
    }

    //////////////////////////////////////////////////////////////////
    // Revision table

    /** getHighestRevisionId: the largest id in the table, 0 when it is empty. */
    method HighestRevisionId() returns (r: u32)
      ensures r == MaxId(revisions)
      ensures forall k :: 0 <= k < |revisions| ==> revisions[k].id <= r
      ensures |revisions| == 0 ==> r == 0
      ensures |revisions| > 0 ==> exists k :: 0 <= k < |revisions| && revisions[k].id == r
    {
      r := 0;
      for i := 0 to |revisions|
        invariant r == MaxId(revisions[..i])
      {
        assert revisions[..i + 1][..i] == revisions[..i];
        r := if r >= revisions[i].id then r else revisions[i].id;
      }
      assert revisions[..|revisions|] == revisions;
    }

    /**
     * getHighestRevision: the first record carrying the largest id; none when
     * the table is empty or every id is 0.
     */
    method HighestRevision() returns (r: Option<Revision>)
      ensures r.None? <==> MaxId(revisions) == 0
      ensures r.Some? ==> r.value.id == MaxId(revisions)
      ensures r.Some? ==> exists k :: 0 <= k < |revisions| && revisions[k] == r.value
                                   && forall j :: 0 <= j < k ==> revisions[j].id < r.value.id
    {
      var iId: u32 := 0;
      r := None;
      ghost var at: nat := 0;
      for i := 0 to |revisions|
        invariant iId == MaxId(revisions[..i])
        invariant r.None? <==> iId == 0
        invariant r.Some? ==> at < i && revisions[at] == r.value && r.value.id == iId
                              && forall j :: 0 <= j < at ==> revisions[j].id < iId
      {
        assert revisions[..i + 1][..i] == revisions[..i];
        var t := revisions[i];
        if t.id > iId {
          forall j | 0 <= j < i ensures revisions[j].id < t.id {
            assert revisions[..i][j] == revisions[j];
          }
          iId := t.id;
          r := Some(t);
          at := i;
        }
      }
      assert revisions[..|revisions|] == revisions;
    }

    /** addRevision: rejects a taken id; otherwise appends the revision, makes it current and marks the document dirty. */
    method AddRevision(iId: u32, desc: Option<seq<Ucs4Char>>, tStart: int, iVer: u32) returns (added: bool)
      requires Valid()
      modifies this
      ensures Valid()
      ensures added <==> !HasId(old(revisions), iId)
      ensures State() == DocumentModel.AddRevision(old(State()), Revision(iId, desc, tStart, iVer))
      ensures refCount == old(refCount)
    {
      AddRevisionSpec(State(), Revision(iId, desc, tStart, iVer));
      for i := 0 to |revisions|
        invariant forall k :: 0 <= k < i ==> revisions[k].id != iId
      {
        if revisions[i].id == iId {
          return false;
        }
      }
      revisions := revisions + [Revision(iId, desc, tStart, iVer)];
      ForceDirty();
      revisionId := iId;
      return true;
    }

    /** The addRevision overload that keeps at most iLen characters of the description. */
    method AddRevisionBounded(iId: u32, desc: Option<seq<Ucs4Char>>, iLen: u32, tStart: int, iVer: u32)
      returns (added: bool)
      requires Valid()
      modifies this
      ensures Valid()
      ensures added <==> !HasId(old(revisions), iId)
      ensures var kept := if desc.Some? then Some(Prefix(desc.value, iLen)) else None;
        State() == DocumentModel.AddRevision(old(State()), Revision(iId, kept, tStart, iVer))
      ensures refCount == old(refCount)
    {
      var kept := if desc.Some? then Some(Prefix(desc.value, iLen)) else None;
      AddRevisionSpec(State(), Revision(iId, kept, tStart, iVer));
      for i := 0 to |revisions|
        invariant forall k :: 0 <= k < i ==> revisions[k].id != iId
      {
        if revisions[i].id == iId {
          return false;
        }
      }
      revisions := revisions + [Revision(iId, kept, tStart, iVer)];
      ForceDirty();
      revisionId := iId;
      return true;
    }

    method PurgeRevisionTable()
      requires Valid()
      modifies this
      ensures Valid() && revisions == []
      ensures State() == DocumentModel.PurgeRevisionTable(old(State())) && refCount == old(refCount)
    {
      revisions := [];
    }

    /**
     * findAutoRevisionId: the id of the first revision made at version v,
     * 0 when there is none.
     */
    method FindAutoRevisionId(v: u32) returns (r: u32)
      ensures var k := FirstAtVersion(revisions, v); r == if k < |revisions| then revisions[k].id else 0
      ensures (forall k :: 0 <= k < |revisions| ==> revisions[k].version != v) ==> r == 0
    {
      for i := 0 to |revisions|
        invariant forall k :: 0 <= k < i ==> revisions[k].version != v
      {
        if revisions[i].version == v {
          return revisions[i].id;
        }
      }
      return 0;
    }

    /**
     * findNearestAutoRevisionId: with bLesser, the id of the last revision of
     * the longest prefix of the table whose versions are below v; otherwise
     * the id of the first revision (in insertion order) above v; 0 when
     * there is none.
     */
    method FindNearestAutoRevisionId(v: u32, bLesser: bool) returns (r: u32)
      ensures bLesser ==>
        var n := LesserPrefix(revisions, v); r == if n == 0 then 0 else revisions[n - 1].id
      ensures !bLesser ==>
        var k := FirstAboveVersion(revisions, v); r == if k < |revisions| then revisions[k].id else 0
    {
      var iId: u32 := 0;
      var i := 0;
      while i < |revisions|
        invariant 0 <= i <= |revisions|
        invariant bLesser ==> forall k :: 0 <= k < i ==> revisions[k].version < v
        invariant bLesser ==> iId == if i == 0 then 0 else revisions[i - 1].id
        invariant !bLesser ==> iId == 0 && forall k :: 0 <= k < i ==> revisions[k].version <= v
      {
        var rev := revisions[i];
        if bLesser {
          if rev.version < v {
            iId := rev.id;
          } else {
            break;
          }
        } else {
          if rev.version > v {
            return rev.id;
          }
        }
        i := i + 1;
      }
      return iId;
    }

    //////////////////////////////////////////////////////////////////
    // Flags

    method SetMarkRevisions(b: bool)
      requires Valid()
      modifies this
      ensures Valid() && markRevisions == b
      ensures State() == DocumentModel.SetMarkRevisions(old(State()), b) && refCount == old(refCount)
    {
      if markRevisions != b {
        markRevisions := b;
        ForceDirty();
      }
    }

    method ToggleMarkRevisions()
      requires Valid()
      modifies this
      ensures Valid() && markRevisions == !old(markRevisions)
      ensures State() == DocumentModel.SetMarkRevisions(old(State()), !old(markRevisions))
      ensures refCount == old(refCount)
    {
      SetMarkRevisions(!markRevisions);
    }

    method SetShowRevisions(b: bool)
      requires Valid()
      modifies this
      ensures Valid() && showRevisions == b
      ensures State() == DocumentModel.SetShowRevisions(old(State()), b) && refCount == old(refCount)
    {
      if showRevisions != b {
        showRevisions := b;
        ForceDirty();
      }
    }

    method ToggleShowRevisions()
      requires Valid()
      modifies this
      ensures Valid() && showRevisions == !old(showRevisions)
      ensures State() == DocumentModel.SetShowRevisions(old(State()), !old(showRevisions))
      ensures refCount == old(refCount)
    {
      SetShowRevisions(!showRevisions);
    }

    method SetShowRevisionId(iId: u32)
      requires Valid()
      modifies this
      ensures Valid() && showRevisionId == iId
      ensures State() == DocumentModel.SetShowRevisionId(old(State()), iId) && refCount == old(refCount)
    {
      if iId != showRevisionId {
        showRevisionId := iId;
        ForceDirty();
      }
    }

    /** setRevisionId: never marks the document dirty (the value is not persistent). */
    method SetRevisionId(iId: u32)
      requires Valid()
      modifies this
      ensures Valid() && revisionId == iId && forcedDirty == old(forcedDirty)
      ensures State() == DocumentModel.SetRevisionId(old(State()), iId) && refCount == old(refCount)
    {
      if iId != revisionId {
        revisionId := iId;
      }
    }

    //////////////////////////////////////////////////////////////////
    // Auto-revisioning and saving

    /** Creates the automatic revision: the next revision id, at the current version, with the label. */
    method MakeAutoRevision(t: int)
      requires Valid()
      modifies this
      ensures Valid()
      ensures State() == AutoRevision(old(State()), t) && refCount == old(refCount)
    {
      var iId := Inc32(revisionId);
      SetRevisionId(iId);
      var _ := AddRevisionBounded(iId, Some(AUTO_REVISION_LABEL), |AUTO_REVISION_LABEL|, t, version);
    }

    /**
     * setAutoRevisioning(b) at clock reading t, minted being the UUID the
     * generator creates for the new history record.
     */
    method SetAutoRevisioning(b: bool, t: int, minted: Uuid)
      requires Valid()
      modifies this
      ensures Valid()
      ensures State() == DocumentModel.SetAutoRevisioning(old(State()), b, t, minted)
      ensures refCount == old(refCount)
    {
      if b != autoRevisioning {
        version := Inc32(version);
        var v := NewEntry(version, t, b, minted);
        AddRecordToHistory(v);
        autoRevisioning := b;
        if b {
          MakeAutoRevision(t);
          SetShowRevisionId(COLLAPSE_ALL_REVISIONS);
        }
        SetMarkRevisions(b);
      }
    }

    /**
     * _adjustHistoryOnSave, with minted the UUID the generator creates
     * during the call, tNow the clock reading for the history record and
     * tRevision the one for the automatic revision.
     */
    method AdjustHistoryOnSave(minted: Uuid, tNow: int, tRevision: int)
      requires Valid()
      modifies this
      ensures Valid()
      ensures State() == DocumentModel.AdjustHistoryOnSave(old(State()), minted, tNow, tRevision)
      ensures refCount == old(refCount)
    {
      version := Inc32(version);
      if !historyWasSaved || autoRevisioning {
        var t := if !historyWasSaved then lastOpenedTime else tNow;
        var v := NewEntry(version, t, autoRevisioning, minted);
        lastSavedTime := Time(v);
        AddRecordToHistory(v);
        historyWasSaved := true;
      } else {
        if |history| == 0 {
          return;
        }
        var n := |history|;
        var v := history[n - 1].(id := version);
        v := NewUid(v, minted);
        history := history[..n - 1] + [v];
        lastSavedTime := Time(v);
      }
      if autoRevisioning {
        MakeAutoRevision(tRevision);
      }
    }
  }

  /** areDocumentsRelated answers the same whichever document asks. */
  lemma DocumentsRelatedIsSymmetric(a: Document, b: Document)
    requires !(a.uuid.NullUuid? && b.uuid.NullUuid?)
    ensures a.AreDocumentsRelated(b) == b.AreDocumentsRelated(a)
  {
  }
}
