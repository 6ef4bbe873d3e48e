/**
 * AD_VersionData: one entry of a document's history. The C++ class owns a
 * heap-allocated UT_UUID; here the record is a value and its UUID a Uuid.
 * A minted UUID (what the generator's createUUID, or the record UUID's own
 * makeUUID, would produce) is passed in by the caller.
 */
module VersionRecords {
  import opened Basics

  datatype VersionData = VersionData(id: u32, uid: Uuid, start: int, autoRevision: bool)

  /** getTime(): the save time embedded in the record's UUID, 0 when there is none. */
  function Time(v: VersionData): int
  {
    if v.uid.Uid? then v.uid.time else 0
  }

  /** Time spent editing in the session the record describes (save time minus start time). */
  function EditTime(v: VersionData): int
  {
    Time(v) - v.start
  }

  /**
   * Constructor for new entries. When the generator is present the record
   * gets the minted UUID and the start time passed in is overwritten by the
   * UUID's own time; without a generator (minted == NullUuid) the record keeps
   * the start time and has no UUID.
   */
  function NewEntry(v: u32, start: int, autoRev: bool, minted: Uuid): (r: VersionData)
    ensures r.id == v && r.autoRevision == autoRev && r.uid == minted
    ensures minted.Uid? ==> r.start == Time(r) && EditTime(r) == 0
    ensures minted.NullUuid? ==> r.start == start && Time(r) == 0
  {
    if minted.NullUuid? then VersionData(v, NullUuid, start, autoRev)
    else VersionData(v, minted, minted.time, autoRev)
  }

  /** The tuple an exporter writes for a record: (id, uuid, start time, auto flag). */
  function Serialize(v: VersionData): (u32, Uuid, int, bool)
  {
    (v.id, v.uid, v.start, v.autoRevision)
  }

  /**
   * Constructors for importers: the UUID comes from its string form (parsing
   * is the generator's business, so the parsed value is passed in) and the
   * start time is kept as given. Since the string is abstracted to its parsed
   * value, the contract only says that no field is lost or altered; the
   * round trip through the UUID's string form is not modelled.
   */
  function Imported(v: u32, uuid: Uuid, start: int, autoRev: bool): (r: VersionData)
    ensures Serialize(r) == (v, uuid, start, autoRev)
  {
    VersionData(v, uuid, start, autoRev)
  }

  /** Rebuilding a record from its exported fields (UUID as a value) yields the same record. */
  lemma ImportExportRoundTrip(v: VersionData)
    ensures var (i, u, s, a) := Serialize(v); Imported(i, u, s, a) == v
  {
  }

  /** operator==: equal id, start time, UUID and auto-revision flag. */
  predicate Same(a: VersionData, b: VersionData)
  {
    a.id == b.id && a.start == b.start && a.uid == b.uid && a.autoRevision == b.autoRevision
  }

  /** operator== agrees with value equality, so it is an equivalence. */
  lemma SameIsEquality(a: VersionData, b: VersionData)
    ensures Same(a, b) <==> a == b
  {
  }

  /**
   * newUID(): the record's own UUID object regenerates itself in place (and
   * hence the save time); minted is the value it takes, NullUuid when the
   * regeneration produces nothing, in which case the UUID stays. A record
   * without a UUID is left alone. Nothing but the UUID changes.
   */
  function NewUid(v: VersionData, minted: Uuid): (r: VersionData)
    ensures r.id == v.id && r.start == v.start && r.autoRevision == v.autoRevision
    ensures v.uid.Uid? && minted.Uid? ==> r.uid == minted
    ensures v.uid.NullUuid? || minted.NullUuid? ==> r == v
    ensures r.uid.NullUuid? <==> v.uid.NullUuid?
  {
    if v.uid.NullUuid? || minted.NullUuid? then v else v.(uid := minted)
  }

  /**
   * A record whose UUID is regenerated later than its previous save time
   * covers a longer editing span: the edit time of a collapsed entry grows.
   */
  lemma NewUidGrowsEditTime(v: VersionData, minted: Uuid)
    requires v.uid.Uid? && minted.Uid? && minted.time >= v.uid.time
    ensures EditTime(NewUid(v, minted)) >= EditTime(v)
    ensures EditTime(NewUid(v, minted)) - EditTime(v) == minted.time - v.uid.time
  {
  }
}
