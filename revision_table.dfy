/**
 * AD_Revision records and the properties of the revision table that the
 * document's linear scans compute. The table is kept in insertion order.
 */
module RevisionTable {
  import opened Basics

  /** A revision: id, optional UCS-4 description, start time and the document version it belongs to. */
  datatype Revision = Revision(id: u32, description: Option<seq<Ucs4Char>>, start: int, version: u32)

  predicate HasId(revs: seq<Revision>, id: u32)
  {
    exists k :: 0 <= k < |revs| && revs[k].id == id
  }

  /** No two revisions of the table share an id. */
  predicate DistinctIds(revs: seq<Revision>)
  {
    forall i, j :: 0 <= i < j < |revs| ==> revs[i].id != revs[j].id
  }

  /** Revisions were inserted in non-decreasing version order. */
  predicate VersionsAscending(revs: seq<Revision>)
  {
    forall i, j :: 0 <= i < j < |revs| ==> revs[i].version <= revs[j].version
  }

  /** The largest revision id of the table, 0 for an empty table. */
  function MaxId(revs: seq<Revision>): (r: u32)
    ensures forall k :: 0 <= k < |revs| ==> revs[k].id <= r
    ensures |revs| == 0 ==> r == 0
    ensures |revs| > 0 ==> exists k :: 0 <= k < |revs| && revs[k].id == r
  {
    if |revs| == 0 then 0
    else
      var m := MaxId(revs[..|revs| - 1]);
      var last := revs[|revs| - 1].id;
      if last > m then last else m
  }

  /** Length of the longest prefix of the table whose versions are all below v. */
  function LesserPrefix(revs: seq<Revision>, v: u32): (n: nat)
    ensures n <= |revs|
    ensures forall k :: 0 <= k < n ==> revs[k].version < v
    ensures n < |revs| ==> revs[n].version >= v
  {
    if |revs| == 0 || revs[0].version >= v then 0 else 1 + LesserPrefix(revs[1..], v)
  }

  /** Position of the first revision made at version v; |revs| when there is none. */
  function FirstAtVersion(revs: seq<Revision>, v: u32): (k: nat)
    ensures k <= |revs|
    ensures forall j :: 0 <= j < k ==> revs[j].version != v
    ensures k < |revs| ==> revs[k].version == v
  {
    if |revs| == 0 || revs[0].version == v then 0 else 1 + FirstAtVersion(revs[1..], v)
  }

  /** Position of the first revision (in insertion order) above version v; |revs| when there is none. */
  function FirstAboveVersion(revs: seq<Revision>, v: u32): (k: nat)
    ensures k <= |revs|
    ensures forall j :: 0 <= j < k ==> revs[j].version <= v
    ensures k < |revs| ==> revs[k].version > v
  {
    if |revs| == 0 || revs[0].version > v then 0 else 1 + FirstAboveVersion(revs[1..], v)
  }

  /**
   * When revisions were inserted in version order, the prefix scan finds
   * exactly the revisions below v, so its last element is the last
   * revision with a smaller version.
   */
  lemma LesserPrefixIsAllLesser(revs: seq<Revision>, v: u32)
    requires VersionsAscending(revs)
    ensures forall k :: 0 <= k < |revs| ==> (revs[k].version < v <==> k < LesserPrefix(revs, v))
  {
  }

  /**
   * Without the ordering the scan may stop early: a revision below v that
   * follows one at or above v is not reached.
   */
  lemma LesserPrefixStopsAtFirstNotLesser()
    ensures var revs := [Revision(1, None, 0, 1), Revision(2, None, 0, 5), Revision(3, None, 0, 2)];
            LesserPrefix(revs, 3) == 1 && revs[2].version < 3
  {
  }

  /**
   * When revisions were inserted in version order, the first revision above
   * v has the smallest version above v.
   */
  lemma FirstGreaterIsSmallestGreater(revs: seq<Revision>, v: u32, k: nat)
    requires VersionsAscending(revs)
    requires k < |revs| && revs[k].version > v
    requires forall j :: 0 <= j < k ==> revs[j].version <= v
    ensures forall j :: 0 <= j < |revs| && revs[j].version > v ==> revs[k].version <= revs[j].version
  {
  }

  /**
   * The description kept by the length-bounded addRevision overload: at
   * most the first n characters of the caller's buffer.
   */
  function Prefix(d: seq<Ucs4Char>, n: u32): (r: seq<Ucs4Char>)
    ensures |r| <= n && |r| <= |d|
    ensures |r| == n || |r| == |d|
    ensures r == d[..|r|]
  {
    if n <= |d| then d[..n] else d
  }
}
