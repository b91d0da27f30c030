/** The approval-request table (`models/CertificateRequest.ts`): one row per certificate,
    keyed by the certificate's identifier, holding a copy of the certificate number, the
    boolean `status` (false = locked, the default; true = unlocked) and the timestamps
    Mongoose maintains. The unique index on `certificateId` is the key of the map: there is
    never more than one row for a certificate. No row at all reads as locked. */
module CertificateRequestModel {
  import opened Maybe
  import opened Records

  /** One row. `certificateNo` is `None` for a row the approve link created: that upsert
      does not run the schema's `required` validators and sets only `status`. */
  datatype ApprovalRequest = ApprovalRequest(certificateNo: Option<string>, status: bool, createdAt: nat, updatedAt: nat)

  /** `status: { type: Boolean, default: false }`: a new row is locked. */
  const DefaultStatus: bool := false

  type RequestTable = map<Id, ApprovalRequest>

  /** The gate's reading of the table: unlocked only when a row exists and its status is true. */
  predicate IsUnlocked(t: RequestTable, id: Id) {
    id in t && t[id].status
  }

  /** The approval state of every certificate that has a row, without the bookkeeping fields. */
  function StatusView(t: RequestTable): (v: map<Id, bool>)
    ensures v.Keys == t.Keys
    ensures forall id :: id in v ==> v[id] == t[id].status
  {
    map id | id in t :: t[id].status
  }

  /** `{ timestamps: true }`: each row was created no later than its last update, and no row
      was touched after `now`. */
  ghost predicate Timestamped(t: RequestTable, now: nat) {
    forall id :: id in t ==> t[id].createdAt <= t[id].updatedAt <= now
  }

  /** `findOneAndUpdate({ certificateId: id }, { status }, { upsert: true })`: the approve and
      reject transition. */
  function SetStatus(t: RequestTable, id: Id, status: bool, now: nat): (r: RequestTable)
    ensures r.Keys == t.Keys + {id}
    ensures r[id].status == status && r[id].updatedAt == now
    ensures id in t ==> r[id].certificateNo == t[id].certificateNo && r[id].createdAt == t[id].createdAt
    ensures id !in t ==> r[id].certificateNo == None && r[id].createdAt == now
    ensures forall k :: k in t && k != id ==> r[k] == t[k]
  {
    if id in t then t[id := t[id].(status := status, updatedAt := now)]
    else t[id := ApprovalRequest(None, status, now, now)]
  }

  /** `findOneAndUpdate({ certificateId: id }, { certificateNo, $setOnInsert: { status: false } },
      { upsert: true })`: the ensure-pending transition. It creates a locked row when there is
      none, and otherwise overwrites only the certificate number. */
  function EnsurePending(t: RequestTable, id: Id, certificateNo: string, now: nat): (r: RequestTable)
    ensures r.Keys == t.Keys + {id}
    ensures r[id].certificateNo == Some(certificateNo) && r[id].updatedAt == now
    ensures id in t ==> r[id].status == t[id].status && r[id].createdAt == t[id].createdAt
    ensures id !in t ==> r[id].status == DefaultStatus && r[id].createdAt == now
    ensures forall k :: k in t && k != id ==> r[k] == t[k]
  {
    if id in t then t[id := t[id].(certificateNo := Some(certificateNo), updatedAt := now)]
    else t[id := ApprovalRequest(Some(certificateNo), DefaultStatus, now, now)]
  }

  /** Approving (or rejecting) twice is the same as doing it once. */
  lemma SetStatusIdempotent(t: RequestTable, id: Id, status: bool, now: nat)
    ensures SetStatus(SetStatus(t, id, status, now), id, status, now) == SetStatus(t, id, status, now)
  {
  }

  /** Repeating the same decision later changes no certificate's approval state. */
  lemma SetStatusRepeatKeepsState(t: RequestTable, id: Id, status: bool, first: nat, later: nat)
    ensures StatusView(SetStatus(SetStatus(t, id, status, first), id, status, later))
         == StatusView(SetStatus(t, id, status, first))
  {
  }

  /** The last decision wins: approve then reject leaves the certificate locked, and vice versa. */
  lemma SetStatusLastWriterWins(t: RequestTable, id: Id, s1: bool, s2: bool, n1: nat, n2: nat)
    ensures StatusView(SetStatus(SetStatus(t, id, s1, n1), id, s2, n2)) == StatusView(SetStatus(t, id, s2, n2))
    ensures IsUnlocked(SetStatus(SetStatus(t, id, s1, n1), id, s2, n2), id) == s2
  {
  }

  /** A decision about one certificate leaves every other certificate's gate as it was. */
  lemma SetStatusFrame(t: RequestTable, id: Id, status: bool, now: nat, other: Id)
    requires other != id
    ensures IsUnlocked(SetStatus(t, id, status, now), other) == IsUnlocked(t, other)
  {
  }

  /** Ensure-pending never unlocks or locks anything: every gate reads as before. */
  lemma EnsurePendingKeepsGates(t: RequestTable, id: Id, certificateNo: string, now: nat, k: Id)
    ensures IsUnlocked(EnsurePending(t, id, certificateNo, now), k) == IsUnlocked(t, k)
  {
  }

  /** Ensure-pending adds a row only when the certificate had none, and a second attempt adds
      nothing: at most one row per certificate. */
  lemma EnsurePendingRowCount(t: RequestTable, id: Id, no1: string, no2: string, n1: nat, n2: nat)
    ensures |EnsurePending(t, id, no1, n1).Keys| == if id in t then |t.Keys| else |t.Keys| + 1
    ensures EnsurePending(EnsurePending(t, id, no1, n1), id, no2, n2).Keys == EnsurePending(t, id, no1, n1).Keys
  {
    if id !in t {
      assert |t.Keys + {id}| == |t.Keys| + 1;
    } else {
      assert t.Keys + {id} == t.Keys;
    }
  }

  /** Both transitions keep the timestamps consistent when the clock does not go backwards. */
  lemma TransitionsKeepTimestamps(t: RequestTable, id: Id, status: bool, no: string, before: nat, now: nat)
    requires Timestamped(t, before) && before <= now
    ensures Timestamped(SetStatus(t, id, status, now), now)
    ensures Timestamped(EnsurePending(t, id, no, now), now)
  {
  }

  /** The collection as the routes see it: a table updated in place by upserts. */
  class RequestCollection {
    var rows: RequestTable
    /** The time of the latest write, for the timestamp invariant. */
    ghost var lastWrite: nat

    ghost predicate Valid()
      reads this
    {
      Timestamped(rows, lastWrite)
    }

    /** An empty collection: every certificate is locked. */
    constructor ()
      ensures Valid() && rows == map[] && lastWrite == 0
    {
      rows := map[];
      lastWrite := 0;
    }

    predicate Unlocked(id: Id)
      reads this
    {
      IsUnlocked(rows, id)
    }

    method UpsertStatus(id: Id, status: bool, now: nat)
      requires Valid() && lastWrite <= now
      modifies this
      ensures Valid() && lastWrite == now
      ensures rows == SetStatus(old(rows), id, status, now)
    {
      TransitionsKeepTimestamps(rows, id, status, "", lastWrite, now);
      rows := SetStatus(rows, id, status, now);
      lastWrite := now;
    }

    method UpsertPending(id: Id, certificateNo: string, now: nat)
      requires Valid() && lastWrite <= now
      modifies this
      ensures Valid() && lastWrite == now
      ensures rows == EnsurePending(old(rows), id, certificateNo, now)
    {
      TransitionsKeepTimestamps(rows, id, false, certificateNo, lastWrite, now);
      rows := EnsurePending(rows, id, certificateNo, now);
      lastWrite := now;
    }
  }
}
