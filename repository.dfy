/** DeliveryRepository.kt: submitting one delivery, retrying one queued
    delivery, and draining the whole queue in one bulk request. The transport
    outcome of each call and the proof-file store are inputs; the pending
    table is the `DeliveryDao` object. */
module Repository {
  import opened Common
  import opened Text
  import opened Transport
  import opened Entities
  import opened Dao

  /** `SubmitResult`. */
  datatype SubmitResult = Sent | Queued(id: int) | SubmitFailure(error: Option<string>)

  /** `SyncResult`. */
  datatype SyncResult = SyncSuccess(syncedCount: int) | SyncFailure(error: Option<string>) | NothingToSync

  /** How the `try` block around a single submission ends: the transport call
      returned `result` and its branch ran to the end, or a throwable escaped
      somewhere in the block (building the payload, the call, or removing the
      proof file after a 2xx answer, which then stays in place). */
  datatype Attempt = Returned(result: NetworkResult<string>) | Raised

  /** The 2xx branch is taken and completes. */
  predicate Delivered(a: Attempt) {
    a.Returned? && a.result.Success? && IsSuccessCode(a.result.code)
  }

  /** A proof photo on the device: its Base64 text when it can be read. */
  datatype StoredFile = Readable(base64: string) | Unreadable

  /** The device's files, by path. */
  class FileStore {
    var files: map<string, StoredFile>

    constructor (files: map<string, StoredFile>)
      ensures this.files == files
    {
      this.files := files;
    }

    /** `File(path).takeIf { it.exists() }?.delete()`. */
    method Delete(path: string)
      modifies this
      ensures files == old(files) - {path}
    {
      files := files - {path};
    }
  }

  /** `fileToBase64`: the Base64 text of the proof file, or "" when the path
      is null or blank, no file has it, or the file cannot be read. */
  function FileToBase64(files: map<string, StoredFile>, path: Option<string>): (r: string)
    ensures path.None? || IsBlank(path.value) ==> r == ""
    ensures path.Some? && path.value !in files ==> r == ""
    ensures path.Some? && path.value in files && files[path.value].Unreadable? ==> r == ""
    ensures r != "" ==> path.Some? && path.value in files && files[path.value] == Readable(r)
    ensures path.Some? && !IsBlank(path.value) && path.value in files && files[path.value].Readable? ==>
              r == files[path.value].base64
  {
    if path.None? || IsBlank(path.value) then ""
    else if path.value !in files then ""
    else match files[path.value]
      case Readable(b) => b
      case Unreadable => ""
  }

  /** The JSON object posted for one delivery. */
  datatype DeliveryPayload = DeliveryPayload(
    item: string,
    serialNumber: string,
    sim: string,
    merchant: string,
    shop: string,
    receiver: string,
    deliveryAgent: string,
    receiverProof: string
  )

  function PayloadOf(e: DeliveryEntity, files: map<string, StoredFile>): DeliveryPayload {
    DeliveryPayload(e.item, e.serialNumber, e.sim, e.merchant, e.shop, e.receiver, e.deliveryAgent,
                    FileToBase64(files, e.receiverProofPath))
  }

  /** The files after the proof of one entity is removed. */
  function WithoutProof(files: map<string, StoredFile>, path: Option<string>): map<string, StoredFile> {
    if path.Some? then files - {path.value} else files
  }

  /** The files after the proofs of the snapshot are removed, in order. */
  function WithoutProofs(files: map<string, StoredFile>, s: seq<DeliveryEntity>): map<string, StoredFile>
    decreases |s|
  {
    if s == [] then files
    else WithoutProof(WithoutProofs(files, s[..|s| - 1]), s[|s| - 1].receiverProofPath)
  }

  /** The proof-file paths a snapshot names. */
  function ProofPaths(s: seq<DeliveryEntity>): set<string> {
    set i | 0 <= i < |s| && s[i].receiverProofPath.Some? :: s[i].receiverProofPath.value
  }

  /** Removing the proofs of a snapshot one row at a time removes exactly
      the paths the snapshot names, and no other file. */
  lemma {:induction false} WithoutProofsRemovesExactlyTheProofs(files: map<string, StoredFile>, s: seq<DeliveryEntity>)
    ensures WithoutProofs(files, s) == files - ProofPaths(s)
    decreases |s|
  {
    if s == [] {
      assert ProofPaths(s) == {};
    } else {
      var init, last := s[..|s| - 1], s[|s| - 1];
      WithoutProofsRemovesExactlyTheProofs(files, init);
      var extra := if last.receiverProofPath.Some? then {last.receiverProofPath.value} else {};
      forall x | x in ProofPaths(s) ensures x in ProofPaths(init) + extra {
        var i :| 0 <= i < |s| && s[i].receiverProofPath.Some? && s[i].receiverProofPath.value == x;
        if i < |s| - 1 {
          assert init[i] == s[i];
        }
      }
      forall x | x in ProofPaths(init) + extra ensures x in ProofPaths(s) {
        if x in ProofPaths(init) {
          var i :| 0 <= i < |init| && init[i].receiverProofPath.Some? && init[i].receiverProofPath.value == x;
          assert s[i] == init[i];
        } else {
          assert s[|s| - 1] == last;
        }
      }
      assert ProofPaths(s) == ProofPaths(init) + extra;
    }
  }

  /** The ids of a snapshot. */
  function IdSet(s: seq<DeliveryEntity>): set<int> {
    set i | 0 <= i < |s| :: s[i].id
  }

  /** The pending table after `updateRetryCount(p.id, p.retryCount + 1)` for
      each snapshot row `p` in order: the value written is the snapshot's
      count plus one, and a row that is gone is not written. */
  function Bumped(rows: map<int, DeliveryEntity>, s: seq<DeliveryEntity>): map<int, DeliveryEntity>
    decreases |s|
  {
    if s == [] then rows
    else
      var r := Bumped(rows, s[..|s| - 1]);
      var p := s[|s| - 1];
      if p.id in r then r[p.id := r[p.id].(retryCount := Inc(p.retryCount))] else r
  }

  /** Every row of the table with its retry count one higher. */
  function IncrementAll(rows: map<int, DeliveryEntity>): map<int, DeliveryEntity> {
    map k | k in rows :: rows[k].(retryCount := Inc(rows[k].retryCount))
  }

  /** Bumping the rows of a snapshot whose rows are stored as read and whose
      ids are distinct increments exactly those rows, once each. */
  lemma {:induction false} BumpedIncrementsSnapshotRows(rows: map<int, DeliveryEntity>, s: seq<DeliveryEntity>)
    requires forall i :: 0 <= i < |s| ==> s[i].id in rows && rows[s[i].id] == s[i]
    requires forall i, j :: 0 <= i < j < |s| ==> s[i].id != s[j].id
    ensures Bumped(rows, s)
         == map k | k in rows :: if k in IdSet(s) then rows[k].(retryCount := Inc(rows[k].retryCount)) else rows[k]
    decreases |s|
  {
    if s != [] {
      var n := |s| - 1;
      var front := s[..n];
      var p := s[n];
      assert forall i :: 0 <= i < n ==> front[i] == s[i];
      BumpedIncrementsSnapshotRows(rows, front);
      assert IdSet(s) == IdSet(front) + {p.id};
      assert p.id !in IdSet(front);
    }
  }

  /** For a full snapshot of the table, bumping it increments every row. */
  lemma BumpedSnapshotIncrementsAll(rows: map<int, DeliveryEntity>, s: seq<DeliveryEntity>)
    requires IsOrderedSnapshot(rows, s)
    ensures Bumped(rows, s) == IncrementAll(rows)
  {
    BumpedIncrementsSnapshotRows(rows, s);
    SnapshotIdsAreKeys(rows, s);
  }

  /** A full snapshot names every key of the table and nothing else. */
  lemma SnapshotIdsAreKeys(rows: map<int, DeliveryEntity>, s: seq<DeliveryEntity>)
    requires IsOrderedSnapshot(rows, s)
    ensures IdSet(s) == rows.Keys
  {
    forall id | id in rows ensures id in IdSet(s) {
      var i :| 0 <= i < |s| && s[i].id == id;
    }
  }

  class DeliveryRepository {
    const dao: DeliveryDao
    const store: FileStore

    constructor (dao: DeliveryDao, store: FileStore)
      ensures this.dao == dao && this.store == store
    {
      this.dao := dao;
      this.store := store;
    }

    /** `submitDelivery`: a 2xx answer leaves the queue alone and removes the
        proof file; any other answer, a transport failure or a throwable
        queues the entity exactly once and returns the id it was stored under. */
    method SubmitDelivery(entity: DeliveryEntity, attempt: Attempt) returns (result: SubmitResult, request: DeliveryPayload)
      requires dao.Valid()
      modifies dao`pending, dao`lastId, store
      ensures dao.Valid()
      ensures request == PayloadOf(entity, old(store.files))
      ensures Delivered(attempt) ==>
        && result == Sent
        && dao.pending == old(dao.pending) && dao.lastId == old(dao.lastId)
        && store.files == WithoutProof(old(store.files), entity.receiverProofPath)
      ensures !Delivered(attempt) ==>
        && result.Queued?
        && dao.pending == old(dao.pending)[result.id := entity.(id := result.id)]
        && store.files == old(store.files)
      ensures !Delivered(attempt) && entity.id == 0 ==>
        result.id !in old(dao.pending) && |dao.pending| == |old(dao.pending)| + 1
      ensures !Delivered(attempt) && entity.id != 0 ==> result.id == entity.id
    {
      request := PayloadOf(entity, store.files);
      if attempt.Raised? {
        var id := dao.InsertPending(entity);
        result := Queued(id);
        return;
      }
      match attempt.result
      case Success(code, _) =>
        if IsSuccessCode(code) {
          if entity.receiverProofPath.Some? {
            store.Delete(entity.receiverProofPath.value);
          }
          result := Sent;
        } else {
          var id := dao.InsertPending(entity);
          result := Queued(id);
        }
      case Failure(_) =>
        var id := dao.InsertPending(entity);
        result := Queued(id);
    }

    /** `syncSinglePending`: an unknown id changes nothing; a 2xx answer
        removes the proof file and exactly that row; anything else keeps the
        row with its retry count one higher than read. */
    method SyncSinglePending(id: int, attempt: Attempt) returns (result: SubmitResult, request: Option<DeliveryPayload>)
      requires dao.Valid()
      modifies dao`pending, store
      ensures dao.Valid()
      ensures id !in old(dao.pending) ==>
        && result == SubmitFailure(Some("Not found")) && request == None
        && dao.pending == old(dao.pending) && store.files == old(store.files)
      ensures id in old(dao.pending) ==> request == Some(PayloadOf(old(dao.pending)[id], old(store.files)))
      ensures id in old(dao.pending) && Delivered(attempt) ==>
        && result == Sent
        && dao.pending == old(dao.pending) - {id}
        && store.files == WithoutProof(old(store.files), old(dao.pending)[id].receiverProofPath)
      ensures id in old(dao.pending) && !Delivered(attempt) ==>
        && result == Queued(id)
        && dao.pending == old(dao.pending)[id := old(dao.pending)[id].(retryCount := Inc(old(dao.pending)[id].retryCount))]
        && store.files == old(store.files)
    {
      var found := dao.GetPendingById(id);
      if found.None? {
        result, request := SubmitFailure(Some("Not found")), None;
        return;
      }
      var entity := found.value;
      request := Some(PayloadOf(entity, store.files));
      if Delivered(attempt) {
        if entity.receiverProofPath.Some? {
          store.Delete(entity.receiverProofPath.value);
        }
        var _ := dao.DeleteByIds([entity.id]);
        result := Sent;
      } else {
        var _ := dao.UpdateRetryCount(entity.id, Inc(entity.retryCount));
        result := Queued(entity.id);
      }
    }

    /** The retry loops of `syncPending`: `updateRetryCount(p.id,
        p.retryCount + 1)` for each snapshot row. */
    method BumpRetryCounts(snapshot: seq<DeliveryEntity>)
      requires dao.Valid()
      modifies dao`pending
      ensures dao.Valid()
      ensures dao.pending == Bumped(old(dao.pending), snapshot)
    {
      for i := 0 to |snapshot|
        invariant dao.Valid()
        invariant dao.pending == Bumped(old(dao.pending), snapshot[..i])
      {
        assert snapshot[..i + 1][..i] == snapshot[..i];
        var p := snapshot[i];
        var _ := dao.UpdateRetryCount(p.id, Inc(p.retryCount));
      }
      assert snapshot[..|snapshot|] == snapshot;
    }

    /** The request-building loop of `syncPending`: one payload per snapshot
        row, in order, and the list of their ids. */
    method BuildBulkRequest(snapshot: seq<DeliveryEntity>) returns (payloads: seq<DeliveryPayload>, ids: seq<int>)
      ensures |payloads| == |snapshot| && |ids| == |snapshot|
      ensures forall i :: 0 <= i < |snapshot| ==> payloads[i] == PayloadOf(snapshot[i], store.files)
      ensures forall i :: 0 <= i < |snapshot| ==> ids[i] == snapshot[i].id
      ensures (set id | id in ids) == IdSet(snapshot)
    {
      payloads, ids := [], [];
      for i := 0 to |snapshot|
        invariant |payloads| == i && |ids| == i
        invariant forall j :: 0 <= j < i ==> payloads[j] == PayloadOf(snapshot[j], store.files)
        invariant forall j :: 0 <= j < i ==> ids[j] == snapshot[j].id
      {
        var p := snapshot[i];
        payloads := payloads + [PayloadOf(p, store.files)];
        ids := ids + [p.id];
      }
      forall id | id in IdSet(snapshot) ensures id in ids {
        var i :| 0 <= i < |snapshot| && snapshot[i].id == id;
        assert ids[i] == id;
      }
    }

    /** The file-removal loop after a 2xx bulk answer. */
    method DeleteProofs(snapshot: seq<DeliveryEntity>)
      modifies store
      ensures store.files == old(store.files) - ProofPaths(snapshot)
    {
      for i := 0 to |snapshot|
        invariant store.files == WithoutProofs(old(store.files), snapshot[..i])
      {
        assert snapshot[..i + 1][..i] == snapshot[..i];
        var path := snapshot[i].receiverProofPath;
        if path.Some? {
          store.Delete(path.value);
        }
      }
      assert snapshot[..|snapshot|] == snapshot;
      WithoutProofsRemovesExactlyTheProofs(old(store.files), snapshot);
    }

    /** `syncPending`: reads the queue once; an empty queue makes no request;
        otherwise one bulk request carries one entry per row in queue order,
        and a 2xx answer removes the proof files and exactly the rows read,
        while any other answer increments every row read once. */
    method SyncPending(bulk: NetworkResult<string>) returns (result: SyncResult, request: Option<seq<DeliveryPayload>>, ghost snapshot: seq<DeliveryEntity>)
      requires dao.Valid()
      modifies dao`pending, store
      ensures dao.Valid()
      ensures IsOrderedSnapshot(old(dao.pending), snapshot)
      ensures result == NothingToSync <==> old(dao.pending) == map[]
      ensures old(dao.pending) == map[] ==>
        request == None && dao.pending == old(dao.pending) && store.files == old(store.files)
      ensures old(dao.pending) != map[] ==>
        && request.Some? && |request.value| == |snapshot|
        && forall i :: 0 <= i < |snapshot| ==> request.value[i] == PayloadOf(snapshot[i], old(store.files))
      ensures old(dao.pending) != map[] && bulk.Success? && IsSuccessCode(bulk.code) ==>
        && result == SyncSuccess(|old(dao.pending)|)
        && dao.pending == old(dao.pending) - IdSet(snapshot)
        && dao.pending == map[]
        && store.files == old(store.files) - ProofPaths(snapshot)
      ensures old(dao.pending) != map[] && !(bulk.Success? && IsSuccessCode(bulk.code)) ==>
        && dao.pending == IncrementAll(old(dao.pending))
        && store.files == old(store.files)
        && result == SyncFailure(
             if bulk.Success? then Some(ServerReturnedCode(bulk.code))
             else if bulk.throwable.Some? then bulk.throwable.value.message
             else None)
    {
      var pending := dao.GetAllPending();
      snapshot := pending;
      if |pending| == 0 {
        result, request := NothingToSync, None;
        return;
      }
      var payloads, ids := BuildBulkRequest(pending);
      request := Some(payloads);
      SnapshotIdsAreKeys(old(dao.pending), pending);
      if bulk.Success? && IsSuccessCode(bulk.code) {
        DeleteProofs(pending);
        var _ := dao.DeleteByIds(ids);
        result := SyncSuccess(|ids|);
      } else {
        BumpRetryCounts(pending);
        BumpedSnapshotIncrementsAll(old(dao.pending), pending);
        match bulk
        case Success(code, _) =>
          result := SyncFailure(Some(ServerReturnedCode(code)));
        case Failure(t) =>
          result := SyncFailure(if t.Some? then t.value.message else None);
      }
    }
  }

  /** A delivery built by the form as a new entity (MainActivity.kt:749-756),
      which fails to submit and is then retried successfully, leaves no row
      with its id and no proof file behind. */
  method SubmitThenRetry(repo: DeliveryRepository, item: string, serialNumber: string, sim: string,
                         merchant: string, shop: string, receiver: string, deliveryAgent: string,
                         receiverProofPath: Option<string>, now: int, first: Attempt, retry: Attempt)
    returns (queuedId: int)
    requires repo.dao.Valid()
    requires !Delivered(first) && Delivered(retry)
    modifies repo.dao, repo.store
    ensures queuedId !in repo.dao.pending
    ensures receiverProofPath.Some? ==> receiverProofPath.value !in repo.store.files
    ensures repo.dao.pending == old(repo.dao.pending) - {queuedId}
  {
    var entity := NewDelivery(item, serialNumber, sim, merchant, shop, receiver, deliveryAgent,
                              receiverProofPath, now);
    var submitted, _ := repo.SubmitDelivery(entity, first);
    queuedId := submitted.id;
    var retried, _ := repo.SyncSinglePending(queuedId, retry);
    assert retried == Sent;
  }
}
