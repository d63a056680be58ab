/** DeliveryDao.kt: the pending-queue table and the history-cache table, as
    one object whose fields are the tables' contents. The SQL of each query
    becomes the method's contract. */
module Dao {
  import opened Common
  import opened Entities
  import Tables

  /** What `SELECT * FROM pending_deliveries ORDER BY createdAt ASC` returns:
      every row exactly once, as stored, in ascending `createdAt` order. Rows
      with equal `createdAt` come in no promised order. */
  ghost predicate IsOrderedSnapshot(rows: map<int, DeliveryEntity>, s: seq<DeliveryEntity>) {
    && |s| == |rows|
    && (forall i :: 0 <= i < |s| ==> s[i].id in rows && rows[s[i].id] == s[i])
    && (forall i, j :: 0 <= i < j < |s| ==> s[i].id != s[j].id)
    && (forall id :: id in rows ==> exists i :: 0 <= i < |s| && s[i].id == id)
    && (forall i, j :: 0 <= i < j < |s| ==> s[i].createdAt <= s[j].createdAt)
  }

  /** The primary key of the history table. */
  function HistoryKey(h: HistoryEntity): string {
    h.id
  }

  /** A non-empty set has an element. */
  lemma SomeKey(ks: set<int>) returns (k: int)
    requires ks != {}
    ensures k in ks
  {
    if forall x :: x !in ks {
      assert false;
    }
    k :| k in ks;
  }

  /** Some key of a non-empty set has the earliest `createdAt`. */
  lemma {:induction false} EarliestExists(rows: map<int, DeliveryEntity>, ks: set<int>)
    requires ks != {} && ks <= rows.Keys
    ensures exists k :: k in ks && forall j :: j in ks ==> rows[k].createdAt <= rows[j].createdAt
    decreases |ks|
  {
    var k := SomeKey(ks);
    if ks != {k} {
      EarliestExists(rows, ks - {k});
      var m :| m in ks - {k} && forall j :: j in ks - {k} ==> rows[m].createdAt <= rows[j].createdAt;
      if rows[k].createdAt < rows[m].createdAt {
        assert forall j :: j in ks ==> rows[k].createdAt <= rows[j].createdAt;
      } else {
        assert forall j :: j in ks ==> rows[m].createdAt <= rows[j].createdAt;
      }
    }
  }

  /** The loop state of `getAllPending`: `snapshot` holds, in order, the rows
      already taken, each no later than any row still in `remaining`. */
  ghost predicate SnapshotSoFar(rows: map<int, DeliveryEntity>, snapshot: seq<DeliveryEntity>, remaining: set<int>) {
    && remaining <= rows.Keys
    && |snapshot| + |remaining| == |rows|
    && (forall i :: 0 <= i < |snapshot| ==>
          snapshot[i].id in rows && rows[snapshot[i].id] == snapshot[i] && snapshot[i].id !in remaining)
    && (forall i, j :: 0 <= i < j < |snapshot| ==> snapshot[i].id != snapshot[j].id)
    && (forall id :: id in rows && id !in remaining ==> exists i :: 0 <= i < |snapshot| && snapshot[i].id == id)
    && (forall i, j :: 0 <= i < j < |snapshot| ==> snapshot[i].createdAt <= snapshot[j].createdAt)
    && (forall i, k :: 0 <= i < |snapshot| && k in remaining ==> snapshot[i].createdAt <= rows[k].createdAt)
  }

  /** Taking the earliest remaining row keeps the loop state. */
  lemma ExtendSnapshot(rows: map<int, DeliveryEntity>, snapshot: seq<DeliveryEntity>, remaining: set<int>, k: int)
    requires forall id :: id in rows ==> rows[id].id == id
    requires SnapshotSoFar(rows, snapshot, remaining)
    requires k in remaining && forall j :: j in remaining ==> rows[k].createdAt <= rows[j].createdAt
    ensures SnapshotSoFar(rows, snapshot + [rows[k]], remaining - {k})
  {
    var next := snapshot + [rows[k]];
    assert next[|snapshot|].id == k;
    assert forall i :: 0 <= i < |snapshot| ==> next[i] == snapshot[i];
    ExtendSnapshotCovers(rows, snapshot, remaining, k);
  }

  /** Every row taken so far, and the row taken now, is in the extended
      snapshot. */
  lemma ExtendSnapshotCovers(rows: map<int, DeliveryEntity>, snapshot: seq<DeliveryEntity>, remaining: set<int>, k: int)
    requires forall id :: id in rows && id !in remaining ==> exists i :: 0 <= i < |snapshot| && snapshot[i].id == id
    requires k in rows && rows[k].id == k
    ensures forall id :: id in rows && id !in remaining - {k} ==>
              exists i :: 0 <= i < |snapshot + [rows[k]]| && (snapshot + [rows[k]])[i].id == id
  {
    var next := snapshot + [rows[k]];
    forall id | id in rows && id !in remaining - {k}
      ensures exists i :: 0 <= i < |next| && next[i].id == id
    {
      if id == k {
        assert next[|snapshot|].id == id;
      } else {
        var i :| 0 <= i < |snapshot| && snapshot[i].id == id;
        assert next[i].id == id;
      }
    }
  }

  class DeliveryDao {
    /** `pending_deliveries`, by primary key. */
    var pending: map<int, DeliveryEntity>
    /** The table's AUTOINCREMENT sequence: the largest id it has ever held. */
    var lastId: int
    /** `history_deliveries`, by primary key. */
    var history: map<string, HistoryEntity>

    /** Every row is stored under its own id, and no id exceeds the sequence. */
    ghost predicate Valid()
      reads this
    {
      && lastId >= 0
      && forall id :: id in pending ==> pending[id].id == id && id <= lastId
    }

    constructor ()
      ensures Valid()
      ensures pending == map[] && lastId == 0 && history == map[]
    {
      pending := map[];
      lastId := 0;
      history := map[];
    }

    /** `insertPending` (REPLACE): an entity with id 0 gets the next id of the
        sequence, any other id overwrites the row with that id; the id of the
        written row is returned. */
    method InsertPending(entity: DeliveryEntity) returns (id: int)
      requires Valid()
      modifies this`pending, this`lastId
      ensures Valid()
      ensures entity.id != 0 ==> id == entity.id
      ensures entity.id == 0 ==> id == old(lastId) + 1 && id !in old(pending)
      ensures pending == old(pending)[id := entity.(id := id)]
    {
      id := if entity.id == 0 then lastId + 1 else entity.id;
      pending := pending[id := entity.(id := id)];
      if id > lastId {
        lastId := id;
      }
    }

    /** `getPendingById`: the row with that id, or null. */
    function GetPendingById(id: int): (r: Option<DeliveryEntity>)
      reads this
      requires Valid()
      ensures r.Some? <==> id in pending
      ensures r.Some? ==> r.value.id == id && pending[id] == r.value
    {
      if id in pending then Some(pending[id]) else None
    }

    /** `getPendingCountFlow`: the value the count query emits. */
    function PendingCount(): (n: nat)
      reads this
      ensures n == 0 <==> pending == map[]
    {
      |pending|
    }

    /** `getAllPending`: the first list the flow emits, every row ordered by
        `createdAt`. */
    method GetAllPending() returns (snapshot: seq<DeliveryEntity>)
      requires Valid()
      ensures IsOrderedSnapshot(pending, snapshot)
      ensures |snapshot| == PendingCount()
    {
      var remaining := pending.Keys;
      snapshot := [];
      while remaining != {}
        invariant SnapshotSoFar(pending, snapshot, remaining)
        decreases |remaining|
      {
        EarliestExists(pending, remaining);
        var k :| k in remaining && forall j :: j in remaining ==> pending[k].createdAt <= pending[j].createdAt;
        ExtendSnapshot(pending, snapshot, remaining, k);
        snapshot := snapshot + [pending[k]];
        remaining := remaining - {k};
      }
    }

    /** `deleteByIds`: removes exactly the listed rows and returns how many
        existed. */
    method DeleteByIds(ids: seq<int>) returns (count: nat)
      requires Valid()
      modifies this`pending
      ensures Valid()
      ensures pending == old(pending) - (set id | id in ids)
      ensures count == |old(pending).Keys * (set id | id in ids)|
      ensures |pending| == |old(pending)| - count
    {
      var doomed := set id | id in ids;
      var kept := pending.Keys - doomed;
      var gone := pending.Keys * doomed;
      assert pending.Keys == kept + gone && kept !! gone;
      count := |gone|;
      pending := pending - doomed;
      assert pending.Keys == kept;
    }

    /** `updateRetryCount`: sets the retry count of the row with that id, if
        there is one, and returns the number of rows changed. */
    method UpdateRetryCount(id: int, retryCount: Int32) returns (count: nat)
      requires Valid()
      modifies this`pending
      ensures Valid()
      ensures count == if id in old(pending) then 1 else 0
      ensures id in old(pending) ==> pending == old(pending)[id := old(pending)[id].(retryCount := retryCount)]
      ensures id !in old(pending) ==> pending == old(pending)
    {
      if id in pending {
        pending := pending[id := pending[id].(retryCount := retryCount)];
        count := 1;
      } else {
        count := 0;
      }
    }

    /** `clearHistory`: empties the history cache. */
    method ClearHistory()
      modifies this`history
      ensures history == map[]
    {
      history := map[];
    }

    /** `insertHistory`: writes the rows in order, replacing rows with the same
        id. */
    method InsertHistory(items: seq<HistoryEntity>)
      modifies this`history
      ensures history == Tables.UpsertAll(old(history), items, HistoryKey)
    {
      var i := 0;
      while i < |items|
        invariant 0 <= i <= |items|
        invariant history == Tables.UpsertAll(old(history), items[..i], HistoryKey)
      {
        assert items[..i + 1][..i] == items[..i];
        history := history[items[i].id := items[i]];
        i := i + 1;
      }
      assert items[..|items|] == items;
    }
  }
}
