/** RemoteKeysDao.kt: the `remote_keys` table, one paging cursor per
    `repoId` (its primary key). */
module RemoteKeysStore {
  import opened Common
  import opened Entities
  import Tables

  /** The primary key of the remote-keys table. */
  function RepoKey(k: RemoteKeys): string {
    k.repoId
  }

  class RemoteKeysDao {
    var keys: map<string, RemoteKeys>

    /** Every cursor is stored under its own `repoId`. */
    ghost predicate Valid()
      reads this
    {
      forall r :: r in keys ==> keys[r].repoId == r
    }

    constructor ()
      ensures Valid() && keys == map[]
    {
      keys := map[];
    }

    /** `remoteKeysByRepoId`: the row whose `repoId` matches, or null. */
    function RemoteKeysByRepoId(repoId: string): (r: Option<RemoteKeys>)
      reads this
      requires Valid()
      ensures r.Some? <==> repoId in keys
      ensures r.Some? ==> r.value.repoId == repoId && r.value == keys[repoId]
    {
      if repoId in keys then Some(keys[repoId]) else None
    }

    /** `insertAll` (REPLACE): writes the rows in order; a row whose `repoId`
        is present replaces the stored one. */
    method InsertAll(rows: seq<RemoteKeys>)
      requires Valid()
      modifies this
      ensures Valid()
      ensures keys == Tables.UpsertAll(old(keys), rows, RepoKey)
    {
      var i := 0;
      while i < |rows|
        invariant 0 <= i <= |rows|
        invariant Valid()
        invariant keys == Tables.UpsertAll(old(keys), rows[..i], RepoKey)
      {
        assert rows[..i + 1][..i] == rows[..i];
        keys := keys[rows[i].repoId := rows[i]];
        i := i + 1;
      }
      assert rows[..|rows|] == rows;
    }

    /** `clearRemoteKeys`: afterwards every lookup finds nothing. */
    method ClearRemoteKeys()
      modifies this
      ensures Valid()
      ensures keys == map[]
      ensures forall r :: RemoteKeysByRepoId(r) == None
    {
      keys := map[];
    }
  }

  /** After `insertAll`, the cursor of a listed `repoId` is the last row in
      the list that carries it. */
  lemma InsertAllLastWins(before: map<string, RemoteKeys>, rows: seq<RemoteKeys>, i: int)
    requires 0 <= i < |rows|
    requires forall j :: i < j < |rows| ==> rows[j].repoId != rows[i].repoId
    ensures rows[i].repoId in Tables.UpsertAll(before, rows, RepoKey)
    ensures Tables.UpsertAll(before, rows, RepoKey)[rows[i].repoId] == rows[i]
  {
    Tables.UpsertAllLastWins(before, rows, RepoKey, i);
  }

  /** `insertAll` leaves the cursors of every other `repoId` as they were. */
  lemma InsertAllKeepsOthers(before: map<string, RemoteKeys>, rows: seq<RemoteKeys>, repoId: string)
    requires forall j :: 0 <= j < |rows| ==> rows[j].repoId != repoId
    ensures repoId in Tables.UpsertAll(before, rows, RepoKey) <==> repoId in before
    ensures repoId in before ==> Tables.UpsertAll(before, rows, RepoKey)[repoId] == before[repoId]
  {
    Tables.UpsertAllUntouched(before, rows, RepoKey, repoId);
  }
}
