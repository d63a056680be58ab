/** Room's `@Insert(onConflict = REPLACE)` of a list into a table whose
    primary key is a string: the rows are written one after another, and a
    row whose key is already present replaces the old one. */
module Tables {

  function UpsertAll<V>(m: map<string, V>, items: seq<V>, key: V -> string): map<string, V>
    decreases |items|
  {
    if items == [] then m
    else UpsertAll(m, items[..|items| - 1], key)[key(items[|items| - 1]) := items[|items| - 1]]
  }

  /** The keys afterwards are the old keys and the keys of the inserted items. */
  lemma {:induction false} UpsertAllKeys<V>(m: map<string, V>, items: seq<V>, key: V -> string)
    ensures UpsertAll(m, items, key).Keys == m.Keys + (set i | 0 <= i < |items| :: key(items[i]))
    decreases |items|
  {
    if items != [] {
      var n := |items| - 1;
      var front := items[..n];
      UpsertAllKeys(m, front, key);
      assert forall i :: 0 <= i < n ==> front[i] == items[i];
      assert (set i | 0 <= i < |items| :: key(items[i]))
          == (set i | 0 <= i < n :: key(front[i])) + {key(items[n])};
    }
  }

  /** A key that none of the items carries keeps its old row, or stays absent. */
  lemma {:induction false} UpsertAllUntouched<V>(m: map<string, V>, items: seq<V>, key: V -> string, k: string)
    requires forall i :: 0 <= i < |items| ==> key(items[i]) != k
    ensures k in UpsertAll(m, items, key) <==> k in m
    ensures k in m ==> UpsertAll(m, items, key)[k] == m[k]
    decreases |items|
  {
    if items != [] {
      var n := |items| - 1;
      assert forall i :: 0 <= i < n ==> items[..n][i] == items[i];
      UpsertAllUntouched(m, items[..n], key, k);
    }
  }

  /** The row stored under a key is the last item that carries it. */
  lemma {:induction false} UpsertAllLastWins<V>(m: map<string, V>, items: seq<V>, key: V -> string, i: int)
    requires 0 <= i < |items|
    requires forall j :: i < j < |items| ==> key(items[j]) != key(items[i])
    ensures key(items[i]) in UpsertAll(m, items, key)
    ensures UpsertAll(m, items, key)[key(items[i])] == items[i]
    decreases |items|
  {
    var n := |items| - 1;
    if i < n {
      assert forall j :: 0 <= j < n ==> items[..n][j] == items[j];
      UpsertAllLastWins(m, items[..n], key, i);
    }
  }

  /** Pairwise distinct keys of `n` items form a set of `n` keys. */
  lemma {:induction false} DistinctKeysCount<V>(items: seq<V>, key: V -> string)
    requires forall i, j :: 0 <= i < j < |items| ==> key(items[i]) != key(items[j])
    ensures |set i | 0 <= i < |items| :: key(items[i])| == |items|
    decreases |items|
  {
    if items != [] {
      var n := |items| - 1;
      var front := items[..n];
      assert forall i :: 0 <= i < n ==> front[i] == items[i];
      DistinctKeysCount(front, key);
      assert (set i | 0 <= i < |items| :: key(items[i]))
          == (set i | 0 <= i < n :: key(front[i])) + {key(items[n])};
    }
  }

  /** Items with pairwise distinct keys written into an empty table are all
      kept, each under its own key. */
  lemma UpsertAllDistinctKeepsAll<V>(items: seq<V>, key: V -> string)
    requires forall i, j :: 0 <= i < j < |items| ==> key(items[i]) != key(items[j])
    ensures |UpsertAll(map[], items, key)| == |items|
    ensures forall i :: 0 <= i < |items| ==>
              key(items[i]) in UpsertAll(map[], items, key) && UpsertAll(map[], items, key)[key(items[i])] == items[i]
  {
    UpsertAllKeys(map[], items, key);
    DistinctKeysCount(items, key);
    assert |UpsertAll(map[], items, key)| == |UpsertAll(map[], items, key).Keys|;
    forall i | 0 <= i < |items|
      ensures key(items[i]) in UpsertAll(map[], items, key) && UpsertAll(map[], items, key)[key(items[i])] == items[i]
    {
      UpsertAllLastWins(map[], items, key, i);
    }
  }
}
