/** HistoryRemoteMediator.kt: loads one page of the delivery history from
    the server into the local history cache and records the paging cursor. */
module Mediator {
  import opened Common
  import opened Text
  import opened Transport
  import opened Entities
  import opened Dao
  import opened RemoteKeysStore
  import Tables

  /** The one cursor row the mediator uses, whatever the keyword. */
  const HISTORY_REPO_KEY: string := "HISTORY"

  const MEDIATOR_FAILED: string := "History mediator failed"

  datatype LoadType = Refresh | Prepend | Append

  /** `MediatorResult`. */
  datatype MediatorResult = MediatorSuccess(endOfPaginationReached: bool) | MediatorError(error: Throwable)

  /** The id the mediator invents for element `i` of page `page` when the
      element has neither "id" nor "code". */
  function SyntheticId(page: Int32, i: nat): string {
    IntToString(page) + "_" + IntToString(i)
  }

  /** The position of element `i` of page `page` in the cached list: the
      32-bit value of `(page - 1) * limit + i`, widened to a `Long`. */
  function RowOrder(page: Int32, limit: Int32, i: nat): (r: int)
    ensures INT_MIN <= (page - 1) * limit + i <= INT_MAX ==> r == (page - 1) * limit + i
  {
    Wrap((page - 1) * limit + i)
  }

  /** The optional string field `name` (`has && !isNull ? getString : null`). */
  function NonNullText(o: JsonObject, name: string): (r: Option<string>)
    ensures r.Some? <==> HasNonNull(o, name)
    ensures r.Some? ==> r.value == ValueText(o[name])
  {
    if HasNonNull(o, name) then Some(ValueText(o[name])) else None
  }

  /** The cached row built from element `i` of page `page`. */
  function ItemFromJson(page: Int32, limit: Int32, i: nat, o: JsonObject): (h: HistoryEntity)
    ensures "id" in o ==> h.id == ValueText(o["id"])
    ensures "id" !in o && "code" in o ==> h.id == ValueText(o["code"]) == h.code
    ensures "id" !in o && "code" !in o ==> h.id == SyntheticId(page, i) && h.code == ""
    ensures HasNonNull(o, "receiverProofPath") ==> h.receiverProofPath == Some(ValueText(o["receiverProofPath"]))
    ensures !HasNonNull(o, "receiverProofPath") && HasNonNull(o, "receiverProof") ==>
              h.receiverProofPath == Some(ValueText(o["receiverProof"]))
    ensures !HasNonNull(o, "receiverProofPath") && !HasNonNull(o, "receiverProof") ==> h.receiverProofPath == None
    ensures h.createdAt.Some? <==> HasNonNull(o, "createdAt")
    ensures h.rowOrder == RowOrder(page, limit, i)
  {
    var receiverPath :=
      if HasNonNull(o, "receiverProofPath") then NonNullText(o, "receiverProofPath")
      else NonNullText(o, "receiverProof");
    HistoryEntity(
      OptString(o, "id", OptString(o, "code", SyntheticId(page, i))),
      OptString(o, "item", ""),
      OptString(o, "serialNumber", ""),
      OptString(o, "sim", ""),
      OptString(o, "merchant", ""),
      OptString(o, "shop", ""),
      OptString(o, "receiver", ""),
      OptString(o, "deliveryAgent", ""),
      OptString(o, "code", ""),
      receiverPath,
      NonNullText(o, "createdAt"),
      RowOrder(page, limit, i))
  }

  /** The text fields of a cached row are read from its object with
      `optString`, and `createdAt` is the member's text when it is present
      and not null. */
  lemma ItemFromJsonCopiesFields(page: Int32, limit: Int32, i: nat, o: JsonObject)
    ensures var h := ItemFromJson(page, limit, i, o);
      && CopiesTextFields(o, h.item, h.serialNumber, h.sim, h.merchant, h.shop, h.receiver, h.deliveryAgent, h.code)
      && (h.createdAt.Some? ==> h.createdAt.value == ValueText(o["createdAt"]))
  {
  }

  /** The rows of a page, one per element, in response order. */
  function ItemsOf(page: Int32, limit: Int32, elements: seq<JsonElement>): (items: seq<HistoryEntity>)
    requires AllObjects(elements)
    ensures |items| == |elements|
    ensures forall i :: 0 <= i < |items| ==> items[i] == ItemFromJson(page, limit, i, elements[i].fields)
  {
    seq(|elements|, i requires 0 <= i < |elements| => ItemFromJson(page, limit, i, elements[i].fields))
  }

  /** `endOfPaginationReached`: the page came back short. */
  predicate EndReached(count: nat, limit: Int32) {
    count < limit
  }

  /** The cursor stored after loading page `page`. */
  function StoredKeys(page: Int32, end: bool): (k: RemoteKeys)
    ensures k.repoId == HISTORY_REPO_KEY
    ensures k.prevKey.None? <==> page == 1
    ensures k.nextKey.None? <==> end
    ensures page != 1 && page != INT_MIN ==> k.prevKey == Some(page - 1)
    ensures !end && page != INT_MAX ==> k.nextKey == Some(page + 1)
  {
    RemoteKeys(HISTORY_REPO_KEY,
               if page == 1 then None else Some(Wrap(page - 1)),
               if end then None else Some(Inc(page)))
  }

  /** The page an APPEND asks for: the stored `nextKey`, if any. */
  function AppendPage(stored: Option<RemoteKeys>): Option<Int32> {
    if stored.Some? then stored.value.nextKey else None
  }

  /** The answer is a 2xx whose body is an array of objects. */
  predicate IsPage(response: NetworkResult<HistoryBody>) {
    && response.Success? && IsSuccessCode(response.code)
    && BodyOrEmpty(response.body).JsonArray?
    && AllObjects(BodyOrEmpty(response.body).elements)
  }

  function PageElements(response: NetworkResult<HistoryBody>): seq<JsonElement>
    requires IsPage(response)
  {
    BodyOrEmpty(response.body).elements
  }

  /** The error the mediator reports for an answer that is not a page. */
  function LoadFailure(response: NetworkResult<HistoryBody>): (t: Throwable)
    requires !IsPage(response)
    ensures response.Success? && !IsSuccessCode(response.code) ==>
              t.message == Some(ServerReturnedCode(response.code))
    ensures response.Success? && IsSuccessCode(response.code) ==> t.message == Some(MEDIATOR_FAILED)
    ensures response.Failure? ==> t == FailureThrowable(response.throwable)
  {
    match response
    case Failure(thrown) => FailureThrowable(thrown)
    case Success(code, _) =>
      if !IsSuccessCode(code) then Throwable(Some(ServerReturnedCode(code)))
      else Throwable(Some(MEDIATOR_FAILED))
  }

  /** The item loop of `load`: one row per element, in order, or nothing
      when `getJSONObject` throws on some element. */
  method ParseItems(page: Int32, limit: Int32, elements: seq<JsonElement>) returns (items: Option<seq<HistoryEntity>>)
    ensures items.Some? <==> AllObjects(elements)
    ensures items.Some? ==> items.value == ItemsOf(page, limit, elements)
  {
    var rows: seq<HistoryEntity> := [];
    for i := 0 to |elements|
      invariant |rows| == i
      invariant forall j :: 0 <= j < i ==> elements[j].JObject?
      invariant forall j :: 0 <= j < i ==> rows[j] == ItemFromJson(page, limit, j, elements[j].fields)
    {
      match elements[i]
      case JNotObject =>
        return None;
      case JObject(o) =>
        rows := rows + [ItemFromJson(page, limit, i, o)];
    }
    return Some(rows);
  }

  class HistoryRemoteMediator {
    const keyword: Option<string>
    const dao: DeliveryDao
    const remoteKeysDao: RemoteKeysDao

    constructor (dao: DeliveryDao, remoteKeysDao: RemoteKeysDao, keyword: Option<string>)
      ensures this.dao == dao && this.remoteKeysDao == remoteKeysDao && this.keyword == keyword
    {
      this.dao := dao;
      this.remoteKeysDao := remoteKeysDao;
      this.keyword := keyword;
    }

    /** The transaction of `load`: a REFRESH first empties both tables; then
        the page's rows and the new cursor are written. */
    method WritePage(refresh: bool, items: seq<HistoryEntity>, cursor: RemoteKeys)
      requires remoteKeysDao.Valid()
      modifies dao`history, remoteKeysDao
      ensures remoteKeysDao.Valid()
      ensures dao.history == Tables.UpsertAll(if refresh then map[] else old(dao.history), items, HistoryKey)
      ensures remoteKeysDao.keys == (if refresh then map[] else old(remoteKeysDao.keys))[cursor.repoId := cursor]
    {
      if refresh {
        dao.ClearHistory();
        remoteKeysDao.ClearRemoteKeys();
      }
      dao.InsertHistory(items);
      remoteKeysDao.InsertAll([cursor]);
      assert [cursor][..0] == [];
    }

    /** `load`: `request` is the `getHistory` call made, if any, and
        `response` what it returned. */
    method Load(loadType: LoadType, pageSize: Int32, response: NetworkResult<HistoryBody>)
      returns (result: MediatorResult, request: Option<HistoryRequest>)
      requires remoteKeysDao.Valid()
      modifies dao`history, remoteKeysDao
      ensures remoteKeysDao.Valid()
      ensures loadType == Prepend ==> request == None
      ensures loadType == Refresh ==> request == Some(HistoryRequest(1, HistoryLimit(pageSize), keyword))
      ensures loadType == Append ==>
        var page := AppendPage(old(remoteKeysDao.RemoteKeysByRepoId(HISTORY_REPO_KEY)));
        request == if page.Some? then Some(HistoryRequest(page.value, HistoryLimit(pageSize), keyword)) else None
      ensures request == None ==>
        result == MediatorSuccess(true) && dao.history == old(dao.history) && remoteKeysDao.keys == old(remoteKeysDao.keys)
      ensures request.Some? && !IsPage(response) ==>
        && result == MediatorError(LoadFailure(response))
        && dao.history == old(dao.history) && remoteKeysDao.keys == old(remoteKeysDao.keys)
      ensures request.Some? && IsPage(response) ==>
        var page, limit, elements := request.value.page, request.value.limit, PageElements(response);
        var end := EndReached(|elements|, limit);
        && result == MediatorSuccess(end)
        && dao.history == Tables.UpsertAll(if loadType == Refresh then map[] else old(dao.history),
                                           ItemsOf(page, limit, elements), HistoryKey)
        && remoteKeysDao.keys
           == (if loadType == Refresh then map[] else old(remoteKeysDao.keys))[HISTORY_REPO_KEY := StoredKeys(page, end)]
    {
      var page: Int32;
      match loadType {
        case Prepend =>
          result, request := MediatorSuccess(true), None;
          return;
        case Refresh =>
          page := 1;
        case Append =>
          var keys := remoteKeysDao.RemoteKeysByRepoId(HISTORY_REPO_KEY);
          if keys.None? || keys.value.nextKey.None? {
            result, request := MediatorSuccess(true), None;
            return;
          }
          page := keys.value.nextKey.value;
      }
      var limit := HistoryLimit(pageSize);
      request := Some(HistoryRequest(page, limit, keyword));
      if response.Failure? {
        result := MediatorError(FailureThrowable(response.throwable));
        return;
      }
      if !IsSuccessCode(response.code) {
        result := MediatorError(Throwable(Some(ServerReturnedCode(response.code))));
        return;
      }
      var arr := BodyOrEmpty(response.body);
      if arr.NotArray? {
        result := MediatorError(Throwable(Some(MEDIATOR_FAILED)));
        return;
      }
      var items := ParseItems(page, limit, arr.elements);
      if items.None? {
        result := MediatorError(Throwable(Some(MEDIATOR_FAILED)));
        return;
      }
      var end := EndReached(|arr.elements|, limit);
      WritePage(loadType == Refresh, items.value, StoredKeys(page, end));
      result := MediatorSuccess(end);
    }
  }

  /** The product of two non-negative numbers is non-negative. */
  lemma {:induction false} ProductNonNegative(a: int, b: int)
    requires a >= 0 && b >= 0
    ensures a * b >= 0
  {
    if a > 0 {
      ProductNonNegative(a - 1, b);
    }
  }

  /** Within a page whose positions fit in an `Int`, the row order grows
      with the element index and starts at `(page - 1) * limit`. */
  lemma RowOrderIncreasesWithinPage(page: Int32, limit: Int32, elements: seq<JsonElement>)
    requires AllObjects(elements)
    requires page >= 1 && limit >= 0
    requires (page - 1) * limit + |elements| <= INT_MAX + 1
    ensures forall i :: 0 <= i < |elements| ==> ItemsOf(page, limit, elements)[i].rowOrder == (page - 1) * limit + i
    ensures forall i, j :: 0 <= i < j < |elements| ==>
              ItemsOf(page, limit, elements)[i].rowOrder < ItemsOf(page, limit, elements)[j].rowOrder
  {
    var items := ItemsOf(page, limit, elements);
    ProductNonNegative(page - 1, limit);
    forall i | 0 <= i < |elements| ensures items[i].rowOrder == (page - 1) * limit + i {
      assert items[i].rowOrder == RowOrder(page, limit, i);
    }
  }

  /** Every row of page `page` comes before every row of page `page + 1`
      when no page returns more than `limit` elements and the positions fit
      in an `Int`. */
  lemma RowOrderIncreasesAcrossPages(page: Int32, next: Int32, limit: Int32, a: seq<JsonElement>, b: seq<JsonElement>)
    requires AllObjects(a) && AllObjects(b)
    requires page >= 1 && limit >= 0 && next == page + 1
    requires |a| <= limit
    requires page * limit + |b| <= INT_MAX + 1
    ensures forall i, j :: 0 <= i < |a| && 0 <= j < |b| ==>
              ItemsOf(page, limit, a)[i].rowOrder < ItemsOf(next, limit, b)[j].rowOrder
  {
    assert (page - 1) * limit + limit == page * limit;
    assert (page - 1) * limit + |a| <= INT_MAX + 1;
    RowOrderIncreasesWithinPage(page, limit, a);
    RowOrderIncreasesWithinPage(next, limit, b);
  }

  /** The ids invented for different elements of one page differ. */
  lemma SyntheticIdsDiffer(page: Int32, i: nat, j: nat)
    requires i != j
    ensures SyntheticId(page, i) != SyntheticId(page, j)
  {
    var p := IntToString(page) + "_";
    if SyntheticId(page, i) == SyntheticId(page, j) {
      assert SyntheticId(page, i) == p + NatToString(i);
      assert SyntheticId(page, j) == p + NatToString(j);
      assert NatToString(i) == SyntheticId(page, i)[|p|..];
      assert NatToString(j) == SyntheticId(page, j)[|p|..];
      NatToStringInjective(i, j);
    }
  }

  /** A page whose elements carry neither "id" nor "code" is cached row for
      row: its rows get distinct keys, so inserting it into an empty history
      (a REFRESH) keeps every one of them, under its invented id. */
  lemma PageWithoutIdsKeepsEveryRow(page: Int32, limit: Int32, elements: seq<JsonElement>)
    requires AllObjects(elements)
    requires forall i :: 0 <= i < |elements| ==> "id" !in elements[i].fields && "code" !in elements[i].fields
    ensures |Tables.UpsertAll(map[], ItemsOf(page, limit, elements), HistoryKey)| == |elements|
    ensures forall i :: 0 <= i < |elements| ==>
              && SyntheticId(page, i) in Tables.UpsertAll(map[], ItemsOf(page, limit, elements), HistoryKey)
              && Tables.UpsertAll(map[], ItemsOf(page, limit, elements), HistoryKey)[SyntheticId(page, i)]
                 == ItemsOf(page, limit, elements)[i]
  {
    var items := ItemsOf(page, limit, elements);
    forall i | 0 <= i < |items| ensures HistoryKey(items[i]) == SyntheticId(page, i) {
      assert items[i] == ItemFromJson(page, limit, i, elements[i].fields);
    }
    forall i, j | 0 <= i < j < |items| ensures HistoryKey(items[i]) != HistoryKey(items[j]) {
      SyntheticIdsDiffer(page, i, j);
    }
    Tables.UpsertAllDistinctKeepsAll(items, HistoryKey);
  }
}
