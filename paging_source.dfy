/** HistoryPagingSource.kt: the network-only history list. It fetches page
    `key` (1 when none) and hands the rows to the list with the keys of the
    neighbouring pages. */
module PagingSource {
  import opened Common
  import opened Text
  import opened Transport
  import opened Entities
  import Mediator

  const LOAD_FAILED: string := "History load failed"

  /** `LoadResult`. */
  datatype LoadResult =
    | Page(data: seq<DeliveryItem>, prevKey: Option<Int32>, nextKey: Option<Int32>)
    | LoadError(error: Throwable)

  /** The keys of a loaded page, as `PagingState` keeps them. */
  datatype PageKeys = PageKeys(prevKey: Option<Int32>, nextKey: Option<Int32>)

  /** The list row built from one response object; a missing proof becomes "". */
  function DeliveryItemFromJson(o: JsonObject): (d: DeliveryItem)
    ensures "receiverProofPath" !in o ==> d.receiverProofPath == ""
    ensures "receiverProofPath" in o ==> d.receiverProofPath == ValueText(o["receiverProofPath"])
    ensures "code" !in o ==> d.code == ""
    ensures "item" in o && o["item"].JString? ==> d.item == o["item"].s
    ensures CopiesTextFields(o, d.item, d.serialNumber, d.sim, d.merchant, d.shop, d.receiver, d.deliveryAgent, d.code)
    ensures ReadsText(o, "receiverProofPath", d.receiverProofPath, "")
  {
    DeliveryItem(
      OptString(o, "item", ""),
      OptString(o, "serialNumber", ""),
      OptString(o, "sim", ""),
      OptString(o, "merchant", ""),
      OptString(o, "shop", ""),
      OptString(o, "receiver", ""),
      OptString(o, "deliveryAgent", ""),
      OptString(o, "code", ""),
      OptString(o, "receiverProofPath", ""))
  }

  /** `getRefreshKey`: with an anchor, the closest page's `prevKey + 1`,
      else its `nextKey - 1` (32-bit arithmetic). */
  function GetRefreshKey(anchor: Option<int>, closest: Option<PageKeys>): (r: Option<Int32>)
    ensures anchor.None? || closest.None? ==> r.None?
    ensures r.None? ==> anchor.None? || closest.None? || closest.value == PageKeys(None, None)
  {
    if anchor.None? || closest.None? then None
    else if closest.value.prevKey.Some? then Some(Wrap(closest.value.prevKey.value + 1))
    else if closest.value.nextKey.Some? then Some(Wrap(closest.value.nextKey.value - 1))
    else None
  }

  /** `load`: `request` is the `getHistory` call it makes, `response` what
      that call returned. */
  method Load(keyword: Option<string>, key: Option<Int32>, loadSize: Int32, response: NetworkResult<HistoryBody>)
    returns (result: LoadResult, request: HistoryRequest)
    ensures request.page == key.GetOr(1)
    ensures request.limit == HistoryLimit(loadSize) && request.keyword == keyword
    ensures result.Page? <==> Mediator.IsPage(response)
    ensures result.Page? ==>
      var elements := Mediator.PageElements(response);
      && |result.data| == |elements|
      && (forall i :: 0 <= i < |elements| ==> result.data[i] == DeliveryItemFromJson(elements[i].fields))
      && (result.prevKey.None? <==> request.page == 1)
      && (result.prevKey.Some? ==> result.prevKey.value == Wrap(request.page - 1))
      && (result.nextKey.None? <==> |elements| < request.limit)
      && (result.nextKey.Some? ==> result.nextKey.value == Inc(request.page))
    ensures response.Success? && !IsSuccessCode(response.code) ==>
      result == LoadError(Throwable(Some(ServerReturnedCode(response.code))))
    ensures response.Failure? ==> result == LoadError(FailureThrowable(response.throwable))
    ensures response.Success? && IsSuccessCode(response.code) && !Mediator.IsPage(response) ==>
      result == LoadError(Throwable(Some(LOAD_FAILED)))
  {
    var page := key.GetOr(1);
    var limit := HistoryLimit(loadSize);
    request := HistoryRequest(page, limit, keyword);
    match response {
      case Failure(t) =>
        return LoadError(FailureThrowable(t)), request;
      case Success(code, body) =>
        if !IsSuccessCode(code) {
          return LoadError(Throwable(Some(ServerReturnedCode(code)))), request;
        }
    }
    var arr := BodyOrEmpty(response.body);
    if arr.NotArray? {
      return LoadError(Throwable(Some(LOAD_FAILED))), request;
    }
    var list: seq<DeliveryItem> := [];
    for i := 0 to |arr.elements|
      invariant |list| == i
      invariant forall j :: 0 <= j < i ==> arr.elements[j].JObject?
      invariant forall j :: 0 <= j < i ==> list[j] == DeliveryItemFromJson(arr.elements[j].fields)
    {
      match arr.elements[i]
      case JNotObject =>
        return LoadError(Throwable(Some(LOAD_FAILED))), request;
      case JObject(o) =>
        list := list + [DeliveryItemFromJson(o)];
    }
    var nextKey := if |arr.elements| < limit then None else Some(Inc(page));
    result := Page(list, if page == 1 then None else Some(Wrap(page - 1)), nextKey);
  }

  /** The refresh key computed from a loaded page's keys is that page again,
      also across the 32-bit wrap-around, unless it was page 1 and also the
      last one (no neighbour in either direction). */
  lemma RefreshKeyRecoversPage(anchor: int, page: Int32, prevKey: Option<Int32>, nextKey: Option<Int32>)
    requires prevKey.None? <==> page == 1
    requires prevKey.Some? ==> prevKey.value == Wrap(page - 1)
    requires nextKey.Some? ==> nextKey.value == Inc(page)
    ensures GetRefreshKey(Some(anchor), Some(PageKeys(prevKey, nextKey))) == if prevKey.None? && nextKey.None? then None else Some(page)
  {
    if prevKey.Some? {
      WrapPredSucc(page);
    } else if nextKey.Some? {
      WrapSuccPred(page);
    }
  }

  /** This source and the mediator derive the same neighbour keys from the
      same page, limit and element count. */
  lemma KeysAgreeWithMediator(page: Int32, limit: Int32, count: nat)
    ensures (if page == 1 then None else Some(Wrap(page - 1)))
         == Mediator.StoredKeys(page, Mediator.EndReached(count, limit)).prevKey
    ensures (if count < limit then None else Some(Inc(page)))
         == Mediator.StoredKeys(page, Mediator.EndReached(count, limit)).nextKey
  {
  }
}
