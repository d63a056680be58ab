/** The persisted records: DeliveryEntity.kt, HistoryEntity.kt, RemoteKeys.kt,
    and the list item the network-only history source produces. */
module Entities {
  import opened Common

  /** A row of the pending (offline) queue. `id` 0 asks the table to assign
      one. `createdAt` is epoch milliseconds. */
  datatype DeliveryEntity = DeliveryEntity(
    id: int,
    item: string,
    serialNumber: string,
    sim: string,
    merchant: string,
    shop: string,
    receiver: string,
    deliveryAgent: string,
    receiverProofPath: Option<string>,
    createdAt: int,
    retryCount: Int32,
    code: Option<string>,
    status: Option<string>
  )

  /** A new queue entry with the entity's default values: no id yet, no
      retries, empty server code, status "PENDING". */
  function NewDelivery(item: string, serialNumber: string, sim: string, merchant: string,
                       shop: string, receiver: string, deliveryAgent: string,
                       receiverProofPath: Option<string>, now: int): (e: DeliveryEntity)
    ensures e.id == 0 && e.retryCount == 0 && e.createdAt == now
    ensures e.code == Some("") && e.status == Some("PENDING")
  {
    DeliveryEntity(0, item, serialNumber, sim, merchant, shop, receiver, deliveryAgent,
                   receiverProofPath, now, 0, Some(""), Some("PENDING"))
  }

  /** A row of the history cache, keyed by the server's id or code. */
  datatype HistoryEntity = HistoryEntity(
    id: string,
    item: string,
    serialNumber: string,
    sim: string,
    merchant: string,
    shop: string,
    receiver: string,
    deliveryAgent: string,
    code: string,
    receiverProofPath: Option<string>,
    createdAt: Option<string>,
    rowOrder: int
  )

  /** The paging cursor stored for one query context. */
  datatype RemoteKeys = RemoteKeys(repoId: string, prevKey: Option<Int32>, nextKey: Option<Int32>)

  /** A history row as the network-only paging source hands it to the list. */
  datatype DeliveryItem = DeliveryItem(
    item: string,
    serialNumber: string,
    sim: string,
    merchant: string,
    shop: string,
    receiver: string,
    deliveryAgent: string,
    code: string,
    receiverProofPath: string
  )
}
