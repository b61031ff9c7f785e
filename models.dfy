/**
 * The data types of the Android client's data layer: the cached inventory
 * item, the queued offline mutation, its kind, and the result of a sync run.
 * Floating-point prices are not part of this model.
 */
module Models {

  datatype Option<+T> = None | Some(value: T)

  /** The outcome of a call that returns nothing but may throw; a thrown
      exception carries its (possibly null) message. */
  datatype Outcome = Ok | Thrown(message: Option<string>)

  /** The outcome of a call that returns a value or throws. */
  datatype Result<+T> = Success(value: T) | Failure(message: Option<string>)

  /** An inventory item; the defaults are those of the Kotlin data class.
      `id` is the primary key of the local `items` table. */
  datatype Item = Item(
    id: string := "",
    name: string,
    category: string,
    categoryId: Option<string> := None,
    details: Option<string> := None,
    photoUrl: Option<string> := None,
    quantity: int := 0,
    lowStockThreshold: int := 5,
    isDeleted: bool := false,
    createdBy: Option<string> := None,
    createdAt: Option<string> := None,
    updatedAt: Option<string> := None,
    deletedAt: Option<string> := None,
    deletedBy: Option<string> := None)

  /** An item that carries no soft-delete metadata at all. */
  predicate IsLive(item: Item) {
    !item.isDeleted && item.deletedAt == None && item.deletedBy == None
  }

  /** The five kinds of queued mutation. */
  datatype ActionType = ADD_ITEM | UPDATE_ITEM | DELETE_ITEM | UPDATE_QUANTITY | ADD_CATEGORY

  /** The serialized payload of a queued action, one shape per JSON object
      the repository encodes: a whole item, `{quantity}`,
      `{deleted_at, deleted_by}`, or a category's string fields. */
  datatype Payload =
    | ItemJson(item: Item)
    | QuantityJson(quantity: int)
    | DeletionJson(deletedAt: string, deletedBy: string)
    | CategoryJson(fields: map<string, string>)

  /** A row of the `pending_actions` table. */
  datatype PendingAction = PendingAction(
    id: int := 0,
    actionType: ActionType,
    entityId: string,
    data: Payload,
    timestamp: int,
    synced: bool := false)

  /** The summary of one sync run. */
  datatype SyncResult = SyncResult(
    success: bool,
    itemsSynced: int := 0,
    actionsSynced: int := 0,
    errors: seq<string> := [])

  /** A pending action as the repository builds it, before storage assigns
      its key: the placeholder id 0 and not yet synced. */
  function NewPendingAction(actionType: ActionType, entityId: string, data: Payload, timestamp: int): (a: PendingAction)
    ensures a.id == 0 && !a.synced
    ensures a.actionType == actionType && a.entityId == entityId && a.data == data && a.timestamp == timestamp
  {
    PendingAction(actionType := actionType, entityId := entityId, data := data, timestamp := timestamp)
  }
}
