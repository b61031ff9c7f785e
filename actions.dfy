/**
 * The four item mutations of the repository, the remote write each one
 * pushes, the pending action each one queues, and how the sync engine
 * decodes a pending action back into a remote write.
 */
module Actions {
  import opened Models
  import opened ItemTable

  /** A write to the remote store. */
  datatype RemoteOp =
    | Insert(item: Item)                                    // insert into items
    | Update(id: string, item: Item)                        // update items set <item> where id
    | PatchQuantity(id: string, quantity: int)              // update items set quantity where id
    | PatchDeleted(id: string, deletedAt: string, deletedBy: string) // soft delete where id
    | InsertCategory(fields: map<string, string>)          // insert into categories

  /** The effect of a write on an items table. Insert replaces a row with the
      same key; the UPDATE forms match at most one row by key. */
  function ApplyItems(table: Table, op: RemoteOp): (t: Table)
    ensures op.InsertCategory? ==> t == table
    ensures KeysMatch(table) ==> KeysMatch(t)
  {
    match op
    case Insert(item) => Upsert(table, item)
    case Update(id, item) => if id in table then (table - {id})[item.id := item] else table
    case PatchQuantity(id, q) => WithQuantity(table, id, q)
    case PatchDeleted(id, at, user) => WithDeletion(table, id, at, user)
    case InsertCategory(_) => table
  }

  /** One call of a repository mutator. `Delete` carries the one timestamp
      and the one user id the call uses throughout. */
  datatype Mutation =
    | Add(item: Item)
    | Edit(item: Item)
    | ChangeQuantity(id: string, quantity: int)
    | Delete(id: string, now: string, userId: string)

  /** The local DAO write a mutation makes first. */
  function LocalWrite(table: Table, m: Mutation): Table {
    match m
    case Add(item) => Upsert(table, item)
    case Edit(item) => Replace(table, item)
    case ChangeQuantity(id, q) => WithQuantity(table, id, q)
    case Delete(id, now, userId) => WithDeletion(table, id, now, userId)
  }

  /** The remote write a mutation pushes when online. */
  function PushOf(m: Mutation): RemoteOp {
    match m
    case Add(item) => Insert(item)
    case Edit(item) => Update(item.id, item)
    case ChangeQuantity(id, q) => PatchQuantity(id, q)
    case Delete(id, now, userId) => PatchDeleted(id, now, userId)
  }

  function TypeOf(m: Mutation): ActionType {
    match m
    case Add(_) => ADD_ITEM
    case Edit(_) => UPDATE_ITEM
    case ChangeQuantity(_, _) => UPDATE_QUANTITY
    case Delete(_, _, _) => DELETE_ITEM
  }

  function EntityOf(m: Mutation): string {
    match m
    case Add(item) => item.id
    case Edit(item) => item.id
    case ChangeQuantity(id, _) => id
    case Delete(id, _, _) => id
  }

  /** The JSON the mutation queues: the whole item, `{quantity}`, or
      `{deleted_at, deleted_by}`. */
  function PayloadOf(m: Mutation): Payload {
    match m
    case Add(item) => ItemJson(item)
    case Edit(item) => ItemJson(item)
    case ChangeQuantity(_, q) => QuantityJson(q)
    case Delete(_, now, userId) => DeletionJson(now, userId)
  }

  /** The pending action queued for a mutation, before storage assigns its key. */
  function QueuedAction(m: Mutation, timestamp: int): (a: PendingAction)
    ensures !a.synced && a.id == 0 && a.timestamp == timestamp
    ensures a.actionType == TypeOf(m) && a.entityId == EntityOf(m)
  {
    NewPendingAction(TypeOf(m), EntityOf(m), PayloadOf(m), timestamp)
  }

  /** The sync engine's dispatch: decode the payload as the type demands and
      build the remote write for the action's entity. `None` stands for a
      payload that does not decode as that type. */
  function Decode(a: PendingAction): (r: Option<RemoteOp>)
    ensures r.Some? && a.actionType == ADD_CATEGORY ==> r.value.InsertCategory?
    ensures r.Some? && a.actionType != ADD_CATEGORY ==> !r.value.InsertCategory?
  {
    match (a.actionType, a.data)
    case (ADD_ITEM, ItemJson(item)) => Some(Insert(item))
    case (UPDATE_ITEM, ItemJson(item)) => Some(Update(a.entityId, item))
    case (UPDATE_QUANTITY, QuantityJson(q)) => Some(PatchQuantity(a.entityId, q))
    case (DELETE_ITEM, DeletionJson(at, user)) => Some(PatchDeleted(a.entityId, at, user))
    case (ADD_CATEGORY, CategoryJson(fields)) => Some(InsertCategory(fields))
    case _ => None
  }

  /** A queued action, whatever key storage gives it, replays exactly the
      write that the online path would have pushed. */
  lemma {:induction false} QueuedActionReplaysPush(m: Mutation, timestamp: int, id: int)
    ensures Decode(QueuedAction(m, timestamp).(id := id)) == Some(PushOf(m))
  {
    match m
    case Add(item) =>
    case Edit(item) =>
    case ChangeQuantity(_, _) =>
    case Delete(_, _, _) =>
  }

  /** Pushing a mutation does to a table holding the same rows exactly what
      the local write did: the cache and the remote store agree after a
      successful push. */
  lemma {:induction false} LocalWriteMirrorsPush(table: Table, m: Mutation)
    ensures ApplyItems(table, PushOf(m)) == LocalWrite(table, m)
  {
    match m
    case Edit(item) =>
      if item.id in table {
        assert (table - {item.id})[item.id := item] == table[item.id := item];
      }
    case Add(_) =>
    case ChangeQuantity(_, _) =>
    case Delete(_, _, _) =>
  }

  /** The dispatch as the sync engine is written: the `DELETE_ITEM` branch
      decodes its payload as a map from strings to `Any`, a type the JSON
      library has no serializer for, so that decode throws on every payload;
      the other branches decode as `Decode` does. */
  function DecodeAsWritten(a: PendingAction): (r: Option<RemoteOp>)
    ensures a.actionType == DELETE_ITEM ==> r.None?
    ensures a.actionType != DELETE_ITEM ==> r == Decode(a)
  {
    if a.actionType == DELETE_ITEM then None else Decode(a)
  }

  /** As written, a queued soft delete never decodes, so the sync engine can
      never send it; the intended dispatch `Decode` replays it exactly. */
  lemma {:induction false} QueuedDeleteNeverDecodesAsWritten(id: string, now: string, userId: string, timestamp: int, key: int)
    ensures DecodeAsWritten(QueuedAction(Delete(id, now, userId), timestamp).(id := key)).None?
    ensures Decode(QueuedAction(Delete(id, now, userId), timestamp).(id := key)) == Some(PushOf(Delete(id, now, userId)))
  {
    QueuedActionReplaysPush(Delete(id, now, userId), timestamp, key);
  }

  /** Which dispatch a sync engine runs: `AsWritten` is `DecodeAsWritten`,
      `Intended` is `Decode`. */
  datatype Dispatch = AsWritten | Intended

  function DecodeBy(d: Dispatch, a: PendingAction): Option<RemoteOp> {
    if d.AsWritten? then DecodeAsWritten(a) else Decode(a)
  }

  /** Under either dispatch a queued action replays the online push, except
      a soft delete under the dispatch as written, which never decodes. */
  lemma {:induction false} QueuedActionReplaysPushBy(d: Dispatch, m: Mutation, timestamp: int, key: int)
    ensures DecodeBy(d, QueuedAction(m, timestamp).(id := key)) ==
              if d.AsWritten? && m.Delete? then None else Some(PushOf(m))
  {
    QueuedActionReplaysPush(m, timestamp, key);
  }
}
