/**
 * The item repository: every mutator writes the local cache first, then
 * either pushes the same change to the remote store (when the caller says
 * it is online) or appends a pending action carrying that change. A push
 * that throws is swallowed and the change is queued instead.
 *
 * The caller's connectivity hint, the clock and the outcome of every
 * storage and network call are parameters.
 */
module ItemRepo {
  import opened Models
  import opened ItemTable
  import opened Actions
  import opened LocalStore
  import opened RemoteStore

  /** What `loadItems` returns: the items and whether they came from the cache. */
  datatype LoadedItems = LoadedItems(items: seq<Item>, fromCache: bool)

  class ItemRepository {
    const db: LocalDatabase
    const remote: Remote

    constructor (db: LocalDatabase, remote: Remote)
      ensures this.db == db && this.remote == remote
    {
      this.db := db;
      this.remote := remote;
    }

    /** Read the remote store when online and cache what was read; on
        offline or on any exception, read the cache. Never fails. */
    method LoadItems(isOnline: bool, fetch: Outcome, cacheWrite: Outcome) returns (r: LoadedItems)
      requires db.Valid() && remote.Valid()
      modifies db`items
      ensures db.Valid()
      ensures isOnline && fetch.Ok? && cacheWrite.Ok? ==>
                && !r.fromCache
                && (forall x :: x in r.items <==> x.id in remote.state.items && remote.state.items[x.id] == x && !x.isDeleted)
                && db.items == UpsertAll(old(db.items), r.items)
                && Refreshed(old(db.items), db.items, remote.state.items)
      ensures !(isOnline && fetch.Ok? && cacheWrite.Ok?) ==>
                && r.fromCache
                && db.items == old(db.items)
                && (forall x :: x in r.items <==> x.id in db.items && db.items[x.id] == x && !x.isDeleted)
    {
      if isOnline {
        var fetched := remote.SelectNonDeleted(fetch);
        if fetched.Success? {
          var cached := db.InsertItems(fetched.value, cacheWrite);
          if cached.Ok? {
            UpsertNonDeletedRows(old(db.items), remote.state.items, fetched.value);
            return LoadedItems(fetched.value, false);
          }
        }
      }
      var rows := db.GetItems();
      r := LoadedItems(rows, true);
    }

    /** `getItem`: a read of the cache only. */
    method GetItem(id: string) returns (r: Option<Item>)
      requires db.Valid()
      ensures r == if id in db.items then Some(db.items[id]) else None
      ensures r.Some? ==> r.value.id == id
    {
      r := if id in db.items then Some(db.items[id]) else None;
    }

    /** `queueAction`: append an unsynced action under the next key. */
    method QueueAction(actionType: ActionType, entityId: string, data: Payload, clock: int, fault: Outcome) returns (r: Outcome)
      requires db.Valid()
      modifies db`pending, db`nextId
      ensures db.Valid() && r == fault
      ensures fault.Ok? ==> db.pending == old(db.pending) + [NewPendingAction(actionType, entityId, data, clock).(id := old(db.nextId))]
      ensures fault.Ok? ==> db.nextId == old(db.nextId) + 1
      ensures fault.Thrown? ==> db.pending == old(db.pending) && db.nextId == old(db.nextId)
    {
      r := db.InsertAction(NewPendingAction(actionType, entityId, data, clock), fault);
    }

    method AddItem(item: Item, isOnline: bool, clock: int, local: Outcome, push: Outcome, queue: Outcome) returns (r: Outcome)
      requires db.Valid() && remote.Valid()
      modifies db, remote
      ensures db.Valid() && remote.Valid()
      // a failed local write propagates and nothing else happens
      ensures local.Thrown? ==> r == local && unchanged(db, remote)
      ensures local.Ok? ==> db.items == LocalWrite(old(db.items), Add(item))
      // the remote store is called only when online, and then once
      ensures !isOnline ==> unchanged(remote)
      ensures local.Ok? && isOnline ==> remote.writes == old(remote.writes) + [PushOf(Add(item))]
      // a push that returns normally queues nothing
      ensures local.Ok? && isOnline && push.Ok? ==>
                r == Ok && remote.state == ApplyOp(old(remote.state), PushOf(Add(item)))
                && db.pending == old(db.pending) && db.nextId == old(db.nextId)
      // offline, or a push that throws: exactly one action is queued
      ensures local.Ok? && !(isOnline && push.Ok?) ==> r == queue && remote.state == old(remote.state)
      ensures local.Ok? && !(isOnline && push.Ok?) && queue.Ok? ==>
                db.pending == old(db.pending) + [QueuedAction(Add(item), clock).(id := old(db.nextId))]
      ensures local.Ok? && !(isOnline && push.Ok?) && queue.Thrown? ==> db.pending == old(db.pending)
      // nothing is lost: a call that returns normally pushed the write or queued an action replaying it
      ensures r.Ok? ==>
                || (isOnline && push.Ok? && remote.state == ApplyOp(old(remote.state), PushOf(Add(item))))
                || (|db.pending| == |old(db.pending)| + 1 && Decode(db.pending[|old(db.pending)|]) == Some(PushOf(Add(item))))
    {
      r := db.InsertItem(item, local);
      if r.Thrown? {
        return;
      }
      if isOnline {
        var pushed := remote.Write(Insert(item), push);
        if pushed.Thrown? {
          r := QueueAction(ADD_ITEM, item.id, ItemJson(item), clock, queue);
        }
      } else {
        r := QueueAction(ADD_ITEM, item.id, ItemJson(item), clock, queue);
      }
      QueuedActionReplaysPush(Add(item), clock, old(db.nextId));
    }

    method UpdateItem(item: Item, isOnline: bool, clock: int, local: Outcome, push: Outcome, queue: Outcome) returns (r: Outcome)
      requires db.Valid() && remote.Valid()
      modifies db, remote
      ensures db.Valid() && remote.Valid()
      ensures local.Thrown? ==> r == local && unchanged(db, remote)
      ensures local.Ok? ==> db.items == LocalWrite(old(db.items), Edit(item))
      ensures !isOnline ==> unchanged(remote)
      ensures local.Ok? && isOnline ==> remote.writes == old(remote.writes) + [PushOf(Edit(item))]
      ensures local.Ok? && isOnline && push.Ok? ==>
                r == Ok && remote.state == ApplyOp(old(remote.state), PushOf(Edit(item)))
                && db.pending == old(db.pending) && db.nextId == old(db.nextId)
      ensures local.Ok? && !(isOnline && push.Ok?) ==> r == queue && remote.state == old(remote.state)
      ensures local.Ok? && !(isOnline && push.Ok?) && queue.Ok? ==>
                db.pending == old(db.pending) + [QueuedAction(Edit(item), clock).(id := old(db.nextId))]
      ensures local.Ok? && !(isOnline && push.Ok?) && queue.Thrown? ==> db.pending == old(db.pending)
      ensures r.Ok? ==>
                || (isOnline && push.Ok? && remote.state == ApplyOp(old(remote.state), PushOf(Edit(item))))
                || (|db.pending| == |old(db.pending)| + 1 && Decode(db.pending[|old(db.pending)|]) == Some(PushOf(Edit(item))))
    {
      r := db.UpdateItem(item, local);
      if r.Thrown? {
        return;
      }
      if isOnline {
        var pushed := remote.Write(Update(item.id, item), push);
        if pushed.Thrown? {
          r := QueueAction(UPDATE_ITEM, item.id, ItemJson(item), clock, queue);
        }
      } else {
        r := QueueAction(UPDATE_ITEM, item.id, ItemJson(item), clock, queue);
      }
      QueuedActionReplaysPush(Edit(item), clock, old(db.nextId));
    }

    method UpdateQuantity(id: string, quantity: int, isOnline: bool, clock: int, local: Outcome, push: Outcome, queue: Outcome) returns (r: Outcome)
      requires db.Valid() && remote.Valid()
      modifies db, remote
      ensures db.Valid() && remote.Valid()
      ensures local.Thrown? ==> r == local && unchanged(db, remote)
      ensures local.Ok? ==> db.items == LocalWrite(old(db.items), ChangeQuantity(id, quantity))
      ensures !isOnline ==> unchanged(remote)
      ensures local.Ok? && isOnline ==> remote.writes == old(remote.writes) + [PushOf(ChangeQuantity(id, quantity))]
      ensures local.Ok? && isOnline && push.Ok? ==>
                r == Ok && remote.state == ApplyOp(old(remote.state), PushOf(ChangeQuantity(id, quantity)))
                && db.pending == old(db.pending) && db.nextId == old(db.nextId)
      ensures local.Ok? && !(isOnline && push.Ok?) ==> r == queue && remote.state == old(remote.state)
      ensures local.Ok? && !(isOnline && push.Ok?) && queue.Ok? ==>
                db.pending == old(db.pending) + [QueuedAction(ChangeQuantity(id, quantity), clock).(id := old(db.nextId))]
      ensures local.Ok? && !(isOnline && push.Ok?) && queue.Thrown? ==> db.pending == old(db.pending)
      ensures r.Ok? ==>
                || (isOnline && push.Ok? && remote.state == ApplyOp(old(remote.state), PushOf(ChangeQuantity(id, quantity))))
                || (|db.pending| == |old(db.pending)| + 1
                    && Decode(db.pending[|old(db.pending)|]) == Some(PushOf(ChangeQuantity(id, quantity))))
    {
      r := db.UpdateQuantity(id, quantity, local);
      if r.Thrown? {
        return;
      }
      if isOnline {
        var pushed := remote.Write(PatchQuantity(id, quantity), push);
        if pushed.Thrown? {
          r := QueueAction(UPDATE_QUANTITY, id, QuantityJson(quantity), clock, queue);
        }
      } else {
        r := QueueAction(UPDATE_QUANTITY, id, QuantityJson(quantity), clock, queue);
      }
      QueuedActionReplaysPush(ChangeQuantity(id, quantity), clock, old(db.nextId));
    }

    /** The soft delete; `now` is the one timestamp the call reads from the
        clock and uses for the local row, the push and the queued payload. */
    method DeleteItem(id: string, userId: string, isOnline: bool, now: string, clock: int, local: Outcome, push: Outcome, queue: Outcome)
      returns (r: Outcome)
      requires db.Valid() && remote.Valid()
      modifies db, remote
      ensures db.Valid() && remote.Valid()
      ensures local.Thrown? ==> r == local && unchanged(db, remote)
      ensures local.Ok? ==> db.items == LocalWrite(old(db.items), Delete(id, now, userId))
      ensures !isOnline ==> unchanged(remote)
      ensures local.Ok? && isOnline ==> remote.writes == old(remote.writes) + [PushOf(Delete(id, now, userId))]
      ensures local.Ok? && isOnline && push.Ok? ==>
                r == Ok && remote.state == ApplyOp(old(remote.state), PushOf(Delete(id, now, userId)))
                && db.pending == old(db.pending) && db.nextId == old(db.nextId)
      ensures local.Ok? && !(isOnline && push.Ok?) ==> r == queue && remote.state == old(remote.state)
      ensures local.Ok? && !(isOnline && push.Ok?) && queue.Ok? ==>
                db.pending == old(db.pending) + [QueuedAction(Delete(id, now, userId), clock).(id := old(db.nextId))]
      ensures local.Ok? && !(isOnline && push.Ok?) && queue.Thrown? ==> db.pending == old(db.pending)
      // nothing is lost under the intended dispatch: the queued action replays the push
      ensures r.Ok? ==>
                || (isOnline && push.Ok? && remote.state == ApplyOp(old(remote.state), PushOf(Delete(id, now, userId))))
                || (|db.pending| == |old(db.pending)| + 1
                    && Decode(db.pending[|old(db.pending)|]) == Some(PushOf(Delete(id, now, userId))))
      // but the sync engine as written can never decode the action it queues
      ensures r.Ok? && !(isOnline && push.Ok?) ==>
                |db.pending| == |old(db.pending)| + 1 && DecodeAsWritten(db.pending[|old(db.pending)|]).None?
    {
      r := db.SoftDelete(id, now, userId, local);
      if r.Thrown? {
        return;
      }
      if isOnline {
        var pushed := remote.Write(PatchDeleted(id, now, userId), push);
        if pushed.Thrown? {
          r := QueueAction(DELETE_ITEM, id, DeletionJson(now, userId), clock, queue);
        }
      } else {
        r := QueueAction(DELETE_ITEM, id, DeletionJson(now, userId), clock, queue);
      }
      QueuedActionReplaysPush(Delete(id, now, userId), clock, old(db.nextId));
    }
  }
}
