/**
 * The device database the repositories share: the `items` cache and the
 * `pending_actions` log, with the DAO calls the repositories make on them.
 *
 * The DAO declarations themselves are not part of this model; their
 * behaviour is stated here as assumptions. Inserting an item replaces a row
 * with the same key, the UPDATE calls match at most one row by key, action
 * keys are auto-incremented and never reused, and `getPendingActions`
 * returns the unsynced rows in ascending key order (first in, first out).
 * Every write takes an `Outcome` that says whether the storage layer throws.
 */
module LocalStore {
  import opened Models
  import opened ItemTable

  /** The log's keys strictly increase along the table. */
  predicate IdsAscending(rows: seq<PendingAction>) {
    forall i, j :: 0 <= i < j < |rows| ==> rows[i].id < rows[j].id
  }

  /** The unsynced rows in table order: what `getPendingActions` returns,
      and also what `deleteSyncedActions` leaves behind. */
  function Unsynced(rows: seq<PendingAction>): (r: seq<PendingAction>)
    ensures forall x :: x in r <==> x in rows && !x.synced
    ensures |r| <= |rows|
    ensures IdsAscending(rows) ==> IdsAscending(r)
  {
    if rows == [] then []
    else if rows[0].synced then Unsynced(rows[1..])
    else
      var rest := Unsynced(rows[1..]);
      assert IdsAscending(rows) ==> forall x :: x in rest ==> rows[0].id < x.id by {
        if IdsAscending(rows) {
          forall x | x in rest ensures rows[0].id < x.id {
            var j :| 0 <= j < |rows[1..]| && rows[1..][j] == x;
            assert rows[j + 1] == x;
          }
        }
      }
      [rows[0]] + rest
  }

  /** The rows with every key in `ids` flagged as synced. */
  function Marked(rows: seq<PendingAction>, ids: set<int>): (r: seq<PendingAction>)
    ensures |r| == |rows|
    ensures forall i :: 0 <= i < |rows| ==> r[i] == if rows[i].id in ids then rows[i].(synced := true) else rows[i]
  {
    seq(|rows|, i requires 0 <= i < |rows| => if rows[i].id in ids then rows[i].(synced := true) else rows[i])
  }

  /** Flagging no key changes nothing. */
  lemma MarkedNone(rows: seq<PendingAction>)
    ensures Marked(rows, {}) == rows
  {
  }

  /** Flagging more keys is flagging the larger set. */
  lemma MarkedStep(rows: seq<PendingAction>, ids: set<int>, more: set<int>)
    ensures Marked(Marked(rows, ids), more) == Marked(rows, ids + more)
  {
  }

  /** Marking a key twice is marking it once. */
  lemma MarkIdempotent(rows: seq<PendingAction>, id: int)
    ensures Marked(Marked(rows, {id}), {id}) == Marked(rows, {id})
  {
    MarkedStep(rows, {id}, {id});
  }

  /** The database: the item cache keyed by id, the action log in table
      order, and the next key the log will hand out. */
  class LocalDatabase {
    var items: Table
    var pending: seq<PendingAction>
    var nextId: int

    ghost predicate Valid()
      reads this
    {
      && KeysMatch(items)
      && IdsAscending(pending)
      && 1 <= nextId
      && forall i :: 0 <= i < |pending| ==> 1 <= pending[i].id < nextId
    }

    constructor ()
      ensures Valid()
      ensures items == map[] && pending == [] && nextId == 1
    {
      items := map[];
      pending := [];
      nextId := 1;
    }

    /** `itemDao.insertItem` */
    method InsertItem(item: Item, fault: Outcome) returns (r: Outcome)
      requires Valid()
      modifies this`items
      ensures Valid() && r == fault
      ensures items == if fault.Ok? then Upsert(old(items), item) else old(items)
    {
      r := fault;
      if fault.Ok? {
        items := Upsert(items, item);
      }
    }

    /** `itemDao.updateItem` */
    method UpdateItem(item: Item, fault: Outcome) returns (r: Outcome)
      requires Valid()
      modifies this`items
      ensures Valid() && r == fault
      ensures items == if fault.Ok? then Replace(old(items), item) else old(items)
    {
      r := fault;
      if fault.Ok? {
        items := Replace(items, item);
      }
    }

    /** `itemDao.updateQuantity` */
    method UpdateQuantity(id: string, quantity: int, fault: Outcome) returns (r: Outcome)
      requires Valid()
      modifies this`items
      ensures Valid() && r == fault
      ensures items == if fault.Ok? then WithQuantity(old(items), id, quantity) else old(items)
    {
      r := fault;
      if fault.Ok? {
        items := WithQuantity(items, id, quantity);
      }
    }

    /** `itemDao.softDelete` */
    method SoftDelete(id: string, deletedAt: string, deletedBy: string, fault: Outcome) returns (r: Outcome)
      requires Valid()
      modifies this`items
      ensures Valid() && r == fault
      ensures items == if fault.Ok? then WithDeletion(old(items), id, deletedAt, deletedBy) else old(items)
    {
      r := fault;
      if fault.Ok? {
        items := WithDeletion(items, id, deletedAt, deletedBy);
      }
    }

    /** `itemDao.insertItems` */
    method InsertItems(list: seq<Item>, fault: Outcome) returns (r: Outcome)
      requires Valid()
      modifies this`items
      ensures Valid() && r == fault
      ensures items == if fault.Ok? then UpsertAll(old(items), list) else old(items)
    {
      r := fault;
      if fault.Ok? {
        items := UpsertAll(items, list);
      }
    }

    /** `itemDao.getItems`: the cached rows that are not soft-deleted. */
    method GetItems() returns (rows: seq<Item>)
      requires Valid()
      ensures forall x :: x in rows <==> x.id in items && items[x.id] == x && !x.isDeleted
      ensures DistinctIds(rows)
    {
      rows := NonDeletedRows(items);
    }

    /** `pendingActionDao.insertAction`: an action built with the placeholder
        key 0 is stored under the next auto-generated key. */
    method InsertAction(action: PendingAction, fault: Outcome) returns (r: Outcome)
      requires Valid()
      requires action.id == 0
      modifies this`pending, this`nextId
      ensures Valid() && r == fault
      ensures fault.Ok? ==> pending == old(pending) + [action.(id := old(nextId))] && nextId == old(nextId) + 1
      ensures fault.Thrown? ==> pending == old(pending) && nextId == old(nextId)
    {
      r := fault;
      if fault.Ok? {
        pending := pending + [action.(id := nextId)];
        nextId := nextId + 1;
      }
    }

    /** `pendingActionDao.getPendingActions` */
    method GetPendingActions(fault: Outcome) returns (r: Result<seq<PendingAction>>)
      requires Valid()
      ensures fault.Ok? ==> r == Success(Unsynced(pending))
      ensures fault.Thrown? ==> r == Failure(fault.message)
      ensures r.Success? ==> IdsAscending(r.value) && forall x :: x in r.value ==> !x.synced
    {
      if fault.Ok? {
        r := Success(Unsynced(pending));
      } else {
        r := Failure(fault.message);
      }
    }

    /** `pendingActionDao.markActionSynced` */
    method MarkActionSynced(id: int, fault: Outcome) returns (r: Outcome)
      requires Valid()
      modifies this`pending
      ensures Valid() && r == fault
      ensures pending == if fault.Ok? then Marked(old(pending), {id}) else old(pending)
    {
      r := fault;
      if fault.Ok? {
        pending := Marked(pending, {id});
      }
    }

    /** `pendingActionDao.deleteSyncedActions` */
    method DeleteSyncedActions(fault: Outcome) returns (r: Outcome)
      requires Valid()
      modifies this`pending
      ensures Valid() && r == fault
      ensures pending == if fault.Ok? then Unsynced(old(pending)) else old(pending)
    {
      r := fault;
      if fault.Ok? {
        pending := Unsynced(pending);
      }
    }
  }
}
