/**
 * An `items` table keyed by the item's primary key, and the row-level
 * updates that both the local cache and the remote store apply to it.
 */
module ItemTable {
  import opened Models

  type Table = map<string, Item>

  /** Every row sits under its own primary key. */
  predicate KeysMatch(table: Table) {
    forall k :: k in table ==> table[k].id == k
  }

  /** Insert-or-replace by primary key: a table never holds two rows with
      the same id. */
  function Upsert(table: Table, item: Item): (t: Table)
    ensures item.id in t && t[item.id] == item
    ensures KeysMatch(table) ==> KeysMatch(t)
    // no other key is added and every other row stays as it was
    ensures t.Keys == table.Keys + {item.id}
    ensures forall k :: k in table && k != item.id ==> t[k] == table[k]
  {
    table[item.id := item]
  }

  /** The ids of a list of items. */
  function Ids(items: seq<Item>): set<string> {
    set x | x in items :: x.id
  }

  /** True when no two items of the list share an id. */
  predicate DistinctIds(items: seq<Item>) {
    forall i, j :: 0 <= i < j < |items| ==> items[i].id != items[j].id
  }

  /** Upsert of a whole list, in list order. */
  function UpsertAll(table: Table, items: seq<Item>): (t: Table)
    ensures KeysMatch(table) ==> KeysMatch(t)
  {
    if items == [] then table
    else Upsert(UpsertAll(table, items[..|items| - 1]), items[|items| - 1])
  }

  /** The upserted keys are added, and a row whose key is not upserted is
      kept as it was. */
  lemma {:induction false} UpsertAllKeeps(table: Table, items: seq<Item>)
    ensures UpsertAll(table, items).Keys == table.Keys + Ids(items)
    ensures forall k :: k in table && k !in Ids(items) ==> UpsertAll(table, items)[k] == table[k]
  {
    if items != [] {
      var front, last := items[..|items| - 1], items[|items| - 1];
      UpsertAllKeeps(table, front);
      assert items == front + [last];
      IdsAppend(front, last);
      assert UpsertAll(table, items) == Upsert(UpsertAll(table, front), last);
    }
  }

  /** Appending an item adds its id to the ids of the list. */
  lemma IdsAppend(items: seq<Item>, x: Item)
    ensures Ids(items + [x]) == Ids(items) + {x.id}
  {
    assert forall y :: y in items + [x] <==> y in items || y == x;
  }

  /** For a repeated id the last occurrence wins. */
  lemma {:induction false} UpsertAllLastWins(table: Table, items: seq<Item>, i: nat)
    requires i < |items|
    requires forall j :: i < j < |items| ==> items[j].id != items[i].id
    ensures items[i].id in UpsertAll(table, items) && UpsertAll(table, items)[items[i].id] == items[i]
  {
    var n := |items| - 1;
    var front, last := items[..n], items[n];
    var before := UpsertAll(table, front);
    assert UpsertAll(table, items) == Upsert(before, last);
    if i < n {
      assert front[i] == items[i];
      assert forall j :: i < j < |front| ==> front[j] == items[j];
      UpsertAllLastWins(table, front, i);
      assert last.id != items[i].id;
      assert items[i].id in before && before[items[i].id] == items[i];
    }
  }

  /** Every row of a list with distinct ids ends up in the table as it is. */
  lemma UpsertAllDistinct(table: Table, items: seq<Item>)
    requires DistinctIds(items)
    ensures forall x :: x in items ==> x.id in UpsertAll(table, items) && UpsertAll(table, items)[x.id] == x
  {
    forall x | x in items ensures x.id in UpsertAll(table, items) && UpsertAll(table, items)[x.id] == x {
      var i :| 0 <= i < |items| && items[i] == x;
      UpsertAllLastWins(table, items, i);
    }
  }

  /** Replace the row with the item's id, when there is one (an UPDATE by
      primary key matches no row otherwise). */
  function Replace(table: Table, item: Item): (t: Table)
    ensures t.Keys == table.Keys
    ensures item.id in table ==> t[item.id] == item
    ensures forall k :: k in table && k != item.id ==> t[k] == table[k]
    ensures KeysMatch(table) ==> KeysMatch(t)
  {
    if item.id in table then table[item.id := item] else table
  }

  /** `quantity = q WHERE id = id`. */
  function WithQuantity(table: Table, id: string, q: int): (t: Table)
    ensures t.Keys == table.Keys
    ensures id in table ==> t[id] == table[id].(quantity := q)
    ensures forall k :: k in table && k != id ==> t[k] == table[k]
    ensures KeysMatch(table) ==> KeysMatch(t)
  {
    if id in table then table[id := table[id].(quantity := q)] else table
  }

  /** The soft delete: `is_deleted = true, deleted_at, deleted_by WHERE id`;
      the row stays in the table. */
  function WithDeletion(table: Table, id: string, deletedAt: string, deletedBy: string): (t: Table)
    ensures t.Keys == table.Keys
    ensures id in table ==> t[id].isDeleted && t[id].deletedAt == Some(deletedAt) && t[id].deletedBy == Some(deletedBy)
    ensures id in table ==> t[id] == table[id].(isDeleted := true, deletedAt := Some(deletedAt), deletedBy := Some(deletedBy))
    ensures forall k :: k in table && k != id ==> t[k] == table[k]
    ensures KeysMatch(table) ==> KeysMatch(t)
  {
    if id in table
    then table[id := table[id].(isDeleted := true, deletedAt := Some(deletedAt), deletedBy := Some(deletedBy))]
    else table
  }

  /** The keys of the rows that are not soft-deleted. */
  function NonDeletedIds(table: Table): set<string> {
    set k | k in table && !table[k].isDeleted
  }

  /** Appending a row with a new id keeps the ids distinct. */
  lemma DistinctIdsAppend(rows: seq<Item>, x: Item)
    requires DistinctIds(rows)
    requires forall y :: y in rows ==> y.id != x.id
    ensures DistinctIds(rows + [x])
  {
    forall i, j | 0 <= i < j < |rows| + 1 ensures (rows + [x])[i].id != (rows + [x])[j].id {
      if j == |rows| {
        assert rows[i] in rows;
      }
    }
  }

  /** One key leaves the to-do set; it joins the listed keys when its row
      is not soft-deleted. */
  lemma ListedStep(table: Table, todo: set<string>, listed: set<string>, k: string)
    requires k in todo && k in table
    requires listed == NonDeletedIds(table) - todo
    ensures k !in listed
    ensures !table[k].isDeleted ==> listed + {k} == NonDeletedIds(table) - (todo - {k})
    ensures table[k].isDeleted ==> listed == NonDeletedIds(table) - (todo - {k})
  {
  }

  /** The non-deleted rows as a list, in no particular order (the order of a
      SELECT without ORDER BY). */
  method NonDeletedRows(table: Table) returns (rows: seq<Item>)
    requires KeysMatch(table)
    ensures forall x :: x in rows <==> x.id in table && table[x.id] == x && !x.isDeleted
    ensures DistinctIds(rows)
    ensures |rows| == |NonDeletedIds(table)|
  {
    rows := [];
    var todo := table.Keys;
    ghost var listed: set<string> := {};
    while todo != {}
      invariant todo <= table.Keys
      invariant listed == NonDeletedIds(table) - todo
      invariant |rows| == |listed|
      invariant DistinctIds(rows)
      invariant forall x :: x in rows ==> x.id in listed && table[x.id] == x
      invariant forall k :: k in listed ==> table[k] in rows
      decreases todo
    {
      var k :| k in todo;
      ListedStep(table, todo, listed, k);
      if !table[k].isDeleted {
        DistinctIdsAppend(rows, table[k]);
        rows := rows + [table[k]];
        listed := listed + {k};
      }
      todo := todo - {k};
    }
    forall x: Item | x.id in table && table[x.id] == x && !x.isDeleted ensures x in rows {
      assert x.id in listed;
    }
  }

  /** The cache after a refresh from `source`: every non-deleted row of the
      source overwrites the cached row with its key, and every other cached
      row (including one the source has since deleted) is kept as it was. */
  ghost predicate Refreshed(before: Table, after: Table, source: Table) {
    && after.Keys == before.Keys + NonDeletedIds(source)
    && forall k :: k in after ==> after[k] == if k in NonDeletedIds(source) then source[k] else before[k]
  }

  /** Upserting the non-deleted rows of a table, listed in any order, is a
      refresh from that table. */
  lemma UpsertNonDeletedRows(before: Table, source: Table, rows: seq<Item>)
    requires KeysMatch(source)
    requires DistinctIds(rows)
    requires forall x :: x in rows <==> x.id in source && source[x.id] == x && !x.isDeleted
    ensures Refreshed(before, UpsertAll(before, rows), source)
  {
    assert Ids(rows) == NonDeletedIds(source) by {
      forall k | k in NonDeletedIds(source) ensures k in Ids(rows) {
        assert source[k] in rows;
      }
    }
    UpsertAllDistinct(before, rows);
    UpsertAllKeeps(before, rows);
    var t := UpsertAll(before, rows);
    forall k | k in t ensures t[k] == if k in NonDeletedIds(source) then source[k] else before[k] {
      if k in NonDeletedIds(source) {
        assert source[k] in rows;
      }
    }
  }
}
