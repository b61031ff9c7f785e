/**
 * The remote backend as the core sees it: an `items` table and a
 * `categories` table behind calls that either succeed or throw. Whether a
 * call throws is decided by an `Outcome` the caller passes in (the network
 * oracle); a call that throws changes nothing.
 */
module RemoteStore {
  import opened Models
  import opened ItemTable
  import opened Actions

  datatype RemoteState = RemoteState(items: Table, categories: seq<map<string, string>>)

  /** The effect of one successful write. */
  function ApplyOp(s: RemoteState, op: RemoteOp): (r: RemoteState)
    ensures r.items == ApplyItems(s.items, op)
    ensures r.categories == if op.InsertCategory? then s.categories + [op.fields] else s.categories
  {
    match op
    case InsertCategory(fields) => s.(categories := s.categories + [fields])
    case _ => s.(items := ApplyItems(s.items, op))
  }

  /** The effect of a list of successful writes, applied in list order. */
  function ApplyAll(s: RemoteState, ops: seq<RemoteOp>): RemoteState
  {
    if ops == [] then s else ApplyOp(ApplyAll(s, ops[..|ops| - 1]), ops[|ops| - 1])
  }

  class Remote {
    var state: RemoteState
    /** Every write the client attempted, successful or not, in call order. */
    ghost var writes: seq<RemoteOp>

    ghost predicate Valid()
      reads this
    {
      KeysMatch(state.items)
    }

    constructor (initial: RemoteState)
      requires KeysMatch(initial.items)
      ensures Valid() && state == initial && writes == []
    {
      state := initial;
      writes := [];
    }

    /** One insert or update call. */
    method Write(op: RemoteOp, verdict: Outcome) returns (r: Outcome)
      requires Valid()
      modifies this
      ensures Valid() && r == verdict
      ensures writes == old(writes) + [op]
      ensures state == if verdict.Ok? then ApplyOp(old(state), op) else old(state)
    {
      r := verdict;
      writes := writes + [op];
      if verdict.Ok? {
        state := ApplyOp(state, op);
      }
    }

    /** `select * from items where is_deleted = false`, decoded as a list. */
    method SelectNonDeleted(verdict: Outcome) returns (r: Result<seq<Item>>)
      requires Valid()
      ensures verdict.Thrown? ==> r == Failure(verdict.message)
      ensures verdict.Ok? ==> r.Success?
      ensures r.Success? ==> DistinctIds(r.value) && |r.value| == |NonDeletedIds(state.items)|
      ensures r.Success? ==> forall x :: x in r.value <==> x.id in state.items && state.items[x.id] == x && !x.isDeleted
    {
      if verdict.Thrown? {
        r := Failure(verdict.message);
      } else {
        var rows := NonDeletedRows(state.items);
        r := Success(rows);
      }
    }
  }
}
