/**
 * The sync engine: drain the pending-action log against the remote store,
 * one action at a time in log order, then delete what was synced and
 * refresh the item cache from the remote store.
 *
 * A run is specified by folds over the actions read at the start of the
 * run (the keys it marks, its counter, its errors, the writes it sends and
 * the remote store it leaves); the method
 * `SyncRepository.SyncPendingActions` is proved to leave the state and the
 * result those folds describe.
 *
 * Every fold takes the dispatch the engine runs (`Actions.Dispatch`): the
 * one as written, which never decodes a queued soft delete, or the
 * intended one. Each property below is stated for both, or for the one it
 * names.
 */
module SyncRepo {
  import opened Models
  import opened ItemTable
  import opened Actions
  import opened LocalStore
  import opened RemoteStore
  import opened Converters

  /** What happens to the two calls the loop makes for one action: the
      remote write and the local `markActionSynced`. */
  datatype Attempt = Attempt(push: Outcome, mark: Outcome)

  /** Whether each call outside the loop throws. */
  datatype SyncFaults = SyncFaults(listRead: Outcome, cleanup: Outcome, refresh: Outcome, cacheWrite: Outcome)

  /** A Kotlin string template renders a missing message as "null". */
  function MessageText(message: Option<string>): string {
    if message.Some? then message.value else "null"
  }

  /** Stand-in for the serializer's message when a payload does not decode
      as its action type demands. */
  const UndecodableMessage: Option<string> := Some("payload does not decode as the action type")

  /** The per-action error line. */
  function SyncError(t: ActionType, message: Option<string>): string {
    "Failed to sync " + FromActionType(t) + ": " + MessageText(message)
  }

  /** The error line of an exception that ends the whole run. */
  function RunError(message: Option<string>): string {
    if message.Some? then message.value else "Unknown error"
  }

  /** The action decodes, its remote write returns normally and it is marked. */
  predicate Succeeds(d: Dispatch, a: PendingAction, at: Attempt) {
    DecodeBy(d, a).Some? && at.push.Ok? && at.mark.Ok?
  }

  /** The message of the call that threw, for an action that does not succeed. */
  function FailureMessage(d: Dispatch, a: PendingAction, at: Attempt): Option<string> {
    if DecodeBy(d, a).None? then UndecodableMessage
    else if at.push.Thrown? then at.push.message
    else if at.mark.Thrown? then at.mark.message
    else None
  }

  /** The key one iteration marks: the action's own key when it succeeds. */
  function StepMarks(d: Dispatch, a: PendingAction, at: Attempt): set<int> {
    if Succeeds(d, a, at) then {a.id} else {}
  }

  /** The error lines one iteration adds: none when it succeeds, else one. */
  function StepErrors(d: Dispatch, a: PendingAction, at: Attempt): seq<string> {
    if Succeeds(d, a, at) then [] else [SyncError(a.actionType, FailureMessage(d, a, at))]
  }

  /** The remote write one iteration sends, if its payload decodes. */
  function StepSent(d: Dispatch, a: PendingAction): seq<RemoteOp> {
    if DecodeBy(d, a).Some? then [DecodeBy(d, a).value] else []
  }

  /** The remote store after one iteration. */
  function StepRemote(d: Dispatch, s: RemoteState, a: PendingAction, at: Attempt): RemoteState {
    if DecodeBy(d, a).Some? && at.push.Ok? then ApplyOp(s, DecodeBy(d, a).value) else s
  }

  /** The keys the first `k` iterations of the loop mark synced;
      `attempts(i)` decides the calls made for the `i`-th action. */
  function Marks(d: Dispatch, acts: seq<PendingAction>, attempts: nat -> Attempt, k: nat): (m: set<int>)
    requires k <= |acts|
    // at most one key per action processed
    ensures |m| <= k
  {
    if k == 0 then {} else Marks(d, acts, attempts, k - 1) + StepMarks(d, acts[k - 1], attempts(k - 1))
  }

  /** The value of `actionsSynced` after `k` iterations. */
  function Count(d: Dispatch, acts: seq<PendingAction>, attempts: nat -> Attempt, k: nat): (n: nat)
    requires k <= |acts|
    // no more than the actions processed
    ensures n <= k
  {
    if k == 0 then 0
    else Count(d, acts, attempts, k - 1) + if Succeeds(d, acts[k - 1], attempts(k - 1)) then 1 else 0
  }

  /** The error list after `k` iterations: one line for each action that did
      not succeed, in order, naming its type and the message of the call
      that threw. */
  function Errors(d: Dispatch, acts: seq<PendingAction>, attempts: nat -> Attempt, k: nat): (errors: seq<string>)
    requires k <= |acts|
    // every action processed either adds one error or bumps the counter, never both
    ensures |errors| + Count(d, acts, attempts, k) == k
  {
    if k == 0 then [] else Errors(d, acts, attempts, k - 1) + StepErrors(d, acts[k - 1], attempts(k - 1))
  }

  /** The writes the first `k` iterations send, in order: one for every
      action whose payload decodes. */
  function Sent(d: Dispatch, acts: seq<PendingAction>, k: nat): (ops: seq<RemoteOp>)
    requires k <= |acts|
    ensures |ops| <= k
  {
    if k == 0 then [] else Sent(d, acts, k - 1) + StepSent(d, acts[k - 1])
  }

  /** One more iteration appends its write to the log of sent writes. */
  lemma SentStep(d: Dispatch, log: seq<RemoteOp>, acts: seq<PendingAction>, k: nat)
    requires k < |acts|
    ensures log + Sent(d, acts, k + 1) == (log + Sent(d, acts, k)) + StepSent(d, acts[k])
  {
  }

  /** The remote store after `k` iterations: the writes that returned
      normally, applied in order. */
  function RemoteAfter(d: Dispatch, remote: RemoteState, acts: seq<PendingAction>, attempts: nat -> Attempt, k: nat): (r: RemoteState)
    requires k <= |acts|
    // rows stay under their own keys, and categories are only ever appended
    ensures KeysMatch(remote.items) ==> KeysMatch(r.items)
    ensures remote.categories <= r.categories
  {
    if k == 0 then remote
    else StepRemote(d, RemoteAfter(d, remote, acts, attempts, k - 1), acts[k - 1], attempts(k - 1))
  }

  /** Every key a run marks is the key of one of its actions. */
  lemma {:induction false} MarksAreActionKeys(d: Dispatch, acts: seq<PendingAction>, attempts: nat -> Attempt, k: nat)
    requires k <= |acts|
    ensures forall id :: id in Marks(d, acts, attempts, k) ==> exists i :: 0 <= i < k && acts[i].id == id
  {
    if k > 0 {
      MarksAreActionKeys(d, acts, attempts, k - 1);
    }
  }

  /** A run over a log in key order marks no key above the last key it reached. */
  lemma {:induction false} MarksBelowLastKey(d: Dispatch, acts: seq<PendingAction>, attempts: nat -> Attempt, k: nat)
    requires 0 < k <= |acts| && IdsAscending(acts)
    ensures forall id :: id in Marks(d, acts, attempts, k) ==> id <= acts[k - 1].id
  {
    if k > 1 {
      MarksBelowLastKey(d, acts, attempts, k - 1);
      assert acts[k - 2].id < acts[k - 1].id;
    }
  }

  /** The keys marked by a run are exactly those of the actions that
      succeeded (the log's keys are distinct). */
  lemma {:induction false} MarksExactlySucceeded(d: Dispatch, acts: seq<PendingAction>, attempts: nat -> Attempt, k: nat)
    requires k <= |acts| && IdsAscending(acts)
    ensures forall i :: 0 <= i < k ==> (acts[i].id in Marks(d, acts, attempts, k) <==> Succeeds(d, acts[i], attempts(i)))
  {
    if k > 0 {
      MarksExactlySucceeded(d, acts, attempts, k - 1);
      var a := acts[k - 1];
      var prev, step := Marks(d, acts, attempts, k - 1), StepMarks(d, a, attempts(k - 1));
      if k > 1 {
        MarksBelowLastKey(d, acts, attempts, k - 1);
        assert acts[k - 2].id < a.id;
      }
      assert a.id !in prev;
      assert Marks(d, acts, attempts, k) == prev + step;
      forall i | 0 <= i < k ensures acts[i].id in prev + step <==> Succeeds(d, acts[i], attempts(i)) {
        if i < k - 1 {
          assert acts[i].id < a.id;
          assert acts[i].id !in step;
        } else {
          assert acts[i] == a;
        }
      }
    }
  }

  /** The counter equals the number of keys marked. */
  lemma {:induction false} CountIsMarked(d: Dispatch, acts: seq<PendingAction>, attempts: nat -> Attempt, k: nat)
    requires k <= |acts| && IdsAscending(acts)
    ensures Count(d, acts, attempts, k) == |Marks(d, acts, attempts, k)|
  {
    if k > 0 {
      CountIsMarked(d, acts, attempts, k - 1);
      var a := acts[k - 1];
      if k > 1 {
        MarksBelowLastKey(d, acts, attempts, k - 1);
        assert acts[k - 2].id < a.id;
      }
      var prev, step := Marks(d, acts, attempts, k - 1), StepMarks(d, a, attempts(k - 1));
      assert a.id !in prev;
      assert prev * step == {};
      assert |step| == if Succeeds(d, a, attempts(k - 1)) then 1 else 0;
    }
  }

  /** A run reports no error exactly when every action succeeded. */
  lemma {:induction false} NoErrorsIffAllSucceeded(d: Dispatch, acts: seq<PendingAction>, attempts: nat -> Attempt, k: nat)
    requires k <= |acts|
    ensures Errors(d, acts, attempts, k) == [] <==> forall i :: 0 <= i < k ==> Succeeds(d, acts[i], attempts(i))
  {
    if k > 0 {
      NoErrorsIffAllSucceeded(d, acts, attempts, k - 1);
      var prev, step := Errors(d, acts, attempts, k - 1), StepErrors(d, acts[k - 1], attempts(k - 1));
      assert Errors(d, acts, attempts, k) == prev + step;
      assert step == [] <==> Succeeds(d, acts[k - 1], attempts(k - 1));
      assert prev + step == [] <==> prev == [] && step == [] by {
        assert |prev + step| == |prev| + |step|;
      }
      AllSucceededStep(d, acts, attempts, k);
    }
  }

  /** "The first `k` succeeded" is "the first `k - 1` did, and so did the
      last". */
  lemma AllSucceededStep(d: Dispatch, acts: seq<PendingAction>, attempts: nat -> Attempt, k: nat)
    requires 0 < k <= |acts|
    ensures (forall i :: 0 <= i < k ==> Succeeds(d, acts[i], attempts(i))) <==>
            (forall i :: 0 <= i < k - 1 ==> Succeeds(d, acts[i], attempts(i))) && Succeeds(d, acts[k - 1], attempts(k - 1))
  {
  }

  /** The remote writes of a list of mutations, in order. */
  function PushesOf(ms: seq<Mutation>): (ops: seq<RemoteOp>)
    ensures |ops| == |ms| && forall i :: 0 <= i < |ms| ==> ops[i] == PushOf(ms[i])
  {
    if ms == [] then [] else PushesOf(ms[..|ms| - 1]) + [PushOf(ms[|ms| - 1])]
  }

  /** Draining actions that replay a list of mutations, while the remote
      store accepts every write, leaves the remote store as pushing those
      mutations online in the same order would have. By
      `QueuedActionReplaysPushBy`, queued actions meet the premise under the
      intended dispatch, and under the dispatch as written only when none of
      them is a soft delete. */
  lemma {:induction false} DrainReplaysInOrder(d: Dispatch, remote: RemoteState, acts: seq<PendingAction>, attempts: nat -> Attempt, k: nat, ms: seq<Mutation>)
    requires k <= |acts| == |ms|
    requires forall i :: 0 <= i < |acts| ==> DecodeBy(d, acts[i]) == Some(PushOf(ms[i]))
    requires forall i :: 0 <= i < k ==> attempts(i).push.Ok?
    ensures RemoteAfter(d, remote, acts, attempts, k) == ApplyAll(remote, PushesOf(ms[..k]))
  {
    if k > 0 {
      DrainReplaysInOrder(d, remote, acts, attempts, k - 1, ms);
      RemoteAfterStep(d, remote, acts, attempts, k - 1);
      LastOfPrefix(ms, k);
      ApplyAllLast(remote, PushesOf(ms[..k - 1]), PushOf(ms[k - 1]));
    } else {
      assert PushesOf(ms[..0]) == [];
    }
  }

  /** An iteration whose payload decodes and whose write returns applies
      that write to the remote store. */
  lemma RemoteAfterStep(d: Dispatch, remote: RemoteState, acts: seq<PendingAction>, attempts: nat -> Attempt, k: nat)
    requires k < |acts| && DecodeBy(d, acts[k]).Some? && attempts(k).push.Ok?
    ensures RemoteAfter(d, remote, acts, attempts, k + 1) ==
              ApplyOp(RemoteAfter(d, remote, acts, attempts, k), DecodeBy(d, acts[k]).value)
  {
  }

  /** A prefix of length `k` is the prefix of length `k - 1` and one more. */
  lemma LastOfPrefix<T>(s: seq<T>, k: nat)
    requires 0 < k <= |s|
    ensures s[..k] == s[..k - 1] + [s[k - 1]]
    ensures s[..k][..k - 1] == s[..k - 1] && s[..k][k - 1] == s[k - 1]
  {
  }

  /** Applying a list of writes and then one more is applying that one to
      the effect of the list. */
  lemma ApplyAllLast(s: RemoteState, ops: seq<RemoteOp>, op: RemoteOp)
    ensures ApplyAll(s, ops + [op]) == ApplyOp(ApplyAll(s, ops), op)
  {
    assert (ops + [op])[..|ops|] == ops;
  }

  /** The rows a cleanup keeps after the run marked the keys `ids`. */
  lemma SurvivorsOfCleanup(rows: seq<PendingAction>, ids: set<int>)
    ensures forall x :: x in Unsynced(Marked(rows, ids)) <==> x in rows && !x.synced && x.id !in ids
  {
    forall x | x in rows && !x.synced && x.id !in ids ensures x in Marked(rows, ids) {
      var i :| 0 <= i < |rows| && rows[i] == x;
      assert Marked(rows, ids)[i] == x;
    }
  }

  /** After a run and its cleanup, the failed actions of the run are still
      pending and the successful ones are gone; nothing else is pending. */
  lemma CleanupKeepsExactlyFailed(d: Dispatch, pending: seq<PendingAction>, attempts: nat -> Attempt)
    requires IdsAscending(pending)
    ensures var acts := Unsynced(pending);
            var rest := Unsynced(Marked(pending, Marks(d, acts, attempts, |acts|)));
            && (forall i :: 0 <= i < |acts| ==> (acts[i] in rest <==> !Succeeds(d, acts[i], attempts(i))))
            && (forall x :: x in rest ==> x in acts)
  {
    var acts := Unsynced(pending);
    var marks := Marks(d, acts, attempts, |acts|);
    MarksExactlySucceeded(d, acts, attempts, |acts|);
    SurvivorsOfCleanup(pending, marks);
    var rest := Unsynced(Marked(pending, marks));
    forall i | 0 <= i < |acts| ensures acts[i] in rest <==> !Succeeds(d, acts[i], attempts(i)) {
      assert acts[i] in acts;
    }
  }

  /** Once every unsynced row's key is marked, the cleanup leaves nothing. */
  lemma {:induction false} CleanupOfAllMarkedIsEmpty(rows: seq<PendingAction>, ids: set<int>)
    requires forall x :: x in rows && !x.synced ==> x.id in ids
    ensures Unsynced(Marked(rows, ids)) == []
  {
    if rows != [] {
      assert Marked(rows, ids)[1..] == Marked(rows[1..], ids);
      CleanupOfAllMarkedIsEmpty(rows[1..], ids);
    }
  }

  /** When every action of a run succeeds and the cleanup runs, nothing is
      left pending, so the next run finds an empty list and returns the
      trivial result. */
  lemma SecondRunFindsNothing(d: Dispatch, pending: seq<PendingAction>, attempts: nat -> Attempt)
    requires IdsAscending(pending)
    requires forall i :: 0 <= i < |Unsynced(pending)| ==> Succeeds(d, Unsynced(pending)[i], attempts(i))
    ensures Unsynced(Marked(pending, Marks(d, Unsynced(pending), attempts, |Unsynced(pending)|))) == []
  {
    var acts := Unsynced(pending);
    var marks := Marks(d, acts, attempts, |acts|);
    MarksExactlySucceeded(d, acts, attempts, |acts|);
    forall x | x in pending && !x.synced ensures x.id in marks {
      assert x in acts;
      var i :| 0 <= i < |acts| && acts[i] == x;
    }
    CleanupOfAllMarkedIsEmpty(pending, marks);
  }

  /** An offline add followed by an offline quantity change, drained while
      the remote store accepts every call, leaves the new quantity on the
      remote row; draining the same two actions the other way round would
      lose it. */
  lemma AddThenQuantityKeepsOrder(d: Dispatch, remote: RemoteState, item: Item, t1: int, t2: int)
    requires item.id !in remote.items
    ensures var acts := [QueuedAction(Add(item), t1).(id := 1), QueuedAction(ChangeQuantity(item.id, 5), t2).(id := 2)];
            var after := RemoteAfter(d, remote, acts, _ => Attempt(Ok, Ok), 2);
            item.id in after.items && after.items[item.id].quantity == 5
    ensures var acts := [QueuedAction(ChangeQuantity(item.id, 5), t2).(id := 1), QueuedAction(Add(item), t1).(id := 2)];
            var after := RemoteAfter(d, remote, acts, _ => Attempt(Ok, Ok), 2);
            item.id in after.items && after.items[item.id].quantity == item.quantity
  {
  }

  /** Three queued actions (an add, a quantity change and a delete of one
      item) and a remote store that fails the second call only. */
  function ThreeQueued(item: Item, t: int, now: string, userId: string): (log: seq<PendingAction>)
    ensures |log| == 3 && IdsAscending(log) && Unsynced(log) == log
  {
    var log := [QueuedAction(Add(item), t).(id := 1),
                QueuedAction(ChangeQuantity(item.id, 5), t).(id := 2),
                QueuedAction(Delete(item.id, now, userId), t).(id := 3)];
    assert Unsynced(log[2..]) == log[2..];
    assert Unsynced(log[1..]) == log[1..];
    log
  }

  function SecondFails(i: nat): Attempt {
    if i == 1 then Attempt(Thrown(Some("HTTP 500")), Ok) else Attempt(Ok, Ok)
  }

  /** With the intended dispatch, that run counts two actions and reports
      one error, naming the second. */
  lemma PartialFailureIsReported(item: Item, t: int, now: string, userId: string)
    ensures Count(Intended, ThreeQueued(item, t, now, userId), SecondFails, 3) == 2
    ensures Errors(Intended, ThreeQueued(item, t, now, userId), SecondFails, 3) == [SyncError(UPDATE_QUANTITY, Some("HTTP 500"))]
  {
    var log := ThreeQueued(item, t, now, userId);
    assert Succeeds(Intended, log[0], SecondFails(0));
    assert !Succeeds(Intended, log[1], SecondFails(1)) && FailureMessage(Intended, log[1], SecondFails(1)) == Some("HTTP 500");
    assert Succeeds(Intended, log[2], SecondFails(2));
    assert Errors(Intended, log, SecondFails, 1) == [];
  }

  /** With the dispatch as written, the same run counts only the add and
      reports two errors: the second action's, then the delete's. */
  lemma PartialFailureIsReportedAsWritten(item: Item, t: int, now: string, userId: string)
    ensures Count(AsWritten, ThreeQueued(item, t, now, userId), SecondFails, 3) == 1
    ensures Errors(AsWritten, ThreeQueued(item, t, now, userId), SecondFails, 3) ==
              [SyncError(UPDATE_QUANTITY, Some("HTTP 500")), SyncError(DELETE_ITEM, UndecodableMessage)]
  {
    var log := ThreeQueued(item, t, now, userId);
    assert Succeeds(AsWritten, log[0], SecondFails(0));
    assert !Succeeds(AsWritten, log[1], SecondFails(1)) && FailureMessage(AsWritten, log[1], SecondFails(1)) == Some("HTTP 500");
    assert !Succeeds(AsWritten, log[2], SecondFails(2)) && FailureMessage(AsWritten, log[2], SecondFails(2)) == UndecodableMessage;
    assert Errors(AsWritten, log, SecondFails, 1) == [];
  }

  /** With the intended dispatch, only the second action stays pending after
      the cleanup. */
  lemma PartialFailureKeepsOnlySecond(item: Item, t: int, now: string, userId: string)
    ensures var log := ThreeQueued(item, t, now, userId);
            Unsynced(Marked(log, Marks(Intended, log, SecondFails, 3))) == [log[1]]
  {
    var log := ThreeQueued(item, t, now, userId);
    assert Succeeds(Intended, log[0], SecondFails(0));
    assert !Succeeds(Intended, log[1], SecondFails(1));
    assert Succeeds(Intended, log[2], SecondFails(2));
    assert Marks(Intended, log, SecondFails, 1) == {1};
    assert Marks(Intended, log, SecondFails, 3) == {1, 3};
    var marked := Marked(log, {1, 3});
    assert marked == [log[0].(synced := true), log[1], log[2].(synced := true)];
    assert Unsynced(marked[2..]) == [];
    assert Unsynced(marked[1..]) == [log[1]];
  }

  /** With the dispatch as written, the delete stays pending beside the
      second action. */
  lemma PartialFailureKeepsSecondAndDeleteAsWritten(item: Item, t: int, now: string, userId: string)
    ensures var log := ThreeQueued(item, t, now, userId);
            Unsynced(Marked(log, Marks(AsWritten, log, SecondFails, 3))) == [log[1], log[2]]
  {
    var log := ThreeQueued(item, t, now, userId);
    assert Succeeds(AsWritten, log[0], SecondFails(0));
    assert !Succeeds(AsWritten, log[1], SecondFails(1));
    assert !Succeeds(AsWritten, log[2], SecondFails(2));
    assert Marks(AsWritten, log, SecondFails, 1) == {1};
    assert Marks(AsWritten, log, SecondFails, 3) == {1};
    var marked := Marked(log, {1});
    assert marked == [log[0].(synced := true), log[1], log[2]];
    assert Unsynced(marked[2..]) == [log[2]];
    assert Unsynced(marked[1..]) == [log[1], log[2]];
  }

  /** Every action of a run that fails leaves its error line, naming its
      type and the message of the call that threw. */
  lemma {:induction false} FailuresAreReported(d: Dispatch, acts: seq<PendingAction>, attempts: nat -> Attempt, k: nat, i: nat)
    requires i < k <= |acts| && !Succeeds(d, acts[i], attempts(i))
    ensures SyncError(acts[i].actionType, FailureMessage(d, acts[i], attempts(i))) in Errors(d, acts, attempts, k)
  {
    var line := SyncError(acts[i].actionType, FailureMessage(d, acts[i], attempts(i)));
    var prev, step := Errors(d, acts, attempts, k - 1), StepErrors(d, acts[k - 1], attempts(k - 1));
    assert Errors(d, acts, attempts, k) == prev + step;
    if i < k - 1 {
      FailuresAreReported(d, acts, attempts, k - 1, i);
      assert line in prev;
    } else {
      assert step == [line];
    }
  }

  /** With the dispatch as written, no run ever syncs a queued soft delete:
      it is sent nowhere, it is not marked, the run reports it as an error
      and it is still pending after the cleanup. Since this holds for any
      pending log, the delete stays pending through every later run. */
  lemma QueuedDeleteNeverSyncsAsWritten(pending: seq<PendingAction>, attempts: nat -> Attempt, i: nat)
    requires IdsAscending(pending)
    requires i < |Unsynced(pending)| && Unsynced(pending)[i].actionType == DELETE_ITEM
    ensures var acts := Unsynced(pending);
            var marks := Marks(AsWritten, acts, attempts, |acts|);
            && StepSent(AsWritten, acts[i]) == []
            && acts[i].id !in marks
            && SyncError(DELETE_ITEM, UndecodableMessage) in Errors(AsWritten, acts, attempts, |acts|)
            && acts[i] in Unsynced(Marked(pending, marks))
  {
    var acts := Unsynced(pending);
    assert !Succeeds(AsWritten, acts[i], attempts(i));
    MarksExactlySucceeded(AsWritten, acts, attempts, |acts|);
    FailuresAreReported(AsWritten, acts, attempts, |acts|, i);
    CleanupKeepsExactlyFailed(AsWritten, pending, attempts);
  }

  /** One more iteration of the loop, in terms of the run's folds: the
      markings, the writes sent and the error list each grow by the step. */
  lemma DrainStep(d: Dispatch, pending: seq<PendingAction>, log: seq<RemoteOp>, remote: RemoteState, acts: seq<PendingAction>, attempts: nat -> Attempt, k: nat)
    requires k < |acts|
    ensures Marked(Marked(pending, Marks(d, acts, attempts, k)), StepMarks(d, acts[k], attempts(k)))
            == Marked(pending, Marks(d, acts, attempts, k + 1))
    ensures (log + Sent(d, acts, k)) + StepSent(d, acts[k]) == log + Sent(d, acts, k + 1)
    ensures Errors(d, acts, attempts, k) + StepErrors(d, acts[k], attempts(k)) == Errors(d, acts, attempts, k + 1)
    ensures Count(d, acts, attempts, k + 1) == Count(d, acts, attempts, k) + if Succeeds(d, acts[k], attempts(k)) then 1 else 0
    ensures StepRemote(d, RemoteAfter(d, remote, acts, attempts, k), acts[k], attempts(k)) == RemoteAfter(d, remote, acts, attempts, k + 1)
  {
    MarkedStep(pending, Marks(d, acts, attempts, k), StepMarks(d, acts[k], attempts(k)));
    SentStep(d, log, acts, k);
  }

  /** The engine over the two stores, running dispatch `dispatch`: the
      repository's code is `AsWritten`, `Intended` is the correction. */
  class SyncRepository {
    const db: LocalDatabase
    const remote: Remote
    const dispatch: Dispatch

    constructor (db: LocalDatabase, remote: Remote, dispatch: Dispatch)
      ensures this.db == db && this.remote == remote && this.dispatch == dispatch
    {
      this.db := db;
      this.remote := remote;
      this.dispatch := dispatch;
    }

    /** The `try` block of one iteration: decode the action, send its write,
        then mark it synced. No error line when all of that returns normally,
        else the one line the `catch` records. */
    method SyncAction(action: PendingAction, attempt: Attempt) returns (failure: seq<string>)
      requires db.Valid() && remote.Valid()
      modifies db`pending, remote
      ensures db.Valid() && remote.Valid()
      ensures failure == [] <==> Succeeds(dispatch, action, attempt)
      ensures failure == StepErrors(dispatch, action, attempt)
      ensures remote.state == StepRemote(dispatch, old(remote.state), action, attempt)
      ensures remote.writes == old(remote.writes) + StepSent(dispatch, action)
      ensures db.pending == Marked(old(db.pending), StepMarks(dispatch, action, attempt))
    {
      MarkedNone(db.pending);
      var op := DecodeBy(dispatch, action);
      if op.None? {
        return [SyncError(action.actionType, UndecodableMessage)];
      }
      var pushed := remote.Write(op.value, attempt.push);
      if pushed.Thrown? {
        return [SyncError(action.actionType, pushed.message)];
      }
      var marked := db.MarkActionSynced(action.id, attempt.mark);
      if marked.Thrown? {
        return [SyncError(action.actionType, marked.message)];
      }
      failure := [];
    }

    /** The `for` loop of `syncPendingActions`: each action in turn is
        decoded and sent; one that returns normally is marked and counted,
        and any exception becomes one error line and the loop goes on. */
    method DrainLog(acts: seq<PendingAction>, attempts: nat -> Attempt) returns (errors: seq<string>, actionsSynced: int)
      requires db.Valid() && remote.Valid()
      modifies db`pending, remote
      ensures db.Valid() && remote.Valid()
      ensures remote.state == RemoteAfter(dispatch, old(remote.state), acts, attempts, |acts|)
      ensures remote.writes == old(remote.writes) + Sent(dispatch, acts, |acts|)
      ensures errors == Errors(dispatch, acts, attempts, |acts|) && actionsSynced == Count(dispatch, acts, attempts, |acts|)
      ensures db.pending == Marked(old(db.pending), Marks(dispatch, acts, attempts, |acts|))
    {
      errors := [];
      actionsSynced := 0;
      ghost var pending0, state0, writes0 := db.pending, remote.state, remote.writes;
      var i := 0;
      while i < |acts|
        invariant 0 <= i <= |acts|
        invariant db.Valid() && remote.Valid()
        invariant remote.state == RemoteAfter(dispatch, state0, acts, attempts, i)
        invariant remote.writes == writes0 + Sent(dispatch, acts, i)
        invariant errors == Errors(dispatch, acts, attempts, i)
        invariant actionsSynced == Count(dispatch, acts, attempts, i)
        invariant db.pending == Marked(pending0, Marks(dispatch, acts, attempts, i))
      {
        errors, actionsSynced := DrainOne(acts, attempts, i, pending0, state0, writes0, errors, actionsSynced);
        i := i + 1;
      }
    }

    /** One iteration of the loop in `DrainLog`, stated in terms of the run's
        folds: what holds after the first `i` actions holds after `i + 1`. */
    method DrainOne(acts: seq<PendingAction>, attempts: nat -> Attempt, i: nat,
                    ghost pending0: seq<PendingAction>, ghost state0: RemoteState, ghost writes0: seq<RemoteOp>,
                    errors: seq<string>, actionsSynced: int)
      returns (errors': seq<string>, actionsSynced': int)
      requires i < |acts| && db.Valid() && remote.Valid()
      requires remote.state == RemoteAfter(dispatch, state0, acts, attempts, i)
      requires remote.writes == writes0 + Sent(dispatch, acts, i)
      requires errors == Errors(dispatch, acts, attempts, i) && actionsSynced == Count(dispatch, acts, attempts, i)
      requires db.pending == Marked(pending0, Marks(dispatch, acts, attempts, i))
      modifies db`pending, remote
      ensures db.Valid() && remote.Valid()
      ensures remote.state == RemoteAfter(dispatch, state0, acts, attempts, i + 1)
      ensures remote.writes == writes0 + Sent(dispatch, acts, i + 1)
      ensures errors' == Errors(dispatch, acts, attempts, i + 1) && actionsSynced' == Count(dispatch, acts, attempts, i + 1)
      ensures db.pending == Marked(pending0, Marks(dispatch, acts, attempts, i + 1))
    {
      DrainStep(dispatch, pending0, writes0, state0, acts, attempts, i);
      var failure := SyncAction(acts[i], attempts(i));
      errors' := errors + failure;
      actionsSynced' := actionsSynced + if failure == [] then 1 else 0;
    }

    method SyncPendingActions(attempts: nat -> Attempt, faults: SyncFaults) returns (result: SyncResult)
      requires db.Valid() && remote.Valid()
      modifies db, remote
      ensures db.Valid() && remote.Valid() && db.nextId == old(db.nextId)
      // the list read throws: one error, nothing else happens
      ensures faults.listRead.Thrown? ==>
                && unchanged(db, remote)
                && result == SyncResult(success := false, errors := [RunError(faults.listRead.message)])
      // nothing pending: a trivial success, and no remote call and no refresh
      ensures faults.listRead.Ok? && Unsynced(old(db.pending)) == [] ==>
                unchanged(db, remote) && result == SyncResult(success := true, actionsSynced := 0)
      ensures faults.listRead.Ok? && Unsynced(old(db.pending)) != [] ==>
                var acts := Unsynced(old(db.pending));
                var n := |acts|;
                var after := RemoteAfter(dispatch, old(remote.state), acts, attempts, n);
                // the actions were sent in log order and the counter counts the successes
                && remote.state == after && remote.writes == old(remote.writes) + Sent(dispatch, acts, n)
                && result.actionsSynced == Count(dispatch, acts, attempts, n)
                // the cleanup throws: the markings stay, the cache is not refreshed
                && (faults.cleanup.Thrown? ==>
                      && db.pending == Marked(old(db.pending), Marks(dispatch, acts, attempts, n)) && db.items == old(db.items)
                      && result == SyncResult(success := false, actionsSynced := Count(dispatch, acts, attempts, n),
                                              errors := Errors(dispatch, acts, attempts, n) + [RunError(faults.cleanup.message)]))
                && (faults.cleanup.Ok? ==> db.pending == Unsynced(Marked(old(db.pending), Marks(dispatch, acts, attempts, n))))
                // the refresh or the cache write throws
                && (faults.cleanup.Ok? && faults.refresh.Thrown? ==>
                      && db.items == old(db.items)
                      && result == SyncResult(success := false, actionsSynced := Count(dispatch, acts, attempts, n),
                                              errors := Errors(dispatch, acts, attempts, n) + [RunError(faults.refresh.message)]))
                && (faults.cleanup.Ok? && faults.refresh.Ok? && faults.cacheWrite.Thrown? ==>
                      && db.items == old(db.items)
                      && result == SyncResult(success := false, actionsSynced := Count(dispatch, acts, attempts, n),
                                              errors := Errors(dispatch, acts, attempts, n) + [RunError(faults.cacheWrite.message)]))
                // normal completion: success exactly when no action failed
                && (faults.cleanup.Ok? && faults.refresh.Ok? && faults.cacheWrite.Ok? ==>
                      && Refreshed(old(db.items), db.items, after.items)
                      && result == SyncResult(success := Errors(dispatch, acts, attempts, n) == [], itemsSynced := |NonDeletedIds(after.items)|,
                                              actionsSynced := Count(dispatch, acts, attempts, n), errors := Errors(dispatch, acts, attempts, n)))
    {
      var listed := db.GetPendingActions(faults.listRead);
      if listed.Failure? {
        return SyncResult(success := false, actionsSynced := 0, errors := [RunError(listed.message)]);
      }
      var acts := listed.value;
      if acts == [] {
        return SyncResult(success := true, actionsSynced := 0);
      }
      var errors, actionsSynced := DrainLog(acts, attempts);
      var cleaned := db.DeleteSyncedActions(faults.cleanup);
      if cleaned.Thrown? {
        return SyncResult(success := false, actionsSynced := actionsSynced, errors := errors + [RunError(cleaned.message)]);
      }
      var fetched := remote.SelectNonDeleted(faults.refresh);
      if fetched.Failure? {
        return SyncResult(success := false, actionsSynced := actionsSynced, errors := errors + [RunError(fetched.message)]);
      }
      var cached := db.InsertItems(fetched.value, faults.cacheWrite);
      if cached.Thrown? {
        return SyncResult(success := false, actionsSynced := actionsSynced, errors := errors + [RunError(cached.message)]);
      }
      UpsertNonDeletedRows(old(db.items), remote.state.items, fetched.value);
      result := SyncResult(success := errors == [], itemsSynced := |fetched.value|, actionsSynced := actionsSynced, errors := errors);
    }

    /** `getPendingActionsCount`: the length of the pending list; a storage
        exception propagates. */
    method GetPendingActionsCount(fault: Outcome) returns (r: Result<int>)
      requires db.Valid()
      ensures fault.Ok? ==> r.Success? && r.value == |Unsynced(db.pending)|
      ensures fault.Thrown? ==> r == Failure(fault.message)
      ensures r.Success? ==> 0 <= r.value <= |db.pending|
    {
      var listed := db.GetPendingActions(fault);
      if listed.Failure? {
        return Failure(listed.message);
      }
      r := Success(|listed.value|);
    }
  }
}
