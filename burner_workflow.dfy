/**
 * The hooks over the burn-request queue: which cached queries a change event or a
 * finished mutation marks stale, and the burner's state machine around the task it
 * holds. Each mutation is taken to run to its `onSuccess` before the next one
 * starts, so the `currentTask` an `onSuccess` sees is the state when the mutation
 * was started.
 */
module BurnerWorkflow {
  import opened Common
  import opened BurnRequests

  // ---------------------------------------------------------------------------
  // Query keys and invalidation

  /** The cached queries: `['burnRequests', status, limit]` and `['burnRequest', requestId]`. */
  datatype QueryKey =
    | ListQueryKey(status: Option<BurnStatus>, limit: nat)
    | DetailQueryKey(requestId: Option<string>)

  /** The invalidation filters used: the prefix `['burnRequests']` and the key `['burnRequest', id]`. */
  datatype Invalidation = AllLists | Detail(id: string)

  /** Prefix matching of a filter against a cached key. */
  predicate Stale(inv: Invalidation, key: QueryKey) {
    match inv
    case AllLists => key.ListQueryKey?
    case Detail(id) => key == DetailQueryKey(Some(id))
  }

  /** `useBurnRequestList`'s key: the status and the limit, 10 unless given. */
  function ListKeyFor(status: Option<BurnStatus>, limit: nat := 10): (k: QueryKey)
    ensures k.ListQueryKey? && k.status == status && k.limit == limit
  {
    ListQueryKey(status, limit)
  }

  /** Some invalidation of `invs` marks `key` stale. */
  predicate AnyStale(invs: seq<Invalidation>, key: QueryKey) {
    exists i | 0 <= i < |invs| :: Stale(invs[i], key)
  }

  /**
   * The list channel's handler: every list query, and the detail query of the changed
   * row when the event carries a new row with an id (not for a deletion).
   */
  function ChangeInvalidations(newId: Option<string>): (r: seq<Invalidation>)
    ensures |r| >= 1 && r[0] == AllLists
    ensures newId.None? ==> r == [AllLists]
    ensures newId.Some? ==> r == [AllLists, Detail(newId.value)]
  {
    [AllLists] + (match newId case Some(id) => [Detail(id)] case None => [])
  }

  /**
   * After a change event every list query is stale, whatever its status and limit;
   * a detail query is stale exactly when it is the changed row's.
   */
  lemma ChangeEventStale(newId: Option<string>, key: QueryKey)
    ensures key.ListQueryKey? ==> AnyStale(ChangeInvalidations(newId), key)
    ensures key.DetailQueryKey? ==>
      (AnyStale(ChangeInvalidations(newId), key) <==> newId.Some? && key.requestId == newId)
  {
    var r := ChangeInvalidations(newId);
    if key.ListQueryKey? {
      assert Stale(r[0], key);
    }
    if key.DetailQueryKey? && newId.Some? && key.requestId == newId {
      assert Stale(r[1], key);
    }
  }

  /** A request id JavaScript reads as true: present and not the empty string. */
  predicate IsTruthyId(id: Option<string>) {
    id.Some? && id.value != ""
  }

  /** `useBurnRequestDetails`: `enabled: !!requestId`, so neither null nor "" runs the query. */
  function DetailsEnabled(requestId: Option<string>): (enabled: bool)
    ensures enabled <==> requestId.Some? && requestId.value != ""
    ensures requestId == Some("") ==> !enabled
  {
    IsTruthyId(requestId)
  }

  /** The detail channel's handler marks its own request's query stale and no other detail query. */
  lemma DetailChangeStale(requestId: string, key: QueryKey)
    ensures key.DetailQueryKey? ==> (Stale(Detail(requestId), key) <==> key.requestId == Some(requestId))
    ensures !Stale(Detail(requestId), ListKeyFor(None))
  {
  }

  // ---------------------------------------------------------------------------
  // The burner's workflow

  /** What `claimTask`'s `onSuccess` leaves: a claimed task becomes current and the lists go stale. */
  function AfterClaim(current: Option<BurnRequest>, claimed: Option<BurnRequest>): (s: (Option<BurnRequest>, seq<Invalidation>))
    ensures claimed.Some? ==> s.0 == claimed && s.1 == [AllLists]
    ensures claimed.None? ==> s.0 == current && s.1 == []
  {
    if claimed.Some? then (claimed, [AllLists]) else (current, [])
  }

  /** `data && data.status === 'completed' || data?.status === 'failed'`, as JavaScript groups it. */
  predicate Finishes(data: Option<BurnRequest>) {
    (data.Some? && data.value.status == Completed) || (data.Some? && data.value.status == Failed)
  }

  /**
   * What `updateTaskStatus`'s `onSuccess` leaves. The task is dropped when the store
   * returns a finished request, whichever request that is; the lists always go stale;
   * the detail query invalidated is that of the task held before the update, and
   * only when its id is not empty (`currentTask?.id`).
   */
  function AfterUpdate(current: Option<BurnRequest>, data: Option<BurnRequest>): (s: (Option<BurnRequest>, seq<Invalidation>))
    ensures s.0.None? <==> current.None? || (data.Some? && data.value.status in {Completed, Failed})
    ensures s.0.Some? ==> s.0 == current
    ensures |s.1| >= 1 && s.1[0] == AllLists
    ensures current.Some? && current.value.id != "" ==> s.1 == [AllLists, Detail(current.value.id)]
    ensures current.None? || current.value.id == "" ==> s.1 == [AllLists]
  {
    var task := if Finishes(data) then None else current;
    var invs := [AllLists] + (if current.Some? && current.value.id != "" then [Detail(current.value.id)] else []);
    (task, invs)
  }

  /** The store calls the workflow makes. */
  datatype StoreCall = Claim(claim: ClaimArgs) | Update(update: UpdateArgs)

  /** The burner's `useBurnerWorkflow` state, with the store calls and invalidations it has issued. */
  class Burner {
    const burnerId: string
    var currentTask: Option<BurnRequest>
    var calls: seq<StoreCall>
    var invalidated: seq<Invalidation>

    /** No task is held at first. */
    constructor (burnerId: string)
      ensures this.burnerId == burnerId
      ensures currentTask.None? && calls == [] && invalidated == []
    {
      this.burnerId := burnerId;
      currentTask := None;
      calls := [];
      invalidated := [];
    }

    /** `claimTask()`, with the store's answer to `claim_burn_task`. */
    method ClaimTask(answer: Answer<seq<BurnRequestRow>>)
      modifies this
      ensures calls == old(calls) + [Claim(ClaimArgsFor(burnerId))]
      ensures var s := AfterClaim(old(currentTask), ClaimBurnTask(answer));
        currentTask == s.0 && invalidated == old(invalidated) + s.1
    {
      calls := calls + [Claim(ClaimArgsFor(burnerId))];
      var claimed := ClaimBurnTask(answer);
      if claimed.Some? {
        currentTask := claimed;
        invalidated := invalidated + [AllLists];
      }
    }

    /** The shared `updateTaskStatus.mutate`, with the store's answer to `update_burn_status`. */
    method UpdateTask(requestId: string, status: FinalStatus, errorMessage: Option<string>,
                      answer: Answer<seq<BurnRequestRow>>)
      modifies this
      ensures calls == old(calls) + [Update(UpdateArgsFor(requestId, status, burnerId, errorMessage))]
      ensures var s := AfterUpdate(old(currentTask), UpdateBurnStatus(answer));
        currentTask == s.0 && invalidated == old(invalidated) + s.1
    {
      calls := calls + [Update(UpdateArgsFor(requestId, status, burnerId, errorMessage))];
      var data := UpdateBurnStatus(answer);
      var held := currentTask;
      if Finishes(data) {
        currentTask := None;
      }
      invalidated := invalidated + [AllLists];
      if held.Some? && held.value.id != "" {
        invalidated := invalidated + [Detail(held.value.id)];
      }
    }

    /** `completeTask(requestId)`: an update to "completed" with no message. */
    method CompleteTask(requestId: string, answer: Answer<seq<BurnRequestRow>>)
      modifies this
      ensures calls == old(calls) + [Update(UpdateArgs(requestId, Completed, burnerId, None))]
      ensures var s := AfterUpdate(old(currentTask), UpdateBurnStatus(answer));
        currentTask == s.0 && invalidated == old(invalidated) + s.1
    {
      UpdateTask(requestId, Completed, None, answer);
    }

    /** `failTask(requestId, errorMessage)`: an update to "failed" with the message, null when empty. */
    method FailTask(requestId: string, errorMessage: string, answer: Answer<seq<BurnRequestRow>>)
      modifies this
      ensures calls == old(calls) + [Update(UpdateArgsFor(requestId, Failed, burnerId, Some(errorMessage)))]
      ensures var s := AfterUpdate(old(currentTask), UpdateBurnStatus(answer));
        currentTask == s.0 && invalidated == old(invalidated) + s.1
    {
      UpdateTask(requestId, Failed, Some(errorMessage), answer);
    }
  }

  /** A claim the store answers with a row hands that row's request to the burner. */
  lemma ClaimHoldsTask(current: Option<BurnRequest>, row: BurnRequestRow, rest: seq<BurnRequestRow>)
    ensures AfterClaim(current, ClaimBurnTask(Data(Some([row] + rest)))).0 == Some(MapBurnRequest(row))
  {
  }

  /** An empty queue, or a failed claim, leaves the held task and every cached query alone. */
  lemma NothingToClaim(current: Option<BurnRequest>, message: string)
    ensures AfterClaim(current, ClaimBurnTask(Data(Some([])))) == (current, [])
    ensures AfterClaim(current, ClaimBurnTask(Error(message))) == (current, [])
  {
  }

  /**
   * Completing the held task: once the store returns the updated row as completed, no
   * task is held and both the lists and the finished request's detail query are stale.
   */
  lemma CompleteReleasesTask(task: BurnRequest, row: BurnRequestRow, rest: seq<BurnRequestRow>)
    requires row.status == Completed && task.id != ""
    ensures var s := AfterUpdate(Some(task), UpdateBurnStatus(Data(Some([row] + rest))));
      s.0.None? && AnyStale(s.1, DetailQueryKey(Some(task.id))) && AnyStale(s.1, ListKeyFor(None))
  {
    var s := AfterUpdate(Some(task), UpdateBurnStatus(Data(Some([row] + rest))));
    assert Stale(s.1[1], DetailQueryKey(Some(task.id)));
    assert Stale(s.1[0], ListKeyFor(None));
  }

  /** An update the store rejects keeps the held task, but still marks the lists stale. */
  lemma FailedUpdateKeepsTask(current: Option<BurnRequest>, message: string)
    ensures var s := AfterUpdate(current, UpdateBurnStatus(Error(message)));
      s.0 == current && AnyStale(s.1, ListKeyFor(None))
  {
    var s := AfterUpdate(current, UpdateBurnStatus(Error(message)));
    assert Stale(s.1[0], ListKeyFor(None));
  }

  /**
   * The update does not compare ids: finishing some other request also drops the held
   * task, and the detail query marked stale is the held task's, not the finished one's.
   */
  lemma OtherRequestReleasesTask(task: BurnRequest, row: BurnRequestRow)
    requires row.id != task.id && row.status == Failed
    ensures var s := AfterUpdate(Some(task), UpdateBurnStatus(Data(Some([row]))));
      s.0.None? && !AnyStale(s.1, DetailQueryKey(Some(row.id)))
  {
    var s := AfterUpdate(Some(task), UpdateBurnStatus(Data(Some([row]))));
    assert [row] == [row] + [];
    assert s.1 == [AllLists, Detail(task.id)] || s.1 == [AllLists];
  }

  /** A held task whose id is empty is falsy to `currentTask?.id`: only the lists go stale. */
  lemma EmptyIdSkipsDetail(task: BurnRequest, data: Option<BurnRequest>, key: QueryKey)
    requires task.id == "" && key.DetailQueryKey?
    ensures !AnyStale(AfterUpdate(Some(task), data).1, key)
  {
  }
}
