/**
 * The client side of the burn-request queue: the row the store keeps, the record
 * the client works with, and how each call to the store turns the store's answer
 * into the value the client returns. The store's own functions that create, claim
 * and update requests are not modelled: each call takes the store's answer as a
 * parameter, so nothing here says which request a claim picks.
 */
module BurnRequests {
  import opened Common
  import opened Sorting

  /** The `burn_request_status` enumeration. */
  datatype BurnStatus = Pending | Processing | Completed | Failed

  function BurnStatusName(s: BurnStatus): string {
    match s
    case Pending => "pending"
    case Processing => "processing"
    case Completed => "completed"
    case Failed => "failed"
  }

  /** The statuses `updateBurnStatus` accepts. */
  type FinalStatus = s: BurnStatus | s == Completed || s == Failed witness Completed

  /** A point in time, as the milliseconds a timestamp column denotes. */
  type Instant = int

  /** A row of `burn_requests`. */
  datatype BurnRequestRow = BurnRequestRow(
    id: string,
    firmware_id: string,
    firmware_version: string,
    status: BurnStatus,
    created_at: Instant,
    updated_at: Instant,
    initiated_by: string,
    completed_by: Option<string>,
    error_message: Option<string>)

  /** The client's `BurnRequest` record. */
  datatype BurnRequest = BurnRequest(
    id: string,
    firmwareId: string,
    firmwareVersion: string,
    status: BurnStatus,
    createdAt: Instant,
    updatedAt: Instant,
    initiatedBy: string,
    completedBy: Option<string>,
    errorMessage: Option<string>)

  /** `mapBurnRequest`: each column into the matching camel-case field. */
  function MapBurnRequest(row: BurnRequestRow): (r: BurnRequest)
    ensures r.id == row.id && r.firmwareId == row.firmware_id && r.firmwareVersion == row.firmware_version
    ensures r.status == row.status && r.initiatedBy == row.initiated_by
    ensures r.completedBy == row.completed_by && r.errorMessage == row.error_message
    ensures r.createdAt == row.created_at && r.updatedAt == row.updated_at
  {
    BurnRequest(row.id, row.firmware_id, row.firmware_version, row.status,
      row.created_at, row.updated_at, row.initiated_by, row.completed_by, row.error_message)
  }

  /** The row a record was read from. */
  function RowOf(r: BurnRequest): BurnRequestRow {
    BurnRequestRow(r.id, r.firmwareId, r.firmwareVersion, r.status,
      r.createdAt, r.updatedAt, r.initiatedBy, r.completedBy, r.errorMessage)
  }

  /** The mapping loses nothing: it is undone by `RowOf`, in both directions. */
  lemma MapBurnRequestRoundTrip(row: BurnRequestRow, r: BurnRequest)
    ensures RowOf(MapBurnRequest(row)) == row
    ensures MapBurnRequest(RowOf(r)) == r
  {
  }

  // ---------------------------------------------------------------------------
  // Store answers

  /** The `{ data, error }` of a store call: an error, or data that may be null. */
  datatype Answer<T> = Error(message: string) | Data(data: Option<T>)

  /**
   * The handling shared by `claimBurnTask` and `updateBurnStatus`: the mapped first row
   * when the store returns a non-empty list; null for an empty or missing list, and
   * null when the store reports an error, which is caught.
   */
  function FirstRow(answer: Answer<seq<BurnRequestRow>>): (r: Option<BurnRequest>)
    ensures r.Some? <==> answer.Data? && answer.data.Some? && |answer.data.value| > 0
    ensures r.Some? ==> r.value == MapBurnRequest(answer.data.value[0])
  {
    match answer
    case Error(_) => None
    case Data(None) => None
    case Data(Some(rows)) => if |rows| > 0 then Some(MapBurnRequest(rows[0])) else None
  }

  /** The arguments of `claim_burn_task`. */
  datatype ClaimArgs = ClaimArgs(burner_id: string)

  /** The arguments of `update_burn_status`. */
  datatype UpdateArgs = UpdateArgs(request_id: string, new_status: FinalStatus, burner_id: string, error_msg: Option<string>)

  /** The arguments of `request_firmware_burn`. */
  datatype CreateArgs = CreateArgs(fw_id: string, fw_version: string, initiator: string)

  function ClaimArgsFor(burnerId: string): ClaimArgs {
    ClaimArgs(burnerId)
  }

  /** `claimBurnTask`, once the store has answered the call `ClaimArgsFor(burnerId)`. */
  function ClaimBurnTask(answer: Answer<seq<BurnRequestRow>>): (r: Option<BurnRequest>)
    ensures answer.Error? ==> r.None?
    ensures answer == Data(Some([])) ==> r.None?
    ensures forall row, rest :: answer == Data(Some([row] + rest)) ==> r == Some(MapBurnRequest(row))
  {
    FirstRow(answer)
  }

  /**
   * The call `updateBurnStatus` makes: `errorMessage || null`, so a missing or empty
   * message is sent as null and any other message as it is.
   */
  function UpdateArgsFor(requestId: string, newStatus: FinalStatus, burnerId: string, errorMessage: Option<string>): (a: UpdateArgs)
    ensures a.request_id == requestId && a.new_status == newStatus && a.burner_id == burnerId
    ensures a.error_msg.None? <==> errorMessage.None? || errorMessage.value == ""
    ensures a.error_msg.Some? ==> a.error_msg == errorMessage
  {
    UpdateArgs(requestId, newStatus, burnerId,
      match errorMessage case Some(m) => (if m != "" then Some(m) else None) case None => None)
  }

  /** `updateBurnStatus`, once the store has answered: the mapped updated row, or null. */
  function UpdateBurnStatus(answer: Answer<seq<BurnRequestRow>>): (r: Option<BurnRequest>)
    ensures answer.Error? ==> r.None?
    ensures answer == Data(Some([])) || answer == Data(None) ==> r.None?
    ensures forall row, rest :: answer == Data(Some([row] + rest)) ==> r == Some(MapBurnRequest(row))
  {
    FirstRow(answer)
  }

  function CreateArgsFor(firmwareId: string, firmwareVersion: string, deviceId: string): CreateArgs {
    CreateArgs(firmwareId, firmwareVersion, deviceId)
  }

  /** `createBurnRequest`: the new request's id, or null when the store reports an error. */
  function CreateBurnRequest(answer: Answer<string>): (id: Option<string>)
    ensures answer.Error? ==> id.None?
    ensures answer.Data? ==> id == answer.data
  {
    match answer
    case Error(_) => None
    case Data(d) => d
  }

  /** `getBurnRequestById` on the answer to a single-row query: the mapped row, or null on any error. */
  function GetBurnRequestById(answer: Answer<BurnRequestRow>): (r: Option<BurnRequest>)
    ensures answer.Error? ==> r.None?
    ensures answer.Data? && answer.data.None? ==> r.None?
    ensures answer.Data? && answer.data.Some? ==> r == Some(MapBurnRequest(answer.data.value))
  {
    match answer
    case Error(_) => None
    case Data(None) => None
    case Data(Some(row)) => Some(MapBurnRequest(row))
  }

  // ---------------------------------------------------------------------------
  // The list query

  /** What `getBurnRequests` asks of `burn_requests`. */
  datatype ListQuery = ListQuery(orderColumn: string, ascending: bool, limit: nat, statusEq: Option<BurnStatus>)

  /** The query of `getBurnRequests(status, limit)`; the limit is 10 unless given. */
  function ListQueryFor(status: Option<BurnStatus>, limit: nat := 10): (q: ListQuery)
    ensures q.orderColumn == "created_at" && !q.ascending
    ensures q.limit == limit
    ensures q.statusEq == status
  {
    var q := ListQuery("created_at", false, limit, None);
    if status.Some? then q.(statusEq := status) else q
  }

  /** `getBurnRequests`, once the store has answered: the mapped rows, or [] on an error or no data. */
  function GetBurnRequests(answer: Answer<seq<BurnRequestRow>>): (r: seq<BurnRequest>)
    ensures answer.Error? || answer.data.None? ==> r == []
    ensures answer.Data? && answer.data.Some? ==>
      |r| == |answer.data.value| && forall i :: 0 <= i < |r| ==> r[i] == MapBurnRequest(answer.data.value[i])
  {
    match answer
    case Error(_) => []
    case Data(None) => []
    case Data(Some(rows)) => seq(|rows|, i requires 0 <= i < |rows| => MapBurnRequest(rows[i]))
  }

  /** Rows newest first: `order('created_at', { ascending: false })`. */
  predicate CreatedLater(a: BurnRequestRow, b: BurnRequestRow) {
    a.created_at >= b.created_at
  }

  predicate MatchesStatus(q: ListQuery, row: BurnRequestRow) {
    q.statusEq.None? || row.status == q.statusEq.value
  }

  /** The filter `.eq('status', status)` applies, or none when no status is given. */
  function StatusMatcher(status: Option<BurnStatus>): BurnRequestRow -> bool {
    (row: BurnRequestRow) => status.None? || row.status == status.value
  }

  lemma CreatedLaterIsOrder()
    ensures Total(CreatedLater) && Transitive(CreatedLater)
  {
  }

  /**
   * The rows a store holding `table` returns for `q`: the matching rows, newest first,
   * as many as the limit allows, and none of the matching rows it leaves out is newer
   * than one it returns.
   */
  function ListQueryAnswer(table: seq<BurnRequestRow>, q: ListQuery): (rows: seq<BurnRequestRow>)
    ensures |rows| == Min(q.limit, |Filter(table, StatusMatcher(q.statusEq))|)
    ensures multiset(rows) <= multiset(table)
    ensures forall i :: 0 <= i < |rows| ==> MatchesStatus(q, rows[i])
    ensures Sorted(rows, CreatedLater)
    ensures forall x, y :: x in multiset(Filter(table, StatusMatcher(q.statusEq))) - multiset(rows) && y in rows ==>
      x.created_at <= y.created_at
  {
    var sorted := SortBy(Filter(table, StatusMatcher(q.statusEq)), CreatedLater);
    var k := Min(q.limit, |sorted|);
    NewestMatchingPrefix(table, q, k);
    sorted[..k]
  }

  /** The first `k` of the matching rows, newest first, are matching rows of the table, in order. */
  lemma NewestMatchingPrefix(table: seq<BurnRequestRow>, q: ListQuery, k: nat)
    requires k <= |Filter(table, StatusMatcher(q.statusEq))|
    ensures var rows := SortBy(Filter(table, StatusMatcher(q.statusEq)), CreatedLater)[..k];
      && multiset(rows) <= multiset(table)
      && (forall i :: 0 <= i < |rows| ==> MatchesStatus(q, rows[i]))
      && Sorted(rows, CreatedLater)
      && (forall x, y :: x in multiset(Filter(table, StatusMatcher(q.statusEq))) - multiset(rows) && y in rows ==>
            x.created_at <= y.created_at)
  {
    var matching := Filter(table, StatusMatcher(q.statusEq));
    var sorted := SortBy(matching, CreatedLater);
    CreatedLaterIsOrder();
    SortBySorted(matching, CreatedLater);
    SortedPrefix(sorted, CreatedLater, k);
    NewestFirstPrefix(matching, k);
    var rows := sorted[..k];
    assert multiset(matching) <= multiset(table);
    forall i | 0 <= i < |rows|
      ensures MatchesStatus(q, rows[i])
    {
      assert rows[i] in multiset(matching);
      assert StatusMatcher(q.statusEq)(rows[i]);
    }
  }

  /** Of rows sorted newest first, none after the first `k` is newer than one of the first `k`. */
  lemma NewestFirstPrefix(s: seq<BurnRequestRow>, k: nat)
    requires k <= |s|
    ensures var rows := SortBy(s, CreatedLater)[..k];
      forall x, y :: x in multiset(s) - multiset(rows) && y in rows ==> x.created_at <= y.created_at
  {
    var sorted := SortBy(s, CreatedLater);
    CreatedLaterIsOrder();
    SortBySorted(s, CreatedLater);
    SortedPrefixFirst(sorted, CreatedLater, k);
    assert multiset(sorted) == multiset(s);
    forall x, y | x in multiset(s) - multiset(sorted[..k]) && y in sorted[..k]
      ensures x.created_at <= y.created_at
    {
      assert CreatedLater(y, x);
    }
  }

  /** The rows of `table` with the given status, if one is given. */
  function RowsWithStatus(table: seq<BurnRequestRow>, status: Option<BurnStatus>): seq<BurnRequestRow> {
    Filter(table, StatusMatcher(status))
  }

  /**
   * Against a store that answers the list query this way, `getBurnRequests(status, limit)`
   * returns `limit` requests with the requested status, or all of them when there are
   * fewer, newest first, and no such request it leaves out was created after one it returns.
   */
  lemma GetBurnRequestsFromStore(table: seq<BurnRequestRow>, status: Option<BurnStatus>, limit: nat)
    ensures var r := GetBurnRequests(Data(Some(ListQueryAnswer(table, ListQueryFor(status, limit)))));
      && |r| == Min(limit, |RowsWithStatus(table, status)|)
      && (forall i :: 0 <= i < |r| ==> status.None? || r[i].status == status.value)
      && (forall i, j :: 0 <= i < j < |r| ==> r[i].createdAt >= r[j].createdAt)
      && (forall x, i :: x in multiset(RowsWithStatus(table, status)) - multiset(RowsOf(r)) && 0 <= i < |r| ==>
            x.created_at <= r[i].createdAt)
  {
    var q := ListQueryFor(status, limit);
    var rows := ListQueryAnswer(table, q);
    var r := GetBurnRequests(Data(Some(rows)));
    MappedRowsBack(rows);
    assert RowsWithStatus(table, status) == Filter(table, StatusMatcher(q.statusEq));
    forall i, j | 0 <= i < j < |r|
      ensures r[i].createdAt >= r[j].createdAt
    {
      assert CreatedLater(rows[i], rows[j]);
    }
    forall x, i | x in multiset(RowsWithStatus(table, status)) - multiset(RowsOf(r)) && 0 <= i < |r|
      ensures x.created_at <= r[i].createdAt
    {
      assert rows[i] in rows;
    }
  }

  /** Reading back the rows of the mapped requests gives the rows. */
  lemma MappedRowsBack(rows: seq<BurnRequestRow>)
    ensures RowsOf(GetBurnRequests(Data(Some(rows)))) == rows
  {
    var r := GetBurnRequests(Data(Some(rows)));
    forall i | 0 <= i < |rows|
      ensures RowsOf(r)[i] == rows[i]
    {
      MapBurnRequestRoundTrip(rows[i], r[i]);
    }
  }

  /** The rows the records were read from, in order. */
  function RowsOf(r: seq<BurnRequest>): (rows: seq<BurnRequestRow>)
    ensures |rows| == |r| && forall i :: 0 <= i < |r| ==> rows[i] == RowOf(r[i])
  {
    seq(|r|, i requires 0 <= i < |r| => RowOf(r[i]))
  }
}
