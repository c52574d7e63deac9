/** The feedback table of report/report.php: submission, the admin listing
    with an optional status filter, lookups, status updates, hard deletes
    and the count statistics, with the request handlers around them. */
module Feedback {
  import opened Wrappers
  import opened Strings
  import opened Lists
  import opened Sorting

  datatype FeedbackRow = FeedbackRow(id: int, kind: string, email: Option<string>, details: string,
                                     status: string, createdAt: string)

  function CreatedAt(r: FeedbackRow): string {
    r.createdAt
  }

  function HasStatus(status: string): FeedbackRow -> bool {
    (r: FeedbackRow) => r.status == status
  }

  function HasKind(kind: string): FeedbackRow -> bool {
    (r: FeedbackRow) => r.kind == kind
  }

  function HasId(id: int): FeedbackRow -> bool {
    (r: FeedbackRow) => r.id == id
  }

  function OtherId(id: int): FeedbackRow -> bool {
    (r: FeedbackRow) => r.id != id
  }

  // ---------------------------------------------------------------------
  // Queries and updates on the table

  /** `getAllFeedback($status)` on a connected table: filtered only when the
      status is truthy, newest first. */
  function AllFeedback(rows: seq<FeedbackRow>, status: Option<string>): seq<FeedbackRow> {
    if status.Some? && PhpTruthy(status.value) then SortBy(Filter(rows, HasStatus(status.value)), CreatedAt, true)
    else SortBy(rows, CreatedAt, true)
  }

  /** The listing holds every row with the status, each as often as stored,
      or every row when no status is given, and is newest first. */
  lemma AllFeedbackProperties(rows: seq<FeedbackRow>, status: Option<string>)
    ensures var r := AllFeedback(rows, status);
      && (status.Some? && PhpTruthy(status.value) ==>
            forall x :: multiset(r)[x] == if x.status == status.value then multiset(rows)[x] else 0)
      && (!(status.Some? && PhpTruthy(status.value)) ==> multiset(r) == multiset(rows))
      && Sorted(r, CreatedAt, true)
  {
    if status.Some? && PhpTruthy(status.value) {
      SortBySorted(Filter(rows, HasStatus(status.value)), CreatedAt, true);
    } else {
      SortBySorted(rows, CreatedAt, true);
    }
  }

  /** `UPDATE ... SET status = :status WHERE id = :id`. */
  function SetStatus(rows: seq<FeedbackRow>, id: int, status: string): (r: seq<FeedbackRow>)
    ensures |r| == |rows|
    ensures forall k :: 0 <= k < |rows| && rows[k].id != id ==> r[k] == rows[k]
    ensures forall k :: 0 <= k < |rows| && rows[k].id == id ==>
      r[k].status == status && r[k].(status := rows[k].status) == rows[k]
  {
    seq(|rows|, k requires 0 <= k < |rows| => if rows[k].id == id then rows[k].(status := status) else rows[k])
  }

  /** `DELETE ... WHERE id = :id`. */
  function Delete(rows: seq<FeedbackRow>, id: int): seq<FeedbackRow> {
    Filter(rows, OtherId(id))
  }

  /** After a delete no row has the id, and every other row is still there
      as often as before. */
  lemma DeleteProperties(rows: seq<FeedbackRow>, id: int)
    ensures forall k :: 0 <= k < |Delete(rows, id)| ==> Delete(rows, id)[k].id != id
    ensures forall x: FeedbackRow :: x.id != id ==> multiset(Delete(rows, id))[x] == multiset(rows)[x]
    ensures First(Delete(rows, id), HasId(id)).None?
  {
    var d := Delete(rows, id);
    forall k | 0 <= k < |d| ensures !HasId(id)(d[k]) {
      assert OtherId(id)(d[k]);
    }
  }

  /** An updated row is found again with the new status. */
  lemma {:induction false} SetStatusThenFind(rows: seq<FeedbackRow>, id: int, status: string)
    ensures var r := SetStatus(rows, id, status);
      && First(r, HasId(id)) == First(rows, HasId(id))
      && (First(r, HasId(id)).Some? ==> r[First(r, HasId(id)).value].status == status)
  {
    var r := SetStatus(rows, id, status);
    match First(rows, HasId(id))
    case None =>
      forall k | 0 <= k < |r| ensures !HasId(id)(r[k]) {
        assert !HasId(id)(rows[k]);
      }
    case Some(i) =>
      forall k | 0 <= k < i ensures !HasId(id)(r[k]) {
        assert !HasId(id)(rows[k]);
      }
      FirstAt(r, HasId(id), i);
  }

  // ---------------------------------------------------------------------
  // Statistics

  /** The `statistics` row. `SUM` over no rows is NULL, so every group
      count is `None` on an empty table; `COUNT(*)` is 0. */
  datatype Stats = Stats(total: nat, pending: Option<nat>, resolved: Option<nat>, inProgress: Option<nat>,
                         bugs: Option<nat>, features: Option<nat>, complaints: Option<nat>)

  /** `SUM(CASE WHEN ... THEN 1 ELSE 0 END)`. */
  function SumWhere(rows: seq<FeedbackRow>, p: FeedbackRow -> bool): Option<nat> {
    if rows == [] then None else Some(|Filter(rows, p)|)
  }

  function Statistics(rows: seq<FeedbackRow>): Stats {
    Stats(|rows|,
          SumWhere(rows, HasStatus("pending")), SumWhere(rows, HasStatus("resolved")),
          SumWhere(rows, HasStatus("in_progress")),
          SumWhere(rows, HasKind("bug")), SumWhere(rows, HasKind("feature")), SumWhere(rows, HasKind("complaint")))
  }

  /** Three pairwise exclusive conditions select at most all the rows between them. */
  lemma {:induction false} DisjointCounts(rows: seq<FeedbackRow>, p: FeedbackRow -> bool, q: FeedbackRow -> bool,
                                          r: FeedbackRow -> bool)
    requires forall x :: !(p(x) && q(x)) && !(p(x) && r(x)) && !(q(x) && r(x))
    ensures |Filter(rows, p)| + |Filter(rows, q)| + |Filter(rows, r)| <= |rows|
    decreases |rows|
  {
    if rows != [] {
      DisjointCounts(rows[1..], p, q, r);
    }
  }

  /** `total` is the row count; for a non-empty table every group count is
      present, and the status counts and the type counts each sum to at
      most `total`. */
  lemma StatisticsBounds(rows: seq<FeedbackRow>)
    ensures var st := Statistics(rows);
      && st.total == |rows|
      && (rows == [] <==> st.pending.None?)
      && (rows == [] ==>
            st.resolved.None? && st.inProgress.None? && st.bugs.None? && st.features.None? && st.complaints.None?)
      && (rows != [] ==>
            && st.pending.Some? && st.resolved.Some? && st.inProgress.Some?
            && st.bugs.Some? && st.features.Some? && st.complaints.Some?
            && st.pending.value + st.resolved.value + st.inProgress.value <= st.total
            && st.bugs.value + st.features.value + st.complaints.value <= st.total)
  {
    DisjointCounts(rows, HasStatus("pending"), HasStatus("resolved"), HasStatus("in_progress"));
    DisjointCounts(rows, HasKind("bug"), HasKind("feature"), HasKind("complaint"));
  }

  // ---------------------------------------------------------------------
  // The `Feedback` object of one request

  const DbFailed := "Database connection failed."

  ghost predicate IdsBelow(rows: seq<FeedbackRow>, nextId: int) {
    && (forall i, j :: 0 <= i < j < |rows| ==> rows[i].id < rows[j].id)
    && (forall i :: 0 <= i < |rows| ==> rows[i].id < nextId)
  }

  class FeedbackTable {
    const connected: bool
    var rows: seq<FeedbackRow>
    var nextId: int
    var lastError: string
    // Properties the handler sets before calling `SubmitFeedback`.
    var kind: string
    var email: Option<string>
    var details: string

    ghost predicate Valid()
      reads this
    {
      IdsBelow(rows, nextId)
    }

    constructor (connected: bool, rows: seq<FeedbackRow>, nextId: int)
      requires IdsBelow(rows, nextId)
      ensures Valid()
      ensures this.connected == connected && this.rows == rows && this.nextId == nextId && lastError == ""
    {
      this.connected := connected;
      this.rows := rows;
      this.nextId := nextId;
      lastError := "";
      kind, email, details := "", None, "";
    }

    /** `submitFeedback`: one new row, always 'pending'. */
    method SubmitFeedback(now: string) returns (ok: bool)
      requires Valid()
      modifies this`rows, this`nextId, this`lastError
      ensures Valid()
      ensures ok == connected
      ensures !connected ==> rows == old(rows) && lastError == DbFailed
      ensures connected ==> rows == old(rows) + [FeedbackRow(old(nextId), kind, email, details, "pending", now)]
                            && lastError == old(lastError)
    {
      if !connected {
        lastError := DbFailed;
        return false;
      }
      rows := rows + [FeedbackRow(nextId, kind, email, details, "pending", now)];
      nextId := nextId + 1;
      return true;
    }

    /** `getAllFeedback`. */
    method GetAllFeedback(status: Option<string>) returns (list: seq<FeedbackRow>)
      modifies this`lastError
      ensures !connected ==> list == [] && lastError == DbFailed
      ensures connected ==> list == AllFeedback(rows, status) && lastError == old(lastError)
    {
      if !connected {
        lastError := DbFailed;
        return [];
      }
      list := AllFeedback(rows, status);
    }

    /** `getFeedbackById`. */
    method GetFeedbackById(id: int) returns (row: Option<FeedbackRow>)
      modifies this`lastError
      ensures !connected ==> row == None && lastError == DbFailed
      ensures connected ==> lastError == old(lastError)
      ensures connected ==> match First(rows, HasId(id))
        case None => row == None
        case Some(i) => row == Some(rows[i])
    {
      if !connected {
        lastError := DbFailed;
        return None;
      }
      var found := First(rows, HasId(id));
      row := if found.Some? then Some(rows[found.value]) else None;
    }

    /** `updateStatus`. */
    method UpdateStatus(id: int, status: string) returns (ok: bool)
      requires Valid()
      modifies this`rows
      ensures Valid()
      ensures ok == connected
      ensures rows == if connected then SetStatus(old(rows), id, status) else old(rows)
    {
      if !connected {
        return false;
      }
      rows := SetStatus(rows, id, status);
      return true;
    }

    /** `deleteFeedback`: the row is removed, not flagged. */
    method DeleteFeedback(id: int) returns (ok: bool)
      requires Valid()
      modifies this`rows
      ensures Valid()
      ensures ok == connected
      ensures rows == if connected then Delete(old(rows), id) else old(rows)
    {
      if !connected {
        return false;
      }
      FilterKeepsOrder(rows, OtherId(id), (a: FeedbackRow, b: FeedbackRow) => a.id < b.id);
      forall k | 0 <= k < |Delete(rows, id)| ensures Delete(rows, id)[k].id < nextId {
        FilterElements(rows, OtherId(id), k);
      }
      rows := Delete(rows, id);
      return true;
    }

    /** `getStatistics`. */
    function GetStatistics(): (st: Option<Stats>)
      reads this
      ensures st.Some? <==> connected
      ensures st.Some? ==> st.value == Statistics(rows)
    {
      if connected then Some(Statistics(rows)) else None
    }
  }

  // ---------------------------------------------------------------------
  // The request handlers

  /** The email the submit handler stores: a missing or falsy one is NULL. */
  function SubmittedEmail(email: Option<string>): (r: Option<string>)
    ensures r.Some? <==> email.Some? && PhpTruthy(email.value)
    ensures r.Some? ==> r == email
  {
    if email.Some? && PhpTruthy(email.value) then email else None
  }

  datatype PostRequest =
    | Submit(kind: string, email: Option<string>, details: string)
    | UpdateStatusRequest(id: int, status: string)
    | DeleteRequest(id: int)
    | UnknownPost

  datatype Response = Response(success: bool, message: string, error: Option<string>)

  method HandlePost(table: FeedbackTable, req: PostRequest, now: string) returns (resp: Response)
    requires table.Valid()
    modifies table
    ensures table.Valid()
    ensures req.Submit? ==>
      if table.connected then
        && table.rows == old(table.rows) +
             [FeedbackRow(old(table.nextId), req.kind, SubmittedEmail(req.email), req.details, "pending", now)]
        && resp == Response(true, "Feedback submitted successfully", None)
      else
        table.rows == old(table.rows) && resp == Response(false, "Failed to submit feedback", Some(DbFailed))
    ensures req.UpdateStatusRequest? ==>
      && table.rows == (if table.connected then SetStatus(old(table.rows), req.id, req.status) else old(table.rows))
      && resp == (if table.connected then Response(true, "Status updated successfully", None)
                  else Response(false, "Failed to update status", None))
    ensures req.DeleteRequest? ==>
      && table.rows == (if table.connected then Delete(old(table.rows), req.id) else old(table.rows))
      && resp == (if table.connected then Response(true, "Feedback deleted successfully", None)
                  else Response(false, "Failed to delete feedback", None))
    ensures req.UnknownPost? ==> table.rows == old(table.rows) && resp == Response(false, "Invalid action", None)
  {
    match req
    case Submit(kind, email, details) =>
      table.kind := kind;
      table.email := SubmittedEmail(email);
      table.details := details;
      var ok := table.SubmitFeedback(now);
      resp := if ok then Response(true, "Feedback submitted successfully", None)
              else Response(false, "Failed to submit feedback", Some(table.lastError));
    case UpdateStatusRequest(id, status) =>
      var ok := table.UpdateStatus(id, status);
      resp := if ok then Response(true, "Status updated successfully", None)
              else Response(false, "Failed to update status", None);
    case DeleteRequest(id) =>
      var ok := table.DeleteFeedback(id);
      resp := if ok then Response(true, "Feedback deleted successfully", None)
              else Response(false, "Failed to delete feedback", None);
    case UnknownPost =>
      resp := Response(false, "Invalid action", None);
  }

  datatype GetRequest = ListRequest(status: Option<string>) | ByIdRequest(id: Option<int>) | StatsRequest | UnknownGet

  datatype GetResponse =
    | Listing(feedback: seq<FeedbackRow>, dbConnected: bool)
    | Found(row: FeedbackRow)
    | Statistic(stats: Stats)
    | Failure(message: string)

  method HandleGet(table: FeedbackTable, req: GetRequest) returns (resp: GetResponse)
    modifies table`lastError
    ensures req.ListRequest? ==>
      resp == Listing(if table.connected then AllFeedback(table.rows, req.status) else [], table.connected)
    ensures req.ByIdRequest? ==>
      var id := req.id.GetOr(0);
      if table.connected && First(table.rows, HasId(id)).Some? then
        resp == Found(table.rows[First(table.rows, HasId(id)).value])
      else resp == Failure("Feedback not found")
    ensures req.StatsRequest? ==>
      resp == if table.connected then Statistic(Statistics(table.rows)) else Failure("Failed to fetch statistics")
    ensures req.UnknownGet? ==> resp == Failure("Invalid action")
  {
    match req
    case ListRequest(status) =>
      var list := table.GetAllFeedback(status);
      resp := Listing(list, table.connected);
    case ByIdRequest(id) =>
      var row := table.GetFeedbackById(id.GetOr(0));
      resp := if row.Some? then Found(row.value) else Failure("Feedback not found");
    case StatsRequest =>
      var st := table.GetStatistics();
      resp := if st.Some? then Statistic(st.value) else Failure("Failed to fetch statistics");
    case UnknownGet =>
      resp := Failure("Invalid action");
  }
}
