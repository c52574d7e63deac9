/** The server booking table of api/bookings.php: the create handler fills
    in defaults for missing members and appends one row; `getByUser` lists a
    user's bookings newest first. */
module Bookings {
  import opened Wrappers
  import opened Lists
  import opened Sorting

  /** The decoded POST body of a `create` request; `None` is a member that
      is missing or JSON `null`. */
  datatype CreateRequest = CreateRequest(
    userId: Option<int>, roomId: Option<int>,
    guestName: Option<string>, guestEmail: Option<string>, guestPhone: Option<string>,
    checkIn: Option<string>, checkOut: Option<string>,
    numGuests: Option<int>, totalPrice: Option<int>,
    status: Option<string>, specialRequests: Option<string>)

  /** The values bound to the INSERT. */
  datatype Payload = Payload(
    userId: Option<int>, roomId: Option<int>,
    guestName: string, guestEmail: string, guestPhone: string,
    checkIn: string, checkOut: string,
    numGuests: int, totalPrice: int, status: string, specialRequests: string)

  /** The `??` defaults of the create handler: every member given is bound
      as it is, and every missing one gets its default. */
  function PayloadOf(req: CreateRequest): (p: Payload)
    ensures p.userId == req.userId && p.roomId == req.roomId
    ensures (req.guestName.None? ==> p.guestName == "") && (req.guestName.Some? ==> p.guestName == req.guestName.value)
    ensures (req.guestEmail.None? ==> p.guestEmail == "") && (req.guestEmail.Some? ==> p.guestEmail == req.guestEmail.value)
    ensures (req.guestPhone.None? ==> p.guestPhone == "") && (req.guestPhone.Some? ==> p.guestPhone == req.guestPhone.value)
    ensures (req.checkIn.None? ==> p.checkIn == "") && (req.checkIn.Some? ==> p.checkIn == req.checkIn.value)
    ensures (req.checkOut.None? ==> p.checkOut == "") && (req.checkOut.Some? ==> p.checkOut == req.checkOut.value)
    ensures (req.numGuests.None? ==> p.numGuests == 1) && (req.numGuests.Some? ==> p.numGuests == req.numGuests.value)
    ensures (req.totalPrice.None? ==> p.totalPrice == 0) && (req.totalPrice.Some? ==> p.totalPrice == req.totalPrice.value)
    ensures (req.status.None? ==> p.status == "pending") && (req.status.Some? ==> p.status == req.status.value)
    ensures (req.specialRequests.None? ==> p.specialRequests == "")
         && (req.specialRequests.Some? ==> p.specialRequests == req.specialRequests.value)
  {
    Payload(req.userId, req.roomId,
            req.guestName.GetOr(""), req.guestEmail.GetOr(""), req.guestPhone.GetOr(""),
            req.checkIn.GetOr(""), req.checkOut.GetOr(""),
            req.numGuests.GetOr(1), req.totalPrice.GetOr(0),
            req.status.GetOr("pending"), req.specialRequests.GetOr(""))
  }

  /** The request that gives every member of a payload. */
  function RequestOf(p: Payload): CreateRequest {
    CreateRequest(p.userId, p.roomId, Some(p.guestName), Some(p.guestEmail), Some(p.guestPhone),
                  Some(p.checkIn), Some(p.checkOut), Some(p.numGuests), Some(p.totalPrice),
                  Some(p.status), Some(p.specialRequests))
  }

  /** Filling in defaults never overrides a given member: a request that
      gives every member is bound exactly as sent, and the defaults applied
      once are a fixed point. */
  lemma PayloadKeepsGivenMembers(p: Payload, req: CreateRequest)
    ensures PayloadOf(RequestOf(p)) == p
    ensures PayloadOf(RequestOf(PayloadOf(req))) == PayloadOf(req)
  {
  }

  datatype BookingRow = BookingRow(id: int, p: Payload, createdAt: string)

  /** `WHERE user_id = :user_id`: a NULL user id matches no one. */
  function ForUser(userId: int): BookingRow -> bool {
    (r: BookingRow) => r.p.userId == Some(userId)
  }

  function CreatedAt(r: BookingRow): string {
    r.createdAt
  }

  /** `getByUser` on a connected table. */
  function ByUser(rows: seq<BookingRow>, userId: int): seq<BookingRow> {
    SortBy(Filter(rows, ForUser(userId)), CreatedAt, true)
  }

  /** `getByUser` lists exactly that user's rows, each as often as it is
      stored, newest first. */
  lemma ByUserProperties(rows: seq<BookingRow>, userId: int)
    ensures var r := ByUser(rows, userId);
      && (forall x :: multiset(r)[x] == if x.p.userId == Some(userId) then multiset(rows)[x] else 0)
      && Sorted(r, CreatedAt, true)
  {
    SortBySorted(Filter(rows, ForUser(userId)), CreatedAt, true);
  }

  /** A created booking shows up in its user's list and in no other user's,
      beside everything listed before. */
  lemma ByUserAfterCreate(rows: seq<BookingRow>, row: BookingRow, userId: int)
    ensures multiset(ByUser(rows + [row], userId)) ==
            multiset(ByUser(rows, userId)) + (if row.p.userId == Some(userId) then multiset{row} else multiset{})
  {
    var p := ForUser(userId);
    FilterAppend(rows, [row], p);
    assert Filter([row], p) == if p(row) then [row] else [] by {
      assert [row][1..] == [];
    }
  }

  /** Strictly increasing ids, all below the next AUTO_INCREMENT value. */
  ghost predicate IdsIncreasing(rows: seq<BookingRow>, nextId: int) {
    && (forall i, j :: 0 <= i < j < |rows| ==> rows[i].id < rows[j].id)
    && (forall i :: 0 <= i < |rows| ==> rows[i].id < nextId)
  }

  class BookingTable {
    const connected: bool
    var rows: seq<BookingRow>
    var nextId: int

    ghost predicate Valid()
      reads this
    {
      IdsIncreasing(rows, nextId)
    }

    constructor (connected: bool, rows: seq<BookingRow>, nextId: int)
      requires IdsIncreasing(rows, nextId)
      ensures Valid()
      ensures this.connected == connected && this.rows == rows && this.nextId == nextId
    {
      this.connected := connected;
      this.rows := rows;
      this.nextId := nextId;
    }

    /** `Booking::create`: appends one row, without looking at the others. */
    method Create(p: Payload, now: string) returns (ok: bool)
      requires Valid()
      modifies this
      ensures Valid()
      ensures ok == connected
      ensures !connected ==> rows == old(rows) && nextId == old(nextId)
      ensures connected ==> rows == old(rows) + [BookingRow(old(nextId), p, now)] && nextId == old(nextId) + 1
    {
      if !connected {
        return false;
      }
      rows := rows + [BookingRow(nextId, p, now)];
      nextId := nextId + 1;
      return true;
    }

    /** `Booking::getByUser`. */
    function GetByUser(userId: int): (r: seq<BookingRow>)
      reads this
      ensures !connected ==> r == []
      ensures connected ==> r == ByUser(rows, userId)
    {
      if !connected then [] else ByUser(rows, userId)
    }
  }

  // ---------------------------------------------------------------------
  // The request handler

  datatype HttpMethod = Options | Get | Post | OtherMethod

  /** The response: an empty 200 for OPTIONS, otherwise a JSON body. */
  datatype Response = NoContent | Json(success: bool, message: string, bookings: seq<BookingRow>)

  method Handle(table: BookingTable, m: HttpMethod, action: Option<string>, req: CreateRequest,
                userId: Option<int>, now: string) returns (resp: Response)
    requires table.Valid()
    modifies table
    ensures table.Valid()
    ensures m == Options ==> resp == NoContent && table.rows == old(table.rows)
    ensures m == Post && action != Some("create") ==>
              resp == Json(false, "Invalid action", []) && table.rows == old(table.rows)
    ensures m == Post && action == Some("create") ==>
              && (if table.connected then resp == Json(true, "Booking saved", [])
                  else resp == Json(false, "Failed to save booking", []))
              && (table.connected ==> table.rows == old(table.rows) + [BookingRow(old(table.nextId), PayloadOf(req), now)])
              && (!table.connected ==> table.rows == old(table.rows))
    ensures m == Get && action == Some("getByUser") ==>
              resp == Json(true, "", table.GetByUser(userId.GetOr(0))) && table.rows == old(table.rows)
    ensures m == Get && action != Some("getByUser") ==>
              resp == Json(false, "Invalid action", []) && table.rows == old(table.rows)
    ensures m == OtherMethod ==> resp == Json(false, "Unsupported method", []) && table.rows == old(table.rows)
  {
    match m
    case Options =>
      resp := NoContent;
    case Post =>
      if action.GetOr("") == "create" {
        var ok := table.Create(PayloadOf(req), now);
        resp := if ok then Json(true, "Booking saved", []) else Json(false, "Failed to save booking", []);
      } else {
        resp := Json(false, "Invalid action", []);
      }
    case Get =>
      if action.GetOr("") == "getByUser" {
        resp := Json(true, "", table.GetByUser(userId.GetOr(0)));
      } else {
        resp := Json(false, "Invalid action", []);
      }
    case OtherMethod =>
      resp := Json(false, "Unsupported method", []);
  }
}
