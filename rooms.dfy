/** The rooms table of rooms/rooms.php: listing in id order, substring
    search over three columns, lookup, insert, update and the soft delete
    that only clears `is_available`, with the request handlers. */
module Rooms {
  import opened Wrappers
  import opened Strings
  import opened Lists

  datatype RoomRow = RoomRow(id: int, name: string, description: string, price: int, imageUrl: string,
                             amenities: string, isAvailable: int, createdAt: string)

  /** The columns a request supplies. */
  datatype RoomFields = RoomFields(name: string, description: string, price: int, imageUrl: string, amenities: string)

  /** The columns of a row that a request can set. */
  function FieldsOf(r: RoomRow): RoomFields {
    RoomFields(r.name, r.description, r.price, r.imageUrl, r.amenities)
  }

  /** `name LIKE '%t%' OR description LIKE '%t%' OR amenities LIKE '%t%'`. */
  function Matches(term: string): RoomRow -> bool {
    (r: RoomRow) => Contains(r.name, term) || Contains(r.description, term) || Contains(r.amenities, term)
  }

  function HasId(id: int): RoomRow -> bool {
    (r: RoomRow) => r.id == id
  }

  ghost predicate IdsIncreasing(rows: seq<RoomRow>) {
    forall i, j :: 0 <= i < j < |rows| ==> rows[i].id < rows[j].id
  }

  /** `searchRooms` on a connected table. */
  function Search(rows: seq<RoomRow>, term: string): seq<RoomRow> {
    Filter(rows, Matches(term))
  }

  /** The search returns exactly the rooms with the term in one of the three
      columns, unavailable ones included, still in ascending id order; the
      empty term returns every room. */
  lemma SearchProperties(rows: seq<RoomRow>, term: string)
    requires IdsIncreasing(rows)
    ensures var r := Search(rows, term);
      && (forall x :: x in r <==>
            (x in rows && (Contains(x.name, term) || Contains(x.description, term) || Contains(x.amenities, term))))
      && IdsIncreasing(r)
    ensures term == "" ==> Search(rows, term) == rows
  {
    var r := Search(rows, term);
    forall x ensures x in r <==> x in rows && Matches(term)(x) {
      assert x in r <==> x in multiset(r);
      assert x in rows <==> x in multiset(rows);
    }
    FilterKeepsOrder(rows, Matches(term), (a: RoomRow, b: RoomRow) => a.id < b.id);
    if term == "" {
      forall k | 0 <= k < |rows| ensures Matches(term)(rows[k]) {
        ContainsEmpty(rows[k].name);
      }
      FilterAll(rows, Matches(term));
    }
  }

  /** `UPDATE rooms SET ... WHERE id = :id`: every row with the id gets the
      fields and the availability. */
  function UpdateRows(rows: seq<RoomRow>, id: int, f: RoomFields, available: int): (r: seq<RoomRow>)
    ensures |r| == |rows|
    ensures forall k :: 0 <= k < |rows| && rows[k].id != id ==> r[k] == rows[k]
    ensures forall k :: 0 <= k < |rows| && rows[k].id == id ==>
      && r[k].id == id && r[k].createdAt == rows[k].createdAt
      && FieldsOf(r[k]) == f && r[k].isAvailable == available
  {
    seq(|rows|, k requires 0 <= k < |rows| =>
      if rows[k].id == id then rows[k].(name := f.name, description := f.description, price := f.price,
                                        imageUrl := f.imageUrl, amenities := f.amenities, isAvailable := available)
      else rows[k])
  }

  /** An updated room is found again by its id, at the same place, with
      the new fields and availability; its id and creation time are kept,
      and every other room is as it was. */
  lemma {:induction false} UpdateThenFind(rows: seq<RoomRow>, id: int, f: RoomFields, available: int)
    ensures var r := UpdateRows(rows, id, f, available);
      && First(r, HasId(id)) == First(rows, HasId(id))
      && (First(r, HasId(id)).Some? ==>
            var i := First(r, HasId(id)).value;
            && FieldsOf(r[i]) == f && r[i].isAvailable == available
            && r[i].id == rows[i].id && r[i].createdAt == rows[i].createdAt)
      && (forall k :: 0 <= k < |rows| && rows[k].id != id ==> r[k] == rows[k])
  {
    var r := UpdateRows(rows, id, f, available);
    match First(rows, HasId(id))
    case None =>
      forall k | 0 <= k < |r| ensures !HasId(id)(r[k]) {
        assert !HasId(id)(rows[k]);
      }
    case Some(i) =>
      forall k | 0 <= k < i ensures !HasId(id)(r[k]) {
        assert !HasId(id)(rows[k]);
      }
      FirstAt(r, HasId(id), i);
  }

  /** `UPDATE rooms SET is_available = 0 WHERE id = :id`. */
  function SoftDelete(rows: seq<RoomRow>, id: int): (r: seq<RoomRow>)
    ensures |r| == |rows|
    ensures forall k :: 0 <= k < |rows| && rows[k].id != id ==> r[k] == rows[k]
    ensures forall k :: 0 <= k < |rows| && rows[k].id == id ==>
      r[k].isAvailable == 0 && r[k].(isAvailable := rows[k].isAvailable) == rows[k]
  {
    seq(|rows|, k requires 0 <= k < |rows| => if rows[k].id == id then rows[k].(isAvailable := 0) else rows[k])
  }

  /** A deleted room stays in the table, with every column but
      `is_available` as it was, and is still listed and found by id. */
  lemma {:induction false} SoftDeleteKeepsRoom(rows: seq<RoomRow>, id: int)
    ensures var r := SoftDelete(rows, id);
      && (forall k :: 0 <= k < |rows| ==> r[k].(isAvailable := rows[k].isAvailable) == rows[k])
      && First(r, HasId(id)) == First(rows, HasId(id))
      && (First(r, HasId(id)).Some? ==> r[First(r, HasId(id)).value].isAvailable == 0)
  {
    var r := SoftDelete(rows, id);
    match First(rows, HasId(id))
    case None =>
      forall k | 0 <= k < |r| ensures !HasId(id)(r[k]) {
        assert !HasId(id)(rows[k]);
      }
    case Some(i) =>
      forall k | 0 <= k < i ensures !HasId(id)(r[k]) {
        assert !HasId(id)(rows[k]);
      }
      FirstAt(r, HasId(id), i);
  }

  // ---------------------------------------------------------------------
  // The `Room` object of one request

  ghost predicate IdsBelow(rows: seq<RoomRow>, nextId: int) {
    IdsIncreasing(rows) && forall i :: 0 <= i < |rows| ==> rows[i].id < nextId
  }

  class RoomTable {
    const connected: bool
    var rows: seq<RoomRow>
    var nextId: int
    // Properties the handler sets before `AddRoom` and `UpdateRoom`.
    var id: int
    var fields: RoomFields
    var isAvailable: int

    ghost predicate Valid()
      reads this
    {
      IdsBelow(rows, nextId)
    }

    constructor (connected: bool, rows: seq<RoomRow>, nextId: int)
      requires IdsBelow(rows, nextId)
      ensures Valid()
      ensures this.connected == connected && this.rows == rows && this.nextId == nextId
    {
      this.connected := connected;
      this.rows := rows;
      this.nextId := nextId;
      id, fields, isAvailable := 0, RoomFields("", "", 0, "", ""), 0;
    }

    /** `getAllRooms`: the table is held in id order, so `ORDER BY id ASC`
        returns it as it is, unavailable rooms included. */
    function GetAllRooms(): (r: seq<RoomRow>)
      reads this
      requires Valid()
      ensures connected ==> r == rows && IdsIncreasing(r)
      ensures !connected ==> r == []
    {
      if connected then rows else []
    }

    function SearchRooms(term: string): (r: seq<RoomRow>)
      reads this
      requires Valid()
      ensures !connected ==> r == []
      ensures connected ==> r == Search(rows, term)
    {
      if connected then Search(rows, term) else []
    }

    function GetRoomById(id: int): (r: Option<RoomRow>)
      reads this
      ensures !connected ==> r == None
      ensures connected ==> match First(rows, HasId(id))
        case None => r == None
        case Some(i) => r == Some(rows[i])
    {
      if !connected then None
      else match First(rows, HasId(id))
        case None => None
        case Some(i) => Some(rows[i])
    }

    /** `addRoom`: one new row with the object's properties. */
    method AddRoom(now: string) returns (ok: bool)
      requires Valid()
      modifies this`rows, this`nextId
      ensures Valid()
      ensures ok == connected
      ensures !connected ==> rows == old(rows)
      ensures connected ==> rows == old(rows) + [RoomRow(old(nextId), fields.name, fields.description, fields.price,
                                                         fields.imageUrl, fields.amenities, isAvailable, now)]
    {
      if !connected {
        return false;
      }
      rows := rows + [RoomRow(nextId, fields.name, fields.description, fields.price, fields.imageUrl,
                              fields.amenities, isAvailable, now)];
      nextId := nextId + 1;
      return true;
    }

    /** `updateRoom`, on the row whose id the object holds. */
    method UpdateRoom() returns (ok: bool)
      requires Valid()
      modifies this`rows
      ensures Valid()
      ensures ok == connected
      ensures rows == if connected then UpdateRows(old(rows), id, fields, isAvailable) else old(rows)
    {
      if !connected {
        return false;
      }
      rows := UpdateRows(rows, id, fields, isAvailable);
      return true;
    }

    /** `deleteRoom`: a soft delete. */
    method DeleteRoom(id: int) returns (ok: bool)
      requires Valid()
      modifies this`rows
      ensures Valid()
      ensures ok == connected
      ensures rows == if connected then SoftDelete(old(rows), id) else old(rows)
    {
      if !connected {
        return false;
      }
      rows := SoftDelete(rows, id);
      return true;
    }
  }

  // ---------------------------------------------------------------------
  // The request handlers

  datatype GetRequest = AllRequest | SearchRequest(query: Option<string>) | DetailsRequest(id: Option<int>) | UnknownGet

  datatype GetResponse = Listing(rooms: seq<RoomRow>) | Details(room: RoomRow) | GetFailure(message: string)

  method HandleGet(table: RoomTable, req: GetRequest) returns (resp: GetResponse)
    requires table.Valid()
    ensures req.AllRequest? ==> resp == Listing(table.GetAllRooms())
    ensures req.SearchRequest? ==> resp == Listing(table.SearchRooms(req.query.GetOr("")))
    ensures req.DetailsRequest? ==>
      var r := table.GetRoomById(req.id.GetOr(0));
      resp == if r.Some? then Details(r.value) else GetFailure("Room not found")
    ensures req.UnknownGet? ==> resp == GetFailure("Invalid action")
  {
    match req
    case AllRequest =>
      resp := Listing(table.GetAllRooms());
    case SearchRequest(query) =>
      resp := Listing(table.SearchRooms(query.GetOr("")));
    case DetailsRequest(id) =>
      var r := table.GetRoomById(id.GetOr(0));
      resp := if r.Some? then Details(r.value) else GetFailure("Room not found");
    case UnknownGet =>
      resp := GetFailure("Invalid action");
  }

  datatype PostRequest =
    | AddRequest(fields: RoomFields)
    | UpdateRequest(id: int, fields: RoomFields, isAvailable: Option<int>)
    | DeleteRequest(id: int)
    | LogBooking(roomId: Option<string>, roomName: Option<string>)
    | UnknownPost

  datatype PostResponse = PostResponse(success: bool, message: string, error: Option<string>)

  /** The POST handler. `Room` declares no `lastError`, so a failed insert
      always reports 'unknown error'. */
  method HandlePost(table: RoomTable, req: PostRequest, now: string) returns (resp: PostResponse)
    requires table.Valid()
    modifies table
    ensures table.Valid()
    ensures req.AddRequest? ==>
      if table.connected then
        && table.rows == old(table.rows) + [RoomRow(old(table.nextId), req.fields.name, req.fields.description,
                                                    req.fields.price, req.fields.imageUrl, req.fields.amenities, 1, now)]
        && resp == PostResponse(true, "Room added successfully", None)
      else table.rows == old(table.rows) && resp == PostResponse(false, "Failed to add room", Some("unknown error"))
    ensures req.UpdateRequest? ==>
      && table.rows == (if table.connected then UpdateRows(old(table.rows), req.id, req.fields, req.isAvailable.GetOr(1))
                        else old(table.rows))
      && resp == (if table.connected then PostResponse(true, "Room updated successfully", None)
                  else PostResponse(false, "Failed to update room", None))
    ensures req.DeleteRequest? ==>
      && table.rows == (if table.connected then SoftDelete(old(table.rows), req.id) else old(table.rows))
      && resp == (if table.connected then PostResponse(true, "Room deleted successfully", None)
                  else PostResponse(false, "Failed to delete room", None))
    ensures req.LogBooking? ==> table.rows == old(table.rows) && resp == PostResponse(true, "Booking logged", None)
    ensures req.UnknownPost? ==> table.rows == old(table.rows) && resp == PostResponse(false, "Invalid action", None)
  {
    match req
    case AddRequest(f) =>
      table.fields := f;
      table.isAvailable := 1;
      var ok := table.AddRoom(now);
      resp := if ok then PostResponse(true, "Room added successfully", None)
              else PostResponse(false, "Failed to add room", Some("unknown error"));
    case UpdateRequest(id, f, available) =>
      table.id := id;
      table.fields := f;
      table.isAvailable := available.GetOr(1);
      var ok := table.UpdateRoom();
      resp := if ok then PostResponse(true, "Room updated successfully", None)
              else PostResponse(false, "Failed to update room", None);
    case DeleteRequest(id) =>
      var ok := table.DeleteRoom(id);
      resp := if ok then PostResponse(true, "Room deleted successfully", None)
              else PostResponse(false, "Failed to delete room", None);
    case LogBooking(_, _) =>
      resp := PostResponse(true, "Booking logged", None);
    case UnknownPost =>
      resp := PostResponse(false, "Invalid action", None);
  }
}
