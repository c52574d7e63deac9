/** The room browser of rooms/rooms.js: the `RoomManager` that remembers
    which room's details are open, reads the price back from the details
    text, writes the booking intent and sends the visitor to checkout, and
    the two rules that start a search. The DOM is reduced to the texts the
    manager copies. */
module RoomBrowser {
  import opened Wrappers
  import opened Strings
  import opened Numbers
  import opened WebStorage
  import Atlas

  // ---------------------------------------------------------------------
  // Reading the price back: priceText.match(/[\d,]+/), commas removed, parseFloat

  /** A character of the class `[\d,]`. */
  predicate InRun(c: char) {
    IsDigit(c) || c == ','
  }

  /** The longest prefix made of `[\d,]`. */
  function TakeRun(s: string): (r: string)
    ensures IsPrefix(r, s)
    ensures forall k :: 0 <= k < |r| ==> InRun(r[k])
    ensures |r| < |s| ==> !InRun(s[|r|])
  {
    if s != [] && InRun(s[0]) then [s[0]] + TakeRun(s[1..]) else []
  }

  /** The first match of `/[\d,]+/`: the run starting at the first character
      of the class, or no match. */
  function FirstRun(s: string): (r: Option<string>)
    ensures r.Some? ==> r.value != [] && InRun(r.value[0])
    ensures r.Some? ==> forall k :: 0 <= k < |r.value| ==> InRun(r.value[k])
    ensures r.None? <==> forall k :: 0 <= k < |s| ==> !InRun(s[k])
  {
    if s == [] then None
    else if InRun(s[0]) then Some(TakeRun(s))
    else FirstRun(s[1..])
  }

  /** `replace(/,/g, '')`. */
  function RemoveCommas(s: string): (r: string)
    ensures (forall k :: 0 <= k < |s| ==> InRun(s[k])) ==> AllDigits(r)
  {
    if s == [] then [] else (if s[0] == ',' then [] else [s[0]]) + RemoveCommas(s[1..])
  }

  /** The price `bookRoom` stores: 0 when the text has no digit or comma,
      `None` (NaN) when the match holds no digit, else the value of its
      digits. `parseFloat` of a string of digits is that number; its
      rounding of very long digit strings is not modelled. */
  function ExtractPrice(priceText: string): (r: Option<nat>)
    ensures FirstRun(priceText).None? ==> r == Some(0)
    ensures FirstRun(priceText).Some? ==>
      (r.None? <==> RemoveCommas(FirstRun(priceText).value) == [])
    ensures FirstRun(priceText).Some? && r.Some? ==> r.value == DigitsValue(RemoveCommas(FirstRun(priceText).value))
  {
    match FirstRun(priceText)
    case None => Some(0)
    case Some(run) =>
      var t := RemoveCommas(run);
      if t == [] then None else Some(DigitsValue(t))
  }

  lemma {:induction false} TakeRunOf(g: string, rest: string)
    requires forall k :: 0 <= k < |g| ==> InRun(g[k])
    requires rest == [] || !InRun(rest[0])
    ensures TakeRun(g + rest) == g
  {
    if g != [] {
      assert (g + rest)[1..] == g[1..] + rest;
      TakeRunOf(g[1..], rest);
    }
  }

  lemma {:induction false} FirstRunOf(prefix: string, g: string, rest: string)
    requires forall k :: 0 <= k < |prefix| ==> !InRun(prefix[k])
    requires g != [] && forall k :: 0 <= k < |g| ==> InRun(g[k])
    requires rest == [] || !InRun(rest[0])
    ensures FirstRun(prefix + g + rest) == Some(g)
  {
    if prefix == [] {
      assert prefix + g + rest == g + rest;
      TakeRunOf(g, rest);
    } else {
      assert (prefix + g + rest)[1..] == prefix[1..] + g + rest;
      FirstRunOf(prefix[1..], g, rest);
    }
  }

  /** A price text made of a lead without digits or commas, then a group of
      digits and commas that starts with a digit, then anything not starting
      with a digit or comma, reads back as the number its digits spell. */
  lemma ExtractPriceOfText(lead: string, g: string, rest: string)
    requires forall k :: 0 <= k < |lead| ==> !InRun(lead[k])
    requires g != [] && IsDigit(g[0]) && forall k :: 0 <= k < |g| ==> InRun(g[k])
    requires rest == [] || !InRun(rest[0])
    ensures ExtractPrice(lead + g + rest) == Some(DigitsValue(RemoveCommas(g)))
  {
    FirstRunOf(lead, g, rest);
    assert RemoveCommas(g) == [g[0]] + RemoveCommas(g[1..]);
  }

  /** Whatever follows a decimal point after the digits is ignored: the
      fraction of a price is lost. */
  lemma FractionIsDropped(lead: string, g: string, fraction: string)
    requires forall k :: 0 <= k < |lead| ==> !InRun(lead[k])
    requires g != [] && IsDigit(g[0]) && forall k :: 0 <= k < |g| ==> InRun(g[k])
    ensures ExtractPrice(lead + g + ("." + fraction)) == ExtractPrice(lead + g)
    ensures ExtractPrice(lead + g) == Some(DigitsValue(RemoveCommas(g)))
  {
    var rest := "." + fraction;
    assert rest[0] == '.';
    ExtractPriceOfText(lead, g, rest);
    var a := lead + g;
    assert a + [] == a;
    ExtractPriceOfText(lead, g, []);
  }

  /** A comma before the first digit is a match of its own holding no digit,
      and the price becomes NaN. */
  lemma LeadingCommaIsNaN()
    ensures ExtractPrice(", 5000") == None
  {
    assert ", 5000" == [] + "," + " 5000";
    FirstRunOf([], ",", " 5000");
  }

  // ---------------------------------------------------------------------
  // The booking intent

  /** `this.currentRoomId || Date.now()`. */
  datatype RoomRef = ByRoomId(roomId: string) | ByTime(millis: nat)

  /** The texts `showRoomModal` copies from the room's listing. */
  datatype Listing = Listing(image: string, title: string, description: string, priceText: string, extra: string)

  /** The object `bookRoom` serialises into `bookingRoom`. */
  datatype BookingIntent = BookingIntent(id: RoomRef, name: string, description: string, price: Option<nat>,
                                         image: string, amenities: string)

  /** The body of the `logBooking` request `bookRoom` sends, without waiting
      for an answer. */
  datatype LogRequest = LogRequest(roomId: RoomRef, roomName: string)

  function IntentOf(shown: Listing, currentRoomId: Option<string>, now: nat): (b: BookingIntent)
    ensures b.id.ByRoomId? <==> currentRoomId.Some? && currentRoomId.value != ""
    ensures b.id.ByRoomId? ==> b.id.roomId == currentRoomId.value
    ensures b.id.ByTime? ==> b.id.millis == now
    ensures b.price == ExtractPrice(shown.priceText)
    ensures b.name == shown.title && b.description == shown.description
    ensures b.image == shown.image && b.amenities == shown.extra
  {
    BookingIntent(if currentRoomId.Some? && currentRoomId.value != "" then ByRoomId(currentRoomId.value) else ByTime(now),
                  shown.title, shown.description, ExtractPrice(shown.priceText), shown.image, shown.extra)
  }

  /** `JSON.stringify` yields an object text: never empty, so always truthy. */
  ghost predicate EncodesObjects(encode: BookingIntent -> string) {
    forall b :: |encode(b)| > 0 && encode(b)[0] == '{'
  }

  class RoomManager {
    const encode: BookingIntent -> string
    /** The details shown in the modal. */
    var shown: Listing
    var currentRoomId: Option<string>

    constructor (encode: BookingIntent -> string)
      ensures this.encode == encode
      ensures currentRoomId == None
    {
      this.encode := encode;
      shown := Listing("", "", "", "", "");
      currentRoomId := None;
    }

    /** `showRoomModal`: the room's texts go to the modal and its id is remembered. */
    method ShowRoomModal(roomId: string, listing: Listing)
      modifies this
      ensures shown == listing && currentRoomId == Some(roomId)
    {
      shown := listing;
      currentRoomId := Some(roomId);
    }

    /** `closeModal`: the remembered id is dropped, the texts stay. */
    method CloseModal()
      modifies this`currentRoomId
      ensures currentRoomId == None
    {
      currentRoomId := None;
    }

    /** `bookRoom`: the intent read from the modal replaces `bookingRoom`,
        every other key is untouched, a log request goes out and the page
        goes to checkout. */
    method BookRoom(session: Storage, now: nat) returns (intent: BookingIntent, log: LogRequest, next: string)
      modifies session
      ensures intent == IntentOf(shown, currentRoomId, now)
      ensures session.items == old(session.items)[Atlas.BookingKey := encode(intent)]
      ensures log == LogRequest(intent.id, intent.name)
      ensures next == "../Checkout.html"
    {
      var price := ExtractPrice(shown.priceText);
      var id := if currentRoomId.Some? && currentRoomId.value != "" then ByRoomId(currentRoomId.value) else ByTime(now);
      intent := BookingIntent(id, shown.title, shown.description, price, shown.image, shown.extra);
      session.SetItem(Atlas.BookingKey, encode(intent));
      log := LogRequest(intent.id, intent.name);
      next := "../Checkout.html";
    }
  }

  /** Booking a room while signed out and then signing in resumes that very
      intent: the checkout page parks the text `bookRoom` wrote, and once a
      user is signed in the entry page puts it back and goes to checkout.
      A later booking replaces an earlier one (last write wins). */
  lemma {:induction false} BookedIntentResumes(session: map<string, string>, local: map<string, string>,
                                               signedIn: map<string, string>, encode: BookingIntent -> string,
                                               first: BookingIntent, second: BookingIntent)
    requires EncodesObjects(encode)
    requires !Atlas.IsUserLoggedIn(session, local)
    requires Present(signedIn, Atlas.LocalUserKey)
    ensures var booked := session[Atlas.BookingKey := encode(first)][Atlas.BookingKey := encode(second)];
      var guard := Atlas.CheckoutGuard("../Checkout.html", booked, local);
      var restore := Atlas.RestorePending(guard.session, signedIn);
      && !guard.proceed && guard.nav == Atlas.GoTo("login.html")
      && guard.session[Atlas.PendingKey] == encode(second)
      && restore.session[Atlas.BookingKey] == encode(second)
      && restore.nav == Atlas.GoTo("Checkout.html")
  {
    var booked := session[Atlas.BookingKey := encode(first)][Atlas.BookingKey := encode(second)];
    assert |encode(second)| > 0;
    assert Atlas.IsCheckoutPage("../Checkout.html") by {
      assert "../Checkout.html" == "../" + "Checkout.html";
      assert IsSuffix("Checkout.html", "../Checkout.html");
    }
    assert !Atlas.IsUserLoggedIn(booked, local);
    assert Present(booked, Atlas.BookingKey);
  }

  // ---------------------------------------------------------------------
  // Starting a search

  const SearchQueryKey := "searchQuery"

  /** `checkForSearchQuery`: a truthy `searchQuery` is consumed, whether or
      not the page has a search box, and searched for when it has one. */
  method CheckForSearchQuery(session: Storage, hasSearchBox: bool) returns (search: Option<string>)
    modifies session
    ensures var q := old(session.items);
      && session.items == (if Present(q, SearchQueryKey) then q - {SearchQueryKey} else q)
      && search == (if Present(q, SearchQueryKey) && hasSearchBox then Some(q[SearchQueryKey]) else None)
    ensures !Present(session.items, SearchQueryKey)
  {
    search := None;
    var query := session.GetItem(SearchQueryKey);
    if Truthy(query) {
      if hasSearchBox {
        search := Some(query.value);
      }
      session.RemoveItem(SearchQueryKey);
    }
  }

  /** What submitting the search form asks for. */
  datatype SearchAction = LoadAll | SearchFor(term: string)

  /** The submit rule of `setupSearch`: the trimmed term, or every room when
      it is empty. */
  function SubmitSearch(boxValue: string): (a: SearchAction)
    ensures a == LoadAll <==> (forall k :: 0 <= k < |boxValue| ==> IsJsSpace(boxValue[k]))
    ensures a.SearchFor? ==> a.term == JsTrim(boxValue) && a.term != []
    ensures a.SearchFor? ==> !IsJsSpace(a.term[0]) && !IsJsSpace(a.term[|a.term| - 1])
  {
    TrimEmptyIff(boxValue, IsJsSpace);
    TrimShape(boxValue, IsJsSpace);
    var term := JsTrim(boxValue);
    if term == "" then LoadAll else SearchFor(term)
  }

  /** Submitting an already trimmed term asks for the same thing. */
  lemma SubmitSearchTrimmed(boxValue: string)
    ensures SubmitSearch(JsTrim(boxValue)) == SubmitSearch(boxValue)
  {
    TrimIdempotent(boxValue, IsJsSpace);
  }
}
