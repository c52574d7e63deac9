/** The browser-side user and booking store of users/users.js. The `users`
    and `bookings` arrays that the code keeps JSON-encoded in localStorage
    are held decoded, as two sequences; `current_user` is written, encoded,
    to the same localStorage object the session code in atlas.js reads. */
module LocalAccounts {
  import opened Wrappers
  import opened Strings
  import opened Lists
  import opened Numbers
  import opened Sorting
  import opened WebStorage
  import Atlas

  datatype LocalUser = LocalUser(id: string, name: string, email: string, password: string)

  /** The `{id, name, email}` copy of a user returned and stored as `current_user`. */
  datatype SafeUser = SafeUser(id: string, name: string, email: string)

  function Safe(u: LocalUser): SafeUser {
    SafeUser(u.id, u.name, u.email)
  }

  datatype LocalBooking = LocalBooking(id: string, userId: string, roomId: string, roomTitle: string,
                                       from: string, to: string, extras: seq<string>, price: int,
                                       completed: bool, createdAt: string, rating: Option<int>)

  /** The `{ok, msg, user}` objects the functions return; `msg` is "" where
      the code leaves it out. */
  datatype Reply = Reply(ok: bool, msg: string, user: Option<SafeUser>)

  /** `JSON.stringify` of a user object always yields a non-empty text
      starting with '{', so the stored copy is truthy. */
  ghost predicate EncodesObjects(encode: SafeUser -> string) {
    forall u :: |encode(u)| > 0 && encode(u)[0] == '{'
  }

  // ---------------------------------------------------------------------
  // Searches and views

  /** `u.email.toLowerCase() === email.toLowerCase()`. */
  function SameEmail(email: string): LocalUser -> bool {
    (u: LocalUser) => ToLower(u.email) == ToLower(email)
  }

  /** `x.email === email.toLowerCase() && x.password === password`. */
  function Credentials(email: string, password: string): LocalUser -> bool {
    (u: LocalUser) => u.email == ToLower(email) && u.password == password
  }

  function HasId(id: string): LocalBooking -> bool {
    (b: LocalBooking) => b.id == id
  }

  function Active(userId: string): LocalBooking -> bool {
    (b: LocalBooking) => b.userId == userId && !b.completed
  }

  function Done(userId: string): LocalBooking -> bool {
    (b: LocalBooking) => b.userId == userId && b.completed
  }

  function Owned(userId: string): LocalBooking -> bool {
    (b: LocalBooking) => b.userId == userId
  }

  function From(b: LocalBooking): string {
    b.from
  }

  function CreatedAt(b: LocalBooking): string {
    b.createdAt
  }

  /** `getCurrentBookings`: the user's open bookings, earliest check-in first. */
  function CurrentBookings(bookings: seq<LocalBooking>, userId: string): seq<LocalBooking> {
    SortBy(Filter(bookings, Active(userId)), From, false)
  }

  /** `getOldBookings`: the user's completed bookings, newest first. */
  function OldBookings(bookings: seq<LocalBooking>, userId: string): seq<LocalBooking> {
    SortBy(Filter(bookings, Done(userId)), CreatedAt, true)
  }

  /** Each view holds exactly the bookings it should, in its order, and the
      two together are the user's bookings, each exactly once. */
  lemma BookingViews(bookings: seq<LocalBooking>, userId: string)
    ensures var cur := CurrentBookings(bookings, userId);
      && (forall b :: b in cur <==> b in bookings && b.userId == userId && !b.completed)
      && Sorted(cur, From, false)
    ensures var old_ := OldBookings(bookings, userId);
      && (forall b :: b in old_ <==> b in bookings && b.userId == userId && b.completed)
      && Sorted(old_, CreatedAt, true)
    ensures multiset(CurrentBookings(bookings, userId)) + multiset(OldBookings(bookings, userId)) ==
            multiset(Filter(bookings, Owned(userId)))
  {
    var active, done := Filter(bookings, Active(userId)), Filter(bookings, Done(userId));
    SortBySorted(active, From, false);
    SortBySorted(done, CreatedAt, true);
    FilterMembers(bookings, Active(userId));
    FilterMembers(bookings, Done(userId));
    var cur, old_ := CurrentBookings(bookings, userId), OldBookings(bookings, userId);
    forall b ensures (b in cur <==> b in active) && (b in old_ <==> b in done) {
      assert b in cur <==> b in multiset(cur);
      assert b in active <==> b in multiset(active);
      assert b in old_ <==> b in multiset(old_);
      assert b in done <==> b in multiset(done);
    }
    FilterPartition(bookings, Active(userId), Done(userId), Owned(userId));
  }

  /** `completeBooking` on a booking table: the first booking with that id
      marked completed. */
  function Complete(bookings: seq<LocalBooking>, id: string): seq<LocalBooking> {
    match First(bookings, HasId(id))
    case None => bookings
    case Some(i) => bookings[i := bookings[i].(completed := true)]
  }

  /** Marking a booking completed sets the flag of the first booking with
      the id and changes no other booking and no other field; an unknown id
      changes nothing, and doing it twice is the same as doing it once. */
  lemma {:induction false} CompleteProperties(bookings: seq<LocalBooking>, id: string)
    ensures var c := Complete(bookings, id);
      && |c| == |bookings|
      && (First(bookings, HasId(id)).None? ==> c == bookings)
      && (First(bookings, HasId(id)).Some? ==>
            var i := First(bookings, HasId(id)).value;
            && bookings[i].id == id && c[i].completed
            && forall k :: 0 <= k < |c| && k != i ==> c[k] == bookings[k])
      && (forall k :: 0 <= k < |c| && bookings[k].id != id ==> c[k] == bookings[k])
      && (forall k :: 0 <= k < |c| ==> c[k].(completed := bookings[k].completed) == bookings[k])
      && Complete(c, id) == c
  {
    var c := Complete(bookings, id);
    match First(bookings, HasId(id))
    case None =>
    case Some(i) =>
      assert forall k :: 0 <= k < |c| ==> c[k].id == bookings[k].id;
      assert forall k :: 0 <= k < i ==> !HasId(id)(c[k]);
      assert HasId(id)(c[i]);
      FirstAt(c, HasId(id), i);
  }

  /** A login finds a user exactly when one has the lower-cased email and
      the same password. */
  lemma LoginFindsIff(users: seq<LocalUser>, email: string, password: string)
    ensures First(users, Credentials(email, password)).Some? <==>
            exists u :: u in users && u.email == ToLower(email) && u.password == password
  {
    if u :| u in users && u.email == ToLower(email) && u.password == password {
      var k :| 0 <= k < |users| && users[k] == u;
      assert Credentials(email, password)(users[k]);
    }
  }

  /** A freshly registered account logs in with the same email, in any
      letter case, and the password: the search finds the new user, since no
      earlier user can match without having blocked the registration. */
  lemma {:induction false} RegisteredUserLogsIn(users: seq<LocalUser>, id: string, name: string,
                                                email: string, email': string, password: string)
    requires First(users, SameEmail(email)).None?
    requires ToLower(email') == ToLower(email)
    ensures var users' := users + [LocalUser(id, name, ToLower(email), password)];
      First(users', Credentials(email', password)) == Some(|users|)
  {
    var users' := users + [LocalUser(id, name, ToLower(email), password)];
    forall k | 0 <= k < |users| ensures !Credentials(email', password)(users'[k]) {
      assert users'[k] == users[k];
      assert !SameEmail(email)(users[k]);
      if users[k].email == ToLower(email') {
        ToLowerIdempotent(email);
        assert ToLower(users[k].email) == ToLower(email);
      }
    }
    FirstAt(users', Credentials(email', password), |users|);
  }

  /** The rating `parseInt(rating, 10)` gives when it is acceptable, 1 to 5;
      `None` when the code answers 'Invalid rating'. */
  function AcceptedRating(rating: string): (r: Option<int>)
    ensures r.Some? ==> 1 <= r.value <= 5 && ParseInt(rating) == Some(r.value)
    ensures r.Some? <==> ParseInt(rating).Some? && 1 <= ParseInt(rating).value <= 5
  {
    match ParseInt(rating)
    case None => None
    case Some(n) => if n == 0 || n < 1 || n > 5 then None else Some(n)
  }

  /** Any of the ratings 1 to 5, written as a number, is accepted as itself. */
  lemma RatingOfNumber(n: nat)
    requires 1 <= n <= 5
    ensures AcceptedRating(NatToString(n)) == Some(n)
  {
    ParseIntNatToString(n);
  }

  // ---------------------------------------------------------------------
  // The store

  class LocalAccounts {
    const session: Storage
    const local: Storage
    /** `JSON.stringify` on the stored user copy. */
    const encode: SafeUser -> string
    var users: seq<LocalUser>
    var bookings: seq<LocalBooking>

    ghost predicate Valid()
      reads this
    {
      session != local && EncodesObjects(encode)
    }

    /** The module's start-up. `storedUsers` and `storedBookings` are what
        `readLS` gives for the two keys: `None` when the key is missing, its
        JSON is corrupt or decodes to a falsy value; the arrays found are
        kept, and only a missing one starts empty. */
    constructor (session: Storage, local: Storage, encode: SafeUser -> string,
                 storedUsers: Option<seq<LocalUser>>, storedBookings: Option<seq<LocalBooking>>)
      requires session != local && EncodesObjects(encode)
      ensures Valid()
      ensures this.session == session && this.local == local && this.encode == encode
      ensures users == storedUsers.GetOr([]) && bookings == storedBookings.GetOr([])
    {
      this.session := session;
      this.local := local;
      this.encode := encode;
      users := storedUsers.GetOr([]);
      bookings := storedBookings.GetOr([]);
    }

    /** `registerUser`. */
    method RegisterUser(name: string, email: string, password: string, freshId: string) returns (reply: Reply)
      modifies this`users
      ensures name == "" || email == "" || password == "" ==>
                users == old(users) && reply == Reply(false, "Fill all fields", None)
      ensures name != "" && email != "" && password != "" && First(old(users), SameEmail(email)).Some? ==>
                users == old(users) && reply == Reply(false, "Email already registered", None)
      ensures reply.ok <==> name != "" && email != "" && password != "" && First(old(users), SameEmail(email)).None?
      ensures reply.ok ==>
                && users == old(users) + [LocalUser(freshId, name, ToLower(email), password)]
                && reply == Reply(true, "Registered", Some(SafeUser(freshId, name, ToLower(email))))
    {
      if name == "" || email == "" || password == "" {
        return Reply(false, "Fill all fields", None);
      }
      if First(users, SameEmail(email)).Some? {
        return Reply(false, "Email already registered", None);
      }
      var user := LocalUser(freshId, name, ToLower(email), password);
      users := users + [user];
      return Reply(true, "Registered", Some(SafeUser(user.id, user.name, user.email)));
    }

    /** `loginUser`: the first user with the lower-cased email and the exact
        password becomes `current_user`, without its password. */
    method LoginUser(email: string, password: string) returns (reply: Reply)
      requires Valid()
      modifies local
      ensures email == "" || password == "" ==>
                local.items == old(local.items) && reply == Reply(false, "Fill all fields", None)
      ensures email != "" && password != "" ==> match First(users, Credentials(email, password))
        case None => local.items == old(local.items) && reply == Reply(false, "Invalid credentials", None)
        case Some(i) =>
          && reply == Reply(true, "", Some(Safe(users[i])))
          && local.items == old(local.items)[Atlas.LocalUserKey := encode(Safe(users[i]))]
    {
      if email == "" || password == "" {
        return Reply(false, "Fill all fields", None);
      }
      var found := First(users, Credentials(email, password));
      if found.None? {
        return Reply(false, "Invalid credentials", None);
      }
      var safe := Safe(users[found.value]);
      local.SetItem(Atlas.LocalUserKey, encode(safe));
      return Reply(true, "", Some(safe));
    }

    /** `currentUser`: the stored copy, when there is a truthy one. Decoding
        it is left to JSON. */
    function CurrentUser(): (r: Option<string>)
      reads local
      ensures r.Some? <==> Present(local.items, Atlas.LocalUserKey)
      ensures r.Some? ==> r.value == local.items[Atlas.LocalUserKey]
    {
      if Present(local.items, Atlas.LocalUserKey) then Some(local.items[Atlas.LocalUserKey]) else None
    }

    /** `logout`: both user copies go, and nothing else. */
    method Logout()
      requires Valid()
      modifies session, local
      ensures session.items == old(session.items) - {Atlas.SessionUserKey}
      ensures local.items == old(local.items) - {Atlas.LocalUserKey}
    {
      session.RemoveItem(Atlas.SessionUserKey);
      local.RemoveItem(Atlas.LocalUserKey);
    }

    /** `addBooking`: `extras` defaults to `[]` and `price` to 0 when absent. */
    method AddBooking(userId: string, roomId: string, roomTitle: string, from: string, to: string,
                      extras: Option<seq<string>>, price: Option<int>, freshId: string, now: string)
      returns (b: LocalBooking)
      requires Valid()
      modifies this`bookings
      ensures Valid()
      ensures b == LocalBooking(freshId, userId, roomId, roomTitle, from, to, extras.GetOr([]), price.GetOr(0),
                                false, now, None)
      ensures bookings == old(bookings) + [b]
    {
      b := LocalBooking(freshId, userId, roomId, roomTitle, from, to, extras.GetOr([]), price.GetOr(0),
                        false, now, None);
      bookings := bookings + [b];
    }

    function GetCurrentBookings(userId: string): (r: seq<LocalBooking>)
      reads this
      ensures forall b :: b in r <==> b in bookings && b.userId == userId && !b.completed
      ensures Sorted(r, From, false)
    {
      BookingViews(bookings, userId);
      CurrentBookings(bookings, userId)
    }

    function GetOldBookings(userId: string): (r: seq<LocalBooking>)
      reads this
      ensures forall b :: b in r <==> b in bookings && b.userId == userId && b.completed
      ensures Sorted(r, CreatedAt, true)
    {
      BookingViews(bookings, userId);
      OldBookings(bookings, userId)
    }

    /** `completeBooking`. */
    method CompleteBooking(id: string) returns (ok: bool, msg: string)
      requires Valid()
      modifies this`bookings
      ensures Valid()
      ensures ok <==> First(old(bookings), HasId(id)).Some?
      ensures !ok ==> msg == "Booking not found"
      ensures bookings == Complete(old(bookings), id)
    {
      var idx := First(bookings, HasId(id));
      if idx.None? {
        return false, "Booking not found";
      }
      bookings := bookings[idx.value := bookings[idx.value].(completed := true)];
      return true, "";
    }

    /** `rateBooking`: the id is looked up first, then the rating is read. */
    method RateBooking(id: string, rating: string) returns (ok: bool, msg: string)
      requires Valid()
      modifies this`bookings
      ensures Valid()
      ensures First(old(bookings), HasId(id)).None? ==> !ok && msg == "Booking not found" && bookings == old(bookings)
      ensures First(old(bookings), HasId(id)).Some? && AcceptedRating(rating).None? ==>
                !ok && msg == "Invalid rating" && bookings == old(bookings)
      ensures ok <==> First(old(bookings), HasId(id)).Some? && AcceptedRating(rating).Some?
      ensures ok ==> var i := First(old(bookings), HasId(id)).value;
                bookings == old(bookings)[i := old(bookings)[i].(rating := AcceptedRating(rating))]
    {
      var idx := First(bookings, HasId(id));
      if idx.None? {
        return false, "Booking not found";
      }
      var n := ParseInt(rating);
      if n.None? || n.value == 0 || n.value < 1 || n.value > 5 {
        return false, "Invalid rating";
      }
      bookings := bookings[idx.value := bookings[idx.value].(rating := Some(n.value))];
      return true, "";
    }
  }
}
