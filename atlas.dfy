/** The client-side session and booking-intent state machine of the site's
    pages: a signed-in user mirrored in two browser storage scopes and a
    booking intent parked across the redirect to the login page.

    Each transition is given twice: as a function on the two storage maps
    (the specification, about which the lemmas speak) and as a method that
    performs the same `getItem`/`setItem`/`removeItem` steps on the two
    `Storage` objects and is proved to end in the state the function gives. */
module Atlas {
  import opened Wrappers
  import opened Strings
  import opened WebStorage

  /** sessionStorage key of the signed-in user's copy. */
  const SessionUserKey := "currentUser"
  /** localStorage key of the durable copy of the signed-in user. */
  const LocalUserKey := "current_user"
  /** sessionStorage key of the live booking intent. */
  const BookingKey := "bookingRoom"
  /** sessionStorage key of the intent parked across the login redirect. */
  const PendingKey := "pendingBooking"

  /** An assignment to `window.location.href`, or none. */
  datatype Nav = Stay | GoTo(page: string)

  /** The redirects a navigation value stands for, in order. */
  function Redirects(n: Nav): seq<string> {
    if n.GoTo? then [n.page] else []
  }

  // ---------------------------------------------------------------------
  // Reads

  /** `isUserLoggedIn`. */
  function IsUserLoggedIn(session: map<string, string>, local: map<string, string>): bool {
    Present(session, SessionUserKey) || Present(local, LocalUserKey)
  }

  /** `getCurrentUser`: the session copy, else the durable copy, else `null`
      (the text is returned as stored; JSON parsing is not modelled). */
  function GetCurrentUser(session: map<string, string>, local: map<string, string>): (u: Option<string>)
    ensures u.Some? ==> u.value != ""
  {
    if Present(session, SessionUserKey) then Some(session[SessionUserKey])
    else if Present(local, LocalUserKey) then Some(local[LocalUserKey])
    else None
  }

  /** Signed in exactly when there is a current user, and the session copy wins. */
  lemma LoggedInIffCurrentUser(session: map<string, string>, local: map<string, string>)
    ensures IsUserLoggedIn(session, local) <==> GetCurrentUser(session, local).Some?
    ensures Present(session, SessionUserKey) ==> GetCurrentUser(session, local) == Some(session[SessionUserKey])
    ensures !Present(session, SessionUserKey) && Present(local, LocalUserKey) ==>
              GetCurrentUser(session, local) == Some(local[LocalUserKey])
  {
  }

  /** The page is the checkout page (`includes` or `endsWith` "Checkout.html"). */
  predicate IsCheckoutPage(path: string) {
    Contains(path, "Checkout.html") || IsSuffix("Checkout.html", path)
  }

  /** The page is the entry page on which a parked intent is resumed. */
  predicate IsEntryPage(path: string) {
    Contains(path, "Project.html") || IsSuffix("Project.html", path)
  }

  // ---------------------------------------------------------------------
  // Specification of the transitions, on the two storage maps

  /** sessionStorage after `ensureSessionFromLocal`. */
  function SyncSession(session: map<string, string>, local: map<string, string>): map<string, string> {
    if !Present(session, SessionUserKey) && Present(local, LocalUserKey)
    then session[SessionUserKey := local[LocalUserKey]]
    else session
  }

  /** The outcome of `checkLoginForCheckout`: its return value, sessionStorage
      afterwards and the redirect it assigns. */
  datatype Guard = Guard(proceed: bool, session: map<string, string>, nav: Nav)

  function CheckoutGuard(path: string, session: map<string, string>, local: map<string, string>): Guard {
    if IsCheckoutPage(path) && !IsUserLoggedIn(session, local) then
      Guard(false,
            if Present(session, BookingKey) then session[PendingKey := session[BookingKey]] else session,
            GoTo("login.html"))
    else
      Guard(true, session, Stay)
  }

  /** The outcome of `restorePendingBooking`: sessionStorage afterwards and the redirect. */
  datatype Restore = Restore(session: map<string, string>, nav: Nav)

  function RestorePending(session: map<string, string>, local: map<string, string>): Restore {
    if IsUserLoggedIn(session, local) && Present(session, PendingKey) then
      Restore(session[BookingKey := session[PendingKey]] - {PendingKey}, GoTo("Checkout.html"))
    else
      Restore(session, Stay)
  }

  /** The outcome of the page-load handler: sessionStorage afterwards and
      every redirect assigned, in order. */
  datatype Load = Load(session: map<string, string>, redirects: seq<string>)

  function PageLoad(path: string, session: map<string, string>, local: map<string, string>): Load {
    var synced := SyncSession(session, local);
    var guard := CheckoutGuard(path, synced, local);
    if IsEntryPage(path) then
      var restore := RestorePending(guard.session, local);
      Load(restore.session, Redirects(guard.nav) + Redirects(restore.nav))
    else
      Load(guard.session, Redirects(guard.nav))
  }

  // ---------------------------------------------------------------------
  // Properties of the transitions

  /** Syncing never overwrites a session copy that is present, copies the
      durable copy only into an empty slot, touches no other key, and is
      idempotent. */
  lemma SyncProperties(session: map<string, string>, local: map<string, string>)
    ensures Present(session, SessionUserKey) ==> SyncSession(session, local) == session
    ensures !Present(local, LocalUserKey) ==> SyncSession(session, local) == session
    ensures forall k :: k != SessionUserKey ==>
              (k in SyncSession(session, local) <==> k in session) &&
              (k in session ==> SyncSession(session, local)[k] == session[k])
    ensures SyncSession(SyncSession(session, local), local) == SyncSession(session, local)
  {
  }

  /** Syncing changes neither whether a user is signed in nor who it is. */
  lemma SyncKeepsIdentity(session: map<string, string>, local: map<string, string>)
    ensures IsUserLoggedIn(SyncSession(session, local), local) == IsUserLoggedIn(session, local)
    ensures GetCurrentUser(SyncSession(session, local), local) == GetCurrentUser(session, local)
  {
  }

  /** The checkout guard: a signed-out visitor of the checkout page is sent to
      the login page with the live intent copied to the parked slot and kept
      in place; anyone else proceeds and nothing changes. */
  lemma CheckoutGuardProperties(path: string, session: map<string, string>, local: map<string, string>)
    ensures var g := CheckoutGuard(path, session, local);
      && (g.proceed <==> !IsCheckoutPage(path) || IsUserLoggedIn(session, local))
      && (g.proceed ==> g.session == session && g.nav == Stay)
      && (!g.proceed ==> g.nav == GoTo("login.html"))
      && (!g.proceed && Present(session, BookingKey) ==>
            g.session[PendingKey] == session[BookingKey] && g.session[BookingKey] == session[BookingKey])
      && (!Present(session, BookingKey) ==> g.session == session)
      && (forall k :: k != PendingKey ==>
            (k in g.session <==> k in session) && (k in session ==> g.session[k] == session[k]))
  {
  }

  /** Restoring does nothing while signed out or with nothing parked; otherwise
      it promotes the parked intent to the live slot, empties the parked slot
      and redirects to checkout. */
  lemma RestoreProperties(session: map<string, string>, local: map<string, string>)
    ensures var r := RestorePending(session, local);
      && (!IsUserLoggedIn(session, local) ==> r == Restore(session, Stay))
      && (!Present(session, PendingKey) ==> r == Restore(session, Stay))
      && (IsUserLoggedIn(session, local) && Present(session, PendingKey) ==>
            && r.nav == GoTo("Checkout.html")
            && r.session[BookingKey] == session[PendingKey]
            && PendingKey !in r.session
            && IsUserLoggedIn(r.session, local))
      && (forall k :: k != BookingKey && k != PendingKey ==>
            (k in r.session <==> k in session) && (k in session ==> r.session[k] == session[k]))
  {
  }

  /** Restoring is one-shot: a second restore right after the first changes
      nothing and redirects nowhere. */
  lemma RestoreOneShot(session: map<string, string>, local: map<string, string>)
    ensures var first := RestorePending(session, local);
      RestorePending(first.session, local) == Restore(first.session, Stay)
  {
  }

  /** A page load assigns at most one redirect: the guard only redirects a
      signed-out visitor, and the restore only acts for a signed-in one. */
  lemma PageLoadRedirectsAtMostOnce(path: string, session: map<string, string>, local: map<string, string>)
    ensures |PageLoad(path, session, local).redirects| <= 1
  {
    SyncKeepsIdentity(session, local);
  }

  /** A page other than the entry page never consumes the parked intent. */
  lemma OnlyEntryPageRestores(path: string, session: map<string, string>, local: map<string, string>)
    requires !IsEntryPage(path) && Present(session, PendingKey)
    ensures PendingKey in PageLoad(path, session, local).session
    ensures !IsCheckoutPage(path) ==> PageLoad(path, session, local).redirects == []
  {
  }

  /** Because the session is synced first, a visitor whose only copy is the
      durable one (a restored tab) still has the parked intent resumed on the
      entry page. */
  lemma PageLoadResumesFromDurableCopy(path: string, session: map<string, string>, local: map<string, string>)
    requires IsEntryPage(path) && !IsCheckoutPage(path)
    requires !Present(session, SessionUserKey) && Present(local, LocalUserKey)
    requires Present(session, PendingKey)
    ensures var ld := PageLoad(path, session, local);
      && ld.redirects == ["Checkout.html"]
      && ld.session[BookingKey] == session[PendingKey]
      && PendingKey !in ld.session
      && ld.session[SessionUserKey] == local[LocalUserKey]
  {
  }

  /** Logging out removes both user copies and nothing else. */
  lemma LogoutProperties(session: map<string, string>, local: map<string, string>)
    ensures !IsUserLoggedIn(session - {SessionUserKey}, local - {LocalUserKey})
    ensures GetCurrentUser(session - {SessionUserKey}, local - {LocalUserKey}) == None
    ensures forall k :: k != SessionUserKey ==>
              (k in session - {SessionUserKey} <==> k in session)
              && (k in session ==> (session - {SessionUserKey})[k] == session[k])
    ensures forall k :: k != LocalUserKey ==>
              (k in local - {LocalUserKey} <==> k in local)
              && (k in local ==> (local - {LocalUserKey})[k] == local[k])
  {
  }

  // ---------------------------------------------------------------------
  // The transitions as the page performs them

  /** `ensureSessionFromLocal`. */
  method EnsureSessionFromLocal(session: Storage, local: Storage)
    requires session != local
    modifies session
    ensures session.items == SyncSession(old(session.items), local.items)
  {
    var hasSess := Truthy(session.GetItem(SessionUserKey));
    var durable := local.GetItem(LocalUserKey);
    if !hasSess && Truthy(durable) {
      session.SetItem(SessionUserKey, durable.value);
    }
  }

  /** `logout`; `confirmed` is the visitor's answer to the confirmation dialog. */
  method Logout(session: Storage, local: Storage, confirmed: bool) returns (nav: Nav)
    requires session != local
    modifies session, local
    ensures confirmed ==> session.items == old(session.items) - {SessionUserKey}
    ensures confirmed ==> local.items == old(local.items) - {LocalUserKey}
    ensures confirmed ==> nav == GoTo("Project.html")
    ensures !confirmed ==> session.items == old(session.items) && local.items == old(local.items) && nav == Stay
  {
    nav := Stay;
    if confirmed {
      session.RemoveItem(SessionUserKey);
      local.RemoveItem(LocalUserKey);
      nav := GoTo("Project.html");
    }
  }

  /** `checkLoginForCheckout` on the page at `path`. */
  method CheckLoginForCheckout(session: Storage, local: Storage, path: string) returns (proceed: bool, nav: Nav)
    requires session != local
    modifies session
    ensures CheckoutGuard(path, old(session.items), local.items) == Guard(proceed, session.items, nav)
  {
    nav := Stay;
    if IsCheckoutPage(path) {
      if !IsUserLoggedIn(session.items, local.items) {
        var live := session.GetItem(BookingKey);
        if Truthy(live) {
          session.SetItem(PendingKey, live.value);
        }
        nav := GoTo("login.html");
        return false, nav;
      }
      return true, nav;
    }
    return true, nav;
  }

  /** `restorePendingBooking`. */
  method RestorePendingBooking(session: Storage, local: Storage) returns (nav: Nav)
    requires session != local
    modifies session
    ensures RestorePending(old(session.items), local.items) == Restore(session.items, nav)
  {
    nav := Stay;
    if !IsUserLoggedIn(session.items, local.items) {
      return;
    }
    var parked := session.GetItem(PendingKey);
    if Truthy(parked) {
      session.SetItem(BookingKey, parked.value);
      session.RemoveItem(PendingKey);
      nav := GoTo("Checkout.html");
    }
  }

  /** The `DOMContentLoaded` handler: sync, (navigation bar), checkout guard,
      then the restore on the entry page only. */
  method OnPageLoad(session: Storage, local: Storage, path: string) returns (redirects: seq<string>)
    requires session != local
    modifies session
    ensures PageLoad(path, old(session.items), local.items) == Load(session.items, redirects)
  {
    EnsureSessionFromLocal(session, local);
    var _, guardNav := CheckLoginForCheckout(session, local, path);
    redirects := Redirects(guardNav);
    if IsEntryPage(path) {
      var restoreNav := RestorePendingBooking(session, local);
      redirects := redirects + Redirects(restoreNav);
    }
  }
}
