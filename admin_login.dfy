/** The administrator back end of admin_control/admin_login.php: plain-text
    authentication against active admin rows, admin creation that refuses
    any existing email, and the POST handler's fixed order of checks and
    HTTP status codes. `filter_var(FILTER_VALIDATE_EMAIL)` is the parameter
    `validEmail`. */
module AdminLogin {
  import opened Wrappers
  import opened Strings
  import opened Lists

  datatype AdminRow = AdminRow(id: int, email: string, password: string, name: string,
                               active: int, lastLogin: Option<string>, createdAt: string)

  /** `SELECT ... WHERE email = ? AND active = 1`. */
  function ActiveWithEmail(email: string): AdminRow -> bool {
    (r: AdminRow) => r.email == email && r.active == 1
  }

  function WithEmail(email: string): AdminRow -> bool {
    (r: AdminRow) => r.email == email
  }

  /** The outcome of `authenticateAdmin`. */
  datatype Auth = Granted(adminId: int, adminName: string, adminEmail: string) | Denied

  datatype AuthStep = AuthStep(auth: Auth, rows: seq<AdminRow>)

  /** `UPDATE admins SET last_login = NOW() WHERE id = ?`. */
  function TouchLogin(rows: seq<AdminRow>, id: int, now: string): (r: seq<AdminRow>)
    ensures |r| == |rows|
    ensures forall k :: 0 <= k < |rows| && rows[k].id != id ==> r[k] == rows[k]
    ensures forall k :: 0 <= k < |rows| && rows[k].id == id ==>
      r[k].lastLogin == Some(now) && r[k].(lastLogin := rows[k].lastLogin) == rows[k]
  {
    seq(|rows|, k requires 0 <= k < |rows| => if rows[k].id == id then rows[k].(lastLogin := Some(now)) else rows[k])
  }

  /** `authenticateAdmin` on a reachable database: the first active row with
      the email is fetched and its password compared exactly. */
  function Authenticate(rows: seq<AdminRow>, email: string, password: string, now: string): AuthStep {
    match First(rows, ActiveWithEmail(email))
    case None => AuthStep(Denied, rows)
    case Some(i) =>
      if password == rows[i].password then
        AuthStep(Granted(rows[i].id, rows[i].name, rows[i].email), TouchLogin(rows, rows[i].id, now))
      else AuthStep(Denied, rows)
  }

  /** Ids in table order are strictly increasing (AUTO_INCREMENT). */
  ghost predicate IdsIncreasing(rows: seq<AdminRow>) {
    forall i, j :: 0 <= i < j < |rows| ==> rows[i].id < rows[j].id
  }

  ghost predicate UniqueEmails(rows: seq<AdminRow>) {
    forall i, j :: 0 <= i < |rows| && 0 <= j < |rows| && rows[i].email == rows[j].email ==> i == j
  }

  /** A login is granted only for an active admin with that email and that
      exact password (and, emails being unique, always for one); an unknown,
      inactive or wrongly typed login is the same `Denied`; a granted login
      changes only that admin's `last_login`, a denied one nothing. */
  lemma AuthenticateProperties(rows: seq<AdminRow>, email: string, password: string, now: string)
    requires IdsIncreasing(rows)
    ensures var st := Authenticate(rows, email, password, now);
      && (st.auth.Granted? ==>
            exists k :: 0 <= k < |rows| && rows[k].email == email && rows[k].active == 1 && rows[k].password == password
                        && st.auth == Granted(rows[k].id, rows[k].name, email)
                        && st.rows == rows[k := rows[k].(lastLogin := Some(now))])
      && ((UniqueEmails(rows) && exists k :: 0 <= k < |rows| && rows[k].email == email && rows[k].active == 1
                                              && rows[k].password == password) ==> st.auth.Granted?)
      && (st.auth.Denied? ==> st.rows == rows)
      && IdsIncreasing(st.rows)
      && (UniqueEmails(rows) ==> UniqueEmails(st.rows))
  {
    var st := Authenticate(rows, email, password, now);
    match First(rows, ActiveWithEmail(email))
    case None =>
      forall k | 0 <= k < |rows| ensures !(rows[k].email == email && rows[k].active == 1) {
        assert !ActiveWithEmail(email)(rows[k]);
      }
    case Some(i) =>
      forall k | 0 <= k < |rows| && k != i ensures rows[k].id != rows[i].id {
        if k < i {
          assert rows[k].id < rows[i].id;
        } else {
          assert rows[i].id < rows[k].id;
        }
      }
      assert TouchLogin(rows, rows[i].id, now) == rows[i := rows[i].(lastLogin := Some(now))];
  }

  /** `createAdmin` on a reachable database: refused when any row, active or
      not, has the email; otherwise one active row holding the password as given. */
  function CreateRows(rows: seq<AdminRow>, nextId: int, email: string, password: string, name: string,
                      now: string): (r: Option<seq<AdminRow>>)
    ensures r.None? <==> exists k :: 0 <= k < |rows| && rows[k].email == email
    ensures r.Some? ==> r.value == rows + [AdminRow(nextId, email, password, name, 1, None, now)]
  {
    if First(rows, WithEmail(email)).Some? then None
    else Some(rows + [AdminRow(nextId, email, password, name, 1, None, now)])
  }

  /** An admin just created logs in with the same email and password. */
  lemma {:induction false} CreatedAdminLogsIn(rows: seq<AdminRow>, nextId: int, email: string, password: string,
                                              name: string, now: string, later: string)
    requires forall k :: 0 <= k < |rows| ==> rows[k].id < nextId
    requires CreateRows(rows, nextId, email, password, name, now).Some?
    ensures var rows' := CreateRows(rows, nextId, email, password, name, now).value;
      Authenticate(rows', email, password, later).auth == Granted(nextId, name, email)
  {
    var rows' := CreateRows(rows, nextId, email, password, name, now).value;
    forall k | 0 <= k < |rows| ensures !ActiveWithEmail(email)(rows'[k]) {
      assert rows'[k] == rows[k];
      assert !WithEmail(email)(rows[k]);
    }
    FirstAt(rows', ActiveWithEmail(email), |rows|);
  }

  ghost predicate IdsBelow(rows: seq<AdminRow>, nextId: int) {
    && IdsIncreasing(rows)
    && (forall i :: 0 <= i < |rows| ==> rows[i].id < nextId)
  }

  // ---------------------------------------------------------------------
  // The admins table

  class AdminStore {
    /** Whether `new mysqli(...)` connects, and its `connect_error` otherwise. */
    const connected: bool
    const connectError: string
    var rows: seq<AdminRow>
    var nextId: int

    ghost predicate Valid()
      reads this
    {
      IdsBelow(rows, nextId) && UniqueEmails(rows)
    }

    constructor (connected: bool, connectError: string, rows: seq<AdminRow>, nextId: int)
      requires IdsBelow(rows, nextId) && UniqueEmails(rows)
      ensures Valid()
      ensures this.connected == connected && this.connectError == connectError
      ensures this.rows == rows && this.nextId == nextId
    {
      this.connected := connected;
      this.connectError := connectError;
      this.rows := rows;
      this.nextId := nextId;
    }

    /** `authenticateAdmin`; on a failed connection the request ends with 500. */
    method AuthenticateAdmin(email: string, password: string, now: string) returns (auth: Auth)
      requires Valid() && connected
      modifies this`rows
      ensures Valid()
      ensures AuthStep(auth, rows) == Authenticate(old(rows), email, password, now)
    {
      AuthenticateProperties(rows, email, password, now);
      var found := First(rows, ActiveWithEmail(email));
      if found.None? {
        return Denied;
      }
      var admin := rows[found.value];
      if password == admin.password {
        rows := TouchLogin(rows, admin.id, now);
        return Granted(admin.id, admin.name, admin.email);
      }
      return Denied;
    }

    /** `createAdmin`. */
    method CreateAdmin(email: string, password: string, name: string, now: string) returns (ok: bool)
      requires Valid() && connected
      modifies this`rows, this`nextId
      ensures Valid()
      ensures var r := CreateRows(old(rows), old(nextId), email, password, name, now);
        && ok == r.Some?
        && (ok ==> rows == r.value && nextId == old(nextId) + 1)
        && (!ok ==> rows == old(rows) && nextId == old(nextId))
    {
      if First(rows, WithEmail(email)).Some? {
        return false;
      }
      rows := rows + [AdminRow(nextId, email, password, name, 1, None, now)];
      nextId := nextId + 1;
      return true;
    }
  }

  // ---------------------------------------------------------------------
  // The request handler

  datatype HttpMethod = Options | Post | OtherMethod

  /** The decoded JSON body; `None` members are missing or `null` (not `isset`). */
  datatype AdminBody = AdminBody(action: Option<string>, email: Option<string>, password: Option<string>,
                                 name: Option<string>)

  /** Status code, `success`, `message`, and the admin fields of a granted login. */
  datatype AdminResponse = AdminResponse(code: int, success: bool, message: string, admin: Option<Auth>)

  function Error(code: int, message: string): AdminResponse {
    AdminResponse(code, false, message, None)
  }

  /** The handler's checks on a `login` request that come before the
      database is touched, in order; `None` when all pass. */
  function LoginRejection(body: AdminBody, validEmail: string -> bool): (r: Option<AdminResponse>)
    ensures body.email.None? || body.password.None? ==> r == Some(Error(400, "Email and password are required"))
    ensures body.email.Some? && body.password.Some? && !validEmail(PhpTrim(body.email.value)) ==>
              r == Some(Error(400, "Invalid email format"))
    ensures (body.email.Some? && body.password.Some? && validEmail(PhpTrim(body.email.value))
             && |body.password.value| < 6) ==> r == Some(Error(400, "Password must be at least 6 characters"))
    ensures r.None? <==> body.email.Some? && body.password.Some? && validEmail(PhpTrim(body.email.value))
                         && |body.password.value| >= 6
  {
    if body.email.None? || body.password.None? then Some(Error(400, "Email and password are required"))
    else if !validEmail(PhpTrim(body.email.value)) then Some(Error(400, "Invalid email format"))
    else if |body.password.value| < 6 then Some(Error(400, "Password must be at least 6 characters"))
    else None
  }

  /** The answer of the `login` action and the table it leaves, `before`
      being the table it started from. */
  ghost predicate LoginAnswered(b: AdminBody, validEmail: string -> bool, connected: bool, connectError: string,
                                before: seq<AdminRow>, after: seq<AdminRow>, now: string, resp: AdminResponse)
  {
    match LoginRejection(b, validEmail)
    case Some(err) => resp == err && after == before
    case None =>
      if !connected then
        resp == Error(500, "Database connection failed: " + connectError) && after == before
      else
        var st := Authenticate(before, PhpTrim(b.email.value), b.password.value, now);
        && after == st.rows
        && (st.auth.Granted? ==> resp == AdminResponse(200, true, "Login successful", Some(st.auth)))
        && (st.auth.Denied? ==> resp == Error(401, "Invalid email or password"))
  }

  /** The answer of the `create` action and the table it leaves. */
  ghost predicate CreateAnswered(b: AdminBody, validEmail: string -> bool, connected: bool, connectError: string,
                                 before: seq<AdminRow>, nextId: int, after: seq<AdminRow>, now: string,
                                 resp: AdminResponse)
  {
    if b.email.None? || b.password.None? || b.name.None? then
      resp == Error(400, "Email, password, and name are required") && after == before
    else if !validEmail(PhpTrim(b.email.value)) then
      resp == Error(400, "Invalid email format") && after == before
    else if !connected then
      resp == Error(500, "Database connection failed: " + connectError) && after == before
    else
      var r := CreateRows(before, nextId, PhpTrim(b.email.value), b.password.value, PhpTrim(b.name.value), now);
      && (r.Some? ==> after == r.value && resp == AdminResponse(200, true, "Admin account created successfully", None))
      && (r.None? ==> after == before && resp == Error(400, "Failed to create admin account. Email may already exist."))
  }

  /** The `login` action of the POST handler. */
  method HandleLogin(store: AdminStore, b: AdminBody, validEmail: string -> bool, now: string)
    returns (resp: AdminResponse)
    requires store.Valid()
    modifies store
    ensures store.Valid()
    ensures LoginAnswered(b, validEmail, store.connected, store.connectError, old(store.rows), store.rows, now, resp)
  {
    if b.email.None? || b.password.None? {
      return Error(400, "Email and password are required");
    }
    var email := PhpTrim(b.email.value);
    var password := b.password.value;
    if !validEmail(email) {
      return Error(400, "Invalid email format");
    }
    if |password| < 6 {
      return Error(400, "Password must be at least 6 characters");
    }
    if !store.connected {
      return Error(500, "Database connection failed: " + store.connectError);
    }
    var auth := store.AuthenticateAdmin(email, password, now);
    if auth.Granted? {
      resp := AdminResponse(200, true, "Login successful", Some(auth));
    } else {
      resp := Error(401, "Invalid email or password");
    }
  }

  /** The `create` action of the POST handler. */
  method HandleCreate(store: AdminStore, b: AdminBody, validEmail: string -> bool, now: string)
    returns (resp: AdminResponse)
    requires store.Valid()
    modifies store
    ensures store.Valid()
    ensures CreateAnswered(b, validEmail, store.connected, store.connectError, old(store.rows), old(store.nextId),
                           store.rows, now, resp)
  {
    if b.email.None? || b.password.None? || b.name.None? {
      return Error(400, "Email, password, and name are required");
    }
    var email := PhpTrim(b.email.value);
    var password := b.password.value;
    var name := PhpTrim(b.name.value);
    if !validEmail(email) {
      return Error(400, "Invalid email format");
    }
    if !store.connected {
      return Error(500, "Database connection failed: " + store.connectError);
    }
    var ok := store.CreateAdmin(email, password, name, now);
    if ok {
      resp := AdminResponse(200, true, "Admin account created successfully", None);
    } else {
      resp := Error(400, "Failed to create admin account. Email may already exist.");
    }
  }

  /** The POST handler (and the method check around it). `body` is `None`
      when the input is not valid JSON. */
  method HandleRequest(store: AdminStore, m: HttpMethod, body: Option<AdminBody>, validEmail: string -> bool,
                       now: string) returns (resp: AdminResponse)
    requires store.Valid()
    modifies store
    ensures store.Valid()
    ensures m == Options ==> resp == AdminResponse(200, false, "", None) && store.rows == old(store.rows)
    ensures m == OtherMethod ==> resp == Error(405, "Only POST requests are allowed") && store.rows == old(store.rows)
    ensures m == Post && body.None? ==> resp == Error(400, "Invalid JSON data") && store.rows == old(store.rows)
    ensures m == Post && body.Some? && body.value.action.GetOr("login") == "login" ==>
      LoginAnswered(body.value, validEmail, store.connected, store.connectError, old(store.rows), store.rows, now, resp)
    ensures m == Post && body.Some? && body.value.action == Some("create") ==>
      CreateAnswered(body.value, validEmail, store.connected, store.connectError, old(store.rows), old(store.nextId),
                     store.rows, now, resp)
    ensures m == Post && body.Some? && body.value.action.GetOr("login") !in {"login", "create"} ==>
      resp == Error(400, "Invalid action") && store.rows == old(store.rows)
  {
    if m == Options {
      return AdminResponse(200, false, "", None);
    }
    if m != Post {
      return Error(405, "Only POST requests are allowed");
    }
    if body.None? {
      return Error(400, "Invalid JSON data");
    }
    var b := body.value;
    var action := b.action.GetOr("login");
    if action == "login" {
      resp := HandleLogin(store, b, validEmail, now);
    } else if action == "create" {
      resp := HandleCreate(store, b, validEmail, now);
    } else {
      resp := Error(400, "Invalid action");
    }
  }
}
