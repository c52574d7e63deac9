/** The user account service of users/users.php: login with transparent
    upgrade of legacy plain-text passwords to hashes, registration that
    refuses a taken email, and password change; plus the POST handler cases
    that drive them.

    The users table is a map from id to row. `password_hash` and
    `password_verify` are the two functions of a `PasswordScheme` about which
    only `Sound` is known. */
module UserAccounts {
  import opened Wrappers
  import opened Strings

  // ---------------------------------------------------------------------
  // Password hashing

  /** `hash(p, salt)` is `password_hash(p, PASSWORD_DEFAULT)` with the random
      salt made an argument; `verify(p, stored)` is `password_verify(p, stored)`. */
  datatype PasswordScheme = PasswordScheme(hash: (string, nat) -> string, verify: (string, string) -> bool)

  /** The one law of the scheme: a hash verifies against the password it
      was made from. Nothing else is taken for granted, in particular not that a hash
      differs from the password. */
  ghost predicate Sound(ps: PasswordScheme) {
    forall p, salt :: ps.verify(p, ps.hash(p, salt))
  }

  /** A second, separately stated assumption, used only where a login reads
      back a hash: a hash is a truthy PHP string (a crypt string is never ""
      or "0"), so it passes the guard on the stored value in `login`. */
  ghost predicate TruthyHashes(ps: PasswordScheme) {
    forall p, salt :: PhpTruthy(ps.hash(p, salt))
  }

  /** How a supplied password matched the stored one. */
  datatype Verdict = HashMatch | LegacyMatch | Rejected

  /** The check in `login`: a falsy stored value never matches; otherwise
      the hash check comes first and plain equality second. */
  function LoginVerdict(ps: PasswordScheme, stored: string, password: string): Verdict {
    if !PhpTruthy(stored) then Rejected
    else if ps.verify(password, stored) then HashMatch
    else if stored == password then LegacyMatch
    else Rejected
  }

  /** The check in `changePassword`: the same two tests, without the guard
      on a falsy stored value. */
  function CurrentPasswordVerdict(ps: PasswordScheme, stored: string, password: string): Verdict {
    if ps.verify(password, stored) then HashMatch
    else if stored == password then LegacyMatch
    else Rejected
  }

  /** Properties of the verdicts: an empty stored password never lets anyone
      log in; the two checks agree on every truthy stored value; a hash the
      scheme made verifies by the hash path; and after a legacy match the
      upgraded value matches the same password by the hash path. */
  lemma VerdictProperties(ps: PasswordScheme, stored: string, password: string, salt: nat)
    ensures !PhpTruthy(stored) ==> LoginVerdict(ps, stored, password) == Rejected
    ensures PhpTruthy(stored) ==> LoginVerdict(ps, stored, password) == CurrentPasswordVerdict(ps, stored, password)
    ensures Sound(ps) && TruthyHashes(ps) ==> LoginVerdict(ps, ps.hash(password, salt), password) == HashMatch
    ensures Sound(ps) && TruthyHashes(ps) && LoginVerdict(ps, stored, password) == LegacyMatch ==>
              LoginVerdict(ps, ps.hash(password, salt), password) == HashMatch
  {
  }

  // ---------------------------------------------------------------------
  // The users table

  datatype UserRow = UserRow(id: int, name: string, email: string, password: string,
                             phone: Option<string>, role: string)

  /** A row as the service returns it: every column but the password. */
  datatype PublicUser = PublicUser(id: int, name: string, email: string, phone: Option<string>, role: string)

  function Public(r: UserRow): PublicUser {
    PublicUser(r.id, r.name, r.email, r.phone, r.role)
  }

  /** No two rows share an email. */
  ghost predicate UniqueEmails(rows: map<int, UserRow>) {
    forall a, b :: a in rows && b in rows && rows[a].email == rows[b].email ==> a == b
  }

  predicate HasEmail(rows: map<int, UserRow>, email: string) {
    exists id :: id in rows && rows[id].email == email
  }

  /** `SELECT ... WHERE email = :email LIMIT 1`: the id of the row with that email. */
  function FindByEmail(rows: map<int, UserRow>, email: string): (r: Option<int>)
    requires UniqueEmails(rows)
    ensures r.Some? <==> HasEmail(rows, email)
    ensures r.Some? ==> r.value in rows && rows[r.value].email == email
    ensures forall id :: id in rows && rows[id].email == email ==> r == Some(id)
  {
    if HasEmail(rows, email) then
      var id :| id in rows && rows[id].email == email;
      Some(id)
    else
      None
  }

  /** Emails stay unique when a row with a fresh email is added, or when a
      row is replaced by one with the same email. */
  lemma UniqueAfterInsert(rows: map<int, UserRow>, id: int, row: UserRow)
    requires UniqueEmails(rows)
    requires id in rows ==> rows[id].email == row.email
    requires id !in rows ==> !HasEmail(rows, row.email)
    ensures UniqueEmails(rows[id := row])
  {
  }

  // ---------------------------------------------------------------------
  // Specification of the three operations on the table

  /** The user `login` returns (if any) and the table afterwards. */
  datatype LoginResult = LoginResult(user: Option<PublicUser>, rows: map<int, UserRow>)

  function LoginOutcome(ps: PasswordScheme, rows: map<int, UserRow>, email: string, password: string, salt: nat): LoginResult
    requires UniqueEmails(rows)
  {
    match FindByEmail(rows, email)
    case None => LoginResult(None, rows)
    case Some(id) =>
      var row := rows[id];
      match LoginVerdict(ps, row.password, password)
      case Rejected => LoginResult(None, rows)
      case HashMatch => LoginResult(Some(Public(row)), rows)
      case LegacyMatch => LoginResult(Some(Public(row)), rows[id := row.(password := ps.hash(password, salt))])
  }

  /** An unknown email and a wrong password end alike: no user and no change.
      A hash match changes nothing; a legacy match rewrites only that row's
      password, to a hash of the supplied password. */
  lemma LoginOutcomeProperties(ps: PasswordScheme, rows: map<int, UserRow>, email: string, password: string, salt: nat)
    requires UniqueEmails(rows)
    ensures var r := LoginOutcome(ps, rows, email, password, salt);
      && (r.user.None? <==>
            !HasEmail(rows, email) || LoginVerdict(ps, rows[FindByEmail(rows, email).value].password, password) == Rejected)
      && (r.user.None? ==> r.rows == rows)
      && (r.user.Some? ==> r.user.value.email == email && r.rows.Keys == rows.Keys)
      && (HasEmail(rows, email) ==>
            var id := FindByEmail(rows, email).value;
            && (LoginVerdict(ps, rows[id].password, password) == HashMatch ==> r.rows == rows)
            && (LoginVerdict(ps, rows[id].password, password) == LegacyMatch ==>
                  r.rows[id].password == ps.hash(password, salt) &&
                  forall k :: k in rows && k != id ==> r.rows[k] == rows[k]))
      && UniqueEmails(r.rows)
  {
    if HasEmail(rows, email) {
      var id := FindByEmail(rows, email).value;
      UniqueAfterInsert(rows, id, rows[id].(password := ps.hash(password, salt)));
    }
  }

  /** The migration is one-way and keeps working: after a legacy match, the
      same credentials log in again through the hash path and change nothing. */
  lemma {:induction false} LegacyLoginUpgradesOnce(ps: PasswordScheme, rows: map<int, UserRow>, email: string,
                                                   password: string, salt: nat, salt': nat)
    requires Sound(ps) && TruthyHashes(ps) && UniqueEmails(rows)
    requires HasEmail(rows, email)
    requires LoginVerdict(ps, rows[FindByEmail(rows, email).value].password, password) == LegacyMatch
    ensures var first := LoginOutcome(ps, rows, email, password, salt);
      && first.user.Some?
      && UniqueEmails(first.rows)
      && first.rows[FindByEmail(rows, email).value].password == ps.hash(password, salt)
      && LoginOutcome(ps, first.rows, email, password, salt') == LoginResult(first.user, first.rows)
  {
    var id := FindByEmail(rows, email).value;
    var row' := rows[id].(password := ps.hash(password, salt));
    UniqueAfterInsert(rows, id, row');
    var first := LoginOutcome(ps, rows, email, password, salt);
    assert first.rows == rows[id := row'];
    assert FindByEmail(first.rows, email) == Some(id);
    assert LoginVerdict(ps, row'.password, password) == HashMatch;
  }

  /** The table after a successful `register`, or `None` when the email is taken. */
  function RegisterOutcome(ps: PasswordScheme, rows: map<int, UserRow>, newId: int, name: string, email: string,
                           password: string, phone: Option<string>, salt: nat): Option<map<int, UserRow>>
  {
    if HasEmail(rows, email) then None
    else Some(rows[newId := UserRow(newId, name, email, ps.hash(password, salt), phone, "user")])
  }

  /** A registered account logs in with its password through the hash path,
      and registering the same email again is refused. */
  lemma {:induction false} RegisteredUserLogsIn(ps: PasswordScheme, rows: map<int, UserRow>, newId: int, name: string,
                                                email: string, password: string, phone: Option<string>,
                                                salt: nat, salt': nat)
    requires Sound(ps) && TruthyHashes(ps) && UniqueEmails(rows)
    requires newId !in rows
    requires !HasEmail(rows, email)
    ensures var after := RegisterOutcome(ps, rows, newId, name, email, password, phone, salt);
      && after.Some?
      && UniqueEmails(after.value)
      && LoginOutcome(ps, after.value, email, password, salt') ==
           LoginResult(Some(PublicUser(newId, name, email, phone, "user")), after.value)
      && RegisterOutcome(ps, after.value, newId + 1, name, email, password, phone, salt') == None
  {
    var row := UserRow(newId, name, email, ps.hash(password, salt), phone, "user");
    UniqueAfterInsert(rows, newId, row);
    var after := rows[newId := row];
    assert after[newId].email == email;
    assert FindByEmail(after, email) == Some(newId);
    assert LoginVerdict(ps, row.password, password) == HashMatch;
  }

  /** The outcome of `changePassword`: the new table, or the error it records. */
  datatype Change = Changed(rows: map<int, UserRow>) | Refused(error: string)

  function ChangeOutcome(ps: PasswordScheme, rows: map<int, UserRow>, id: int, current: string,
                         newPassword: string, salt: nat): Change
  {
    if id !in rows then Refused("User not found")
    else if CurrentPasswordVerdict(ps, rows[id].password, current) == Rejected then Refused("Current password is incorrect")
    else if |newPassword| < 8 then Refused("New password must be at least 8 characters")
    else Changed(rows[id := rows[id].(password := ps.hash(newPassword, salt))])
  }

  /** The checks come in the order unknown user, wrong current password, too
      short; a change touches only that row's password; and afterwards the
      new password logs in through the hash path. */
  lemma {:induction false} ChangeOutcomeProperties(ps: PasswordScheme, rows: map<int, UserRow>, id: int, current: string,
                                                   newPassword: string, salt: nat, salt': nat)
    requires UniqueEmails(rows)
    ensures var c := ChangeOutcome(ps, rows, id, current, newPassword, salt);
      && (id !in rows ==> c == Refused("User not found"))
      && (id in rows && CurrentPasswordVerdict(ps, rows[id].password, current) == Rejected ==>
            c == Refused("Current password is incorrect"))
      && (id in rows && CurrentPasswordVerdict(ps, rows[id].password, current) != Rejected && |newPassword| < 8 ==>
            c == Refused("New password must be at least 8 characters"))
      && (c.Changed? <==>
            id in rows && CurrentPasswordVerdict(ps, rows[id].password, current) != Rejected && |newPassword| >= 8)
      && (c.Changed? ==> c.rows.Keys == rows.Keys && UniqueEmails(c.rows) &&
                         forall k :: k in rows && k != id ==> c.rows[k] == rows[k])
      && (c.Changed? && Sound(ps) && TruthyHashes(ps) ==>
            LoginOutcome(ps, c.rows, rows[id].email, newPassword, salt') ==
              LoginResult(Some(Public(rows[id])), c.rows))
  {
    var c := ChangeOutcome(ps, rows, id, current, newPassword, salt);
    if c.Changed? {
      var row' := rows[id].(password := ps.hash(newPassword, salt));
      UniqueAfterInsert(rows, id, row');
      assert c.rows == rows[id := row'];
      assert FindByEmail(c.rows, rows[id].email) == Some(id);
    }
  }

  // ---------------------------------------------------------------------
  // The `User` object of one request

  const DbFailed := "Database connection failed."

  class UserService {
    /** Whether `getConnection` produced a connection. */
    const connected: bool
    const scheme: PasswordScheme
    var rows: map<int, UserRow>
    /** The next AUTO_INCREMENT id. */
    var nextId: int
    var lastError: string
    // Properties the handler sets before calling `Register`.
    var name: string
    var email: string
    var password: string
    var phone: Option<string>

    ghost predicate Valid()
      reads this
    {
      && (forall id :: id in rows ==> rows[id].id == id && id < nextId)
      && UniqueEmails(rows)
    }

    constructor (connected: bool, scheme: PasswordScheme, rows: map<int, UserRow>, nextId: int)
      requires (forall id :: id in rows ==> rows[id].id == id && id < nextId) && UniqueEmails(rows)
      ensures Valid()
      ensures this.connected == connected && this.scheme == scheme
      ensures this.rows == rows && this.nextId == nextId && lastError == ""
    {
      this.connected := connected;
      this.scheme := scheme;
      this.rows := rows;
      this.nextId := nextId;
      lastError := "";
      name, email, password, phone := "", "", "", None;
    }

    /** `updatePasswordHashed`: sets the password of the row with that id, if any. */
    method UpdatePasswordHashed(id: int, hashed: string) returns (ok: bool)
      requires Valid()
      modifies this`rows
      ensures Valid()
      ensures ok == connected
      ensures rows == if connected && id in old(rows) then old(rows)[id := old(rows)[id].(password := hashed)] else old(rows)
    {
      if !connected {
        return false;
      }
      if id in rows {
        UniqueAfterInsert(rows, id, rows[id].(password := hashed));
        rows := rows[id := rows[id].(password := hashed)];
      }
      return true;
    }

    /** `login`. */
    method Login(email: string, password: string, salt: nat) returns (user: Option<PublicUser>)
      requires Valid()
      modifies this`rows, this`lastError
      ensures Valid()
      ensures !connected ==> user == None && rows == old(rows) && lastError == DbFailed
      ensures connected ==> LoginResult(user, rows) == LoginOutcome(scheme, old(rows), email, password, salt)
      ensures connected ==> lastError == old(lastError)
    {
      if !connected {
        lastError := DbFailed;
        return None;
      }
      var found := FindByEmail(rows, email);
      if found.None? {
        return None;
      }
      var row := rows[found.value];
      var stored := row.password;
      var isValid := false;
      if PhpTruthy(stored) {
        if scheme.verify(password, stored) {
          isValid := true;
        } else if stored == password {
          isValid := true;
          var _ := UpdatePasswordHashed(row.id, scheme.hash(password, salt));
        }
      }
      if !isValid {
        return None;
      }
      return Some(Public(row));
    }

    /** `register`, on the properties the handler has set. */
    method Register(salt: nat) returns (ok: bool)
      requires Valid()
      modifies this`rows, this`nextId, this`lastError
      ensures Valid()
      ensures !connected ==> !ok && rows == old(rows) && lastError == DbFailed
      ensures connected && HasEmail(old(rows), email) ==>
                !ok && rows == old(rows) && lastError == "Email already registered"
      ensures connected && !HasEmail(old(rows), email) ==>
                && ok && lastError == old(lastError)
                && Some(rows) == RegisterOutcome(scheme, old(rows), old(nextId), name, email, password, phone, salt)
      ensures !ok ==> nextId == old(nextId)
    {
      if !connected {
        lastError := DbFailed;
        return false;
      }
      if HasEmail(rows, email) {
        lastError := "Email already registered";
        return false;
      }
      var hashed := scheme.hash(password, salt);
      var row := UserRow(nextId, name, email, hashed, phone, "user");
      UniqueAfterInsert(rows, nextId, row);
      rows := rows[nextId := row];
      nextId := nextId + 1;
      return true;
    }

    /** `getUserByEmail`: the row with that email, without its password. */
    method GetUserByEmail(email: string) returns (user: Option<PublicUser>)
      requires Valid()
      modifies this`lastError
      ensures !connected ==> user == None && lastError == DbFailed
      ensures connected ==> lastError == old(lastError)
      ensures connected ==> user == (if HasEmail(rows, email) then Some(Public(rows[FindByEmail(rows, email).value])) else None)
    {
      if !connected {
        lastError := DbFailed;
        return None;
      }
      var found := FindByEmail(rows, email);
      if found.None? {
        return None;
      }
      return Some(Public(rows[found.value]));
    }

    /** `changePassword`. */
    method ChangePassword(id: int, current: string, newPassword: string, salt: nat) returns (ok: bool)
      requires Valid()
      modifies this`rows, this`lastError
      ensures Valid()
      ensures !connected ==> !ok && rows == old(rows) && lastError == DbFailed
      ensures connected ==> match ChangeOutcome(scheme, old(rows), id, current, newPassword, salt)
        case Changed(rows') => ok && rows == rows' && lastError == old(lastError)
        case Refused(error) => !ok && rows == old(rows) && lastError == error
    {
      if !connected {
        lastError := DbFailed;
        return false;
      }
      if id !in rows {
        lastError := "User not found";
        return false;
      }
      var stored := rows[id].password;
      var valid := false;
      if scheme.verify(current, stored) {
        valid := true;
      } else if stored == current {
        valid := true;
      }
      if !valid {
        lastError := "Current password is incorrect";
        return false;
      }
      if |newPassword| < 8 {
        lastError := "New password must be at least 8 characters";
        return false;
      }
      var hashed := scheme.hash(newPassword, salt);
      ok := UpdatePasswordHashed(id, hashed);
    }
  }

  // ---------------------------------------------------------------------
  // The POST handler

  /** The decoded request body, by action. `Unknown` is any action the
      handler has no case for. */
  datatype Request =
    | LoginRequest(email: string, password: string)
    | RegisterRequest(name: string, email: string, password: string, phone: Option<string>)
    | UpdatePasswordRequest(userId: Option<int>, currentPassword: Option<string>,
                            newPassword: Option<string>, confirmPassword: Option<string>)
    | Unknown

  /** The JSON body the handler echoes. */
  datatype Response = Response(success: bool, message: string, error: Option<string>, user: Option<PublicUser>)

  /** PHP's `$a ?: $b` on strings. */
  function OrElse(a: string, b: string): string {
    if PhpTruthy(a) then a else b
  }

  /** PHP truthiness of an optional id: null and 0 are false. */
  predicate IdGiven(id: Option<int>) {
    id.Some? && id.value != 0
  }

  /** The answer of the `login` case and the table it leaves, `before`
      being the table it started from. */
  ghost predicate LoginAnswered(ps: PasswordScheme, connected: bool, before: map<int, UserRow>,
                                after: map<int, UserRow>, lastError: string, email: string, password: string,
                                salt: nat, resp: Response)
  {
    if connected then
      && UniqueEmails(before)
      && var r := LoginOutcome(ps, before, email, password, salt);
      && after == r.rows
      && resp == (if r.user.Some? then Response(true, "Login successful", None, r.user)
                  else Response(false, "Invalid email or password", Some(lastError), None))
    else after == before && resp == Response(false, "Invalid email or password", Some(DbFailed), None)
  }

  /** The answer of the `register` case and the table it leaves. */
  ghost predicate RegisterAnswered(ps: PasswordScheme, connected: bool, before: map<int, UserRow>, nextId: int,
                                   after: map<int, UserRow>, name: string, email: string, password: string,
                                   phone: Option<string>, salt: nat, resp: Response)
  {
    if !connected then after == before && resp == Response(false, DbFailed, None, None)
    else if HasEmail(before, email) then
      after == before && resp == Response(false, "Email already registered", None, None)
    else
      && Some(after) == RegisterOutcome(ps, before, nextId, name, email, password, phone, salt)
      && resp == Response(true, "Registration successful", None, Some(PublicUser(nextId, name, email, phone, "user")))
  }

  /** The answer of the `updatePassword` case and the table it leaves. */
  ghost predicate UpdatePasswordAnswered(ps: PasswordScheme, connected: bool, before: map<int, UserRow>,
                                         after: map<int, UserRow>, userId: Option<int>,
                                         currentPassword: Option<string>, newPassword: Option<string>,
                                         confirmPassword: Option<string>, salt: nat, resp: Response)
  {
    var cur, np, confirm := currentPassword.GetOr(""), newPassword.GetOr(""), confirmPassword.GetOr("");
    && (!IdGiven(userId) || !PhpTruthy(cur) || !PhpTruthy(np) || !PhpTruthy(confirm) ==>
          after == before && resp == Response(false, "Missing required fields", None, None))
    && (IdGiven(userId) && PhpTruthy(cur) && PhpTruthy(np) && PhpTruthy(confirm) && np != confirm ==>
          after == before && resp == Response(false, "New password and confirm password do not match", None, None))
    && (IdGiven(userId) && PhpTruthy(cur) && PhpTruthy(np) && np == confirm && connected ==>
          match ChangeOutcome(ps, before, userId.value, cur, np, salt)
          case Changed(rows') => after == rows' && resp == Response(true, "Password updated successfully", None, None)
          case Refused(error) => after == before && resp == Response(false, error, None, None))
    && (IdGiven(userId) && PhpTruthy(cur) && PhpTruthy(np) && np == confirm && !connected ==>
          resp == Response(false, DbFailed, None, None))
    && (!connected ==> after == before && !resp.success)
  }

  /** The `login` case: one message for an unknown email and a wrong password. */
  method HandleLogin(service: UserService, email: string, password: string, salt: nat) returns (resp: Response)
    requires service.Valid()
    modifies service`rows, service`lastError
    ensures service.Valid()
    ensures LoginAnswered(service.scheme, service.connected, old(service.rows), service.rows, old(service.lastError),
                          email, password, salt, resp)
  {
    var user := service.Login(email, password, salt);
    if user.Some? {
      resp := Response(true, "Login successful", None, user);
    } else {
      resp := Response(false, "Invalid email or password", Some(service.lastError), None);
    }
  }

  /** The `register` case: fills the object's properties, registers, and
      returns the new row as read back by email. */
  method HandleRegister(service: UserService, name: string, email: string, password: string,
                        phone: Option<string>, salt: nat) returns (resp: Response)
    requires service.Valid()
    modifies service
    ensures service.Valid()
    ensures RegisterAnswered(service.scheme, service.connected, old(service.rows), old(service.nextId), service.rows,
                             name, email, password, phone, salt, resp)
  {
    service.name := name;
    service.email := email;
    service.password := password;
    service.phone := phone;
    var ok := service.Register(salt);
    if ok {
      assert FindByEmail(service.rows, email) == Some(old(service.nextId));
      var user := service.GetUserByEmail(service.email);
      resp := Response(true, "Registration successful", None, user);
    } else {
      resp := Response(false, OrElse(service.lastError, "Failed to register user"), None, None);
    }
  }

  /** The `updatePassword` case: missing fields, then new and confirm
      differing, are refused before `changePassword` runs at all. */
  method HandleUpdatePassword(service: UserService, userId: Option<int>, currentPassword: Option<string>,
                              newPassword: Option<string>, confirmPassword: Option<string>, salt: nat)
    returns (resp: Response)
    requires service.Valid()
    modifies service`rows, service`lastError
    ensures service.Valid()
    ensures UpdatePasswordAnswered(service.scheme, service.connected, old(service.rows), service.rows,
                                   userId, currentPassword, newPassword, confirmPassword, salt, resp)
  {
    var cur, np, confirm := currentPassword.GetOr(""), newPassword.GetOr(""), confirmPassword.GetOr("");
    if !IdGiven(userId) || !PhpTruthy(cur) || !PhpTruthy(np) || !PhpTruthy(confirm) {
      return Response(false, "Missing required fields", None, None);
    }
    if np != confirm {
      return Response(false, "New password and confirm password do not match", None, None);
    }
    var ok := service.ChangePassword(userId.value, cur, np, salt);
    if ok {
      resp := Response(true, "Password updated successfully", None, None);
    } else {
      resp := Response(false, OrElse(service.lastError, "Failed to update password"), None, None);
    }
  }

  /** The POST dispatch over the three account actions. */
  method HandlePost(service: UserService, request: Request, salt: nat) returns (resp: Response)
    requires service.Valid()
    modifies service
    ensures service.Valid()
    ensures request.LoginRequest? ==>
      LoginAnswered(service.scheme, service.connected, old(service.rows), service.rows, old(service.lastError),
                    request.email, request.password, salt, resp)
    ensures request.RegisterRequest? ==>
      RegisterAnswered(service.scheme, service.connected, old(service.rows), old(service.nextId), service.rows,
                       request.name, request.email, request.password, request.phone, salt, resp)
    ensures request.UpdatePasswordRequest? ==>
      UpdatePasswordAnswered(service.scheme, service.connected, old(service.rows), service.rows, request.userId,
                             request.currentPassword, request.newPassword, request.confirmPassword, salt, resp)
    ensures request.Unknown? ==>
      service.rows == old(service.rows) && resp == Response(false, "Invalid action", None, None)
  {
    match request
    case LoginRequest(email, password) =>
      resp := HandleLogin(service, email, password, salt);
    case RegisterRequest(name, email, password, phone) =>
      resp := HandleRegister(service, name, email, password, phone, salt);
    case UpdatePasswordRequest(userId, current, np, confirm) =>
      resp := HandleUpdatePassword(service, userId, current, np, confirm, salt);
    case Unknown =>
      resp := Response(false, "Invalid action", None, None);
  }
}
