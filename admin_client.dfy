/** The administrator login page of admin_control/admin_login.js: form
    validation, the session keys written after a successful login, and
    logout. The server's answer (or a failed `fetch`) is a parameter. */
module AdminClient {
  import opened Wrappers
  import opened Strings
  import opened Numbers
  import opened WebStorage

  // ---------------------------------------------------------------------
  // The email pattern /^[^\s@]+@[^\s@]+\.[^\s@]+$/

  /** A non-empty run of `[^\s@]`. */
  predicate Word(t: string) {
    t != [] && forall k :: 0 <= k < |t| ==> !IsJsSpace(t[k]) && t[k] != '@'
  }

  /** The pattern read as it is written: three words joined by '@' and '.'. */
  ghost predicate MatchesPattern(s: string) {
    exists a, b, c :: Word(a) && Word(b) && Word(c) && s == a + "@" + b + "." + c
  }

  /** The same pattern described by positions: no white space, exactly one
      '@', not first, and after it a '.' that is neither the first nor the
      last character of the domain. */
  predicate EmailShape(s: string) {
    && (forall k :: 0 <= k < |s| ==> !IsJsSpace(s[k]))
    && exists i :: 0 < i < |s| && s[i] == '@' && (forall k :: 0 <= k < |s| && k != i ==> s[k] != '@')
                   && exists p :: i + 1 < p < |s| - 1 && s[p] == '.'
  }

  lemma ShapeGivesPattern(s: string, i: int, p: int)
    requires forall k :: 0 <= k < |s| ==> !IsJsSpace(s[k])
    requires 0 < i < |s| && s[i] == '@' && forall k :: 0 <= k < |s| && k != i ==> s[k] != '@'
    requires i + 1 < p < |s| - 1 && s[p] == '.'
    ensures MatchesPattern(s)
  {
    var a, b, c := s[..i], s[i + 1..p], s[p + 1..];
    assert s == a + "@" + b + "." + c;
    forall k | 0 <= k < |b| ensures !IsJsSpace(b[k]) && b[k] != '@' {
      assert b[k] == s[i + 1 + k];
    }
    forall k | 0 <= k < |c| ensures !IsJsSpace(c[k]) && c[k] != '@' {
      assert c[k] == s[p + 1 + k];
    }
    assert Word(a) && Word(b) && Word(c);
  }

  lemma PatternGivesShape(a: string, b: string, c: string)
    requires Word(a) && Word(b) && Word(c)
    ensures EmailShape(a + "@" + b + "." + c)
  {
    var s := a + "@" + b + "." + c;
    var i, p := |a|, |a| + 1 + |b|;
    forall k | 0 <= k < |s| ensures !IsJsSpace(s[k]) && (k != i && k != p ==> s[k] != '@') {
      if k < i {
        assert s[k] == a[k];
      } else if i < k < p {
        assert s[k] == b[k - i - 1];
      } else if p < k {
        assert s[k] == c[k - p - 1];
      }
    }
    assert s[i] == '@' && s[p] == '.';
    assert i + 1 < p < |s| - 1;
  }

  /** The positional description is exactly the pattern. */
  lemma EmailShapeIff(s: string)
    ensures EmailShape(s) <==> MatchesPattern(s)
  {
    if EmailShape(s) {
      var i :| 0 < i < |s| && s[i] == '@' && (forall k :: 0 <= k < |s| && k != i ==> s[k] != '@')
               && exists p :: i + 1 < p < |s| - 1 && s[p] == '.';
      var p :| i + 1 < p < |s| - 1 && s[p] == '.';
      ShapeGivesPattern(s, i, p);
    }
    if MatchesPattern(s) {
      var a, b, c :| Word(a) && Word(b) && Word(c) && s == a + "@" + b + "." + c;
      PatternGivesShape(a, b, c);
    }
  }

  // ---------------------------------------------------------------------
  // validateAdminLogin

  const EmailRequired := "Email is required"
  const EmailInvalid := "Please enter a valid email address"
  const PasswordRequired := "Password is required"
  const PasswordShort := "Password must be at least 6 characters"

  /** The errors `validateAdminLogin` collects, in order: at most one about
      the email, then at most one about the password. */
  ghost function AdminLoginErrors(email: string, password: string): seq<string> {
    (if JsTrim(email) == "" then [EmailRequired] else if !MatchesPattern(email) then [EmailInvalid] else [])
    + (if password == "" then [PasswordRequired] else if |password| < 6 then [PasswordShort] else [])
  }

  /** `validateAdminLogin`: at most one email error, then at most one
      password error, in that order; valid exactly when there is none. */
  method ValidateAdminLogin(email: string, password: string) returns (valid: bool, errors: seq<string>)
    ensures valid <==> errors == []
    ensures errors == (if JsTrim(email) == "" then [EmailRequired]
                       else if !MatchesPattern(email) then [EmailInvalid] else [])
                    + (if password == "" then [PasswordRequired] else if |password| < 6 then [PasswordShort] else [])
    ensures EmailRequired in errors <==> JsTrim(email) == ""
    ensures EmailInvalid in errors <==> JsTrim(email) != "" && !MatchesPattern(email)
    ensures PasswordRequired in errors <==> password == ""
    ensures PasswordShort in errors <==> password != "" && |password| < 6
    ensures valid <==> JsTrim(email) != "" && MatchesPattern(email) && |password| >= 6
    ensures errors != [] && errors[0] in {PasswordRequired, PasswordShort} ==>
              JsTrim(email) != "" && MatchesPattern(email)
  {
    errors := [];
    EmailShapeIff(email);
    if email == "" || JsTrim(email) == "" {
      errors := errors + [EmailRequired];
    } else if !EmailShape(email) {
      errors := errors + [EmailInvalid];
    }
    if password == "" {
      errors := errors + [PasswordRequired];
    } else if |password| < 6 {
      errors := errors + [PasswordShort];
    }
    valid := |errors| == 0;
  }

  /** `errors.join(sep)`. */
  function Join(parts: seq<string>, sep: string): string
    decreases |parts|
  {
    if parts == [] then ""
    else if |parts| == 1 then parts[0]
    else parts[0] + sep + Join(parts[1..], sep)
  }

  // ---------------------------------------------------------------------
  // handleAdminLogin and logoutAdmin

  const AdminLoggedInKey := "adminLoggedIn"
  const AdminEmailKey := "adminEmail"
  const AdminNameKey := "adminName"
  const AdminIdKey := "adminId"

  const AdminKeys := {AdminLoggedInKey, AdminEmailKey, AdminNameKey, AdminIdKey}

  /** What `admin_login.php` answered; the optional members are missing,
      `null` or falsy when `None`. */
  datatype ServerReply = ServerReply(success: bool, message: Option<string>, adminName: Option<string>,
                                     adminId: Option<nat>)

  /** The reply `authenticateAdmin` makes up when `fetch` fails. */
  const ConnectionError := ServerReply(false, Some("Connection error. Please check the browser console for details."),
                                       None, None)

  /** What the page shows and does: whether a request went out, the message
      text, and the page it then goes to. */
  datatype LoginView = LoginView(requested: bool, message: string, next: Option<string>)

  function OrDefault(v: Option<string>, default: string): string {
    if v.Some? && v.value != "" then v.value else default
  }

  /** `result.adminId || ''` as `setItem` stores it. */
  function IdText(id: Option<nat>): string {
    if id.Some? && id.value != 0 then NatToString(id.value) else ""
  }

  /** The session after a successful admin login. */
  function AdminSession(items: map<string, string>, email: string, reply: ServerReply): map<string, string> {
    items[AdminLoggedInKey := "true"][AdminEmailKey := email][AdminNameKey := OrDefault(reply.adminName, "Admin")]
         [AdminIdKey := IdText(reply.adminId)]
  }

  /** `handleAdminLogin`. `formPresent` is whether the email, password and
      message elements exist; `reply` is `None` when `fetch` fails. */
  method HandleAdminLogin(session: Storage, formPresent: bool, emailInput: string, password: string,
                          reply: Option<ServerReply>) returns (view: LoginView)
    modifies session
    ensures !formPresent ==> view == LoginView(false, "", None) && session.items == old(session.items)
    ensures formPresent ==>
      var email := JsTrim(emailInput);
      var r := reply.GetOr(ConnectionError);
      if !(JsTrim(email) != "" && MatchesPattern(email) && |password| >= 6) then
        view == LoginView(false, Join(AdminLoginErrors(email, password), ". "), None) && session.items == old(session.items)
      else if r.success then
        && view == LoginView(true, OrDefault(r.message, "Login successful. Redirecting..."), Some("AdminControl.html"))
        && session.items == AdminSession(old(session.items), email, r)
      else
        && view == LoginView(true, OrDefault(r.message, "Login failed. Please check your credentials."), None)
        && session.items == old(session.items)
  {
    if !formPresent {
      return LoginView(false, "", None);
    }
    var email := JsTrim(emailInput);
    var valid, errors := ValidateAdminLogin(email, password);
    if !valid {
      return LoginView(false, Join(errors, ". "), None);
    }
    var result := reply.GetOr(ConnectionError);
    if result.success {
      session.SetItem(AdminLoggedInKey, "true");
      session.SetItem(AdminEmailKey, email);
      session.SetItem(AdminNameKey, OrDefault(result.adminName, "Admin"));
      session.SetItem(AdminIdKey, IdText(result.adminId));
      view := LoginView(true, OrDefault(result.message, "Login successful. Redirecting..."), Some("AdminControl.html"));
    } else {
      view := LoginView(true, OrDefault(result.message, "Login failed. Please check your credentials."), None);
    }
  }

  /** `logoutAdmin`: the four admin keys go, then the login page. */
  method LogoutAdmin(session: Storage) returns (next: string)
    modifies session
    ensures session.items == old(session.items) - AdminKeys
    ensures next == "adminlogin.html"
  {
    session.RemoveItem(AdminLoggedInKey);
    session.RemoveItem(AdminEmailKey);
    session.RemoveItem(AdminNameKey);
    session.RemoveItem(AdminIdKey);
    next := "adminlogin.html";
  }

  /** A successful login writes exactly the four admin keys, each truthy
      except possibly the id, and a logout afterwards leaves every other
      key as it was. */
  lemma AdminSessionProperties(items: map<string, string>, email: string, reply: ServerReply)
    ensures var m := AdminSession(items, email, reply);
      && m.Keys == items.Keys + AdminKeys
      && m[AdminLoggedInKey] == "true" && m[AdminEmailKey] == email
      && Present(m, AdminNameKey)
      && (forall k :: k in items && k !in AdminKeys ==> m[k] == items[k])
      && m - AdminKeys == items - AdminKeys
  {
    var m := AdminSession(items, email, reply);
    assert m - AdminKeys == items - AdminKeys;
  }
}
