/** Authentication and the account routes of the server: reading the bearer
    token, the role gate, registration, login and admin login. Token signing and
    checking (JWT) and password hashing (bcrypt) are library code and enter as
    function parameters. */
module Auth {
  import opened Basics
  import opened Text
  import opened Store

  const Listener := "listener"
  const Artist := "artist"
  const Admin := "admin"

  // ------------------------------------------------------------ bearer token

  /** `authHeader && authHeader.split(" ")[1]`, kept only when truthy: the second
      space-separated field of the header, whatever the first one says. */
  function BearerToken(header: Option<string>): (t: Option<string>)
    ensures t.Some? ==> t.value != "" && SpaceFree(t.value)
    ensures t.Some? ==> header.Some? && |Split(header.value)| >= 2 && Split(header.value)[1] == t.value
    ensures t.None? && header.Some? && |Split(header.value)| >= 2 ==> Split(header.value)[1] == ""
  {
    if header.None? then None
    else
      var fields := Split(header.value);
      SplitFieldsSpaceFree(header.value);
      if |fields| >= 2 && fields[1] != "" then Some(fields[1]) else None
  }

  /** The field after the first space is the token, whatever the scheme word
      before it is: "Bearer", "Basic" or anything else without a space. */
  lemma TokenAfterAnyScheme(scheme: string, token: string)
    requires SpaceFree(scheme) && SpaceFree(token) && token != ""
    ensures BearerToken(Some(scheme + " " + token)) == Some(token)
  {
    SplitAfterWord(scheme, token);
    SplitSpaceFree(token);
  }

  /** A header without any space carries no token. */
  lemma NoSpaceNoToken(header: string)
    requires SpaceFree(header)
    ensures BearerToken(Some(header)).None?
  {
    SplitSpaceFree(header);
  }

  /** The outcome of a middleware: the request is answered here, or it goes on
      with the user decoded from the token. */
  datatype Gate = Reject(reply: Reply) | Admit(user: Claims)

  const MissingToken := Reply(401, Error("Access token required"))
  const BadToken := Reply(403, Error("Invalid or expired token"))

  /** `authenticateToken`: 401 without a token, 403 when the token does not
      verify, otherwise the decoded payload is attached to the request. */
  function Authenticate(header: Option<string>, verify: string -> Option<Claims>): (g: Gate)
    ensures BearerToken(header).None? <==> g == Reject(MissingToken)
    ensures g.Admit? <==> BearerToken(header).Some? && verify(BearerToken(header).value).Some?
    ensures g.Admit? ==> g.user == verify(BearerToken(header).value).value
    ensures g.Reject? ==> g.reply == MissingToken || g.reply == BadToken
  {
    match BearerToken(header)
    case None => Reject(MissingToken)
    case Some(t) =>
      match verify(t)
      case None => Reject(BadToken)
      case Some(c) => Admit(c)
  }

  /** A token the library signed and can verify back admits its payload,
      whatever word precedes it in the header. */
  lemma {:induction false} SignedTokenAdmits(
    c: Claims, scheme: string, sign: Claims -> string, verify: string -> Option<Claims>)
    requires verify(sign(c)) == Some(c)
    requires sign(c) != "" && SpaceFree(sign(c)) && SpaceFree(scheme)
    ensures Authenticate(Some(scheme + " " + sign(c)), verify) == Admit(c)
  {
    TokenAfterAnyScheme(scheme, sign(c));
  }

  datatype Verdict = Pass | Deny(reply: Reply)

  const Forbidden := Reply(403, Error("Access denied. Insufficient permissions."))

  /** `authorizeRoles(...roles)`: the request passes only with a user whose role
      is one of `roles`; otherwise 403. */
  function AuthorizeRoles(user: Option<Claims>, roles: seq<string>): (v: Verdict)
    ensures v.Pass? <==> user.Some? && user.value.role in roles
    ensures v.Deny? ==> v.reply.status == 403 && v.reply == Forbidden
  {
    if user.Some? && user.value.role in roles then Pass else Deny(Forbidden)
  }

  /** The two middlewares in sequence, as routes restricted by role use them. */
  function Guard(header: Option<string>, verify: string -> Option<Claims>, roles: seq<string>): (g: Gate)
    ensures g.Admit? <==> Authenticate(header, verify).Admit? && Authenticate(header, verify).user.role in roles
    ensures g.Admit? ==> g == Authenticate(header, verify)
    ensures g.Reject? ==> g.reply.status in {401, 403}
    ensures Authenticate(header, verify).Reject? ==> g == Authenticate(header, verify)
    ensures Authenticate(header, verify).Admit? && Authenticate(header, verify).user.role !in roles ==>
      g == Reject(Forbidden)
  {
    match Authenticate(header, verify)
    case Reject(reply) => Reject(reply)
    case Admit(c) =>
      match AuthorizeRoles(Some(c), roles)
      case Deny(reply) => Reject(reply)
      case Pass => Admit(c)
  }

  // ------------------------------------------------------------ registration

  /** The body of a registration request; any field may be absent. */
  datatype RegisterForm = RegisterForm(
    username: Option<string>,
    email: Option<string>,
    password: Option<string>,
    role: Option<string>,
    displayName: Option<string>)

  /** The only roles a visitor may pick for themselves. */
  predicate SelfServiceRole(role: Option<string>) {
    role == Some(Listener) || role == Some(Artist)
  }

  /** Some account already has this username or this email. */
  predicate Taken(users: seq<User>, username: string, email: string) {
    exists i :: 0 <= i < |users| && (users[i].username == username || users[i].email == email)
  }

  const BadRole := Reply(400, Error("Invalid role. Must be listener or artist."))
  const Duplicate := Reply(400, Error("Username or email already exists"))

  /** `POST /api/auth/register`. The role is checked first (400, before any
      hashing). A missing password makes hashing throw (500); a missing username
      or email violates NOT NULL (500); a taken username or email violates
      UNIQUE (400). Otherwise the account is inserted with the next id and a
      display name defaulting to the username, and a token for it is returned. */
  function Register(db: Db, form: RegisterForm, hash: string -> string, sign: Claims -> string): (out: (Reply, Db))
    ensures !SelfServiceRole(form.role) ==> out == (BadRole, db)
    ensures out.0.status != 201 ==> out.1 == db
    ensures out.0.status == 201 <==>
      SelfServiceRole(form.role) && form.password.Some? && form.username.Some? && form.email.Some? &&
      !Taken(db.users, form.username.value, form.email.value)
    ensures out.0.status == 201 ==>
      var name := form.username.value;
      var u := User(db.nextUserId, name, form.email.value, hash(form.password.value),
                    form.role.value, OrElse(form.displayName, name));
      && out.1 == db.(users := db.users + [u], nextUserId := db.nextUserId + 1)
      && out.0.body == Session("User registered successfully", sign(ClaimsOf(u)), ProfileOf(u))
    ensures (SelfServiceRole(form.role) && form.username.Some? && form.email.Some? && form.password.Some? &&
             Taken(db.users, form.username.value, form.email.value)) ==> out == (Duplicate, db)
    ensures SelfServiceRole(form.role) && (form.username.None? || form.email.None? || form.password.None?) ==>
      out.0.status == 500 && out.1 == db
    ensures Admins(out.1.users) == Admins(db.users)
  {
    if !SelfServiceRole(form.role) then (BadRole, db)
    else if form.password.None? then (Reply(500, Error("Server error")), db)
    else if form.username.None? || form.email.None? then (Reply(500, Error("Registration failed")), db)
    else if Taken(db.users, form.username.value, form.email.value) then (Duplicate, db)
    else
      var name := form.username.value;
      var u := User(db.nextUserId, name, form.email.value, hash(form.password.value),
                    form.role.value, OrElse(form.displayName, name));
      var users' := db.users + [u];
      assert Admins(users') == Admins(db.users) by {
        assert forall i :: 0 <= i < |users'| && users'[i].role == Admin ==> i < |db.users|;
        assert forall i :: 0 <= i < |db.users| ==> users'[i] == db.users[i];
      }
      (Reply(201, Session("User registered successfully", sign(ClaimsOf(u)), ProfileOf(u))),
       db.(users := users', nextUserId := db.nextUserId + 1))
  }

  /** Registration keeps usernames and emails unique. */
  lemma RegisterKeepsLoginsUnique(db: Db, form: RegisterForm, hash: string -> string, sign: Claims -> string)
    requires UniqueLogins(db.users)
    ensures UniqueLogins(Register(db, form, hash, sign).1.users)
  {
  }

  // ------------------------------------------------------------ login

  /** The row the lookup `WHERE username = ? OR email = ?` (optionally also
      `AND role = 'admin'`) returns first, by position. */
  function FirstMatch(users: seq<User>, ident: string, adminOnly: bool): (k: Option<nat>)
    ensures k.Some? ==> k.value < |users| && Matches(users[k.value], ident, adminOnly)
    ensures k.Some? ==> forall i :: 0 <= i < k.value ==> !Matches(users[i], ident, adminOnly)
    ensures k.None? ==> forall i :: 0 <= i < |users| ==> !Matches(users[i], ident, adminOnly)
    decreases |users|
  {
    if |users| == 0 then None
    else if Matches(users[0], ident, adminOnly) then Some(0)
    else
      match FirstMatch(users[1..], ident, adminOnly)
      case None => None
      case Some(k) => Some(k + 1)
  }

  predicate Matches(u: User, ident: string, adminOnly: bool) {
    (u.username == ident || u.email == ident) && (!adminOnly || u.role == Admin)
  }

  /** The lookup shared by both login routes. A missing identifier binds NULL,
      which equals nothing, so no row is found. Unknown account and wrong
      password give the same `denied` reply. */
  function SignIn(
    db: Db, ident: Option<string>, password: string, adminOnly: bool,
    compare: (string, string) -> bool, sign: Claims -> string,
    denied: Reply, welcome: string): (r: Reply)
    requires denied.status != 200
    ensures r.status == 200 <==>
      ident.Some? && FirstMatch(db.users, ident.value, adminOnly).Some? &&
      compare(password, db.users[FirstMatch(db.users, ident.value, adminOnly).value].passwordHash)
    ensures r.status != 200 ==> r == denied
    ensures r.status == 200 ==>
      var u := db.users[FirstMatch(db.users, ident.value, adminOnly).value];
      r.body == Session(welcome, sign(ClaimsOf(u)), ProfileOf(u))
  {
    if ident.None? then denied
    else
      match FirstMatch(db.users, ident.value, adminOnly)
      case None => denied
      case Some(k) =>
        var u := db.users[k];
        if !compare(password, u.passwordHash) then denied
        else Reply(200, Session(welcome, sign(ClaimsOf(u)), ProfileOf(u)))
  }

  const InvalidCredentials := Reply(401, Error("Invalid credentials"))
  const InvalidAdminCredentials := Reply(401, Error("Invalid admin credentials"))

  /** `POST /api/auth/login`: the identifier may be a username or an email. */
  function Login(db: Db, ident: Option<string>, password: string,
                 compare: (string, string) -> bool, sign: Claims -> string): (r: Reply)
    ensures r.status == 200 || r == InvalidCredentials
    ensures r.status == 200 ==>
      && ident.Some? && r.body.Session?
      && (exists i :: 0 <= i < |db.users| &&
            Matches(db.users[i], ident.value, false) && compare(password, db.users[i].passwordHash) &&
            r.body.token == sign(ClaimsOf(db.users[i])))
  {
    SignIn(db, ident, password, false, compare, sign, InvalidCredentials, "Login successful")
  }

  /** `POST /api/auth/admin-login`: as login, but only admin accounts are looked up. */
  function AdminLogin(db: Db, ident: Option<string>, password: string,
                      compare: (string, string) -> bool, sign: Claims -> string): (r: Reply)
    ensures r.status == 200 || r == InvalidAdminCredentials
    ensures r.status == 200 ==> r.body.Session? && r.body.user.role == Admin
  {
    SignIn(db, ident, password, true, compare, sign, InvalidAdminCredentials, "Admin login successful")
  }

  /** An unknown account and a wrong password are answered identically. */
  lemma LoginFailuresIndistinguishable(
    db: Db, ident: string, password: string, compare: (string, string) -> bool, sign: Claims -> string)
    requires FirstMatch(db.users, ident, false).Some?
    requires !compare(password, db.users[FirstMatch(db.users, ident, false).value].passwordHash)
    ensures Login(db, Some(ident), password, compare, sign) ==
            Login(db.(users := []), Some(ident), password, compare, sign)
  {
  }

  /** When the account plain login finds is an admin, admin login finds the same
      account and issues the same token. */
  lemma AdminLoginAgrees(
    db: Db, ident: string, password: string, compare: (string, string) -> bool, sign: Claims -> string)
    requires FirstMatch(db.users, ident, false).Some?
    requires db.users[FirstMatch(db.users, ident, false).value].role == Admin
    ensures AdminLogin(db, Some(ident), password, compare, sign).status ==
            Login(db, Some(ident), password, compare, sign).status
    ensures Login(db, Some(ident), password, compare, sign).status == 200 ==>
      AdminLogin(db, Some(ident), password, compare, sign).body.token ==
      Login(db, Some(ident), password, compare, sign).body.token
  {
  }

  /** The first row matching the identifier, if it is an admin, is also the
      first admin row matching it. */
  lemma FirstMatchAdmin(users: seq<User>, ident: string, k: nat)
    requires FirstMatch(users, ident, false) == Some(k) && users[k].role == Admin
    ensures FirstMatch(users, ident, true) == Some(k)
  {
  }

  // ------------------------------------------------------------ current user

  /** The first account with this id (`SELECT ... FROM users WHERE id = ?`). */
  function FindUser(users: seq<User>, id: int): (u: Option<User>)
    ensures u.Some? ==> u.value in users && u.value.id == id
    ensures u.None? ==> forall v :: v in users ==> v.id != id
    decreases |users|
  {
    if |users| == 0 then None
    else if users[0].id == id then Some(users[0])
    else FindUser(users[1..], id)
  }

  const UserNotFound := Reply(404, Error("User not found"))

  /** `GET /api/auth/me`: the stored account of the token's user id. The role
      reported is the stored one, not the one in the token. */
  function Me(db: Db, header: Option<string>, verify: string -> Option<Claims>): (r: Reply)
    ensures r.status == 200 <==>
      && Authenticate(header, verify).Admit?
      && (exists u :: u in db.users && u.id == Authenticate(header, verify).user.id)
    ensures r.status == 200 ==>
      && r.body.Account?
      && (exists u :: u in db.users && u.id == Authenticate(header, verify).user.id && r.body.user == ProfileOf(u))
    ensures Authenticate(header, verify).Reject? ==> r == Authenticate(header, verify).reply
    ensures (Authenticate(header, verify).Admit? &&
             (forall u :: u in db.users ==> u.id != Authenticate(header, verify).user.id)) ==> r == UserNotFound
  {
    match Authenticate(header, verify)
    case Reject(reply) => reply
    case Admit(c) =>
      match FindUser(db.users, c.id)
      case None => UserNotFound
      case Some(u) => Reply(200, Account(ProfileOf(u)))
  }
}
