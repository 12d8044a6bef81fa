/** The `users` collection and the read-only handlers over it: the login route
    (src/app/api/login/route.ts), next-auth's credential `authorize` and the lookup
    behind its `session` callback (lib/auth.ts). */
module Users {
  import opened Wrappers
  import opened Http
  import Collection

  /** A stored user: `_id` (the store's object id), `userId`, plaintext `password`, `email`. */
  datatype UserRecord = UserRecord(oid: nat, userId: string, password: string, email: string)

  const EmailSuffix: string := "@abc.com"

  /** The email registration derives from a user id: `${userId}@abc.com`. */
  function DerivedEmail(userId: string): (email: string)
    ensures |email| == |userId| + 8
    ensures email[..|userId|] == userId && email[|userId|..] == "@abc.com"
  {
    userId + EmailSuffix
  }

  /** What every record written by registration satisfies: unique non-empty user ids,
      a non-empty password and the derived email. */
  ghost predicate WellFormed(users: seq<UserRecord>) {
    && (forall i, j :: 0 <= i < j < |users| ==> users[i].userId != users[j].userId)
    && (forall i :: 0 <= i < |users| ==>
          users[i].userId != "" && users[i].password != "" && users[i].email == DerivedEmail(users[i].userId))
  }

  /** The object ids the store has handed out: increasing in insertion order, and all below
      the next one it will hand out. */
  ghost predicate OidsIncreasing(users: seq<UserRecord>, nextOid: nat) {
    && (forall i, j :: 0 <= i < j < |users| ==> users[i].oid < users[j].oid)
    && (forall i :: 0 <= i < |users| ==> users[i].oid < nextOid)
  }

  /** Filter `{ userId }`. */
  function ByUserId(userId: string): UserRecord -> bool {
    (r: UserRecord) => r.userId == userId
  }

  /** Filter `{ userId, password }`. */
  function ByCredentials(userId: string, password: string): UserRecord -> bool {
    (r: UserRecord) => r.userId == userId && r.password == password
  }

  /** Filter `{ email }`. */
  function ByEmail(email: string): UserRecord -> bool {
    (r: UserRecord) => r.email == email
  }

  /** The cookie the login route attaches: `userEmail`, readable by scripts, path `/`,
      `sameSite: lax`, secure only in production, seven days. */
  function EmailCookie(email: string, production: bool): (c: Cookie)
    ensures c.name == "userEmail" && c.value == email && c.path == "/"
    ensures !c.httpOnly && c.sameSite == "lax" && (c.secure <==> production)
    ensures c.maxAge == 7 * 86400
  {
    Cookie("userEmail", email, "/", false, "lax", production, 60 * 60 * 24 * 7)
  }

  /** POST /api/login. `production` stands for `process.env.NODE_ENV === 'production'`. */
  function Login(users: seq<UserRecord>, userId: Option<string>, password: Option<string>, production: bool): (r: Response)
    ensures r.status in {200, 400, 401}
    ensures r.status == 400 <==> !Truthy(userId) || !Truthy(password)
    ensures r.status == 400 ==> r == JsonStatus(ErrorBody("Missing credentials"), 400)
    ensures r.status == 200 <==>
      Truthy(userId) && Truthy(password) &&
      exists u :: u in users && u.userId == userId.value && u.password == password.value
    ensures r.status == 401 ==> r == JsonStatus(ErrorBody("Invalid credentials"), 401)
    ensures r.status == 200 ==>
      exists u :: u in users && u.userId == userId.value && u.password == password.value &&
        r == Response(200, LoginBody("Login successful", u.email), Some(EmailCookie(u.email, production)))
  {
    if !Truthy(userId) || !Truthy(password) then
      JsonStatus(ErrorBody("Missing credentials"), 400)
    else
      match Collection.FindOne(users, ByCredentials(userId.value, password.value))
      case None => JsonStatus(ErrorBody("Invalid credentials"), 401)
      case Some(u) =>
        Response(200, LoginBody("Login successful", u.email), Some(EmailCookie(u.email, production)))
  }

  /** The credentials next-auth hands to `authorize`. */
  datatype Credentials = Credentials(userId: string, password: string)

  /** The user object `authorize` returns: `id` is the record's `_id` (its `toString()`
      is not modelled). */
  datatype AuthUser = AuthUser(id: nat, email: string)

  /** `authorize(credentials)` of the credentials provider. */
  function Authorize(users: seq<UserRecord>, credentials: Option<Credentials>): (r: Option<AuthUser>)
    ensures credentials.None? ==> r.None?
    ensures r.Some? <==> (credentials.Some? &&
      exists u :: u in users && u.userId == credentials.value.userId && u.password == credentials.value.password)
    ensures r.Some? ==> exists u :: u in users && u.userId == credentials.value.userId &&
                                    u.password == credentials.value.password && r.value == AuthUser(u.oid, u.email)
  {
    match credentials
    case None => None
    case Some(c) =>
      match Collection.FindOne(users, ByCredentials(c.userId, c.password))
      case None => None
      case Some(u) => Some(AuthUser(u.oid, u.email))
  }

  /** The user id the `session` callback attaches for a session email: that of the first
      user with that email, or none. A missing email matches no record. */
  function SessionUserId(users: seq<UserRecord>, email: Option<string>): (r: Option<string>)
    ensures r.Some? <==> email.Some? && exists u :: u in users && u.email == email.value
    ensures r.Some? ==> exists u :: u in users && u.email == email.value && u.userId == r.value
  {
    if email.None? then None
    else match Collection.FindOne(users, ByEmail(email.value))
      case None => None
      case Some(u) => Some(u.userId)
  }

  /** Distinct user ids give distinct derived emails. */
  lemma DerivedEmailInjective(a: string, b: string)
    requires DerivedEmail(a) == DerivedEmail(b)
    ensures a == b
  {
    assert |a| == |b|;
    assert a == DerivedEmail(a)[..|a|];
  }

  /** In a well-formed collection the email identifies its user. */
  lemma {:induction false} EmailIdentifiesUser(users: seq<UserRecord>, i: nat)
    requires WellFormed(users) && i < |users|
    ensures forall j :: 0 <= j < |users| && users[j].email == users[i].email ==> j == i
  {
    forall j | 0 <= j < |users| && users[j].email == users[i].email
      ensures j == i
    {
      DerivedEmailInjective(users[j].userId, users[i].userId);
    }
  }

  /** Logging in and resolving the session by the returned email give back the user id
      that logged in. */
  lemma {:induction false} LoginThenSession(users: seq<UserRecord>, userId: string, password: string, production: bool)
    requires WellFormed(users)
    requires Login(users, Some(userId), Some(password), production).status == 200
    ensures SessionUserId(users, Some(Login(users, Some(userId), Some(password), production).body.email)) == Some(userId)
  {
    var r := Login(users, Some(userId), Some(password), production);
    var u :| u in users && u.userId == userId && u.password == password &&
        r == Response(200, LoginBody("Login successful", u.email), Some(EmailCookie(u.email, production)));
    var i :| 0 <= i < |users| && users[i] == u;
    EmailIdentifiesUser(users, i);
    Collection.FirstIndexIs(users, ByEmail(u.email), i);
  }

  /** In a well-formed collection, `authorize` accepts exactly the pairs the login route
      accepts: registration never stores an empty user id or password, so the login
      route's emptiness check excludes nothing `authorize` could match. */
  lemma AuthorizeAgreesWithLogin(users: seq<UserRecord>, userId: string, password: string, production: bool)
    requires WellFormed(users)
    ensures Authorize(users, Some(Credentials(userId, password))).Some? <==>
            Login(users, Some(userId), Some(password), production).status == 200
  {
    forall u | u in users
      ensures u.userId != "" && u.password != ""
    {
      var i :| 0 <= i < |users| && users[i] == u;
    }
  }

  /** Two users authorized under different user ids get different ids in their sessions. */
  lemma AuthorizeIdsDistinct(users: seq<UserRecord>, nextOid: nat, a: Credentials, b: Credentials)
    requires WellFormed(users) && OidsIncreasing(users, nextOid)
    requires Authorize(users, Some(a)).Some? && Authorize(users, Some(b)).Some?
    requires a.userId != b.userId
    ensures Authorize(users, Some(a)).value.id != Authorize(users, Some(b)).value.id
  {
    var ra, rb := Authorize(users, Some(a)).value, Authorize(users, Some(b)).value;
    var u :| u in users && u.userId == a.userId && u.password == a.password && ra == AuthUser(u.oid, u.email);
    var v :| v in users && v.userId == b.userId && v.password == b.password && rb == AuthUser(v.oid, v.email);
    var i :| 0 <= i < |users| && users[i] == u;
    var j :| 0 <= j < |users| && users[j] == v;
    assert i != j;
  }

  /** Appending the record registration writes for a fresh user id keeps the collection
      well-formed. */
  lemma {:induction false} AppendFreshKeepsWellFormed(users: seq<UserRecord>, rec: UserRecord)
    requires WellFormed(users)
    requires rec.userId != "" && rec.password != "" && rec.email == DerivedEmail(rec.userId)
    requires forall u :: u in users ==> u.userId != rec.userId
    ensures WellFormed(users + [rec])
  {
    var t := users + [rec];
    assert forall i :: 0 <= i < |users| ==> t[i] == users[i] && t[i] in users;
  }

  /** After registration appended the record for `userId`, logging in with the same
      pair succeeds with the derived email. */
  lemma {:induction false} LoginAfterRegister(users: seq<UserRecord>, oid: nat, userId: string, password: string, production: bool)
    requires WellFormed(users)
    requires userId != "" && password != ""
    requires forall u :: u in users ==> u.userId != userId
    ensures Login(users + [UserRecord(oid, userId, password, DerivedEmail(userId))], Some(userId), Some(password), production) ==
      Response(200, LoginBody("Login successful", DerivedEmail(userId)), Some(EmailCookie(DerivedEmail(userId), production)))
  {
    var rec := UserRecord(oid, userId, password, DerivedEmail(userId));
    var p := ByCredentials(userId, password);
    assert forall j :: 0 <= j < |users| ==> !p(users[j]) by {
      forall j | 0 <= j < |users| ensures !p(users[j]) {
        assert users[j] in users;
      }
    }
    Collection.FirstIndexAppend(users, rec, p);
  }
}
