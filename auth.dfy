/** The session manager: registration, login, access-token refresh and logout over the
    user table, the staged profile images and the `jwt` cookie of the client. */
module Auth {
  import opened Common
  import opened Schemas
  import opened Uploads

  /** The two token classes, each signed with its own secret. */
  datatype SecretClass = AccessSecret | RefreshSecret

  /** The payload of a verified token: its email claim, if it carries one. */
  datatype Claims = Claims(email: Option<string>)

  /** The foreign libraries, as oracles.
      - `hash(plain)` is bcrypt's salted hash, `compare(plain, digest)` its check;
      - `sign(secret, email, now)` is `jwt.sign({ email }, secret, { expiresIn })` at the
        instant `now`, which the token embeds;
      - `verify(secret, token)` is `jwt.verify`: the claims, or None for a bad signature,
        a malformed token or an expired one. */
  datatype Crypto = Crypto(
    hash: string -> string,
    compare: (string, string) -> bool,
    sign: (SecretClass, string, nat) -> string,
    verify: (SecretClass, string) -> Option<Claims>)

  /** A row of the users table; `refreshToken` is the single token slot. */
  datatype User = User(id: string, username: string, email: string, password: string,
                       userImagePath: Option<string>, refreshToken: Option<string>, role: string)

  /** What a client is shown of a row. */
  datatype UserView = UserView(id: string, username: string, email: string,
                               userImagePath: Option<string>, role: string)

  /** The row without password and refresh token: the `RETURNING id, username, email,
      userImagePath, role` of register and login, and the row after `delete` of the two fields. */
  function Public(u: User): (v: UserView)
    ensures WithSecrets(v, u.password, u.refreshToken) == u
  {
    UserView(u.id, u.username, u.email, u.userImagePath, u.role)
  }

  function WithSecrets(v: UserView, password: string, refreshToken: Option<string>): User
  {
    User(v.id, v.username, v.email, password, v.userImagePath, refreshToken, v.role)
  }

  /** The projection drops the password and the refresh token and keeps every other field. */
  lemma PublicKeepsTheRest(u: User)
    ensures WithSecrets(Public(u), u.password, u.refreshToken) == u
    ensures forall password, token :: Public(u.(password := password, refreshToken := token)) == Public(u)
  {
  }

  datatype SameSite = Strict | NoneMode

  datatype CookieOptions = CookieOptions(secure: bool, httpOnly: bool, maxAgeMs: Option<nat>, sameSite: SameSite)

  /** Three days, in milliseconds. */
  const RefreshCookieMaxAge: nat := 3 * 24 * 60 * 60 * 1000

  /** The options of `res.cookie('jwt', ...)` in register and login. */
  const SetOptions := CookieOptions(true, true, Some(RefreshCookieMaxAge), Strict)

  /** The options of `res.clearCookie('jwt', ...)` in logout. */
  const ClearOptions := CookieOptions(true, true, None, NoneMode)

  /** The last instruction about the `jwt` cookie sent to the client. */
  datatype CookieOp = Untouched | SetJwt(value: string, options: CookieOptions) | ClearJwt(options: CookieOptions)

  /** A successful answer: the user projection and an access token. */
  datatype Session = Session(user: UserView, token: string)

  /** Logout answers 204 without a cookie, and `{ message: 'cookie cleared', token: null }` with one. */
  datatype LogoutReply = NoContent | CookieCleared

  const InvalidCredentials := ApiError("Invalid credentials", 400)
  const UserExists := ApiError("User already exists", 409)
  const EmailNotFound := ApiError("Email not found", 404)
  const WrongPassword := ApiError("Wrong email/password", 400)
  const Prohibited := ApiError("Prohibited", 403)
  const InvalidUser := ApiError("INVALID USER", 403)
  const Unauthorized := ApiError("Unauthorized", 401)

  /** The table is keyed by email. */
  ghost predicate KeyedByEmail(users: map<string, User>)
  {
    forall e :: e in users ==> users[e].email == e
  }

  /** `SELECT * FROM users WHERE refreshToken = $1`: the rows whose slot holds exactly `token`. */
  function MatchingRows(users: map<string, User>, token: string): (r: set<string>)
    ensures r <= users.Keys
    ensures forall e :: e in users ==> (e in r <==> users[e].refreshToken == Some(token))
  {
    set e | e in users && users[e].refreshToken == Some(token)
  }

  /** The token verifies with the refresh secret and claims exactly `email`. */
  predicate RefreshAccepted(crypto: Crypto, token: string, email: string)
  {
    var d := crypto.verify(RefreshSecret, token);
    d.Some? && d.value.email == Some(email)
  }

  /** The table after `UPDATE users SET refreshToken = $1 WHERE email = $2`. */
  function Rotated(users: map<string, User>, email: string, token: string): (r: map<string, User>)
    requires email in users
    ensures r.Keys == users.Keys
    ensures r[email] == users[email].(refreshToken := Some(token))
    ensures forall e :: e in users && e != email ==> r[e] == users[e]
  {
    users[email := users[email].(refreshToken := Some(token))]
  }

  /** Rotation by overwrite: afterwards the row matches the new token and no other; every
      other row matches what it matched before. */
  lemma RotationRevokes(users: map<string, User>, email: string, token: string, other: string)
    requires email in users && other != token
    ensures MatchingRows(Rotated(users, email, token), token) == MatchingRows(users, token) + {email}
    ensures MatchingRows(Rotated(users, email, token), other) == MatchingRows(users, other) - {email}
  {
    var after := Rotated(users, email, token);
    assert MatchingRows(after, token) == MatchingRows(users, token) + {email} by {
      forall e | e in MatchingRows(users, token) + {email} ensures e in MatchingRows(after, token) {
        assert e in after;
      }
    }
    assert MatchingRows(after, other) == MatchingRows(users, other) - {email} by {
      forall e | e in MatchingRows(users, other) - {email} ensures e in MatchingRows(after, other) {
        assert e in after && after[e] == users[e];
      }
    }
  }

  class SessionManager {
    /** The users table, by email. */
    var users: map<string, User>
    /** Files the upload layer has written to the profile-image directory. */
    var staged: set<string>
    /** The last `jwt` cookie instruction sent to the client. */
    var cookie: CookieOp

    const crypto: Crypto
    /** The email format check of `z.string().email()`. */
    const isEmail: string -> bool
    /** The role the database gives a new row. */
    const defaultRole: string

    ghost predicate Valid()
      reads this
    {
      KeyedByEmail(users)
    }

    constructor (crypto: Crypto, isEmail: string -> bool, defaultRole: string)
      ensures Valid() && users == map[] && staged == {} && cookie == Untouched
      ensures this.crypto == crypto && this.isEmail == isEmail && this.defaultRole == defaultRole
    {
      this.crypto := crypto;
      this.isEmail := isEmail;
      this.defaultRole := defaultRole;
      users := map[];
      staged := {};
      cookie := Untouched;
    }

    /** The upload layer writes an accepted file into the directory before the handler runs. */
    method Stage(path: string)
      requires Valid()
      modifies this`staged
      ensures Valid()
      ensures staged == old(staged) + {path}
    {
      staged := staged + {path};
    }

    /** `POST /register`.  `file` is the path of the staged image, `newId` the generated
        identifier and `now` the signing instant. */
    method Register(username: Raw, email: Raw, password: Raw, file: Option<string>, newId: string, now: nat)
      returns (r: Result<Session>)
      requires Valid()
      modifies this`users, this`staged, this`cookie
      ensures Valid()
      ensures var v := RegistrationProps(username, email, password, isEmail);
        if v.None? then
          r == Err(InvalidCredentials) && users == old(users)
          && staged == Discard(old(staged), file) && cookie == old(cookie)
        else if v.value.email in old(users) then
          r == Err(UserExists) && users == old(users)
          && staged == Discard(old(staged), file) && cookie == old(cookie)
        else
          var d := v.value;
          var refreshToken := crypto.sign(RefreshSecret, d.email, now);
          var row := User(newId, d.username, d.email, crypto.hash(d.password), file, Some(refreshToken), defaultRole);
          users == old(users)[d.email := row] && users.Keys == old(users).Keys + {d.email}
          && staged == old(staged) && cookie == SetJwt(refreshToken, SetOptions)
          && r == Ok(Session(Public(row), crypto.sign(AccessSecret, d.email, now)))
    {
      var validated := RegistrationProps(username, email, password, isEmail);
      if validated.None? {
        staged := Discard(staged, file);
        return Err(InvalidCredentials);
      }
      var data := validated.value;
      if data.email in users {
        staged := Discard(staged, file);
        return Err(UserExists);
      }
      var hashedPassword := crypto.hash(data.password);
      var token := crypto.sign(AccessSecret, data.email, now);
      var refreshToken := crypto.sign(RefreshSecret, data.email, now);
      var row := User(newId, data.username, data.email, hashedPassword, file, Some(refreshToken), defaultRole);
      users := users[data.email := row];
      cookie := SetJwt(refreshToken, SetOptions);
      r := Ok(Session(Public(row), token));
    }

    /** `POST /login`. */
    method Login(email: Raw, password: Raw, now: nat) returns (r: Result<Session>)
      requires Valid()
      modifies this`users, this`cookie
      ensures Valid()
      ensures var v := LoginProps(password, email, isEmail);
        if v.None? then
          r == Err(InvalidCredentials) && users == old(users) && cookie == old(cookie)
        else if v.value.email !in old(users) then
          r == Err(EmailNotFound) && users == old(users) && cookie == old(cookie)
        else if !crypto.compare(v.value.password, old(users)[v.value.email].password) then
          r == Err(WrongPassword) && users == old(users) && cookie == old(cookie)
        else
          var refreshToken := crypto.sign(RefreshSecret, v.value.email, now);
          users == Rotated(old(users), v.value.email, refreshToken)
          && cookie == SetJwt(refreshToken, SetOptions)
          && r == Ok(Session(Public(users[v.value.email]), crypto.sign(AccessSecret, v.value.email, now)))
    {
      var validated := LoginProps(password, email, isEmail);
      if validated.None? {
        return Err(InvalidCredentials);
      }
      var data := validated.value;
      if data.email !in users {
        return Err(EmailNotFound);
      }
      if !crypto.compare(data.password, users[data.email].password) {
        return Err(WrongPassword);
      }
      var token := crypto.sign(AccessSecret, data.email, now);
      var refreshToken := crypto.sign(RefreshSecret, data.email, now);
      users := users[data.email := users[data.email].(refreshToken := Some(refreshToken))];
      cookie := SetJwt(refreshToken, SetOptions);
      r := Ok(Session(Public(users[data.email]), token));
    }

    /** `POST /refresh`, given the `jwt` cookie of the request.  It writes nothing: the
        method has no frame.  When several rows hold the cookie value the database gives
        any one of them, so the method chooses one. */
    method Refresh(jwtCookie: Option<string>, now: nat) returns (r: Result<Session>)
      requires Valid()
      ensures r == Err(Prohibited) <==> !Present(jwtCookie)
      ensures r == Err(InvalidUser) <==> Present(jwtCookie) && MatchingRows(users, jwtCookie.value) == {}
      ensures r.Ok? ==>
        Present(jwtCookie) && r.value.user.email in MatchingRows(users, jwtCookie.value)
        && RefreshAccepted(crypto, jwtCookie.value, r.value.user.email)
        && r.value == Session(Public(users[r.value.user.email]), crypto.sign(AccessSecret, r.value.user.email, now))
      ensures r.Err? ==> r.error in {Prohibited, InvalidUser, Unauthorized}
      ensures r == Err(Unauthorized) ==>
        Present(jwtCookie) && exists e :: e in MatchingRows(users, jwtCookie.value) && !RefreshAccepted(crypto, jwtCookie.value, e)
      ensures (Present(jwtCookie) && MatchingRows(users, jwtCookie.value) != {}
               && forall e :: e in MatchingRows(users, jwtCookie.value) ==> RefreshAccepted(crypto, jwtCookie.value, e))
        ==> r.Ok?
      ensures (Present(jwtCookie) && MatchingRows(users, jwtCookie.value) != {}
               && forall e :: e in MatchingRows(users, jwtCookie.value) ==> !RefreshAccepted(crypto, jwtCookie.value, e))
        ==> r == Err(Unauthorized)
    {
      if !Present(jwtCookie) {
        return Err(Prohibited);
      }
      var token := jwtCookie.value;
      var rows := MatchingRows(users, token);
      var email := "";
      if rows != {} {
        email :| email in rows;
      }
      if rows == {} || !Present(users[email].refreshToken) {
        return Err(InvalidUser);
      }
      var row := users[email];
      var decoded := crypto.verify(RefreshSecret, token);
      if decoded.None? || decoded.value.email != Some(row.email) {
        return Err(Unauthorized);
      }
      r := Ok(Session(Public(row), crypto.sign(AccessSecret, row.email, now)));
    }

    /** `POST /logout`, given the `jwt` cookie of the request.  Only the client's cookie is
        cleared: the stored refresh token stays, so the row still matches it. */
    method Logout(jwtCookie: Option<string>) returns (r: LogoutReply)
      requires Valid()
      modifies this`cookie
      ensures Valid()
      ensures !Present(jwtCookie) ==> r == NoContent && cookie == old(cookie)
      ensures Present(jwtCookie) ==> r == CookieCleared && cookie == ClearJwt(ClearOptions)
    {
      if !Present(jwtCookie) {
        return NoContent;
      }
      cookie := ClearJwt(ClearOptions);
      r := CookieCleared;
    }
  }
}
