/** Whole sessions against a fresh session manager: what a client that registers, logs in,
    logs out and refreshes observes. */
module Scenarios {
  import opened Common
  import opened Schemas
  import opened Auth
  import opened AccessGate

  /** Logging out clears only the client's cookie: a client that kept the refresh token
      can still refresh with it afterwards. */
  method LogoutKeepsRefreshWorking(crypto: Crypto, isEmail: string -> bool, role: string,
                                   username: Raw, email: Raw, password: Raw, file: Option<string>,
                                   newId: string, now: nat, later: nat)
    returns (registered: Result<Session>, loggedOut: LogoutReply, refreshed: Result<Session>)
    requires RegistrationProps(username, email, password, isEmail).Some?
    requires var e := RegistrationProps(username, email, password, isEmail).value.email;
      var t := crypto.sign(RefreshSecret, e, now);
      t != [] && RefreshAccepted(crypto, t, e)
    ensures var e := RegistrationProps(username, email, password, isEmail).value.email;
      registered.Ok? && loggedOut == CookieCleared && refreshed.Ok?
      && refreshed.value == Session(registered.value.user, crypto.sign(AccessSecret, e, later))
  {
    var d := RegistrationProps(username, email, password, isEmail).value;
    var m := new SessionManager(crypto, isEmail, role);
    registered := m.Register(username, email, password, file, newId, now);
    var token := crypto.sign(RefreshSecret, d.email, now);
    assert m.users.Keys == {d.email};
    assert MatchingRows(m.users, token) == {d.email};
    loggedOut := m.Logout(Some(token));
    refreshed := m.Refresh(Some(token), later);
  }

  /** Logging in again overwrites the token slot: the refresh token of the first session
      no longer matches any row, and refreshing with it is refused. */
  method LoginRevokesEarlierRefresh(crypto: Crypto, isEmail: string -> bool, role: string,
                                    username: Raw, email: Raw, password: Raw, file: Option<string>,
                                    newId: string, now: nat, later: nat)
    returns (registered: Result<Session>, loggedIn: Result<Session>, stale: Result<Session>)
    requires RegistrationProps(username, email, password, isEmail).Some?
    requires var d := RegistrationProps(username, email, password, isEmail).value;
      crypto.compare(d.password, crypto.hash(d.password))
      && crypto.sign(RefreshSecret, d.email, now) != []
      && crypto.sign(RefreshSecret, d.email, later) != crypto.sign(RefreshSecret, d.email, now)
    ensures registered.Ok? && loggedIn.Ok? && stale == Err(InvalidUser)
    ensures loggedIn.value.user == registered.value.user
  {
    var d := RegistrationProps(username, email, password, isEmail).value;
    RegistrationPassesLogin(username, email, password, isEmail);
    var m := new SessionManager(crypto, isEmail, role);
    registered := m.Register(username, email, password, file, newId, now);
    var first := crypto.sign(RefreshSecret, d.email, now);
    loggedIn := m.Login(email, password, later);
    assert m.users.Keys == {d.email};
    assert MatchingRows(m.users, first) == {};
    stale := m.Refresh(Some(first), later);
  }

  /** The access token handed out at registration opens the access gate, once the row
      exists, as long as the token verifies. */
  method RegisteredTokenOpensGate(crypto: Crypto, isEmail: string -> bool, role: string,
                                  username: Raw, email: Raw, password: Raw, file: Option<string>,
                                  newId: string, now: nat)
    returns (registered: Result<Session>, gate: Gate)
    requires RegistrationProps(username, email, password, isEmail).Some?
    requires var e := RegistrationProps(username, email, password, isEmail).value.email;
      var t := crypto.sign(AccessSecret, e, now);
      e != [] && t != [] && ' ' !in t && crypto.verify(AccessSecret, t) == Some(Claims(Some(e)))
    ensures registered.Ok? && gate == Pass
  {
    var d := RegistrationProps(username, email, password, isEmail).value;
    var m := new SessionManager(crypto, isEmail, role);
    registered := m.Register(username, email, password, file, newId, now);
    var t := crypto.sign(AccessSecret, d.email, now);
    assert registered.Ok? && registered.value.token == t;
    assert d.email in m.users && m.users[d.email].email == d.email;
    IssuedTokenPasses(crypto, m.users, "Bearer", d.email, now);
    assert "Bearer " + t == "Bearer" + " " + t;
    gate := VerifyJwt(crypto, Some("Bearer " + registered.value.token), m.users);
  }
}
