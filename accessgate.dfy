/** The access gate in front of the protected routes: a bearer token in the
    authorization header, verified with the access secret, for a user that exists. */
module AccessGate {
  import opened Common
  import opened Text
  import opened Auth

  datatype Gate = Pass | Deny(error: ApiError)

  /** `authHeader.split(' ')[1]`: the second space-separated field, if there is one. */
  function BearerToken(header: string): (t: Option<string>)
    ensures t.Some? <==> ' ' in header
    ensures t.Some? ==> ' ' !in t.value
  {
    SplitHasPieces(header, ' ');
    var pieces := Split(header, ' ');
    if |pieces| >= 2 then Some(pieces[1]) else None
  }

  /** The scheme word is skipped and the token ends at the next space. */
  lemma TokenFollowsScheme(scheme: string, token: string, rest: string)
    requires ' ' !in scheme && ' ' !in token
    ensures BearerToken(scheme + " " + token) == Some(token)
    ensures BearerToken(scheme + " " + token + " " + rest) == Some(token)
  {
    SplitAfterPiece(scheme, ' ', token);
    assert Split(token, ' ') == [token] by {
      assert ' ' !in token;
      SplitHasPieces(token, ' ');
      SplitJoin(token, ' ');
    }
    SplitAfterPiece(scheme, ' ', token + " " + rest);
    SplitAfterPiece(token, ' ', rest);
    assert scheme + " " + token + " " + rest == scheme + [' '] + (token + " " + rest);
  }

  /** `jwt.verify(token, JWT_TOKEN)`: a missing or empty token is refused before any
      signature check. */
  function AccessClaims(crypto: Crypto, token: Option<string>): (c: Option<Claims>)
    ensures !Present(token) ==> c.None?
    ensures c.Some? ==> token.Some? && crypto.verify(AccessSecret, token.value) == c
  {
    if Present(token) then crypto.verify(AccessSecret, token.value) else None
  }

  /** The email the request is made for, if the header carries a token that verifies and
      names one. */
  function AccessEmail(crypto: Crypto, header: Option<string>): (e: Option<string>)
    ensures e.Some? ==> e.value != [] && header.Some?
    ensures e.Some? ==>
      BearerToken(header.value).Some? && crypto.verify(AccessSecret, BearerToken(header.value).value) == Some(Claims(e))
  {
    if !Present(header) then None
    else
      var d := AccessClaims(crypto, BearerToken(header.value));
      if d.Some? && Present(d.value.email) then d.value.email else None
  }

  /** `SELECT * FROM users WHERE email = $1`. */
  function RowsWithEmail(users: map<string, User>, email: string): (r: set<string>)
    ensures r <= users.Keys
    ensures forall e :: e in users ==> (e in r <==> users[e].email == email)
  {
    set e | e in users && users[e].email == email
  }

  /** `verifyJWT`: the request goes on exactly when the token names the email of some row;
      it is refused with 401 otherwise.  The table is only read. */
  function VerifyJwt(crypto: Crypto, header: Option<string>, users: map<string, User>): (r: Gate)
    ensures r.Deny? ==> r.error == Unauthorized
    ensures !Present(header) ==> r.Deny?
    ensures r.Pass? <==> exists e :: e in users && Some(users[e].email) == AccessEmail(crypto, header)
  {
    var email := AccessEmail(crypto, header);
    if email.None? then Deny(Unauthorized)
    else
      var rows := RowsWithEmail(users, email.value);
      if rows == {} then
        assert forall e :: e in users ==> Some(users[e].email) != email by {
          forall e | e in users ensures Some(users[e].email) != email {
            assert users[e].email == email.value ==> e in rows;
          }
        }
        Deny(Unauthorized)
      else Pass
  }

  /** Only the token counts: whatever scheme word precedes it, the verdict is the same. */
  lemma SchemeIsIgnored(crypto: Crypto, users: map<string, User>, scheme1: string, scheme2: string, token: string)
    requires ' ' !in scheme1 && ' ' !in scheme2 && ' ' !in token
    ensures VerifyJwt(crypto, Some(scheme1 + " " + token), users) == VerifyJwt(crypto, Some(scheme2 + " " + token), users)
  {
    TokenFollowsScheme(scheme1, token, "");
    TokenFollowsScheme(scheme2, token, "");
    assert |scheme1 + " " + token| > 0 && |scheme2 + " " + token| > 0;
  }

  /** An access token signed for the email of a row passes the gate, as long as the
      token verifies, under any scheme word. */
  lemma IssuedTokenPasses(crypto: Crypto, users: map<string, User>, scheme: string, email: string, now: nat)
    requires email in users && users[email].email == email && email != []
    requires var t := crypto.sign(AccessSecret, email, now); t != [] && ' ' !in t && ' ' !in scheme
    requires crypto.verify(AccessSecret, crypto.sign(AccessSecret, email, now)) == Some(Claims(Some(email)))
    ensures VerifyJwt(crypto, Some(scheme + " " + crypto.sign(AccessSecret, email, now)), users) == Pass
  {
    var t := crypto.sign(AccessSecret, email, now);
    TokenFollowsScheme(scheme, t, "");
    assert |scheme + " " + t| > 0;
    assert AccessEmail(crypto, Some(scheme + " " + t)) == Some(email);
  }

  /** A token that fails verification with the access secret, or decodes to claims without
      an email, is refused with 401 whatever the table holds. */
  lemma FailedVerificationDenies(crypto: Crypto, users: map<string, User>, scheme: string, token: string)
    requires ' ' !in scheme && ' ' !in token
    requires crypto.verify(AccessSecret, token).None? || !Present(crypto.verify(AccessSecret, token).value.email)
    ensures VerifyJwt(crypto, Some(scheme + " " + token), users) == Deny(Unauthorized)
  {
    TokenFollowsScheme(scheme, token, "");
    assert |scheme + " " + token| > 0;
  }

  /** A header without a space carries no token and is refused. */
  lemma NoTokenNoPass(crypto: Crypto, users: map<string, User>, header: string)
    requires ' ' !in header
    ensures VerifyJwt(crypto, Some(header), users) == Deny(Unauthorized)
  {
  }
}
