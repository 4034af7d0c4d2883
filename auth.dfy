/**
 * Credential checking and token handling: logging in fails softly (no user rather than an
 * error), a token carries exactly the user's id and username, and checking a token tells a
 * missing user (404) apart from every other failure (401).
 */
module Auth {
  import opened Outcomes
  import opened Crypto
  import opened Models
  import opened Store

  const CredentialsRefused: string := "Invalid username or password"
  const UserGone: string := "User no longer exists"
  const TokenRefused: string := "Invalid or expired token"

  /** `authenticate_user`: the user when the name exists and the password verifies against the
      stored hash, and None (the source's `False`) in every other case. Where passlib would
      raise (a NUL character, more than 4096 bytes) the model still gives a value. */
  function AuthenticateUser(users: Users, username: string, password: string): (r: Option<User>)
    requires UserKeys(users) && UniqueUsernames(users)
    ensures r.Some? <==>
      exists id :: id in users && users[id].username == username && Verify(password, users[id].password)
    ensures r.Some? ==> r.value.id in users && users[r.value.id] == r.value && r.value.username == username
  {
    match UserNamed(users, username)
    case None => None
    case Some(u) => if Verify(password, u.password) then Some(u) else None
  }

  /** The token issued for a user, both at login and in the verification e-mail: its payload is
      the user's id and username and nothing else (no expiry claim), signed with HS256. */
  function MintToken(u: User, secret: Secret): (t: Token)
    ensures Decode(t, secret, [HS256]) == Some(Claims(u.id, u.username))
    ensures forall other :: other != secret ==> Decode(t, other, [HS256]).None?
  {
    Encode(Claims(u.id, u.username), secret)
  }

  /** `token_generator`: 401 exactly when authentication fails, otherwise the token minted for
      the user whose name and password were given. */
  function TokenGenerator(users: Users, username: string, password: string, secret: Secret): (r: Reply<Token>)
    requires UserKeys(users) && UniqueUsernames(users)
    ensures r.Ok? || r == Raise(Unauthorized, CredentialsRefused)
    ensures r.Ok? <==> AuthenticateUser(users, username, password).Some?
    ensures r.Ok? ==> exists id :: id in users && users[id].username == username
                        && Verify(password, users[id].password) && r.data == MintToken(users[id], secret)
  {
    match AuthenticateUser(users, username, password)
    case None => Raise(Unauthorized, CredentialsRefused)
    case Some(u) => Ok(MintToken(u, secret))
  }

  /** A token this server signed: it decodes under the server's secret. */
  predicate SignedBy(t: Token, secret: Secret) {
    t.Jws? && t == Encode(t.claims, secret)
  }

  /** `very_token`: the user a server-signed token names; 404 when the token is signed but its
      user id is not in the table; 401 for every other token. */
  function VeryToken(users: Users, token: Token, secret: Secret): (r: Reply<User>)
    ensures r.Ok? <==> SignedBy(token, secret) && token.claims.id in users
    ensures r.Ok? ==> r.data == users[token.claims.id]
    ensures r == Raise(NotFound, UserGone) <==> SignedBy(token, secret) && token.claims.id !in users
    ensures !SignedBy(token, secret) ==> r == Raise(Unauthorized, TokenRefused)
  {
    match Decode(token, secret, [HS256])
    case None => Raise(Unauthorized, TokenRefused)
    case Some(c) => if c.id in users then Ok(users[c.id]) else Raise(NotFound, UserGone)
  }

  /** A token issued at login resolves back to the user who logged in. */
  lemma LoginTokenResolves(users: Users, username: string, password: string, secret: Secret)
    requires UserKeys(users) && UniqueUsernames(users)
    requires TokenGenerator(users, username, password, secret).Ok?
    ensures VeryToken(users, TokenGenerator(users, username, password, secret).data, secret)
            == Ok(AuthenticateUser(users, username, password).value)
  {
    var u := AuthenticateUser(users, username, password).value;
    assert TokenGenerator(users, username, password, secret).data == MintToken(u, secret);
  }

  /** A token for a user who is not (or no longer) in the table gives 404, while the same
      payload signed with another key gives 401. */
  lemma MissingUserAndForgeryDiffer(users: Users, u: User, secret: Secret, other: Secret)
    requires u.id !in users && other != secret
    ensures VeryToken(users, MintToken(u, secret), secret) == Raise(NotFound, UserGone)
    ensures VeryToken(users, MintToken(u, other), secret) == Raise(Unauthorized, TokenRefused)
  {
  }

  /** After a registration inserts a user, logging in with the registered password finds that
      user. Any other password finds them exactly when it agrees with the registered one on its
      first 72 characters, and is refused otherwise. */
  lemma RegisteredUserCanLogIn(users: Users, input: UserIn, salt: Salt, now: int, id: nat)
    requires UserKeys(users) && UniqueUsernames(users) && UserInValid(input)
    requires id !in users && !UsernameTaken(users, input.username)
    ensures var after := users[id := NewUser(id, input, Hash(input.password, salt), now)];
      && UserKeys(after) && UniqueUsernames(after)
      && AuthenticateUser(after, input.username, input.password) == Some(after[id])
      && forall attempt :: AuthenticateUser(after, input.username, attempt) ==
           if Truncated(attempt) == Truncated(input.password) then Some(after[id]) else None
  {
    var u := NewUser(id, input, Hash(input.password, salt), now);
    var after := users[id := u];
    assert UniqueUsernames(after) by {
      forall i, j | i in after && j in after && after[i].username == after[j].username
        ensures i == j
      {
        if i != id && j != id {
          assert users[i].username == users[j].username;
        }
      }
    }
    assert after[id].username == input.username;
  }
}
