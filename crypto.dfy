/**
 * The two cryptographic libraries the application calls, as ideal models.
 *
 * Password hashing (bcrypt through passlib) is a value that can only be checked against the
 * password it was made from, of which bcrypt reads only the first 72 bytes. A JSON Web Token
 * (RFC 7519) signed with HMAC SHA-256 ("HS256", section 3.2 of RFC 7518) is a value that
 * carries its claims, the algorithm named in its header and the key it was signed with;
 * decoding succeeds exactly when the key is the verifier's and the algorithm is one the
 * verifier accepts. The properties one would assume of the real libraries (a hash verifies
 * its own password and, within the 72-byte limit, no other; decoding inverts encoding; only
 * the key holder can produce a token that decodes) are lemmas about these models.
 */
module Crypto {
  import opened Outcomes

  /** The random salt bcrypt draws for each new hash. */
  type Salt = nat

  /** bcrypt reads at most this many bytes of a password; passlib drops the rest silently. */
  const BcryptLimit: nat := 72

  /** The part of a password bcrypt reads. Characters stand for bytes. */
  function Truncated(plain: string): (read: string)
    ensures |read| <= BcryptLimit && read <= plain
    ensures |plain| <= BcryptLimit ==> read == plain
  {
    if |plain| <= BcryptLimit then plain else plain[..BcryptLimit]
  }

  /** A bcrypt hash. The model keeps the part of the password bcrypt read inside the value so
      that checking is exact; it does not model that the hash cannot be inverted. */
  datatype PasswordHash = Bcrypt(salt: Salt, hashed: string)

  /** `pwd_context.hash(password)`: a hash under the given salt of the first 72 characters. */
  function Hash(plain: string, salt: Salt): (h: PasswordHash)
    ensures h.salt == salt && |h.hashed| <= BcryptLimit && h.hashed <= plain
  {
    Bcrypt(salt, Truncated(plain))
  }

  /** `pwd_context.verify(plain, hashed)`: false on a mismatch. Where passlib would raise (a NUL
      character, more than 4096 bytes) the model still gives a value. A stored hash
      verifies a password exactly when it is that password's hash under its own salt. */
  function Verify(plain: string, h: PasswordHash): (ok: bool)
    ensures ok <==> h == Hash(plain, h.salt)
  {
    h.hashed == Truncated(plain)
  }

  /** A hash verifies exactly the passwords that agree with the hashed one on their first 72
      characters, whatever the salt; for passwords within that length, exactly the password it
      was made from. */
  lemma VerifyHash(plain: string, attempt: string, salt: Salt)
    ensures Verify(attempt, Hash(plain, salt)) <==> Truncated(attempt) == Truncated(plain)
    ensures |plain| <= BcryptLimit && |attempt| <= BcryptLimit ==>
              (Verify(attempt, Hash(plain, salt)) <==> attempt == plain)
  {
  }

  /** A password longer than 72 characters is verified by its own first 72 characters, a
      different password. */
  lemma LongPasswordPrefixVerifies(plain: string, salt: Salt)
    requires |plain| > BcryptLimit
    ensures plain[..BcryptLimit] != plain
    ensures Verify(plain[..BcryptLimit], Hash(plain, salt))
  {
  }

  /** The server's signing key. */
  type Secret = string

  /** The algorithm a token's header names. */
  datatype Alg = HS256 | Unsigned | OtherAlg(name: string)

  /** The payload the application puts in every token it issues. */
  datatype Claims = Claims(id: nat, username: string)

  /** A token as a client may present it: a signed token, or any other text. */
  datatype Token = Jws(alg: Alg, claims: Claims, key: Secret) | Garbled(text: string)

  /** `jwt.encode(claims, key)`: a token whose header names HS256, PyJWT's default, whose
      payload is exactly the given claims and which is signed with the key. */
  function Encode(c: Claims, key: Secret): (t: Token)
    ensures t.Jws? && t.alg == HS256 && t.claims == c && t.key == key
  {
    Jws(HS256, c, key)
  }

  /** `jwt.decode(token, key, algorithms=accepted)`: the claims of a token signed with the key
      under an accepted algorithm, and None for a bad signature, an algorithm not accepted, or
      a malformed token. */
  function Decode(t: Token, key: Secret, accepted: seq<Alg>): (r: Option<Claims>)
    ensures r.Some? <==> t.Jws? && t.key == key && t.alg in accepted
    ensures r.Some? ==> r.value == t.claims
  {
    match t
    case Jws(alg, c, k) => if k == key && alg in accepted then Some(c) else None
    case Garbled(_) => None
  }

  /** Decoding with the signing key inverts encoding. */
  lemma DecodeEncode(c: Claims, key: Secret)
    ensures Decode(Encode(c, key), key, [HS256]) == Some(c)
  {
  }

  /** Only a token encoded with the verifier's own key decodes: a token signed with another key,
      or not signed at all, is refused. */
  lemma DecodeOnlyOwnTokens(t: Token, key: Secret)
    ensures Decode(t, key, [HS256]).Some? <==> t.Jws? && t == Encode(t.claims, key)
  {
  }
}
