/** Password hashing and access tokens (backend/utils/auth.py) as abstract
    values. Argon2 and the JWT codec are library code: a hash is an opaque
    value that only VerifyPassword inspects, and a token is the claims it
    carries together with its expiry instant; encoding and signature are not
    modelled. Clock readings are parameters. */
module Auth {
  import opened Common

  /** A token payload: claim name to claim value. */
  type Claims = map<string, string>

  const ACCESS_TOKEN_EXPIRE_MINUTES: nat := 3000

  const CREDENTIALS_INVALID := "Could not validate credentials"

  /** An Argon2 hash, idealised as collision free: it remembers the password
      and salt it was made from, and nothing but VerifyPassword looks inside. */
  datatype PasswordHash = Argon2(preimage: string, salt: nat)

  function HashPassword(password: string, salt: nat): (h: PasswordHash)
    ensures VerifyPassword(password, h)
  {
    Argon2(password, salt)
  }

  predicate VerifyPassword(plain: string, hashed: PasswordHash) {
    hashed.preimage == plain
  }

  /** A hash accepts exactly the password it was made from, whatever the salt. */
  lemma VerifyHashed(plain: string, password: string, salt: nat)
    ensures VerifyPassword(plain, HashPassword(password, salt)) <==> plain == password
  {
  }

  /** A signed access token: the claims it carries and the instant (in
      seconds) after which decoding rejects it. */
  datatype AccessToken = AccessToken(claims: Claims, expiresAt: int)

  /** create_access_token: the given claims, expiring `expiresDelta` seconds
      from `now`, or ACCESS_TOKEN_EXPIRE_MINUTES from `now` when no delta or a
      zero (falsy) delta is given. */
  function CreateAccessToken(data: Claims, now: int, expiresDelta: Option<int>): (t: AccessToken)
    ensures t.claims == data
    ensures expiresDelta.Some? && expiresDelta.value != 0 ==> t.expiresAt == now + expiresDelta.value
    ensures expiresDelta.None? || expiresDelta.value == 0 ==> t.expiresAt == now + ACCESS_TOKEN_EXPIRE_MINUTES * 60
  {
    var expire := if expiresDelta.Some? && expiresDelta.value != 0 then now + expiresDelta.value
                  else now + ACCESS_TOKEN_EXPIRE_MINUTES * 60;
    AccessToken(data, expire)
  }

  /** decode_access_token: the token's claims while it has not expired, 401
      "Could not validate credentials" afterwards. */
  function DecodeAccessToken(t: AccessToken, now: int): (r: Result<Claims, HttpError>)
    ensures r.Ok? <==> now <= t.expiresAt
    ensures r.Ok? ==> r.value == t.claims
    ensures r.Err? ==> r.error == HttpError(HTTP_401_UNAUTHORIZED, CREDENTIALS_INVALID)
  {
    if now <= t.expiresAt then Ok(t.claims)
    else Err(HttpError(HTTP_401_UNAUTHORIZED, CREDENTIALS_INVALID))
  }

  /** A token decodes to the claims it was created with until it expires. */
  lemma DecodeCreated(data: Claims, issuedAt: int, expiresDelta: int, now: int)
    requires 0 < expiresDelta && issuedAt <= now <= issuedAt + expiresDelta
    ensures DecodeAccessToken(CreateAccessToken(data, issuedAt, Some(expiresDelta)), now) == Ok(data)
  {
  }
}
