/** The account registry of backend/routers/users.py: a map from email
    address to stored user. Registration inserts into the map; login and
    /user/me only read it. */
module Users {
  import opened Common
  import opened Auth
  import opened Models

  datatype UserLogin = UserLogin(email: string, password: string)

  /** TokenResponse: the access token, its type and the user it was issued to. */
  datatype TokenResponse = TokenResponse(accessToken: AccessToken, tokenType: string, user: UserResponse)

  const EMAIL_TAKEN := "User with this email already exists"
  const BAD_LOGIN := "Incorrect email or password"
  const USER_NOT_FOUND := "User not found"
  const TOKEN_TYPE := "bearer"

  /** The expiry both routes pass to create_access_token, in seconds. */
  const TOKEN_LIFETIME: int := ACCESS_TOKEN_EXPIRE_MINUTES * 60

  /** The claims register and login put into a token: `sub` is the email
      and `user_id` the stored id, and nothing else. */
  function TokenClaims(u: UserInDB): (c: Claims)
    ensures c.Keys == {"sub", "user_id"}
    ensures c["sub"] == u.email && c["user_id"] == u.id
  {
    map["sub" := u.email, "user_id" := u.id]
  }

  /** The response both register and login return for a user. */
  function IssueTokenResponse(u: UserInDB, now: int): (r: TokenResponse)
    ensures r.tokenType == TOKEN_TYPE && r.user == ToUserResponse(u)
    ensures r.accessToken.claims == TokenClaims(u) && r.accessToken.expiresAt == now + TOKEN_LIFETIME
  {
    TokenResponse(CreateAccessToken(TokenClaims(u), now, Some(TOKEN_LIFETIME)), TOKEN_TYPE, ToUserResponse(u))
  }

  /** The document register inserts: name and email as given, the password
      replaced by its hash. */
  function NewUserDoc(body: UserCreate, newId: string, now: int, salt: nat): (u: UserInDB)
    ensures u.id == newId && u.name == body.name && u.email == body.email && u.createdAt == now
    ensures u.password == HashPassword(body.password, salt)
  {
    UserInDB(newId, body.name, body.email, HashPassword(body.password, salt), now)
  }

  /** Every user is filed under its own email address (get_user_by_email). */
  predicate KeyedByEmail(users: map<string, UserInDB>) {
    forall e :: e in users ==> users[e].email == e
  }

  /** No two stored users share an id: MongoDB's `_id` is unique. */
  predicate DistinctIds(users: map<string, UserInDB>) {
    forall e, f :: e in users && f in users && users[e].id == users[f].id ==> e == f
  }

  /** The users collection, keyed by email address. */
  class UserStore {
    var users: map<string, UserInDB>

    ghost predicate Valid()
      reads this
    {
      KeyedByEmail(users) && DistinctIds(users)
    }

    constructor ()
      ensures Valid() && users == map[]
    {
      users := map[];
    }

    /** POST /user/register. `newId` is the id the database assigns to the
        inserted document, `now` the clock reading and `salt` the hasher's
        salt. The body has passed UserCreate validation, and `newId` is an
        id no stored user has. */
    method Register(body: UserCreate, newId: string, now: int, salt: nat) returns (r: Result<TokenResponse, HttpError>)
      requires Valid() && UserCreateValid(body)
      requires forall e :: e in users ==> users[e].id != newId
      modifies this
      ensures Valid()
      ensures body.email in old(users) ==>
        r == Err(HttpError(HTTP_400_BAD_REQUEST, EMAIL_TAKEN)) && users == old(users)
      ensures body.email !in old(users) ==>
        && users == old(users)[body.email := NewUserDoc(body, newId, now, salt)]
        && |users| == |old(users)| + 1
        && r == Ok(IssueTokenResponse(NewUserDoc(body, newId, now, salt), now))
    {
      if body.email in users {
        return Err(HttpError(HTTP_400_BAD_REQUEST, EMAIL_TAKEN));
      }
      var hashed := HashPassword(body.password, salt);
      var doc := UserInDB(newId, body.name, body.email, hashed, now);
      users := users[body.email := doc];        // create_user_in_db
      var created := users[body.email];         // get_user_by_email
      var token := CreateAccessToken(map["sub" := body.email, "user_id" := created.id], now, Some(TOKEN_LIFETIME));
      r := Ok(TokenResponse(token, TOKEN_TYPE, UserResponse(created.id, created.name, created.email, created.createdAt)));
    }
  }

  /** POST /user/login: an unknown email and a wrong password give the same
      401; otherwise a bearer token for the stored user. */
  function Login(users: map<string, UserInDB>, body: UserLogin, now: int): (r: Result<TokenResponse, HttpError>)
    ensures r.Ok? <==> body.email in users && VerifyPassword(body.password, users[body.email].password)
    ensures r.Err? ==> r.error == HttpError(HTTP_401_UNAUTHORIZED, BAD_LOGIN)
    ensures r.Ok? ==> r == Ok(IssueTokenResponse(users[body.email], now))
  {
    if body.email !in users then Err(HttpError(HTTP_401_UNAUTHORIZED, BAD_LOGIN))
    else
      var user := users[body.email];
      if !VerifyPassword(body.password, user.password) then Err(HttpError(HTTP_401_UNAUTHORIZED, BAD_LOGIN))
      else Ok(IssueTokenResponse(user, now))
  }

  /** GET /user/me, given the outcome of decoding the bearer token: a
      payload without `sub` gives 401 "Could not validate credentials", a
      `sub` naming no stored user gives 401 "User not found". */
  function GetCurrentUser(users: map<string, UserInDB>, decoded: Result<Claims, HttpError>): (r: Result<UserResponse, HttpError>)
    ensures decoded.Err? ==> r == Err(decoded.error)
    ensures decoded.Ok? && "sub" !in decoded.value ==> r == Err(HttpError(HTTP_401_UNAUTHORIZED, CREDENTIALS_INVALID))
    ensures decoded.Ok? && "sub" in decoded.value && decoded.value["sub"] !in users ==>
      r == Err(HttpError(HTTP_401_UNAUTHORIZED, USER_NOT_FOUND))
    ensures r.Ok? <==> decoded.Ok? && "sub" in decoded.value && decoded.value["sub"] in users
    ensures r.Ok? ==> r.value == ToUserResponse(users[decoded.value["sub"]])
  {
    match decoded
    case Err(e) => Err(e)
    case Ok(payload) =>
      if "sub" !in payload then Err(HttpError(HTTP_401_UNAUTHORIZED, CREDENTIALS_INVALID))
      else if payload["sub"] !in users then Err(HttpError(HTTP_401_UNAUTHORIZED, USER_NOT_FOUND))
      else Ok(ToUserResponse(users[payload["sub"]]))
  }

  /** After a registration, logging in with the same email and password
      succeeds and returns the same user as the registration did. */
  lemma LoginAfterRegister(users: map<string, UserInDB>, body: UserCreate, newId: string, now: int, salt: nat, later: int)
    requires body.email !in users
    ensures Login(users[body.email := NewUserDoc(body, newId, now, salt)], UserLogin(body.email, body.password), later)
         == Ok(IssueTokenResponse(NewUserDoc(body, newId, now, salt), later))
    ensures IssueTokenResponse(NewUserDoc(body, newId, now, salt), later).user
         == IssueTokenResponse(NewUserDoc(body, newId, now, salt), now).user
  {
  }

  /** After a registration, any other password is refused with the same
      error as an unknown email. */
  lemma LoginWrongPasswordAfterRegister(users: map<string, UserInDB>, body: UserCreate, newId: string, now: int, salt: nat, password: string, later: int)
    requires body.email !in users && password != body.password
    ensures Login(users[body.email := NewUserDoc(body, newId, now, salt)], UserLogin(body.email, password), later)
         == Login(map[], UserLogin(body.email, password), later)
  {
  }

  /** The token a login issues, presented to /user/me before it expires,
      names the user who logged in. */
  lemma MeWithIssuedToken(users: map<string, UserInDB>, body: UserLogin, issuedAt: int, now: int)
    requires KeyedByEmail(users)
    requires Login(users, body, issuedAt).Ok?
    requires issuedAt <= now <= issuedAt + TOKEN_LIFETIME
    ensures GetCurrentUser(users, DecodeAccessToken(Login(users, body, issuedAt).value.accessToken, now))
         == Ok(ToUserResponse(users[body.email]))
  {
  }
}
