/** The shared records of backend/models/mongo_models.py: the ObjectId
    validator, the request bodies with their field bounds, and the stored
    documents with their count constraints. Timestamps are plain integers
    supplied by the caller. Email-address syntax (EmailStr) is library
    validation and is not modelled. */
module Models {
  import opened Common
  import opened Auth

  // ---------------------------------------------------------------- ObjectId

  predicate IsHexDigit(c: char) {
    '0' <= c <= '9' || 'a' <= c <= 'f' || 'A' <= c <= 'F'
  }

  /** The model's reading of ObjectId.is_valid on a string: exactly 24
      hexadecimal digits. The bson library is not part of this model; this
      predicate is the model's choice of which strings it accepts. */
  predicate IsValidObjectIdString(s: string) {
    |s| == 24 && forall i :: 0 <= i < |s| ==> IsHexDigit(s[i])
  }

  /** A MongoDB ObjectId, identified by its hexadecimal text. */
  datatype ObjectId = ObjectId(hex: string)

  /** What PyObjectId.validate can be handed: an ObjectId, a string, or any
      other value. */
  datatype IdInput = ObjectIdValue(oid: ObjectId) | StrValue(s: string) | OtherValue

  const INVALID_OBJECT_ID := "Invalid ObjectId"

  /** PyObjectId.validate: an ObjectId passes unchanged, a string passing
      is_valid is converted, anything else fails with "Invalid ObjectId". */
  function Validate(v: IdInput): (r: Result<ObjectId, string>)
    ensures r.Ok? <==> v.ObjectIdValue? || (v.StrValue? && IsValidObjectIdString(v.s))
    ensures v.ObjectIdValue? ==> r == Ok(v.oid)
    ensures v.StrValue? && r.Ok? ==> r.value.hex == v.s
    ensures r.Err? ==> r.error == INVALID_OBJECT_ID
  {
    match v
    case ObjectIdValue(oid) => Ok(oid)
    case StrValue(s) => if IsValidObjectIdString(s) then Ok(ObjectId(s)) else Err(INVALID_OBJECT_ID)
    case OtherValue => Err(INVALID_OBJECT_ID)
  }

  /** The serializer of the PyObjectId schema: str(x). */
  function Serialize(oid: ObjectId): string {
    oid.hex
  }

  /** Serializing a well-formed ObjectId and validating the text gives it back. */
  lemma ValidateSerialized(oid: ObjectId)
    requires IsValidObjectIdString(oid.hex)
    ensures Validate(StrValue(Serialize(oid))) == Ok(oid)
  {
  }

  // ----------------------------------------------------------- request bodies

  datatype UserCreate = UserCreate(name: string, email: string, password: string)

  datatype PollCreate = PollCreate(text: string)

  datatype PollOptionCreate = PollOptionCreate(text: string)

  predicate UserCreateValid(u: UserCreate) {
    |u.name| >= 2 && |u.password| >= 6
  }

  predicate PollCreateValid(p: PollCreate) {
    3 <= |p.text| <= 300
  }

  predicate PollOptionCreateValid(o: PollOptionCreate) {
    1 <= |o.text| <= 100
  }

  /** Field validation of UserCreate: name of at least 2 and password of at
      least 6 characters; the fields are kept as given. */
  function ParseUserCreate(name: string, email: string, password: string): (r: Option<UserCreate>)
    ensures r.Some? <==> |name| >= 2 && |password| >= 6
    ensures r.Some? ==> r.value == UserCreate(name, email, password) && UserCreateValid(r.value)
  {
    if |name| >= 2 && |password| >= 6 then Some(UserCreate(name, email, password)) else None
  }

  /** Field validation of PollCreate: accepted exactly when the text has
      between 3 and 300 characters. */
  function ParsePollCreate(text: string): (r: Option<PollCreate>)
    ensures r.Some? <==> 3 <= |text| <= 300
    ensures r.Some? ==> r.value.text == text && PollCreateValid(r.value)
  {
    if 3 <= |text| <= 300 then Some(PollCreate(text)) else None
  }

  /** Field validation of PollOptionCreate: accepted exactly when the text
      has between 1 and 100 characters. */
  function ParsePollOptionCreate(text: string): (r: Option<PollOptionCreate>)
    ensures r.Some? <==> 1 <= |text| <= 100
    ensures r.Some? ==> r.value.text == text && PollOptionCreateValid(r.value)
  {
    if 1 <= |text| <= 100 then Some(PollOptionCreate(text)) else None
  }

  // --------------------------------------------------------- stored documents

  /** UserInDB: the stored user, whose password field holds a hash. */
  datatype UserInDB = UserInDB(id: string, name: string, email: string, password: PasswordHash, createdAt: int)

  /** UserResponse: what the API returns about a user; it has no password field. */
  datatype UserResponse = UserResponse(id: string, name: string, email: string, createdAt: int)

  /** Builds the response for a stored user: every field but the password. */
  function ToUserResponse(u: UserInDB): (r: UserResponse)
    ensures r.id == u.id && r.name == u.name && r.email == u.email && r.createdAt == u.createdAt
  {
    UserResponse(u.id, u.name, u.email, u.createdAt)
  }

  /** Two users that differ only in their password hash have the same response. */
  lemma ResponseIgnoresPassword(u: UserInDB, h: PasswordHash)
    ensures ToUserResponse(u.(password := h)) == ToUserResponse(u)
  {
  }

  /** PollInDB (and PollResponse, which adds nothing). */
  datatype PollInDB = PollInDB(id: string, text: string, likes: int, creatorId: string, createdAt: int)

  /** PollOptionInDB (and PollOptionResponse, which adds nothing). */
  datatype PollOptionInDB = PollOptionInDB(id: string, pollId: string, text: string, votes: int, createdAt: int)

  /** The `ge=0` constraint on PollInDB.likes. */
  predicate PollInDBValid(p: PollInDB) {
    p.likes >= 0
  }

  /** The `ge=0` constraint on PollOptionInDB.votes. */
  predicate PollOptionInDBValid(o: PollOptionInDB) {
    o.votes >= 0
  }

  /** A PollInDB built with the default like count: zero likes, so valid. */
  function NewPollInDB(id: string, text: string, creatorId: string, createdAt: int): (p: PollInDB)
    ensures p.likes == 0 && PollInDBValid(p)
    ensures p.id == id && p.text == text && p.creatorId == creatorId && p.createdAt == createdAt
  {
    PollInDB(id, text, 0, creatorId, createdAt)
  }

  /** A PollOptionInDB built with the default vote count: zero votes, so valid. */
  function NewPollOptionInDB(id: string, pollId: string, text: string, createdAt: int): (o: PollOptionInDB)
    ensures o.votes == 0 && PollOptionInDBValid(o)
    ensures o.id == id && o.pollId == pollId && o.text == text && o.createdAt == createdAt
  {
    PollOptionInDB(id, pollId, text, 0, createdAt)
  }
}
