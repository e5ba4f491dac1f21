/** The poll routes of backend/routers/polls.py over an abstract store.
    The database helpers the handlers call are foreign code; each is modelled
    as the map or set update its call site implies (an `*_in_db(id, ±1)` call
    adds the delta to the document's count, a lookup that finds nothing
    leaves the store alone). Ids the database assigns and clock readings are
    parameters. Action documents keep only the fields a handler reads. */
module Polls {
  import opened Common
  import opened Auth
  import opened Models
  import Users

  /** A like-action document: this user likes this poll. */
  datatype LikeAction = LikeAction(pollId: string, userId: string)

  /** A vote-action document: this user's vote on this poll is for this option. */
  datatype VoteAction = VoteAction(pollId: string, optionId: string, userId: string)

  /** The four collections the handlers use. */
  datatype Db = Db(
    polls: map<string, PollInDB>,
    options: map<string, PollOptionInDB>,
    likeActions: set<LikeAction>,
    voteActions: set<VoteAction>)

  /** A handler's response together with the store it leaves behind. */
  datatype Step<T> = Step(result: Result<T, HttpError>, db: Db)

  /** GET /polls/{poll_id}: the poll document with the options stored for it. */
  datatype PollWithOptions = PollWithOptions(poll: PollInDB, options: map<string, PollOptionInDB>)

  const INVALID_POLL_ID := "Invalid Poll ID format"
  const INVALID_POLL_OR_OPTION_ID := "Invalid Poll or Option ID format"
  const POLL_NOT_FOUND := "Poll not found"
  const OPTION_NOT_FOUND := "Poll option not found"
  const NOT_CREATOR := "Only the poll creator can add options"
  const WRONG_POLL := "Option does not belong to this poll"
  const INTERNAL_ERROR := "Internal Server Error"

  // ------------------------------------------------------------- the counts

  /** The number of vote-actions for an option. */
  function VoteCount(votes: set<VoteAction>, optionId: string): nat {
    |set a | a in votes && a.optionId == optionId|
  }

  /** The number of like-actions for a poll. */
  function LikeCount(likes: set<LikeAction>, pollId: string): nat {
    |set a | a in likes && a.pollId == pollId|
  }

  /** Does this user have a vote-action on this poll? */
  predicate HasVoted(votes: set<VoteAction>, userId: string, pollId: string) {
    exists a :: a in votes && a.userId == userId && a.pollId == pollId
  }

  /** The caller's vote-action on a poll, when there is one (the document
      get_vote_action_by_poll_from_db finds). */
  ghost function ExistingVote(votes: set<VoteAction>, userId: string, pollId: string): (a: VoteAction)
    requires HasVoted(votes, userId, pollId)
    ensures a in votes && a.userId == userId && a.pollId == pollId
  {
    var a :| a in votes && a.userId == userId && a.pollId == pollId; a
  }

  /** At most one vote-action per user and poll. */
  predicate OneVotePerPoll(votes: set<VoteAction>) {
    forall a, b :: a in votes && b in votes && a.userId == b.userId && a.pollId == b.pollId ==> a == b
  }

  /** What the handlers keep true of the store: documents are filed under
      their own id; every poll's like count is its number of like-actions and
      every option's vote count its number of vote-actions; actions refer to
      stored documents, a vote to an option of the same poll; each user has at
      most one vote per poll; stored texts meet the request-body bounds. */
  ghost predicate Consistent(db: Db) {
    && (forall id :: id in db.polls ==>
          db.polls[id].id == id && db.polls[id].likes == LikeCount(db.likeActions, id)
          && 3 <= |db.polls[id].text| <= 300)
    && (forall id :: id in db.options ==>
          db.options[id].id == id && db.options[id].votes == VoteCount(db.voteActions, id)
          && 1 <= |db.options[id].text| <= 100)
    && (forall a :: a in db.likeActions ==> a.pollId in db.polls)
    && (forall a :: a in db.voteActions ==> a.optionId in db.options && db.options[a.optionId].pollId == a.pollId)
    && OneVotePerPoll(db.voteActions)
  }

  /** With one vote per user and poll, the vote found is the only one. */
  lemma ExistingVoteUnique(votes: set<VoteAction>, a: VoteAction)
    requires OneVotePerPoll(votes) && a in votes
    ensures HasVoted(votes, a.userId, a.pollId) && ExistingVote(votes, a.userId, a.pollId) == a
  {
  }

  const EmptyDb := Db(map[], map[], {}, {})

  lemma EmptyConsistent()
    ensures Consistent(EmptyDb)
  {
  }

  /** In a consistent store every document meets the `ge=0` constraints of
      PollInDB.likes and PollOptionInDB.votes. */
  lemma CountsNonNegative(db: Db)
    requires Consistent(db)
    ensures forall id :: id in db.polls ==> PollInDBValid(db.polls[id])
    ensures forall id :: id in db.options ==> PollOptionInDBValid(db.options[id])
  {
  }

  lemma {:induction false} VoteCountAdd(votes: set<VoteAction>, a: VoteAction, id: string)
    requires a !in votes
    ensures VoteCount(votes + {a}, id) == VoteCount(votes, id) + (if a.optionId == id then 1 else 0)
  {
    var before := set b | b in votes && b.optionId == id;
    var after := set b | b in votes + {a} && b.optionId == id;
    if a.optionId == id {
      assert after == before + {a};
    } else {
      assert after == before;
    }
  }

  lemma {:induction false} VoteCountRemove(votes: set<VoteAction>, a: VoteAction, id: string)
    requires a in votes
    ensures VoteCount(votes - {a}, id) == VoteCount(votes, id) - (if a.optionId == id then 1 else 0)
  {
    var before := set b | b in votes && b.optionId == id;
    var after := set b | b in votes - {a} && b.optionId == id;
    if a.optionId == id {
      assert before == after + {a};
    } else {
      assert after == before;
    }
  }

  lemma {:induction false} LikeCountAdd(likes: set<LikeAction>, a: LikeAction, id: string)
    requires a !in likes
    ensures LikeCount(likes + {a}, id) == LikeCount(likes, id) + (if a.pollId == id then 1 else 0)
  {
    var before := set b | b in likes && b.pollId == id;
    var after := set b | b in likes + {a} && b.pollId == id;
    if a.pollId == id {
      assert after == before + {a};
    } else {
      assert after == before;
    }
  }

  lemma {:induction false} LikeCountRemove(likes: set<LikeAction>, a: LikeAction, id: string)
    requires a in likes
    ensures LikeCount(likes - {a}, id) == LikeCount(likes, id) - (if a.pollId == id then 1 else 0)
  {
    var before := set b | b in likes && b.pollId == id;
    var after := set b | b in likes - {a} && b.pollId == id;
    if a.pollId == id {
      assert before == after + {a};
    } else {
      assert after == before;
    }
  }

  lemma {:induction false} VoteCountNone(votes: set<VoteAction>, id: string)
    requires forall a :: a in votes ==> a.optionId != id
    ensures VoteCount(votes, id) == 0
  {
    assert (set b | b in votes && b.optionId == id) == {};
  }

  lemma {:induction false} LikeCountNone(likes: set<LikeAction>, id: string)
    requires forall a :: a in likes ==> a.pollId != id
    ensures LikeCount(likes, id) == 0
  {
    assert (set b | b in likes && b.pollId == id) == {};
  }

  /** Some element of a non-empty set (always the same one for the same set). */
  ghost function Pick(ids: set<string>): (id: string)
    requires ids != {}
    ensures id in ids
  {
    var id :| id in ids; id
  }

  /** The sum of the vote counts of the given options. */
  ghost function SumVotes(options: map<string, PollOptionInDB>, ids: set<string>): int
    requires ids <= options.Keys
    decreases ids
  {
    if ids == {} then 0
    else
      var id := Pick(ids);
      options[id].votes + SumVotes(options, ids - {id})
  }

  /** The ids of the options stored for a poll. */
  ghost function OptionsOf(options: map<string, PollOptionInDB>, pollId: string): (ids: set<string>)
    ensures ids <= options.Keys
  {
    set id | id in options && options[id].pollId == pollId
  }

  /** In a consistent store the votes of any set of options add up to the
      number of vote-actions for those options. */
  lemma {:induction false} SumVotesCountsActions(db: Db, ids: set<string>)
    requires Consistent(db) && ids <= db.options.Keys
    ensures SumVotes(db.options, ids) == |set a | a in db.voteActions && a.optionId in ids|
    decreases ids
  {
    if ids != {} {
      var id := Pick(ids);
      SumVotesCountsActions(db, ids - {id});
      var mine := set a | a in db.voteActions && a.optionId == id;
      var rest := set a | a in db.voteActions && a.optionId in ids - {id};
      assert (set a | a in db.voteActions && a.optionId in ids) == mine + rest;
      assert mine !! rest;
    }
  }

  /** The vote total of a poll (the sum over its options) equals the number
      of vote-actions on the poll. */
  lemma PollVoteTotal(db: Db, pollId: string)
    requires Consistent(db)
    ensures SumVotes(db.options, OptionsOf(db.options, pollId)) == |set a | a in db.voteActions && a.pollId == pollId|
  {
    var ids := OptionsOf(db.options, pollId);
    SumVotesCountsActions(db, ids);
    assert (set a | a in db.voteActions && a.optionId in ids) == (set a | a in db.voteActions && a.pollId == pollId);
  }

  // ------------------------------------------------------ database helpers

  /** update_poll_option_votes_in_db(id, delta): add `delta` to the option's
      votes; nothing happens if no option has that id. */
  function AddVotes(options: map<string, PollOptionInDB>, id: string, delta: int): (r: map<string, PollOptionInDB>)
    ensures r.Keys == options.Keys
    ensures id in options ==> r[id] == options[id].(votes := options[id].votes + delta)
    ensures forall k :: k in options && k != id ==> r[k] == options[k]
  {
    if id in options then options[id := options[id].(votes := options[id].votes + delta)] else options
  }

  /** update_poll_likes_in_db(id, delta): add `delta` to the poll's likes;
      nothing happens if no poll has that id. */
  function AddLikes(polls: map<string, PollInDB>, id: string, delta: int): (r: map<string, PollInDB>)
    ensures r.Keys == polls.Keys
    ensures id in polls ==> r[id] == polls[id].(likes := polls[id].likes + delta)
    ensures forall k :: k in polls && k != id ==> r[k] == polls[k]
  {
    if id in polls then polls[id := polls[id].(likes := polls[id].likes + delta)] else polls
  }

  /** delete_vote_action_in_db followed by update_poll_option_votes_in_db(option, -1). */
  function WithdrawVote(db: Db, vote: VoteAction): (r: Db)
    ensures r.polls == db.polls && r.likeActions == db.likeActions
    ensures r.voteActions == db.voteActions - {vote} && r.options == AddVotes(db.options, vote.optionId, -1)
  {
    db.(voteActions := db.voteActions - {vote}, options := AddVotes(db.options, vote.optionId, -1))
  }

  /** create_vote_action_in_db followed by update_poll_option_votes_in_db(option, 1). */
  function CastVote(db: Db, vote: VoteAction): (r: Db)
    ensures r.polls == db.polls && r.likeActions == db.likeActions
    ensures r.voteActions == db.voteActions + {vote} && r.options == AddVotes(db.options, vote.optionId, 1)
  {
    db.(voteActions := db.voteActions + {vote}, options := AddVotes(db.options, vote.optionId, 1))
  }

  /** Withdrawing a stored vote keeps the store consistent. */
  lemma WithdrawKeepsConsistency(db: Db, vote: VoteAction)
    requires Consistent(db) && vote in db.voteActions
    ensures Consistent(WithdrawVote(db, vote))
  {
    var db' := WithdrawVote(db, vote);
    forall id | id in db'.options
      ensures db'.options[id].votes == VoteCount(db'.voteActions, id)
    {
      VoteCountRemove(db.voteActions, vote, id);
    }
  }

  /** Casting a vote for an option of the right poll, by a user with no vote
      on that poll, keeps the store consistent. */
  lemma CastKeepsConsistency(db: Db, vote: VoteAction)
    requires Consistent(db) && vote.optionId in db.options && db.options[vote.optionId].pollId == vote.pollId
    requires !HasVoted(db.voteActions, vote.userId, vote.pollId)
    ensures Consistent(CastVote(db, vote))
  {
    var db' := CastVote(db, vote);
    assert vote !in db.voteActions;
    forall id | id in db'.options
      ensures db'.options[id].votes == VoteCount(db'.voteActions, id)
    {
      VoteCountAdd(db.voteActions, vote, id);
    }
  }

  /** Casting a vote and withdrawing it again restores the store. */
  lemma CastThenWithdraw(db: Db, vote: VoteAction)
    requires vote !in db.voteActions && vote.optionId in db.options
    ensures WithdrawVote(CastVote(db, vote), vote) == db
  {
    var o := db.options[vote.optionId];
    assert o.(votes := o.votes) == o;
    assert db.voteActions + {vote} - {vote} == db.voteActions;
  }

  /** Withdrawing a stored vote and casting it again restores the store. */
  lemma WithdrawThenCast(db: Db, vote: VoteAction)
    requires vote in db.voteActions && vote.optionId in db.options
    ensures CastVote(WithdrawVote(db, vote), vote) == db
  {
    var o := db.options[vote.optionId];
    assert o.(votes := o.votes) == o;
    assert db.voteActions - {vote} + {vote} == db.voteActions;
  }

  // ---------------------------------------------------------- path ids

  /** `PyObjectId(s)` inside `try ... except ValueError` as the handlers
      intend it: a malformed id becomes a 400 with the given detail. */
  function ParsePathId(s: string, detail: string): (r: Result<ObjectId, HttpError>)
    ensures r.Ok? <==> IsValidObjectIdString(s)
    ensures r.Ok? ==> r.value == ObjectId(s)
    ensures r.Err? ==> r.error == HttpError(HTTP_400_BAD_REQUEST, detail)
  {
    if IsValidObjectIdString(s) then Ok(ObjectId(s)) else Err(HttpError(HTTP_400_BAD_REQUEST, detail))
  }

  /** The same code as it runs: `PyObjectId(s)` is the ObjectId constructor,
      whose error for a malformed id is bson's InvalidId, which is not a
      ValueError; the `except` clause does not catch it and the request ends
      in a 500. */
  function ParsePathIdAsWritten(s: string): (r: Result<ObjectId, HttpError>)
    ensures r.Ok? <==> IsValidObjectIdString(s)
    ensures r.Err? ==> r.error.status == HTTP_500_INTERNAL_SERVER_ERROR
  {
    if IsValidObjectIdString(s) then Ok(ObjectId(s)) else Err(HttpError(HTTP_500_INTERNAL_SERVER_ERROR, INTERNAL_ERROR))
  }

  /** For the malformed id "abc" the written code answers 500 where the
      handlers mean to answer 400 "Invalid Poll ID format". */
  lemma MalformedIdEscapes()
    ensures ParsePathIdAsWritten("abc").Err? && ParsePathIdAsWritten("abc").error.status == 500
    ensures ParsePathId("abc", INVALID_POLL_ID) == Err(HttpError(400, INVALID_POLL_ID))
  {
  }

  // ------------------------------------------------------ authentication

  /** get_current_user_id, given the outcome of decode_access_token: the
      `user_id` claim, or 401 "Could not validate credentials". */
  function GetCurrentUserId(decoded: Result<Claims, HttpError>): (r: Result<string, HttpError>)
    ensures decoded.Err? ==> r == Err(decoded.error)
    ensures decoded.Ok? && "user_id" !in decoded.value ==> r == Err(HttpError(HTTP_401_UNAUTHORIZED, CREDENTIALS_INVALID))
    ensures r.Ok? <==> decoded.Ok? && "user_id" in decoded.value
    ensures r.Ok? ==> r.value == decoded.value["user_id"]
  {
    match decoded
    case Err(e) => Err(e)
    case Ok(payload) =>
      if "user_id" !in payload then Err(HttpError(HTTP_401_UNAUTHORIZED, CREDENTIALS_INVALID))
      else Ok(payload["user_id"])
  }

  /** A token issued at login, presented before it expires, authorizes
      the poll routes as the user who logged in. */
  lemma LoginTokenAuthorizes(users: map<string, UserInDB>, body: Users.UserLogin, issuedAt: int, now: int)
    requires Users.Login(users, body, issuedAt).Ok?
    requires issuedAt <= now <= issuedAt + Users.TOKEN_LIFETIME
    ensures GetCurrentUserId(DecodeAccessToken(Users.Login(users, body, issuedAt).value.accessToken, now))
         == Ok(users[body.email].id)
  {
  }

  // ------------------------------------------------- handler specifications

  /** create_poll_option: checks the id format, then that the poll exists,
      then that the caller created it; only then stores a new option with no
      votes under the path's poll id. `newId` is the id the database gives
      the inserted option. */
  function CreatePollOptionStep(db: Db, pollId: string, body: PollOptionCreate, userId: string, newId: string, now: int)
    : (s: Step<PollOptionInDB>)
    requires newId !in db.options
    ensures !IsValidObjectIdString(pollId) ==> s == Step(Err(HttpError(HTTP_400_BAD_REQUEST, INVALID_POLL_ID)), db)
    ensures IsValidObjectIdString(pollId) && pollId !in db.polls ==>
      s == Step(Err(HttpError(HTTP_404_NOT_FOUND, POLL_NOT_FOUND)), db)
    ensures IsValidObjectIdString(pollId) && pollId in db.polls && db.polls[pollId].creatorId != userId ==>
      s == Step(Err(HttpError(HTTP_403_FORBIDDEN, NOT_CREATOR)), db)
    ensures s.result.Err? ==> s.db == db
    ensures s.result.Ok? ==>
      && s.result.value.votes == 0 && s.result.value.pollId == pollId
      && s.result.value.text == body.text && s.result.value.id == newId
      && s.db == db.(options := db.options[newId := s.result.value])
  {
    match ParsePathId(pollId, INVALID_POLL_ID)
    case Err(e) => Step(Err(e), db)
    case Ok(oid) =>
      if oid.hex !in db.polls then Step(Err(HttpError(HTTP_404_NOT_FOUND, POLL_NOT_FOUND)), db)
      else if db.polls[oid.hex].creatorId != userId then Step(Err(HttpError(HTTP_403_FORBIDDEN, NOT_CREATOR)), db)
      else
        var option := NewPollOptionInDB(newId, pollId, body.text, now);
        Step(Ok(option), db.(options := db.options[newId := option]))
  }

  /** toggle_poll_option_vote: after the id-format check, a missing option
      is a 404 and an option of another poll a 400, with the store left
      alone. Otherwise the caller's existing vote on the poll, if any, is
      withdrawn (its option loses a vote); if that vote was for this very
      option the call stops there (un-vote), else a vote for this option is
      recorded (it gains a vote). The response is the option as stored
      afterwards. */
  ghost function ToggleVoteStep(db: Db, pollId: string, optionId: string, userId: string): (s: Step<PollOptionInDB>)
    ensures !IsValidObjectIdString(pollId) || !IsValidObjectIdString(optionId) ==>
      s == Step(Err(HttpError(HTTP_400_BAD_REQUEST, INVALID_POLL_OR_OPTION_ID)), db)
    ensures IsValidObjectIdString(pollId) && IsValidObjectIdString(optionId) && optionId !in db.options ==>
      s == Step(Err(HttpError(HTTP_404_NOT_FOUND, OPTION_NOT_FOUND)), db)
    ensures IsValidObjectIdString(pollId) && IsValidObjectIdString(optionId) && optionId in db.options
            && db.options[optionId].pollId != pollId ==>
      s == Step(Err(HttpError(HTTP_400_BAD_REQUEST, WRONG_POLL)), db)
    ensures s.result.Err? ==> s.db == db
    ensures s.result.Ok? <==>
      IsValidObjectIdString(pollId) && IsValidObjectIdString(optionId) && optionId in db.options
      && db.options[optionId].pollId == pollId
    ensures s.result.Ok? ==>
      && s.db.polls == db.polls && s.db.likeActions == db.likeActions && s.db.options.Keys == db.options.Keys
      && optionId in s.db.options && s.result.value == s.db.options[optionId]
    ensures s.result.Ok? ==>
      forall k :: k in db.options ==> s.db.options[k] == db.options[k].(votes := s.db.options[k].votes)
    ensures s.result.Ok? ==>
      forall k :: k in db.options && k != optionId && VoteAction(pollId, k, userId) !in db.voteActions ==>
        s.db.options[k] == db.options[k]
  {
    if !IsValidObjectIdString(pollId) || !IsValidObjectIdString(optionId) then
      Step(Err(HttpError(HTTP_400_BAD_REQUEST, INVALID_POLL_OR_OPTION_ID)), db)
    else if optionId !in db.options then
      Step(Err(HttpError(HTTP_404_NOT_FOUND, OPTION_NOT_FOUND)), db)
    else if db.options[optionId].pollId != pollId then
      Step(Err(HttpError(HTTP_400_BAD_REQUEST, WRONG_POLL)), db)
    else
      var vote := VoteAction(pollId, optionId, userId);
      var db' :=
        if HasVoted(db.voteActions, userId, pollId) then
          var existing := ExistingVote(db.voteActions, userId, pollId);
          if existing.optionId == optionId then WithdrawVote(db, existing)
          else CastVote(WithdrawVote(db, existing), vote)
        else CastVote(db, vote);
      Step(Ok(db'.options[optionId]), db')
  }

  /** create_poll: a new poll with no likes, created by the caller. `newId`
      is the id the database gives the inserted poll. */
  function CreatePollStep(db: Db, body: PollCreate, userId: string, newId: string, now: int): (s: Step<PollInDB>)
    requires newId !in db.polls
    ensures s.result.Ok?
    ensures s.result.value.likes == 0 && s.result.value.creatorId == userId
    ensures s.result.value.text == body.text && s.result.value.id == newId
    ensures s.db == db.(polls := db.polls[newId := s.result.value])
  {
    var poll := NewPollInDB(newId, body.text, userId, now);
    Step(Ok(poll), db.(polls := db.polls[newId := poll]))
  }

  /** get_poll_by_id as its body intends: the poll with every option stored
      under that poll id. */
  function GetPollById(db: Db, pollId: string): (r: Result<PollWithOptions, HttpError>)
    ensures !IsValidObjectIdString(pollId) ==> r == Err(HttpError(HTTP_400_BAD_REQUEST, INVALID_POLL_ID))
    ensures IsValidObjectIdString(pollId) && pollId !in db.polls ==> r == Err(HttpError(HTTP_404_NOT_FOUND, POLL_NOT_FOUND))
    ensures r.Ok? <==> IsValidObjectIdString(pollId) && pollId in db.polls
    ensures r.Ok? ==> r.value.poll == db.polls[pollId]
    ensures r.Ok? ==> forall id :: id in r.value.options <==> id in db.options && db.options[id].pollId == pollId
    ensures r.Ok? ==> forall id :: id in r.value.options ==> r.value.options[id] == db.options[id]
  {
    match ParsePathId(pollId, INVALID_POLL_ID)
    case Err(e) => Err(e)
    case Ok(oid) =>
      if oid.hex !in db.polls then Err(HttpError(HTTP_404_NOT_FOUND, POLL_NOT_FOUND))
      else
        var options := map id | id in db.options && db.options[id].pollId == pollId :: db.options[id];
        Ok(PollWithOptions(db.polls[oid.hex], options))
  }

  /** get_poll_by_id as it runs: a malformed id escapes the `except` clause
      and ends in a 500, and the handler's response_model is PollResponse,
      which declares no `options` field, so serialization drops the options
      the handler attached. */
  function GetPollByIdAsWritten(db: Db, pollId: string): (r: Result<PollInDB, HttpError>)
    ensures !IsValidObjectIdString(pollId) ==> r.Err? && r.error.status == HTTP_500_INTERNAL_SERVER_ERROR
    ensures IsValidObjectIdString(pollId) && pollId !in db.polls ==> r == Err(HttpError(HTTP_404_NOT_FOUND, POLL_NOT_FOUND))
    ensures r.Ok? <==> GetPollById(db, pollId).Ok?
    ensures r.Ok? ==> r.value == db.polls[pollId]
  {
    match ParsePathIdAsWritten(pollId)
    case Err(e) => Err(e)
    case Ok(oid) =>
      if oid.hex !in db.polls then Err(HttpError(HTTP_404_NOT_FOUND, POLL_NOT_FOUND))
      else Ok(db.polls[oid.hex])
  }

  /** A poll with a stored option: the intended response carries the
      option, the written response is the bare poll document. */
  lemma OptionsDropped(pollId: string, poll: PollInDB, option: PollOptionInDB, optionId: string)
    requires IsValidObjectIdString(pollId) && option.pollId == pollId
    ensures var db := Db(map[pollId := poll], map[optionId := option], {}, {});
      && GetPollById(db, pollId).Ok? && optionId in GetPollById(db, pollId).value.options
      && GetPollByIdAsWritten(db, pollId) == Ok(poll)
  {
  }

  /** toggle_poll_like: after the id-format check, a missing poll is a 404
      with the store left alone. Otherwise an existing like is deleted and
      the poll loses a like, or a like is recorded and the poll gains one.
      The response is the poll as stored afterwards. */
  function ToggleLikeStep(db: Db, pollId: string, userId: string): (s: Step<PollInDB>)
    ensures !IsValidObjectIdString(pollId) ==> s == Step(Err(HttpError(HTTP_400_BAD_REQUEST, INVALID_POLL_ID)), db)
    ensures IsValidObjectIdString(pollId) && pollId !in db.polls ==> s == Step(Err(HttpError(HTTP_404_NOT_FOUND, POLL_NOT_FOUND)), db)
    ensures s.result.Ok? <==> IsValidObjectIdString(pollId) && pollId in db.polls
    ensures s.result.Ok? ==>
      && s.db.polls.Keys == db.polls.Keys && pollId in s.db.polls && s.result.value == s.db.polls[pollId]
      && s.db.options == db.options && s.db.voteActions == db.voteActions
      && (LikeAction(pollId, userId) in s.db.likeActions <==> LikeAction(pollId, userId) !in db.likeActions)
      && s.db.likeActions - {LikeAction(pollId, userId)} == db.likeActions - {LikeAction(pollId, userId)}
      && s.result.value.likes == db.polls[pollId].likes + (if LikeAction(pollId, userId) in db.likeActions then -1 else 1)
      && s.result.value == db.polls[pollId].(likes := s.result.value.likes)
      && (forall k :: k in db.polls && k != pollId ==> s.db.polls[k] == db.polls[k])
  {
    match ParsePathId(pollId, INVALID_POLL_ID)
    case Err(e) => Step(Err(e), db)
    case Ok(oid) =>
      if oid.hex !in db.polls then Step(Err(HttpError(HTTP_404_NOT_FOUND, POLL_NOT_FOUND)), db)
      else
        var like := LikeAction(pollId, userId);
        var db' :=
          if like in db.likeActions then
            db.(likeActions := db.likeActions - {like}, polls := AddLikes(db.polls, oid.hex, -1))
          else
            db.(likeActions := db.likeActions + {like}, polls := AddLikes(db.polls, oid.hex, 1));
        Step(Ok(db'.polls[oid.hex]), db')
  }

  // ------------------------------------------------------- handler properties

  /** Creating an option keeps the store consistent. */
  lemma CreatePollOptionKeepsConsistency(db: Db, pollId: string, body: PollOptionCreate, userId: string, newId: string, now: int)
    requires Consistent(db) && PollOptionCreateValid(body) && newId !in db.options
    ensures Consistent(CreatePollOptionStep(db, pollId, body, userId, newId, now).db)
  {
    VoteCountNone(db.voteActions, newId);
  }

  /** Creating a poll keeps the store consistent. */
  lemma CreatePollKeepsConsistency(db: Db, body: PollCreate, userId: string, newId: string, now: int)
    requires Consistent(db) && PollCreateValid(body) && newId !in db.polls
    ensures Consistent(CreatePollStep(db, body, userId, newId, now).db)
  {
    LikeCountNone(db.likeActions, newId);
  }

  /** Toggling a vote keeps the store consistent: vote counts stay equal to
      the number of vote-actions and no user gets a second vote on a poll. */
  lemma ToggleVoteKeepsConsistency(db: Db, pollId: string, optionId: string, userId: string)
    requires Consistent(db)
    ensures Consistent(ToggleVoteStep(db, pollId, optionId, userId).db)
  {
    if ToggleVoteStep(db, pollId, optionId, userId).result.Ok? {
      var vote := VoteAction(pollId, optionId, userId);
      if HasVoted(db.voteActions, userId, pollId) {
        var existing := ExistingVote(db.voteActions, userId, pollId);
        WithdrawKeepsConsistency(db, existing);
        if existing.optionId != optionId {
          CastKeepsConsistency(WithdrawVote(db, existing), vote);
        }
      } else {
        CastKeepsConsistency(db, vote);
      }
    }
  }

  /** What a successful vote toggle does to the caller's vote on the poll:
      a vote for this option is withdrawn and the option loses a vote;
      otherwise the caller ends with exactly one vote on the poll, for this
      option, which gains a vote, and the option voted for before (if any)
      loses one. Votes of other users and on other polls are untouched. */
  lemma ToggleVoteEffect(db: Db, pollId: string, optionId: string, userId: string)
    requires Consistent(db) && ToggleVoteStep(db, pollId, optionId, userId).result.Ok?
    ensures var db' := ToggleVoteStep(db, pollId, optionId, userId).db;
      && (VoteAction(pollId, optionId, userId) in db.voteActions ==> !HasVoted(db'.voteActions, userId, pollId))
      && (VoteAction(pollId, optionId, userId) !in db.voteActions ==>
            VoteAction(pollId, optionId, userId) in db'.voteActions
            && forall a :: a in db'.voteActions && a.userId == userId && a.pollId == pollId ==> a.optionId == optionId)
      && (forall a: VoteAction :: a.userId != userId || a.pollId != pollId ==> (a in db'.voteActions <==> a in db.voteActions))
      && db'.options[optionId].votes == db.options[optionId].votes + (if VoteAction(pollId, optionId, userId) in db.voteActions then -1 else 1)
      && (forall a :: a in db.voteActions && a.userId == userId && a.pollId == pollId && a.optionId != optionId ==>
            db'.options[a.optionId].votes == db.options[a.optionId].votes - 1)
  {
    var vote := VoteAction(pollId, optionId, userId);
    if HasVoted(db.voteActions, userId, pollId) {
      var existing := ExistingVote(db.voteActions, userId, pollId);
      if vote in db.voteActions {
        assert existing == vote;
      }
    } else {
      assert vote !in db.voteActions;
    }
  }

  /** Toggling the same option twice restores the store, provided the caller
      had not voted for a different option of the poll. */
  lemma ToggleVoteTwice(db: Db, pollId: string, optionId: string, userId: string)
    requires Consistent(db) && ToggleVoteStep(db, pollId, optionId, userId).result.Ok?
    requires !HasVoted(db.voteActions, userId, pollId) || VoteAction(pollId, optionId, userId) in db.voteActions
    ensures ToggleVoteStep(ToggleVoteStep(db, pollId, optionId, userId).db, pollId, optionId, userId).db == db
  {
    var vote := VoteAction(pollId, optionId, userId);
    var db1 := ToggleVoteStep(db, pollId, optionId, userId).db;
    ToggleVoteKeepsConsistency(db, pollId, optionId, userId);
    if HasVoted(db.voteActions, userId, pollId) {
      assert ExistingVote(db.voteActions, userId, pollId) == vote;
      assert db1 == WithdrawVote(db, vote);
      assert !HasVoted(db1.voteActions, userId, pollId);
      WithdrawThenCast(db, vote);
    } else {
      assert db1 == CastVote(db, vote);
      assert ExistingVote(db1.voteActions, userId, pollId) == vote;
      CastThenWithdraw(db, vote);
    }
  }

  /** Toggling a like keeps the store consistent: each poll's likes stay
      equal to its number of like-actions, hence never negative. */
  lemma ToggleLikeKeepsConsistency(db: Db, pollId: string, userId: string)
    requires Consistent(db)
    ensures Consistent(ToggleLikeStep(db, pollId, userId).db)
  {
    var s := ToggleLikeStep(db, pollId, userId);
    if s.result.Ok? {
      var like := LikeAction(pollId, userId);
      forall id | id in s.db.polls
        ensures s.db.polls[id].likes == LikeCount(s.db.likeActions, id)
      {
        if like in db.likeActions {
          LikeCountRemove(db.likeActions, like, id);
        } else {
          LikeCountAdd(db.likeActions, like, id);
        }
      }
    }
  }

  /** Toggling a like twice restores the store. */
  lemma ToggleLikeTwice(db: Db, pollId: string, userId: string)
    requires ToggleLikeStep(db, pollId, userId).result.Ok?
    ensures ToggleLikeStep(ToggleLikeStep(db, pollId, userId).db, pollId, userId).db == db
  {
    var like := LikeAction(pollId, userId);
    var poll := db.polls[pollId];
    assert poll.(likes := poll.likes) == poll;
    if like in db.likeActions {
      assert db.likeActions - {like} + {like} == db.likeActions;
    } else {
      assert db.likeActions + {like} - {like} == db.likeActions;
    }
  }

  // ------------------------------------------------------------ the router

  /** The polls router over the store: each handler performs the database
      calls of its source in their order. */
  class PollsApi {
    var polls: map<string, PollInDB>
    var options: map<string, PollOptionInDB>
    var likeActions: set<LikeAction>
    var voteActions: set<VoteAction>

    function State(): Db
      reads this
    {
      Db(polls, options, likeActions, voteActions)
    }

    ghost predicate Valid()
      reads this
    {
      Consistent(State())
    }

    constructor ()
      ensures Valid() && State() == EmptyDb
    {
      polls, options, likeActions, voteActions := map[], map[], {}, {};
      EmptyConsistent();
    }

    /** POST /polls/{poll_id}/options. */
    method CreatePollOption(pollId: string, body: PollOptionCreate, userId: string, newId: string, now: int)
      returns (r: Result<PollOptionInDB, HttpError>)
      requires Valid() && PollOptionCreateValid(body) && newId !in options
      modifies this
      ensures Valid()
      ensures Step(r, State()) == CreatePollOptionStep(old(State()), pollId, body, userId, newId, now)
    {
      CreatePollOptionKeepsConsistency(State(), pollId, body, userId, newId, now);
      var parsed := ParsePathId(pollId, INVALID_POLL_ID);
      if parsed.Err? {
        return Err(parsed.error);
      }
      if parsed.value.hex !in polls {                      // get_poll_by_id_from_db
        return Err(HttpError(HTTP_404_NOT_FOUND, POLL_NOT_FOUND));
      }
      if polls[parsed.value.hex].creatorId != userId {
        return Err(HttpError(HTTP_403_FORBIDDEN, NOT_CREATOR));
      }
      var option := PollOptionInDB(newId, pollId, body.text, 0, now);
      options := options[newId := option];                 // create_poll_option_in_db
      r := Ok(options[newId]);                             // get_poll_option_by_id_from_db
    }

    /** delete_vote_action_in_db, then update_poll_option_votes_in_db(option, -1). */
    method DeleteVote(vote: VoteAction)
      modifies this
      ensures State() == WithdrawVote(old(State()), vote)
    {
      voteActions := voteActions - {vote};
      options := AddVotes(options, vote.optionId, -1);
    }

    /** create_vote_action_in_db, then update_poll_option_votes_in_db(option, 1). */
    method RecordVote(vote: VoteAction)
      modifies this
      ensures State() == CastVote(old(State()), vote)
    {
      voteActions := voteActions + {vote};
      options := AddVotes(options, vote.optionId, 1);
    }

    /** POST /polls/{poll_id}/options/{option_id}/vote. */
    method ToggleVote(pollId: string, optionId: string, userId: string) returns (r: Result<PollOptionInDB, HttpError>)
      requires Valid()
      modifies this
      ensures Valid()
      ensures Step(r, State()) == ToggleVoteStep(old(State()), pollId, optionId, userId)
    {
      ghost var db := State();
      ToggleVoteKeepsConsistency(db, pollId, optionId, userId);
      if !IsValidObjectIdString(pollId) || !IsValidObjectIdString(optionId) {
        return Err(HttpError(HTTP_400_BAD_REQUEST, INVALID_POLL_OR_OPTION_ID));
      }
      if optionId !in options {                            // get_poll_option_by_id_from_db
        return Err(HttpError(HTTP_404_NOT_FOUND, OPTION_NOT_FOUND));
      }
      if options[optionId].pollId != pollId {
        return Err(HttpError(HTTP_400_BAD_REQUEST, WRONG_POLL));
      }
      var vote := VoteAction(pollId, optionId, userId);
      if existing :| existing in voteActions && existing.userId == userId && existing.pollId == pollId {
        ExistingVoteUnique(voteActions, existing);
        DeleteVote(existing);
        if existing.optionId == optionId {
          r := Ok(options[optionId]);                      // un-vote: get_poll_option_by_id_from_db
          return;
        }
      }
      RecordVote(vote);
      r := Ok(options[optionId]);                          // get_poll_option_by_id_from_db
    }

    /** POST /polls/create. */
    method CreatePoll(body: PollCreate, userId: string, newId: string, now: int) returns (r: Result<PollInDB, HttpError>)
      requires Valid() && PollCreateValid(body) && newId !in polls
      modifies this
      ensures Valid()
      ensures Step(r, State()) == CreatePollStep(old(State()), body, userId, newId, now)
    {
      CreatePollKeepsConsistency(State(), body, userId, newId, now);
      var poll := PollInDB(newId, body.text, 0, userId, now);
      polls := polls[newId := poll];                       // create_poll_in_db
      r := Ok(polls[newId]);                               // get_poll_by_id_from_db
    }

    /** POST /polls/{poll_id}/like. */
    method ToggleLike(pollId: string, userId: string) returns (r: Result<PollInDB, HttpError>)
      requires Valid()
      modifies this
      ensures Valid()
      ensures Step(r, State()) == ToggleLikeStep(old(State()), pollId, userId)
    {
      ToggleLikeKeepsConsistency(State(), pollId, userId);
      var parsed := ParsePathId(pollId, INVALID_POLL_ID);
      if parsed.Err? {
        return Err(parsed.error);
      }
      if parsed.value.hex !in polls {                      // get_poll_by_id_from_db
        return Err(HttpError(HTTP_404_NOT_FOUND, POLL_NOT_FOUND));
      }
      var like := LikeAction(pollId, userId);
      if like in likeActions {                             // get_like_action_from_db
        likeActions := likeActions - {like};               // delete_like_action_in_db
        polls := AddLikes(polls, parsed.value.hex, -1);    // update_poll_likes_in_db(id, -1)
      } else {
        likeActions := likeActions + {like};               // create_like_action_in_db
        polls := AddLikes(polls, parsed.value.hex, 1);     // update_poll_likes_in_db(id, 1)
      }
      r := Ok(polls[parsed.value.hex]);                    // get_poll_by_id_from_db
    }
  }
}
