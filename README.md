# Quick Poll — verified model of the poll feed and the poll API

Quick Poll is a small real-time polling application. Users register and log in.
They receive a bearer token and use it to create polls, add options to their
own polls, vote for one option per poll and like polls. A browser client keeps a
live list of polls: it fetches a snapshot once, then folds in the
`poll_created` and `poll_updated` messages it receives over a websocket.

This Dafny project models the following parts of Quick Poll:

- `common.dfy` (`Common`): `Option`, `Result`, and HTTP errors with their status codes.
- `auth.dfy` (`Auth`): password hashing and access tokens, as abstract values. The hash is idealised: a hash accepts exactly the password it was made from. A token is its claims plus an expiry instant.
- `models.dfy` (`Models`): the ObjectId validator, and the request bodies with their field bounds. Also the stored user, poll and option documents with their `ge=0` count constraints, and the user response without its password.
- `users.dfy` (`Users`): the user registry. It is a class whose map from email to user is changed by `Register`. `Login` and `/user/me` are functions over that map.
- `authenticate.dfy` (`Authenticate`): the authentication middleware:
  - the public-path test;
  - the `"Bearer "` header check;
  - Python's `split(" ", 1)` and `strip()`, written out;
  - the decision to hand the request on, or reject it.
- `polls.dfy` (`Polls`): the poll routes over an abstract store of four collections:
  - polls;
  - options;
  - like actions;
  - vote actions.

  Each handler is specified by a function from the old store to a response and a new store. The class `PollsApi` performs the handlers' database calls one by one. Each handler method is proved equal to that specification, and to preserve `Consistent`. The two helper methods `DeleteVote` and `RecordVote` are proved equal to `WithdrawVote` and `CastVote`. `Consistent` is the store invariant:
  - documents are filed under their own ids;
  - every count equals its number of action documents;
  - actions point at stored documents;
  - a user has at most one vote per poll;
  - stored texts meet the body bounds.
- `polls_context.dfy` (`PollsContext`): the client provider. It is a class with the three state cells `polls`, `isLoading` and `error`. Its methods are the steps of the snapshot fetch and the websocket handler. The list updaters are pure functions.

Inputs the program gets from its environment are parameters of the model:
- clock readings;
- the ids the database assigns;
- password salts;
- the token decoder used by the middleware;
- the websocket message stream;
- the result of the snapshot request.

## Model

| member | source | states |
|---|---|---|
| Auth.HashPassword | backend/utils/auth.py:27-29 | a fresh hash verifies against the password it was made from |
| Auth.VerifyHashed | backend/utils/auth.py:33-35 | a hash accepts a password if and only if it is the hashed one, whatever the salt |
| Auth.CreateAccessToken | backend/utils/auth.py:39-49 | the token carries exactly the given claims; it expires after the given delta, or after 3000 minutes when the delta is absent or zero |
| Auth.DecodeAccessToken | backend/utils/auth.py:53-63 | decoding succeeds with the token's claims exactly while it has not expired; otherwise 401 "Could not validate credentials" |
| Auth.DecodeCreated | backend/utils/auth.py:39-63 | a created token decodes to the claims it was created with, at every instant up to its expiry |
| Models.Validate | backend/models/mongo_models.py:34-39 | accepts an ObjectId unchanged, or a string exactly when it is 24 hex digits, converted from that string; every other value fails with "Invalid ObjectId" |
| Models.ValidateSerialized | backend/models/mongo_models.py:17-31 | validating the serialized text of a well-formed ObjectId gives the same ObjectId back |
| Models.ParseUserCreate | backend/models/mongo_models.py:63-66 | a registration body is accepted exactly when the name has at least 2 and the password at least 6 characters, and it keeps the fields as given |
| Models.ParsePollCreate | backend/models/mongo_models.py:102-105 | a poll body is accepted exactly when its text has 3 to 300 characters |
| Models.ParsePollOptionCreate | backend/models/mongo_models.py:124-127 | an option body is accepted exactly when its text has 1 to 100 characters |
| Models.ToUserResponse | backend/models/mongo_models.py:78-83 | the response carries the user's id, name, email and creation time |
| Models.ResponseIgnoresPassword | backend/models/mongo_models.py:69-83 | two users that differ only in their password hash produce the same response, so the response does not depend on the password |
| Models.NewPollInDB | backend/models/mongo_models.py:108-114 | a new poll document has zero likes and meets `likes >= 0` |
| Models.NewPollOptionInDB | backend/models/mongo_models.py:130-136 | a new option document has zero votes and meets `votes >= 0` |
| Users.TokenClaims | backend/routers/users.py:78-81 | the token payload has exactly the keys `sub` (the email) and `user_id` (the stored id) |
| Users.IssueTokenResponse | backend/routers/users.py:127-142 | the response is a bearer token with those claims, expiring 3000 minutes after issue, for the user's public record |
| Users.NewUserDoc | backend/routers/users.py:55-66 | the stored user keeps the name and email and has the hash of the password in place of the password |
| Users.UserStore.Register | backend/routers/users.py:35-93 | a taken email gives 400 "User with this email already exists" and leaves the registry unchanged; otherwise exactly one user is added under that email and a token response for it is returned; the registry stays keyed by email and no two users share an id |
| Users.Login | backend/routers/users.py:98-142 | login succeeds exactly when the email is registered and the password verifies; an unknown email and a wrong password give the same 401 |
| Users.GetCurrentUser | backend/routers/users.py:147-179 | a decode error passes through; a payload without `sub` gives 401 "Could not validate credentials"; an unknown `sub` gives 401 "User not found"; otherwise the stored user's response |
| Users.LoginAfterRegister | backend/routers/users.py:98-142 | after registering, logging in with the same email and password returns a token for the registered user |
| Users.LoginWrongPasswordAfterRegister | backend/routers/users.py:109-124 | after registering, every other password is refused exactly as an unknown email is |
| Users.MeWithIssuedToken | backend/routers/users.py:147-179 | the token a login issues, decoded before it expires, makes `/user/me` return the user who logged in |
| Authenticate.AnyPrefix | backend/middleware/authenticate.py:24 | true exactly when the path starts with one of the prefixes |
| Authenticate.IsPublic | backend/middleware/authenticate.py:7-24 | a path is public exactly when it is "/", "/user/register" or "/user/login", or it starts with "/docs", "/redoc" or "/static" |
| Authenticate.TrimStart | backend/middleware/authenticate.py:35 | removes a whitespace-only prefix and leaves a result that is empty or does not start with whitespace |
| Authenticate.TrimEnd | backend/middleware/authenticate.py:35 | removes a whitespace-only suffix and leaves a result that is empty or does not end with whitespace |
| Authenticate.Strip | backend/middleware/authenticate.py:35 | the result is a slice of the input with only whitespace around it, and neither starts nor ends with whitespace |
| Authenticate.StripTrimmed | backend/middleware/authenticate.py:35 | text with no surrounding whitespace is returned unchanged by strip |
| Authenticate.TrimStartSkipsSpace | backend/middleware/authenticate.py:35 | the leading pass removes exactly a whitespace prefix that is followed by a non-space character or by nothing |
| Authenticate.TrimEndSkipsSpace | backend/middleware/authenticate.py:35 | the trailing pass removes exactly a whitespace suffix that follows a non-space character or nothing |
| Authenticate.StripSurrounded | backend/middleware/authenticate.py:35 | whitespace, then a text neither starting nor ending with whitespace, then whitespace, strips to exactly that text, so the result is determined uniquely |
| Authenticate.StripIdempotent | backend/middleware/authenticate.py:35 | stripping twice equals stripping once |
| Authenticate.IndexOf | backend/middleware/authenticate.py:35 | returns the position of the first occurrence of the separator, or nothing exactly when it does not occur |
| Authenticate.SplitOnce | backend/middleware/authenticate.py:35 | a string without the separator gives itself alone; otherwise the parts before and after the first separator, which rejoin to the input |
| Authenticate.BearerSplit | backend/middleware/authenticate.py:28-35 | a header starting with "Bearer " splits into "Bearer" and everything after its first space |
| Authenticate.BearerToken | backend/middleware/authenticate.py:35 | the token handed to the decoder is the header after "Bearer ", stripped of surrounding whitespace |
| Authenticate.Dispatch | backend/middleware/authenticate.py:20-41 | a public path passes through unchanged; otherwise a missing, empty or non-"Bearer " header gives 401 "Not authenticated"; otherwise a decode error is returned as is, or the request passes on with the decoded payload as its user |
| Authenticate.PublicIgnoresHeader | backend/middleware/authenticate.py:24-25 | on a public path the header and the decoder play no part |
| Authenticate.PublicPathExamples | backend/middleware/authenticate.py:7-16 | the three exact paths and prefix matches (including "/docsX") are public |
| Authenticate.ProtectedPathExamples | backend/middleware/authenticate.py:7-24 | "/user/me", "/polls/", "/user/login/" and "/doc" are not public |
| Authenticate.SchemeIsExact | backend/middleware/authenticate.py:27-33 | "bearer x" and "Bearer" are refused on a protected path: the scheme is case sensitive and needs its space |
| Authenticate.TokenIsTrimmed | backend/middleware/authenticate.py:35 | the header "Bearer  abc \t" hands "abc" to the decoder |
| Polls.ExistingVote | backend/routers/polls.py:163-165 | the vote found belongs to the caller and the poll |
| Polls.ExistingVoteUnique | backend/routers/polls.py:163-165 | when each user has at most one vote per poll, the vote found for a user and poll is the only one |
| Polls.CountsNonNegative | backend/models/mongo_models.py:112-135 | in a consistent store every poll has `likes >= 0` and every option has `votes >= 0` |
| Polls.SumVotesCountsActions | backend/routers/polls.py:174-197 | in a consistent store the votes of any set of options sum to the number of vote actions for those options |
| Polls.PollVoteTotal | backend/routers/polls.py:134-139 | a poll's total votes over its options equals the number of its vote actions, so each user adds at most one |
| Polls.AddVotes | backend/routers/polls.py:177 | adds the delta to one option's votes; every other option and the set of ids are unchanged; an unknown id changes nothing |
| Polls.AddLikes | backend/routers/polls.py:321-336 | adds the delta to one poll's likes; every other poll and the set of ids are unchanged; an unknown id changes nothing |
| Polls.WithdrawVote | backend/routers/polls.py:173-177 | removes the vote action and takes one vote from its option; nothing else changes |
| Polls.CastVote | backend/routers/polls.py:186-197 | adds the vote action and gives one vote to its option; nothing else changes |
| Polls.WithdrawKeepsConsistency | backend/routers/polls.py:173-177 | withdrawing a stored vote preserves the store invariant |
| Polls.CastKeepsConsistency | backend/routers/polls.py:186-197 | casting a vote for an option of the same poll, by a user without a vote on that poll, preserves the store invariant |
| Polls.CastThenWithdraw | backend/routers/polls.py:167-197 | casting a new vote and then withdrawing it restores the store |
| Polls.WithdrawThenCast | backend/routers/polls.py:167-197 | withdrawing a stored vote and then casting it again restores the store |
| Polls.ParsePathId | backend/routers/polls.py:83-88 | a path id is accepted exactly when it is 24 hex digits; a malformed one gives a 400 with the route's message |
| Polls.ParsePathIdAsWritten | backend/routers/polls.py:83-88 | as the code runs, a malformed path id escapes the `except ValueError` and ends in a 500 |
| Polls.MalformedIdEscapes | backend/routers/polls.py:84-88 | for the id "abc" the code answers 500, where the intended answer is 400 "Invalid Poll ID format" |
| Polls.GetCurrentUserId | backend/routers/polls.py:48-64 | a decode error passes through; a payload without `user_id` gives 401 "Could not validate credentials"; otherwise the `user_id` claim |
| Polls.LoginTokenAuthorizes | backend/routers/polls.py:48-64 | a token issued at login, decoded before it expires, identifies the poll routes' caller as the logged-in user's id |
| Polls.CreatePollOptionStep | backend/routers/polls.py:74-124 | the id format is checked first (400), then the poll's existence (404), then that the caller created it (403), each leaving the store unchanged; on success exactly one option is added, with zero votes, the body's text and the path's poll id |
| Polls.ToggleVoteStep | backend/routers/polls.py:129-201 | bad id format gives 400, a missing option 404, an option of another poll 400, each with the store unchanged; success happens exactly otherwise and touches only options and vote actions. Every option changes at most in its vote count, and every option other than the voted one and the caller's previous one keeps its record. The response is the option as stored afterwards |
| Polls.CreatePollStep | backend/routers/polls.py:250-277 | always succeeds; exactly one poll is added, with zero likes, the body's text and the caller as creator |
| Polls.GetPollById | backend/routers/polls.py:216-243 | bad id format gives 400 and a missing poll 404; otherwise the poll with exactly the options stored for it |
| Polls.GetPollByIdAsWritten | backend/routers/polls.py:216-243 | as the code runs, a malformed id ends in a 500 and a missing poll in a 404; otherwise the response is the bare poll document, with no options. It succeeds exactly when the intended handler does |
| Polls.OptionsDropped | backend/routers/polls.py:236-243 | for a poll with one stored option, the intended response carries the option and the written response does not |
| Polls.ToggleLikeStep | backend/routers/polls.py:290-354 | bad id format gives 400 and a missing poll 404, with the store unchanged; otherwise the caller's like flips and the poll's likes move by one in the matching direction. The liked poll changes only in `likes`, every other poll keeps its record, and options and votes are untouched |
| Polls.CreatePollOptionKeepsConsistency | backend/routers/polls.py:104-119 | creating an option preserves the store invariant |
| Polls.CreatePollKeepsConsistency | backend/routers/polls.py:259-277 | creating a poll preserves the store invariant |
| Polls.ToggleVoteKeepsConsistency | backend/routers/polls.py:134-139 | every vote toggle, successful or not, preserves the store invariant: counts match the actions and each user has at most one vote per poll |
| Polls.ToggleVoteEffect | backend/routers/polls.py:139-197 | voting for the option already voted for removes the caller's vote on the poll, and the option loses one vote. Otherwise the caller ends with exactly one vote on the poll, for this option; it gains one vote and the previously voted option loses one. Other users' votes and other polls' votes are untouched |
| Polls.ToggleVoteTwice | backend/routers/polls.py:139-197 | toggling the same option twice restores the store when the caller had no vote for another option of the poll |
| Polls.ToggleLikeKeepsConsistency | backend/routers/polls.py:315-338 | a like toggle preserves the store invariant, so likes equal the number of like actions and never go negative |
| Polls.ToggleLikeTwice | backend/routers/polls.py:315-338 | toggling a like twice restores the store |
| Polls.PollsApi.CreatePollOption | backend/routers/polls.py:74-124 | performs the handler's lookups and insert; the response and the new store are the ones `CreatePollOptionStep` specifies, and the invariant holds |
| Polls.PollsApi.DeleteVote | backend/routers/polls.py:173-177 | the new store is the old one with the vote withdrawn as `WithdrawVote` specifies |
| Polls.PollsApi.RecordVote | backend/routers/polls.py:186-197 | the new store is the old one with the vote cast as `CastVote` specifies |
| Polls.PollsApi.ToggleVote | backend/routers/polls.py:129-201 | performs the delete, the decrement, the early un-vote return, the insert and the increment; the response and the new store are the ones `ToggleVoteStep` specifies, and the invariant holds |
| Polls.PollsApi.CreatePoll | backend/routers/polls.py:250-285 | inserts the poll; the response and the new store are the ones `CreatePollStep` specifies, and the invariant holds |
| Polls.PollsApi.ToggleLike | backend/routers/polls.py:290-354 | deletes or inserts the like and moves the count; the response and the new store are the ones `ToggleLikeStep` specifies, and the invariant holds |
| PollsContext.PrependPoll | quick-poll-inator/src/context/PollsContext.tsx:68-71 | the new poll comes first, followed by the previous list unchanged |
| PollsContext.ReplaceById | quick-poll-inator/src/context/PollsContext.tsx:74-79 | the length is kept, and every entry whose id matches is replaced by the update while every other entry stays |
| PollsContext.ApplyMessage | quick-poll-inator/src/context/PollsContext.tsx:63-80 | a `poll_created` message prepends its poll; a `poll_updated` message replaces by id; any other type leaves the list unchanged |
| PollsContext.Ids | quick-poll-inator/src/context/PollsContext.tsx:77 | the ids of the list, position by position |
| PollsContext.ReplaceAbsent | quick-poll-inator/src/context/PollsContext.tsx:74-79 | an update whose id is in no entry leaves the list unchanged |
| PollsContext.ReplaceIdempotent | quick-poll-inator/src/context/PollsContext.tsx:74-79 | applying the same update twice equals applying it once |
| PollsContext.ReplaceKeepsIds | quick-poll-inator/src/context/PollsContext.tsx:77 | an update keeps the sequence of ids, so distinct ids stay distinct |
| PollsContext.PrependCountsOnce | quick-poll-inator/src/context/PollsContext.tsx:70 | creation does not de-duplicate: the new poll's id occurs once more than before |
| PollsContext.CreatedTwiceDuplicates | quick-poll-inator/src/context/PollsContext.tsx:68-71 | a replayed `poll_created` yields two entries with the same poll |
| PollsContext.UpdatedAbsentIgnored | quick-poll-inator/src/context/PollsContext.tsx:74-79 | `poll_updated` for a poll not in the list does not insert it |
| PollsContext.FeedExamples | quick-poll-inator/src/context/PollsContext.tsx:68-79 | from [A, B], creating C gives [C, A, B], and updating A to A' gives [A', B] |
| PollsContext.SnapshotResult | quick-poll-inator/src/context/PollsContext.tsx:39-47 | the snapshot succeeds exactly when the response is ok and its body parses. A non-ok response fails with "Failed to fetch polls". A network failure fails with its own message, and an ok response whose body fails to parse fails with the parse error's message |
| PollsContext.PollsProvider.constructor | quick-poll-inator/src/context/PollsContext.tsx:30-32 | the state starts with an empty list, loading on and no error |
| PollsContext.PollsProvider.Value | quick-poll-inator/src/context/PollsContext.tsx:96 | the context value is the three state cells |
| PollsContext.PollsProvider.StartFetch | quick-poll-inator/src/context/PollsContext.tsx:37-38 | loading is switched on and the error cleared, leaving the list alone |
| PollsContext.PollsProvider.FinishFetch | quick-poll-inator/src/context/PollsContext.tsx:39-50 | a successful snapshot replaces the whole list; a failure records its message and keeps the list; loading ends either way |
| PollsContext.PollsProvider.OnMessage | quick-poll-inator/src/context/PollsContext.tsx:63-80 | the list becomes the message applied to the old list; loading and error are untouched |
| PollsContext.UsePolls | quick-poll-inator/src/context/PollsContext.tsx:104-110 | outside a provider the hook fails with its fixed message; inside one it returns the provider's value |
| PollsContext.MessageBeforeSnapshotIsLost | quick-poll-inator/src/context/PollsContext.tsx:36-50 | a websocket message handled while the snapshot request is pending is overwritten when a successful snapshot arrives |

## Left out

- MongoDB is not modelled. The helpers of `utils/database.py` are foreign code. Each one is modelled as the map or set update its call site implies. This includes the 100-document cap of `to_list(100)`.
- `get_all_polls` (backend/routers/polls.py:206-212) is not modelled. It reads the whole collection through the database helpers and returns the stored polls, at most 100 of them.
- The JWT encoding, the signature, the `exp` claim inside the payload and the secret key are not modelled. A token is the pair of its claims and its expiry instant. Malformed or forged tokens are reduced to the decode error that `DecodeAccessToken` returns.
- Argon2 is idealised as collision free: a hash remembers only its password and salt.
- `EmailStr` validation of email syntax is library code and is not modelled. An email is any string.
- `IsValidObjectIdString` is the model's choice for `ObjectId.is_valid`: exactly 24 hexadecimal digits. bson is not part of this model. For a 24-character string it goes through `bytes.fromhex`, which skips ASCII whitespace, so the library may accept strings this predicate refuses.
- The model's `ObjectId(hex)` datatype keeps the path text as given, upper-case hex included. bson compares ids as their 12 bytes and prints them in lower case. This case folding is not modelled, so an upper-case id in a path or a stored reference is taken as is.
- FastAPI's 422 responses for bodies that fail validation are not modelled. The handlers take bodies that already satisfy `UserCreateValid`, `PollCreateValid` or `PollOptionCreateValid`. The `Parse*` functions model the validation itself.
- The 403 that `HTTPBearer` gives for a missing Authorization header is not modelled, on the poll routes or on `/user/me` (backend/routers/users.py:28 and 148). `GetCurrentUserId` and `GetCurrentUser` both start from the outcome of decoding the bearer token. The poll handlers take the resolved user id.
- Polls.PollsApi.CreatePollOption, Polls.PollsApi.CreatePoll and Users.UserStore.Register require the id the database assigns to be fresh: no stored option, poll or user has it. Real MongoDB always assigns a fresh `_id`. `UserStore.Valid()` also records that stored user ids are distinct, and `Register` preserves this.
- The 500 branches that follow a successful insert are not modelled: "Failed to create poll option", "Failed to create user" and "Failed to create poll". The in-memory store always returns what it just inserted, so those branches cannot be reached. The 404 "Poll not found after like update" (backend/routers/polls.py:348-352) likewise cannot be reached, since the poll was found before the update and nothing deletes it.
- Polls.CreatePollStep: `create_poll` refers to `new_poll` after the `if`, where it is unbound if no id was inserted. That failure path cannot be reached with a store that always inserts, so it is not modelled.
- The `created_at` fields and the `_id` of like and vote actions are left out. The handlers read `_id` only to delete the action they have just found (backend/routers/polls.py:174 and 322). The model deletes that action by value instead (`WithdrawVote`, and the like branch of `ToggleLikeStep`). It is the same document, because actions form a set and `Consistent` includes `OneVotePerPoll`. The `poll_option_id_obj` field that the vote handler reads (backend/routers/polls.py:169-171) comes from the foreign lookup helper. The model uses the vote's `optionId` in its place.
- Polls.CreatePollOptionStep, Polls.ToggleVoteStep, Polls.GetPollById, Polls.ToggleLikeStep, Polls.PollsApi.CreatePollOption, Polls.PollsApi.ToggleVote and Polls.PollsApi.ToggleLike give the handlers' intended 400 for a malformed id, through the corrected `ParsePathId`. The code as written answers 500 on that branch (backend/routers/polls.py:83-88, 141-148, 221-227 and 301-306), as `ParsePathIdAsWritten` and the first row of "## Findings" record.
- Users.UserStore.Register takes one clock reading `now`, used both for the user's `created_at` and for the token's expiry. The source reads the clock twice (backend/routers/users.py:62, and backend/utils/auth.py:43 inside `create_access_token`), so the two instants may differ slightly.
- Concurrent requests are not modelled; each handler is one atomic step. The race that `update_result.modified_count == 0` mentions, and duplicate action documents from simultaneous toggles, cannot arise in this model.
- `main.py` registers only the CORS middleware (backend/main.py:13-24) and never `AuthenticateMiddleware`. So in the program as wired no request passes through `Authenticate.Dispatch`; the model states what the middleware would do if it were registered.
- The websocket server (`routers/websocket.py`, its connection manager and broadcasts) and the rest of `main.py` (app wiring, CORS, router mounting) are not part of this model. Neither is the HTTP status Starlette gives for an exception raised inside a middleware.
- In the client, `JSON.parse` errors in `onmessage`, React's batching of state updates, effect cleanup (`ws.close()`), and the `onopen`/`onclose`/`onerror` logging are not modelled. A message is taken as already parsed.
- The client pages and forms (`app/`, `components/` other than the `Poll` types) are not part of this model.
- The source's comments and docstrings sometimes disagree with its code, and the model follows the code. Poll text is bounded 3..300, not "min 5, max 280" (backend/routers/polls.py:257). The registration password needs at least 6 characters (backend/models/mongo_models.py:66), not "min 8 characters" (backend/routers/users.py:41).
- The client (quick-poll-inator/src/context/PollsContext.tsx) does not de-duplicate a `poll_created` message for a poll already in the list. A message arriving before the snapshot is overwritten by it, not buffered. A failed fetch keeps the list. Its error is one of three: the fixed "Failed to fetch polls" for a non-ok response, the network error's own message, or the parse error's message when an ok response's body is not valid JSON.

## Findings

| source | as written | input that shows it | evidently intended | confidence | as-written member | corrected member |
|---|---|---|---|---|---|---|
| backend/routers/polls.py:83-88 | the handler catches `ValueError` around `PyObjectId(poll_id)`. Calling the class runs the ObjectId constructor, which raises bson's `InvalidId`, not a `ValueError`. The same code is at lines 141-148, 221-227 and 301-306 | path id "abc" on `GET /polls/abc` | 400 "Invalid Poll ID format" (400 "Invalid Poll or Option ID format" on the vote route) | not executed | Polls.ParsePathIdAsWritten, Polls.MalformedIdEscapes | Polls.ParsePathId |
| backend/routers/polls.py:216-243 | `response_model=PollResponse` declares no `options` field, so the options the handler attaches are dropped from the response | a poll with one stored option, fetched with `GET /polls/{id}` | the response lists the poll's options | not executed | Polls.GetPollByIdAsWritten, Polls.OptionsDropped | Polls.GetPollById |
