/** The live poll feed of quick-poll-inator/src/context/PollsContext.tsx.
    The provider keeps three state cells (polls, isLoading, error); the
    initial fetch sets them step by step, and every websocket message is
    folded into `polls` by one of two list updaters. The message stream is
    arbitrary input: nothing here assumes what a server sends. */
module PollsContext {
  import opened Common

  /** PollOption of Poll.d.ts. */
  datatype PollOption = PollOption(id: string, pollId: string, text: string, votes: int, createdAt: string)

  /** PollResponse of Poll.d.ts. */
  datatype PollResponse = PollResponse(
    id: string, text: string, likes: int, creatorId: string, createdAt: string, options: seq<PollOption>)

  /** A parsed websocket message: its `type` field and its `data` payload. */
  datatype Message = Message(kind: string, data: PollResponse)

  const POLL_CREATED := "poll_created"
  const POLL_UPDATED := "poll_updated"

  // ------------------------------------------------------------- the updaters

  /** The `poll_created` updater `[newPoll, ...prevPolls]`. */
  function PrependPoll(prev: seq<PollResponse>, newPoll: PollResponse): (r: seq<PollResponse>)
    ensures |r| == |prev| + 1 && r[0] == newPoll && r[1..] == prev
  {
    [newPoll] + prev
  }

  /** The `poll_updated` updater: `prevPolls.map(p => p._id === updated._id ? updated : p)`. */
  function ReplaceById(prev: seq<PollResponse>, updated: PollResponse): (r: seq<PollResponse>)
    ensures |r| == |prev|
    ensures forall i :: 0 <= i < |prev| ==> r[i] == (if prev[i].id == updated.id then updated else prev[i])
  {
    if prev == [] then []
    else [if prev[0].id == updated.id then updated else prev[0]] + ReplaceById(prev[1..], updated)
  }

  /** The `onmessage` handler: a `poll_created` message prepends its poll, a
      `poll_updated` message replaces by id, any other type changes nothing. */
  function ApplyMessage(prev: seq<PollResponse>, msg: Message): (r: seq<PollResponse>)
    ensures msg.kind == POLL_CREATED ==> |r| == |prev| + 1 && r[0] == msg.data && r[1..] == prev
    ensures msg.kind == POLL_UPDATED ==>
      |r| == |prev| && forall i :: 0 <= i < |prev| ==> r[i] == (if prev[i].id == msg.data.id then msg.data else prev[i])
    ensures msg.kind != POLL_CREATED && msg.kind != POLL_UPDATED ==> r == prev
  {
    var afterCreated := if msg.kind == POLL_CREATED then PrependPoll(prev, msg.data) else prev;
    if msg.kind == POLL_UPDATED then ReplaceById(afterCreated, msg.data) else afterCreated
  }

  /** The ids of a list of polls, in order. */
  function Ids(polls: seq<PollResponse>): (ids: seq<string>)
    ensures |ids| == |polls| && forall i :: 0 <= i < |polls| ==> ids[i] == polls[i].id
  {
    if polls == [] then [] else [polls[0].id] + Ids(polls[1..])
  }

  function CountId(polls: seq<PollResponse>, id: string): nat {
    if polls == [] then 0 else (if polls[0].id == id then 1 else 0) + CountId(polls[1..], id)
  }

  // ------------------------------------------------------- updater properties

  /** An update whose id is in no poll of the list leaves the list as it is. */
  lemma ReplaceAbsent(prev: seq<PollResponse>, updated: PollResponse)
    requires forall i :: 0 <= i < |prev| ==> prev[i].id != updated.id
    ensures ReplaceById(prev, updated) == prev
  {
  }

  /** Applying the same update twice is applying it once. */
  lemma ReplaceIdempotent(prev: seq<PollResponse>, updated: PollResponse)
    ensures ReplaceById(ReplaceById(prev, updated), updated) == ReplaceById(prev, updated)
  {
  }

  /** An update keeps every id at its position, so a list of distinct ids
      stays one. */
  lemma ReplaceKeepsIds(prev: seq<PollResponse>, updated: PollResponse)
    ensures Ids(ReplaceById(prev, updated)) == Ids(prev)
  {
  }

  /** The creation handler does not de-duplicate: the new poll's id occurs
      once more than before, even when it was already present. */
  lemma {:induction false} PrependCountsOnce(prev: seq<PollResponse>, newPoll: PollResponse)
    ensures CountId(PrependPoll(prev, newPoll), newPoll.id) == CountId(prev, newPoll.id) + 1
  {
    assert PrependPoll(prev, newPoll)[1..] == prev;
  }

  /** A replayed `poll_created` for a poll already in the list yields two
      entries with that id, where a replace-on-duplicate rule would yield one. */
  lemma CreatedTwiceDuplicates(p: PollResponse)
    ensures ApplyMessage(ApplyMessage([], Message(POLL_CREATED, p)), Message(POLL_CREATED, p)) == [p, p]
    ensures ReplaceById([p], p) == [p]
  {
  }

  /** `poll_updated` for an id that is not in the list does not insert it. */
  lemma UpdatedAbsentIgnored(prev: seq<PollResponse>, p: PollResponse)
    requires forall i :: 0 <= i < |prev| ==> prev[i].id != p.id
    ensures ApplyMessage(prev, Message(POLL_UPDATED, p)) == prev
  {
    ReplaceAbsent(prev, p);
  }

  /** From [A, B], creating C gives [C, A, B]; updating A to A' (same id,
      other content) gives [A', B] when A and B have different ids. */
  lemma FeedExamples(a: PollResponse, b: PollResponse, c: PollResponse, a': PollResponse)
    requires a.id != b.id && a'.id == a.id
    ensures ApplyMessage([a, b], Message(POLL_CREATED, c)) == [c, a, b]
    ensures ApplyMessage([a, b], Message(POLL_UPDATED, a')) == [a', b]
  {
    var r := ApplyMessage([a, b], Message(POLL_UPDATED, a'));
    assert r[0] == a' && r[1] == b;
  }

  // --------------------------------------------------------------- provider

  /** The value the provider publishes to consumers. */
  datatype PollsContextState = PollsContextState(polls: seq<PollResponse>, isLoading: bool, error: Option<string>)

  /** How the snapshot request ends: `fetch` itself rejects with a message,
      or a response arrives with its `ok` flag and the outcome of reading
      its JSON body (the polls, or the message of the parse error). */
  datatype FetchOutcome =
    | NetworkFailure(message: string)
    | Response(ok: bool, body: Result<seq<PollResponse>, string>)

  const FETCH_FAILED := "Failed to fetch polls"

  /** The `try` block of fetchInitialPolls: the fetched polls, or the message
      of the error it throws or receives. A non-ok response is refused with
      "Failed to fetch polls" before its body is read; an ok response whose
      body fails to parse gives the parse error's message. */
  function SnapshotResult(outcome: FetchOutcome): (r: Result<seq<PollResponse>, string>)
    ensures r.Ok? <==> outcome.Response? && outcome.ok && outcome.body.Ok?
    ensures r.Ok? ==> r.value == outcome.body.value
    ensures outcome.Response? && !outcome.ok ==> r == Err(FETCH_FAILED)
    ensures outcome.NetworkFailure? ==> r == Err(outcome.message)
    ensures outcome.Response? && outcome.ok && outcome.body.Err? ==> r == Err(outcome.body.error)
  {
    match outcome
    case NetworkFailure(m) => Err(m)
    case Response(ok, body) => if !ok then Err(FETCH_FAILED) else body
  }

  /** PollsProvider's state cells. */
  class PollsProvider {
    var polls: seq<PollResponse>
    var isLoading: bool
    var error: Option<string>

    /** The `useState` initial values. */
    constructor ()
      ensures polls == [] && isLoading && error == None
    {
      polls := [];
      isLoading := true;
      error := None;
    }

    /** The context value `{ polls, isLoading, error }`. */
    function Value(): (v: PollsContextState)
      reads this
      ensures v.polls == polls && v.isLoading == isLoading && v.error == error
    {
      PollsContextState(polls, isLoading, error)
    }

    /** fetchInitialPolls up to its `await`: loading on, error cleared. */
    method StartFetch()
      modifies this
      ensures isLoading && error == None && polls == old(polls)
    {
      isLoading := true;
      error := None;
    }

    /** fetchInitialPolls after its `await`: a successful snapshot replaces
        the whole list (including anything websocket messages put there in
        the meantime); a failure records its message and keeps the list;
        loading is off either way. */
    method FinishFetch(outcome: FetchOutcome)
      modifies this
      ensures !isLoading
      ensures SnapshotResult(outcome).Ok? ==> polls == SnapshotResult(outcome).value && error == old(error)
      ensures SnapshotResult(outcome).Err? ==> polls == old(polls) && error == Some(SnapshotResult(outcome).error)
    {
      var result := SnapshotResult(outcome);
      if result.Ok? {
        polls := result.value;
      } else {
        error := Some(result.error);
      }
      isLoading := false;
    }

    /** ws.onmessage: one functional update of `polls`. */
    method OnMessage(msg: Message)
      modifies this
      ensures polls == ApplyMessage(old(polls), msg)
      ensures isLoading == old(isLoading) && error == old(error)
    {
      polls := ApplyMessage(polls, msg);
    }
  }

  const NO_PROVIDER := "usePolls must be used within a PollsProvider"

  /** usePolls: the provider's value, or an error outside any provider. */
  function UsePolls(context: Option<PollsContextState>): (r: Result<PollsContextState, string>)
    ensures r.Err? <==> context.None?
    ensures r.Err? ==> r.error == NO_PROVIDER
    ensures r.Ok? ==> r.value == context.value
  {
    match context
    case None => Err(NO_PROVIDER)
    case Some(v) => Ok(v)
  }

  /** A message that arrives between the start and the end of a successful
      snapshot fetch is lost: the snapshot overwrites it. */
  method MessageBeforeSnapshotIsLost(msg: Message, data: seq<PollResponse>) returns (p: PollsProvider)
    ensures p.polls == data && !p.isLoading && p.error == None
  {
    p := new PollsProvider();
    p.StartFetch();
    p.OnMessage(msg);
    p.FinishFetch(Response(true, Ok(data)));
  }
}
