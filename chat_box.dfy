/**
 * The chat widget shown on a listing or booking: who may use it, how the
 * conversation id is obtained, how the message log is replaced by polls and
 * extended by sends, and how each log entry is annotated for display.
 */
module ChatBox {
  import opened Wrappers
  import opened Text
  import opened Auth

  /** A message as the server returns it; `sentAt` is the instant `sent_at` denotes. */
  datatype Message = Message(id: string, senderId: string, body: string, sentAt: int)

  // ---------------------------------------------------------------------
  // Access guard

  datatype Access =
    | LoginPrompt   // "Log in to chat with the host"
    | OwnListing    // "This is your listing" / "You can't message yourself"
    | ChatAllowed

  /**
   * The two early returns of the render: no user at all gets the login
   * prompt whatever the flag says; the host is turned away unless
   * `allowHostChat` is set; everybody else reaches the chat.
   */
  function Guard(user: Option<User>, hostId: string, allowHostChat: bool): (a: Access)
    ensures user.None? ==> a == LoginPrompt
    ensures user.Some? ==> (a == OwnListing <==> UserId(user) == Some(hostId) && !allowHostChat)
    ensures a == ChatAllowed <==> user.Some? && (UserId(user) != Some(hostId) || allowHostChat)
  {
    if user.None? then LoginPrompt
    else if UserId(user) == Some(hostId) && !allowHostChat then OwnListing
    else ChatAllowed
  }

  /** Setting `allowHostChat` never turns a viewer away, and it matters only to the host. */
  lemma GuardFlagOnlyHelpsHost(user: Option<User>, hostId: string)
    ensures Guard(user, hostId, false) == ChatAllowed ==> Guard(user, hostId, true) == ChatAllowed
    ensures UserId(user) != Some(hostId) ==> Guard(user, hostId, false) == Guard(user, hostId, true)
  {
  }

  // ---------------------------------------------------------------------
  // Transcript derivation (the render's `messages.map`)

  /** One rendered entry: the message, whether it is right-aligned as the viewer's own, and whether a date header precedes it. */
  datatype Entry = Entry(message: Message, mine: bool, firstOfDay: bool)

  /** `userId && msg.sender_id === userId`. */
  predicate IsMine(userId: Option<string>, m: Message)
  {
    Truthy(userId) && m.senderId == userId.value
  }

  /** No previous message, or a previous one on another local calendar day. */
  predicate StartsDay(log: seq<Message>, i: nat, localDay: int -> int)
    requires i < |log|
  {
    i == 0 || localDay(log[i].sentAt) != localDay(log[i - 1].sentAt)
  }

  /**
   * The entries the render derives from the log, for the viewer `userId`;
   * `localDay` stands for `toDateString` in the viewer's time zone.
   */
  function Transcript(log: seq<Message>, userId: Option<string>, localDay: int -> int): (t: seq<Entry>)
    ensures |t| == |log|
    ensures forall i :: 0 <= i < |t| ==> t[i].message == log[i]
  {
    seq(|log|, i requires 0 <= i < |log| => Entry(log[i], IsMine(userId, log[i]), StartsDay(log, i, localDay)))
  }

  /** The flags of the transcript, stated per entry. */
  lemma TranscriptFlags(log: seq<Message>, userId: Option<string>, localDay: int -> int, i: nat)
    requires i < |log|
    ensures Transcript(log, userId, localDay)[i].mine
            <==> userId.Some? && userId.value != "" && log[i].senderId == userId.value
    ensures Transcript(log, userId, localDay)[0].firstOfDay
    ensures i > 0 ==> (Transcript(log, userId, localDay)[i].firstOfDay
                       <==> localDay(log[i].sentAt) != localDay(log[i - 1].sentAt))
  {
  }

  /** The local day of every message, in log order. */
  function Days(log: seq<Message>, localDay: int -> int): (d: seq<int>)
    ensures |d| == |log| && forall i :: 0 <= i < |d| ==> d[i] == localDay(log[i].sentAt)
  {
    seq(|log|, i requires 0 <= i < |log| => localDay(log[i].sentAt))
  }

  /** How many date headers a transcript shows. */
  function SeparatorCount(t: seq<Entry>): nat {
    if t == [] then 0
    else SeparatorCount(t[..|t| - 1]) + (if t[|t| - 1].firstOfDay then 1 else 0)
  }

  function Last<T>(s: seq<T>): T
    requires s != []
  {
    s[|s| - 1]
  }

  function Flatten(g: seq<seq<int>>): seq<int> {
    if g == [] then [] else Flatten(g[..|g| - 1]) + Last(g)
  }

  predicate Constant(b: seq<int>) {
    forall i :: 0 <= i < |b| ==> b[i] == b[0]
  }

  /**
   * The maximal runs of equal consecutive values of `s`, in order. Their properties are the lemmas
   * below: non-empty constant runs, neighbours differ, concatenation gives `s`.
   */
  function Runs(s: seq<int>): (g: seq<seq<int>>)
    ensures g == [] <==> s == []
    ensures forall k :: 0 <= k < |g| ==> g[k] != []
    ensures s != [] ==> Last(Last(g)) == Last(s)
  {
    if s == [] then []
    else
      var g := Runs(s[..|s| - 1]);
      var x := Last(s);
      if g != [] && Last(Last(g)) == x then g[..|g| - 1] + [Last(g) + [x]]
      else g + [[x]]
  }

  lemma FlattenSnoc(g: seq<seq<int>>, b: seq<int>)
    ensures Flatten(g + [b]) == Flatten(g) + b
  {
    assert (g + [b])[..|g|] == g;
  }

  /** Extending the last run by `x` appends `x` to the concatenation. */
  lemma FlattenExtendLast(front: seq<seq<int>>, b: seq<int>, x: int)
    ensures Flatten(front + [b + [x]]) == Flatten(front + [b]) + [x]
  {
    FlattenSnoc(front, b);
    FlattenSnoc(front, b + [x]);
  }

  /** Appending a value to `s` appends it to the concatenation of the runs. */
  lemma RunsFlattenStep(s: seq<int>)
    requires s != []
    ensures Flatten(Runs(s)) == Flatten(Runs(s[..|s| - 1])) + [Last(s)]
  {
    var g := Runs(s[..|s| - 1]);
    var x := Last(s);
    if g != [] && Last(Last(g)) == x {
      var front := g[..|g| - 1];
      assert g == front + [Last(g)];
      FlattenExtendLast(front, Last(g), x);
    } else {
      FlattenSnoc(g, [x]);
    }
  }

  /** Concatenating the runs gives back the sequence. */
  lemma {:induction false} RunsFlatten(s: seq<int>)
    ensures Flatten(Runs(s)) == s
  {
    if s != [] {
      var p := s[..|s| - 1];
      RunsFlatten(p);
      RunsFlattenStep(s);
      assert s == p + [Last(s)];
    }
  }

  /** Every run is constant, and neighbouring runs hold different values: the runs are maximal. */
  lemma {:induction false} RunsMaximal(s: seq<int>)
    ensures forall k :: 0 <= k < |Runs(s)| ==> Constant(Runs(s)[k])
    ensures forall k :: 0 < k < |Runs(s)| ==> Runs(s)[k][0] != Runs(s)[k - 1][0]
  {
    if s != [] {
      var p := s[..|s| - 1];
      var g := Runs(p);
      var x := Last(s);
      RunsMaximal(p);
      if g != [] && Last(Last(g)) == x {
        var g' := g[..|g| - 1] + [Last(g) + [x]];
        assert forall k :: 0 <= k < |g| - 1 ==> g'[k] == g[k];
        assert Constant(Last(g));
        assert Last(g)[0] == x;
      } else {
        var g' := g + [[x]];
        assert forall k :: 0 <= k < |g| ==> g'[k] == g[k];
        if g != [] {
          assert Constant(Last(g));
          assert Last(g)[0] == Last(Last(g));
        }
      }
    }
  }

  /** The transcript of a prefix of the log is the prefix of the transcript. */
  lemma TranscriptPrefix(log: seq<Message>, userId: Option<string>, localDay: int -> int, n: nat)
    requires n <= |log|
    ensures Transcript(log, userId, localDay)[..n] == Transcript(log[..n], userId, localDay)
    ensures Days(log, localDay)[..n] == Days(log[..n], localDay)
  {
  }

  /** The transcript shows exactly one date header per maximal run of messages sent on the same local day. */
  lemma {:induction false} SeparatorsCountDayRuns(log: seq<Message>, userId: Option<string>, localDay: int -> int)
    ensures SeparatorCount(Transcript(log, userId, localDay)) == |Runs(Days(log, localDay))|
  {
    if log != [] {
      var n := |log|;
      var t := Transcript(log, userId, localDay);
      TranscriptPrefix(log, userId, localDay, n - 1);
      SeparatorsCountDayRuns(log[..n - 1], userId, localDay);
      var d := Days(log, localDay);
      assert d[..n - 1] == Days(log[..n - 1], localDay);
      if n > 1 {
        assert Last(d[..n - 1]) == d[n - 2];
      }
    }
  }

  // ---------------------------------------------------------------------
  // The message pane

  datatype Pane =
    | LoadingChat                  // "Loading chat..."
    | ErrorText(text: string)      // the error string in red
    | NoMessages                   // "No messages yet. Say hello!"
    | Entries(entries: seq<Entry>)

  /** What the message area shows: loading first, then any error, then the empty notice, else the transcript. */
  function ShowPane(loading: bool, error: Option<string>, log: seq<Message>, userId: Option<string>, localDay: int -> int): (p: Pane)
    ensures p == LoadingChat <==> loading
    ensures !loading && Truthy(error) ==> p == ErrorText(error.value)
    ensures p == NoMessages <==> !loading && !Truthy(error) && log == []
    ensures p.Entries? <==> !loading && !Truthy(error) && log != []
    ensures p.Entries? ==> p.entries == Transcript(log, userId, localDay)
    ensures p.ErrorText? ==> Some(p.text) == error
  {
    if loading then LoadingChat
    else if Truthy(error) then ErrorText(error.value)
    else if log == [] then NoMessages
    else Entries(Transcript(log, userId, localDay))
  }

  // ---------------------------------------------------------------------
  // Component state and its event handlers

  /** The outcome of a `fetch` followed by `res.json()`: a body, or a thrown error. */
  datatype Fetched<T> = Ok(body: T) | Threw

  /** A POST /api/messages in flight, with the values its handler captured. */
  datatype PendingSend = PendingSend(conversationId: string, senderId: string, body: string)

  /** A body `handleSend` can post: non-empty and already trimmed (see `PostableIsTrimmed`). */
  predicate Postable(body: string) {
    body != "" && !IsWhitespace(body[0]) && !IsWhitespace(body[|body| - 1])
  }

  /** A postable body is exactly a non-empty fixed point of `trim`. */
  lemma PostableIsTrimmed(body: string)
    ensures Postable(body) <==> body != "" && Trim(body) == body
  {
    if body != "" && Trim(body) == body {
      assert !IsWhitespace(Trim(body)[0]);
    }
  }

  /** A message this viewer posted through `handleSend`. */
  predicate OwnPost(userId: Option<string>, m: Message) {
    Truthy(userId) && m.senderId == userId.value && Postable(m.body)
  }

  const ConversationError := "Failed to load conversation."
  const MessagesError := "Failed to load messages."

  class Chat {
    const listingId: string
    const hostId: string
    const userId: Option<string>
    const propConversationId: Option<string>

    var conversationId: Option<string>
    var messages: seq<Message>
    var input: string
    var loading: bool
    var sending: bool
    var error: Option<string>
    /** How many times the polling effect has subscribed; names its latest closure. */
    var subscription: nat
    /** The `isMounted` flag of the latest polling closure; older closures' flags are false. */
    var mounted: bool

    /** The last server response the log was replaced with ... */
    ghost var confirmed: seq<Message>
    /** ... and the entries appended locally since then. */
    ghost var local: seq<Message>

    /**
     * The log is always the last successful poll followed by the messages
     * this viewer sent since, each posted by this viewer with a trimmed,
     * non-empty body. Nothing else ever edits it: no sorting, no merging.
     */
    ghost predicate Valid()
      reads this
    {
      && messages == confirmed + local
      && forall i :: 0 <= i < |local| ==> OwnPost(userId, local[i])
    }

    /** The state of the first render. */
    constructor (listingId: string, hostId: string, userId: Option<string>, propConversationId: Option<string>)
      ensures Valid()
      ensures this.listingId == listingId && this.hostId == hostId
      ensures this.userId == userId && this.propConversationId == propConversationId
      ensures conversationId == (if Truthy(propConversationId) then propConversationId else None)
      ensures messages == [] && input == "" && loading && !sending && error == None
      ensures subscription == 0 && !mounted
    {
      this.listingId := listingId;
      this.hostId := hostId;
      this.userId := userId;
      this.propConversationId := propConversationId;
      conversationId := if Truthy(propConversationId) then propConversationId else None;
      messages, input, loading, sending, error := [], "", true, false, None;
      subscription, mounted := 0, false;
      confirmed, local := [], [];
    }

    /**
     * The find-or-create effect up to its request. A supplied id is adopted
     * with no request; without a user nothing happens; otherwise the request
     * is issued (`requested`), with `loading` set and `error` cleared.
     */
    method BeginResolve() returns (requested: bool)
      requires Valid()
      modifies this`conversationId, this`loading, this`error
      ensures Valid()
      ensures requested <==> !Truthy(propConversationId) && Truthy(userId)
      ensures Truthy(propConversationId) ==>
                conversationId == propConversationId && !loading && error == old(error)
      ensures !Truthy(propConversationId) && !Truthy(userId) ==>
                conversationId == old(conversationId) && loading == old(loading) && error == old(error)
      ensures requested ==> conversationId == old(conversationId) && loading && error == None
    {
      if Truthy(propConversationId) {
        conversationId := propConversationId;
        loading := false;
        requested := false;
        return;
      }
      if !Truthy(userId) {
        requested := false;
        return;
      }
      loading := true;
      error := None;
      requested := true;
    }

    /** The find-or-create request settles: adopt the returned id (which may be missing), or record the failure. */
    method FinishResolve(outcome: Fetched<Option<string>>)
      requires Valid()
      modifies this`conversationId, this`loading, this`error
      ensures Valid()
      ensures !loading
      ensures outcome.Ok? ==> conversationId == outcome.body && error == old(error)
      ensures outcome.Threw? ==> conversationId == old(conversationId) && error == Some(ConversationError)
    {
      match outcome {
        case Ok(id) =>
          conversationId := id;
        case Threw =>
          error := Some(ConversationError);
      }
      loading := false;
    }

    /**
     * The polling effect (re)runs: the previous closure is torn down and, if
     * there is a conversation, a new one subscribes; its `token` names it.
     */
    method Subscribe() returns (token: Option<nat>)
      requires Valid()
      modifies this`subscription, this`mounted
      ensures Valid()
      ensures token.Some? <==> Truthy(conversationId)
      ensures token.Some? ==> token.value == subscription == old(subscription) + 1 && mounted
      ensures token.None? ==> subscription == old(subscription) && !mounted
    {
      mounted := false;
      if Truthy(conversationId) {
        subscription := subscription + 1;
        mounted := true;
        token := Some(subscription);
      } else {
        token := None;
      }
    }

    /** Unmount: the live closure's `isMounted` becomes false. */
    method Teardown()
      requires Valid()
      modifies this`mounted
      ensures Valid() && !mounted
    {
      mounted := false;
    }

    /**
     * Whether the closure named `token` still has `isMounted` set: only the
     * latest subscription, and only while mounted. A superseded closure is
     * never live again.
     */
    predicate Live(token: nat)
      reads this
      ensures token < subscription ==> !Live(token)
      ensures !mounted ==> !Live(token)
      ensures Live(token) ==> token == subscription
    {
      mounted && token == subscription
    }

    /**
     * A fetch of closure `token` settles. While that closure is live a body
     * replaces the whole log and a failure only sets `error`; once it has
     * been torn down nothing changes at all.
     */
    method PollSettled(token: nat, outcome: Fetched<seq<Message>>)
      requires Valid()
      modifies this`messages, this`error, this`confirmed, this`local
      ensures Valid()
      ensures !old(Live(token)) ==> unchanged(this)
      ensures old(Live(token)) && outcome.Ok? ==> messages == outcome.body && error == old(error)
      ensures old(Live(token)) && outcome.Threw? ==> messages == old(messages) && error == Some(MessagesError)
    {
      if Live(token) {
        match outcome {
          case Ok(msgs) =>
            messages := msgs;
            confirmed, local := msgs, [];
          case Threw =>
            error := Some(MessagesError);
        }
      }
    }

    /** The text field's `onChange`. */
    method Type(text: string)
      requires Valid()
      modifies this`input
      ensures Valid() && input == text
    {
      input := text;
    }

    /** Whether `req` is a request `BeginSend` could have issued for this viewer. */
    predicate Issued(req: PendingSend)
      reads this
    {
      Truthy(userId) && req.senderId == userId.value && Postable(req.body)
    }

    /**
     * `handleSend` up to its POST: refused (no request, nothing changes) when
     * the input trims to empty or there is no conversation or no user;
     * otherwise `sending` is set and the trimmed input is posted.
     */
    method BeginSend() returns (req: Option<PendingSend>)
      requires Valid()
      modifies this`sending
      ensures Valid()
      ensures req.None? <==> Trim(input) == "" || !Truthy(conversationId) || !Truthy(userId)
      ensures req.None? ==> sending == old(sending)
      ensures req.Some? ==> sending && Issued(req.value)
                            && req.value == PendingSend(conversationId.value, userId.value, Trim(input))
    {
      if Trim(input) == "" || !Truthy(conversationId) || !Truthy(userId) {
        return None;
      }
      sending := true;
      req := Some(PendingSend(conversationId.value, userId.value, Trim(input)));
    }

    /**
     * The POST settles. On an ok response the input is cleared and one entry
     * (fresh `id`, local clock `now`) is appended after whatever the log now
     * holds; otherwise log and input stay. `sending` is reset either way.
     */
    method FinishSend(req: PendingSend, ok: bool, id: string, now: int)
      requires Valid() && Issued(req)
      modifies this`sending, this`input, this`messages, this`local
      ensures Valid() && !sending
      ensures ok ==> input == "" && messages == old(messages) + [Message(id, req.senderId, req.body, now)]
      ensures !ok ==> input == old(input) && messages == old(messages)
    {
      if ok {
        var m := Message(id, req.senderId, req.body, now);
        assert OwnPost(userId, m);
        ghost var before := local;
        input := "";
        messages := messages + [m];
        local := local + [m];
        assert messages == confirmed + local by {
          assert (confirmed + before) + [m] == confirmed + (before + [m]);
        }
        assert forall i :: 0 <= i < |before| ==> local[i] == before[i];
      }
      sending := false;
    }
  }

  /** Every entry the viewer appended since the last poll is shown as the viewer's own. */
  lemma LocalEntriesAreMine(confirmed: seq<Message>, local: seq<Message>, userId: Option<string>, localDay: int -> int)
    requires forall m :: m in local ==> Truthy(userId) && m.senderId == userId.value
    ensures forall i :: |confirmed| <= i < |confirmed| + |local| ==>
              Transcript(confirmed + local, userId, localDay)[i].mine
  {
    var log := confirmed + local;
    forall i | |confirmed| <= i < |log|
      ensures Transcript(log, userId, localDay)[i].mine
    {
      assert log[i] == local[i - |confirmed|];
    }
  }
}
