/**
  The web client's session-scoped state machine (the `App` component): the
  session id restored from browser storage or fetched once, the ingest
  request with its status line and the deduplicated video catalog, and the
  chat transcript with its turn-taking. Network replies arrive as values;
  each request is split into a step that starts it and a step that settles
  it, so overlapping requests are sequences of these steps.
*/
module App {
  import opened Wrappers

  datatype Role = System | User | Assistant

  /** One transcript turn. */
  datatype Message = Message(role: Role, content: string)

  /** One catalog entry, as the backend returns it. */
  datatype Video = Video(videoId: string, title: string, url: string)

  const Welcome := "Hello! I can answer questions about your YouTube videos. First, ingest a video or playlist URL above."
  const SessionKey := "session_id"
  /** What browser storage holds after `setItem` is given `undefined`. */
  const UndefinedText := "undefined"
  const StartingStatus := "Starting ingestion..."
  const CompleteStatus := "Ingestion complete! You can start chatting now."
  const FailedPrefix := "Ingestion failed: "
  const UnknownError := "Unknown error"
  const ConnectError := "Error connecting to backend."
  const NoSessionError := "Error: No session ID found. Please refresh."
  const ChatError := "Error getting response."

  // ---------------------------------------------------------------------
  // Video catalog
  // ---------------------------------------------------------------------

  /** Some entry of `videos` has `video_id == id` (the `some` test of the merge). */
  predicate HasId(videos: seq<Video>, id: string) {
    exists k :: 0 <= k < |videos| && videos[k].videoId == id
  }

  predicate DistinctIds(videos: seq<Video>) {
    forall i, j :: 0 <= i < j < |videos| ==> videos[i].videoId != videos[j].videoId
  }

  /** One turn of the merge loop: push `v` unless its id is already present. */
  function MergeOne(videos: seq<Video>, v: Video): seq<Video> {
    if HasId(videos, v.videoId) then videos else videos + [v]
  }

  /** The catalog after merging `incoming`, one video at a time, into `catalog`. */
  function Merge(catalog: seq<Video>, incoming: seq<Video>): (r: seq<Video>)
    ensures catalog <= r && |r| <= |catalog| + |incoming|
  {
    if incoming == [] then catalog
    else MergeOne(Merge(catalog, incoming[..|incoming| - 1]), incoming[|incoming| - 1])
  }

  /** Incoming video `j` is new: neither the catalog nor an earlier incoming video has its id. */
  predicate FirstNew(catalog: seq<Video>, incoming: seq<Video>, j: nat)
    requires j < |incoming|
  {
    !HasId(catalog, incoming[j].videoId) && !HasId(incoming[..j], incoming[j].videoId)
  }

  /** The incoming videos that are new, in incoming order. */
  function Additions(catalog: seq<Video>, incoming: seq<Video>): seq<Video>
  {
    if incoming == [] then []
    else
      var n := |incoming| - 1;
      Additions(catalog, incoming[..n]) + (if FirstNew(catalog, incoming, n) then [incoming[n]] else [])
  }

  /** The merge loop over a copy of the previous catalog. */
  method MergeVideos(prev: seq<Video>, incoming: seq<Video>) returns (newVideos: seq<Video>)
    ensures newVideos == Merge(prev, incoming)
  {
    newVideos := prev;
    for i := 0 to |incoming|
      invariant newVideos == Merge(prev, incoming[..i])
    {
      var v := incoming[i];
      if !HasId(newVideos, v.videoId) {
        newVideos := newVideos + [v];
      }
      assert incoming[..i + 1][..i] == incoming[..i];
    }
    assert incoming[..|incoming|] == incoming;
  }

  lemma HasIdSnoc(videos: seq<Video>, v: Video, id: string)
    ensures HasId(videos + [v], id) <==> HasId(videos, id) || v.videoId == id
  {
    if HasId(videos, id) {
      var k :| 0 <= k < |videos| && videos[k].videoId == id;
      assert (videos + [v])[k] == videos[k];
    }
    if v.videoId == id {
      assert (videos + [v])[|videos|] == v;
    }
  }

  /** The merge loses no id and invents none: its ids are those of the catalog and of the incoming list. */
  lemma {:induction false} MergeIds(catalog: seq<Video>, incoming: seq<Video>, id: string)
    ensures HasId(Merge(catalog, incoming), id) <==> HasId(catalog, id) || HasId(incoming, id)
    decreases |incoming|
  {
    if incoming != [] {
      var n := |incoming| - 1;
      var init := incoming[..n];
      MergeIds(catalog, init, id);
      HasIdSnoc(Merge(catalog, init), incoming[n], id);
      assert init + [incoming[n]] == incoming;
      HasIdSnoc(init, incoming[n], id);
    }
  }

  /**
    The merge appends exactly the new incoming videos, in incoming order, a
    duplicate inside the incoming list collapsing to its first occurrence.
  */
  lemma {:induction false} MergeAppendsAdditions(catalog: seq<Video>, incoming: seq<Video>)
    ensures Merge(catalog, incoming) == catalog + Additions(catalog, incoming)
    decreases |incoming|
  {
    if incoming != [] {
      var n := |incoming| - 1;
      var init := incoming[..n];
      var v := incoming[n];
      MergeAppendsAdditions(catalog, init);
      MergeIds(catalog, init, v.videoId);
      assert HasId(Merge(catalog, init), v.videoId) <==> !FirstNew(catalog, incoming, n);
    }
  }

  /** Merging keeps the catalog's `video_id`s pairwise distinct. */
  lemma {:induction false} MergeKeepsDistinct(catalog: seq<Video>, incoming: seq<Video>)
    requires DistinctIds(catalog)
    ensures DistinctIds(Merge(catalog, incoming))
    decreases |incoming|
  {
    if incoming != [] {
      var m := Merge(catalog, incoming[..|incoming| - 1]);
      var v := incoming[|incoming| - 1];
      MergeKeepsDistinct(catalog, incoming[..|incoming| - 1]);
      if !HasId(m, v.videoId) {
        var r := m + [v];
        forall i, j | 0 <= i < j < |r| ensures r[i].videoId != r[j].videoId {
          if j == |m| {
            assert r[i] == m[i];
          }
        }
      }
    }
  }

  /** A list whose every id is already in the catalog leaves it unchanged. */
  lemma {:induction false} MergeNothingNew(catalog: seq<Video>, incoming: seq<Video>)
    requires forall j :: 0 <= j < |incoming| ==> HasId(catalog, incoming[j].videoId)
    ensures Merge(catalog, incoming) == catalog
    decreases |incoming|
  {
    if incoming != [] {
      MergeNothingNew(catalog, incoming[..|incoming| - 1]);
    }
  }

  /** Merging the same list twice gives the catalog of merging it once. */
  lemma MergeIdempotent(catalog: seq<Video>, incoming: seq<Video>)
    ensures Merge(Merge(catalog, incoming), incoming) == Merge(catalog, incoming)
  {
    var m := Merge(catalog, incoming);
    forall j | 0 <= j < |incoming| ensures HasId(m, incoming[j].videoId) {
      MergeIds(catalog, incoming, incoming[j].videoId);
    }
    MergeNothingNew(m, incoming);
  }

  /** Merging `[a]` and then `[a', b]`, where `a'` has `a`'s id, gives `[a, b]`, never `[a, a', b]`. */
  lemma MergeDedupExample(a: Video, a': Video, b: Video)
    requires a'.videoId == a.videoId && b.videoId != a.videoId
    ensures Merge(Merge([], [a]), [a', b]) == [a, b]
  {
    assert Merge([], [a]) == [a] by {
      assert [a][..0] == [];
      assert !HasId([], a.videoId);
    }
    assert Merge([a], [a']) == [a] by {
      assert [a'][..0] == [];
      assert [a][0].videoId == a'.videoId;
    }
    assert Merge([a], [a', b]) == MergeOne([a], b) by {
      assert [a', b][..1] == [a'];
    }
    assert !HasId([a], b.videoId);
  }

  // ---------------------------------------------------------------------
  // Session bootstrap
  // ---------------------------------------------------------------------

  /** What the `/session` fetch settles with: a JSON body, with or without `session_id`, or a failure. */
  datatype SessionReply = SessionBody(sessionId: Option<string>) | SessionFailed

  /** `localStorage.getItem('session_id')`, with a missing key read as "". */
  function StoredSession(storage: map<string, string>): (s: string)
    ensures s != "" ==> SessionKey in storage && storage[SessionKey] == s
    ensures SessionKey in storage && storage[SessionKey] != "" ==> s == storage[SessionKey]
  {
    if SessionKey in storage then storage[SessionKey] else ""
  }

  /** The mount effect fetches `/session` exactly when storage holds no non-empty `session_id`. */
  predicate NeedsSessionFetch(storage: map<string, string>) {
    StoredSession(storage) == ""
  }

  /** The session id and storage once the `/session` fetch has settled. */
  function SessionSettled(sessionId: string, storage: map<string, string>, reply: SessionReply): (r: (string, map<string, string>))
    ensures reply.SessionFailed? ==> r == (sessionId, storage)
    ensures reply.SessionBody? ==> r.1.Keys == storage.Keys + {SessionKey}
    ensures reply.SessionBody? ==> forall k :: k in storage && k != SessionKey ==> r.1[k] == storage[k]
    ensures reply == SessionBody(None) ==> r.0 == "" && StoredSession(r.1) == UndefinedText
    ensures reply.SessionBody? && reply.sessionId.Some? ==> r.0 == reply.sessionId.value == StoredSession(r.1)
  {
    match reply
    case SessionFailed => (sessionId, storage)
    case SessionBody(None) => ("", storage[SessionKey := UndefinedText])
    case SessionBody(Some(id)) => (id, storage[SessionKey := id])
  }

  /**
    Once a fetched id has been stored, the next page load restores it without a
    fetch; an empty id is stored as "" and the next load fetches again.
  */
  lemma SessionSurvivesReload(sessionId: string, storage: map<string, string>, id: string)
    ensures var stored := SessionSettled(sessionId, storage, SessionBody(Some(id))).1;
      StoredSession(stored) == id && (NeedsSessionFetch(stored) <==> id == "")
  {
  }

  // ---------------------------------------------------------------------
  // Ingest
  // ---------------------------------------------------------------------

  /** The body of the `/ingest` POST. */
  datatype IngestPayload = IngestPayload(url: string, sessionId: Option<string>)

  /** A started ingest: its payload and the session id its handler saw when it started. */
  datatype PendingIngest = PendingIngest(payload: IngestPayload, capturedSession: string)

  /**
    How the `/ingest` request settles: an ok response, a non-ok response whose
    JSON body may carry `detail`, or a throw (network failure, or a body that
    is not JSON, since the body is parsed before the status is tested).
  */
  datatype IngestReply = IngestOk(sessionId: string, videos: seq<Video>) | IngestRejected(detail: Option<string>) | IngestThrew

  /** The payload: the url, with `session_id` exactly when a session is known. */
  function PayloadFor(url: string, sessionId: string): (p: IngestPayload)
    ensures p.url == url
    ensures p.sessionId.Some? <==> sessionId != ""
    ensures p.sessionId.Some? ==> p.sessionId.value == sessionId
  {
    IngestPayload(url, if sessionId != "" then Some(sessionId) else None)
  }

  /** The status after a non-ok response: the backend's detail when it is given and non-empty. */
  function FailureStatus(detail: Option<string>): (s: string)
    ensures FailedPrefix <= s
    ensures detail.Some? && detail.value != "" ==> s[|FailedPrefix|..] == detail.value
    ensures detail.None? || detail.value == "" ==> s[|FailedPrefix|..] == UnknownError
  {
    FailedPrefix + if detail.Some? && detail.value != "" then detail.value else UnknownError
  }

  /** A non-ok response with detail "bad url" reports "bad url" in the status. */
  lemma FailureStatusShowsDetail()
    ensures FailureStatus(Some("bad url")) == "Ingestion failed: bad url"
  {
  }

  // ---------------------------------------------------------------------
  // Chat
  // ---------------------------------------------------------------------

  /** The body of the `/chat` POST. */
  datatype ChatRequest = ChatRequest(query: string, sessionId: string)

  /** How the `/chat` request settles: an ok response with its answer, a non-ok response, or a throw. */
  datatype ChatReply = ChatAnswer(answer: string) | ChatNotOk | ChatThrew

  /** The one turn a settled chat appends: always in the `system` role. */
  function ResponseTurn(reply: ChatReply): (m: Message)
    ensures m.role == System
    ensures reply.ChatAnswer? ==> m.content == reply.answer
    ensures !reply.ChatAnswer? ==> m.content == ChatError
  {
    match reply
    case ChatAnswer(answer) => Message(System, answer)
    case _ => Message(System, ChatError)
  }

  /** The number of turns of `messages` in role `role`. */
  function CountRole(messages: seq<Message>, role: Role): nat
  {
    if messages == [] then 0
    else CountRole(messages[..|messages| - 1], role) + (if messages[|messages| - 1].role == role then 1 else 0)
  }

  lemma CountRoleSnoc(messages: seq<Message>, m: Message, role: Role)
    ensures CountRole(messages + [m], role) == CountRole(messages, role) + (if m.role == role then 1 else 0)
  {
  }

  // ---------------------------------------------------------------------
  // The component's state
  // ---------------------------------------------------------------------

  class Client {
    var url: string
    var query: string
    var sessionId: string
    /** Browser storage's string entries; the catalog's entry is `savedVideos`. */
    var storage: map<string, string>
    /** The catalog as last written under `session_videos` (its JSON text is not modelled). */
    var savedVideos: seq<Video>
    var videos: seq<Video>
    var messages: seq<Message>
    var ingesting: bool
    var chatting: bool
    var ingestStatus: string

    /** Chats that have appended their user turn. */
    ghost var asked: nat
    /** Chats that have settled with their one response turn. */
    ghost var answered: nat
    /** Chat attempts turned away for want of a session. */
    ghost var refused: nat

    /**
      The transcript starts with the welcome turn, holds one user turn per
      started chat and one system turn per settled chat or refusal, never an
      `assistant` turn; and storage mirrors the catalog.
    */
    ghost predicate Valid()
      reads this
    {
      && |messages| >= 1 && messages[0] == Message(System, Welcome)
      && (forall k :: 0 <= k < |messages| ==> messages[k].role != Assistant)
      && CountRole(messages, User) == asked
      && |messages| == 1 + asked + answered + refused
      && answered <= asked
      && savedVideos == videos
    }

    /** The first render: empty inputs, the welcome turn, and the catalog restored from storage (or empty). */
    constructor (stored: map<string, string>, restored: seq<Video>)
      ensures Valid()
      ensures storage == stored && videos == restored && savedVideos == restored
      ensures messages == [Message(System, Welcome)]
      ensures sessionId == "" && url == "" && query == "" && ingestStatus == ""
      ensures !ingesting && !chatting
      ensures asked == 0 && answered == 0 && refused == 0
    {
      url, query, sessionId := "", "", "";
      storage := stored;
      videos := restored;
      savedVideos := restored;
      messages := [Message(System, Welcome)];
      ingesting, chatting := false, false;
      ingestStatus := "";
      asked, answered, refused := 0, 0, 0;
    }

    /** Typing into the URL field. */
    method SetUrl(text: string)
      modifies this`url
      ensures url == text
    {
      url := text;
    }

    /** Typing into the question field. */
    method SetQuery(text: string)
      modifies this`query
      ensures query == text
    {
      query := text;
    }

    /** The mount effect: restore a stored non-empty session id, or report that `/session` must be fetched. */
    method BeginBootstrap() returns (fetches: bool)
      modifies this`sessionId
      ensures fetches <==> NeedsSessionFetch(storage)
      ensures !fetches ==> sessionId == StoredSession(storage)
      ensures fetches ==> sessionId == old(sessionId)
    {
      var stored := StoredSession(storage);
      fetches := stored == "";
      if !fetches {
        sessionId := stored;
      }
    }

    /** The `/session` fetch settles: the id is set and stored; on failure nothing changes. */
    method SettleBootstrap(reply: SessionReply)
      modifies this`sessionId, this`storage
      ensures (sessionId, storage) == SessionSettled(old(sessionId), old(storage), reply)
    {
      match reply {
        case SessionFailed =>
        case SessionBody(None) =>
          sessionId := "";
          storage := storage[SessionKey := UndefinedText];
        case SessionBody(Some(id)) =>
          sessionId := id;
          storage := storage[SessionKey := id];
      }
    }

    /** `handleIngest` up to its request: nothing for an empty url, else busy with the starting status. */
    method BeginIngest() returns (pending: Option<PendingIngest>)
      modifies this`ingesting, this`ingestStatus
      ensures url == "" ==> pending == None && ingesting == old(ingesting) && ingestStatus == old(ingestStatus)
      ensures url != "" ==> pending == Some(PendingIngest(PayloadFor(url, sessionId), sessionId))
      ensures url != "" ==> ingesting && ingestStatus == StartingStatus
    {
      if url == "" {
        return None;
      }
      ingesting := true;
      ingestStatus := StartingStatus;
      pending := Some(PendingIngest(PayloadFor(url, sessionId), sessionId));
    }

    /**
      `handleIngest` after its request: on success the status, a returned
      non-empty id that differs from the one the handler saw, and the merged
      catalog; on failure only the status; never busy afterwards.
    */
    method SettleIngest(pending: PendingIngest, reply: IngestReply)
      requires Valid()
      modifies this`sessionId, this`storage, this`videos, this`savedVideos, this`ingestStatus, this`ingesting
      ensures Valid()
      ensures !ingesting
      ensures reply.IngestOk? ==> ingestStatus == CompleteStatus
      ensures reply.IngestOk? ==> videos == Merge(old(videos), reply.videos)
      ensures reply.IngestOk? && reply.sessionId != "" && reply.sessionId != pending.capturedSession ==>
        sessionId == reply.sessionId && storage == old(storage)[SessionKey := reply.sessionId]
      ensures reply.IngestRejected? ==> ingestStatus == FailureStatus(reply.detail)
      ensures reply.IngestThrew? ==> ingestStatus == ConnectError
      ensures !(reply.IngestOk? && reply.sessionId != "" && reply.sessionId != pending.capturedSession) ==>
        sessionId == old(sessionId) && storage == old(storage)
      ensures !reply.IngestOk? ==> videos == old(videos)
    {
      match reply {
        case IngestOk(returned, incoming) =>
          ingestStatus := CompleteStatus;
          if returned != "" && returned != pending.capturedSession {
            sessionId := returned;
            storage := storage[SessionKey := returned];
          }
          videos := MergeVideos(videos, incoming);
          savedVideos := videos;
        case IngestRejected(detail) =>
          ingestStatus := FailureStatus(detail);
        case IngestThrew =>
          ingestStatus := ConnectError;
      }
      ingesting := false;
    }

    /**
      `handleChat` up to its request. A click on the send button does nothing
      while a chat is running (the button is disabled); Enter is not guarded.
      An empty question does nothing; without a session one error turn is
      appended and nothing is sent; otherwise the user turn is appended, the
      field cleared and the client marked busy.
    */
    method BeginChat(viaButton: bool) returns (request: Option<ChatRequest>)
      requires Valid()
      modifies this`messages, this`query, this`chatting, this`asked, this`refused
      ensures Valid()
      ensures (viaButton && old(chatting)) || old(query) == "" ==>
        request == None && messages == old(messages) && query == old(query) && chatting == old(chatting)
      ensures !(viaButton && old(chatting)) && old(query) != "" && sessionId == "" ==>
        request == None && messages == old(messages) + [Message(System, NoSessionError)]
        && query == old(query) && chatting == old(chatting)
      ensures !(viaButton && old(chatting)) && old(query) != "" && sessionId != "" ==>
        request == Some(ChatRequest(old(query), sessionId))
        && messages == old(messages) + [Message(User, old(query))]
        && query == "" && chatting
      ensures answered == old(answered)
    {
      if (viaButton && chatting) || query == "" {
        return None;
      }
      if sessionId == "" {
        CountRoleSnoc(messages, Message(System, NoSessionError), User);
        messages := messages + [Message(System, NoSessionError)];
        refused := refused + 1;
        return None;
      }
      CountRoleSnoc(messages, Message(User, query), User);
      messages := messages + [Message(User, query)];
      asked := asked + 1;
      request := Some(ChatRequest(query, sessionId));
      query := "";
      chatting := true;
    }

    /** `handleChat` after its request: exactly one system turn is appended, and the client is idle. */
    method SettleChat(reply: ChatReply)
      requires Valid() && answered < asked
      modifies this`messages, this`chatting, this`answered
      ensures Valid()
      ensures messages == old(messages) + [ResponseTurn(reply)]
      ensures !chatting && answered == old(answered) + 1
    {
      var turn := ResponseTurn(reply);
      CountRoleSnoc(messages, turn, User);
      messages := messages + [turn];
      answered := answered + 1;
      chatting := false;
    }
  }
}
