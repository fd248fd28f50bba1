/** The client's conversation store: the `messages` array of the open chat,
    the selected peer, a loading flag, and the transitions that fetch, send,
    and apply the two pushed events. Requests the store sends are recorded
    in `requests`; their replies are parameters. */
module ChatStore {
  import opened Types
  import opened MessageModel
  import opened UploadRoute

  /** A response body: a JSON array of messages, or anything else. */
  datatype Body = ArrayBody(items: seq<Message>) | OtherBody

  /** The HTTP requests the store issues. */
  datatype Request =
    | FetchMessages(peer: UserId)
    | MarkSeen(ids: seq<MessageId>)
    | PostText(peer: UserId, text: string)
    | PostDocument(peer: UserId, file: File)

  /** The client's own copy of the eight accepted document types. */
  const ClientAllowedTypes: seq<string> := [
    "application/pdf",
    "application/msword",
    "application/vnd.openxmlformats-officedocument.wordprocessingml.document",
    "text/plain",
    "application/vnd.ms-excel",
    "application/vnd.openxmlformats-officedocument.spreadsheetml.sheet",
    "application/vnd.ms-powerpoint",
    "application/vnd.openxmlformats-officedocument.presentationml.presentation"
  ]

  /** `Array.isArray(body) ? body : []`. */
  function AsMessages(body: Body): (r: seq<Message>)
    ensures body.ArrayBody? ==> r == body.items
    ensures body.OtherBody? ==> r == []
  {
    match body
    case ArrayBody(items) => items
    case OtherBody => []
  }

  /** The fetched messages addressed to `me` and not yet seen, in order. */
  function UnseenFor(s: seq<Message>, me: UserId): (r: seq<Message>)
    ensures |r| <= |s|
    ensures forall m :: m in r <==> m in s && m.receiverId == me && !m.seen
  {
    if s == [] then []
    else (if s[0].receiverId == me && !s[0].seen then [s[0]] else []) + UnseenFor(s[1..], me)
  }

  /** The ids of a list of messages, in order. */
  function IdsOf(s: seq<Message>): (r: seq<MessageId>)
    ensures |r| == |s|
    ensures forall m :: m in s ==> m.id in r
    ensures forall id :: id in r ==> exists m :: m in s && m.id == id
  {
    if s == [] then [] else [s[0].id] + IdsOf(s[1..])
  }

  /** The local marking: every message whose id is listed becomes seen at
      `now`; nothing else about it changes, and no other message changes. */
  function MarkById(s: seq<Message>, ids: seq<MessageId>, now: Timestamp): (r: seq<Message>)
    ensures |r| == |s|
    ensures forall i :: 0 <= i < |s| && s[i].id in ids ==>
      r[i].seen && r[i].seenAt == Some(now) && r[i].(seen := s[i].seen, seenAt := s[i].seenAt) == s[i]
    ensures forall i :: 0 <= i < |s| && s[i].id !in ids ==> r[i] == s[i]
  {
    seq(|s|, i requires 0 <= i < |s| => if s[i].id in ids then s[i].(seen := true, seenAt := Some(now)) else s[i])
  }

  /** A pushed `messageSeen`: every message with the pushed id takes the
      pushed `seen` and `seenAt`. */
  function ApplySeenUpdate(s: seq<Message>, upd: Message): (r: seq<Message>)
    ensures |r| == |s|
    ensures forall i :: 0 <= i < |s| && s[i].id == upd.id ==>
      r[i].seen == upd.seen && r[i].seenAt == upd.seenAt && r[i].(seen := s[i].seen, seenAt := s[i].seenAt) == s[i]
    ensures forall i :: 0 <= i < |s| && s[i].id != upd.id ==> r[i] == s[i]
  {
    seq(|s|, i requires 0 <= i < |s| => if s[i].id == upd.id then s[i].(seen := upd.seen, seenAt := upd.seenAt) else s[i])
  }

  /** The message the client appends after a document send: the reply with
      the document's `originalFilename` set. The reply carries no top-level
      `originalFilename`, so the picked file's name is always the one used;
      a reply without a document gets a descriptor holding that name only,
      its other fields empty. */
  function WithOriginalName(m: Message, name: string): (r: Message)
    ensures r.document.Some? && r.document.value.originalFilename == Some(name)
    ensures m.document.Some? ==> r.document.value.(originalFilename := m.document.value.originalFilename) == m.document.value
    ensures r.(document := m.document) == m
  {
    match m.document
    case Some(d) => m.(document := Some(d.(originalFilename := Some(name))))
    case None => m.(document := Some(Document("", "", "", Some(name))))
  }

  /** What a document send appends: the reply carrying the picked name, or
      nothing after a failure. */
  function SentDocument(reply: Reply<Message>, name: string): (r: seq<Message>)
    ensures reply.Failure? ==> r == []
    ensures reply.Success? ==> r == [WithOriginalName(reply.value, name)]
  {
    if reply.Success? then [WithOriginalName(reply.value, name)] else []
  }

  /** Whether a pushed message belongs to the chat open with `peer`. */
  predicate ForChat(m: Message, peer: UserId) {
    m.senderId == peer || m.receiverId == peer
  }

  class ChatView {
    var messages: seq<Message>
    var selectedUser: Option<UserId>
    var isMessagesLoading: bool
    /** Every request sent so far, oldest first. */
    var requests: seq<Request>

    constructor ()
      ensures messages == [] && selectedUser.None? && !isMessagesLoading && requests == []
    {
      messages := [];
      selectedUser := None;
      isMessagesLoading := false;
      requests := [];
    }

    /** `getMessages(userId)`: fetch the conversation; on failure the list
        empties. With a signed-in user, the unseen messages addressed to
        them are reported in one mark-seen request, when there are any, and
        marked locally whatever that request's outcome. */
    method GetMessages(userId: UserId, authUser: Option<UserId>, fetched: Reply<Body>, now: Timestamp)
      modifies this
      ensures selectedUser == old(selectedUser) && !isMessagesLoading
      ensures fetched.Failure? ==> messages == [] && requests == old(requests) + [FetchMessages(userId)]
      ensures fetched.Success? && authUser.None? ==>
        messages == AsMessages(fetched.value) && requests == old(requests) + [FetchMessages(userId)]
      ensures fetched.Success? && authUser.Some? ==>
        var unseen := UnseenFor(AsMessages(fetched.value), authUser.value);
        && messages == MarkById(AsMessages(fetched.value), IdsOf(unseen), now)
        && requests == old(requests) + [FetchMessages(userId)] + (if unseen == [] then [] else [MarkSeen(IdsOf(unseen))])
    {
      isMessagesLoading := true;
      requests := requests + [FetchMessages(userId)];
      match fetched {
        case Failure =>
          messages := [];
        case Success(body) =>
          var fetchedMessages := AsMessages(body);
          messages := fetchedMessages;
          if authUser.Some? {
            var unseen := UnseenFor(fetchedMessages, authUser.value);
            var ids := IdsOf(unseen);
            if |unseen| > 0 {
              requests := requests + [MarkSeen(ids)];
            }
            messages := MarkById(messages, ids, now);
          }
      }
      isMessagesLoading := false;
    }

    /** `sendMessage({text})`: posts to the selected peer and appends the
        reply at the end; a failed post changes nothing. With no peer
        selected the lookup of its id throws inside the `try`, so nothing is
        sent. */
    method SendMessage(text: string, reply: Reply<Message>)
      modifies this`messages, this`requests
      ensures selectedUser.None? ==> messages == old(messages) && requests == old(requests)
      ensures selectedUser.Some? ==> requests == old(requests) + [PostText(selectedUser.value, text)]
      ensures selectedUser.Some? && reply.Success? ==> messages == old(messages) + [reply.value]
      ensures reply.Failure? ==> messages == old(messages)
    {
      if selectedUser.None? {
        return;
      }
      requests := requests + [PostText(selectedUser.value, text)];
      if reply.Success? {
        messages := messages + [reply.value];
      }
    }

    /** `sendDocument(file)`: refused locally, with no request and no state
        change, when no peer is selected or the type is outside the
        client's allow-list; otherwise posted, and the reply appended with
        the picked file's name as its original name. */
    method SendDocument(file: File, reply: Reply<Message>)
      modifies this`messages, this`requests, this`isMessagesLoading
      ensures selectedUser.None? || file.mimeType !in ClientAllowedTypes ==>
        messages == old(messages) && requests == old(requests) && isMessagesLoading == old(isMessagesLoading)
      ensures selectedUser.Some? && file.mimeType in ClientAllowedTypes ==>
        && requests == old(requests) + [PostDocument(selectedUser.value, file)]
        && !isMessagesLoading
        && messages == old(messages) + SentDocument(reply, file.name)
    {
      if selectedUser.None? {
        return;
      }
      if file.mimeType !in ClientAllowedTypes {
        return;
      }
      isMessagesLoading := true;
      requests := requests + [PostDocument(selectedUser.value, file)];
      messages := messages + SentDocument(reply, file.name);
      isMessagesLoading := false;
    }

    /** The `newMessage` handler registered for the chat with `peer` by the
        signed-in user `me`: a message of that chat is appended, with no
        check for an id already present; one addressed to `me` and unseen
        is then reported seen and marked locally. */
    method OnNewMessage(peer: UserId, me: UserId, m: Message, now: Timestamp)
      modifies this`messages, this`requests
      ensures !ForChat(m, peer) ==> messages == old(messages) && requests == old(requests)
      ensures ForChat(m, peer) && !(m.receiverId == me && !m.seen) ==>
        messages == old(messages) + [m] && requests == old(requests)
      ensures ForChat(m, peer) && m.receiverId == me && !m.seen ==>
        && messages == MarkById(old(messages) + [m], [m.id], now)
        && requests == old(requests) + [MarkSeen([m.id])]
    {
      if ForChat(m, peer) {
        messages := messages + [m];
        if m.receiverId == me && !m.seen {
          requests := requests + [MarkSeen([m.id])];
          messages := MarkById(messages, [m.id], now);
        }
      }
    }

    /** The `messageSeen` handler. */
    method OnMessageSeen(upd: Message)
      modifies this`messages
      ensures messages == ApplySeenUpdate(old(messages), upd)
    {
      messages := ApplySeenUpdate(messages, upd);
    }

    /** `setMessages(body)`: a non-array stores the empty list. */
    method SetMessages(body: Body)
      modifies this`messages
      ensures messages == AsMessages(body)
    {
      messages := AsMessages(body);
    }

    method SetSelectedUser(u: Option<UserId>)
      modifies this`selectedUser
      ensures selectedUser == u
    {
      selectedUser := u;
    }
  }

  /** The client and the server accept the same eight document types, in
      the same order. */
  lemma ClientAllowListMatchesServer()
    ensures ClientAllowedTypes == AllowedMimeTypes
    ensures forall t :: t in ClientAllowedTypes <==> FileFilter(t).Accept?
  {
  }

  lemma {:induction false} NoneUnseen(s: seq<Message>, me: UserId)
    requires forall i :: 0 <= i < |s| && s[i].receiverId == me ==> s[i].seen
    ensures UnseenFor(s, me) == []
    decreases |s|
  {
    if s != [] {
      assert forall i :: 0 <= i < |s[1..]| ==> s[1..][i] == s[i + 1];
      NoneUnseen(s[1..], me);
    }
  }

  /** After a fetch by a signed-in user, no listed message is both addressed
      to that user and unseen. */
  lemma NothingUnseenAfterFetch(fetched: seq<Message>, me: UserId, now: Timestamp)
    ensures UnseenFor(MarkById(fetched, IdsOf(UnseenFor(fetched, me)), now), me) == []
  {
    var ids := IdsOf(UnseenFor(fetched, me));
    var r := MarkById(fetched, ids, now);
    forall i | 0 <= i < |r| && r[i].receiverId == me
      ensures r[i].seen
    {
      if fetched[i].id !in ids {
        assert fetched[i] in fetched;
      }
    }
    NoneUnseen(r, me);
  }

  /** The local marking touches exactly the messages whose id was reported:
      a message the user did not receive unseen keeps its flag unless it
      shares an id with one that was. */
  lemma MarkedAreExactlyReported(fetched: seq<Message>, me: UserId, now: Timestamp, i: nat)
    requires i < |fetched|
    ensures var r := MarkById(fetched, IdsOf(UnseenFor(fetched, me)), now);
      r[i] != fetched[i] ==> exists m :: m in fetched && m.receiverId == me && !m.seen && m.id == fetched[i].id
  {
  }

  /** Applying the same `messageSeen` twice is the same as applying it
      once. */
  lemma ApplySeenUpdateIdempotent(s: seq<Message>, upd: Message)
    ensures ApplySeenUpdate(ApplySeenUpdate(s, upd), upd) == ApplySeenUpdate(s, upd)
  {
  }

  /** Marking locally is idempotent as well, even at a later time: `seenAt`
      is re-stamped, `seen` stays set. */
  lemma MarkByIdTwice(s: seq<Message>, ids: seq<MessageId>, now: Timestamp, later: Timestamp)
    ensures MarkById(MarkById(s, ids, now), ids, later) == MarkById(s, ids, later)
  {
  }

  /** The sender's echo: after a successful text send to `peer`, the server's
      `newMessage` push of the same record arrives at the sender's own
      socket and is appended too, so the record is listed twice. */
  method SenderEchoScenario(me: UserId, peer: UserId, m: Message, now: Timestamp) returns (view: ChatView)
    requires me != peer && m.senderId == me && m.receiverId == peer
    ensures view.messages == [m, m]
  {
    view := new ChatView();
    view.SetSelectedUser(Some(peer));
    view.SendMessage(m.text, Success(m));
    view.OnNewMessage(peer, me, m, now);
  }
}
