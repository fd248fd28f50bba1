/** The write path of the message controller: sending a text message,
    sending a document, and marking messages seen. Each call saves to the
    message store first and then pushes events through the socket server to
    whichever parties have a presence entry. */
module MessageService {
  import opened Types
  import opened MessageModel
  import opened Presence
  import opened Conversation
  import opened UploadRoute

  /** Replies of the two send endpoints: 201 with the saved message, 400 with
      a reason, 404 for an unknown receiver, or an error raised by the upload
      middleware before the controller runs. */
  datatype SendResult =
    | Created(message: Message)
    | BadRequest(reason: string)
    | ReceiverNotFound
    | UploadRejected(reason: string)

  /** The 200 reply of the mark-seen endpoint. */
  datatype MarkSeenReply = MarkSeenReply(success: bool, updatedCount: nat)

  /** Pushes of one event to a message's receiver, then to its sender, each
      only when bound. */
  function Fanout(bindings: map<UserId, SocketId>, receiverId: UserId, senderId: UserId, ev: Event): (out: seq<Emission>)
    ensures |out| <= 2
    ensures forall e :: e in out ==> e.ToSocket? && e.event == ev
    ensures forall e :: e in out ==>
      (receiverId in bindings && e.socket == bindings[receiverId]) ||
      (senderId in bindings && e.socket == bindings[senderId])
    ensures receiverId in bindings ==> ToSocket(bindings[receiverId], ev) in out
    ensures senderId in bindings ==> ToSocket(bindings[senderId], ev) in out
  {
    NotifyIfPresent(bindings, receiverId, ev) + NotifyIfPresent(bindings, senderId, ev)
  }

  /** The document descriptor the document controller builds from an
      upload: the fetch path and the three upload fields. */
  function DocumentFor(f: UploadedDocument): (d: Document)
    ensures d.url == "/download/document/" + f.filename
    ensures d.filename == f.filename && d.mimetype == f.mimetype
    ensures d.originalFilename == Some(f.originalname)
  {
    Document("/download/document/" + f.filename, f.filename, f.mimetype, Some(f.originalname))
  }

  // ---------------------------------------------------------------------
  // Mark-seen as a function of the store.
  // ---------------------------------------------------------------------

  /** The update filter: listed, addressed to the caller, still unseen. */
  predicate Eligible(m: Message, caller: UserId, ids: seq<MessageId>) {
    m.id in ids && m.receiverId == caller && !m.seen
  }

  /** The update applied to one record. */
  function MarkOne(m: Message, caller: UserId, ids: seq<MessageId>, now: Timestamp): (r: Message)
    ensures SeenTransition(m, r)
    ensures Eligible(m, caller, ids) ==> r.seen && r.seenAt == Some(now) && r.updatedAt == now
    ensures !Eligible(m, caller, ids) ==> r == m
    ensures SeenConsistent(m) ==> SeenConsistent(r)
  {
    if Eligible(m, caller, ids) then m.(seen := true, seenAt := Some(now), updatedAt := now) else m
  }

  /** The store after the bulk update. */
  function MarkSeenAll(s: seq<Message>, caller: UserId, ids: seq<MessageId>, now: Timestamp): (r: seq<Message>)
    ensures |r| == |s|
    ensures forall i :: 0 <= i < |s| ==> r[i] == MarkOne(s[i], caller, ids, now)
  {
    if s == [] then [] else MarkSeenAll(s[..|s| - 1], caller, ids, now) + [MarkOne(s[|s| - 1], caller, ids, now)]
  }

  /** The bulk update's modified count. */
  function CountEligible(s: seq<Message>, caller: UserId, ids: seq<MessageId>): nat {
    if s == [] then 0
    else CountEligible(s[..|s| - 1], caller, ids) + (if Eligible(s[|s| - 1], caller, ids) then 1 else 0)
  }

  /** `Message.find({_id: {$in: ids}})`: every stored message whose id is
      listed, whoever its receiver and whatever its state, in store order. */
  function Listed(s: seq<Message>, ids: seq<MessageId>): (r: seq<Message>)
    ensures forall m :: m in r <==> m in s && m.id in ids
  {
    if s == [] then []
    else Listed(s[..|s| - 1], ids) + (if s[|s| - 1].id in ids then [s[|s| - 1]] else [])
  }

  /** The `messageSeen` pushes for the found messages, in order. */
  function SeenFanout(found: seq<Message>, bindings: map<UserId, SocketId>): seq<Emission> {
    if found == [] then []
    else
      var m := found[|found| - 1];
      SeenFanout(found[..|found| - 1], bindings) + Fanout(bindings, m.receiverId, m.senderId, MessageSeen(m))
  }

  /** The count is positive exactly when some record is eligible. */
  lemma {:induction false} CountPositiveIff(s: seq<Message>, caller: UserId, ids: seq<MessageId>)
    ensures CountEligible(s, caller, ids) > 0 <==> exists i :: 0 <= i < |s| && Eligible(s[i], caller, ids)
    decreases |s|
  {
    if s != [] {
      var p := s[..|s| - 1];
      CountPositiveIff(p, caller, ids);
      if exists i :: 0 <= i < |p| && Eligible(p[i], caller, ids) {
        var i :| 0 <= i < |p| && Eligible(p[i], caller, ids);
        assert s[i] == p[i];
      }
      if exists i :: 0 <= i < |s| && Eligible(s[i], caller, ids) {
        var i :| 0 <= i < |s| && Eligible(s[i], caller, ids);
        if i < |p| {
          assert p[i] == s[i];
        }
      }
    }
  }

  /** Marking is idempotent: a second call with the same ids, at any later
      time, changes nothing and counts nothing. */
  lemma RepeatMarkSeenIsNoOp(s: seq<Message>, caller: UserId, ids: seq<MessageId>, now: Timestamp, later: Timestamp)
    ensures CountEligible(MarkSeenAll(s, caller, ids, now), caller, ids) == 0
    ensures MarkSeenAll(MarkSeenAll(s, caller, ids, now), caller, ids, later) == MarkSeenAll(s, caller, ids, now)
  {
    var once := MarkSeenAll(s, caller, ids, now);
    CountPositiveIff(once, caller, ids);
  }

  /** A caller who receives none of the listed messages updates nothing. */
  lemma NotReceiverUpdatesNothing(s: seq<Message>, caller: UserId, ids: seq<MessageId>, now: Timestamp)
    requires forall i :: 0 <= i < |s| && s[i].id in ids ==> s[i].receiverId != caller
    ensures CountEligible(s, caller, ids) == 0
    ensures MarkSeenAll(s, caller, ids, now) == s
  {
    CountPositiveIff(s, caller, ids);
  }

  lemma AppendAssoc<T>(a: seq<T>, b: seq<T>, c: seq<T>, d: seq<T>)
    ensures a + b + c + d == a + (b + c + d)
  {
  }

  /** One more found message adds its two pushes at the end. */
  lemma SeenFanoutStep(found: seq<Message>, k: nat, bindings: map<UserId, SocketId>)
    requires k < |found|
    ensures SeenFanout(found[..k + 1], bindings) ==
      SeenFanout(found[..k], bindings) + NotifyIfPresent(bindings, found[k].receiverId, MessageSeen(found[k]))
        + NotifyIfPresent(bindings, found[k].senderId, MessageSeen(found[k]))
  {
    assert found[..k + 1][..k] == found[..k];
  }

  /** Every `messageSeen` push carries a found message and goes to the socket
      of that message's receiver or sender. */
  lemma {:induction false} SeenFanoutTargets(found: seq<Message>, bindings: map<UserId, SocketId>)
    ensures forall e :: e in SeenFanout(found, bindings) ==>
      e.ToSocket? && e.event.MessageSeen? && e.event.message in found &&
      ((e.event.message.receiverId in bindings && e.socket == bindings[e.event.message.receiverId]) ||
       (e.event.message.senderId in bindings && e.socket == bindings[e.event.message.senderId]))
    decreases |found|
  {
    if found != [] {
      var p := found[..|found| - 1];
      SeenFanoutTargets(p, bindings);
      assert forall m :: m in p ==> m in found;
    }
  }

  /** Every found message, modified by the call or not, is pushed to its
      receiver and to its sender wherever they are bound. */
  lemma SeenFanoutCovers(found: seq<Message>, bindings: map<UserId, SocketId>, m: Message)
    requires m in found
    ensures m.receiverId in bindings ==> ToSocket(bindings[m.receiverId], MessageSeen(m)) in SeenFanout(found, bindings)
    ensures m.senderId in bindings ==> ToSocket(bindings[m.senderId], MessageSeen(m)) in SeenFanout(found, bindings)
  {
    if m.receiverId in bindings {
      SeenFanoutReaches(found, bindings, m, m.receiverId);
    }
    if m.senderId in bindings {
      SeenFanoutReaches(found, bindings, m, m.senderId);
    }
  }

  /** One party of one found message: its push is in the fan-out. */
  lemma {:induction false} SeenFanoutReaches(found: seq<Message>, bindings: map<UserId, SocketId>, m: Message, u: UserId)
    requires m in found && u in bindings && (u == m.receiverId || u == m.senderId)
    ensures ToSocket(bindings[u], MessageSeen(m)) in SeenFanout(found, bindings)
    decreases |found|
  {
    var p := found[..|found| - 1];
    var last := found[|found| - 1];
    var head := SeenFanout(p, bindings);
    var tail := Fanout(bindings, last.receiverId, last.senderId, MessageSeen(last));
    assert SeenFanout(found, bindings) == head + tail;
    if m == last {
      InAppendRight(head, tail);
    } else {
      var i :| 0 <= i < |found| && found[i] == m;
      assert p[i] == m;
      SeenFanoutReaches(p, bindings, m, u);
      InAppendLeft(head, tail);
    }
  }

  lemma InAppendLeft<T>(a: seq<T>, b: seq<T>)
    ensures forall x :: x in a ==> x in a + b
  {
  }

  lemma InAppendRight<T>(a: seq<T>, b: seq<T>)
    ensures forall x :: x in b ==> x in a + b
  {
  }

  /** A record's seen flag never goes back: marking only sets it. */
  lemma MarkSeenMonotonic(s: seq<Message>, caller: UserId, ids: seq<MessageId>, now: Timestamp, i: nat)
    requires i < |s|
    ensures SeenTransition(s[i], MarkSeenAll(s, caller, ids, now)[i])
  {
  }

  /** Every record keeps the read-receipt invariant and has a distinct id
      below `next`. */
  ghost predicate StoreValid(s: seq<Message>, next: nat) {
    && (forall i :: 0 <= i < |s| ==> SeenConsistent(s[i]) && s[i].id < next)
    && (forall i, j :: 0 <= i < j < |s| ==> s[i].id != s[j].id)
  }

  /** Marking keeps every record consistent and every id in place. */
  lemma MarkSeenKeepsStoreValid(s: seq<Message>, caller: UserId, ids: seq<MessageId>, now: Timestamp, next: nat)
    requires StoreValid(s, next)
    ensures StoreValid(MarkSeenAll(s, caller, ids, now), next)
  {
    var r := MarkSeenAll(s, caller, ids, now);
    forall i | 0 <= i < |r|
      ensures SeenConsistent(r[i]) && r[i].id == s[i].id
    {
      assert r[i] == MarkOne(s[i], caller, ids, now);
    }
  }

  // ---------------------------------------------------------------------
  // The server state.
  // ---------------------------------------------------------------------

  class MessageServer {
    /** The message collection, in insertion order. */
    var store: seq<Message>
    /** The user collection. */
    var users: seq<UserRecord>
    /** Names present in the upload directory. */
    var uploads: set<string>
    /** The next message id to allocate. */
    var nextId: MessageId
    /** The socket server the controller emits through. */
    const io: SocketServer

    /** Every stored record keeps the read-receipt invariant and has a
        distinct id below `nextId`. */
    ghost predicate Valid()
      reads this
    {
      StoreValid(store, nextId)
    }

    constructor (io: SocketServer, users: seq<UserRecord>, uploads: set<string>)
      ensures Valid()
      ensures this.io == io && this.users == users && this.uploads == uploads
      ensures store == [] && nextId == 0
    {
      this.io := io;
      this.users := users;
      this.uploads := uploads;
      store := [];
      nextId := 0;
    }

    /** `User.findById(u)` finds a record. */
    predicate UserExists(u: UserId)
      reads this
    {
      exists i :: 0 <= i < |users| && users[i].id == u
    }

    /** `new Message(draft).save()` for a draft with both ids. */
    method Save(d: Draft, now: Timestamp) returns (m: Message)
      requires Valid()
      requires d.senderId.Some? && d.receiverId.Some? && d.seen == Some(false)
      modifies this
      ensures Valid()
      ensures Instantiate(d, old(nextId), now) == Ok(m)
      ensures store == old(store) + [m] && nextId == old(nextId) + 1
      ensures forall i :: 0 <= i < |old(store)| ==> old(store)[i].id != m.id
      ensures users == old(users) && uploads == old(uploads)
    {
      m := Instantiate(d, nextId, now).value;
      store := store + [m];
      nextId := nextId + 1;
    }

    /** `sendMesssage`: saves a text message from `senderId` to `receiverId`
        (a missing text becomes ""), then pushes `newMessage` to the
        receiver and to the sender where bound. The receiver is not looked
        up. */
    method SendMessage(senderId: UserId, receiverId: UserId, text: Option<string>, now: Timestamp) returns (r: SendResult)
      requires Valid()
      modifies this, io`log
      ensures Valid()
      ensures r.Created?
      ensures var m := r.message;
        && m.senderId == senderId && m.receiverId == receiverId
        && m.text == text.GetOr("") && m.document.None?
        && !m.seen && m.seenAt.None?
        && m.createdAt == now && m.updatedAt == now
        && store == old(store) + [m]
        && io.log == old(io.log) + Fanout(io.userSocketMap, receiverId, senderId, NewMessage(m))
      ensures forall i :: 0 <= i < |old(store)| ==> old(store)[i].id != r.message.id
      ensures users == old(users) && uploads == old(uploads)
    {
      var m := Save(Draft(Some(senderId), Some(receiverId), Some(text.GetOr("")), None, Some(false)), now);
      io.Notify(receiverId, NewMessage(m));
      io.Notify(senderId, NewMessage(m));
      r := Created(m);
    }

    /** `sendMessageWithDocument`: rejects, in this order and before any
        save, a missing file (400), a type outside the allow-list (400) and
        an unknown receiver (404); otherwise saves a document message and
        pushes `newMessage` like the text path. */
    method SendMessageWithDocument(senderId: UserId, receiverId: UserId, file: Option<UploadedDocument>, now: Timestamp)
      returns (r: SendResult)
      requires Valid()
      modifies this, io`log
      ensures Valid()
      ensures users == old(users) && uploads == old(uploads)
      ensures file.None? ==> r == BadRequest("No document file uploaded")
      ensures file.Some? && file.value.mimetype !in AllowedMimeTypes ==>
        r == BadRequest("Invalid file type. Only PDF, Word, TXT, Excel, and PowerPoint files are allowed")
      ensures file.Some? && file.value.mimetype in AllowedMimeTypes && !old(UserExists(receiverId)) ==>
        r == ReceiverNotFound
      ensures !r.Created? ==> store == old(store) && io.log == old(io.log)
      ensures r.Created? <==> file.Some? && file.value.mimetype in AllowedMimeTypes && old(UserExists(receiverId))
      ensures r.Created? ==> var m := r.message;
        && m.senderId == senderId && m.receiverId == receiverId
        && m.text == "" && m.document == Some(CastDocument(DocumentFor(file.value)))
        && !m.seen && m.seenAt.None? && m.createdAt == now
        && store == old(store) + [m]
        && io.log == old(io.log) + Fanout(io.userSocketMap, receiverId, senderId, NewMessage(m))
    {
      if file.None? {
        return BadRequest("No document file uploaded");
      }
      var f := file.value;
      if f.mimetype !in AllowedMimeTypes {
        return BadRequest("Invalid file type. Only PDF, Word, TXT, Excel, and PowerPoint files are allowed");
      }
      if !UserExists(receiverId) {
        return ReceiverNotFound;
      }
      var m := Save(Draft(Some(senderId), Some(receiverId), None, Some(DocumentFor(f)), Some(false)), now);
      io.Notify(receiverId, NewMessage(m));
      io.Notify(senderId, NewMessage(m));
      r := Created(m);
    }

    /** `POST /send-document/:id`: the upload middleware, then the document
        controller. A file the middleware stores stays in the upload
        directory even when the controller then answers 404. */
    method PostSendDocument(senderId: UserId, receiverId: UserId, part: Option<File>, now: Timestamp)
      returns (r: SendResult)
      requires Valid()
      modifies this, io`log
      ensures Valid()
      ensures users == old(users)
      ensures Named(part) && part.value.mimeType !in AllowedMimeTypes ==>
        r.UploadRejected? && store == old(store) && uploads == old(uploads) && io.log == old(io.log)
      ensures Named(part) && part.value.size > MaxFileSize ==>
        r.UploadRejected? && store == old(store) && uploads == old(uploads) && io.log == old(io.log)
      ensures !Named(part) ==> r == BadRequest("No document file uploaded") && store == old(store) && uploads == old(uploads)
      ensures Named(part) && part.value.mimeType in AllowedMimeTypes && part.value.size <= MaxFileSize ==>
        && |uploads| == |old(uploads)| + 1
        && old(uploads) < uploads
        && (r.Created? <==> old(UserExists(receiverId)))
      ensures !r.Created? ==> store == old(store) && io.log == old(io.log)
      ensures r.Created? ==> var m := r.message;
        && m.senderId == senderId && m.receiverId == receiverId
        && m.text == "" && !m.seen && m.seenAt.None? && m.createdAt == now
        && m.document.Some?
        && m.document.value.url == "/download/document/" + m.document.value.filename
        && m.document.value.filename !in old(uploads)
        && m.document.value.filename in uploads
        && m.document.value.mimetype == part.value.mimeType
        && m.document.value.originalFilename.None?
        && store == old(store) + [m]
        && io.log == old(io.log) + Fanout(io.userSocketMap, receiverId, senderId, NewMessage(m))
    {
      var out := Upload(part, uploads);
      match out {
        case NoFilePart =>
          r := SendMessageWithDocument(senderId, receiverId, None, now);
        case FilterRejected(msg) =>
          r := UploadRejected(msg);
        case FileTooLarge =>
          r := UploadRejected("File too large");
        case Stored(f) =>
          assert f.filename !in uploads;
          uploads := uploads + {f.filename};
          r := SendMessageWithDocument(senderId, receiverId, Some(f), now);
      }
    }

    /** `Message.updateMany(...)`: the update walks the records in place
        and counts the ones it modifies. */
    method UpdateMany(caller: UserId, ids: seq<MessageId>, now: Timestamp) returns (modifiedCount: nat)
      modifies this`store
      ensures store == MarkSeenAll(old(store), caller, ids, now)
      ensures modifiedCount == CountEligible(old(store), caller, ids)
    {
      var i := 0;
      modifiedCount := 0;
      while i < |store|
        invariant |store| == |old(store)|
        invariant 0 <= i <= |store|
        invariant store[..i] == MarkSeenAll(old(store)[..i], caller, ids, now)
        invariant store[i..] == old(store)[i..]
        invariant modifiedCount == CountEligible(old(store)[..i], caller, ids)
      {
        assert old(store)[..i + 1][..i] == old(store)[..i];
        assert old(store)[i] == store[i];
        if Eligible(store[i], caller, ids) {
          store := store[i := MarkOne(store[i], caller, ids, now)];
          modifiedCount := modifiedCount + 1;
        }
        assert store[..i + 1] == store[..i] + [store[i]];
        i := i + 1;
      }
      assert store == store[..i] && old(store) == old(store)[..i];
    }

    /** The `forEach` over the found messages: `messageSeen` to the
        receiver, then to the sender, of each. */
    method NotifySeen(found: seq<Message>)
      modifies io`log
      ensures io.log == old(io.log) + SeenFanout(found, io.userSocketMap)
    {
      var k := 0;
      ghost var bindings := io.userSocketMap;
      ghost var start := io.log;
      while k < |found|
        invariant 0 <= k <= |found|
        invariant io.userSocketMap == bindings
        invariant io.log == start + SeenFanout(found[..k], bindings)
      {
        var msg := found[k];
        ghost var done := io.log;
        io.Notify(msg.receiverId, MessageSeen(msg));
        ghost var toReceiver := NotifyIfPresent(bindings, msg.receiverId, MessageSeen(msg));
        assert io.log == done + toReceiver;
        io.Notify(msg.senderId, MessageSeen(msg));
        ghost var toSender := NotifyIfPresent(bindings, msg.senderId, MessageSeen(msg));
        SeenFanoutStep(found, k, bindings);
        assert io.log == start + SeenFanout(found[..k + 1], bindings) by {
          AppendAssoc(start, SeenFanout(found[..k], bindings), toReceiver, toSender);
        }
        k := k + 1;
      }
      assert found[..k] == found;
    }

    /** `markMessagesAsSeen`: the bulk update on the listed ids addressed to
        the caller and still unseen, then, only when it modified something,
        `messageSeen` for every message found for the listed ids. */
    method MarkMessagesAsSeen(caller: UserId, ids: seq<MessageId>, now: Timestamp) returns (reply: MarkSeenReply)
      requires Valid()
      modifies this, io`log
      ensures Valid()
      ensures store == MarkSeenAll(old(store), caller, ids, now)
      ensures reply == MarkSeenReply(true, CountEligible(old(store), caller, ids))
      ensures reply.updatedCount == 0 ==> io.log == old(io.log)
      ensures reply.updatedCount > 0 ==> io.log == old(io.log) + SeenFanout(Listed(store, ids), io.userSocketMap)
      ensures users == old(users) && uploads == old(uploads) && nextId == old(nextId)
    {
      MarkSeenKeepsStoreValid(store, caller, ids, now, nextId);
      var modifiedCount := UpdateMany(caller, ids, now);
      if modifiedCount > 0 {
        var found := Listed(store, ids);
        NotifySeen(found);
      }
      reply := MarkSeenReply(true, modifiedCount);
    }
  }
}
