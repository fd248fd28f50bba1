/** The message record: its fields, the defaults the schema fills in and the
    way a draft passed to the record constructor becomes a stored record. */
module MessageModel {
  import opened Types

  /** An attached document. The schema declares only `url`, `filename` and
      `mimetype`; `originalFilename` exists on the objects the controller
      builds and on the browser's copies, never on a stored record. */
  datatype Document = Document(url: string, filename: string, mimetype: string, originalFilename: Option<string>)

  /** A message record. `seenAt` is null (`None`) until the message is seen;
      `createdAt` and `updatedAt` are the schema's automatic timestamps. */
  datatype Message = Message(
    id: MessageId,
    senderId: UserId,
    receiverId: UserId,
    text: string,
    document: Option<Document>,
    seen: bool,
    seenAt: Option<Timestamp>,
    createdAt: Timestamp,
    updatedAt: Timestamp)

  /** The fields handed to the record constructor; a field the caller leaves
      out is `None`. */
  datatype Draft = Draft(
    senderId: Option<UserId>,
    receiverId: Option<UserId>,
    text: Option<string>,
    document: Option<Document>,
    seen: Option<bool>)

  /** The two required paths of the schema. */
  datatype RequiredPath = SenderIdPath | ReceiverIdPath

  /** A failed validation: every required path that is missing, reported
      together. */
  datatype ValidationError = ValidationError(missing: set<RequiredPath>)

  /** The read-receipt invariant: a message carries a seen time exactly when
      it is marked seen. */
  predicate SeenConsistent(m: Message) {
    m.seen <==> m.seenAt.Some?
  }

  /** The read receipt is the only part of a record that changes after it is
      saved: `seen` may only go from false to true, and `seenAt` and the
      update timestamp follow it. */
  predicate SeenTransition(before: Message, after: Message) {
    && after.(seen := before.seen, seenAt := before.seenAt, updatedAt := before.updatedAt) == before
    && (before.seen ==> after.seen)
  }

  /** Casting a document to the declared sub-schema keeps the three declared
      fields and drops everything else. */
  function CastDocument(d: Document): (r: Document)
    ensures r.originalFilename.None?
    ensures r.(originalFilename := d.originalFilename) == d
  {
    d.(originalFilename := None)
  }

  /** Builds the record that `new Message(draft)` followed by a save stores,
      with identifier `id` and both timestamps `now`. */
  function Instantiate(d: Draft, id: MessageId, now: Timestamp): (r: Result<Message, ValidationError>)
    ensures r.Ok? <==> d.senderId.Some? && d.receiverId.Some?
    ensures r.Err? ==> r.error.missing != {}
    ensures r.Err? ==> (SenderIdPath in r.error.missing <==> d.senderId.None?)
    ensures r.Err? ==> (ReceiverIdPath in r.error.missing <==> d.receiverId.None?)
    ensures r.Ok? ==>
      && r.value.id == id
      && r.value.senderId == d.senderId.value
      && r.value.receiverId == d.receiverId.value
      && r.value.text == d.text.GetOr("")
      && (d.document.None? <==> r.value.document.None?)
      && (d.document.Some? ==> r.value.document.value == CastDocument(d.document.value))
      && r.value.seen == d.seen.GetOr(false)
      && r.value.seenAt.None?
      && r.value.createdAt == now && r.value.updatedAt == now
  {
    if d.senderId.None? || d.receiverId.None? then
      Err(ValidationError((if d.senderId.None? then {SenderIdPath} else {}) +
                          (if d.receiverId.None? then {ReceiverIdPath} else {})))
    else
      var doc := match d.document
        case None => None
        case Some(x) => Some(CastDocument(x));
      Ok(Message(id, d.senderId.value, d.receiverId.value, d.text.GetOr(""), doc,
                 d.seen.GetOr(false), None, now, now))
  }

  /** A record created from a draft that does not ask for `seen = true`
      satisfies the read-receipt invariant and is unseen. */
  lemma NewRecordUnseen(d: Draft, id: MessageId, now: Timestamp)
    requires d.seen != Some(true)
    requires d.senderId.Some? && d.receiverId.Some?
    ensures Instantiate(d, id, now).Ok?
    ensures !Instantiate(d, id, now).value.seen
    ensures SeenConsistent(Instantiate(d, id, now).value)
  {
  }
}
