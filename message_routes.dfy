/** The REST routes under `/api/messages`: the session guard, the history a
    user may read, and the construction of a message posted over HTTP. */
module MessageRoutes {
  import opened Common
  import opened Seqs
  import opened Store

  const RecipientNotFound := "Recipient user not found"

  /** The `isAuthenticated` guard: a request passes when its session holds a
      user. */
  predicate IsAuthenticated(session: Option<SessionUser>)
  {
    session.Some?
  }

  /** The history query's filter: a message is shown to `uid` when it is not
      private, or when `uid` sent it or is its recipient. */
  predicate VisibleTo(m: StoredMessage, uid: UserId)
  {
    !m.isPrivate || m.sender == uid || m.recipient == Some(uid)
  }

  /** `.sort({timestamp: 1})`. */
  predicate ByTime(a: StoredMessage, b: StoredMessage)
  {
    a.timestamp <= b.timestamp
  }

  lemma ByTimeIsPreorder()
    ensures TotalPreorder(ByTime)
  {
  }

  /** The documents the history query returns, in the order it returns them. */
  function History(messages: seq<StoredMessage>, uid: UserId): (r: seq<StoredMessage>)
    ensures SortedBy(r, ByTime)
    ensures multiset(r) == multiset(Filter(messages, m => VisibleTo(m, uid)))
  {
    ByTimeIsPreorder();
    SortBy(Filter(messages, m => VisibleTo(m, uid)), ByTime)
  }

  /** A message is in a user's history exactly when it is stored and visible
      to that user. */
  lemma HistoryVisibility(messages: seq<StoredMessage>, uid: UserId, m: StoredMessage)
    ensures m in History(messages, uid) <==> m in messages && VisibleTo(m, uid)
  {
    var kept := Filter(messages, x => VisibleTo(x, uid));
    FilterMembers(messages, x => VisibleTo(x, uid));
    var h := History(messages, uid);
    assert m in h <==> m in multiset(h);
    assert m in kept <==> m in multiset(kept);
    if m in messages && VisibleTo(m, uid) {
      var i :| 0 <= i < |messages| && messages[i] == m;
      assert m in kept;
    }
    if m in kept {
      var i :| 0 <= i < |kept| && kept[i] == m;
    }
  }

  /** GET /api/messages. */
  function GetHistory(session: Option<SessionUser>, messages: seq<StoredMessage>)
    : (r: Response<seq<StoredMessage>>)
    ensures !IsAuthenticated(session) <==> r == Fail(401, NotAuthenticated)
    ensures r.Ok? ==> r.status == 200 && SortedBy(r.body, ByTime)
    ensures r.Ok? ==> forall i :: 0 <= i < |r.body| ==>
      r.body[i] in messages && VisibleTo(r.body[i], session.value.id)
    ensures r.Ok? ==> forall i :: 0 <= i < |messages| && VisibleTo(messages[i], session.value.id) ==>
      messages[i] in r.body
  {
    if !IsAuthenticated(session) then Fail(401, NotAuthenticated)
    else
      var uid := session.value.id;
      var h := History(messages, uid);
      assert forall i :: 0 <= i < |h| ==> h[i] in messages && VisibleTo(h[i], uid) by {
        forall i | 0 <= i < |h| ensures h[i] in messages && VisibleTo(h[i], uid) {
          HistoryVisibility(messages, uid, h[i]);
        }
      }
      assert forall i :: 0 <= i < |messages| && VisibleTo(messages[i], uid) ==> messages[i] in h by {
        forall i | 0 <= i < |messages| && VisibleTo(messages[i], uid) ensures messages[i] in h {
          HistoryVisibility(messages, uid, messages[i]);
        }
      }
      Ok(200, h)
  }

  /** The JSON body of POST /api/messages. `isPrivate` and `recipient` may be
      missing. */
  datatype PostBody = PostBody(text: string, recipient: Option<string>, isPrivate: Option<bool>)

  /** `isPrivate || false`. */
  function PrivateFlag(body: PostBody): (r: bool)
    ensures r <==> body.isPrivate == Some(true)
  {
    match body.isPrivate
    case Some(b) => b
    case None => false
  }

  /** The recipient is looked up only for a private message that names one
      (`isPrivate && recipient`). */
  predicate NeedsRecipient(body: PostBody)
  {
    PrivateFlag(body) && Truthy(body.recipient)
  }

  /** POST /api/messages: builds the message from the body and the session
      user, resolves a named recipient by user name, saves and answers 201.
      `newId` and `now` are the id and timestamp the database assigns. */
  method PostMessage(users: seq<User>, log: MessageLog, session: Option<SessionUser>,
                     body: PostBody, newId: MessageId, now: Time)
    returns (resp: Response<StoredMessage>)
    modifies log
    ensures !IsAuthenticated(session) ==>
      resp == Fail(401, NotAuthenticated) && log.messages == old(log.messages)
    ensures IsAuthenticated(session) && NeedsRecipient(body)
              && FindUser(users, ByUsername(body.recipient.value)).None? ==>
      resp == Fail(400, RecipientNotFound) && log.messages == old(log.messages)
    ensures resp.Ok? ==>
      && IsAuthenticated(session)
      && resp.status == 201
      && log.messages == old(log.messages) + [resp.body]
      && resp.body.id == newId && resp.body.timestamp == now
      && resp.body.sender == session.value.id
      && resp.body.text == body.text
      && resp.body.isPrivate == PrivateFlag(body)
      && (resp.body.recipient.Some? <==> NeedsRecipient(body))
      && (resp.body.recipient.Some? ==>
            exists j :: 0 <= j < |users| && users[j].id == resp.body.recipient.value
                     && users[j].username == body.recipient.value)
    ensures resp.Fail? ==> log.messages == old(log.messages)
    ensures IsAuthenticated(session)
              && (!NeedsRecipient(body) || FindUser(users, ByUsername(body.recipient.value)).Some?) ==>
      resp.Ok?
  {
    if !IsAuthenticated(session) {
      return Fail(401, NotAuthenticated);
    }
    var recipient: Option<UserId> := None;
    if NeedsRecipient(body) {
      var found := FindUser(users, ByUsername(body.recipient.value));
      if found.None? {
        return Fail(400, RecipientNotFound);
      }
      recipient := Some(users[found.value].id);
    }
    var m := StoredMessage(newId, session.value.id, recipient, body.text, PrivateFlag(body), now);
    log.Save(m);
    resp := Ok(201, m);
  }
}
