/** The browser client's conversation state, apart from the page it draws:
    the `chatMessages` buckets, the `onlineUsers` list, the `addedUsers`
    set, the `pendingRequests` list and the active chat, with the socket
    handlers and user actions that update them. */
module ChatClient {
  import opened Common
  import opened Seqs
  import opened Strings
  import opened Roster
  import Server

  /** A message object kept in a bucket. Objects built by the client set
      only some of these fields; the others read as false or undefined. */
  datatype ChatItem = ChatItem(
    username: Option<string>,
    text: string,
    timestamp: Time,
    isPrivate: bool,
    isOwn: bool,
    pending: bool,
    delivered: bool,
    error: bool,
    tempId: Option<string>,
    recipient: Option<string>)

  /** `{username, text, timestamp}`. */
  function Plain(username: string, text: string, timestamp: Time): ChatItem
  {
    ChatItem(Some(username), text, timestamp, false, false, false, false, false, None, None)
  }

  /** The object of a `privateMessage` event, stored as received. */
  function Received(p: Server.PrivatePayload): ChatItem
  {
    ChatItem(p.username, p.text, p.timestamp, p.isPrivate, p.isOwn, false, false, false, p.tempId, None)
  }

  const GlobalKey := "global"

  /** `private_${name}`. */
  function PrivateKey(name: string): (k: string)
    ensures k != GlobalKey
  {
    var k := "private_" + name;
    assert k[..8] == "private_";
    k
  }

  /** Distinct names have distinct buckets. */
  lemma PrivateKeyInjective(a: string, b: string)
    ensures PrivateKey(a) == PrivateKey(b) <==> a == b
  {
    if PrivateKey(a) == PrivateKey(b) {
      assert a == PrivateKey(a)[8..] && b == PrivateKey(b)[8..];
    }
  }

  /** The `chatMessages` object: its buckets and the order in which its keys
      were created, which is the order `for ... in` visits them. */
  datatype Buckets = Buckets(keys: seq<string>, chats: map<string, seq<ChatItem>>)

  ghost predicate WellFormed(b: Buckets)
  {
    && (forall k :: k in b.chats <==> k in b.keys)
    && (forall i, j :: 0 <= i < j < |b.keys| ==> b.keys[i] != b.keys[j])
  }

  /** `chatMessages[key] || []`. */
  function Get(b: Buckets, key: string): seq<ChatItem>
  {
    if key in b.chats then b.chats[key] else []
  }

  /** `if (!chatMessages[key]) chatMessages[key] = []`. */
  function EnsureKey(b: Buckets, key: string): (r: Buckets)
    ensures WellFormed(b) ==> WellFormed(r)
    ensures key in r.chats
    ensures forall k :: Get(r, k) == Get(b, k)
    ensures forall k :: k in r.chats <==> k in b.chats || k == key
  {
    if key in b.chats then b else Buckets(b.keys + [key], b.chats[key := []])
  }

  /** `chatMessages[key].push(item)`, creating the bucket when missing. */
  function Push(b: Buckets, key: string, item: ChatItem): (r: Buckets)
    ensures WellFormed(b) ==> WellFormed(r)
    ensures Get(r, key) == Get(b, key) + [item]
    ensures forall k :: k != key ==> Get(r, k) == Get(b, k)
    ensures forall k :: k in r.chats <==> k in b.chats || k == key
  {
    var e := EnsureKey(b, key);
    Buckets(e.keys, e.chats[key := e.chats[key] + [item]])
  }

  // ----- loadMessages -----

  /** A document of the history as the client reads it: the populated
      sender's and recipient's names (the recipient is null for a global
      message). */
  datatype HistoryEntry = HistoryEntry(
    senderName: string,
    recipientName: Option<string>,
    text: string,
    isPrivate: bool,
    timestamp: Time)

  /** The bucket a history message is filed in: a private message with a
      recipient goes to the conversation with the other party, anything else
      to the global chat. */
  function BucketKey(m: HistoryEntry, me: string): string
  {
    if m.isPrivate && m.recipientName.Some? then
      PrivateKey(if m.senderName == me then m.recipientName.value else m.senderName)
    else GlobalKey
  }

  /** A message I sent privately is filed under its recipient, one sent to
      me under its sender, and only the others under the global key. */
  lemma BucketKeyCases(m: HistoryEntry, me: string)
    ensures m.isPrivate && m.recipientName.Some? && m.senderName == me ==>
      BucketKey(m, me) == PrivateKey(m.recipientName.value)
    ensures m.isPrivate && m.recipientName.Some? && m.senderName != me ==>
      BucketKey(m, me) == PrivateKey(m.senderName)
    ensures !(m.isPrivate && m.recipientName.Some?) <==> BucketKey(m, me) == GlobalKey
  {
  }

  function HistoryItem(m: HistoryEntry): ChatItem
  {
    Plain(m.senderName, m.text, m.timestamp)
  }

  /** The server echoes a sender's own private message under the sender's
      name, so the echo lands in a bucket of its own rather than in the
      conversation with the recipient, where the optimistic copy is. */
  lemma OwnEchoFiledApart(me: string, recipient: string)
    requires me != recipient
    ensures PrivateKey(Display(Some(me))) != PrivateKey(recipient)
  {
    PrivateKeyInjective(me, recipient);
  }

  /** The buckets after filing `msgs` in order. */
  function FileAll(b: Buckets, msgs: seq<HistoryEntry>, me: string): Buckets
    decreases |msgs|
  {
    if msgs == [] then b
    else
      var m := msgs[|msgs| - 1];
      Push(FileAll(b, msgs[..|msgs| - 1], me), BucketKey(m, me), HistoryItem(m))
  }

  /** The items of `msgs` that belong to bucket `key`, in order. */
  function ItemsFor(msgs: seq<HistoryEntry>, key: string, me: string): seq<ChatItem>
    decreases |msgs|
  {
    if msgs == [] then []
    else
      var m := msgs[|msgs| - 1];
      ItemsFor(msgs[..|msgs| - 1], key, me) + Own(m, key, me)
  }

  /** The item of `m` when it belongs to bucket `key`, else nothing. */
  function Own(m: HistoryEntry, key: string, me: string): seq<ChatItem>
  {
    if BucketKey(m, me) == key then [HistoryItem(m)] else []
  }

  /** Each bucket ends up as it was followed by exactly the loaded messages
      that belong to it, in the order they were loaded. */
  lemma {:induction false} FileAllBuckets(b: Buckets, msgs: seq<HistoryEntry>, me: string, key: string)
    ensures Get(FileAll(b, msgs, me), key) == Get(b, key) + ItemsFor(msgs, key, me)
    decreases |msgs|
  {
    if msgs != [] {
      FileAllBuckets(b, msgs[..|msgs| - 1], me, key);
    }
  }

  lemma {:induction false} FileAllWellFormed(b: Buckets, msgs: seq<HistoryEntry>, me: string)
    requires WellFormed(b)
    ensures WellFormed(FileAll(b, msgs, me))
    ensures forall k :: k in b.chats ==> k in FileAll(b, msgs, me).chats
    decreases |msgs|
  {
    if msgs != [] {
      FileAllWellFormed(b, msgs[..|msgs| - 1], me);
    }
  }

  /** Every loaded message is among the items of the bucket it belongs to. */
  lemma {:induction false} LoadedMessageFiled(msgs: seq<HistoryEntry>, me: string, i: nat)
    requires i < |msgs|
    ensures HistoryItem(msgs[i]) in ItemsFor(msgs, BucketKey(msgs[i], me), me)
    decreases |msgs|
  {
    var n := |msgs| - 1;
    if i < n {
      LoadedMessageFiled(msgs[..n], me, i);
      assert msgs[..n][i] == msgs[i];
    }
  }

  /** The roster after the history's senders have been added. */
  function AddSenders(roster: seq<RosterEntry>, msgs: seq<HistoryEntry>, me: string): seq<RosterEntry>
    decreases |msgs|
  {
    if msgs == [] then roster
    else
      var m := msgs[|msgs| - 1];
      var before := AddSenders(roster, msgs[..|msgs| - 1], me);
      if m.senderName != Server.SystemName then AddIfAbsent(before, RosterEntry(m.senderName, m.senderName == me))
      else before
  }

  /** Some message of `msgs` was sent by `name`. */
  predicate HasSender(msgs: seq<HistoryEntry>, name: string)
  {
    exists i :: 0 <= i < |msgs| && msgs[i].senderName == name
  }

  /** Loading never lists a name twice. */
  lemma {:induction false} AddSendersUnique(roster: seq<RosterEntry>, msgs: seq<HistoryEntry>, me: string)
    requires UniqueNames(roster)
    ensures UniqueNames(AddSenders(roster, msgs, me))
    decreases |msgs|
  {
    if msgs != [] {
      AddSendersUnique(roster, msgs[..|msgs| - 1], me);
    }
  }

  /** Every sender of a loaded message other than `System` is listed
      afterwards, and nobody else is added. */
  lemma {:induction false} AddSendersListed(roster: seq<RosterEntry>, msgs: seq<HistoryEntry>, me: string)
    ensures forall n :: Listed(AddSenders(roster, msgs, me), n) <==>
      Listed(roster, n) || (n != Server.SystemName && HasSender(msgs, n))
    decreases |msgs|
  {
    if msgs != [] {
      var k := |msgs| - 1;
      AddSendersListed(roster, msgs[..k], me);
      forall n ensures HasSender(msgs, n) <==> HasSender(msgs[..k], n) || msgs[k].senderName == n {
        if HasSender(msgs, n) {
          var i :| 0 <= i < |msgs| && msgs[i].senderName == n;
          if i < k {
            assert msgs[..k][i] == msgs[i];
          }
        }
        if HasSender(msgs[..k], n) {
          var i :| 0 <= i < k && msgs[..k][i].senderName == n;
          assert msgs[i] == msgs[..k][i];
        }
      }
    }
  }

  /** The `forEach` over a loaded history: each message's sender is listed
      unless already listed or `System`, and the message is pushed to its
      bucket. */
  method FileHistory(b0: Buckets, r0: seq<RosterEntry>, msgs: seq<HistoryEntry>, me: string)
    returns (buckets: Buckets, roster: seq<RosterEntry>)
    ensures buckets == FileAll(b0, msgs, me)
    ensures roster == AddSenders(r0, msgs, me)
  {
    buckets, roster := b0, r0;
    for i := 0 to |msgs|
      invariant buckets == FileAll(b0, msgs[..i], me)
      invariant roster == AddSenders(r0, msgs[..i], me)
    {
      var m := msgs[i];
      assert msgs[..i + 1][..i] == msgs[..i] && msgs[..i + 1][i] == m;
      if m.senderName != Server.SystemName {
        roster := AddIfAbsent(roster, RosterEntry(m.senderName, m.senderName == me));
      }
      buckets := Push(buckets, BucketKey(m, me), HistoryItem(m));
    }
    assert msgs[..|msgs|] == msgs;
  }

  const LoadFailedText := "Failed to load messages. Please try refreshing the page."

  function WelcomeText(me: string): string
  {
    "Welcome to the chat, " + me + "! This is the beginning of the conversation."
  }

  // ----- the delivery state of pending messages -----

  /** Index of the first item carrying `tempId`. */
  function TempIndex(items: seq<ChatItem>, tempId: string): (r: Option<nat>)
    ensures r.Some? ==> r.value < |items| && items[r.value].tempId == Some(tempId)
    ensures r.Some? ==> forall j :: 0 <= j < r.value ==> items[j].tempId != Some(tempId)
    ensures r.None? <==> forall j :: 0 <= j < |items| ==> items[j].tempId != Some(tempId)
  {
    FindFirst(items, (m: ChatItem) => m.tempId == Some(tempId))
  }

  predicate HoldsTemp(b: Buckets, tempId: string, key: string)
  {
    key in b.chats && TempIndex(b.chats[key], tempId).Some?
  }

  /** The effect of `messageSent` on the buckets: in the first bucket, in key
      order, that holds an item with this `tempId`, the first such item is
      marked delivered and no longer pending. */
  function MarkDelivered(b: Buckets, tempId: string): (r: Buckets)
    requires WellFormed(b)
    ensures r.keys == b.keys && r.chats.Keys == b.chats.Keys
    ensures forall k :: k in b.chats ==> |r.chats[k]| == |b.chats[k]|
    ensures (forall k :: !HoldsTemp(b, tempId, k)) ==> r == b
  {
    match FindFirst(b.keys, (k: string) => HoldsTemp(b, tempId, k))
    case None =>
      assert forall k :: HoldsTemp(b, tempId, k) ==> k in b.keys;
      b
    case Some(ki) =>
      var key := b.keys[ki];
      var items := b.chats[key];
      var j := TempIndex(items, tempId).value;
      Buckets(b.keys, b.chats[key := items[j := items[j].(pending := false, delivered := true)]])
  }

  /** An item MarkDelivered changes is the first carrier of `tempId` in its
      bucket, now delivered and no longer pending, and it is the only item
      that changes. */
  lemma MarkDeliveredChangesOne(b: Buckets, tempId: string)
    requires WellFormed(b)
    ensures var r := MarkDelivered(b, tempId);
      forall k, j :: k in b.chats && 0 <= j < |b.chats[k]| && r.chats[k][j] != b.chats[k][j] ==>
        && b.chats[k][j].tempId == Some(tempId)
        && r.chats[k][j] == b.chats[k][j].(pending := false, delivered := true)
        && (forall j' :: 0 <= j' < j ==> b.chats[k][j'].tempId != Some(tempId))
        && (forall k2, j2 :: k2 in b.chats && 0 <= j2 < |b.chats[k2]| && (k2 != k || j2 != j) ==>
              r.chats[k2][j2] == b.chats[k2][j2])
  {
    var r := MarkDelivered(b, tempId);
    match FindFirst(b.keys, (k: string) => HoldsTemp(b, tempId, k))
    case None =>
      assert r == b;
    case Some(ki) =>
      var key := b.keys[ki];
      var items := b.chats[key];
      var j0 := TempIndex(items, tempId).value;
      assert r.chats == b.chats[key := items[j0 := items[j0].(pending := false, delivered := true)]];
      forall k, j | k in b.chats && 0 <= j < |b.chats[k]| && r.chats[k][j] != b.chats[k][j]
        ensures k == key && j == j0
      {
      }
  }

  /** The promise of `messageSent`: when bucket `b.keys[i]` is the first
      one, in key order, holding an item with `tempId`, the first such item
      in it becomes delivered and no longer pending. */
  lemma MarkDeliveredMarksFirstHolder(b: Buckets, tempId: string, i: nat)
    requires WellFormed(b) && i < |b.keys| && HoldsTemp(b, tempId, b.keys[i])
    requires forall j :: 0 <= j < i ==> !HoldsTemp(b, tempId, b.keys[j])
    ensures var k := b.keys[i];
      var j := TempIndex(b.chats[k], tempId).value;
      && MarkDelivered(b, tempId).chats[k][j] == b.chats[k][j].(pending := false, delivered := true)
      && MarkDelivered(b, tempId).chats[k][j].delivered
      && !MarkDelivered(b, tempId).chats[k][j].pending
  {
    FirstHolder(b, tempId, i);
  }

  /** The `for ... in` search of `messageSent`: the buckets are visited in
      key order and the first item with `tempId` in the first bucket that
      holds one is marked delivered. */
  method DeliverTemp(b: Buckets, tempId: string) returns (r: Buckets)
    requires WellFormed(b)
    ensures r == MarkDelivered(b, tempId)
  {
    var i := 0;
    while i < |b.keys|
      invariant 0 <= i <= |b.keys|
      invariant forall j :: 0 <= j < i ==> !HoldsTemp(b, tempId, b.keys[j])
    {
      var key := b.keys[i];
      var index := TempIndex(b.chats[key], tempId);
      if index.Some? {
        var items := b.chats[key];
        var j := index.value;
        FirstHolder(b, tempId, i);
        return Buckets(b.keys, b.chats[key := items[j := items[j].(pending := false, delivered := true)]]);
      }
      i := i + 1;
    }
    assert forall k :: HoldsTemp(b, tempId, k) ==> k in b.keys;
    r := b;
  }

  /** The bucket the search of `messageSent` stops at. */
  lemma FirstHolder(b: Buckets, tempId: string, i: nat)
    requires WellFormed(b) && i < |b.keys| && HoldsTemp(b, tempId, b.keys[i])
    requires forall j :: 0 <= j < i ==> !HoldsTemp(b, tempId, b.keys[j])
    ensures FindFirst(b.keys, (k: string) => HoldsTemp(b, tempId, k)) == Some(i)
  {
  }

  /** The effect of `messageError` on the buckets: the first item carrying
      `tempId` in the given bucket, if that bucket exists, is flagged. */
  function MarkError(b: Buckets, key: string, tempId: string): (r: Buckets)
    ensures r.keys == b.keys && r.chats.Keys == b.chats.Keys
    ensures forall k :: k != key ==> Get(r, k) == Get(b, k)
    ensures !HoldsTemp(b, tempId, key) ==> r == b
    ensures HoldsTemp(b, tempId, key) ==>
      var j := TempIndex(b.chats[key], tempId).value;
      r.chats[key] == b.chats[key][j := b.chats[key][j].(error := true)]
  {
    if HoldsTemp(b, tempId, key) then
      var items := b.chats[key];
      var j := TempIndex(items, tempId).value;
      Buckets(b.keys, b.chats[key := items[j := items[j].(error := true)]])
    else b
  }

  // ----- friend requests -----

  /** An entry of `pendingRequests`. */
  datatype PendingRequest = PendingRequest(from: string, timestamp: Time)

  predicate FromSender(name: string, r: PendingRequest)
  {
    r.from == name
  }

  /** At most one entry per sender. */
  predicate OnePerSender(reqs: seq<PendingRequest>)
  {
    forall i, j :: 0 <= i < j < |reqs| ==> reqs[i].from != reqs[j].from
  }

  /** `pendingRequests.filter(r => r.from !== name)`. */
  function Without(reqs: seq<PendingRequest>, name: string): seq<PendingRequest>
    decreases |reqs|
  {
    if reqs == [] then []
    else if reqs[0].from == name then Without(reqs[1..], name)
    else [reqs[0]] + Without(reqs[1..], name)
  }

  /** Exactly the entries from other senders are kept. */
  lemma {:induction false} WithoutMembers(reqs: seq<PendingRequest>, name: string)
    ensures forall x :: x in Without(reqs, name) <==> x in reqs && x.from != name
    decreases |reqs|
  {
    if reqs != [] {
      WithoutMembers(reqs[1..], name);
      assert forall x :: x in reqs <==> x == reqs[0] || x in reqs[1..];
    }
  }

  /** Filtering keeps one entry per sender. */
  lemma {:induction false} WithoutKeepsOnePerSender(reqs: seq<PendingRequest>, name: string)
    requires OnePerSender(reqs)
    ensures OnePerSender(Without(reqs, name))
    decreases |reqs|
  {
    if reqs != [] {
      var tail := reqs[1..];
      assert OnePerSender(tail) by {
        forall i, j | 0 <= i < j < |tail| ensures tail[i].from != tail[j].from {
          assert tail[i] == reqs[i + 1] && tail[j] == reqs[j + 1];
        }
      }
      WithoutKeepsOnePerSender(tail, name);
      if reqs[0].from != name {
        var rest := Without(tail, name);
        var r := [reqs[0]] + rest;
        WithoutMembers(tail, name);
        forall i, j | 0 <= i < j < |r| ensures r[i].from != r[j].from {
          if i == 0 {
            assert r[j] == rest[j - 1] && r[j] in tail;
            var m :| 0 <= m < |tail| && tail[m] == r[j];
            assert reqs[m + 1] == r[j];
          } else {
            assert r[i] == rest[i - 1] && r[j] == rest[j - 1];
          }
        }
      }
    }
  }

  // ----- sending -----

  /** What the client emits to the server. */
  datatype Outgoing =
    | SendGlobal(text: string, timestamp: Time)
    | SendPrivate(text: string, recipient: string, tempId: string)
    | AcceptRequest(username: string)
    | RejectRequest(username: string)

  datatype ActiveChat = GlobalChat | PrivateChat(recipient: string)

  /** The optimistic copy of a private message, shown before the server
      confirms it. */
  function TempMessage(me: string, text: string, recipient: string, tempId: string, now: Time): ChatItem
  {
    ChatItem(Some(me), text, now, true, true, true, false, false, Some(tempId), Some(recipient))
  }

  /** The state of one logged-in page. */
  class ChatState {
    const me: string
    var chatMessages: Buckets
    var onlineUsers: seq<RosterEntry>
    var addedUsers: set<string>
    var pendingRequests: seq<PendingRequest>
    var activeChat: ActiveChat

    ghost predicate Valid()
      reads this
    {
      && WellFormed(chatMessages)
      && GlobalKey in chatMessages.chats
      && UniqueNames(onlineUsers)
      && OnePerSender(pendingRequests)
      && (activeChat.PrivateChat? ==> PrivateKey(activeChat.recipient) in chatMessages.chats)
    }

    /** The page after start-up: the user is listed, as the current user,
        and counts as added; only the global bucket exists. */
    constructor (me: string)
      ensures this.me == me && Valid()
      ensures chatMessages == Buckets([GlobalKey], map[GlobalKey := []])
      ensures onlineUsers == [RosterEntry(me, true)]
      ensures addedUsers == {me}
      ensures pendingRequests == [] && activeChat == GlobalChat
    {
      this.me := me;
      chatMessages := Buckets([GlobalKey], map[GlobalKey := []]);
      onlineUsers := [RosterEntry(me, true)];
      addedUsers := {me};
      pendingRequests := [];
      activeChat := GlobalChat;
    }

    /** `loadMessages` as written. `response` is the parsed history, or None
        when the request fails; `now` is the clock reading for a system
        message. On failure the `catch` block first removes the loading
        element, but that element was declared inside the `try` block and
        is out of scope there: the removal throws before the failure notice
        is stored, so a failed load changes nothing. */
    method LoadMessages(response: Option<seq<HistoryEntry>>, now: Time)
      requires Valid()
      modifies this
      ensures Valid()
      ensures unchanged(this`pendingRequests, this`addedUsers, this`activeChat)
      ensures response.None? ==> chatMessages == old(chatMessages) && onlineUsers == old(onlineUsers)
      ensures response == Some([]) ==>
        chatMessages == Push(old(chatMessages), GlobalKey, Plain(Server.SystemName, WelcomeText(me), now))
        && onlineUsers == old(onlineUsers)
      ensures response.Some? && response.value != [] ==>
        chatMessages == FileAll(old(chatMessages), response.value, me)
        && onlineUsers == AddSenders(old(onlineUsers), response.value, me)
    {
      if response.Some? {
        LoadHistory(response.value, now);
      }
    }

    /** `loadMessages` with the `catch` block working as evidently meant: a
        failed load stores the failure notice in the global conversation. */
    method LoadMessagesIntended(response: Option<seq<HistoryEntry>>, now: Time)
      requires Valid()
      modifies this
      ensures Valid()
      ensures unchanged(this`pendingRequests, this`addedUsers, this`activeChat)
      ensures response.None? ==>
        chatMessages == Push(old(chatMessages), GlobalKey, Plain(Server.SystemName, LoadFailedText, now))
        && onlineUsers == old(onlineUsers)
      ensures response == Some([]) ==>
        chatMessages == Push(old(chatMessages), GlobalKey, Plain(Server.SystemName, WelcomeText(me), now))
        && onlineUsers == old(onlineUsers)
      ensures response.Some? && response.value != [] ==>
        chatMessages == FileAll(old(chatMessages), response.value, me)
        && onlineUsers == AddSenders(old(onlineUsers), response.value, me)
    {
      if response.None? {
        PushItem(GlobalKey, Plain(Server.SystemName, LoadFailedText, now));
      } else {
        LoadHistory(response.value, now);
      }
    }

    /** The `try` block after a successful request: an empty history gets
        the welcome notice, any other is filed and its senders listed. */
    method LoadHistory(msgs: seq<HistoryEntry>, now: Time)
      requires Valid()
      modifies this
      ensures Valid()
      ensures unchanged(this`pendingRequests, this`addedUsers, this`activeChat)
      ensures msgs == [] ==>
        chatMessages == Push(old(chatMessages), GlobalKey, Plain(Server.SystemName, WelcomeText(me), now))
        && onlineUsers == old(onlineUsers)
      ensures msgs != [] ==>
        chatMessages == FileAll(old(chatMessages), msgs, me)
        && onlineUsers == AddSenders(old(onlineUsers), msgs, me)
    {
      if msgs == [] {
        PushItem(GlobalKey, Plain(Server.SystemName, WelcomeText(me), now));
      } else {
        FileLoaded(msgs);
      }
    }

    /** `chatMessages[key].push(item)`, creating the bucket when missing. */
    method PushItem(key: string, item: ChatItem)
      requires Valid()
      modifies this
      ensures Valid()
      ensures chatMessages == Push(old(chatMessages), key, item)
      ensures unchanged(this`onlineUsers, this`addedUsers, this`pendingRequests, this`activeChat)
    {
      chatMessages := Push(chatMessages, key, item);
    }

    /** The loaded history filed into the buckets and its senders listed. */
    method FileLoaded(msgs: seq<HistoryEntry>)
      requires Valid()
      modifies this
      ensures Valid()
      ensures chatMessages == FileAll(old(chatMessages), msgs, me)
      ensures onlineUsers == AddSenders(old(onlineUsers), msgs, me)
      ensures unchanged(this`addedUsers, this`pendingRequests, this`activeChat)
    {
      var buckets, roster := FileHistory(chatMessages, onlineUsers, msgs, me);
      FileAllWellFormed(chatMessages, msgs, me);
      AddSendersUnique(onlineUsers, msgs, me);
      chatMessages, onlineUsers := buckets, roster;
    }

    /** `privateMessage`: the message goes to the bucket of the name it
        carries, which for the sender's own echo is the sender's name. */
    method OnPrivateMessage(p: Server.PrivatePayload)
      requires Valid()
      modifies this
      ensures Valid()
      ensures chatMessages == Push(old(chatMessages), PrivateKey(Display(p.username)), Received(p))
      ensures unchanged(this`onlineUsers, this`addedUsers, this`pendingRequests, this`activeChat)
    {
      PushItem(PrivateKey(Display(p.username)), Received(p));
    }

    /** `messageSent`: a confirmation without a `tempId` changes nothing;
        otherwise the buckets are searched in key order and the first item
        with that `tempId` is marked delivered. */
    method OnMessageSent(tempId: Option<string>)
      requires Valid()
      modifies this
      ensures Valid()
      ensures !Truthy(tempId) ==> chatMessages == old(chatMessages)
      ensures Truthy(tempId) ==> chatMessages == MarkDelivered(old(chatMessages), tempId.value)
      ensures unchanged(this`onlineUsers, this`addedUsers, this`pendingRequests, this`activeChat)
    {
      if !Truthy(tempId) {
        return;
      }
      chatMessages := DeliverTemp(chatMessages, tempId.value);
    }

    /** `messageError`: only when a `tempId` comes back while a private chat
        is open, the first item with that `tempId` in that chat's bucket is
        flagged. The error notice itself is only displayed. */
    method OnMessageError(tempId: Option<string>)
      requires Valid()
      modifies this
      ensures Valid()
      ensures Truthy(tempId) && activeChat.PrivateChat? ==>
        chatMessages == MarkError(old(chatMessages), PrivateKey(activeChat.recipient), tempId.value)
      ensures !(Truthy(tempId) && activeChat.PrivateChat?) ==> chatMessages == old(chatMessages)
      ensures unchanged(this`onlineUsers, this`addedUsers, this`pendingRequests, this`activeChat)
    {
      if Truthy(tempId) && activeChat.PrivateChat? {
        chatMessages := MarkError(chatMessages, PrivateKey(activeChat.recipient), tempId.value);
      }
    }

    /** `friendRequestAccepted`: a user not yet added is added, and listed
        unless already listed. */
    method OnFriendRequestAccepted(accepter: string)
      requires Valid()
      modifies this
      ensures Valid()
      ensures addedUsers == old(addedUsers) + {accepter}
      ensures accepter in old(addedUsers) ==> onlineUsers == old(onlineUsers)
      ensures accepter !in old(addedUsers) ==> onlineUsers == AddIfAbsent(old(onlineUsers), RosterEntry(accepter, false))
      ensures unchanged(this`chatMessages, this`pendingRequests, this`activeChat)
    {
      if accepter !in addedUsers {
        addedUsers := addedUsers + {accepter};
        onlineUsers := AddIfAbsent(onlineUsers, RosterEntry(accepter, false));
      }
    }

    /** `userJoined`: listed if not listed yet. */
    method OnUserJoined(name: string)
      requires Valid()
      modifies this
      ensures Valid()
      ensures onlineUsers == AddIfAbsent(old(onlineUsers), RosterEntry(name, false))
      ensures unchanged(this`chatMessages, this`addedUsers, this`pendingRequests, this`activeChat)
    {
      onlineUsers := AddIfAbsent(onlineUsers, RosterEntry(name, false));
    }

    /** `userLeft`: unlisted if listed. */
    method OnUserLeft(name: string)
      requires Valid()
      modifies this
      ensures Valid()
      ensures onlineUsers == RemoveName(old(onlineUsers), name)
      ensures unchanged(this`chatMessages, this`addedUsers, this`pendingRequests, this`activeChat)
    {
      if Listed(onlineUsers, name) {
        onlineUsers := RemoveName(onlineUsers, name);
      }
    }

    /** `friendRequest`: one pending entry per sender, and a system notice in
        the global bucket every time. */
    method OnFriendRequest(from: string, timestamp: Time)
      requires Valid()
      modifies this
      ensures Valid()
      ensures (exists i :: 0 <= i < |old(pendingRequests)| && old(pendingRequests)[i].from == from) ==>
        pendingRequests == old(pendingRequests)
      ensures (forall i :: 0 <= i < |old(pendingRequests)| ==> old(pendingRequests)[i].from != from) ==>
        pendingRequests == old(pendingRequests) + [PendingRequest(from, timestamp)]
      ensures chatMessages ==
        Push(old(chatMessages), GlobalKey, Plain(Server.SystemName, from + " sent you a friend request.", timestamp))
      ensures unchanged(this`onlineUsers, this`addedUsers, this`activeChat)
    {
      if FindFirst(pendingRequests, (r: PendingRequest) => FromSender(from, r)).None? {
        pendingRequests := pendingRequests + [PendingRequest(from, timestamp)];
      }
      PushItem(GlobalKey, Plain(Server.SystemName, from + " sent you a friend request.", timestamp));
    }

    /** `acceptFriendRequest(name)`: tells the server, drops every pending
        entry from `name`, and adds and lists the user if not added yet. */
    method AcceptFriendRequest(name: string) returns (sent: Outgoing)
      requires Valid()
      modifies this
      ensures Valid()
      ensures sent == AcceptRequest(name)
      ensures pendingRequests == Without(old(pendingRequests), name)
      ensures addedUsers == old(addedUsers) + {name}
      ensures name in old(addedUsers) ==> onlineUsers == old(onlineUsers)
      ensures name !in old(addedUsers) ==> onlineUsers == AddIfAbsent(old(onlineUsers), RosterEntry(name, false))
      ensures unchanged(this`chatMessages, this`activeChat)
    {
      sent := AcceptRequest(name);
      WithoutKeepsOnePerSender(pendingRequests, name);
      pendingRequests := Without(pendingRequests, name);
      if name !in addedUsers {
        addedUsers := addedUsers + {name};
        onlineUsers := AddIfAbsent(onlineUsers, RosterEntry(name, false));
      }
    }

    /** `rejectFriendRequest(name)`: tells the server and drops every pending
        entry from `name`. */
    method RejectFriendRequest(name: string) returns (sent: Outgoing)
      requires Valid()
      modifies this
      ensures Valid()
      ensures sent == RejectRequest(name)
      ensures pendingRequests == Without(old(pendingRequests), name)
      ensures unchanged(this`chatMessages, this`onlineUsers, this`addedUsers, this`activeChat)
    {
      sent := RejectRequest(name);
      WithoutKeepsOnePerSender(pendingRequests, name);
      pendingRequests := Without(pendingRequests, name);
    }

    /** `sendPrivateMessage(text, recipient)`: blank text is dropped; other
        text is stored at once as pending under the recipient's bucket and
        sent with its `tempId`. */
    method SendPrivateMessage(text: string, recipient: string, tempId: string, now: Time)
      returns (sent: Option<Outgoing>)
      requires Valid()
      modifies this
      ensures Valid()
      ensures Trim(text) == [] ==> sent == None && chatMessages == old(chatMessages)
      ensures Trim(text) != [] ==>
        && sent == Some(SendPrivate(text, recipient, tempId))
        && chatMessages == Push(old(chatMessages), PrivateKey(recipient), TempMessage(me, text, recipient, tempId, now))
      ensures unchanged(this`onlineUsers, this`addedUsers, this`pendingRequests, this`activeChat)
    {
      if Trim(text) == [] {
        return None;
      }
      PushItem(PrivateKey(recipient), TempMessage(me, text, recipient, tempId, now));
      sent := Some(SendPrivate(text, recipient, tempId));
    }

    /** `sendMessage` on the input box's contents: blank input is dropped;
        otherwise the trimmed text goes to the open private chat, or to the
        global chat without being stored. */
    method SendMessage(input: string, tempId: string, now: Time) returns (sent: Option<Outgoing>)
      requires Valid()
      modifies this
      ensures Valid()
      ensures Trim(input) == [] ==> sent == None && chatMessages == old(chatMessages)
      ensures Trim(input) != [] && activeChat.GlobalChat? ==>
        sent == Some(SendGlobal(Trim(input), now)) && chatMessages == old(chatMessages)
      ensures Trim(input) != [] && activeChat.PrivateChat? ==>
        && sent == Some(SendPrivate(Trim(input), activeChat.recipient, tempId))
        && chatMessages == Push(old(chatMessages), PrivateKey(activeChat.recipient),
                                TempMessage(me, Trim(input), activeChat.recipient, tempId, now))
      ensures unchanged(this`onlineUsers, this`addedUsers, this`pendingRequests, this`activeChat)
    {
      var text := Trim(input);
      if text == [] {
        return None;
      }
      if activeChat.PrivateChat? {
        TrimIdempotent(input);
        sent := SendPrivateMessage(text, activeChat.recipient, tempId, now);
      } else {
        sent := Some(SendGlobal(text, now));
      }
    }

    /** `startPrivateChat(name)`: opens the conversation, creating its
        bucket when missing; nothing happens if it is already open. */
    method StartPrivateChat(name: string)
      requires Valid()
      modifies this
      ensures Valid()
      ensures activeChat == PrivateChat(name)
      ensures old(activeChat) == PrivateChat(name) ==> chatMessages == old(chatMessages)
      ensures chatMessages == EnsureKey(old(chatMessages), PrivateKey(name))
      ensures unchanged(this`onlineUsers, this`addedUsers, this`pendingRequests)
    {
      if activeChat == PrivateChat(name) {
        return;
      }
      activeChat := PrivateChat(name);
      chatMessages := EnsureKey(chatMessages, PrivateKey(name));
    }

    /** `switchToGlobalChat`. */
    method SwitchToGlobalChat()
      requires Valid()
      modifies this
      ensures Valid()
      ensures activeChat == GlobalChat
      ensures unchanged(this`chatMessages, this`onlineUsers, this`addedUsers, this`pendingRequests)
    {
      activeChat := GlobalChat;
    }
  }

  /** A failed first load, as written, leaves the global conversation
      empty: the failure notice never reaches the store. */
  method FailedFirstLoad(me: string, now: Time) returns (global: seq<ChatItem>)
    ensures global == []
  {
    var page := new ChatState(me);
    page.LoadMessages(None, now);
    global := page.chatMessages.chats[GlobalKey];
  }

  /** With the intended `catch` block the same failed load leaves exactly
      the failure notice in the global conversation. */
  method FailedFirstLoadIntended(me: string, now: Time) returns (global: seq<ChatItem>)
    ensures global == [Plain(Server.SystemName, LoadFailedText, now)]
  {
    var page := new ChatState(me);
    page.LoadMessagesIntended(None, now);
    global := page.chatMessages.chats[GlobalKey];
  }
}
