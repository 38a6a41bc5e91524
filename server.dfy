/** The Socket.io event handlers of the server, one `Connection` per
    connected socket. A handler's effect on other sockets is the list of
    events it emits, each with its audience; the database collections are the
    `Store` classes, and the set of connected sockets the handler can search
    is passed in as `peers`. */
module Server {
  import opened Common
  import opened Seqs
  import opened Store

  /** Who receives an emitted event: the calling socket (`socket.emit`),
      every other socket (`socket.broadcast.emit`), every socket
      (`io.emit`) or one given socket. */
  datatype Audience = Caller | Others | Everyone | ToSocket(socket: SocketId)

  /** The object sent with a `privateMessage` event. */
  datatype PrivatePayload = PrivatePayload(
    id: MessageId,
    username: Option<string>,
    text: string,
    timestamp: Time,
    isPrivate: bool,
    isOwn: bool,
    tempId: Option<string>)

  datatype Event =
    | UserJoined(name: string)
    | UserLeft(name: string)
    | ChatMessage(username: Option<string>, text: string, sentAt: Option<Time>)
    | PrivateMessage(payload: PrivatePayload)
    | MessageSent(id: MessageId, tempId: Option<string>, status: string, timestamp: Time)
    | MessageError(message: string, tempId: Option<string>)
    | FriendRequestReceived(from: Option<string>, timestamp: Time)
    | FriendRequestSent(to: Option<string>, timestamp: Time)
    | FriendRequestAccepted(accepter: Option<string>, timestamp: Time)
    | FriendRequestRejected(rejecter: Option<string>, timestamp: Time)
    | NewFriendship(users: seq<Option<string>>, timestamp: Time)

  datatype Emission = Emit(to: Audience, event: Event)

  /** A connected socket as another handler sees it: its id and the name it
      joined with, if any. */
  datatype Peer = Peer(id: SocketId, username: Option<string>)

  /** Where a database call of `sendPrivateMessage` throws, if anywhere. */
  datatype Fault = NoFault | RecipientLookupFails | SenderLookupFails | SaveFails | PopulateFails

  const RecipientMissing := "Recipient not found"
  const SenderMissing := "Sender not found"
  const SendFailed := "Failed to send private message"
  const Delivered := "delivered"
  const SystemName := "System"

  /** A `message` event written by the server itself. */
  function SystemMessage(text: string, timestamp: Option<Time>): Event
  {
    ChatMessage(Some(SystemName), text, timestamp)
  }

  /** `Array.from(io.sockets.sockets.values()).find(s => s.username === name)`. */
  function FindPeer(peers: seq<Peer>, name: Option<string>): (r: Option<nat>)
    ensures r.Some? ==> r.value < |peers| && peers[r.value].username == name
    ensures r.Some? ==> forall j :: 0 <= j < r.value ==> peers[j].username != name
    ensures r.None? <==> forall j :: 0 <= j < |peers| ==> peers[j].username != name
  {
    FindFirst(peers, (p: Peer) => p.username == name)
  }

  /** `io.sockets.sockets.get(id)` is defined. */
  predicate Connected(peers: seq<Peer>, sid: SocketId)
  {
    exists j :: 0 <= j < |peers| && peers[j].id == sid
  }

  /** The `privateMessage` the recipient gets, if any. The lookup goes
      through the calling connection's own `onlineUsers` map and needs a
      non-empty socket id that is still connected. */
  function LiveDelivery(onlineUsers: map<string, SocketId>, peers: seq<Peer>, recipient: string,
                        payload: PrivatePayload): (r: seq<Emission>)
    ensures |r| <= 1
    ensures r != [] <==> recipient in onlineUsers && onlineUsers[recipient] != ""
                         && Connected(peers, onlineUsers[recipient])
    ensures r != [] ==> r[0] == Emit(ToSocket(onlineUsers[recipient]), PrivateMessage(payload))
  {
    if recipient in onlineUsers && onlineUsers[recipient] != "" && Connected(peers, onlineUsers[recipient])
    then [Emit(ToSocket(onlineUsers[recipient]), PrivateMessage(payload))]
    else []
  }

  /** The answer to a delivered private message: the live copy, if any,
      goes to socket `sid`, and only the last event is the confirmation. */
  lemma DeliveredShape(live: seq<Emission>, sid: SocketId, echo: Event, sent: Event)
    requires |live| <= 1 && (live != [] ==> live[0].to == ToSocket(sid) && live[0].event.PrivateMessage?)
    requires echo.PrivateMessage? && sent.MessageSent?
    ensures var out := live + [Emit(Caller, echo), Emit(Caller, sent)];
      && (forall k :: 0 <= k < |out| - 1 ==> !out[k].event.MessageSent? && !out[k].event.MessageError?)
      && (forall k :: 0 <= k < |out| && out[k].to != Caller ==> out[k].to == ToSocket(sid))
  {
  }

  /** One connected socket: `socket.username` and the `onlineUsers` map
      created inside the `connection` callback, which therefore belongs to
      this socket alone. */
  class Connection {
    const id: SocketId
    var username: Option<string>
    var onlineUsers: map<string, SocketId>

    /** Only `join` on this connection writes the map, always with this
        socket's id. */
    ghost predicate Valid()
      reads this
    {
      forall name :: name in onlineUsers ==> onlineUsers[name] == id
    }

    constructor (id: SocketId)
      ensures this.id == id && username == None && onlineUsers == map[]
      ensures Valid()
    {
      this.id := id;
      username := None;
      onlineUsers := map[];
    }

    /** `join`: records the name for this socket and announces it to the
        other sockets only. */
    method Join(name: string) returns (out: seq<Emission>)
      requires Valid()
      modifies this
      ensures Valid()
      ensures username == Some(name)
      ensures onlineUsers == old(onlineUsers)[name := id]
      ensures out == [Emit(Others, UserJoined(name)),
                      Emit(Others, SystemMessage(name + " has joined the chat", None))]
    {
      username := Some(name);
      onlineUsers := onlineUsers[name := id];
      out := [Emit(Others, UserJoined(name)),
              Emit(Others, SystemMessage(name + " has joined the chat", None))];
    }

    /** `disconnect`: a socket that joined with a non-empty name leaves the
        map and is announced to the others; any other socket emits nothing. */
    method Disconnect() returns (out: seq<Emission>)
      requires Valid()
      modifies this
      ensures Valid()
      ensures username == old(username)
      ensures !Truthy(old(username)) ==> out == [] && onlineUsers == old(onlineUsers)
      ensures Truthy(old(username)) ==>
        && onlineUsers == old(onlineUsers) - {old(username).value}
        && out == [Emit(Others, UserLeft(old(username).value)),
                   Emit(Others, SystemMessage(old(username).value + " has left the chat", None))]
      ensures forall e :: e in out ==> e.to == Others
    {
      out := [];
      if Truthy(username) {
        var name := username.value;
        onlineUsers := onlineUsers - {name};
        out := [Emit(Others, UserLeft(name)),
                Emit(Others, SystemMessage(name + " has left the chat", None))];
      }
    }

    /** `sendMessage`: relayed to every socket, the sender included; it is
        not stored (the method has no database to write). */
    method SendMessage(text: string, now: Time) returns (out: seq<Emission>)
      ensures |out| == 1 && out[0].to == Everyone
      ensures out[0].event == ChatMessage(username, text, Some(now))
    {
      out := [Emit(Everyone, ChatMessage(username, text, Some(now)))];
    }

    /** `sendPrivateMessage`: finds the recipient, then the sender, saves the
        message, delivers it live when the recipient's socket is known, and
        answers the caller with an echo and a `messageSent` acknowledgement,
        or with one `messageError`. Every answer carries the caller's
        `tempId`. `fault` says which database call throws, if any; `newId`
        and `now` are the saved message's id and timestamp. */
    method SendPrivateMessage(users: seq<User>, log: MessageLog, peers: seq<Peer>,
                              text: string, recipient: string, tempId: Option<string>,
                              fault: Fault, newId: MessageId, now: Time)
      returns (out: seq<Emission>)
      requires Valid()
      modifies log
      ensures fault == RecipientLookupFails ==>
        out == [Emit(Caller, MessageError(SendFailed, tempId))] && log.messages == old(log.messages)
      ensures fault != RecipientLookupFails && FindUser(users, ByUsername(recipient)).None? ==>
        out == [Emit(Caller, MessageError(RecipientMissing, tempId))] && log.messages == old(log.messages)
      ensures fault != RecipientLookupFails && FindUser(users, ByUsername(recipient)).Some? ==>
        var rec := users[FindUser(users, ByUsername(recipient)).value];
        var sender := if username.Some? then FindUser(users, ByUsername(username.value)) else None;
        && (fault == SenderLookupFails ==>
              out == [Emit(Caller, MessageError(SendFailed, tempId))] && log.messages == old(log.messages))
        && (fault != SenderLookupFails && sender.None? ==>
              out == [Emit(Caller, MessageError(SenderMissing, tempId))] && log.messages == old(log.messages))
        && (fault != SenderLookupFails && sender.Some? ==>
              var saved := StoredMessage(newId, users[sender.value].id, Some(rec.id), text, true, now);
              var payload := PrivatePayload(newId, username, text, now, true, false, None);
              && (fault == SaveFails ==>
                    out == [Emit(Caller, MessageError(SendFailed, tempId))] && log.messages == old(log.messages))
              && (fault == PopulateFails ==>
                    out == [Emit(Caller, MessageError(SendFailed, tempId))]
                    && log.messages == old(log.messages) + [saved])
              && (fault == NoFault ==>
                    && log.messages == old(log.messages) + [saved]
                    && out == LiveDelivery(onlineUsers, peers, recipient, payload)
                              + [Emit(Caller, PrivateMessage(payload.(isOwn := true, tempId := tempId))),
                                 Emit(Caller, MessageSent(newId, tempId, Delivered, now))]))
      // Whatever happens, the caller's last event is the one answer that
      // carries its tempId, and nothing but a live copy leaves the caller.
      ensures |out| > 0 && out[|out| - 1].to == Caller
      ensures out[|out| - 1].event.MessageSent? || out[|out| - 1].event.MessageError?
      ensures out[|out| - 1].event.tempId == tempId
      ensures forall k :: 0 <= k < |out| - 1 ==> !out[k].event.MessageSent? && !out[k].event.MessageError?
      ensures forall k :: 0 <= k < |out| && out[k].to != Caller ==> out[k].to == ToSocket(id)
      ensures log.messages == old(log.messages) || |log.messages| == |old(log.messages)| + 1
    {
      if fault == RecipientLookupFails {
        return [Emit(Caller, MessageError(SendFailed, tempId))];
      }
      var rec := FindUser(users, ByUsername(recipient));
      if rec.None? {
        return [Emit(Caller, MessageError(RecipientMissing, tempId))];
      }
      if fault == SenderLookupFails {
        return [Emit(Caller, MessageError(SendFailed, tempId))];
      }
      var sender := if username.Some? then FindUser(users, ByUsername(username.value)) else None;
      if sender.None? {
        return [Emit(Caller, MessageError(SenderMissing, tempId))];
      }
      if fault == SaveFails {
        return [Emit(Caller, MessageError(SendFailed, tempId))];
      }
      var saved := StoredMessage(newId, users[sender.value].id, Some(users[rec.value].id), text, true, now);
      log.Save(saved);
      if fault == PopulateFails {
        return [Emit(Caller, MessageError(SendFailed, tempId))];
      }
      var payload := PrivatePayload(newId, username, text, now, true, false, None);
      var live := LiveDelivery(onlineUsers, peers, recipient, payload);
      var echo := PrivateMessage(payload.(isOwn := true, tempId := tempId));
      var sent := MessageSent(newId, tempId, Delivered, now);
      DeliveredShape(live, id, echo, sent);
      out := live + [Emit(Caller, echo), Emit(Caller, sent)];
    }

    /** `sendFriendRequest`: notifies the first socket joined under the
        target name and confirms to the caller; with no such socket nothing
        is emitted. */
    method SendFriendRequest(peers: seq<Peer>, target: Option<string>, now: Time)
      returns (out: seq<Emission>)
      ensures out == [] <==> forall j :: 0 <= j < |peers| ==> peers[j].username != target
      ensures out != [] ==>
        (exists j :: 0 <= j < |peers| && peers[j].username == target
           && (forall i :: 0 <= i < j ==> peers[i].username != target)
           && out == [Emit(ToSocket(peers[j].id), FriendRequestReceived(username, now)),
                      Emit(Caller, FriendRequestSent(target, now))])
    {
      out := [];
      var t := FindPeer(peers, target);
      if t.Some? {
        out := [Emit(ToSocket(peers[t.value].id), FriendRequestReceived(username, now)),
                Emit(Caller, FriendRequestSent(target, now))];
      }
    }

    /** `acceptFriendRequest`: the requester, if connected, hears of the
        acceptance and both sides get a system message; the new friendship
        is announced to everyone in any case. */
    method AcceptFriendRequest(peers: seq<Peer>, requester: Option<string>, now: Time)
      returns (out: seq<Emission>)
      ensures |out| > 0 && out[|out| - 1] == Emit(Everyone, NewFriendship([username, requester], now))
      ensures (exists k :: 0 <= k < |out| && out[k].event.FriendRequestAccepted?) <==>
              exists j :: 0 <= j < |peers| && peers[j].username == requester
      ensures FindPeer(peers, requester).None? ==> |out| == 1
      ensures FindPeer(peers, requester).Some? ==>
        var sid := peers[FindPeer(peers, requester).value].id;
        out == [Emit(ToSocket(sid), FriendRequestAccepted(username, now)),
                Emit(ToSocket(sid), SystemMessage(Display(username) + " accepted your friend request!", Some(now))),
                Emit(Caller, SystemMessage("You accepted " + Display(requester) + "'s friend request!", Some(now))),
                Emit(Everyone, NewFriendship([username, requester], now))]
    {
      out := [];
      var t := FindPeer(peers, requester);
      if t.Some? {
        var sid := peers[t.value].id;
        out := [Emit(ToSocket(sid), FriendRequestAccepted(username, now)),
                Emit(ToSocket(sid), SystemMessage(Display(username) + " accepted your friend request!", Some(now))),
                Emit(Caller, SystemMessage("You accepted " + Display(requester) + "'s friend request!", Some(now)))];
      }
      out := out + [Emit(Everyone, NewFriendship([username, requester], now))];
      assert t.Some? ==> out[0].event.FriendRequestAccepted?;
    }

    /** `rejectFriendRequest`: only the requester hears of it, and only when
        connected. */
    method RejectFriendRequest(peers: seq<Peer>, requester: Option<string>, now: Time)
      returns (out: seq<Emission>)
      ensures out == [] <==> FindPeer(peers, requester).None?
      ensures out != [] ==>
        out == [Emit(ToSocket(peers[FindPeer(peers, requester).value].id), FriendRequestRejected(username, now))]
    {
      out := [];
      var t := FindPeer(peers, requester);
      if t.Some? {
        out := [Emit(ToSocket(peers[t.value].id), FriendRequestRejected(username, now))];
      }
    }

    /** `addUser`: tells the added user, if connected, and always tells the
        other sockets. */
    method AddUser(peers: seq<Peer>, target: Option<string>, now: Time)
      returns (out: seq<Emission>)
      ensures |out| > 0 && out[|out| - 1] ==
        Emit(Others, SystemMessage(Display(username) + " added " + Display(target) + " to the chat", Some(now)))
      ensures FindPeer(peers, target).None? <==> |out| == 1
      ensures FindPeer(peers, target).Some? ==> |out| == 2
      ensures FindPeer(peers, target).Some? ==>
        out[0] == Emit(ToSocket(peers[FindPeer(peers, target).value].id),
                       SystemMessage(Display(username) + " added you to the chat", Some(now)))
    {
      out := [];
      var t := FindPeer(peers, target);
      if t.Some? {
        out := [Emit(ToSocket(peers[t.value].id),
                     SystemMessage(Display(username) + " added you to the chat", Some(now)))];
      }
      out := out + [Emit(Others, SystemMessage(Display(username) + " added " + Display(target) + " to the chat", Some(now)))];
    }
  }
}
