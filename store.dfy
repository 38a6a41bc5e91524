/** The two MongoDB collections the application keeps (users and messages),
    the session record of a logged-in user, and the HTTP replies of the
    REST routes. Each collection is a class whose one field is the sequence
    of its documents in natural (insertion) order. */
module Store {
  import opened Common
  import opened Seqs

  /** The `status` of an entry of a user's `friendRequests` array. No route
      ever writes Rejected. */
  datatype FriendStatus = Pending | Accepted | Rejected

  /** An entry `{from, status}` of the recipient's `friendRequests`. */
  datatype FriendRequest = FriendRequest(from: UserId, status: FriendStatus)

  datatype User = User(
    id: UserId,
    username: string,
    email: string,
    password: string,
    friendRequests: seq<FriendRequest>,
    friends: seq<UserId>)

  /** A Message document. `recipient` is absent for a global message (and,
      when the REST route is given no recipient, for a private one). */
  datatype StoredMessage = StoredMessage(
    id: MessageId,
    sender: UserId,
    recipient: Option<UserId>,
    text: string,
    isPrivate: bool,
    timestamp: Time)

  /** `req.session.user`. */
  datatype SessionUser = SessionUser(id: UserId, username: string)

  /** An HTTP reply: a status code with a JSON body, or with `{message}`. */
  datatype Response<T> = Ok(status: nat, body: T) | Fail(status: nat, message: string)

  const NotAuthenticated := "Not authenticated"
  const ServerError := "Server error"

  /** The filter of a `User.findOne` / `User.findById` query. */
  datatype Query = ById(id: UserId) | ByUsername(username: string) | ByEmail(email: string)

  predicate Matches(u: User, q: Query)
  {
    match q
    case ById(i) => u.id == i
    case ByUsername(n) => u.username == n
    case ByEmail(e) => u.email == e
  }

  /** The index of the document a `findOne`/`findById` returns: the first
      match in natural order, or None for `null`. */
  function FindUser(users: seq<User>, q: Query): (r: Option<nat>)
    ensures r.Some? ==> r.value < |users| && Matches(users[r.value], q)
    ensures r.Some? ==> forall j :: 0 <= j < r.value ==> !Matches(users[j], q)
    ensures r.None? <==> forall j :: 0 <= j < |users| ==> !Matches(users[j], q)
  {
    FindFirst(users, (u: User) => Matches(u, q))
  }

  // The consistency the friend-request routes keep in the users collection.

  ghost predicate UniqueIds(users: seq<User>)
  {
    forall i, j :: 0 <= i < j < |users| ==> users[i].id != users[j].id
  }

  ghost predicate UniqueEmails(users: seq<User>)
  {
    forall i, j :: 0 <= i < j < |users| ==> users[i].email != users[j].email
  }

  /** No user holds two requests from the same sender. */
  ghost predicate OneRequestPerSender(users: seq<User>)
  {
    forall i, a, b :: 0 <= i < |users| && 0 <= a < b < |users[i].friendRequests| ==>
      users[i].friendRequests[a].from != users[i].friendRequests[b].from
  }

  /** No friends list names anyone twice. */
  ghost predicate FriendsDistinct(users: seq<User>)
  {
    forall i, a, b :: 0 <= i < |users| && 0 <= a < b < |users[i].friends| ==>
      users[i].friends[a] != users[i].friends[b]
  }

  /** Every friend is a user of the collection. */
  ghost predicate FriendsKnown(users: seq<User>)
  {
    forall i, a :: 0 <= i < |users| && 0 <= a < |users[i].friends| ==>
      exists j :: 0 <= j < |users| && users[j].id == users[i].friends[a]
  }

  /** Friendship reads the same from either side. */
  ghost predicate FriendsSymmetric(users: seq<User>)
  {
    forall i, j :: 0 <= i < |users| && 0 <= j < |users| ==>
      (users[j].id in users[i].friends <==> users[i].id in users[j].friends)
  }

  ghost predicate Consistent(users: seq<User>)
  {
    && UniqueIds(users)
    && UniqueEmails(users)
    && OneRequestPerSender(users)
    && FriendsDistinct(users)
    && FriendsKnown(users)
    && FriendsSymmetric(users)
  }

  /** The `users` collection. */
  class UserStore {
    var users: seq<User>

    ghost predicate Valid()
      reads this
    {
      Consistent(users)
    }

    constructor ()
      ensures Valid() && users == []
    {
      users := [];
    }
  }

  /** The `messages` collection. */
  class MessageLog {
    var messages: seq<StoredMessage>

    constructor ()
      ensures messages == []
    {
      messages := [];
    }

    /** `new Message(m).save()`. */
    method Save(m: StoredMessage)
      modifies this
      ensures messages == old(messages) + [m]
    {
      messages := messages + [m];
    }
  }
}
