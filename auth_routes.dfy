/** The routes of routes/auth.js that decide something: registration's
    duplicate-email check and the friend-request ledger (send, accept and
    the listing of pending requests). Each user document carries its own
    `friendRequests` (entries `{from, status}`) and `friends` arrays. */
module AuthRoutes {
  import opened Common
  import opened Seqs
  import opened Store

  const UserExists := "User already exists"
  const UserNotFound := "User not found"
  const AlreadySent := "Friend request already sent"
  const RequestSent := "Friend request sent successfully"
  const RequestNotFound := "Friend request not found"
  const RequestAccepted := "Friend request accepted"

  /** `friendRequests.find(r => r.from === from)` finds an entry, whatever
      its status. */
  predicate HasRequestFrom(reqs: seq<FriendRequest>, from: UserId)
  {
    FindFirst(reqs, (r: FriendRequest) => r.from == from).Some?
  }

  /** `friendRequests.findIndex(r => r.from === from && r.status === 'pending')`. */
  function PendingIndex(reqs: seq<FriendRequest>, from: UserId): (r: Option<nat>)
    ensures r.Some? ==> r.value < |reqs| && reqs[r.value] == FriendRequest(from, Pending)
    ensures r.Some? ==> forall j :: 0 <= j < r.value ==> reqs[j] != FriendRequest(from, Pending)
    ensures r.None? <==> forall j :: 0 <= j < |reqs| ==> reqs[j] != FriendRequest(from, Pending)
  {
    FindFirst(reqs, (r: FriendRequest) => r.from == from && r.status == Pending)
  }

  /** `friendRequests.filter(r => r.status === 'pending')`. */
  predicate IsPending(r: FriendRequest)
  {
    r.status == Pending
  }

  function PendingOnly(reqs: seq<FriendRequest>): seq<FriendRequest>
  {
    Filter(reqs, IsPending)
  }

  /** `if (!friends.includes(id)) friends.push(id)`. */
  function AddFriend(friends: seq<UserId>, id: UserId): (r: seq<UserId>)
    ensures forall x :: x in r <==> x in friends || x == id
    ensures |friends| <= |r| && r[..|friends|] == friends
    ensures id in friends ==> |r| == |friends|
    ensures id !in friends ==> |r| == |friends| + 1
    ensures (forall i, j :: 0 <= i < j < |friends| ==> friends[i] != friends[j]) ==>
      forall i, j :: 0 <= i < j < |r| ==> r[i] != r[j]
  {
    if id in friends then friends else friends + [id]
  }

  /** The users after a successful send: one pending entry from `from`
      appended to user `t`'s requests. */
  function WithRequest(users: seq<User>, t: nat, from: UserId): seq<User>
    requires t < |users|
  {
    users[t := users[t].(friendRequests := users[t].friendRequests + [FriendRequest(from, Pending)])]
  }

  /** The users after a successful accept by user `c` of entry `k`, which
      came from user `q`: the entry is marked accepted and each of the two
      is added to the other's friends. When `c == q` both additions land on
      the one record, one after the other. */
  function AfterAccept(users: seq<User>, c: nat, q: nat, k: nat): seq<User>
    requires c < |users| && q < |users| && k < |users[c].friendRequests|
  {
    var cur := users[c];
    var reqs := cur.friendRequests;
    var u1 := users[c := cur.(friendRequests := reqs[k := reqs[k].(status := Accepted)],
                              friends := AddFriend(cur.friends, users[q].id))];
    u1[q := u1[q].(friends := AddFriend(u1[q].friends, cur.id))]
  }

  // ----- the routes -----

  /** POST /register: refuses an e-mail address already on file; otherwise
      stores the new user (its id is the one the database generates) and
      logs it in. */
  method Register(store: UserStore, username: string, email: string, password: string, newId: UserId)
    returns (resp: Response<SessionUser>)
    requires store.Valid()
    requires forall i :: 0 <= i < |store.users| ==> store.users[i].id != newId
    modifies store
    ensures store.Valid()
    ensures FindUser(old(store.users), ByEmail(email)).Some? ==>
      resp == Fail(400, UserExists) && store.users == old(store.users)
    ensures FindUser(old(store.users), ByEmail(email)).None? ==>
      && resp == Ok(201, SessionUser(newId, username))
      && store.users == old(store.users) + [User(newId, username, email, password, [], [])]
  {
    var existing := FindUser(store.users, ByEmail(email));
    if existing.Some? {
      return Fail(400, UserExists);
    }
    var user := User(newId, username, email, password, [], []);
    RegisterKeepsConsistent(store.users, user);
    store.users := store.users + [user];
    resp := Ok(201, SessionUser(user.id, user.username));
  }

  /** POST /friend-request/send/:userId. */
  method SendFriendRequest(store: UserStore, session: Option<SessionUser>, targetId: UserId)
    returns (resp: Response<string>)
    requires store.Valid()
    modifies store
    ensures store.Valid()
    ensures session.None? ==> resp == Fail(401, NotAuthenticated) && store.users == old(store.users)
    ensures session.Some? && FindUser(old(store.users), ById(targetId)).None? ==>
      resp == Fail(404, UserNotFound) && store.users == old(store.users)
    ensures session.Some? && FindUser(old(store.users), ById(targetId)).Some? ==>
      var t := FindUser(old(store.users), ById(targetId)).value;
      if HasRequestFrom(old(store.users)[t].friendRequests, session.value.id) then
        resp == Fail(400, AlreadySent) && store.users == old(store.users)
      else
        resp == Ok(200, RequestSent) && store.users == WithRequest(old(store.users), t, session.value.id)
  {
    if session.None? {
      return Fail(401, NotAuthenticated);
    }
    var target := FindUser(store.users, ById(targetId));
    if target.None? {
      return Fail(404, UserNotFound);
    }
    var t := target.value;
    if HasRequestFrom(store.users[t].friendRequests, session.value.id) {
      return Fail(400, AlreadySent);
    }
    WithRequestKeepsConsistent(store.users, t, session.value.id);
    var user := store.users[t];
    user := user.(friendRequests := user.friendRequests + [FriendRequest(session.value.id, Pending)]);
    store.users := store.users[t := user];
    resp := Ok(200, RequestSent);
  }

  /** POST /friend-request/accept/:userId. The requester is looked up and
      checked before the current user is: a session whose user no longer
      exists fails on reading its requests, which the route's catch turns
      into a 500. */
  method AcceptFriendRequest(store: UserStore, session: Option<SessionUser>, requesterId: UserId)
    returns (resp: Response<string>)
    requires store.Valid()
    modifies store
    ensures store.Valid()
    ensures session.None? ==> resp == Fail(401, NotAuthenticated) && store.users == old(store.users)
    ensures session.Some? && FindUser(old(store.users), ById(requesterId)).None? ==>
      resp == Fail(404, UserNotFound) && store.users == old(store.users)
    ensures session.Some? && FindUser(old(store.users), ById(requesterId)).Some?
            && FindUser(old(store.users), ById(session.value.id)).None? ==>
      resp == Fail(500, ServerError) && store.users == old(store.users)
    ensures session.Some? && FindUser(old(store.users), ById(requesterId)).Some?
            && FindUser(old(store.users), ById(session.value.id)).Some? ==>
      var c := FindUser(old(store.users), ById(session.value.id)).value;
      var q := FindUser(old(store.users), ById(requesterId)).value;
      match PendingIndex(old(store.users)[c].friendRequests, requesterId)
      case None => resp == Fail(404, RequestNotFound) && store.users == old(store.users)
      case Some(k) => resp == Ok(200, RequestAccepted) && store.users == AfterAccept(old(store.users), c, q, k)
  {
    if session.None? {
      return Fail(401, NotAuthenticated);
    }
    var current := FindUser(store.users, ById(session.value.id));
    var requesting := FindUser(store.users, ById(requesterId));
    if requesting.None? {
      return Fail(404, UserNotFound);
    }
    if current.None? {
      return Fail(500, ServerError);
    }
    var c, q := current.value, requesting.value;
    var index := PendingIndex(store.users[c].friendRequests, requesterId);
    if index.None? {
      return Fail(404, RequestNotFound);
    }
    var k := index.value;
    ghost var before := store.users;
    AcceptKeepsConsistent(before, c, q, k);

    var cur := store.users[c];
    var reqs := cur.friendRequests;
    reqs := reqs[k := reqs[k].(status := Accepted)];
    var friends := cur.friends;
    if requesterId !in friends {
      friends := friends + [requesterId];
    }
    store.users := store.users[c := cur.(friendRequests := reqs, friends := friends)];
    var req := store.users[q];
    if cur.id !in req.friends {
      req := req.(friends := req.friends + [cur.id]);
    }
    store.users := store.users[q := req];
    resp := Ok(200, RequestAccepted);
  }

  /** GET /friend-requests: the session user's pending requests. A session
      whose user no longer exists fails on reading its requests (500). */
  method ListFriendRequests(store: UserStore, session: Option<SessionUser>)
    returns (resp: Response<seq<FriendRequest>>)
    ensures session.None? ==> resp == Fail(401, NotAuthenticated)
    ensures session.Some? && FindUser(store.users, ById(session.value.id)).None? ==>
      resp == Fail(500, ServerError)
    ensures session.Some? && FindUser(store.users, ById(session.value.id)).Some? ==>
      resp.Ok? && resp.status == 200 &&
      var reqs := store.users[FindUser(store.users, ById(session.value.id)).value].friendRequests;
      resp.body == PendingOnly(reqs) &&
      (forall i :: 0 <= i < |resp.body| ==> resp.body[i].status == Pending && resp.body[i] in reqs) &&
      (forall i :: 0 <= i < |reqs| && reqs[i].status == Pending ==> reqs[i] in resp.body)
  {
    if session.None? {
      return Fail(401, NotAuthenticated);
    }
    var user := FindUser(store.users, ById(session.value.id));
    if user.None? {
      return Fail(500, ServerError);
    }
    var reqs := store.users[user.value].friendRequests;
    FilterMembers(reqs, IsPending);
    resp := Ok(200, PendingOnly(reqs));
  }

  // ----- what the ledger keeps -----

  lemma RegisterKeepsConsistent(users: seq<User>, u: User)
    requires Consistent(users)
    requires forall i :: 0 <= i < |users| ==> users[i].id != u.id && users[i].email != u.email
    requires u.friendRequests == [] && u.friends == []
    ensures Consistent(users + [u])
  {
    var r := users + [u];
    forall i | 0 <= i < |users| ensures u.id !in users[i].friends {
      forall a | 0 <= a < |users[i].friends| ensures users[i].friends[a] != u.id {
        var m :| 0 <= m < |users| && users[m].id == users[i].friends[a];
      }
    }
    forall i, a | 0 <= i < |r| && 0 <= a < |r[i].friends|
      ensures exists j :: 0 <= j < |r| && r[j].id == r[i].friends[a]
    {
      var j :| 0 <= j < |users| && users[j].id == users[i].friends[a];
      assert r[j] == users[j];
    }
  }

  lemma WithRequestKeepsConsistent(users: seq<User>, t: nat, from: UserId)
    requires Consistent(users) && t < |users|
    requires !HasRequestFrom(users[t].friendRequests, from)
    ensures Consistent(WithRequest(users, t, from))
  {
    var r := WithRequest(users, t, from);
    forall i, a | 0 <= i < |r| && 0 <= a < |r[i].friends|
      ensures exists j :: 0 <= j < |r| && r[j].id == r[i].friends[a]
    {
      var j :| 0 <= j < |users| && users[j].id == users[i].friends[a];
      assert r[j].id == users[j].id;
    }
  }

  lemma AcceptKeepsConsistent(users: seq<User>, c: nat, q: nat, k: nat)
    requires Consistent(users)
    requires c < |users| && q < |users| && k < |users[c].friendRequests|
    ensures Consistent(AfterAccept(users, c, q, k))
  {
    var r := AfterAccept(users, c, q, k);
    AcceptShape(users, c, q, k);
    forall i, a, b | 0 <= i < |r| && 0 <= a < b < |r[i].friends|
      ensures r[i].friends[a] != r[i].friends[b]
    {
      DistinctAfterAdds(users, c, q, k, i, a, b);
    }
    GrownKeepsConsistent(users, r, c, q);
  }

  /** Same documents, same ids, e-mails and request senders. */
  ghost predicate SameSkeleton(users: seq<User>, r: seq<User>)
  {
    && |r| == |users|
    && (forall i :: 0 <= i < |r| ==>
          && r[i].id == users[i].id
          && r[i].email == users[i].email
          && |r[i].friendRequests| == |users[i].friendRequests|)
    && (forall i, a :: 0 <= i < |r| && 0 <= a < |r[i].friendRequests| ==>
          r[i].friendRequests[a].from == users[i].friendRequests[a].from)
  }

  /** The friends lists of `r` are those of `users` with `users[q].id`
      added to `c`'s list and `users[c].id` added to `q`'s. */
  ghost predicate FriendsGrown(users: seq<User>, r: seq<User>, c: nat, q: nat)
    requires |r| == |users| && c < |users| && q < |users|
  {
    forall i, x :: 0 <= i < |r| ==>
      (x in r[i].friends <==>
         x in users[i].friends || (i == c && x == users[q].id) || (i == q && x == users[c].id))
  }

  lemma AcceptShape(users: seq<User>, c: nat, q: nat, k: nat)
    requires c < |users| && q < |users| && k < |users[c].friendRequests|
    ensures SameSkeleton(users, AfterAccept(users, c, q, k))
    ensures FriendsGrown(users, AfterAccept(users, c, q, k), c, q)
  {
  }

  /** Adding a mirrored pair of friend edges between two existing users
      keeps the collection consistent. */
  lemma GrownKeepsConsistent(users: seq<User>, r: seq<User>, c: nat, q: nat)
    requires Consistent(users) && c < |users| && q < |users|
    requires SameSkeleton(users, r) && FriendsGrown(users, r, c, q) && FriendsDistinct(r)
    ensures Consistent(r)
  {
    forall i, j | 0 <= i < |r| && 0 <= j < |r|
      ensures r[j].id in r[i].friends <==> r[i].id in r[j].friends
    {
      assert users[j].id in users[i].friends <==> users[i].id in users[j].friends;
    }
    forall i, a | 0 <= i < |r| && 0 <= a < |r[i].friends|
      ensures exists j :: 0 <= j < |r| && r[j].id == r[i].friends[a]
    {
      var x := r[i].friends[a];
      if x in users[i].friends {
        var b :| 0 <= b < |users[i].friends| && users[i].friends[b] == x;
        var j :| 0 <= j < |users| && users[j].id == users[i].friends[b];
        assert r[j].id == x;
      } else if i == c && x == users[q].id {
        assert r[q].id == x;
      } else {
        assert r[c].id == x;
      }
    }
  }

  /** The friends lists AfterAccept builds stay free of repeats. */
  lemma DistinctAfterAdds(users: seq<User>, c: nat, q: nat, k: nat, i: nat, a: nat, b: nat)
    requires FriendsDistinct(users)
    requires c < |users| && q < |users| && k < |users[c].friendRequests|
    requires i < |users| && a < b < |AfterAccept(users, c, q, k)[i].friends|
    ensures AfterAccept(users, c, q, k)[i].friends[a] != AfterAccept(users, c, q, k)[i].friends[b]
  {
    var cur := users[c];
    var f1 := AddFriend(cur.friends, users[q].id);
    assert forall x, y :: 0 <= x < y < |f1| ==> f1[x] != f1[y];
    var mid := if q == c then f1 else users[q].friends;
    var f2 := AddFriend(mid, cur.id);
    assert forall x, y :: 0 <= x < y < |f2| ==> f2[x] != f2[y];
  }

  /** A request from `from` blocks every later send from `from`. */
  lemma SendThenSendRefused(users: seq<User>, t: nat, from: UserId)
    requires t < |users|
    ensures HasRequestFrom(WithRequest(users, t, from)[t].friendRequests, from)
  {
    var reqs := WithRequest(users, t, from)[t].friendRequests;
    assert reqs[|reqs| - 1].from == from;
  }

  /** A successful send adds exactly one entry to the target's pending
      listing, at its end, and changes no other user. */
  lemma SendAppendsPending(users: seq<User>, t: nat, from: UserId)
    requires t < |users|
    ensures PendingOnly(WithRequest(users, t, from)[t].friendRequests)
         == PendingOnly(users[t].friendRequests) + [FriendRequest(from, Pending)]
    ensures forall i :: 0 <= i < |users| && i != t ==> WithRequest(users, t, from)[i] == users[i]
  {
    var reqs := users[t].friendRequests;
    FilterConcat(reqs, [FriendRequest(from, Pending)], IsPending);
  }

  /** After an accept the requester and the accepter are each in the
      other's friends list, exactly once. */
  lemma AcceptMakesFriends(users: seq<User>, c: nat, q: nat, k: nat)
    requires FriendsDistinct(users)
    requires c < |users| && q < |users| && k < |users[c].friendRequests|
    ensures var r := AfterAccept(users, c, q, k);
      && users[q].id in r[c].friends && users[c].id in r[q].friends
      && (forall a, b :: 0 <= a < b < |r[c].friends| ==> r[c].friends[a] != r[c].friends[b])
      && (forall a, b :: 0 <= a < b < |r[q].friends| ==> r[q].friends[a] != r[q].friends[b])
  {
    var r := AfterAccept(users, c, q, k);
    AcceptShape(users, c, q, k);
    forall i, a, b | i in {c, q} && 0 <= a < b < |r[i].friends|
      ensures r[i].friends[a] != r[i].friends[b]
    {
      DistinctAfterAdds(users, c, q, k, i, a, b);
    }
  }

  /** Accepting takes the accepted entry out of the pending listing and
      leaves every other entry in place. */
  lemma AcceptClearsPending(users: seq<User>, c: nat, q: nat, k: nat)
    requires c < |users| && q < |users| && k < |users[c].friendRequests|
    ensures var reqs := users[c].friendRequests;
      PendingOnly(AfterAccept(users, c, q, k)[c].friendRequests)
        == PendingOnly(reqs[..k]) + PendingOnly(reqs[k + 1..])
  {
    var reqs := users[c].friendRequests;
    assert AfterAccept(users, c, q, k)[c].friendRequests == reqs[k := reqs[k].(status := Accepted)];
    MarkAcceptedLeavesPending(reqs, k);
  }

  lemma MarkAcceptedLeavesPending(reqs: seq<FriendRequest>, k: nat)
    requires k < |reqs|
    ensures PendingOnly(reqs[k := reqs[k].(status := Accepted)])
         == PendingOnly(reqs[..k]) + PendingOnly(reqs[k + 1..])
  {
    var x := reqs[k].(status := Accepted);
    var a, b := reqs[..k], reqs[k + 1..];
    UpdateAsConcat(reqs, k, x);
    FilterConcat(a + [x], b, IsPending);
    FilterConcat(a, [x], IsPending);
    calc {
      PendingOnly(reqs[k := x]);
      Filter((a + [x]) + b, IsPending);
      Filter(a + [x], IsPending) + Filter(b, IsPending);
      (Filter(a, IsPending) + Filter([x], IsPending)) + Filter(b, IsPending);
      { assert Filter([x], IsPending) == []; }
      Filter(a, IsPending) + Filter(b, IsPending);
    }
  }

  /** Accepting the same request a second time finds nothing pending and
      so fails with 404. */
  lemma AcceptTwiceFails(users: seq<User>, c: nat, q: nat, k: nat)
    requires Consistent(users)
    requires c < |users| && q < |users| && k < |users[c].friendRequests|
    requires users[c].friendRequests[k] == FriendRequest(users[q].id, Pending)
    ensures PendingIndex(AfterAccept(users, c, q, k)[c].friendRequests, users[q].id).None?
  {
    var reqs := AfterAccept(users, c, q, k)[c].friendRequests;
    forall j | 0 <= j < |reqs| ensures reqs[j] != FriendRequest(users[q].id, Pending) {
      if j != k {
        assert users[c].friendRequests[j].from != users[c].friendRequests[k].from;
      }
    }
  }
}
