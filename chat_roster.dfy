/** The client's list of users (`onlineUsers`) and the order in which the
    sidebar shows it. */
module Roster {
  import opened Seqs
  import opened Strings

  /** A value of the `onlineUsers` map. */
  datatype RosterEntry = RosterEntry(username: string, isCurrentUser: bool)

  /** The comparator given to `sort`: the current user first, everyone else
      by name. */
  function Compare(a: RosterEntry, b: RosterEntry): (r: int)
    ensures a.isCurrentUser ==> r < 0
    ensures !a.isCurrentUser && b.isCurrentUser ==> r > 0
    ensures !a.isCurrentUser && !b.isCurrentUser ==>
      (r <= 0 <==> StrLeq(a.username, b.username)) && (r == 0 <==> a.username == b.username)
  {
    if a.isCurrentUser then -1
    else if b.isCurrentUser then 1
    else StrCompare(a.username, b.username)
  }

  predicate RosterLeq(a: RosterEntry, b: RosterEntry)
  {
    Compare(a, b) <= 0
  }

  /** The comparator is a total preorder, so sorting by it is well defined. */
  lemma RosterLeqIsPreorder()
    ensures TotalPreorder(RosterLeq)
  {
    forall a: RosterEntry, b: RosterEntry ensures RosterLeq(a, b) || RosterLeq(b, a) {
      StrLeqTotal(a.username, b.username);
    }
    forall a: RosterEntry, b: RosterEntry, c: RosterEntry | RosterLeq(a, b) && RosterLeq(b, c)
      ensures RosterLeq(a, c)
    {
      if !a.isCurrentUser {
        StrLeqTrans(a.username, b.username, c.username);
      }
    }
  }

  /** The users list as `updateUsersList` shows it. */
  function SortedRoster(entries: seq<RosterEntry>): (r: seq<RosterEntry>)
    ensures multiset(r) == multiset(entries)
    ensures forall i, j :: 0 <= i < j < |r| && r[j].isCurrentUser ==> r[i].isCurrentUser
    ensures forall i, j :: 0 <= i < j < |r| && !r[i].isCurrentUser && !r[j].isCurrentUser ==>
      StrLeq(r[i].username, r[j].username)
  {
    RosterLeqIsPreorder();
    var r := SortBy(entries, RosterLeq);
    assert forall i, j :: 0 <= i < j < |r| ==> RosterLeq(r[i], r[j]);
    r
  }

  /** When the current user is listed, the sorted list starts with them. */
  lemma CurrentUserFirst(entries: seq<RosterEntry>)
    requires exists k :: 0 <= k < |entries| && entries[k].isCurrentUser
    ensures |SortedRoster(entries)| > 0 && SortedRoster(entries)[0].isCurrentUser
  {
    var r := SortedRoster(entries);
    var k :| 0 <= k < |entries| && entries[k].isCurrentUser;
    assert entries[k] in multiset(entries);
    assert entries[k] in multiset(r);
    var j :| 0 <= j < |r| && r[j] == entries[k];
    if j > 0 {
      assert r[j].isCurrentUser;
    }
  }

  /** `onlineUsers.has(name)`. */
  predicate Listed(roster: seq<RosterEntry>, name: string)
  {
    exists i :: 0 <= i < |roster| && roster[i].username == name
  }

  /** The map has one entry per name. */
  predicate UniqueNames(roster: seq<RosterEntry>)
  {
    forall i, j :: 0 <= i < j < |roster| ==> roster[i].username != roster[j].username
  }

  /** `if (!onlineUsers.has(name)) onlineUsers.set(name, entry)`. */
  function AddIfAbsent(roster: seq<RosterEntry>, entry: RosterEntry): (r: seq<RosterEntry>)
    ensures Listed(roster, entry.username) ==> r == roster
    ensures !Listed(roster, entry.username) ==> r == roster + [entry]
    ensures UniqueNames(roster) ==> UniqueNames(r)
    ensures forall n :: Listed(r, n) <==> Listed(roster, n) || n == entry.username
  {
    if Listed(roster, entry.username) then roster
    else
      var r := roster + [entry];
      assert r[|roster|].username == entry.username;
      assert forall n :: Listed(roster, n) ==> Listed(r, n) by {
        forall n | Listed(roster, n) ensures Listed(r, n) {
          var i :| 0 <= i < |roster| && roster[i].username == n;
          assert r[i] == roster[i];
        }
      }
      r
  }

  /** `onlineUsers.delete(name)`. */
  function RemoveName(roster: seq<RosterEntry>, name: string): (r: seq<RosterEntry>)
    ensures UniqueNames(roster) ==> UniqueNames(r)
    ensures forall n :: Listed(r, n) <==> Listed(roster, n) && n != name
    ensures !Listed(roster, name) ==> r == roster
    decreases |roster|
  {
    if roster == [] then []
    else
      var rest := RemoveName(roster[1..], name);
      RemoveStep(roster, name, rest);
      if roster[0].username == name then rest else [roster[0]] + rest
  }

  predicate NotNamed(name: string, e: RosterEntry)
  {
    e.username != name
  }

  /** `Map.delete` keeps every other entry as it was and in its order: the
      result is the roster filtered by name. */
  lemma {:induction false} RemoveNameKeepsOthers(roster: seq<RosterEntry>, name: string)
    ensures RemoveName(roster, name) == Filter(roster, e => NotNamed(name, e))
    ensures forall e :: e in RemoveName(roster, name) <==> e in roster && e.username != name
    decreases |roster|
  {
    var p := (e: RosterEntry) => NotNamed(name, e);
    if roster != [] {
      RemoveNameKeepsOthers(roster[1..], name);
    }
    FilterMembers(roster, p);
    var r := RemoveName(roster, name);
    forall e | e in r ensures e in roster && e.username != name {
      var i :| 0 <= i < |r| && r[i] == e;
    }
    forall e | e in roster && e.username != name ensures e in r {
      var i :| 0 <= i < |roster| && roster[i] == e;
    }
  }

  /** One step of RemoveName: what the result is, given what the recursive
      call returned for the tail. */
  lemma RemoveStep(roster: seq<RosterEntry>, name: string, rest: seq<RosterEntry>)
    requires roster != []
    requires UniqueNames(roster[1..]) ==> UniqueNames(rest)
    requires forall n :: Listed(rest, n) <==> Listed(roster[1..], n) && n != name
    requires !Listed(roster[1..], name) ==> rest == roster[1..]
    ensures var r := if roster[0].username == name then rest else [roster[0]] + rest;
      && (UniqueNames(roster) ==> UniqueNames(r))
      && (forall n :: Listed(r, n) <==> Listed(roster, n) && n != name)
      && (!Listed(roster, name) ==> r == roster)
  {
    var r := if roster[0].username == name then rest else [roster[0]] + rest;
    forall n ensures Listed(roster, n) <==> roster[0].username == n || Listed(roster[1..], n) {
      TailListed(roster, n);
    }
    TailUnique(roster);
    if roster[0].username != name {
      assert r[0] == roster[0] && r[1..] == rest;
      forall n ensures Listed(r, n) <==> roster[0].username == n || Listed(rest, n) {
        TailListed(r, n);
      }
      TailUnique(r);
    }
    if !Listed(roster, name) {
      assert roster == [roster[0]] + roster[1..];
    }
  }

  /** A name is listed when it heads the list or is listed in the tail. */
  lemma TailListed(roster: seq<RosterEntry>, n: string)
    requires roster != []
    ensures Listed(roster, n) <==> roster[0].username == n || Listed(roster[1..], n)
  {
    if Listed(roster, n) && roster[0].username != n {
      var i :| 0 <= i < |roster| && roster[i].username == n;
      assert roster[1..][i - 1] == roster[i];
    }
    if Listed(roster[1..], n) {
      var i :| 0 <= i < |roster[1..]| && roster[1..][i].username == n;
      assert roster[i + 1] == roster[1..][i];
    }
  }

  /** Names are unique when the tail's are and the head's is not in it. */
  lemma TailUnique(roster: seq<RosterEntry>)
    requires roster != []
    ensures UniqueNames(roster) <==> UniqueNames(roster[1..]) && !Listed(roster[1..], roster[0].username)
  {
    var tail := roster[1..];
    if UniqueNames(roster) {
      forall i, j | 0 <= i < j < |tail| ensures tail[i].username != tail[j].username {
        assert tail[i] == roster[i + 1] && tail[j] == roster[j + 1];
      }
      forall i | 0 <= i < |tail| ensures tail[i].username != roster[0].username {
        assert tail[i] == roster[i + 1];
      }
    }
    if UniqueNames(tail) && !Listed(tail, roster[0].username) {
      forall i, j | 0 <= i < j < |roster| ensures roster[i].username != roster[j].username {
        assert roster[j] == tail[j - 1];
        if i > 0 {
          assert roster[i] == tail[i - 1];
        }
      }
    }
  }
}
