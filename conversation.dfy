/** The read path of the message controller: the conversation between two
    users, oldest first, and the directory of other users for the sidebar. */
module Conversation {
  import opened Types
  import opened MessageModel

  /** A message belongs to the conversation of `a` and `b` when it went from
      one of them to the other. */
  predicate InConversation(m: Message, a: UserId, b: UserId) {
    (m.senderId == a && m.receiverId == b) || (m.senderId == b && m.receiverId == a)
  }

  /** The store's messages between `a` and `b`, in store order (the query's
      `$or` filter). */
  function Between(store: seq<Message>, a: UserId, b: UserId): (r: seq<Message>)
    ensures |r| <= |store|
    ensures forall m :: m in r <==> m in store && InConversation(m, a, b)
  {
    if store == [] then []
    else (if InConversation(store[0], a, b) then [store[0]] else []) + Between(store[1..], a, b)
  }

  /** Non-decreasing creation time. */
  predicate SortedByCreation(s: seq<Message>) {
    forall i, j :: 0 <= i < j < |s| ==> s[i].createdAt <= s[j].createdAt
  }

  /** Non-decreasing creation time, stated on neighbours only. */
  predicate StepSorted(s: seq<Message>) {
    forall i :: 0 <= i < |s| - 1 ==> s[i].createdAt <= s[i + 1].createdAt
  }

  lemma {:induction false} StepSortedIsSorted(s: seq<Message>)
    requires StepSorted(s)
    ensures SortedByCreation(s)
    decreases |s|
  {
    if |s| > 1 {
      StepSortedIsSorted(s[1..]);
      forall j | 1 <= j < |s|
        ensures s[0].createdAt <= s[j].createdAt
      {
        assert s[0].createdAt <= s[1].createdAt;
        assert s[1..][0] == s[1] && s[1..][j - 1] == s[j];
      }
      forall i, j | 0 <= i < j < |s|
        ensures s[i].createdAt <= s[j].createdAt
      {
        if i > 0 {
          assert s[1..][i - 1] == s[i] && s[1..][j - 1] == s[j];
        }
      }
    }
  }

  /** Inserts `x` into a sorted sequence before the first message created at
      the same time or later. */
  function Insert(x: Message, s: seq<Message>): (r: seq<Message>)
    requires StepSorted(s)
    ensures StepSorted(r)
    ensures |r| == |s| + 1
    ensures r[0] == x || (s != [] && r[0] == s[0])
    ensures multiset(r) == multiset(s) + multiset{x}
  {
    if s == [] then [x]
    else if x.createdAt <= s[0].createdAt then [x] + s
    else
      var rest := Insert(x, s[1..]);
      assert s[1..] != [] ==> s[0].createdAt <= s[1..][0].createdAt;
      assert s == [s[0]] + s[1..];
      [s[0]] + rest
  }

  /** Sorts by creation time; messages created at the same time keep their
      store order. */
  function SortByCreation(s: seq<Message>): (r: seq<Message>)
    ensures StepSorted(r)
    ensures multiset(r) == multiset(s)
  {
    if s == [] then []
    else
      assert s == [s[0]] + s[1..];
      Insert(s[0], SortByCreation(s[1..]))
  }

  /** `getMessages`: the conversation between `me` and `peer`, ascending by
      creation time. */
  function GetMessages(store: seq<Message>, me: UserId, peer: UserId): (r: seq<Message>)
    ensures SortedByCreation(r)
    ensures multiset(r) == multiset(Between(store, me, peer))
    ensures forall m :: m in r <==> m in store && InConversation(m, me, peer)
  {
    var r := SortByCreation(Between(store, me, peer));
    StepSortedIsSorted(r);
    assert forall m :: m in r <==> m in multiset(r);
    r
  }

  /** The conversation filter does not depend on who asks. */
  lemma {:induction false} BetweenSymmetric(store: seq<Message>, a: UserId, b: UserId)
    ensures Between(store, a, b) == Between(store, b, a)
  {
    if store != [] {
      BetweenSymmetric(store[1..], a, b);
    }
  }

  /** Swapping the two parties gives the same list, element for element. */
  lemma GetMessagesSymmetric(store: seq<Message>, a: UserId, b: UserId)
    ensures GetMessages(store, a, b) == GetMessages(store, b, a)
  {
    BetweenSymmetric(store, a, b);
  }

  /** Of two listed messages, the one created strictly earlier comes first. */
  lemma EarlierComesFirst(store: seq<Message>, me: UserId, peer: UserId, i: nat, j: nat)
    requires i < |GetMessages(store, me, peer)| && j < |GetMessages(store, me, peer)|
    requires GetMessages(store, me, peer)[i].createdAt < GetMessages(store, me, peer)[j].createdAt
    ensures i < j
  {
  }

  /** The stored record minus its credential field. */
  function PublicProfile(u: UserRecord): Profile {
    Profile(u.id, u.fullName, u.email, u.profilePic)
  }

  /** `getUsersForSidebar`: every other user, password removed, in store
      order. */
  function Sidebar(users: seq<UserRecord>, me: UserId): (r: seq<Profile>)
    ensures |r| <= |users|
    ensures forall p :: p in r ==> p.id != me
    ensures forall u :: u in users && u.id != me ==> PublicProfile(u) in r
    ensures forall p :: p in r ==> exists u :: u in users && u.id != me && p == PublicProfile(u)
  {
    if users == [] then []
    else (if users[0].id != me then [PublicProfile(users[0])] else []) + Sidebar(users[1..], me)
  }
}
