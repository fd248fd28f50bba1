/** The client's session store: the signed-in profile, the presence list
    pushed by the server, the client socket, and the offline queue of
    profile-picture updates with its in-order sync. The browser's online
    flag and the replies of the profile endpoint are parameters; the
    `localStorage` copy of the queue is the `pendingUpdates` field. */
module AuthStore {
  import opened Types

  /** A queued update: the user it was made for and the new picture. */
  datatype PendingUpdate = PendingUpdate(userId: UserId, profilePic: string)

  /** The client socket: the user id it announced and whether it is
      connected. */
  datatype ClientSocket = ClientSocket(userId: UserId, connected: bool)

  /** A `PUT /auth/update-profile` with its picture. */
  datatype ProfileRequest = PutProfile(profilePic: string)

  /** The entries whose sync attempt failed, in queue order. */
  function KeepFailed(q: seq<PendingUpdate>, replies: seq<Reply<Profile>>): (r: seq<PendingUpdate>)
    requires |replies| == |q|
    ensures |r| <= |q|
    ensures forall u :: u in r ==> u in q
  {
    if q == [] then []
    else KeepFailed(q[..|q| - 1], replies[..|q| - 1]) + (if replies[|q| - 1].Failure? then [q[|q| - 1]] else [])
  }

  /** The profile after the attempts: the last successful reply, or the
      starting profile when none succeeded. */
  function LastSuccess(replies: seq<Reply<Profile>>, start: Option<Profile>): (r: Option<Profile>)
    ensures r == start || exists i :: 0 <= i < |replies| && replies[i].Success? && r == Some(replies[i].value)
  {
    if replies == [] then start
    else if replies[|replies| - 1].Success? then Some(replies[|replies| - 1].value)
    else LastSuccess(replies[..|replies| - 1], start)
  }

  /** The requests of a sync, one per queued entry, in queue order. */
  function Puts(q: seq<PendingUpdate>): (r: seq<ProfileRequest>)
    ensures |r| == |q|
    ensures forall i :: 0 <= i < |q| ==> r[i] == PutProfile(q[i].profilePic)
  {
    if q == [] then [] else Puts(q[..|q| - 1]) + [PutProfile(q[|q| - 1].profilePic)]
  }

  /** How many sync attempts succeeded. */
  function Successes(replies: seq<Reply<Profile>>): nat {
    if replies == [] then 0
    else Successes(replies[..|replies| - 1]) + (if replies[|replies| - 1].Success? then 1 else 0)
  }

  class Session {
    var authUser: Option<Profile>
    var isUpdatingProfile: bool
    var onlineUsers: seq<UserId>
    var socket: Option<ClientSocket>
    /** The `pendingProfileUpdates` queue; a missing entry reads as empty. */
    var pendingUpdates: seq<PendingUpdate>
    /** Every profile request sent so far, oldest first. */
    var requests: seq<ProfileRequest>

    constructor (authUser: Option<Profile>, pendingUpdates: seq<PendingUpdate>)
      ensures this.authUser == authUser && this.pendingUpdates == pendingUpdates
      ensures !isUpdatingProfile && onlineUsers == [] && socket.None? && requests == []
    {
      this.authUser := authUser;
      this.pendingUpdates := pendingUpdates;
      isUpdatingProfile := false;
      onlineUsers := [];
      socket := None;
      requests := [];
    }

    /** `updateProfile({profilePic})`: with nobody signed in, nothing
        changes. Otherwise the picture is set at once; offline, the update
        is queued for later and nothing is sent; online, it is sent, and the
        reply replaces the profile or, on failure, the profile from before
        the call comes back. */
    method UpdateProfile(profilePic: string, online: bool, reply: Reply<Profile>)
      modifies this`authUser, this`isUpdatingProfile, this`pendingUpdates, this`requests
      ensures !isUpdatingProfile
      ensures old(authUser).None? ==>
        authUser == old(authUser) && pendingUpdates == old(pendingUpdates) && requests == old(requests)
      ensures old(authUser).Some? && !online ==>
        && authUser == Some(old(authUser).value.(profilePic := profilePic))
        && pendingUpdates == old(pendingUpdates) + [PendingUpdate(old(authUser).value.id, profilePic)]
        && requests == old(requests)
      ensures old(authUser).Some? && online ==>
        && pendingUpdates == old(pendingUpdates)
        && requests == old(requests) + [PutProfile(profilePic)]
        && authUser == (if reply.Success? then Some(reply.value) else old(authUser))
    {
      isUpdatingProfile := true;
      if authUser.None? {
        isUpdatingProfile := false;
        return;
      }
      var saved := authUser.value;
      authUser := Some(saved.(profilePic := profilePic));
      if !online {
        pendingUpdates := pendingUpdates + [PendingUpdate(saved.id, profilePic)];
        isUpdatingProfile := false;
        return;
      }
      requests := requests + [PutProfile(profilePic)];
      match reply {
        case Success(p) => authUser := Some(p);
        case Failure => authUser := Some(saved);
      }
      isUpdatingProfile := false;
    }

    /** `syncPendingProfileUpdates`: offline or with an empty queue, a
        no-op. Otherwise every queued picture is sent in order, `replies[i]`
        answering the `i`-th; each success replaces the profile, each
        failure is kept, and the queue becomes the failed entries. */
    method SyncPendingProfileUpdates(online: bool, replies: seq<Reply<Profile>>)
      requires |replies| == |pendingUpdates|
      modifies this`authUser, this`isUpdatingProfile, this`pendingUpdates, this`requests
      ensures !online || old(pendingUpdates) == [] ==>
        && authUser == old(authUser) && pendingUpdates == old(pendingUpdates)
        && requests == old(requests) && isUpdatingProfile == old(isUpdatingProfile)
      ensures online && old(pendingUpdates) != [] ==>
        && pendingUpdates == KeepFailed(old(pendingUpdates), replies)
        && authUser == LastSuccess(replies, old(authUser))
        && requests == old(requests) + Puts(old(pendingUpdates))
        && !isUpdatingProfile
    {
      if !online {
        return;
      }
      var queue := pendingUpdates;
      if |queue| == 0 {
        return;
      }
      isUpdatingProfile := true;
      var remaining: seq<PendingUpdate> := [];
      var i := 0;
      while i < |queue|
        invariant 0 <= i <= |queue|
        invariant remaining == KeepFailed(queue[..i], replies[..i])
        invariant authUser == LastSuccess(replies[..i], old(authUser))
        invariant requests == old(requests) + Puts(queue[..i])
      {
        assert queue[..i + 1][..i] == queue[..i];
        assert replies[..i + 1][..i] == replies[..i];
        requests := requests + [PutProfile(queue[i].profilePic)];
        match replies[i] {
          case Success(p) => authUser := Some(p);
          case Failure => remaining := remaining + [queue[i]];
        }
        i := i + 1;
      }
      assert queue[..i] == queue && replies[..i] == replies;
      pendingUpdates := remaining;
      isUpdatingProfile := false;
    }

    /** `connectSocket`: with nobody signed in, or a socket already
        connected, nothing happens; otherwise a socket announcing the
        signed-in user's id replaces the old one. */
    method ConnectSocket()
      modifies this`socket
      ensures old(authUser).None? || (old(socket).Some? && old(socket).value.connected) ==> socket == old(socket)
      ensures authUser.Some? && !(old(socket).Some? && old(socket).value.connected) ==>
        socket == Some(ClientSocket(authUser.value.id, true))
    {
      if authUser.None? || (socket.Some? && socket.value.connected) {
        return;
      }
      socket := Some(ClientSocket(authUser.value.id, true));
    }

    /** `disconnectSocket`: acts only on a connected socket, and then
        forgets it. */
    method DisconnectSocket()
      modifies this`socket
      ensures old(socket).Some? && old(socket).value.connected ==> socket.None?
      ensures !(old(socket).Some? && old(socket).value.connected) ==> socket == old(socket)
    {
      if socket.Some? && socket.value.connected {
        socket := None;
      }
    }

    /** The `getOnlineUsers` handler: the pushed list replaces the old one. */
    method OnGetOnlineUsers(userIds: seq<UserId>)
      modifies this`onlineUsers
      ensures onlineUsers == userIds
    {
      onlineUsers := userIds;
    }
  }

  /** The queue after a sync is ordered like the queue before it: the kept
      entries are a subsequence, and exactly as many were dropped as
      succeeded. */
  lemma {:induction false} KeepFailedCount(q: seq<PendingUpdate>, replies: seq<Reply<Profile>>)
    requires |replies| == |q|
    ensures |KeepFailed(q, replies)| == |q| - Successes(replies)
    decreases |q|
  {
    if q != [] {
      KeepFailedCount(q[..|q| - 1], replies[..|q| - 1]);
    }
  }

  /** The count of successes is zero exactly when every attempt failed. */
  lemma {:induction false} NoSuccessIff(replies: seq<Reply<Profile>>)
    ensures Successes(replies) == 0 <==> forall i :: 0 <= i < |replies| ==> replies[i].Failure?
    decreases |replies|
  {
    if replies != [] {
      var p := replies[..|replies| - 1];
      NoSuccessIff(p);
      assert forall i :: 0 <= i < |p| ==> p[i] == replies[i];
    }
  }

  /** The queue survives a sync unchanged exactly when every attempt
      failed. */
  lemma QueueKeptIffAllFailed(q: seq<PendingUpdate>, replies: seq<Reply<Profile>>)
    requires |replies| == |q|
    ensures KeepFailed(q, replies) == q <==> forall i :: 0 <= i < |replies| ==> replies[i].Failure?
  {
    KeepFailedCount(q, replies);
    NoSuccessIff(replies);
    if forall i :: 0 <= i < |replies| ==> replies[i].Failure? {
      AllFailedKeepsAll(q, replies);
    }
  }

  lemma {:induction false} AllFailedKeepsAll(q: seq<PendingUpdate>, replies: seq<Reply<Profile>>)
    requires |replies| == |q|
    requires forall i :: 0 <= i < |replies| ==> replies[i].Failure?
    ensures KeepFailed(q, replies) == q
    decreases |q|
  {
    if q != [] {
      var p := replies[..|q| - 1];
      assert forall i :: 0 <= i < |p| ==> p[i] == replies[i];
      AllFailedKeepsAll(q[..|q| - 1], p);
      assert q == q[..|q| - 1] + [q[|q| - 1]];
    }
  }

  /** A sync in which every attempt succeeds empties the queue and leaves
      the reply to the last entry as the profile. */
  lemma AllSucceededEmptiesQueue(q: seq<PendingUpdate>, replies: seq<Reply<Profile>>, start: Option<Profile>)
    requires |replies| == |q| && q != []
    requires forall i :: 0 <= i < |replies| ==> replies[i].Success?
    ensures KeepFailed(q, replies) == []
    ensures LastSuccess(replies, start) == Some(replies[|replies| - 1].value)
  {
    KeepFailedCount(q, replies);
    AllSucceededCount(replies);
  }

  lemma {:induction false} AllSucceededCount(replies: seq<Reply<Profile>>)
    requires forall i :: 0 <= i < |replies| ==> replies[i].Success?
    ensures Successes(replies) == |replies|
    decreases |replies|
  {
    if replies != [] {
      var p := replies[..|replies| - 1];
      assert forall i :: 0 <= i < |p| ==> p[i] == replies[i];
      AllSucceededCount(p);
    }
  }

  /** The profile after a sync is the reply to the last entry that
      succeeded: no later attempt succeeded. */
  lemma {:induction false} LastSuccessIsLatest(replies: seq<Reply<Profile>>, start: Option<Profile>, k: nat)
    requires k < |replies| && replies[k].Success?
    requires forall j :: k < j < |replies| ==> replies[j].Failure?
    ensures LastSuccess(replies, start) == Some(replies[k].value)
    decreases |replies|
  {
    if k < |replies| - 1 {
      var p := replies[..|replies| - 1];
      assert forall j :: k < j < |p| ==> p[j] == replies[j];
      LastSuccessIsLatest(p, start, k);
    }
  }

  /** The offline round trip: an update queued offline and synced online
      with a successful reply leaves the queue as it was before the update
      and the server's profile in place. */
  method OfflineThenSyncScenario(me: Profile, pic: string, server: Profile) returns (s: Session)
    ensures s.pendingUpdates == [] && s.authUser == Some(server)
    ensures s.requests == [PutProfile(pic)]
  {
    s := new Session(Some(me), []);
    s.UpdateProfile(pic, false, Failure);
    assert s.pendingUpdates == [PendingUpdate(me.id, pic)];
    s.SyncPendingProfileUpdates(true, [Success(server)]);
    assert Puts([PendingUpdate(me.id, pic)]) == [PutProfile(pic)];
  }
}
