/** The presence registry of the socket server: the process-wide map from
    user id to socket id, the three connection handlers that change it, and
    the log of everything the server emits. */
module Presence {
  import opened Types
  import opened MessageModel

  /** The events the server pushes. */
  datatype Event =
    | NewMessage(message: Message)
    | MessageSeen(message: Message)
    | OnlineUsers(users: set<UserId>)

  /** One emit: to a single socket, or to every connected socket. */
  datatype Emission = ToSocket(socket: SocketId, event: Event) | ToAll(event: Event)

  /** A handshake `userId` counts as announced when JavaScript treats it as
      true: present and not the empty string. */
  predicate Announced(handshakeUserId: Option<UserId>) {
    handshakeUserId.Some? && handshakeUserId.value != ""
  }

  /** The binding for `u`, or none. */
  function Lookup(bindings: map<UserId, SocketId>, u: UserId): (r: Option<SocketId>)
    ensures r.Some? <==> u in bindings
    ensures r.Some? ==> r.value == bindings[u]
  {
    if u in bindings then Some(bindings[u]) else None
  }

  /** The emit of `ev` to `u`'s socket when `u` is bound, nothing otherwise. */
  function NotifyIfPresent(bindings: map<UserId, SocketId>, u: UserId, ev: Event): (out: seq<Emission>)
    ensures |out| <= 1
    ensures out != [] <==> u in bindings
    ensures out != [] ==> out[0] == ToSocket(bindings[u], ev)
  {
    match Lookup(bindings, u)
    case Some(s) => [ToSocket(s, ev)]
    case None => []
  }

  /** The presence broadcast for a registry state. */
  function PresenceSnapshot(bindings: map<UserId, SocketId>): Emission {
    ToAll(OnlineUsers(bindings.Keys))
  }

  class SocketServer {
    /** `userSocketMap`: at most one socket per user id, by construction. */
    var userSocketMap: map<UserId, SocketId>
    /** Every emit so far, oldest first. */
    var log: seq<Emission>

    constructor ()
      ensures userSocketMap == map[] && log == []
    {
      userSocketMap := map[];
      log := [];
    }

    /** The current socket of `u`, or none. */
    function GetReceiverSocketId(u: UserId): (r: Option<SocketId>)
      reads this
      ensures r.Some? <==> u in userSocketMap
      ensures r.Some? ==> r.value == userSocketMap[u]
    {
      Lookup(userSocketMap, u)
    }

    /** `io.to(socket).emit(ev)`. */
    method EmitTo(socket: SocketId, ev: Event)
      modifies this`log
      ensures log == old(log) + [ToSocket(socket, ev)]
    {
      log := log + [ToSocket(socket, ev)];
    }

    /** `io.to(...)` for `u` when `getReceiverSocketId(u)` finds a socket. */
    method Notify(u: UserId, ev: Event)
      modifies this`log
      ensures log == old(log) + NotifyIfPresent(userSocketMap, u, ev)
    {
      var socket := GetReceiverSocketId(u);
      if socket.Some? {
        EmitTo(socket.value, ev);
      }
    }

    /** `io.emit("getOnlineUsers", Object.keys(userSocketMap))`. */
    method BroadcastOnlineUsers()
      modifies this`log
      ensures log == old(log) + [PresenceSnapshot(userSocketMap)]
    {
      log := log + [ToAll(OnlineUsers(userSocketMap.Keys))];
    }

    /** The `connection` handler: an announced user is bound to this socket,
        replacing any earlier socket of that user, and the key set is
        broadcast; a connection without a user id changes nothing. */
    method OnConnection(socket: SocketId, handshakeUserId: Option<UserId>)
      modifies this
      ensures Announced(handshakeUserId) ==>
        && userSocketMap == old(userSocketMap)[handshakeUserId.value := socket]
        && log == old(log) + [PresenceSnapshot(userSocketMap)]
      ensures !Announced(handshakeUserId) ==>
        userSocketMap == old(userSocketMap) && log == old(log)
    {
      if Announced(handshakeUserId) {
        userSocketMap := userSocketMap[handshakeUserId.value := socket];
        BroadcastOnlineUsers();
      }
    }

    /** The `reconnectUser` handler: binds the announced id to this socket,
        whatever id the handshake carried, and broadcasts. */
    method OnReconnectUser(socket: SocketId, reconnectedUserId: UserId)
      modifies this
      ensures userSocketMap == old(userSocketMap)[reconnectedUserId := socket]
      ensures log == old(log) + [PresenceSnapshot(userSocketMap)]
    {
      userSocketMap := userSocketMap[reconnectedUserId := socket];
      BroadcastOnlineUsers();
    }

    /** The `disconnect` handler: removes the handshake user's entry without
        looking at which socket it names, and broadcasts. `socket` is the
        closing socket; the handler does not consult it. */
    method OnDisconnect(socket: SocketId, handshakeUserId: Option<UserId>)
      modifies this
      ensures Announced(handshakeUserId) ==>
        && userSocketMap == old(userSocketMap) - {handshakeUserId.value}
        && log == old(log) + [PresenceSnapshot(userSocketMap)]
      ensures !Announced(handshakeUserId) ==>
        userSocketMap == old(userSocketMap) && log == old(log)
    {
      if Announced(handshakeUserId) {
        userSocketMap := userSocketMap - {handshakeUserId.value};
        BroadcastOnlineUsers();
      }
    }
  }

  /** Last writer wins: after two binds of `u`, lookups find the second
      socket, and a push to `u` goes to that socket alone. */
  lemma LastBindWins(bindings: map<UserId, SocketId>, u: UserId, first: SocketId, second: SocketId, ev: Event)
    ensures Lookup(bindings[u := first][u := second], u) == Some(second)
    ensures NotifyIfPresent(bindings[u := first][u := second], u, ev) == [ToSocket(second, ev)]
  {
  }

  /** A stale socket's disconnect removes the newer binding: when `u`
      connected on `stale`, then again on `current`, the close of `stale`
      (whose handshake carried `u`) leaves `u` offline. */
  lemma StaleDisconnectUnbindsNewerSocket(bindings: map<UserId, SocketId>, u: UserId, stale: SocketId, current: SocketId)
    ensures Lookup(bindings[u := stale][u := current] - {u}, u).None?
  {
  }

  /** The same race on a registry object: `u` connects on `stale`, then on
      `current`, then `stale` closes; `u` ends offline although `current` is
      still open. */
  method StaleDisconnectScenario(u: UserId, stale: SocketId, current: SocketId) returns (online: bool)
    requires u != ""
    ensures !online
  {
    var io := new SocketServer();
    io.OnConnection(stale, Some(u));
    io.OnConnection(current, Some(u));
    io.OnDisconnect(stale, Some(u));
    online := io.GetReceiverSocketId(u).Some?;
  }

  /** Binding and unbinding touch only the one user's entry. */
  lemma OtherUsersUnaffected(bindings: map<UserId, SocketId>, u: UserId, v: UserId, s: SocketId)
    requires u != v
    ensures Lookup(bindings[u := s], v) == Lookup(bindings, v)
    ensures Lookup(bindings - {u}, v) == Lookup(bindings, v)
  {
  }
}
