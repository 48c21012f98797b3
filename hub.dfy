/**
 * The socket.io chat hub: every connection carries a display name that
 * starts as "Anonymous"; `change_username` renames the sender,
 * `new_message` and `get_grp` broadcast to every connection open at that
 * moment, and `new_grp` stores a group. Each connection's outbox is the
 * sequence of events emitted to it; the group store is a sequence in
 * insertion order.
 */
module ChatHub {

  type SocketId = nat

  const DEFAULT_USERNAME: string := "Anonymous"

  /** The fixed `grp_id` every new group is created with. */
  const PLACEHOLDER_GROUP_ID: string := "111"

  datatype Group = Group(name: string, grpId: string)

  /** Server-to-client events. */
  datatype ServerEvent =
    | NewMessage(message: string, username: string)
    | Groups(groups: seq<Group>)

  datatype Connection = Connection(username: string, outbox: seq<ServerEvent>)

  class Hub {
    var sockets: map<SocketId, Connection>
    var groups: seq<Group>
    var nextSocket: SocketId

    /** Every event ever broadcast, in dispatch order. */
    ghost var log: seq<ServerEvent>
    /** For each open connection, the length of `log` when it connected. */
    ghost var joined: map<SocketId, nat>

    /**
     * Ids are fresh, and a connection has received exactly the broadcasts
     * dispatched since it connected: nothing earlier, nothing skipped.
     */
    ghost predicate Valid()
      reads this
    {
      && sockets.Keys == joined.Keys
      && (forall s :: s in sockets ==> s < nextSocket)
      && (forall s :: s in joined ==> joined[s] <= |log|)
      && (forall s :: s in sockets ==> sockets[s].outbox == log[joined[s]..])
    }

    /** A hub with no connections over an existing group store. */
    constructor (store: seq<Group>)
      ensures Valid()
      ensures sockets == map[] && groups == store && log == []
    {
      sockets := map[];
      groups := store;
      nextSocket := 0;
      log := [];
      joined := map[];
    }

    /** `io.on("connection")`: a new connection named "Anonymous". */
    method Connect() returns (s: SocketId)
      requires Valid()
      modifies this
      ensures Valid()
      ensures s !in old(sockets)
      ensures sockets == old(sockets)[s := Connection(DEFAULT_USERNAME, [])]
      ensures groups == old(groups) && log == old(log)
    {
      s := nextSocket;
      sockets := sockets[s := Connection(DEFAULT_USERNAME, [])];
      joined := joined[s := |log|];
      nextSocket := nextSocket + 1;
    }

    /** `change_username`: renames the sender only. */
    method ChangeUsername(sender: SocketId, username: string)
      requires Valid() && sender in sockets
      modifies this
      ensures Valid()
      ensures sockets == old(sockets)[sender := old(sockets)[sender].(username := username)]
      ensures groups == old(groups) && log == old(log)
    {
      sockets := sockets[sender := sockets[sender].(username := username)];
    }

    /** `io.sockets.emit(ev)`: appends `ev` to the outbox of every open connection. */
    method Broadcast(ev: ServerEvent)
      requires Valid()
      modifies this
      ensures Valid()
      ensures sockets.Keys == old(sockets).Keys
      ensures forall s :: s in sockets ==>
                sockets[s] == old(sockets)[s].(outbox := old(sockets)[s].outbox + [ev])
      ensures groups == old(groups) && log == old(log) + [ev] && joined == old(joined)
    {
      sockets := map s | s in sockets :: sockets[s].(outbox := sockets[s].outbox + [ev]);
      log := log + [ev];
      forall s | s in sockets
        ensures sockets[s].outbox == log[joined[s]..]
      {
        assert log[joined[s]..] == old(log)[joined[s]..] + [ev];
      }
    }

    /** `new_message`: broadcasts the text with the sender's current name. */
    method NewMessageFrom(sender: SocketId, message: string)
      requires Valid() && sender in sockets
      modifies this
      ensures Valid()
      ensures sockets.Keys == old(sockets).Keys
      ensures forall s :: s in sockets ==>
                sockets[s] == old(sockets)[s].(outbox := old(sockets)[s].outbox
                                                 + [NewMessage(message, old(sockets)[sender].username)])
      ensures groups == old(groups)
    {
      Broadcast(NewMessage(message, sockets[sender].username));
    }

    /** `Group.findAll()` copied record by record into a fresh array. */
    method ListGroups() returns (res: seq<Group>)
      ensures res == groups
    {
      res := [];
      var i := 0;
      while i < |groups|
        invariant 0 <= i <= |groups|
        invariant res == groups[..i]
      {
        res := res + [groups[i]];
        i := i + 1;
      }
    }

    /** `get_grp`: broadcasts the whole group list; the store is unchanged. */
    method GetGroups(sender: SocketId)
      requires Valid() && sender in sockets
      modifies this
      ensures Valid()
      ensures sockets.Keys == old(sockets).Keys
      ensures forall s :: s in sockets ==>
                sockets[s] == old(sockets)[s].(outbox := old(sockets)[s].outbox + [Groups(old(groups))])
      ensures groups == old(groups)
    {
      var res := ListGroups();
      Broadcast(Groups(res));
    }

    /** `new_grp`: stores one group named by the event's data; emits nothing. */
    method NewGroup(sender: SocketId, data: string)
      requires Valid() && sender in sockets
      modifies this
      ensures Valid()
      ensures groups == old(groups) + [Group(data, PLACEHOLDER_GROUP_ID)]
      ensures sockets == old(sockets) && log == old(log)
    {
      groups := groups + [Group(data, PLACEHOLDER_GROUP_ID)];
    }
  }
}
