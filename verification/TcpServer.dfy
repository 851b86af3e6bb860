/** src/tcp_server.cc: the ownership map, and destruction handed to the loop. */
module TcpServers {
  import opened Pollers
  import opened Connections
  import opened TcpConnections

  class TcpServer {
    const poller: EPoller
    var idConn: map<nat, TcpConnection>
    var nextId: nat
    /** The DestroyConnection functors queued in the loop, oldest first. */
    var destroying: seq<TcpConnection>

    /** Ids are issued in order; the server's connections own distinct channels. */
    ghost predicate Valid()
      reads this, poller, poller.fdChannels.Values, idConn.Values
    {
      && poller.Valid()
      && (forall id | id in idConn :: id < nextId && idConn[id].poller == poller)
      && (forall a, b | a in idConn && b in idConn && a != b ::
            idConn[a] != idConn[b] && idConn[a].channel != idConn[b].channel && idConn[a].fd != idConn[b].fd)
    }

    constructor (poller: EPoller)
      requires poller.Valid()
      ensures Valid() && idConn == map[] && nextId == 0 && destroying == [] && this.poller == poller
    {
      this.poller, idConn, nextId, destroying := poller, map[], 0, [];
    }

    /** `fd` was just returned by accept: no connection of the server has it. */
    method NewConnection(fd: int) returns (conn: TcpConnection)
      requires Valid() && fd >= 0 && fd !in poller.fdChannels
      requires forall id | id in idConn :: idConn[id].fd != fd
      modifies this`idConn, this`nextId, poller
      ensures Valid() && fresh(conn) && conn.Valid() && conn.Value() == OPENED && conn.fd == fd
      ensures idConn == old(idConn)[old(nextId) := conn] && old(nextId) !in old(idConn)
      ensures nextId == old(nextId) + 1
    {
      var id := nextId;
      nextId := nextId + 1;
      conn := new TcpConnection(poller, fd);
      idConn := idConn[id := conn];
    }

    /** close_cb_: the map lets go of the connection, the queued functor keeps it alive. */
    method RemoveConnection(id: nat)
      requires Valid() && id in idConn
      modifies this`idConn, this`destroying
      ensures Valid() && idConn == old(idConn) - {id}
      ensures destroying == old(destroying) + [old(idConn)[id]]
    {
      destroying := destroying + [idConn[id]];
      idConn := idConn - {id};
    }
  }
}
