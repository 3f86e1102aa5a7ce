/** The connection map and the epoller's action table of one process, changed in place: the part
    of the tunnel that client and server share. */
module Connections {
  import opened Wrappers
  import opened Text
  import opened SplitTcpPacket
  import opened FileDescriptors
  import Spec = SplitterSpec

  /** The object behind an action's `fd`. */
  datatype Handle = Tcp(tcp: FileDescriptor) | Udp(udp: UdpSocket) | Auto(auto: AutoSocket) {
    function Num(): Spec.Fd {
      match this
      case Tcp(f) => f.num
      case Udp(f) => f.num
      case Auto(f) => f.num
    }

    /** Every action of the tunnel waits for input, so its service count counts reads. */
    function ServiceCount(): Count
      reads match this case Tcp(f) => {f as object} case Udp(f) => {f as object} case Auto(f) => {f as object}
    {
      match this
      case Tcp(f) => f.readCount
      case Udp(f) => f.readCount
      case Auto(f) => f.readCount
    }
  }

  /** How a callback, or a batch of them, ends: with Continue, a failed assert, an uncaught
      exception, or the epoller's complaint that a callback did not service its fd. */
  datatype Status = Continue | AssertFailed | Threw | BusyWait

  /** What the kernel decides while a callback runs: the fd number and stream of a new socket, the
      original destination, a datagram and its source, whether a connect succeeds, how many bytes
      a read returns, and how many each short write takes. */
  datatype Answer = Answer(
    newFd: Spec.Fd, incoming: seq<byte>, dest: Address, datagram: seq<byte>, source: Address, connected: bool,
    k: nat, kernel: nat -> nat)

  /** What a callback gets to see of an answer: `datagram` as the tunnel socket's read returns it,
      and `chunk`, what a connection's read returns. */
  function Seen(a: Answer, datagram: seq<byte>, chunk: seq<byte>): Spec.Reply {
    Spec.Reply(a.newFd, a.dest, datagram, a.source, a.connected, chunk)
  }

  /** What one forwarding read gets of the bytes still to come, as the kernel grants them. */
  function NextChunk(unread: seq<byte>, k: nat): (chunk: seq<byte>)
    ensures |chunk| <= READ_LIMIT && (chunk == [] <==> unread == [])
    ensures chunk <= unread && (0 < k ==> |chunk| == Min(k, Min(READ_LIMIT, |unread|)))
  {
    unread[..Granted(k, Min(READ_LIMIT, |unread|))]
  }

  /** The datagrams that carry packets. */
  function Datagrams(ps: seq<Packet>): (ds: seq<seq<byte>>)
    ensures |ds| == |ps|
  {
    if ps == [] then [] else Datagrams(ps[..|ps| - 1]) + [ToString(ps[|ps| - 1])]
  }

  lemma {:induction false} DatagramsConcat(ps: seq<Packet>, qs: seq<Packet>)
    ensures Datagrams(ps + qs) == Datagrams(ps) + Datagrams(qs)
  {
    if qs == [] {
      assert ps + qs == ps;
    } else {
      var i := |qs| - 1;
      assert (ps + qs)[..|ps + qs| - 1] == ps + qs[..i];
      DatagramsConcat(ps, qs[..i]);
    }
  }

  lemma DatagramOfOne(p: Packet)
    ensures Datagrams([p]) == [ToString(p)]
  {
    assert [p][..0] == [];
  }

  /** Where a process is: its state, the datagrams it has sent, and the chunks it has read from and
      written to connections. */
  datatype Snapshot<S> = Snapshot(state: S, sent: seq<seq<byte>>, read: seq<Spec.Chunk>, wrote: seq<Spec.Chunk>)

  /** Where a sequence of events should have taken a process. */
  function Target<S>(b: Spec.Batch<S>): Snapshot<S> { Snapshot(b.state, Datagrams(b.sent), b.read, b.written) }

  /** Where one more callback with the effect `o` takes it, which has read `read`. */
  function Moved<S>(s: Snapshot<S>, o: Spec.Outcome<S>, read: seq<Spec.Chunk>): Snapshot<S>
    requires o.Ran?
  {
    Snapshot(o.state, s.sent + Datagrams(o.sent), s.read + read, s.wrote + o.written)
  }

  lemma MovedIsTarget<S>(b: Spec.Batch<S>, o: Spec.Outcome<S>, read: seq<Spec.Chunk>)
    requires o.Ran?
    ensures Spec.Then(b, o, read).Some? && Moved(Target(b), o, read) == Target(Spec.Then(b, o, read).value)
  {
    DatagramsConcat(b.sent, o.sent);
  }

  lemma MovedSends<S>(s: Snapshot<S>, o: Spec.Outcome<S>, read: seq<Spec.Chunk>)
    requires o.Ran?
    ensures |Moved(s, o, read).sent| == |s.sent| + |o.sent|
  {
  }

  lemma MovedByNothing<S>(s: Snapshot<S>, o: Spec.Outcome<S>)
    requires o == Spec.Ran(s.state, [], [], Option<Uid>.None)
    ensures Moved(s, o, []) == s
  {
    assert Datagrams([]) == [] && s.sent + [] == s.sent && s.read + [] == s.read && s.wrote + [] == s.wrote;
  }

  datatype Action = Action(handle: Handle, callback: Spec.Callback)

  /** `table` is what the two maps say about fd numbers and uids, and it is registered; each
      action's object is the fixed socket or the connection that its callback is about. */
  ghost predicate Matches(
    connections: map<Uid, FileDescriptor>, actions: map<Spec.Fd, Action>,
    fixed: map<Spec.Fd, Action>, table: Spec.Table)
  {
    && Spec.Registered(table)
    && table.fixed.Keys == fixed.Keys
    && (forall f <- fixed :: f in actions && actions[f] == fixed[f] && fixed[f].handle.Num() == f)
    && table.connections.Keys == connections.Keys
    && (forall u <- connections :: connections[u].num == table.connections[u])
    && table.actions.Keys == actions.Keys
    && (forall f <- actions :: actions[f].callback == table.actions[f])
    && (forall f <- actions | f !in fixed ::
          && actions[f].callback.ConnectionReady? && actions[f].callback.uid in connections
          && actions[f].handle == Tcp(connections[actions[f].callback.uid]))
  }

  lemma AddKeepsMatches(
    connections: map<Uid, FileDescriptor>, actions: map<Spec.Fd, Action>,
    fixed: map<Spec.Fd, Action>, table: Spec.Table,
    uid: Uid, socket: FileDescriptor)
    requires Matches(connections, actions, fixed, table)
    requires uid !in connections && socket.num !in Spec.OpenFds(table)
    ensures Matches(
              connections[uid := socket], actions[socket.num := Action(Tcp(socket), Spec.ConnectionReady(uid))], fixed,
              Spec.AddConnection(table, uid, socket.num))
  {
    hide Spec.Registered, Spec.OpenFds;
    Spec.FreshFdIsUnregistered(table, socket.num);
    Spec.AddConnectionKeepsRegistered(table, uid, socket.num);
  }

  lemma AddFixedKeepsMatches(
    actions: map<Spec.Fd, Action>, fixed: map<Spec.Fd, Action>, table: Spec.Table,
    handle: Handle, callback: Spec.Callback)
    requires Matches(map[], actions, fixed, table) && handle.Num() !in actions && !callback.ConnectionReady?
    ensures Matches(
              map[], actions[handle.Num() := Action(handle, callback)], fixed[handle.Num() := Action(handle, callback)],
              Spec.EmptyTable(table.fixed[handle.Num() := callback]))
  {
    assert forall f :: f in actions <==> f in fixed;
    Spec.WithoutConnections(table);
  }

  lemma CloseKeepsMatches(
    connections: map<Uid, FileDescriptor>, actions: map<Spec.Fd, Action>,
    fixed: map<Spec.Fd, Action>, table: Spec.Table,
    uid: Uid)
    requires Matches(connections, actions, fixed, table) && uid in connections
    ensures uid in table.connections
    ensures Matches(connections - {uid}, actions - {connections[uid].num}, fixed, Spec.CloseConnection(table, uid))
  {
    hide Spec.Registered;
    Spec.FreshFdIsUnregistered(table, 0);
    Spec.CloseConnectionKeepsRegistered(table, uid);
  }

  /** No connection is new, and none has another socket than before. */
  ghost predicate Within(after: map<Uid, FileDescriptor>, before: map<Uid, FileDescriptor>) {
    forall u <- after :: u in before && after[u] == before[u]
  }

  /** No connection is new but that of `uid`, whose socket is for `address`. */
  ghost predicate Grown(
    after: map<Uid, FileDescriptor>, before: map<Uid, FileDescriptor>, uid: Uid, address: Address)
  {
    && uid !in before
    && forall u <- after ::
         if u == uid then after[u].address == address else u in before && after[u] == before[u]
  }

  function At(past: map<Uid, seq<byte>>, u: Uid): seq<byte> { if u in past then past[u] else [] }

  class ConnectionTable {
    var connections: map<Uid, FileDescriptor>
    var actions: map<Spec.Fd, Action>
    ghost var fixed: map<Spec.Fd, Action>
    ghost var table: Spec.Table
    ghost var pastReceived: map<Uid, seq<byte>>
    ghost var pastOutput: map<Uid, seq<byte>>
    ghost var read: seq<Spec.Chunk>
    ghost var wrote: seq<Spec.Chunk>

    /** The bytes read from the sockets of a uid so far: from those closed by now, then from the one
        it has. */
    ghost function Received(u: Uid): seq<byte>
      reads this`connections, this`pastReceived, connections.Values`received
    {
      if u in connections then At(pastReceived, u) + connections[u].received else At(pastReceived, u)
    }

    /** The bytes written to the sockets of a uid so far. */
    ghost function Output(u: Uid): seq<byte>
      reads this`connections, this`pastOutput, connections.Values`output
    {
      if u in connections then At(pastOutput, u) + connections[u].output else At(pastOutput, u)
    }

    /** `read` and `wrote` are the chunks that went through the sockets. */
    ghost predicate Logged()
      reads this`connections, this`pastReceived, this`pastOutput, this`read, this`wrote
      reads connections.Values`received, connections.Values`output
    {
      && (forall u: Uid :: Received(u) == Spec.Stream(read, u))
      && (forall u: Uid :: Output(u) == Spec.Stream(wrote, u))
    }

    ghost predicate Valid()
      reads this, connections.Values`received, connections.Values`output
    {
      Matches(connections, actions, fixed, table) && Logged()
    }

    constructor ()
      ensures Valid() && connections == map[] && actions == map[] && fixed == map[]
      ensures table == Spec.EmptyTable(map[]) && read == [] && wrote == []
    {
      connections, actions, fixed, table := map[], map[], map[], Spec.EmptyTable(map[]);
      pastReceived, pastOutput, read, wrote := map[], map[], [], [];
    }

    /** Different uids have different sockets. */
    lemma SocketsAreDistinct()
      requires Valid()
      ensures forall u, v | u in connections && v in connections && connections[u] == connections[v] :: u == v
    {
      Spec.FreshFdIsUnregistered(table, 0);
      forall u, v | u in connections && v in connections && connections[u] == connections[v]
        ensures u == v
      {
        assert table.connections[u] == table.connections[v];
      }
    }

    /** What the two maps hold, by the table. */
    lemma Keys(fd: Spec.Fd)
      requires Valid()
      ensures connections.Keys == table.connections.Keys
      ensures (fd in actions <==> fd in table.actions) && (fd in actions <==> fd in Spec.OpenFds(table))
    {
      Spec.FreshFdIsUnregistered(table, fd);
    }

    /** What a registered action is about: its fixed socket, or the connection of its uid. */
    lemma ActionIsFor(fd: Spec.Fd)
      requires Valid() && fd in actions
      ensures fd in table.actions && actions[fd].callback == table.actions[fd]
      ensures fd in fixed ==> actions[fd] == fixed[fd]
      ensures fd !in fixed ==>
                && actions[fd].callback.ConnectionReady? && actions[fd].callback.uid in connections
                && actions[fd].handle == Tcp(connections[actions[fd].callback.uid])
                && actions[fd].callback.uid in table.connections && table.connections[actions[fd].callback.uid] == fd
    {
      Spec.DispatchReadsItsOwnFd(table, fd);
    }

    /** Registers a long-lived socket, before there are connections. */
    method AddFixed(handle: Handle, callback: Spec.Callback)
      requires Valid() && connections == map[] && handle.Num() !in actions && !callback.ConnectionReady?
      modifies this`actions, this`fixed, this`table
      ensures Valid()
      ensures actions == old(actions)[handle.Num() := Action(handle, callback)]
      ensures fixed == old(fixed)[handle.Num() := Action(handle, callback)]
      ensures table == Spec.EmptyTable(old(table).fixed[handle.Num() := callback])
    {
      hide Matches;
      AddFixedKeepsMatches(actions, fixed, table, handle, callback);
      ghost var fd := handle.Num();
      actions := actions[handle.Num() := Action(handle, callback)];
      fixed := fixed[fd := Action(handle, callback)];
      table := Spec.EmptyTable(table.fixed[fd := callback]);
    }

    /** `emplace` and `add_action` for a new connection; that its fd is not registered is the
        epoller's assert. */
    method Add(uid: Uid, socket: FileDescriptor)
      requires Valid() && uid !in connections && socket.num !in Spec.OpenFds(table)
      requires socket.received == [] && socket.output == []
      modifies this`connections, this`actions, this`table
      ensures Valid()
      ensures connections == old(connections)[uid := socket]
      ensures table == Spec.AddConnection(old(table), uid, socket.num)
    {
      hide Matches, Spec.Registered, Spec.Stream;
      AddKeepsMatches(connections, actions, fixed, table, uid, socket);
      connections := connections[uid := socket];
      actions := actions[socket.num := Action(Tcp(socket), Spec.ConnectionReady(uid))];
      table := Spec.AddConnection(table, uid, socket.num);
      forall u: Uid
        ensures Received(u) == Spec.Stream(read, u) && Output(u) == Spec.Stream(wrote, u)
      {
        assert old(Received(u)) == Spec.Stream(read, u) && old(Output(u)) == Spec.Stream(wrote, u);
        assert Received(u) == old(Received(u)) && Output(u) == old(Output(u));
      }
    }

    /** `close_connection`; that the uid is held is its assert. */
    method Close(uid: Uid)
      requires Valid() && uid in connections
      modifies this`connections, this`actions, this`table, this`pastReceived, this`pastOutput
      ensures Valid()
      ensures connections == old(connections) - {uid} && table == Spec.CloseConnection(old(table), uid)
    {
      hide Matches, Spec.Registered, Spec.Stream;
      CloseKeepsMatches(connections, actions, fixed, table, uid);
      pastReceived := pastReceived[uid := Received(uid)];
      pastOutput := pastOutput[uid := Output(uid)];
      actions := actions - {connections[uid].num};
      connections := connections - {uid};
      table := Spec.CloseConnection(table, uid);
      CloseKeepsLogged(uid);
    }

    /** What a closed connection received and put out stays in the account of its uid. */
    twostate lemma CloseKeepsLogged(uid: Uid)
      requires old(Valid()) && uid in old(connections) && connections == old(connections) - {uid}
      requires pastReceived == old(pastReceived)[uid := old(Received(uid))] && read == old(read)
      requires pastOutput == old(pastOutput)[uid := old(Output(uid))] && wrote == old(wrote)
      requires forall v <- connections.Values :: v.received == old(v.received) && v.output == old(v.output)
      ensures Logged()
    {
      hide Matches, Spec.Stream;
      forall u: Uid ensures Received(u) == Spec.Stream(read, u) {
        assert Received(u) == old(Received(u));
      }
      forall u: Uid ensures Output(u) == Spec.Stream(wrote, u) {
        assert Output(u) == old(Output(u));
      }
    }

    /** One read from a connection, and its entry in the log. */
    method ReadFrom(uid: Uid, k: nat) returns (chunk: seq<byte>)
      requires Valid() && uid in connections
      modifies this`read, connections[uid]
      ensures Valid()
      ensures chunk == NextChunk(old(connections[uid].unread), k)
      ensures chunk + connections[uid].unread == old(connections[uid].unread)
      ensures connections[uid].received == old(connections[uid].received) + chunk
      ensures connections[uid].output == old(connections[uid].output)
      ensures connections[uid].readCount == Bump(old(connections[uid].readCount))
      ensures read == old(read) + Spec.ReadOf(table, uid, chunk)
    {
      hide Matches;
      SocketsAreDistinct();
      Keys(0);
      chunk := connections[uid].Read(READ_LIMIT, k);
      read := read + Spec.ReadOf(table, uid, chunk);
      ReadKeepsLogged(uid);
    }

    /** The log follows what one connection has received. */
    twostate lemma ReadKeepsLogged(uid: Uid)
      requires old(Valid()) && uid in connections && connections == old(connections) && uid in table.connections
      requires pastReceived == old(pastReceived) && pastOutput == old(pastOutput)
      requires old(connections[uid].received) <= connections[uid].received
      requires var chunk := connections[uid].received[|old(connections[uid].received)|..];
               read == old(read) + Spec.ReadOf(table, uid, chunk) && wrote == old(wrote)
      requires connections[uid].output == old(connections[uid].output)
      requires forall v <- connections | v != uid ::
                 connections[v].received == old(connections[v].received)
                 && connections[v].output == old(connections[v].output)
      ensures Logged()
    {
      hide Matches, Spec.Stream;
      var chunk := connections[uid].received[|old(connections[uid].received)|..];
      assert chunk == [] ==> read == old(read);
      forall u: Uid ensures Received(u) == Spec.Stream(read, u) {
        Spec.StreamAppend(old(read), Spec.Chunk(uid, chunk), u);
        assert Received(u) == old(Received(u)) + if u == uid then chunk else [];
      }
      forall u: Uid ensures Output(u) == Spec.Stream(wrote, u) {
        assert Output(u) == old(Output(u));
      }
    }

    /** The log follows what was written to one connection. */
    twostate lemma WriteKeepsLogged(uid: Uid)
      requires old(Valid()) && uid in connections && connections == old(connections)
      requires pastReceived == old(pastReceived) && pastOutput == old(pastOutput)
      requires old(connections[uid].output) <= connections[uid].output
      requires var bytes := connections[uid].output[|old(connections[uid].output)|..];
               wrote == old(wrote) + [Spec.Chunk(uid, bytes)] && read == old(read)
      requires connections[uid].received == old(connections[uid].received)
      requires forall v <- connections | v != uid ::
                 connections[v].received == old(connections[v].received)
                 && connections[v].output == old(connections[v].output)
      ensures Logged()
    {
      hide Matches, Spec.Stream;
      var bytes := connections[uid].output[|old(connections[uid].output)|..];
      forall u: Uid ensures Output(u) == Spec.Stream(wrote, u) {
        Spec.StreamAppend(old(wrote), Spec.Chunk(uid, bytes), u);
        assert Output(u) == old(Output(u)) + if u == uid then bytes else [];
      }
      forall u: Uid ensures Received(u) == Spec.Stream(read, u) {
        assert Received(u) == old(Received(u));
      }
    }

    /** The locked part of `receive_bytes_from_tcp_connection`: reads, and closes at the end of the
        stream. None: the uid is not held. */
    method Receive(uid: Uid, k: nat) returns (body: Option<seq<byte>>)
      requires Valid()
      modifies this`connections, this`actions, this`table, this`pastReceived, this`pastOutput, this`read
      modifies connections.Values
      ensures Valid()
      ensures connections.Values <= old(connections).Values && Within(connections, old(connections))
      ensures body.None? <==> uid !in old(connections)
      ensures connections == if body == Some([]) then old(connections) - {uid} else old(connections)
      ensures body.None? ==> table == old(table) && read == old(read)
      ensures body.Some? ==>
                && var socket := old(connections)[uid];
                && body.value == NextChunk(old(socket.unread), k)
                && body.value + socket.unread == old(socket.unread)
                && socket.received == old(socket.received) + body.value
                && socket.readCount == Bump(old(socket.readCount))
                && table == Spec.Forward(old(table), uid, body.value).state
                && read == old(read) + Spec.ReadOf(old(table), uid, body.value)
      ensures forall v <- old(connections) :: old(connections)[v].output == old(connections[v].output)
    {
      hide Spec.Registered;
      if uid !in connections {
        return None;
      }
      SocketsAreDistinct();
      var chunk := ReadFrom(uid, k);
      if chunk == [] {
        Close(uid);
      }
      return Some(chunk);
    }

    /** One write of a whole chunk to a connection, and its entry in the log; or the write throws. */
    method WriteTo(uid: Uid, bytes: seq<byte>, kernel: nat -> nat) returns (threw: bool)
      requires Valid() && uid in connections && bytes != []
      modifies this`wrote, connections[uid]
      ensures !threw ==>
                && Valid() && wrote == old(wrote) + [Spec.Chunk(uid, bytes)]
                && connections[uid].output == old(connections[uid].output) + bytes
      ensures threw ==> exists i :: kernel(i) == 0
    {
      hide Matches;
      SocketsAreDistinct();
      var r := connections[uid].Write(bytes, true, kernel);
      if r.Failure? {
        assert r.error == WroteZero;
        return true;
      }
      wrote := wrote + [Spec.Chunk(uid, bytes)];
      WriteKeepsLogged(uid);
      return false;
    }

    /** A packet's body for a connection that is held: an empty one closes it, others are written
        to it in full, or the write throws. */
    method Deliver(uid: Uid, body: seq<byte>, kernel: nat -> nat) returns (threw: bool)
      requires Valid() && uid in connections
      modifies this`connections, this`actions, this`table, this`pastReceived, this`pastOutput, this`wrote
      modifies connections.Values
      ensures connections.Values <= old(connections).Values && Within(connections, old(connections))
      ensures connections == if body == [] then old(connections) - {uid} else old(connections)
      ensures table == Spec.Deliver(old(table), Packet(false, uid, body)).state
      ensures !threw ==>
                var written := Spec.Deliver(old(table), Packet(false, uid, body)).written;
                && Valid() && wrote == old(wrote) + written
                && forall v <- old(connections) ::
                     old(connections)[v].output == old(connections[v].output) + Spec.Stream(written, v)
      ensures threw ==> exists i :: kernel(i) == 0
    {
      SocketsAreDistinct();
      if body == [] {
        Close(uid);
        return false;
      }
      threw := WriteTo(uid, body, kernel);
      Spec.StreamOfOne(uid, body);
    }
  }
}
