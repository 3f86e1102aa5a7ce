/** The client process: its listener, its tunnel socket and its connections, changed in place. */
module SplitterClients {
  import opened Wrappers
  import opened Text
  import opened SplitTcpPacket
  import opened FileDescriptors
  import opened Connections
  import opened SplitterAddresses
  import Spec = SplitterSpec

  class SplitterClient {
    const listener: FileDescriptor
    const tunnel: UdpSocket
    const conns: ConnectionTable
    var nextUid: Uid
    ghost var history: seq<Spec.Call>

    ghost function Initial(): Spec.ClientState {
      Spec.ClientState(Spec.EmptyTable(map[listener.num := Spec.AcceptReady, tunnel.num := Spec.TunnelReady]), 1)
    }

    ghost function State(): Spec.ClientState reads this`nextUid, conns`table { Spec.ClientState(conns.table, nextUid) }

    /** What the events handled so far should have brought about; None if one of them should have
        stopped the process. */
    ghost function Lifetime(): Option<Spec.Batch<Spec.ClientState>> reads this`history {
      Spec.ClientBatch(Initial(), history)
    }

    /** The actions of the long-lived sockets. */
    ghost function LongLived(): map<Spec.Fd, Action> {
      map[listener.num := Action(Tcp(listener), Spec.AcceptReady), tunnel.num := Action(Udp(tunnel), Spec.TunnelReady)]
    }

    ghost predicate Wired()
      reads conns, conns.connections.Values`received, conns.connections.Values`output
    {
      && conns.Valid()
      && listener.num != tunnel.num
      && conns.fixed == LongLived()
    }

    /** Each connection has the original destination that its uid was accepted for. */
    ghost predicate WellAddressed() reads this`history, conns`connections {
      forall u <- conns.connections :: MeantFor(Initial(), history, u) == Some(conns.connections[u].address)
    }

    /** The maps, the datagrams sent, and the bytes read from and written to every connection are
        what the events handled so far should have brought about. */
    ghost predicate Valid()
      reads this`nextUid, this`history, tunnel`sent, conns
      reads conns.connections.Values`received, conns.connections.Values`output
    {
      Wired() && Lifetime().Some? && Now() == Target(Lifetime().value) && WellAddressed()
    }

    ghost function Now(): Snapshot<Spec.ClientState>
      reads this`nextUid, conns`table, tunnel`sent, conns`read, conns`wrote
    {
      Snapshot(State(), tunnel.sent, conns.read, conns.wrote)
    }

    /** The start of `loop`, with both sockets ready. */
    constructor (listener: FileDescriptor, tunnel: UdpSocket)
      requires listener.num != tunnel.num && tunnel.sent == []
      ensures Valid() && history == [] && this.listener == listener && this.tunnel == tunnel && fresh(conns)
      ensures State() == Initial() && conns.connections == map[] && nextUid == 1
    {
      hide ConnectionTable.Valid, LongLived;
      this.listener, this.tunnel := listener, tunnel;
      var c := new ConnectionTable();
      conns, nextUid, history := c, 1, [];
      new;
      AddLongLived();
    }

    method AddLongLived()
      requires conns.Valid() && conns.actions == map[] && conns.connections == map[] && conns.fixed == map[]
      requires listener.num != tunnel.num && conns.table == Spec.EmptyTable(map[])
      modifies conns`actions, conns`fixed, conns`table
      ensures Wired() && conns.table == Initial().table
    {
      hide ConnectionTable.Valid;
      conns.AddFixed(Tcp(listener), Spec.AcceptReady);
      conns.AddFixed(Udp(tunnel), Spec.TunnelReady);
    }

    /** A packet goes out through the tunnel. */
    method Send(p: Packet)
      requires Wired()
      modifies tunnel`sent, tunnel`writeCount
      ensures Wired() && tunnel.sent == old(tunnel.sent) + Datagrams([p])
    {
      hide ConnectionTable.Valid, LongLived;
      DatagramOfOne(p);
      tunnel.Write(ToString(p));
    }

    method GetConnectionUid() returns (uid: Uid)
      modifies this`nextUid
      ensures uid == old(nextUid) && nextUid == Spec.NextUid(uid)
      ensures nextUid == if uid < UID_SPACE - 1 then uid + 1 else 0
    {
      uid := nextUid;
      nextUid := (nextUid + 1) % UID_SPACE;
    }

    /** The listener's callback: `accept` gives a socket for fd `newFd`. */
    method HandleNewTcpConnection(newFd: Spec.Fd, incoming: seq<byte>, dest: Address) returns (status: Status)
      requires Wired() && newFd > 2
      modifies this`nextUid, listener`readCount, tunnel`sent, tunnel`writeCount
      modifies conns`connections, conns`actions, conns`table
      ensures listener.readCount == Bump(old(listener.readCount))
      ensures forall v <- conns.connections.Values :: v in old(conns.connections).Values || fresh(v)
      ensures var o := Spec.ClientAccept(old(State()), newFd, dest);
              && status == (if o.Aborted? then AssertFailed else Continue)
              && (o.Ran? ==>
                    && Wired() && Now() == Moved(old(Now()), o, []) && old(nextUid) in conns.connections
                    && var socket := conns.connections[old(nextUid)];
                    && fresh(socket) && socket.num == newFd && socket.address == dest
                    && socket.unread == incoming && socket.output == []
                    && tunnel.sent == old(tunnel.sent) + [ToString(Packet(true, old(nextUid), FormatAddress(dest)))]
                    && Grown(conns.connections, old(conns.connections), old(nextUid), dest)
                    && conns.connections == old(conns.connections)[old(nextUid) := socket])
    {
      hide ConnectionTable.Valid, LongLived, Spec.OpenFds;
      conns.Keys(newFd);
      var uid := GetConnectionUid();
      listener.RegisterRead();
      if uid in conns.connections || newFd in conns.actions {
        return AssertFailed;
      }
      var socket := new FileDescriptor(newFd, dest, incoming);
      var metadata := Packet(true, uid, FormatAddress(dest));
      Send(metadata);
      conns.Add(uid, socket);
      assert conns.read + [] == conns.read && conns.wrote + [] == conns.wrote;
      return Continue;
    }

    /** The tunnel socket's callback: the kernel has `datagram`; `packet` is what it parses to. */
    method ReceivePacketFromSplitterServer(datagram: seq<byte>, kernel: nat -> nat)
      returns (status: Status, packet: Option<Packet>)
      requires Wired()
      modifies tunnel`eof, tunnel`readCount, conns, conns.connections.Values
      ensures tunnel.readCount == Bump(old(tunnel.readCount))
      ensures packet == Parse(Truncated(datagram))
      ensures conns.connections.Values <= old(conns.connections).Values
      ensures Within(conns.connections, old(conns.connections))
      ensures status == AssertFailed <==> packet.Some? && packet.value.newConnection
      ensures status == Threw ==> packet.None? || exists i :: kernel(i) == 0
      ensures status != BusyWait
      ensures status == Continue ==>
                && packet.Some?
                && var o := Spec.ClientReceive(old(State()), packet.value);
                && o.Ran? && o.sent == [] && Wired() && Now() == Moved(old(Now()), o, [])
                && forall u <- old(conns.connections) ::
                     old(conns.connections)[u].output == old(conns.connections[u].output) + Spec.Stream(o.written, u)
    {
      hide ConnectionTable.Valid, LongLived, Spec.Stream, Spec.ClientReceive, Moved, Parse;
      var r := tunnel.Read(datagram);
      packet := Parse(r);
      if packet.None? {
        return Threw, packet;
      }
      if packet.value.newConnection {
        return AssertFailed, packet;
      }
      status := HandlePacket(packet.value, kernel);
    }

    /** The callback's part for a packet that is parsed and announces nothing. */
    method HandlePacket(p: Packet, kernel: nat -> nat) returns (status: Status)
      requires Wired() && !p.newConnection
      modifies conns, conns.connections.Values
      ensures status == Continue || status == Threw
      ensures conns.connections == if p.body == [] then old(conns.connections) - {p.uid} else old(conns.connections)
      ensures conns.connections.Values <= old(conns.connections).Values
      ensures Within(conns.connections, old(conns.connections))
      ensures status == Threw ==> exists i :: kernel(i) == 0
      ensures status == Continue ==>
                var o := Spec.ClientReceive(old(State()), p);
                && o.Ran? && o.sent == [] && Wired() && Now() == Moved(old(Now()), o, [])
                && forall u <- old(conns.connections) ::
                     old(conns.connections)[u].output == old(conns.connections[u].output) + Spec.Stream(o.written, u)
    {
      hide ConnectionTable.Valid, LongLived;
      conns.Keys(0);
      if p.uid !in conns.connections {
        MovedByNothing(Now(), Spec.ClientReceive(State(), p));
        return Continue;
      }
      var threw := conns.Deliver(p.uid, p.body, kernel);
      assert Datagrams([]) == [] && tunnel.sent + [] == tunnel.sent && conns.read + [] == conns.read;
      return if threw then Threw else Continue;
    }

    /** A connection's callback; `chunk` is what its socket had. */
    method ReceiveBytesFromTcpConnection(uid: Uid, k: nat) returns (chunk: seq<byte>)
      requires Wired()
      modifies tunnel`sent, tunnel`writeCount, conns, conns.connections.Values
      ensures conns.connections.Values <= old(conns.connections).Values
      ensures Within(conns.connections, old(conns.connections))
      ensures uid in old(conns.connections) ==>
                && var socket := old(conns.connections)[uid];
                && chunk == NextChunk(old(socket.unread), k)
                && chunk + socket.unread == old(socket.unread)
                && socket.received == old(socket.received) + chunk
                && socket.readCount == Bump(old(socket.readCount))
      ensures uid !in old(conns.connections) ==> chunk == []
      ensures conns.connections == if chunk == [] then old(conns.connections) - {uid} else old(conns.connections)
      ensures var o := Spec.ClientForward(old(State()), uid, chunk);
              o.Ran? && Wired() && Now() == Moved(old(Now()), o, Spec.ReadOf(old(conns.table), uid, chunk))
    {
      hide ConnectionTable.Valid, LongLived;
      conns.Keys(0);
      var body := conns.Receive(uid, k);
      if body.None? {
        MovedByNothing(Now(), Spec.ClientForward(State(), uid, []));
        return [];
      }
      chunk := body.value;
      Send(Packet(false, uid, chunk));
      assert conns.wrote + [] == conns.wrote;
    }

    /** What the callback of `fd` reads from a connection: the next bytes, as many as the kernel
        grants. */
    ghost function ChunkFor(fd: Spec.Fd, a: Answer): (chunk: seq<byte>)
      requires Wired()
      reads conns, conns.connections.Values
      ensures |chunk| <= READ_LIMIT
    {
      if fd in conns.actions && conns.actions[fd].callback.ConnectionReady? then
        NextChunk(conns.connections[conns.actions[fd].callback.uid].unread, a.k)
      else []
    }

    /** Apart from the chunk read, a call carries what the kernel answered. */
    ghost predicate Sees(call: Spec.Call, a: Answer) {
      |call.reply.chunk| <= READ_LIMIT && call.reply == Seen(a, Truncated(a.datagram), call.reply.chunk)
    }

    /** An event, with what its callback gets to see of the kernel's answer. */
    ghost function CallFor(fd: Spec.Fd, a: Answer): (call: Spec.Call)
      requires Wired()
      reads conns, conns.connections.Values
      ensures call.fd == fd && Sees(call, a)
    {
      Spec.Call(fd, Seen(a, Truncated(a.datagram), ChunkFor(fd, a)))
    }

    /** The only new connection is that of an accept, and it has the destination that was asked for. */
    ghost predicate Addressed(accepts: bool, before: map<Uid, FileDescriptor>, uid: Uid, dest: Address)
      reads conns`connections
    {
      if accepts then Grown(conns.connections, before, uid, dest) else Within(conns.connections, before)
    }

    /** Runs the callback of a registered action. */
    method RunCallback(fd: Spec.Fd, a: Answer) returns (status: Status)
      requires Wired() && fd in conns.actions && a.newFd > 2
      modifies this`nextUid, listener`readCount, tunnel, conns, conns.connections.Values
      ensures status != BusyWait
      ensures var o := Spec.ClientEvent(old(State()), old(CallFor(fd, a)));
              && (status == Continue ==>
                    && o.Ran? && Wired()
                    && Now() == Moved(old(Now()), o, Spec.ReadBy(old(conns.table), old(CallFor(fd, a)))))
              && (status == AssertFailed ==> o.Aborted?)
              && (status == Threw ==> o.Aborted? || exists i :: a.kernel(i) == 0)
      ensures status == Continue ==>
                Addressed(IsAccept(old(State()), old(CallFor(fd, a))), old(conns.connections), old(nextUid), a.dest)
      ensures status == Continue ==>
                && var handle := old(conns.actions)[fd].handle;
                && handle.ServiceCount() == Bump(old(handle.ServiceCount()))
                && forall v <- conns.connections.Values :: v in old(conns.connections).Values || fresh(v)
    {
      hide ConnectionTable.Valid, Moved, Parse, Spec.ClientForward;
      conns.ActionIsFor(fd);
      match conns.actions[fd].callback
      case AcceptReady =>
        status := HandleNewTcpConnection(a.newFd, a.incoming, a.dest);
      case TunnelReady =>
        var packet: Option<Packet>;
        status, packet := ReceivePacketFromSplitterServer(a.datagram, a.kernel);
      case ConnectionReady(uid) =>
        var chunk := ReceiveBytesFromTcpConnection(uid, a.k);
        status := Continue;
    }

    /** One event of a batch: the callback, if its action is still there, and the busy-wait check,
        if it still is afterwards. */
    method Dispatch(fd: Spec.Fd, a: Answer) returns (status: Status)
      requires Wired() && a.newFd > 2
      modifies this`nextUid, listener`readCount, tunnel, conns, conns.connections.Values
      ensures status != BusyWait
      ensures var o := Spec.ClientEvent(old(State()), old(CallFor(fd, a)));
              && (status == Continue ==>
                    && o.Ran? && Wired()
                    && Now() == Moved(old(Now()), o, Spec.ReadBy(old(conns.table), old(CallFor(fd, a)))))
              && (status == AssertFailed ==> o.Aborted?)
              && (status == Threw ==> o.Aborted? || exists i :: a.kernel(i) == 0)
      ensures status == Continue ==>
                Addressed(IsAccept(old(State()), old(CallFor(fd, a))), old(conns.connections), old(nextUid), a.dest)
      ensures status == Continue ==>
                forall v <- conns.connections.Values :: v in old(conns.connections).Values || fresh(v)
    {
      hide ConnectionTable.Valid, Moved, Spec.OpenFds;
      conns.Keys(fd);
      if fd !in conns.actions {
        MovedByNothing(Now(), Spec.ClientEvent(State(), CallFor(fd, a)));
        return Continue;
      }
      var handle := conns.actions[fd].handle;
      var before := handle.ServiceCount();
      status := RunCallback(fd, a);
      if status == Continue && fd in conns.actions && handle.ServiceCount() == before {
        status := BusyWait;
      }
    }

    /** Addresses are right after the event `call` if they were right before it. */
    lemma StaysWellAddressed(before: seq<Spec.Call>, call: Spec.Call, connections: map<Uid, FileDescriptor>)
      requires history == before + [call] && Spec.ClientBatch(Initial(), before).Some?
      requires forall u <- connections :: MeantFor(Initial(), before, u) == Some(connections[u].address)
      requires var state := Spec.ClientBatch(Initial(), before).value.state;
               Addressed(IsAccept(state, call), connections, state.nextUid, call.reply.dest)
      ensures WellAddressed()
    {
      hide Spec.ClientBatch, IsAccept, MeantFor;
      forall u | u in conns.connections
        ensures MeantFor(Initial(), history, u) == Some(conns.connections[u].address)
      {
        MeantForExtends(Initial(), before, call, u);
      }
    }

    /** One event of a batch, and its entry in the process's history. */
    method HandleEvent(fd: Spec.Fd, a: Answer) returns (status: Status, ghost call: Spec.Call)
      requires Valid() && a.newFd > 2
      modifies this, listener`readCount, tunnel, conns, conns.connections.Values
      ensures history == old(history) + [call] && call == old(CallFor(fd, a))
      ensures status == Continue ==>
                Valid() && forall v <- conns.connections.Values :: v in old(conns.connections).Values || fresh(v)
      ensures status == AssertFailed ==> Lifetime().None?
      ensures status == Threw ==> Lifetime().None? || exists i :: a.kernel(i) == 0
      ensures status != BusyWait
    {
      hide Wired, Spec.ClientEvent, Spec.ClientBatch, Spec.ReadBy, Spec.Then, Moved, MeantFor, IsAccept, Addressed;
      ghost var b, before, connections := Lifetime().value, history, conns.connections;
      call := CallFor(fd, a);
      Spec.ClientBatchExtends(Initial(), history, call);
      status := Dispatch(fd, a);
      history := history + [call];
      if status == Continue {
        MovedIsTarget(b, Spec.ClientEvent(b.state, call), Spec.ReadBy(b.state.table, call));
        StaysWellAddressed(before, call, connections);
      } else {
        assert Spec.ClientEvent(b.state, call).Aborted? ==>
            Spec.Then(b, Spec.ClientEvent(b.state, call), Spec.ReadBy(b.state.table, call)).None?;
      }
    }

    /** `calls` are events for `fds`, as far as they got, with what the callbacks got to see of
        `answers`. */
    ghost predicate Answered(calls: seq<Spec.Call>, fds: seq<Spec.Fd>, answers: seq<Answer>)
      requires |fds| == |answers|
    {
      && |calls| <= |fds|
      && forall n | 0 <= n < |calls| :: calls[n].fd == fds[n] && Sees(calls[n], answers[n])
    }

    /** One batch of epoll events. Callbacks remove and add actions while it runs; an event whose
        fd is no longer registered is skipped. No callback is ever caught not reading its fd; the
        batch stops at the event that should stop the process, or at a write that the kernel
        refuses, and otherwise runs to its end. */
    method Poll(fds: seq<Spec.Fd>, answers: seq<Answer>) returns (status: Status, ghost calls: seq<Spec.Call>)
      requires Valid() && |fds| == |answers| && forall a <- answers :: a.newFd > 2
      modifies this, listener`readCount, tunnel, conns, conns.connections.Values
      ensures history == old(history) + calls && Answered(calls, fds, answers)
      ensures status == Continue ==> Valid() && |calls| == |fds|
      ensures status == AssertFailed ==> Lifetime().None?
      ensures status == Threw ==> Lifetime().None? || exists a, i | a in answers :: a.kernel(i) == 0
      ensures status != BusyWait
    {
      hide Wired, Lifetime, Target, SplitterClient.Valid, Sees;
      calls := [];
      for n := 0 to |fds|
        invariant Valid() && |calls| == n && history == old(history) + calls && Answered(calls, fds, answers)
        invariant forall v <- conns.connections.Values :: v in old(conns.connections).Values || fresh(v)
      {
        ghost var call;
        status, call := HandleEvent(fds[n], answers[n]);
        calls := calls + [call];
        if status != Continue {
          return;
        }
      }
      return Continue, calls;
    }
  }
}
