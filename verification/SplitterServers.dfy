/** The server process: its tunnel socket and its connections, changed in place. */
module SplitterServers {
  import opened Wrappers
  import opened Text
  import opened SplitTcpPacket
  import opened FileDescriptors
  import opened Connections
  import opened SplitterAddresses
  import Spec = SplitterSpec

  class SplitterServer {
    const tunnel: AutoSocket
    const conns: ConnectionTable
    ghost var history: seq<Spec.Call>

    ghost function Initial(): Spec.ServerState {
      Spec.ServerState(Spec.EmptyTable(map[tunnel.num := Spec.TunnelReady]), NO_ADDRESS)
    }

    ghost function State(): Spec.ServerState reads conns`table, tunnel`savedAddress {
      Spec.ServerState(conns.table, tunnel.savedAddress)
    }

    /** What the events handled so far should have brought about; None if one of them should have
        stopped the process. */
    ghost function Lifetime(): Option<Spec.Batch<Spec.ServerState>> reads this`history {
      Spec.ServerBatch(Initial(), history)
    }

    /** The action of the long-lived socket. */
    ghost function LongLived(): map<Spec.Fd, Action> { map[tunnel.num := Action(Auto(tunnel), Spec.TunnelReady)] }

    ghost predicate Wired()
      reads conns, conns.connections.Values`received, conns.connections.Values`output
    {
      conns.Valid() && conns.fixed == LongLived()
    }

    /** Each datagram went to the source of the latest one that had come in by then, and each
        connection goes to the address that its announcement asked for. */
    ghost predicate WellAddressed() reads this`history, tunnel`savedAddress, tunnel`destinations, conns`connections {
      && tunnel.savedAddress == LatestSource(Initial(), history)
      && tunnel.destinations == Destinations(Initial(), history)
      && forall u <- conns.connections :: OpenedTo(Initial(), history, u) == Some(conns.connections[u].address)
    }

    /** The maps, the datagrams sent and where they went, and the bytes read from and written to every
        connection are what the events handled so far should have brought about. */
    ghost predicate Valid()
      reads this`history, tunnel`savedAddress, tunnel`sent, tunnel`destinations, conns
      reads conns.connections.Values`received, conns.connections.Values`output
    {
      Wired() && Lifetime().Some? && Now() == Target(Lifetime().value) && WellAddressed()
    }

    ghost function Now(): Snapshot<Spec.ServerState>
      reads tunnel`savedAddress, tunnel`sent, conns`table, conns`read, conns`wrote
    {
      Snapshot(State(), tunnel.sent, conns.read, conns.wrote)
    }

    /** The start of `loop`, with the tunnel socket bound. */
    constructor (tunnel: AutoSocket)
      requires tunnel.savedAddress == NO_ADDRESS && tunnel.sent == [] && tunnel.destinations == []
      ensures Valid() && history == [] && this.tunnel == tunnel && fresh(conns)
      ensures State() == Initial() && conns.connections == map[]
    {
      hide ConnectionTable.Valid, LongLived;
      this.tunnel := tunnel;
      var c := new ConnectionTable();
      conns, history := c, [];
      new;
      AddLongLived();
    }

    method AddLongLived()
      requires conns.Valid() && conns.actions == map[] && conns.connections == map[] && conns.fixed == map[]
      requires conns.table == Spec.EmptyTable(map[])
      modifies conns`actions, conns`fixed, conns`table
      ensures Wired() && conns.table == Initial().table
    {
      hide ConnectionTable.Valid;
      conns.AddFixed(Auto(tunnel), Spec.TunnelReady);
    }

    /** Where the datagrams sent since there were `before` of them have gone. */
    ghost function SentTo(before: nat): seq<Address>
      reads tunnel`sent, tunnel`savedAddress
    {
      Repeated(tunnel.savedAddress, if |tunnel.sent| < before then 0 else |tunnel.sent| - before)
    }

    /** A packet goes back through the tunnel to the reply address, if there is one. */
    method Send(p: Packet)
      requires Wired()
      modifies tunnel`sent, tunnel`destinations, tunnel`writeCount
      ensures Wired() && tunnel.sent == old(tunnel.sent) + Datagrams(Spec.Replies(State(), [p]))
      ensures tunnel.savedAddress != NO_ADDRESS ==>
                && tunnel.sent == old(tunnel.sent) + [ToString(p)]
                && tunnel.destinations == old(tunnel.destinations) + [tunnel.savedAddress]
      ensures tunnel.savedAddress == NO_ADDRESS ==>
                tunnel.sent == old(tunnel.sent) && tunnel.destinations == old(tunnel.destinations)
      ensures tunnel.destinations == old(tunnel.destinations) + SentTo(old(|tunnel.sent|))
    {
      hide ConnectionTable.Valid, LongLived;
      DatagramOfOne(p);
      tunnel.Write(ToString(p));
      assert Repeated(tunnel.savedAddress, 0) == [] && Repeated(tunnel.savedAddress, 1) == [tunnel.savedAddress];
    }

    /** Makes a socket for fd `newFd` and connects it to `dest`; a refused one leaves no trace.
        `success` is false for a refused connect, `status` is AssertFailed if the epoller's assert
        fails. */
    method EstablishNewTcpConnection(uid: Uid, dest: Address, newFd: Spec.Fd, incoming: seq<byte>, connected: bool)
      returns (success: bool, status: Status)
      requires Wired() && newFd > 2 && uid !in conns.connections
      modifies conns`connections, conns`actions, conns`table
      ensures status == (if connected && newFd in old(conns.actions) then AssertFailed else Continue)
      ensures forall v <- conns.connections.Values :: v in old(conns.connections).Values || fresh(v)
      ensures status == Continue ==> Wired() && success == connected
      ensures status == Continue && !success ==>
                conns.table == old(conns.table) && conns.connections == old(conns.connections)
      ensures status == Continue && success ==>
                && conns.table == Spec.AddConnection(old(conns.table), uid, newFd)
                && uid in conns.connections
                && var socket := conns.connections[uid];
                && fresh(socket) && socket.num == newFd && socket.address == dest
                && socket.unread == incoming && socket.output == []
                && conns.connections == old(conns.connections)[uid := socket]
    {
      hide ConnectionTable.Valid, LongLived, Spec.OpenFds;
      conns.Keys(newFd);
      var socket := new FileDescriptor(newFd, dest, incoming);
      if !connected {
        return false, Continue;
      }
      if newFd in conns.actions {
        return true, AssertFailed;
      }
      conns.Add(uid, socket);
      return true, Continue;
    }

    /** The only new connection is that of the announcement, if there is one, and it goes to the
        address announced. */
    ghost predicate Addressed(announcement: Option<Packet>, before: map<Uid, FileDescriptor>)
      reads conns`connections
    {
      match announcement
      case None => Within(conns.connections, before)
      case Some(p) =>
        && ParseAddress(p.body).Some?
        && Grown(conns.connections, before, p.uid, ParseAddress(p.body).value)
    }

    /** The callback's branch for an announcement of a uid that is not held. */
    method HandleAnnouncement(p: Packet, newFd: Spec.Fd, incoming: seq<byte>, connected: bool)
      returns (status: Status)
      requires Wired() && newFd > 2 && p.newConnection && p.uid !in conns.connections
      modifies tunnel`sent, tunnel`destinations, tunnel`writeCount
      modifies conns`connections, conns`actions, conns`table
      ensures status != BusyWait
      ensures forall v <- conns.connections.Values :: v in old(conns.connections).Values || fresh(v)
      ensures var o := Spec.ServerReceive(old(State()), tunnel.savedAddress, p, newFd, connected);
              && (status == Continue <==> o.Ran?)
              && (status == Threw ==> ParseAddress(p.body).None?)
              && (o.Ran? ==> o.written == [] && Wired() && Now() == Moved(old(Now()), o, []))
      ensures COLON !in p.body ==> status == AssertFailed
      ensures COLON in p.body && ParseAddress(p.body).None? ==> status == Threw
      ensures status == Continue ==>
                && (p.uid in conns.connections <==> connected)
                && Addressed(Some(p), old(conns.connections))
                && tunnel.destinations == old(tunnel.destinations) + SentTo(old(|tunnel.sent|))
    {
      hide ConnectionTable.Valid, LongLived, Spec.OpenFds, ParseAddress, Spec.Stream;
      conns.Keys(newFd);
      AddressNeedsColon(p.body);
      if Cut(p.body, COLON).None? {
        return AssertFailed;
      }
      var dest := ParseAddress(p.body);
      if dest.None? {
        return Threw;
      }
      var success: bool;
      success, status := EstablishNewTcpConnection(p.uid, dest.value, newFd, incoming, connected);
      if status == Continue && !success {
        Send(p.(body := [], newConnection := false));
      }
      assert conns.read + [] == conns.read && conns.wrote + [] == conns.wrote;
      assert Datagrams([]) == [] && old(tunnel.sent) + [] == old(tunnel.sent);
    }

    /** The tunnel socket's callback, for a packet that is already parsed. */
    method HandlePacket(p: Packet, newFd: Spec.Fd, incoming: seq<byte>, connected: bool, kernel: nat -> nat)
      returns (status: Status)
      requires Wired() && newFd > 2
      modifies tunnel`sent, tunnel`destinations, tunnel`writeCount, conns, conns.connections.Values
      ensures status != BusyWait
      ensures forall v <- conns.connections.Values :: v in old(conns.connections).Values || fresh(v)
      ensures var o := Spec.ServerReceive(old(State()), tunnel.savedAddress, p, newFd, connected);
              && (status == AssertFailed ==> o.Aborted?)
              && (status == Threw ==>
                    (p.newConnection && ParseAddress(p.body).None? && o.Aborted?) || exists i :: kernel(i) == 0)
              && (status == Continue ==>
                    && o.Ran? && Wired() && Now() == Moved(old(Now()), o, [])
                    && forall u <- old(conns.connections) ::
                         old(conns.connections)[u].output
                         == old(conns.connections[u].output) + Spec.Stream(o.written, u))
      ensures status == Continue ==>
                && tunnel.destinations == old(tunnel.destinations) + SentTo(old(|tunnel.sent|))
                && Addressed(Announcing(Some(p)), old(conns.connections))
    {
      hide ParseAddress, ConnectionTable.Valid, LongLived, Spec.OpenFds;
      conns.Keys(newFd);
      if p.uid !in conns.connections {
        if p.newConnection {
          status := HandleAnnouncement(p, newFd, incoming, connected);
        } else {
          MovedByNothing(Now(), Spec.ServerReceive(State(), tunnel.savedAddress, p, newFd, connected));
          status := Continue;
        }
      } else if p.newConnection {
        status := AssertFailed;
      } else {
        status := DeliverPacket(p, kernel);
      }
    }

    /** The callback's branch for a packet of a uid that is held. */
    method DeliverPacket(p: Packet, kernel: nat -> nat) returns (status: Status)
      requires Wired() && !p.newConnection && p.uid in conns.connections && p.uid in conns.table.connections
      modifies conns, conns.connections.Values
      ensures status == Continue || status == Threw
      ensures conns.connections == if p.body == [] then old(conns.connections) - {p.uid} else old(conns.connections)
      ensures conns.connections.Values <= old(conns.connections).Values
      ensures Within(conns.connections, old(conns.connections))
      ensures status == Threw ==> exists i :: kernel(i) == 0
      ensures status == Continue ==>
                var o := Spec.OnServer(old(State()), Spec.Deliver(old(conns.table), p));
                && o.Ran? && Wired() && Now() == Moved(old(Now()), o, [])
                && forall u <- old(conns.connections) ::
                     old(conns.connections)[u].output == old(conns.connections[u].output) + Spec.Stream(o.written, u)
    {
      hide ConnectionTable.Valid, LongLived, Spec.Stream;
      var threw := conns.Deliver(p.uid, p.body, kernel);
      assert Datagrams([]) == [] && tunnel.sent + [] == tunnel.sent && conns.read + [] == conns.read;
      return if threw then Threw else Continue;
    }

    /** A connection's callback; `chunk` is what its socket had. */
    method ReceiveBytesFromTcpConnection(uid: Uid, k: nat) returns (chunk: seq<byte>)
      requires Wired()
      modifies tunnel`sent, tunnel`destinations, tunnel`writeCount, conns, conns.connections.Values
      ensures conns.connections.Values <= old(conns.connections).Values
      ensures Within(conns.connections, old(conns.connections))
      ensures uid in old(conns.connections) ==>
                && var socket := old(conns.connections)[uid];
                && chunk == NextChunk(old(socket.unread), k)
                && chunk + socket.unread == old(socket.unread)
                && socket.received == old(socket.received) + chunk
                && socket.readCount == Bump(old(socket.readCount))
      ensures uid !in old(conns.connections) ==> chunk == []
      ensures conns.connections == if chunk == [] then old(conns.connections) - {uid} else old(conns.connections)
      ensures var o := Spec.ServerForward(old(State()), uid, chunk);
              o.Ran? && Wired() && Now() == Moved(old(Now()), o, Spec.ReadOf(old(conns.table), uid, chunk))
      ensures tunnel.destinations == old(tunnel.destinations) + SentTo(old(|tunnel.sent|))
    {
      hide ConnectionTable.Valid, LongLived, Within, Repeated;
      conns.Keys(0);
      var body := conns.Receive(uid, k);
      if body.None? {
        MovedByNothing(Now(), Spec.ServerForward(State(), uid, []));
        return [];
      }
      chunk := body.value;
      Send(Packet(false, uid, chunk));
      assert conns.wrote + [] == conns.wrote;
    }

    /** What the callback of `fd` reads from a connection: the next bytes, as many as the kernel
        grants. */
    ghost function ChunkFor(fd: Spec.Fd, a: Answer): (chunk: seq<byte>)
      requires Wired()
      reads conns, conns.connections.Values
      ensures |chunk| <= READ_LIMIT
    {
      if fd in conns.actions && conns.actions[fd].callback.ConnectionReady? then
        NextChunk(conns.connections[conns.actions[fd].callback.uid].unread, a.k)
      else []
    }

    /** Apart from the chunk read, a call carries what the kernel answered. */
    ghost predicate Sees(call: Spec.Call, a: Answer) {
      |call.reply.chunk| <= READ_LIMIT && call.reply == Seen(a, a.datagram, call.reply.chunk)
    }

    /** An event, with what its callback gets to see of the kernel's answer. */
    ghost function CallFor(fd: Spec.Fd, a: Answer): (call: Spec.Call)
      requires Wired()
      reads conns, conns.connections.Values
      ensures call.fd == fd && Sees(call, a)
    {
      Spec.Call(fd, Seen(a, a.datagram, ChunkFor(fd, a)))
    }

    /** The closure of the tunnel socket's action. */
    method RunTunnel(a: Answer) returns (status: Status)
      requires Wired() && a.newFd > 2
      modifies tunnel, conns, conns.connections.Values
      ensures status != BusyWait && tunnel.readCount == Bump(old(tunnel.readCount)) && tunnel.savedAddress == a.source
      ensures forall v <- conns.connections.Values :: v in old(conns.connections).Values || fresh(v)
      ensures var o := Spec.ServerCallback(old(State()), Spec.TunnelReady, Seen(a, a.datagram, []));
              && (status == AssertFailed ==> o.Aborted?)
              && (status == Threw ==> o.Aborted? || exists i :: a.kernel(i) == 0)
              && (status == Continue ==> o.Ran? && Wired() && Now() == Moved(old(Now()), o, []))
      ensures status == Continue ==>
                && tunnel.destinations == old(tunnel.destinations) + SentTo(old(|tunnel.sent|))
                && Addressed(Announcing(Parse(a.datagram)), old(conns.connections))
    {
      hide ParseAddress, ConnectionTable.Valid, LongLived, Parse, Spec.Stream;
      var datagram := tunnel.Read(a.source, a.datagram);
      assert Wired();
      var packet := Parse(datagram);
      if packet.None? {
        return Threw;
      }
      status := HandlePacket(packet.value, a.newFd, a.incoming, a.connected, a.kernel);
    }

    /** Runs the callback of a registered action. */
    method RunCallback(fd: Spec.Fd, a: Answer) returns (status: Status)
      requires Wired() && fd in conns.actions && a.newFd > 2
      modifies tunnel, conns, conns.connections.Values
      ensures status != BusyWait
      ensures var o := Spec.ServerEvent(old(State()), old(CallFor(fd, a)));
              && (status == Continue ==>
                    && o.Ran? && Wired()
                    && Now() == Moved(old(Now()), o, Spec.ReadBy(old(conns.table), old(CallFor(fd, a)))))
              && (status == AssertFailed ==> o.Aborted?)
              && (status == Threw ==> o.Aborted? || exists i :: a.kernel(i) == 0)
      ensures status == Continue ==>
                Addressed(AnnouncementIn(old(State()), old(CallFor(fd, a))), old(conns.connections))
      ensures status == Continue ==>
                && tunnel.destinations == old(tunnel.destinations) + SentTo(old(|tunnel.sent|))
                && tunnel.savedAddress
                   == if IsTunnel(old(State()), old(CallFor(fd, a))) then a.source else old(tunnel.savedAddress)
      ensures status == Continue ==>
                && var handle := old(conns.actions)[fd].handle;
                && handle.ServiceCount() == Bump(old(handle.ServiceCount()))
                && forall v <- conns.connections.Values :: v in old(conns.connections).Values || fresh(v)
    {
      hide ConnectionTable.Valid, Moved, Parse, Spec.ServerReceive, Spec.ServerForward, Announcing, Repeated,
        ParseAddress;
      conns.ActionIsFor(fd);
      if fd == tunnel.num {
        status := RunTunnel(a);
      } else {
        var chunk := ReceiveBytesFromTcpConnection(conns.actions[fd].callback.uid, a.k);
        status := Continue;
      }
    }

    /** One event of a batch: the callback, if its action is still there, and the busy-wait check,
        if it still is afterwards. */
    method Dispatch(fd: Spec.Fd, a: Answer) returns (status: Status)
      requires Wired() && a.newFd > 2
      modifies tunnel, conns, conns.connections.Values
      ensures status != BusyWait
      ensures var o := Spec.ServerEvent(old(State()), old(CallFor(fd, a)));
              && (status == Continue ==>
                    && o.Ran? && Wired()
                    && Now() == Moved(old(Now()), o, Spec.ReadBy(old(conns.table), old(CallFor(fd, a)))))
              && (status == AssertFailed ==> o.Aborted?)
              && (status == Threw ==> o.Aborted? || exists i :: a.kernel(i) == 0)
      ensures status == Continue ==>
                Addressed(AnnouncementIn(old(State()), old(CallFor(fd, a))), old(conns.connections))
      ensures status == Continue ==>
                && tunnel.destinations == old(tunnel.destinations) + SentTo(old(|tunnel.sent|))
                && tunnel.savedAddress
                   == if IsTunnel(old(State()), old(CallFor(fd, a))) then a.source else old(tunnel.savedAddress)
      ensures status == Continue ==>
                forall v <- conns.connections.Values :: v in old(conns.connections).Values || fresh(v)
    {
      hide ConnectionTable.Valid, Moved, Spec.OpenFds;
      conns.Keys(fd);
      if fd !in conns.actions {
        MovedByNothing(Now(), Spec.ServerEvent(State(), CallFor(fd, a)));
        return Continue;
      }
      var handle := conns.actions[fd].handle;
      var before := handle.ServiceCount();
      status := RunCallback(fd, a);
      if status == Continue && fd in conns.actions && handle.ServiceCount() == before {
        status := BusyWait;
      }
    }

    /** Addresses are right after the event `call` if they were right before it. */
    lemma StaysWellAddressed(
      before: seq<Spec.Call>, call: Spec.Call, connections: map<Uid, FileDescriptor>,
      source: Address, destinations: seq<Address>, sent: nat)
      requires history == before + [call] && Spec.ServerBatch(Initial(), before).Some?
      requires source == LatestSource(Initial(), before) && destinations == Destinations(Initial(), before)
      requires forall u <- connections :: OpenedTo(Initial(), before, u) == Some(connections[u].address)
      requires var state := Spec.ServerBatch(Initial(), before).value.state;
               && Spec.ServerEvent(state, call).Ran? && Addressed(AnnouncementIn(state, call), connections)
               && tunnel.savedAddress == (if IsTunnel(state, call) then call.reply.from else source)
               && |tunnel.sent| == sent + |Spec.ServerEvent(state, call).sent|
               && tunnel.destinations == destinations + SentTo(sent)
      ensures WellAddressed()
    {
      hide Spec.ServerEvent, Spec.ServerBatch, AnnouncementIn, IsTunnel, ParseAddress, OpenedTo, Destinations,
        LatestSource;
      DestinationsExtend(Initial(), before, call);
      forall u | u in conns.connections
        ensures OpenedTo(Initial(), history, u) == Some(conns.connections[u].address)
      {
        OpenedToExtends(Initial(), before, call, u);
      }
    }

    /** One event of a batch, and its entry in the process's history. */
    method HandleEvent(fd: Spec.Fd, a: Answer) returns (status: Status, ghost call: Spec.Call)
      requires Valid() && a.newFd > 2
      modifies this, tunnel, conns, conns.connections.Values
      ensures history == old(history) + [call] && call == old(CallFor(fd, a))
      ensures status == Continue ==>
                Valid() && forall v <- conns.connections.Values :: v in old(conns.connections).Values || fresh(v)
      ensures status == AssertFailed ==> Lifetime().None?
      ensures status == Threw ==> Lifetime().None? || exists i :: a.kernel(i) == 0
      ensures status != BusyWait
    {
      hide Wired, Spec.ServerEvent, Spec.ServerBatch, Spec.ReadBy, Spec.Then, Moved, Destinations, LatestSource,
        OpenedTo, Addressed, AnnouncementIn, ParseAddress, IsTunnel;
      ghost var b, before, connections := Lifetime().value, history, conns.connections;
      ghost var source, destinations, sent := tunnel.savedAddress, tunnel.destinations, |tunnel.sent|;
      call := CallFor(fd, a);
      Spec.ServerBatchExtends(Initial(), history, call);
      status := Dispatch(fd, a);
      history := history + [call];
      if status == Continue {
        MovedIsTarget(b, Spec.ServerEvent(b.state, call), Spec.ReadBy(b.state.table, call));
        MovedSends(Target(b), Spec.ServerEvent(b.state, call), Spec.ReadBy(b.state.table, call));
        StaysWellAddressed(before, call, connections, source, destinations, sent);
      }
    }

    /** `calls` are events for `fds`, as far as they got, with what the callbacks got to see of
        `answers`. */
    ghost predicate Answered(calls: seq<Spec.Call>, fds: seq<Spec.Fd>, answers: seq<Answer>)
      requires |fds| == |answers|
    {
      && |calls| <= |fds|
      && forall n | 0 <= n < |calls| :: calls[n].fd == fds[n] && Sees(calls[n], answers[n])
    }

    /** One batch of epoll events, as on the client. */
    method Poll(fds: seq<Spec.Fd>, answers: seq<Answer>) returns (status: Status, ghost calls: seq<Spec.Call>)
      requires Valid() && |fds| == |answers| && forall a <- answers :: a.newFd > 2
      modifies this, tunnel, conns, conns.connections.Values
      ensures history == old(history) + calls && Answered(calls, fds, answers)
      ensures status == Continue ==> Valid() && |calls| == |fds|
      ensures status == AssertFailed ==> Lifetime().None?
      ensures status == Threw ==> Lifetime().None? || exists a, i | a in answers :: a.kernel(i) == 0
      ensures status != BusyWait
    {
      hide Wired, Lifetime, Target, SplitterServer.Valid, Sees;
      calls := [];
      for n := 0 to |fds|
        invariant Valid() && |calls| == n && history == old(history) + calls && Answered(calls, fds, answers)
        invariant forall v <- conns.connections.Values :: v in old(conns.connections).Values || fresh(v)
      {
        ghost var call;
        status, call := HandleEvent(fds[n], answers[n]);
        calls := calls + [call];
        if status != Continue {
          return;
        }
      }
      return Continue, calls;
    }
  }
}
