/** What each handler of the tunnel does, as functions on values: the table that pairs the
    connection map with the epoller's actions, the client's and the server's state, and the
    effect of one callback. The classes SplitterClient and SplitterServer are proved against
    these functions, and the runs of module Tunnel are made of them. */
module SplitterSpec {
  import opened Wrappers
  import opened Text
  import opened SplitTcpPacket

  type Fd = int

  /** The closures handed to `add_action`, by what they capture. */
  datatype Callback = AcceptReady | TunnelReady | ConnectionReady(uid: Uid)

  datatype Chunk = Chunk(uid: Uid, bytes: seq<byte>)

  /** The bytes of one connection in a log of chunks. */
  function Stream(cs: seq<Chunk>, uid: Uid): seq<byte> {
    if cs == [] then []
    else
      var c := cs[|cs| - 1];
      Stream(cs[..|cs| - 1], uid) + if c.uid == uid then c.bytes else []
  }

  lemma StreamOfOne(uid: Uid, bytes: seq<byte>)
    ensures forall v: Uid :: Stream([Chunk(uid, bytes)], v) == if v == uid then bytes else []
  {
    assert [Chunk(uid, bytes)][..0] == [];
  }

  lemma StreamAppend(cs: seq<Chunk>, c: Chunk, uid: Uid)
    ensures Stream(cs + [c], uid) == Stream(cs, uid) + if c.uid == uid then c.bytes else []
  {
    assert (cs + [c])[..|cs|] == cs;
  }

  /** `connections_` next to the epoller's `actions_`; `fixed` are the long-lived sockets. */
  datatype Table = Table(fixed: map<Fd, Callback>, connections: map<Uid, Fd>, actions: map<Fd, Callback>)

  datatype ClientState = ClientState(table: Table, nextUid: Uid)

  datatype ServerState = ServerState(table: Table, replyTo: Address)

  /** What one callback did: the new state, the packets it sent over the tunnel, the chunks it
      wrote to connections and the connection it closed. Aborted is a failed `assert`, or an
      exception that no handler catches. */
  datatype Outcome<+S> =
    | Ran(state: S, sent: seq<Packet>, written: seq<Chunk>, closed: Option<Uid>)
    | Aborted

  function EmptyTable(fixed: map<Fd, Callback>): Table { Table(fixed, map[], fixed) }

  function OpenFds(t: Table): set<Fd> { t.fixed.Keys + t.connections.Values }

  /** The fds are distinct, and the actions are the fixed sockets and one per live connection,
      carrying that connection's uid. */
  ghost predicate Registered(t: Table) {
    && (forall f <- t.fixed :: f in t.actions && t.actions[f] == t.fixed[f] && !t.fixed[f].ConnectionReady?)
    && (forall u <- t.connections :: t.connections[u] !in t.fixed)
    && (forall u <- t.connections :: t.connections[u] in t.actions && t.actions[t.connections[u]] == ConnectionReady(u))
    && (forall f <- t.actions | f !in t.fixed ::
          t.actions[f].ConnectionReady? && t.actions[f].uid in t.connections && t.connections[t.actions[f].uid] == f)
  }

  function AddConnection(t: Table, uid: Uid, fd: Fd): Table {
    t.(connections := t.connections[uid := fd], actions := t.actions[fd := ConnectionReady(uid)])
  }

  /** `close_connection`. */
  function CloseConnection(t: Table, uid: Uid): Table
    requires uid in t.connections
  {
    t.(connections := t.connections - {uid}, actions := t.actions - {t.connections[uid]})
  }

  function EofPacket(uid: Uid): Packet { Packet(false, uid, []) }

  /** `receive_bytes_from_tcp_connection` once the read has returned `chunk`. */
  function Forward(t: Table, uid: Uid, chunk: seq<byte>): Outcome<Table> {
    if uid !in t.connections then Ran(t, [], [], None)
    else if chunk == [] then Ran(CloseConnection(t, uid), [EofPacket(uid)], [], Some(uid))
    else Ran(t, [Packet(false, uid, chunk)], [], None)
  }

  /** A packet for a connection that is held: an empty body closes it, others are written. */
  function Deliver(t: Table, p: Packet): Outcome<Table>
    requires p.uid in t.connections
  {
    if p.body == [] then Ran(CloseConnection(t, p.uid), [], [], Some(p.uid))
    else Ran(t, [], [Chunk(p.uid, p.body)], None)
  }

  function NextUid(uid: Uid): Uid { (uid + 1) % UID_SPACE }

  /** `handle_new_tcp_connection` when `accept` gives `fd`. A uid that is still held is not
      replaced by `emplace`, and registering its socket again fails the epoller's assert. */
  function ClientAccept(c: ClientState, fd: Fd, dest: Address): Outcome<ClientState> {
    if c.nextUid in c.table.connections || fd in c.table.actions then Aborted
    else
      Ran(ClientState(AddConnection(c.table, c.nextUid, fd), NextUid(c.nextUid)),
          [Packet(true, c.nextUid, FormatAddress(dest))], [], None)
  }

  function OnClient(c: ClientState, o: Outcome<Table>): Outcome<ClientState> {
    match o
    case Aborted => Aborted
    case Ran(t, sent, written, closed) => Ran(c.(table := t), sent, written, closed)
  }

  function ClientForward(c: ClientState, uid: Uid, chunk: seq<byte>): Outcome<ClientState> {
    OnClient(c, Forward(c.table, uid, chunk))
  }

  /** `receive_packet_from_splitter_server`. */
  function ClientReceive(c: ClientState, p: Packet): Outcome<ClientState> {
    if p.newConnection then Aborted
    else if p.uid !in c.table.connections then Ran(c, [], [], None)
    else OnClient(c, Deliver(c.table, p))
  }

  /** `AutoSocket::write`: without a saved address the datagram is dropped. */
  function Replies(s: ServerState, packets: seq<Packet>): seq<Packet> {
    if s.replyTo == NO_ADDRESS then [] else packets
  }

  function OnServer(s: ServerState, o: Outcome<Table>): Outcome<ServerState> {
    match o
    case Aborted => Aborted
    case Ran(t, sent, written, closed) => Ran(s.(table := t), Replies(s, sent), written, closed)
  }

  function ServerForward(s: ServerState, uid: Uid, chunk: seq<byte>): Outcome<ServerState> {
    OnServer(s, Forward(s.table, uid, chunk))
  }

  /** The packet callback of the server's loop. `fd` is the socket made for a new connection and
      `connected` says whether its `connect` succeeded. */
  function ServerReceive(s: ServerState, from: Address, p: Packet, fd: Fd, connected: bool): Outcome<ServerState> {
    var s1 := s.(replyTo := from);
    if p.uid in s.table.connections then
      if p.newConnection then Aborted else OnServer(s1, Deliver(s.table, p))
    else if !p.newConnection then Ran(s1, [], [], None)
    else if ParseAddress(p.body).None? then Aborted
    else if !connected then Ran(s1, Replies(s1, [EofPacket(p.uid)]), [], None)
    else if fd in s.table.actions then Aborted
    else Ran(s1.(table := AddConnection(s.table, p.uid, fd)), [], [], None)
  }

  /** What the kernel answers while one callback runs: a socket for `accept` or `connect`, the
      original destination, a datagram and its source, whether `connect` works, bytes read. */
  datatype Reply = Reply(fd: Fd, dest: Address, datagram: seq<byte>, from: Address, connected: bool, chunk: seq<byte>)

  function ClientCallback(c: ClientState, callback: Callback, r: Reply): Outcome<ClientState> {
    match callback
    case AcceptReady => ClientAccept(c, r.fd, r.dest)
    case TunnelReady =>
      (match Parse(r.datagram)
       case None => Aborted
       case Some(p) => ClientReceive(c, p))
    case ConnectionReady(uid) => ClientForward(c, uid, r.chunk)
  }

  function ServerCallback(s: ServerState, callback: Callback, r: Reply): Outcome<ServerState> {
    match callback
    case AcceptReady => Aborted
    case TunnelReady =>
      (match Parse(r.datagram)
       case None => Aborted
       case Some(p) => ServerReceive(s, r.from, p, r.fd, r.connected))
    case ConnectionReady(uid) => ServerForward(s, uid, r.chunk)
  }

  /** One epoll event, and what the kernel answered to its callback. */
  datatype Call = Call(fd: Fd, reply: Reply)

  /** One epoll event; an event whose action an earlier callback has removed is skipped. */
  function ClientEvent(c: ClientState, call: Call): Outcome<ClientState> {
    if call.fd in c.table.actions then ClientCallback(c, c.table.actions[call.fd], call.reply)
    else Ran(c, [], [], None)
  }

  function ServerEvent(s: ServerState, call: Call): Outcome<ServerState> {
    if call.fd in s.table.actions then ServerCallback(s, s.table.actions[call.fd], call.reply)
    else Ran(s, [], [], None)
  }

  /** The chunk a forwarding read adds to the bytes read. */
  function ReadOf(t: Table, uid: Uid, chunk: seq<byte>): seq<Chunk> {
    if uid in t.connections && chunk != [] then [Chunk(uid, chunk)] else []
  }

  function ReadBy(t: Table, call: Call): seq<Chunk> {
    if call.fd in t.actions && t.actions[call.fd].ConnectionReady?
    then ReadOf(t, t.actions[call.fd].uid, call.reply.chunk)
    else []
  }

  /** What a sequence of events has brought about: the state, and everything sent, read and written. */
  datatype Batch<+S> = Batch(state: S, sent: seq<Packet>, read: seq<Chunk>, written: seq<Chunk>)

  function Then<S>(b: Batch<S>, o: Outcome<S>, read: seq<Chunk>): (r: Option<Batch<S>>)
    ensures r.None? <==> o.Aborted?
  {
    match o
    case Aborted => None
    case Ran(state, sent, written, _) => Some(Batch(state, b.sent + sent, b.read + read, b.written + written))
  }

  /** The client after these events, in order. None: it has aborted. */
  function ClientBatch(c: ClientState, calls: seq<Call>): Option<Batch<ClientState>> {
    if calls == [] then Some(Batch(c, [], [], []))
    else
      var n := |calls| - 1;
      match ClientBatch(c, calls[..n])
      case None => None
      case Some(b) => Then(b, ClientEvent(b.state, calls[n]), ReadBy(b.state.table, calls[n]))
  }

  function ServerBatch(s: ServerState, calls: seq<Call>): Option<Batch<ServerState>> {
    if calls == [] then Some(Batch(s, [], [], []))
    else
      var n := |calls| - 1;
      match ServerBatch(s, calls[..n])
      case None => None
      case Some(b) => Then(b, ServerEvent(b.state, calls[n]), ReadBy(b.state.table, calls[n]))
  }

  lemma ClientBatchExtends(c: ClientState, calls: seq<Call>, call: Call)
    ensures ClientBatch(c, calls + [call]) ==
            match ClientBatch(c, calls)
            case None => None
            case Some(b) => Then(b, ClientEvent(b.state, call), ReadBy(b.state.table, call))
  {
    assert (calls + [call])[..|calls|] == calls;
  }

  lemma ServerBatchExtends(s: ServerState, calls: seq<Call>, call: Call)
    ensures ServerBatch(s, calls + [call]) ==
            match ServerBatch(s, calls)
            case None => None
            case Some(b) => Then(b, ServerEvent(b.state, call), ReadBy(b.state.table, call))
  {
    assert (calls + [call])[..|calls|] == calls;
  }

  // ---------------------------------------------------------------------------------------
  // Registration agreement

  lemma WithoutConnections(t: Table)
    requires Registered(t) && t.connections.Keys == {}
    ensures t == EmptyTable(t.fixed)
  {
    assert forall f :: f in t.actions <==> f in t.fixed;
    assert t.actions.Keys == t.fixed.Keys;
    assert forall f <- t.fixed :: t.actions[f] == t.fixed[f];
    assert t.actions == t.fixed;
    assert t.connections == map[];
  }

  /** An fd the kernel hands out because it is not open, even one it has used before, is free in
      the epoller's table; and no two connections share an fd. */
  lemma FreshFdIsUnregistered(t: Table, fd: Fd)
    requires Registered(t)
    ensures fd in t.actions <==> fd in OpenFds(t)
    ensures forall u, v | u in t.connections && v in t.connections && t.connections[u] == t.connections[v] :: u == v
  {
    if fd in OpenFds(t) && fd !in t.fixed {
      var u :| u in t.connections && t.connections[u] == fd;
    }
    forall u, v | u in t.connections && v in t.connections && t.connections[u] == t.connections[v]
      ensures u == v
    {
      assert t.actions[t.connections[u]] == ConnectionReady(u);
      assert t.actions[t.connections[v]] == ConnectionReady(v);
    }
  }

  lemma AddConnectionKeepsRegistered(t: Table, uid: Uid, fd: Fd)
    requires Registered(t) && uid !in t.connections && fd !in OpenFds(t)
    ensures Registered(AddConnection(t, uid, fd))
  {
    FreshFdIsUnregistered(t, fd);
  }

  lemma CloseConnectionKeepsRegistered(t: Table, uid: Uid)
    requires Registered(t) && uid in t.connections
    ensures Registered(CloseConnection(t, uid))
  {
  }

  lemma ForwardKeepsRegistered(t: Table, uid: Uid, chunk: seq<byte>)
    requires Registered(t)
    ensures Registered(Forward(t, uid, chunk).state)
  {
    if uid in t.connections {
      CloseConnectionKeepsRegistered(t, uid);
    }
  }

  lemma AcceptKeepsRegistered(c: ClientState, fd: Fd, dest: Address)
    requires Registered(c.table) && fd !in OpenFds(c.table)
    ensures var o := ClientAccept(c, fd, dest); o.Ran? ==> Registered(o.state.table)
  {
    if c.nextUid !in c.table.connections {
      AddConnectionKeepsRegistered(c.table, c.nextUid, fd);
    }
  }

  lemma ClientReceiveKeepsRegistered(c: ClientState, p: Packet)
    requires Registered(c.table)
    ensures var o := ClientReceive(c, p); o.Ran? ==> Registered(o.state.table)
  {
    if p.uid in c.table.connections {
      CloseConnectionKeepsRegistered(c.table, p.uid);
    }
  }

  lemma ServerReceiveKeepsRegistered(s: ServerState, from: Address, p: Packet, fd: Fd, connected: bool)
    requires Registered(s.table) && fd !in OpenFds(s.table)
    ensures var o := ServerReceive(s, from, p, fd, connected); o.Ran? ==> Registered(o.state.table)
  {
    if p.uid in s.table.connections {
      CloseConnectionKeepsRegistered(s.table, p.uid);
    } else {
      AddConnectionKeepsRegistered(s.table, p.uid, fd);
    }
  }

  /** A registered callback reads the very fd it was dispatched for, so the branch for an unknown
      uid is never taken and the busy-wait check passes. */
  lemma DispatchReadsItsOwnFd(t: Table, fd: Fd)
    requires Registered(t) && fd in t.actions
    ensures t.actions[fd].ConnectionReady? <==> fd !in t.fixed
    ensures t.actions[fd].ConnectionReady? ==>
              t.actions[fd].uid in t.connections && t.connections[t.actions[fd].uid] == fd
  {
  }

  // ---------------------------------------------------------------------------------------
  // When an assert fires, and what an end-of-stream packet can cause

  /** The client aborts exactly on a uid that came round while still held, or a packet that
      claims to announce a connection. */
  lemma ClientAbortsIff(c: ClientState, fd: Fd, dest: Address, p: Packet, uid: Uid, chunk: seq<byte>)
    requires Registered(c.table) && fd !in OpenFds(c.table)
    ensures ClientAccept(c, fd, dest).Aborted? <==> c.nextUid in c.table.connections
    ensures ClientReceive(c, p).Aborted? <==> p.newConnection
    ensures ClientForward(c, uid, chunk).Ran?
  {
    FreshFdIsUnregistered(c.table, fd);
  }

  /** The server aborts exactly on an announcement of a uid it holds, or one whose address does
      not parse. */
  lemma ServerAbortsIff(s: ServerState, from: Address, p: Packet, fd: Fd, connected: bool, uid: Uid, chunk: seq<byte>)
    requires Registered(s.table) && fd !in OpenFds(s.table)
    ensures ServerReceive(s, from, p, fd, connected).Aborted? <==>
              p.newConnection && (p.uid in s.table.connections || ParseAddress(p.body).None?)
    ensures ServerForward(s, uid, chunk).Ran?
  {
    FreshFdIsUnregistered(s.table, fd);
  }

  /** Teardown does not bounce: a packet with an empty body is never answered. Only a refused
      announcement is, with one end-of-stream packet for its own uid. */
  lemma ReceiptNeverBounces(c: ClientState, s: ServerState, from: Address, p: Packet, fd: Fd, connected: bool)
    requires from != NO_ADDRESS
    ensures var o := ClientReceive(c, p); o.Ran? ==> o.sent == []
    ensures var o := ServerReceive(s, from, p, fd, connected); o.Ran? ==>
              o.sent == if p.newConnection && !connected then [EofPacket(p.uid)] else []
    ensures p.body == [] && ServerReceive(s, from, p, fd, connected).Ran? ==>
              ServerReceive(s, from, p, fd, connected).sent == []
  {
    if p.newConnection && p.body == [] {
      assert Cut(p.body, COLON).None?;
    }
  }
}
