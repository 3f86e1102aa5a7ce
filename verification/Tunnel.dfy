/** Runs of the whole tunnel: one client, one server, and two packet channels between them.
    Every event is one callback of one process, or one act of the network. */
module Tunnel {
  import opened Wrappers
  import opened Text
  import opened SplitTcpPacket
  import opened SplitterSpec

  /** What the network may do: lose nothing and keep the order of each connection's packets, as a
      reliable FIFO channel does and more; lose and reorder; or also duplicate. */
  datatype Channel = InOrder | Lossy | Duplicating

  datatype Cause = LocalEof | RemoteEof

  /** One process and what it has done so far: packets sent over the tunnel, chunks read from and
      written to connections, why connections were closed, uids whose announcement it handled. */
  datatype Side<+S> = Side(
    state: S, up: bool, sent: seq<Packet>, read: seq<Chunk>, wrote: seq<Chunk>,
    closed: map<Uid, Cause>, handled: set<Uid>)

  datatype System = System(
    client: Side<ClientState>, server: Side<ServerState>,
    upstream: seq<Packet>, downstream: seq<Packet>, accepted: nat)

  datatype Event =
    | Accept(fd: Fd, dest: Address)
    | ClientReads(fd: Fd, chunk: seq<byte>)
    | ServerReads(fd: Fd, chunk: seq<byte>)
    | ToServer(i: nat, from: Address, fd: Fd, connected: bool)
    | ToClient(i: nat)
    | LoseUpstream(i: nat)
    | LoseDownstream(i: nat)
    | CopyUpstream(i: nat)
    | CopyDownstream(i: nat)

  function Init(clientFixed: map<Fd, Callback>, serverFixed: map<Fd, Callback>): System {
    System(Side(ClientState(EmptyTable(clientFixed), 1), true, [], [], [], map[], {}),
           Side(ServerState(EmptyTable(serverFixed), NO_ADDRESS), true, [], [], [], map[], {}),
           [], [], 0)
  }

  /** The long-lived sockets are not connections. */
  predicate Fixed(fixed: map<Fd, Callback>) { forall f <- fixed :: !fixed[f].ConnectionReady? }

  function Without(q: seq<Packet>, i: nat): seq<Packet>
    requires i < |q|
  {
    q[..i] + q[i + 1..]
  }

  /** No packet of the same connection is ahead of this one. */
  predicate FirstOfUid(q: seq<Packet>, i: nat)
    requires i < |q|
  {
    forall j | 0 <= j < i :: q[j].uid != q[i].uid
  }

  /** Which events can happen: a process that has aborted runs nothing, the kernel hands out only
      fds that are not open, a read returns at most what was asked for, a datagram has a source,
      and the network does what its kind allows. */
  predicate Enabled(ch: Channel, s: System, e: Event) {
    match e
    case Accept(fd, _) => s.client.up && fd !in OpenFds(s.client.state.table)
    case ClientReads(fd, chunk) =>
      var actions := s.client.state.table.actions;
      s.client.up && fd in actions && actions[fd].ConnectionReady? && |chunk| <= READ_LIMIT
    case ServerReads(fd, chunk) =>
      var actions := s.server.state.table.actions;
      s.server.up && fd in actions && actions[fd].ConnectionReady? && |chunk| <= READ_LIMIT
    case ToServer(i, from, fd, _) =>
      && s.server.up && from != NO_ADDRESS && i < |s.upstream| && (ch.InOrder? ==> FirstOfUid(s.upstream, i))
      && fd !in OpenFds(s.server.state.table)
    case ToClient(i) => s.client.up && i < |s.downstream| && (ch.InOrder? ==> FirstOfUid(s.downstream, i))
    case LoseUpstream(i) => !ch.InOrder? && i < |s.upstream|
    case LoseDownstream(i) => !ch.InOrder? && i < |s.downstream|
    case CopyUpstream(i) => ch.Duplicating? && i < |s.upstream|
    case CopyDownstream(i) => ch.Duplicating? && i < |s.downstream|
  }

  function Closing(causes: map<Uid, Cause>, closed: Option<Uid>, cause: Cause): map<Uid, Cause> {
    match closed
    case None => causes
    case Some(uid) => causes[uid := cause]
  }

  /** A side after one of its callbacks, which read `read` and closed for `cause`. */
  function After<S>(side: Side<S>, o: Outcome<S>, read: seq<Chunk>, cause: Cause): Side<S> {
    match o
    case Aborted => side.(up := false)
    case Ran(state, sent, written, closed) =>
      side.(state := state, sent := side.sent + sent, read := side.read + read,
            wrote := side.wrote + written, closed := Closing(side.closed, closed, cause))
  }

  /** The server after a packet from the client. */
  function AfterPacket(v: Side<ServerState>, from: Address, p: Packet, fd: Fd, connected: bool): Side<ServerState> {
    var after := After(v, ServerReceive(v.state, from, p, fd, connected), [], RemoteEof);
    if p.newConnection then after.(handled := after.handled + {p.uid}) else after
  }

  function Sent<S>(o: Outcome<S>): seq<Packet> { if o.Aborted? then [] else o.sent }

  function Next(ch: Channel, s: System, e: Event): System
    requires Enabled(ch, s, e)
  {
    match e
    case Accept(fd, dest) =>
      var o := ClientAccept(s.client.state, fd, dest);
      s.(client := After(s.client, o, [], LocalEof), upstream := s.upstream + Sent(o), accepted := s.accepted + 1)
    case ClientReads(fd, chunk) =>
      var t := s.client.state.table;
      var o := ClientForward(s.client.state, t.actions[fd].uid, chunk);
      s.(client := After(s.client, o, ReadOf(t, t.actions[fd].uid, chunk), LocalEof),
         upstream := s.upstream + Sent(o))
    case ServerReads(fd, chunk) =>
      var t := s.server.state.table;
      var o := ServerForward(s.server.state, t.actions[fd].uid, chunk);
      s.(server := After(s.server, o, ReadOf(t, t.actions[fd].uid, chunk), LocalEof),
         downstream := s.downstream + Sent(o))
    case ToServer(i, from, fd, connected) =>
      var p := s.upstream[i];
      s.(server := AfterPacket(s.server, from, p, fd, connected),
         upstream := Without(s.upstream, i),
         downstream := s.downstream + Sent(ServerReceive(s.server.state, from, p, fd, connected)))
    case ToClient(i) =>
      var o := ClientReceive(s.client.state, s.downstream[i]);
      s.(client := After(s.client, o, [], RemoteEof),
         upstream := s.upstream + Sent(o), downstream := Without(s.downstream, i))
    case LoseUpstream(i) => s.(upstream := Without(s.upstream, i))
    case LoseDownstream(i) => s.(downstream := Without(s.downstream, i))
    case CopyUpstream(i) => s.(upstream := s.upstream + [s.upstream[i]])
    case CopyDownstream(i) => s.(downstream := s.downstream + [s.downstream[i]])
  }

  /** Every event of `run`, from `s` on, can happen when its turn comes. */
  predicate Possible(ch: Channel, s: System, run: seq<Event>)
    decreases |run|
  {
    run == [] || (Enabled(ch, s, run[0]) && Possible(ch, Next(ch, s, run[0]), run[1..]))
  }

  function Run(ch: Channel, s: System, run: seq<Event>): System
    requires Possible(ch, s, run)
    decreases |run|
  {
    if run == [] then s else Run(ch, Next(ch, s, run[0]), run[1..])
  }

  lemma {:induction false} RunConcat(ch: Channel, s: System, a: seq<Event>, b: seq<Event>)
    requires Possible(ch, s, a) && Possible(ch, Run(ch, s, a), b)
    ensures Possible(ch, s, a + b) && Run(ch, s, a + b) == Run(ch, Run(ch, s, a), b)
    decreases |a|
  {
    hide Next;
    if a == [] {
      assert a + b == b;
    } else {
      assert (a + b)[0] == a[0] && (a + b)[1..] == a[1..] + b;
      RunConcat(ch, Next(ch, s, a[0]), a[1..], b);
    }
  }

  /** One more event at the end of a run. */
  lemma Extend(ch: Channel, s: System, run: seq<Event>, e: Event)
    requires Possible(ch, s, run) && Enabled(ch, Run(ch, s, run), e)
    ensures Possible(ch, s, run + [e]) && Run(ch, s, run + [e]) == Next(ch, Run(ch, s, run), e)
  {
    hide Next;
    assert [e][1..] == [];
    RunConcat(ch, s, run, [e]);
  }

  // ---------------------------------------------------------------------------------------
  // Reading the histories

  /** The data packets of a log, as chunks: announcements and end-of-stream packets left out. */
  function Data(ps: seq<Packet>): seq<Chunk> {
    if ps == [] then []
    else
      var p := ps[|ps| - 1];
      Data(ps[..|ps| - 1]) + if p.newConnection || p.body == [] then [] else [Chunk(p.uid, p.body)]
  }

  lemma DataAppend(ps: seq<Packet>, p: Packet)
    ensures Data(ps + [p]) == Data(ps) + if p.newConnection || p.body == [] then [] else [Chunk(p.uid, p.body)]
  {
    assert (ps + [p])[..|ps|] == ps;
  }

  /** The uids that the first `accepted` calls of `get_connection_uid` have handed out, counting
      from 1 and wrapping at 64 bits. */
  predicate Issued(accepted: nat, uid: Uid) { (uid + UID_SPACE - 1) % UID_SPACE < accepted }

  function Counter(accepted: nat): Uid { (accepted + 1) % UID_SPACE }

  lemma IssuedOnce(accepted: nat, uid: Uid)
    requires accepted < UID_SPACE
    ensures !Issued(accepted, Counter(accepted))
    ensures Issued(accepted + 1, uid) <==> Issued(accepted, uid) || uid == Counter(accepted)
    ensures Counter(accepted + 1) == NextUid(Counter(accepted))
  {
  }
}
