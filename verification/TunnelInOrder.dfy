/** What holds over a network that loses nothing and keeps each connection's packets in order, a
    reliable FIFO network for one: every run is a product of independent per-uid runs, streams
    arrive intact, and both sides agree whenever the channels are empty. */
module TunnelInOrder {
  import opened Wrappers
  import opened Text
  import opened SplitTcpPacket
  import opened SplitterSpec
  import opened Tunnel
  import opened TunnelSafety

  /** What one side says about one uid. */
  datatype Half = Half(open: bool, read: seq<byte>, wrote: seq<byte>, cause: Option<Cause>)

  /** Everything a state says about one uid. */
  datatype View = View(issued: bool, handled: bool, client: Half, server: Half, up: seq<Packet>, down: seq<Packet>)

  function ForUid(q: seq<Packet>, u: Uid): seq<Packet> {
    if q == [] then [] else (if q[0].uid == u then [q[0]] else []) + ForUid(q[1..], u)
  }

  /** The data in flight in a channel. */
  function Bodies(q: seq<Packet>): seq<byte> {
    if q == [] then [] else (if q[0].newConnection then [] else q[0].body) + Bodies(q[1..])
  }

  function Lookup(m: map<Uid, Cause>, u: Uid): Option<Cause> { if u in m then Some(m[u]) else None }

  function HalfOf(t: Table, read: seq<Chunk>, wrote: seq<Chunk>, closed: map<Uid, Cause>, u: Uid): Half {
    Half(u in t.connections, Stream(read, u), Stream(wrote, u), Lookup(closed, u))
  }

  function ClientHalf(s: System, u: Uid): Half {
    HalfOf(s.client.state.table, s.client.read, s.client.wrote, s.client.closed, u)
  }

  function HalfOfServer(v: Side<ServerState>, u: Uid): Half { HalfOf(v.state.table, v.read, v.wrote, v.closed, u) }

  function ServerHalf(s: System, u: Uid): Half { HalfOfServer(s.server, u) }

  function ViewOf(s: System, u: Uid): View {
    View(Issued(s.accepted, u), u in s.server.handled, ClientHalf(s, u), ServerHalf(s, u),
         ForUid(s.upstream, u), ForUid(s.downstream, u))
  }

  predicate IsEof(p: Packet) { !p.newConnection && p.body == [] }

  /** An announcement only comes first, an end-of-stream packet only last. */
  ghost predicate Ordered(q: seq<Packet>) {
    && (forall i | 0 < i < |q| :: !q[i].newConnection)
    && (forall i | 0 <= i < |q| - 1 :: !IsEof(q[i]))
  }

  predicate EndsInEof(q: seq<Packet>) { q != [] && IsEof(q[|q| - 1]) }

  predicate Announced(v: View) { v.up != [] && v.up[0].newConnection }

  const NoHalf := Half(false, [], [], None)

  const Untouched := View(false, false, NoHalf, NoHalf, [], [])

  /** The life of one connection, as seen from outside both processes: who holds it, and what its
      packets in flight look like. */
  ghost predicate Shape(v: View) {
    && Ordered(v.up) && Ordered(v.down) && (v.down != [] ==> !v.down[0].newConnection)
    && (!v.issued ==> v == Untouched)
    && (v.issued ==> (v.handled <==> !Announced(v)))
    && (!v.handled ==> v.server == NoHalf && v.down == [])
    && (v.client.open ==> !EndsInEof(v.up) && v.client.cause.None?)
    && (v.server.open ==> !EndsInEof(v.down) && v.server.cause.None?)
    && (v.client.open && !v.server.open ==> Announced(v) || EndsInEof(v.down))
    && (!v.client.open && (v.server.open || Announced(v)) ==> EndsInEof(v.up))
  }

  /** And what has become of its bytes. */
  ghost predicate Content(v: View) {
    && (v.client.open ==> v.server.read == v.client.wrote + Bodies(v.down))
    && (v.server.open || Announced(v) ==> v.client.read == v.server.wrote + Bodies(v.up))
    && v.server.wrote <= v.client.read && v.client.wrote <= v.server.read
    && (v.client.cause == Some(RemoteEof) ==> v.client.wrote == v.server.read && v.handled && !v.server.open)
    && (v.server.cause == Some(RemoteEof) ==> v.server.wrote == v.client.read && !v.client.open)
  }

  ghost predicate Consistent(v: View) { Shape(v) && Content(v) }

  // ---------------------------------------------------------------------------------------
  // One connection on its own

  /** A forwarding read of `body`. */
  function Reads(h: Half, body: seq<byte>): Half {
    if body == [] then h.(open := false, cause := Some(LocalEof)) else h.(read := h.read + body)
  }

  /** A packet from the other side with this body. */
  function Gets(h: Half, body: seq<byte>): Half {
    if !h.open then h
    else if body == [] then h.(open := false, cause := Some(RemoteEof))
    else h.(wrote := h.wrote + body)
  }

  function Accepted(v: View, announcement: Packet): View {
    v.(issued := true, client := v.client.(open := true), up := v.up + [announcement])
  }

  function ClientRead(v: View, p: Packet): View {
    v.(client := Reads(v.client, p.body), up := v.up + [p])
  }

  function ServerRead(v: View, p: Packet): View {
    v.(server := Reads(v.server, p.body), down := v.down + [p])
  }

  /** The server takes `p`, which leaves `rest` in flight; `eof` answers a refused connect. */
  function ServerGot(v: View, p: Packet, rest: seq<Packet>, eof: Packet, connected: bool): View {
    if p.newConnection then
      v.(handled := true, server := v.server.(open := connected), up := rest,
         down := if connected then v.down else v.down + [eof])
    else v.(server := Gets(v.server, p.body), up := rest)
  }

  function ClientGot(v: View, p: Packet, rest: seq<Packet>): View {
    v.(client := Gets(v.client, p.body), down := rest)
  }

  lemma {:induction false} BodiesAppend(q: seq<Packet>, p: Packet)
    ensures Bodies(q + [p]) == Bodies(q) + if p.newConnection then [] else p.body
  {
    if q == [] {
      assert [p][1..] == [];
    } else {
      assert (q + [p])[1..] == q[1..] + [p];
      BodiesAppend(q[1..], p);
    }
  }

  lemma AppendKeepsOrdered(q: seq<Packet>, p: Packet)
    requires Ordered(q) && !EndsInEof(q) && (p.newConnection ==> q == [])
    ensures Ordered(q + [p])
    ensures EndsInEof(q + [p]) <==> IsEof(p)
    ensures q != [] ==> (q + [p])[0] == q[0]
  {
  }

  lemma TailKeepsOrdered(q: seq<Packet>, p: Packet, rest: seq<Packet>)
    requires Ordered(q) && q == [p] + rest
    ensures Ordered(rest) && (rest != [] ==> !rest[0].newConnection)
    ensures IsEof(p) ==> rest == []
    ensures !IsEof(p) ==> (EndsInEof(q) <==> EndsInEof(rest))
  {
    assert forall i | 0 <= i < |rest| :: rest[i] == q[i + 1];
    if IsEof(p) {
      assert IsEof(q[0]);
    }
  }

  lemma AcceptedKeepsConsistent(v: View, announcement: Packet)
    requires Consistent(v) && !v.issued && announcement.newConnection
    ensures Consistent(Accepted(v, announcement))
  {
    assert Bodies([announcement]) == [];
  }

  lemma ClientReadKeepsShape(v: View, p: Packet)
    requires Shape(v) && v.client.open && !p.newConnection
    ensures Shape(ClientRead(v, p))
  {
    AppendKeepsOrdered(v.up, p);
  }

  lemma ClientReadKeepsContent(v: View, p: Packet)
    requires Shape(v) && Content(v) && v.client.open && !p.newConnection
    ensures Content(ClientRead(v, p))
  {
    BodiesAppend(v.up, p);
    AppendKeepsOrdered(v.up, p);
    assert (v.server.wrote + Bodies(v.up)) + p.body == v.server.wrote + (Bodies(v.up) + p.body);
  }

  lemma ServerReadKeepsShape(v: View, p: Packet)
    requires Shape(v) && v.server.open && !p.newConnection
    ensures Shape(ServerRead(v, p))
  {
    AppendKeepsOrdered(v.down, p);
  }

  lemma ServerReadKeepsContent(v: View, p: Packet)
    requires Shape(v) && Content(v) && v.server.open && !p.newConnection
    ensures Content(ServerRead(v, p))
  {
    BodiesAppend(v.down, p);
    assert (v.client.wrote + Bodies(v.down)) + p.body == v.client.wrote + (Bodies(v.down) + p.body);
  }

  lemma ServerGotKeepsShape(v: View, p: Packet, rest: seq<Packet>, eof: Packet, connected: bool)
    requires Shape(v) && v.up == [p] + rest && IsEof(eof)
    ensures Shape(ServerGot(v, p, rest, eof, connected))
    ensures p.newConnection ==> !v.server.open
  {
    TailKeepsOrdered(v.up, p, rest);
    AppendKeepsOrdered([], eof);
  }

  lemma ServerGotKeepsContent(v: View, p: Packet, rest: seq<Packet>, eof: Packet, connected: bool)
    requires Shape(v) && Content(v) && v.up == [p] + rest && IsEof(eof)
    ensures Content(ServerGot(v, p, rest, eof, connected))
  {
    TailKeepsOrdered(v.up, p, rest);
    BodiesAppend(v.down, eof);
    assert v.up[1..] == rest;
    assert (v.server.wrote + p.body) + Bodies(rest) == v.server.wrote + (p.body + Bodies(rest));
  }

  lemma ClientGotKeepsShape(v: View, p: Packet, rest: seq<Packet>)
    requires Shape(v) && v.down == [p] + rest
    ensures Shape(ClientGot(v, p, rest))
  {
    TailKeepsOrdered(v.down, p, rest);
  }

  lemma ClientGotKeepsContent(v: View, p: Packet, rest: seq<Packet>)
    requires Shape(v) && Content(v) && v.down == [p] + rest
    ensures Content(ClientGot(v, p, rest))
  {
    TailKeepsOrdered(v.down, p, rest);
    assert v.down[1..] == rest;
    assert (v.client.wrote + p.body) + Bodies(rest) == v.client.wrote + (p.body + Bodies(rest));
  }

  // ---------------------------------------------------------------------------------------
  // The tunnel is the product of its connections: every event moves one uid's view and leaves
  // the views of all others as they are

  lemma {:induction false} ForUidAppend(q: seq<Packet>, p: Packet, u: Uid)
    ensures ForUid(q + [p], u) == ForUid(q, u) + if p.uid == u then [p] else []
  {
    if q == [] {
      assert [p][1..] == [];
    } else {
      assert (q + [p])[1..] == q[1..] + [p];
      ForUidAppend(q[1..], p, u);
      var head := if q[0].uid == u then [q[0]] else [];
      assert ForUid(q + [p], u) == head + ForUid(q[1..] + [p], u);
    }
  }

  /** Taking a connection's first packet out of a channel takes the head of its own queue and
      leaves every other connection's queue alone. */
  lemma {:induction false} ForUidTake(q: seq<Packet>, i: nat, u: Uid)
    requires i < |q| && FirstOfUid(q, i)
    ensures ForUid(q, u) == if q[i].uid == u then [q[i]] + ForUid(Without(q, i), u) else ForUid(Without(q, i), u)
  {
    if i == 0 {
      assert Without(q, 0) == q[1..];
    } else {
      ForUidTake(q[1..], i - 1, u);
      assert Without(q, i) == [q[0]] + Without(q[1..], i - 1);
      assert Without(q, i)[1..] == Without(q[1..], i - 1);
    }
  }

  lemma AcceptProjects(s: System, fd: Fd, dest: Address, u: Uid)
    requires Safe(s) && UidsFresh(s) && s.accepted < UID_SPACE && Enabled(InOrder, s, Accept(fd, dest))
    ensures var s' := Next(InOrder, s, Accept(fd, dest));
            var uid := s.client.state.nextUid;
            && !Issued(s.accepted, uid)
            && ViewOf(s', u)
               == if u == uid then Accepted(ViewOf(s, u), Packet(true, uid, FormatAddress(dest))) else ViewOf(s, u)
  {
    FreshFdIsUnregistered(s.client.state.table, fd);
    IssuedOnce(s.accepted, u);
    ForUidAppend(s.upstream, Packet(true, s.client.state.nextUid, FormatAddress(dest)), u);
    assert s.client.read + [] == s.client.read && s.client.wrote + [] == s.client.wrote;
  }

  lemma ForwardProjects(
    t: Table, read: seq<Chunk>, wrote: seq<Chunk>, closed: map<Uid, Cause>, uid: Uid, chunk: seq<byte>, u: Uid)
    requires uid in t.connections
    ensures var o := Forward(t, uid, chunk);
            var before := HalfOf(t, read, wrote, closed, u);
            HalfOf(o.state, read + ReadOf(t, uid, chunk), wrote + o.written, Closing(closed, o.closed, LocalEof), u)
            == if u == uid then Reads(before, chunk) else before
  {
    StreamAppend(read, Chunk(uid, chunk), u);
    assert read + [] == read && wrote + [] == wrote;
  }

  lemma DeliverProjects(t: Table, read: seq<Chunk>, wrote: seq<Chunk>, closed: map<Uid, Cause>, p: Packet, u: Uid)
    requires p.uid in t.connections
    ensures var o := Deliver(t, p);
            var before := HalfOf(t, read, wrote, closed, u);
            HalfOf(o.state, read + [], wrote + o.written, Closing(closed, o.closed, RemoteEof), u)
            == if u == p.uid then Gets(before, p.body) else before
  {
    StreamAppend(wrote, Chunk(p.uid, p.body), u);
    assert read + [] == read && wrote + [] == wrote;
  }

  lemma NothingProjects(t: Table, read: seq<Chunk>, wrote: seq<Chunk>, closed: map<Uid, Cause>, u: Uid)
    ensures HalfOf(t, read + [], wrote + [], closed, u) == HalfOf(t, read, wrote, closed, u)
  {
    assert read + [] == read && wrote + [] == wrote;
  }

  lemma ClientReadsProjects(s: System, fd: Fd, chunk: seq<byte>, u: Uid)
    requires Registered(s.client.state.table) && Enabled(InOrder, s, ClientReads(fd, chunk))
    ensures var s' := Next(InOrder, s, ClientReads(fd, chunk));
            var uid := s.client.state.table.actions[fd].uid;
            && uid in s.client.state.table.connections
            && ViewOf(s', u) == if u == uid then ClientRead(ViewOf(s, u), Packet(false, uid, chunk)) else ViewOf(s, u)
  {
    var c := s.client;
    var uid := c.state.table.actions[fd].uid;
    assert uid in c.state.table.connections;
    ForUidAppend(s.upstream, Packet(false, uid, chunk), u);
    ForwardProjects(c.state.table, c.read, c.wrote, c.closed, uid, chunk, u);
  }

  lemma ServerReadsProjects(s: System, fd: Fd, chunk: seq<byte>, u: Uid)
    requires TablesAgree(s) && Enabled(InOrder, s, ServerReads(fd, chunk))
    ensures var s' := Next(InOrder, s, ServerReads(fd, chunk));
            var uid := s.server.state.table.actions[fd].uid;
            && uid in s.server.state.table.connections
            && ViewOf(s', u) == if u == uid then ServerRead(ViewOf(s, u), Packet(false, uid, chunk)) else ViewOf(s, u)
  {
    var v := s.server;
    var uid := v.state.table.actions[fd].uid;
    assert uid in v.state.table.connections;
    ForUidAppend(s.downstream, Packet(false, uid, chunk), u);
    ForwardProjects(v.state.table, v.read, v.wrote, v.closed, uid, chunk, u);
  }

  lemma AfterPacketProjects(v: Side<ServerState>, from: Address, p: Packet, fd: Fd, connected: bool, u: Uid)
    requires Registered(v.state.table) && fd !in OpenFds(v.state.table) && v.up && from != NO_ADDRESS
    requires p.newConnection ==> ParseAddress(p.body).Some? && p.uid !in v.state.table.connections
    ensures var before := HalfOfServer(v, u);
            var v' := AfterPacket(v, from, p, fd, connected);
            && v'.up && v'.handled == (if p.newConnection then v.handled + {p.uid} else v.handled)
            && HalfOfServer(v', u)
               == (if u != p.uid then before
                   else if p.newConnection then before.(open := connected)
                   else Gets(before, p.body))
            && Sent(ServerReceive(v.state, from, p, fd, connected))
               == (if p.newConnection && !connected then [EofPacket(p.uid)] else [])
  {
    ServerAbortsIff(v.state, from, p, fd, connected, 0, []);
    if p.uid in v.state.table.connections {
      DeliverProjects(v.state.table, v.read, v.wrote, v.closed, p, u);
    } else {
      NothingProjects(ServerReceive(v.state, from, p, fd, connected).state.table, v.read, v.wrote, v.closed, u);
    }
  }

  /** The parts of a server step put together. */
  lemma ServerStepProjects(s: System, s': System, p: Packet, answer: seq<Packet>, connected: bool, u: Uid)
    requires s'.client == s.client && s'.accepted == s.accepted
    requires s'.server.handled == (if p.newConnection then s.server.handled + {p.uid} else s.server.handled)
    requires HalfOfServer(s'.server, u)
             == (if u != p.uid then HalfOfServer(s.server, u)
                 else if p.newConnection then HalfOfServer(s.server, u).(open := connected)
                 else Gets(HalfOfServer(s.server, u), p.body))
    requires u != p.uid ==> ForUid(s'.upstream, u) == ForUid(s.upstream, u)
    requires answer == (if p.newConnection && !connected then [EofPacket(p.uid)] else [])
    requires s'.downstream == s.downstream + answer
    ensures ViewOf(s', u)
            == if u == p.uid then ServerGot(ViewOf(s, u), p, ForUid(s'.upstream, u), EofPacket(u), connected)
               else ViewOf(s, u)
  {
    if answer == [] {
      assert s'.downstream == s.downstream;
    } else {
      ForUidAppend(s.downstream, EofPacket(p.uid), u);
    }
  }

  lemma ToServerProjects(s: System, i: nat, from: Address, fd: Fd, connected: bool, u: Uid)
    requires Registered(s.server.state.table) && Enabled(InOrder, s, ToServer(i, from, fd, connected))
    requires s.upstream[i].newConnection ==>
               ParseAddress(s.upstream[i].body).Some? && s.upstream[i].uid !in s.server.state.table.connections
    ensures var s' := Next(InOrder, s, ToServer(i, from, fd, connected));
            var p, rest := s.upstream[i], ForUid(Without(s.upstream, i), u);
            && s'.server.up
            && (u == p.uid ==> ViewOf(s, u).up == [p] + rest)
            && ViewOf(s', u)
               == if u == p.uid then ServerGot(ViewOf(s, u), p, rest, EofPacket(u), connected) else ViewOf(s, u)
  {
    var p := s.upstream[i];
    var s' := Next(InOrder, s, ToServer(i, from, fd, connected));
    AfterPacketProjects(s.server, from, p, fd, connected, u);
    ForUidTake(s.upstream, i, u);
    ServerStepProjects(s, s', p, Sent(ServerReceive(s.server.state, from, p, fd, connected)), connected, u);
  }

  lemma AfterPacketFromServerProjects(c: Side<ClientState>, p: Packet, u: Uid)
    requires !p.newConnection && c.up
    ensures var o := ClientReceive(c.state, p);
            var c' := After(c, o, [], RemoteEof);
            var before := HalfOf(c.state.table, c.read, c.wrote, c.closed, u);
            && Sent(o) == []
            && HalfOf(c'.state.table, c'.read, c'.wrote, c'.closed, u)
               == if u == p.uid then Gets(before, p.body) else before
  {
    if p.uid in c.state.table.connections {
      DeliverProjects(c.state.table, c.read, c.wrote, c.closed, p, u);
    } else {
      NothingProjects(c.state.table, c.read, c.wrote, c.closed, u);
    }
  }

  lemma ToClientProjects(s: System, i: nat, u: Uid)
    requires Registered(s.client.state.table) && Enabled(InOrder, s, ToClient(i)) && !s.downstream[i].newConnection
    ensures var s' := Next(InOrder, s, ToClient(i));
            var p, rest := s.downstream[i], ForUid(Without(s.downstream, i), u);
            && (u == p.uid ==> ViewOf(s, u).down == [p] + rest)
            && ViewOf(s', u) == if u == p.uid then ClientGot(ViewOf(s, u), p, rest) else ViewOf(s, u)
  {
    AfterPacketFromServerProjects(s.client, s.downstream[i], u);
    ForUidTake(s.downstream, i, u);
    assert s.upstream + [] == s.upstream;
  }

  // ---------------------------------------------------------------------------------------
  // Whole runs

  ghost predicate Steady(s: System) {
    && Safe(s)
    && (s.accepted <= UID_SPACE ==> s.server.up && forall u: Uid :: Consistent(ViewOf(s, u)))
  }

  lemma ClientEventKeepsConsistent(s: System, e: Event, u: Uid)
    requires Safe(s) && UidsFresh(s) && Enabled(InOrder, s, e) && Consistent(ViewOf(s, u))
    requires e.Accept? || e.ClientReads? || e.ToClient?
    requires e.Accept? ==> s.accepted < UID_SPACE
    ensures Consistent(ViewOf(Next(InOrder, s, e), u))
  {
    match e
    case Accept(fd, dest) =>
      var uid := s.client.state.nextUid;
      AcceptProjects(s, fd, dest, u);
      if u == uid {
        AcceptedKeepsConsistent(ViewOf(s, u), Packet(true, uid, FormatAddress(dest)));
      }
    case ClientReads(fd, chunk) =>
      var uid := s.client.state.table.actions[fd].uid;
      ClientReadsProjects(s, fd, chunk, u);
      if u == uid {
        ClientReadKeepsShape(ViewOf(s, u), Packet(false, uid, chunk));
        ClientReadKeepsContent(ViewOf(s, u), Packet(false, uid, chunk));
      }
    case ToClient(i) =>
      var p, rest := s.downstream[i], ForUid(Without(s.downstream, i), u);
      assert p in s.server.sent;
      ToClientProjects(s, i, u);
      if u == p.uid {
        ClientGotKeepsShape(ViewOf(s, u), p, rest);
        ClientGotKeepsContent(ViewOf(s, u), p, rest);
      }
  }

  lemma ServerEventKeepsConsistent(s: System, e: Event, u: Uid)
    requires Safe(s) && Enabled(InOrder, s, e) && Consistent(ViewOf(s, u))
    requires e.ServerReads? || (e.ToServer? && Consistent(ViewOf(s, s.upstream[e.i].uid)))
    ensures Next(InOrder, s, e).server.up && Consistent(ViewOf(Next(InOrder, s, e), u))
  {
    match e
    case ServerReads(fd, chunk) =>
      var uid := s.server.state.table.actions[fd].uid;
      ServerReadsProjects(s, fd, chunk, u);
      if u == uid {
        ServerReadKeepsShape(ViewOf(s, u), Packet(false, uid, chunk));
        ServerReadKeepsContent(ViewOf(s, u), Packet(false, uid, chunk));
      }
    case ToServer(i, from, fd, connected) =>
      var p := s.upstream[i];
      var rest := ForUid(Without(s.upstream, i), p.uid);
      assert p in s.client.sent;
      ForUidTake(s.upstream, i, p.uid);
      ServerGotKeepsShape(ViewOf(s, p.uid), p, rest, EofPacket(p.uid), connected);
      ServerGotKeepsContent(ViewOf(s, p.uid), p, rest, EofPacket(p.uid), connected);
      ToServerProjects(s, i, from, fd, connected, u);
  }

  lemma NextKeepsSteady(s: System, e: Event)
    requires Steady(s) && Enabled(InOrder, s, e)
    ensures Steady(Next(InOrder, s, e))
  {
    NextKeepsSafe(InOrder, s, e);
    var s' := Next(InOrder, s, e);
    if s'.accepted <= UID_SPACE {
      if e.ToServer? {
        assert Consistent(ViewOf(s, s.upstream[e.i].uid));
      }
      if e.ServerReads? || e.ToServer? {
        ServerEventKeepsConsistent(s, e, 0);
      }
      forall u: Uid
        ensures Consistent(ViewOf(s', u))
      {
        if e.ServerReads? || e.ToServer? {
          ServerEventKeepsConsistent(s, e, u);
        } else {
          ClientEventKeepsConsistent(s, e, u);
        }
      }
    }
  }

  lemma InitIsSteady(cf: map<Fd, Callback>, sf: map<Fd, Callback>)
    requires Fixed(cf) && Fixed(sf)
    ensures Steady(Init(cf, sf))
  {
    forall u: Uid
      ensures ViewOf(Init(cf, sf), u) == Untouched
    {
    }
  }

  lemma {:induction false} RunKeepsSteady(s: System, run: seq<Event>)
    requires Steady(s) && Possible(InOrder, s, run)
    ensures Steady(Run(InOrder, s, run))
    decreases |run|
  {
    if run != [] {
      NextKeepsSteady(s, run[0]);
      RunKeepsSteady(Next(InOrder, s, run[0]), run[1..]);
    }
  }

  // ---------------------------------------------------------------------------------------
  // Main results

  /** Stream integrity, end to end and in both directions. In every reachable state and for every
      uid, the bytes written on one side are a prefix of the bytes read on the other; while the
      receiving connection is open, written bytes and bytes in flight are exactly the bytes read. */
  lemma StreamIntegrity(cf: map<Fd, Callback>, sf: map<Fd, Callback>, run: seq<Event>, u: Uid)
    requires Fixed(cf) && Fixed(sf) && Possible(InOrder, Init(cf, sf), run)
    ensures var s := Run(InOrder, Init(cf, sf), run);
            s.accepted <= UID_SPACE ==>
              && Stream(s.server.wrote, u) <= Stream(s.client.read, u)
              && Stream(s.client.wrote, u) <= Stream(s.server.read, u)
              && (u in s.server.state.table.connections ==>
                    Stream(s.client.read, u) == Stream(s.server.wrote, u) + Bodies(ForUid(s.upstream, u)))
              && (u in s.client.state.table.connections ==>
                    Stream(s.server.read, u) == Stream(s.client.wrote, u) + Bodies(ForUid(s.downstream, u)))
  {
    InitIsSteady(cf, sf);
    RunKeepsSteady(Init(cf, sf), run);
    var s := Run(InOrder, Init(cf, sf), run);
    if s.accepted <= UID_SPACE {
      assert Consistent(ViewOf(s, u));
    }
  }

  /** A side that closed a connection because the other side's end-of-stream packet arrived has
      written every byte the other side ever read from it, refused connects included. */
  lemma RemoteEofMeansAllDelivered(cf: map<Fd, Callback>, sf: map<Fd, Callback>, run: seq<Event>, u: Uid)
    requires Fixed(cf) && Fixed(sf) && Possible(InOrder, Init(cf, sf), run)
    ensures var s := Run(InOrder, Init(cf, sf), run);
            s.accepted <= UID_SPACE ==>
              && (Lookup(s.server.closed, u) == Some(RemoteEof) ==>
                    Stream(s.server.wrote, u) == Stream(s.client.read, u))
              && (Lookup(s.client.closed, u) == Some(RemoteEof) ==>
                    Stream(s.client.wrote, u) == Stream(s.server.read, u))
  {
    InitIsSteady(cf, sf);
    RunKeepsSteady(Init(cf, sf), run);
    var s := Run(InOrder, Init(cf, sf), run);
    if s.accepted <= UID_SPACE {
      assert Consistent(ViewOf(s, u));
    }
  }

  /** A uid that only one side holds always has the packet in flight that will settle it: the
      announcement, or an end-of-stream packet behind everything else. */
  lemma OneSidedUidsAreInFlight(cf: map<Fd, Callback>, sf: map<Fd, Callback>, run: seq<Event>, u: Uid)
    requires Fixed(cf) && Fixed(sf) && Possible(InOrder, Init(cf, sf), run)
    ensures var s := Run(InOrder, Init(cf, sf), run);
            var atClient, atServer := u in s.client.state.table.connections, u in s.server.state.table.connections;
            s.accepted <= UID_SPACE ==>
              && (atClient && !atServer ==> Announced(ViewOf(s, u)) || EndsInEof(ForUid(s.downstream, u)))
              && (atServer && !atClient ==> EndsInEof(ForUid(s.upstream, u)))
  {
    InitIsSteady(cf, sf);
    RunKeepsSteady(Init(cf, sf), run);
    var s := Run(InOrder, Init(cf, sf), run);
    if s.accepted <= UID_SPACE {
      assert Consistent(ViewOf(s, u));
    }
  }

  /** Whenever both channels are empty, both sides hold the same uids, and everything read from a
      connection still held has been written to its peer. */
  lemma AgreementAtQuiescence(cf: map<Fd, Callback>, sf: map<Fd, Callback>, run: seq<Event>)
    requires Fixed(cf) && Fixed(sf) && Possible(InOrder, Init(cf, sf), run)
    ensures var s := Run(InOrder, Init(cf, sf), run);
            s.accepted <= UID_SPACE && s.upstream == [] && s.downstream == [] ==> InAgreement(s)
  {
    InitIsSteady(cf, sf);
    RunKeepsSteady(Init(cf, sf), run);
    QuietIsInAgreement(Run(InOrder, Init(cf, sf), run));
  }

  ghost predicate InAgreement(s: System) {
    && s.client.state.table.connections.Keys == s.server.state.table.connections.Keys
    && forall u <- s.client.state.table.connections ::
         && Stream(s.server.wrote, u) == Stream(s.client.read, u)
         && Stream(s.client.wrote, u) == Stream(s.server.read, u)
  }

  lemma QuietIsInAgreement(s: System)
    requires Steady(s)
    ensures s.accepted <= UID_SPACE && s.upstream == [] && s.downstream == [] ==> InAgreement(s)
  {
    if s.accepted <= UID_SPACE && s.upstream == [] && s.downstream == [] {
      forall u: Uid
        ensures u in s.client.state.table.connections <==> u in s.server.state.table.connections
        ensures u in s.client.state.table.connections ==>
                  && Stream(s.server.wrote, u) == Stream(s.client.read, u)
                  && Stream(s.client.wrote, u) == Stream(s.server.read, u)
      {
        assert Consistent(ViewOf(s, u));
      }
    }
  }

  // ---------------------------------------------------------------------------------------
  // Left alone, the tunnel settles

  const LOOPBACK := Address(127, 0, 0, 1, 0)

  predicate Delivery(e: Event) { e.ToServer? || e.ToClient? }

  /** An announcement can cost one answer, so a packet on its way to the server counts twice. */
  function InFlight(s: System): nat { 2 * |s.upstream| + |s.downstream| }

  lemma DeliveryShrinksFlight(s: System, e: Event)
    requires Enabled(InOrder, s, e) && Delivery(e)
    ensures InFlight(Next(InOrder, s, e)) < InFlight(s)
    ensures Next(InOrder, s, e).accepted == s.accepted
  {
    if e.ToServer? {
      ReceiptNeverBounces(s.client.state, s.server.state, e.from, s.upstream[e.i], e.fd, e.connected);
    } else {
      ReceiptNeverBounces(s.client.state, s.server.state, LOOPBACK, s.downstream[e.i], 0, true);
    }
  }

  lemma {:induction false} DeliveriesAreBounded(s: System, run: seq<Event>)
    requires Possible(InOrder, s, run) && (forall e <- run :: Delivery(e))
    ensures |run| + InFlight(Run(InOrder, s, run)) <= InFlight(s)
    ensures Run(InOrder, s, run).accepted == s.accepted
    decreases |run|
  {
    if run != [] {
      assert run[0] in run;
      DeliveryShrinksFlight(s, run[0]);
      DeliveriesAreBounded(Next(InOrder, s, run[0]), run[1..]);
    }
  }

  lemma {:induction false} FreshFdExists(fds: set<Fd>) returns (fd: Fd)
    ensures forall f | f in fds :: f < fd
  {
    if g :| g in fds {
      fd := FreshFdExists(fds - {g});
      fd := if fd <= g then g + 1 else fd;
      assert forall f | f in fds :: f in fds - {g} || f == g;
    } else {
      fd := 0;
    }
  }

  /** From any reachable state, with no new activity on the sockets, every sequence of deliveries
      is finite with an explicit bound, can go on as long as anything is in flight, and ends with
      both sides in agreement. */
  lemma DrainingEndsInAgreement(cf: map<Fd, Callback>, sf: map<Fd, Callback>, run: seq<Event>, drain: seq<Event>)
    requires Fixed(cf) && Fixed(sf) && Possible(InOrder, Init(cf, sf), run)
    requires var s := Run(InOrder, Init(cf, sf), run); s.accepted <= UID_SPACE && Possible(InOrder, s, drain)
    requires forall e <- drain :: Delivery(e)
    ensures var s := Run(InOrder, Init(cf, sf), run);
            var s' := Run(InOrder, s, drain);
            && |drain| <= InFlight(s)
            && ((exists e | Delivery(e) :: Enabled(InOrder, s', e))
                || (s'.upstream == [] && s'.downstream == [] && InAgreement(s')))
  {
    var s := Run(InOrder, Init(cf, sf), run);
    var s' := Run(InOrder, s, drain);
    InitIsSteady(cf, sf);
    RunKeepsSteady(Init(cf, sf), run);
    RunKeepsSteady(s, drain);
    DeliveriesAreBounded(s, drain);
    if s'.upstream != [] {
      var fd := FreshFdExists(OpenFds(s'.server.state.table));
      var e := ToServer(0, LOOPBACK, fd, true);
      assert Delivery(e) && Enabled(InOrder, s', e);
    } else if s'.downstream != [] {
      assert Delivery(ToClient(0)) && Enabled(InOrder, s', ToClient(0));
    } else {
      QuietIsInAgreement(s');
    }
  }
}
