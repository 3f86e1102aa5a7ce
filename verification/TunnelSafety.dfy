/** What holds in every run, whatever the network loses, reorders or duplicates. */
module TunnelSafety {
  import opened Wrappers
  import opened Text
  import opened SplitTcpPacket
  import opened SplitterSpec
  import opened Tunnel

  /** Both tables agree with themselves, and a server with connections can reply. */
  ghost predicate TablesAgree(s: System) {
    && Registered(s.client.state.table)
    && Registered(s.server.state.table)
    && (s.server.state.table.connections != map[] ==> s.server.state.replyTo != NO_ADDRESS)
  }

  /** One direction: packets in the channel were sent, the data sent is the data read, and each
      chunk the other side wrote is one of the chunks read. */
  ghost predicate Sourced(sent: seq<Packet>, channel: seq<Packet>, read: seq<Chunk>, wrote: seq<Chunk>) {
    && (forall p <- channel :: p in sent)
    && (forall p <- sent | !p.newConnection :: |p.body| <= READ_LIMIT)
    && Data(sent) == read
    && (forall c <- wrote :: c.bytes != [] && c in read)
  }

  /** Where packets and written chunks come from. */
  ghost predicate Provenance(s: System) {
    && Sourced(s.client.sent, s.upstream, s.client.read, s.server.wrote)
    && Sourced(s.server.sent, s.downstream, s.server.read, s.client.wrote)
    && (forall p <- s.client.sent | p.newConnection :: ParseAddress(p.body).Some?)
    && (forall p <- s.server.sent :: !p.newConnection)
  }

  /** The client's uids are fresh as long as the counter has not come round. */
  ghost predicate UidsFresh(s: System) {
    && s.client.up
    && s.client.state.nextUid == Counter(s.accepted)
    && (forall u <- s.client.state.table.connections :: Issued(s.accepted, u))
    && (forall p <- s.client.sent :: Issued(s.accepted, p.uid))
    && (forall u <- s.client.closed :: Issued(s.accepted, u) && u !in s.client.state.table.connections)
  }

  ghost predicate Safe(s: System) {
    && TablesAgree(s)
    && Provenance(s)
    && (s.accepted <= UID_SPACE ==> UidsFresh(s))
  }

  lemma {:induction false} DataMember(ps: seq<Packet>, p: Packet)
    requires p in ps && !p.newConnection && p.body != []
    ensures Chunk(p.uid, p.body) in Data(ps)
  {
    if p != ps[|ps| - 1] {
      DataMember(ps[..|ps| - 1], p);
    }
  }

  lemma SendKeepsSourced(sent: seq<Packet>, q: seq<Packet>, read: seq<Chunk>, wrote: seq<Chunk>, p: Packet)
    requires Sourced(sent, q, read, wrote) && (p.newConnection || |p.body| <= READ_LIMIT)
    ensures Sourced(sent + [p], q + [p],
                    read + if p.newConnection || p.body == [] then [] else [Chunk(p.uid, p.body)], wrote)
  {
    DataAppend(sent, p);
  }

  /** Taking a packet out of the channel, and possibly writing its body. */
  lemma TakeKeepsSourced(sent: seq<Packet>, q: seq<Packet>, read: seq<Chunk>, wrote: seq<Chunk>, i: nat)
    requires Sourced(sent, q, read, wrote) && i < |q|
    ensures Sourced(sent, Without(q, i), read, wrote)
    ensures !q[i].newConnection && q[i].body != [] ==>
              Sourced(sent, Without(q, i), read, wrote + [Chunk(q[i].uid, q[i].body)])
  {
    if !q[i].newConnection && q[i].body != [] {
      DataMember(sent, q[i]);
    }
  }

  lemma NextKeepsTables(ch: Channel, s: System, e: Event)
    requires TablesAgree(s) && Enabled(ch, s, e)
    ensures TablesAgree(Next(ch, s, e))
  {
    hide Registered, ParseAddress, FormatAddress, OpenFds;
    var c, v := s.client.state, s.server.state;
    match e
    case Accept(fd, dest) => AcceptKeepsRegistered(c, fd, dest);
    case ClientReads(fd, chunk) => ForwardKeepsRegistered(c.table, c.table.actions[fd].uid, chunk);
    case ServerReads(fd, chunk) => ForwardKeepsRegistered(v.table, v.table.actions[fd].uid, chunk);
    case ToServer(i, from, fd, connected) => ServerReceiveKeepsRegistered(v, from, s.upstream[i], fd, connected);
    case ToClient(i) => ClientReceiveKeepsRegistered(c, s.downstream[i]);
    case _ =>
  }

  lemma AcceptKeepsProvenance(ch: Channel, s: System, e: Event)
    requires Provenance(s) && Enabled(ch, s, e) && e.Accept?
    ensures Provenance(Next(ch, s, e))
  {
    hide ParseAddress, FormatAddress;
    AddressRoundTrip(e.dest);
    SendKeepsSourced(s.client.sent, s.upstream, s.client.read, s.server.wrote,
                     Packet(true, s.client.state.nextUid, FormatAddress(e.dest)));
    assert s.client.wrote + [] == s.client.wrote && s.client.read + [] == s.client.read;
  }

  lemma ClientReadsKeepsProvenance(ch: Channel, s: System, e: Event)
    requires Registered(s.client.state.table) && Provenance(s) && Enabled(ch, s, e) && e.ClientReads?
    ensures Provenance(Next(ch, s, e))
  {
    hide ParseAddress;
    var uid := s.client.state.table.actions[e.fd].uid;
    assert uid in s.client.state.table.connections;
    SendKeepsSourced(s.client.sent, s.upstream, s.client.read, s.server.wrote, Packet(false, uid, e.chunk));
    assert s.client.wrote + [] == s.client.wrote;
  }

  lemma ToClientKeepsProvenance(ch: Channel, s: System, e: Event)
    requires Provenance(s) && Enabled(ch, s, e) && e.ToClient?
    ensures Provenance(Next(ch, s, e))
  {
    hide ParseAddress;
    TakeKeepsSourced(s.server.sent, s.downstream, s.server.read, s.client.wrote, e.i);
    assert s.client.sent + [] == s.client.sent && s.client.read + [] == s.client.read && s.upstream + [] == s.upstream;
    assert s.client.wrote + [] == s.client.wrote;
  }

  /** What a packet adds to the server's logs. */
  lemma AfterPacketLogs(v: Side<ServerState>, from: Address, p: Packet, fd: Fd, connected: bool)
    ensures var v' := AfterPacket(v, from, p, fd, connected);
            var answer := Sent(ServerReceive(v.state, from, p, fd, connected));
            && v'.sent == v.sent + answer && (answer == [] || answer == [EofPacket(p.uid)])
            && v'.read == v.read
            && (v'.wrote == v.wrote
                || (!p.newConnection && p.body != [] && v'.wrote == v.wrote + [Chunk(p.uid, p.body)]))
  {
    assert v.sent + [] == v.sent && v.read + [] == v.read && v.wrote + [] == v.wrote;
  }

  lemma ServerReadsKeepsProvenance(ch: Channel, s: System, e: Event)
    requires Registered(s.server.state.table) && s.server.state.replyTo != NO_ADDRESS
    requires Provenance(s) && Enabled(ch, s, e) && e.ServerReads?
    ensures Provenance(Next(ch, s, e))
  {
    hide ParseAddress;
    var uid := s.server.state.table.actions[e.fd].uid;
    assert uid in s.server.state.table.connections;
    SendKeepsSourced(s.server.sent, s.downstream, s.server.read, s.client.wrote, Packet(false, uid, e.chunk));
    assert s.server.wrote + [] == s.server.wrote;
  }

  lemma ToServerKeepsProvenance(ch: Channel, s: System, e: Event)
    requires Provenance(s) && Enabled(ch, s, e) && e.ToServer?
    ensures Provenance(Next(ch, s, e))
  {
    hide ParseAddress, AfterPacket, ServerReceive, Data;
    var p := s.upstream[e.i];
    AfterPacketLogs(s.server, e.from, p, e.fd, e.connected);
    TakeKeepsSourced(s.client.sent, s.upstream, s.client.read, s.server.wrote, e.i);
    SendKeepsSourced(s.server.sent, s.downstream, s.server.read, s.client.wrote, EofPacket(p.uid));
    assert s.server.sent + [] == s.server.sent && s.server.read + [] == s.server.read;
    assert s.downstream + [] == s.downstream;
  }

  lemma NetworkEventKeepsProvenance(ch: Channel, s: System, e: Event)
    requires Provenance(s) && Enabled(ch, s, e)
    requires e.LoseUpstream? || e.LoseDownstream? || e.CopyUpstream? || e.CopyDownstream?
    ensures Provenance(Next(ch, s, e))
  {
    match e
    case LoseUpstream(i) => TakeKeepsSourced(s.client.sent, s.upstream, s.client.read, s.server.wrote, i);
    case LoseDownstream(i) => TakeKeepsSourced(s.server.sent, s.downstream, s.server.read, s.client.wrote, i);
    case _ =>
  }

  lemma AcceptKeepsUidsFresh(ch: Channel, s: System, e: Event)
    requires Registered(s.client.state.table) && UidsFresh(s)
    requires e.Accept? && Enabled(ch, s, e) && s.accepted < UID_SPACE
    ensures UidsFresh(Next(ch, s, e))
  {
    FreshFdIsUnregistered(s.client.state.table, e.fd);
    IssuedOnce(s.accepted, s.client.state.nextUid);
    forall u ensures Issued(s.accepted + 1, u) <==> Issued(s.accepted, u) || u == s.client.state.nextUid {
      IssuedOnce(s.accepted, u);
    }
  }

  lemma NextKeepsUidsFresh(ch: Channel, s: System, e: Event)
    requires TablesAgree(s) && UidsFresh(s) && Enabled(ch, s, e) && Next(ch, s, e).accepted <= UID_SPACE
    requires forall p <- s.downstream :: !p.newConnection
    ensures UidsFresh(Next(ch, s, e))
  {
    if e.Accept? {
      AcceptKeepsUidsFresh(ch, s, e);
    } else if e.ClientReads? {
      assert s.client.state.table.actions[e.fd].uid in s.client.state.table.connections;
    } else if e.ToClient? {
      assert s.client.sent + [] == s.client.sent;
    }
  }

  lemma NextKeepsSafe(ch: Channel, s: System, e: Event)
    requires Safe(s) && Enabled(ch, s, e)
    ensures Safe(Next(ch, s, e))
  {
    NextKeepsTables(ch, s, e);
    match e {
      case Accept(_, _) => AcceptKeepsProvenance(ch, s, e);
      case ClientReads(_, _) => ClientReadsKeepsProvenance(ch, s, e);
      case ToClient(_) => ToClientKeepsProvenance(ch, s, e);
      case ServerReads(fd, _) =>
        assert s.server.state.table.actions[fd].uid in s.server.state.table.connections;
        ServerReadsKeepsProvenance(ch, s, e);
      case ToServer(_, _, _, _) => ToServerKeepsProvenance(ch, s, e);
      case _ => NetworkEventKeepsProvenance(ch, s, e);
    }
    if Next(ch, s, e).accepted <= UID_SPACE {
      NextKeepsUidsFresh(ch, s, e);
    }
  }

  lemma {:induction false} RunKeepsSafe(ch: Channel, s: System, run: seq<Event>)
    requires Safe(s) && Possible(ch, s, run)
    ensures Safe(Run(ch, s, run))
    decreases |run|
  {
    if run != [] {
      NextKeepsSafe(ch, s, run[0]);
      RunKeepsSafe(ch, Next(ch, s, run[0]), run[1..]);
    }
  }

  lemma EveryRunIsSafe(ch: Channel, cf: map<Fd, Callback>, sf: map<Fd, Callback>, run: seq<Event>)
    requires Fixed(cf) && Fixed(sf) && Possible(ch, Init(cf, sf), run)
    ensures Safe(Run(ch, Init(cf, sf), run))
  {
    RunKeepsSafe(ch, Init(cf, sf), run);
  }

  /** No event touches the long-lived sockets. */
  lemma NextKeepsFixed(ch: Channel, s: System, e: Event)
    requires Enabled(ch, s, e)
    ensures Next(ch, s, e).client.state.table.fixed == s.client.state.table.fixed
    ensures Next(ch, s, e).server.state.table.fixed == s.server.state.table.fixed
  {
    hide ServerReceive, FormatAddress, Without, OpenFds, Closing, ReadOf, Replies, FirstOfUid;
    if e.ToServer? {
      ReceiveKeepsFixed(s.server.state, e.from, s.upstream[e.i], e.fd, e.connected);
    }
  }

  lemma ReceiveKeepsFixed(v: ServerState, from: Address, p: Packet, fd: Fd, connected: bool)
    ensures var o := ServerReceive(v, from, p, fd, connected); o.Ran? ==> o.state.table.fixed == v.table.fixed
  {
    hide ParseAddress;
  }

  lemma {:induction false} RunKeepsFixed(ch: Channel, s: System, run: seq<Event>)
    requires Possible(ch, s, run)
    ensures Run(ch, s, run).client.state.table.fixed == s.client.state.table.fixed
    ensures Run(ch, s, run).server.state.table.fixed == s.server.state.table.fixed
    decreases |run|
  {
    hide Next, Enabled;
    if run != [] {
      NextKeepsFixed(ch, s, run[0]);
      RunKeepsFixed(ch, Next(ch, s, run[0]), run[1..]);
    }
  }

  // ---------------------------------------------------------------------------------------
  // Main results, for any network

  /** In every reachable state, on both sides: connections have distinct fds, and the epoller's
      actions are the fixed sockets it began with plus one per connection, whatever fd numbers come
      back. */
  lemma RegistrationAgreement(ch: Channel, cf: map<Fd, Callback>, sf: map<Fd, Callback>, run: seq<Event>)
    requires Fixed(cf) && Fixed(sf) && Possible(ch, Init(cf, sf), run)
    ensures var s := Run(ch, Init(cf, sf), run);
            && Registered(s.client.state.table) && s.client.state.table.fixed == cf
            && Registered(s.server.state.table) && s.server.state.table.fixed == sf
  {
    EveryRunIsSafe(ch, cf, sf, run);
    RunKeepsFixed(ch, Init(cf, sf), run);
  }

  /** No cross-talk: every chunk written to a connection on one side is one non-empty chunk read
      from the connection with the same uid on the other side. */
  lemma NoCrossTalk(ch: Channel, cf: map<Fd, Callback>, sf: map<Fd, Callback>, run: seq<Event>)
    requires Fixed(cf) && Fixed(sf) && Possible(ch, Init(cf, sf), run)
    ensures var s := Run(ch, Init(cf, sf), run);
            && (forall c <- s.server.wrote :: c.bytes != [] && c in s.client.read)
            && (forall c <- s.client.wrote :: c.bytes != [] && c in s.server.read)
  {
    EveryRunIsSafe(ch, cf, sf, run);
  }

  /** The client never aborts before its uid counter has wrapped, and never gets an announcement;
      every announcement the server can get has an address that parses. */
  lemma ClientNeverAborts(ch: Channel, cf: map<Fd, Callback>, sf: map<Fd, Callback>, run: seq<Event>)
    requires Fixed(cf) && Fixed(sf) && Possible(ch, Init(cf, sf), run)
    ensures var s := Run(ch, Init(cf, sf), run);
            && (s.accepted <= UID_SPACE ==> s.client.up)
            && (forall p <- s.downstream :: !p.newConnection)
            && (forall p <- s.upstream | p.newConnection :: ParseAddress(p.body).Some?)
  {
    EveryRunIsSafe(ch, cf, sf, run);
  }

  /** A uid the client has closed is never in its connection map again. */
  lemma ClientNeverReopens(ch: Channel, cf: map<Fd, Callback>, sf: map<Fd, Callback>, run: seq<Event>)
    requires Fixed(cf) && Fixed(sf) && Possible(ch, Init(cf, sf), run)
    ensures var s := Run(ch, Init(cf, sf), run);
            s.accepted <= UID_SPACE ==> forall u <- s.client.closed :: u !in s.client.state.table.connections
  {
    EveryRunIsSafe(ch, cf, sf, run);
  }

  /** No send of the server is dropped for want of a reply address, and every data or
      end-of-stream datagram on either channel fits in 1400 bytes. */
  lemma EveryReplyIsSent(
    ch: Channel, cf: map<Fd, Callback>, sf: map<Fd, Callback>, run: seq<Event>, fd: Fd, chunk: seq<byte>)
    requires Fixed(cf) && Fixed(sf) && Possible(ch, Init(cf, sf), run)
    requires var s := Run(ch, Init(cf, sf), run); Enabled(ch, s, ServerReads(fd, chunk))
    ensures var s := Run(ch, Init(cf, sf), run);
            var uid := s.server.state.table.actions[fd].uid;
            && Next(ch, s, ServerReads(fd, chunk)).downstream == s.downstream + [Packet(false, uid, chunk)]
            && (forall p <- s.upstream + s.downstream | !p.newConnection :: |ToString(p)| <= DATAGRAM_LIMIT)
  {
    EveryRunIsSafe(ch, cf, sf, run);
    var s := Run(ch, Init(cf, sf), run);
    forall p | p in s.upstream + s.downstream && !p.newConnection
      ensures |ToString(p)| <= DATAGRAM_LIMIT
    {
      assert p in s.client.sent + s.server.sent;
      DatagramBound(p);
    }
  }
}
