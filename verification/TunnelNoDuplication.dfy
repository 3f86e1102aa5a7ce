/** What holds in every run of a network that may lose and reorder, but does not duplicate. */
module TunnelNoDuplication {
  import opened Wrappers
  import opened Text
  import opened SplitTcpPacket
  import opened SplitterSpec
  import opened Tunnel
  import opened TunnelSafety

  /** How many end-of-stream packets of `uid` a log holds. */
  function EofCount(ps: seq<Packet>, uid: Uid): nat {
    if ps == [] then 0 else EofCount(ps[..|ps| - 1], uid) + if ps[|ps| - 1] == EofPacket(uid) then 1 else 0
  }

  lemma EofCountAppend(ps: seq<Packet>, p: Packet, uid: Uid)
    ensures EofCount(ps + [p], uid) == EofCount(ps, uid) + if p == EofPacket(uid) then 1 else 0
  {
    assert (ps + [p])[..|ps|] == ps;
  }

  ghost predicate DistinctAnnouncements(q: seq<Packet>) {
    forall i, j | 0 <= i < j < |q| :: q[i].newConnection && q[j].newConnection ==> q[i].uid != q[j].uid
  }

  /** What the server has handled covers what it holds and what it has closed. */
  ghost predicate HandledCovers(server: Side<ServerState>) {
    && (forall u <- server.state.table.connections :: u in server.handled)
    && (forall u <- server.closed :: u in server.handled && u !in server.state.table.connections)
  }

  /** Each announcement travels once, ahead of any handling of its uid. */
  ghost predicate AnnouncedOnce(s: System) {
    && s.server.up
    && DistinctAnnouncements(s.upstream)
    && (forall p <- s.upstream | p.newConnection :: p.uid !in s.server.handled)
    && (forall u <- s.server.handled :: Issued(s.accepted, u))
    && HandledCovers(s.server)
  }

  ghost predicate OneEofOfClient(s: System, u: Uid) {
    && EofCount(s.client.sent, u) <= 1
    && (EofCount(s.client.sent, u) == 1 ==> Issued(s.accepted, u) && u !in s.client.state.table.connections)
  }

  ghost predicate OneEofOfServer(v: Side<ServerState>, u: Uid) {
    && EofCount(v.sent, u) <= 1
    && (EofCount(v.sent, u) == 1 ==> u in v.handled && u !in v.state.table.connections)
  }

  ghost predicate Undoubled(s: System) {
    && Safe(s)
    && (s.accepted <= UID_SPACE ==>
          && AnnouncedOnce(s)
          && (forall u: Uid :: OneEofOfClient(s, u))
          && (forall u: Uid :: OneEofOfServer(s.server, u)))
  }

  lemma WithoutKeepsDistinct(q: seq<Packet>, i: nat)
    requires DistinctAnnouncements(q) && i < |q|
    ensures DistinctAnnouncements(Without(q, i))
    ensures q[i].newConnection ==> forall p <- Without(q, i) | p.newConnection :: p.uid != q[i].uid
  {
    var r := Without(q, i);
    forall j | 0 <= j < |r|
      ensures r[j] == q[if j < i then j else j + 1]
    {
    }
  }

  lemma ReceiveKeepsHandled(v: Side<ServerState>, from: Address, p: Packet, fd: Fd, connected: bool)
    requires HandledCovers(v) && (p.newConnection ==> p.uid !in v.handled)
    requires ServerReceive(v.state, from, p, fd, connected).Ran?
    ensures HandledCovers(AfterPacket(v, from, p, fd, connected))
  {
  }

  lemma ToServerKeepsAnnouncedOnce(ch: Channel, s: System, e: Event)
    requires Registered(s.server.state.table) && AnnouncedOnce(s) && Enabled(ch, s, e) && e.ToServer?
    requires forall p <- s.upstream :: Issued(s.accepted, p.uid) && (p.newConnection ==> ParseAddress(p.body).Some?)
    ensures AnnouncedOnce(Next(ch, s, e))
  {
    var p := s.upstream[e.i];
    ServerAbortsIff(s.server.state, e.from, p, e.fd, e.connected, 0, []);
    WithoutKeepsDistinct(s.upstream, e.i);
    ReceiveKeepsHandled(s.server, e.from, p, e.fd, e.connected);
  }

  /** A packet that announces nothing, put into the channel or dropped. */
  lemma UpstreamKeepsAnnouncedOnce(s: System, s': System, p: Packet)
    requires AnnouncedOnce(s) && !p.newConnection && s'.server == s.server && s'.accepted == s.accepted
    requires s'.upstream == s.upstream || s'.upstream == s.upstream + [p]
    ensures AnnouncedOnce(s')
  {
  }

  lemma LossKeepsAnnouncedOnce(s: System, i: nat)
    requires AnnouncedOnce(s) && i < |s.upstream|
    ensures AnnouncedOnce(s.(upstream := Without(s.upstream, i)))
  {
    WithoutKeepsDistinct(s.upstream, i);
  }

  lemma ServerReadsKeepsAnnouncedOnce(ch: Channel, s: System, e: Event)
    requires Registered(s.server.state.table) && AnnouncedOnce(s) && Enabled(ch, s, e) && e.ServerReads?
    ensures AnnouncedOnce(Next(ch, s, e))
  {
    assert s.server.state.table.actions[e.fd].uid in s.server.state.table.connections;
  }

  lemma NextKeepsAnnouncedOnce(ch: Channel, s: System, e: Event)
    requires Safe(s) && UidsFresh(s) && AnnouncedOnce(s) && Enabled(ch, s, e) && !ch.Duplicating?
    requires Next(ch, s, e).accepted <= UID_SPACE
    ensures AnnouncedOnce(Next(ch, s, e))
  {
    var s' := Next(ch, s, e);
    match e
    case Accept(_, _) => AcceptKeepsAnnouncedOnce(ch, s, e);
    case ToServer(_, _, _, _) => ToServerKeepsAnnouncedOnce(ch, s, e);
    case ServerReads(_, _) => ServerReadsKeepsAnnouncedOnce(ch, s, e);
    case LoseUpstream(i) => LossKeepsAnnouncedOnce(s, i);
    case ClientReads(fd, chunk) =>
      UpstreamKeepsAnnouncedOnce(s, s', Packet(false, s.client.state.table.actions[fd].uid, chunk));
    case ToClient(i) =>
      assert s.upstream + [] == s.upstream;
      UpstreamKeepsAnnouncedOnce(s, s', EofPacket(s.downstream[i].uid));
    case LoseDownstream(i) =>
      UpstreamKeepsAnnouncedOnce(s, s', EofPacket(s.downstream[i].uid));
    case _ =>
  }

  lemma AcceptKeepsAnnouncedOnce(ch: Channel, s: System, e: Event)
    requires Safe(s) && UidsFresh(s) && AnnouncedOnce(s) && Enabled(ch, s, e) && e.Accept?
    requires s.accepted < UID_SPACE
    ensures AnnouncedOnce(Next(ch, s, e))
  {
    FreshFdIsUnregistered(s.client.state.table, e.fd);
    IssuedOnce(s.accepted, s.client.state.nextUid);
    assert forall p <- s.upstream :: p in s.client.sent;
    forall u | u in s.server.handled ensures Issued(s.accepted + 1, u) {
      IssuedOnce(s.accepted, u);
    }
  }

  lemma AcceptKeepsOneEofOfClient(ch: Channel, s: System, e: Event, u: Uid)
    requires Registered(s.client.state.table) && UidsFresh(s) && OneEofOfClient(s, u)
    requires e.Accept? && Enabled(ch, s, e) && s.accepted < UID_SPACE
    ensures OneEofOfClient(Next(ch, s, e), u)
  {
    FreshFdIsUnregistered(s.client.state.table, e.fd);
    IssuedOnce(s.accepted, u);
    EofCountAppend(s.client.sent, Packet(true, s.client.state.nextUid, FormatAddress(e.dest)), u);
  }

  lemma ClientReadsKeepsOneEofOfClient(ch: Channel, s: System, e: Event, u: Uid)
    requires Registered(s.client.state.table) && UidsFresh(s) && OneEofOfClient(s, u)
    requires e.ClientReads? && Enabled(ch, s, e)
    ensures OneEofOfClient(Next(ch, s, e), u)
  {
    var uid := s.client.state.table.actions[e.fd].uid;
    assert uid in s.client.state.table.connections;
    EofCountAppend(s.client.sent, Packet(false, uid, e.chunk), u);
  }

  lemma NextKeepsOneEofOfClient(ch: Channel, s: System, e: Event, u: Uid)
    requires Registered(s.client.state.table) && UidsFresh(s) && OneEofOfClient(s, u) && Enabled(ch, s, e)
    requires Next(ch, s, e).accepted <= UID_SPACE
    ensures OneEofOfClient(Next(ch, s, e), u)
  {
    match e
    case Accept(_, _) => AcceptKeepsOneEofOfClient(ch, s, e, u);
    case ClientReads(_, _) => ClientReadsKeepsOneEofOfClient(ch, s, e, u);
    case ToClient(i) => assert s.client.sent + [] == s.client.sent;
    case _ =>
  }

  lemma PacketKeepsOneEofOfServer(v: Side<ServerState>, from: Address, p: Packet, fd: Fd, connected: bool, u: Uid)
    requires HandledCovers(v) && OneEofOfServer(v, u)
    requires p.newConnection ==> p.uid !in v.handled
    ensures OneEofOfServer(AfterPacket(v, from, p, fd, connected), u)
  {
    EofCountAppend(v.sent, EofPacket(p.uid), u);
    assert v.sent + [] == v.sent;
  }

  lemma NextKeepsOneEofOfServer(ch: Channel, s: System, e: Event, u: Uid)
    requires TablesAgree(s) && AnnouncedOnce(s) && OneEofOfServer(s.server, u) && Enabled(ch, s, e)
    ensures OneEofOfServer(Next(ch, s, e).server, u)
  {
    match e
    case ServerReads(fd, chunk) =>
      var uid := s.server.state.table.actions[fd].uid;
      assert uid in s.server.state.table.connections;
      EofCountAppend(s.server.sent, Packet(false, uid, chunk), u);
    case ToServer(i, from, fd, connected) =>
      PacketKeepsOneEofOfServer(s.server, from, s.upstream[i], fd, connected, u);
    case _ =>
  }

  lemma NextKeepsUndoubled(ch: Channel, s: System, e: Event)
    requires Undoubled(s) && Enabled(ch, s, e) && !ch.Duplicating?
    ensures Undoubled(Next(ch, s, e))
  {
    NextKeepsSafe(ch, s, e);
    var s' := Next(ch, s, e);
    if s'.accepted <= UID_SPACE {
      NextKeepsAnnouncedOnce(ch, s, e);
      forall u: Uid ensures OneEofOfClient(s', u) { NextKeepsOneEofOfClient(ch, s, e, u); }
      forall u: Uid ensures OneEofOfServer(s'.server, u) { NextKeepsOneEofOfServer(ch, s, e, u); }
    }
  }

  lemma {:induction false} RunKeepsUndoubled(ch: Channel, s: System, run: seq<Event>)
    requires Undoubled(s) && Possible(ch, s, run) && !ch.Duplicating?
    ensures Undoubled(Run(ch, s, run))
    decreases |run|
  {
    if run != [] {
      NextKeepsUndoubled(ch, s, run[0]);
      RunKeepsUndoubled(ch, Next(ch, s, run[0]), run[1..]);
    }
  }

  lemma EveryRunIsUndoubled(ch: Channel, cf: map<Fd, Callback>, sf: map<Fd, Callback>, run: seq<Event>)
    requires Fixed(cf) && Fixed(sf) && Possible(ch, Init(cf, sf), run) && !ch.Duplicating?
    ensures Undoubled(Run(ch, Init(cf, sf), run))
  {
    RunKeepsUndoubled(ch, Init(cf, sf), run);
  }

  // ---------------------------------------------------------------------------------------
  // Main results

  /** No assert fails in either process, under loss and any reordering. */
  lemma NoAssertFails(ch: Channel, cf: map<Fd, Callback>, sf: map<Fd, Callback>, run: seq<Event>)
    requires Fixed(cf) && Fixed(sf) && Possible(ch, Init(cf, sf), run) && !ch.Duplicating?
    ensures var s := Run(ch, Init(cf, sf), run);
            s.accepted <= UID_SPACE ==>
              && s.client.up && s.server.up
              && forall p <- s.upstream | p.newConnection :: p.uid !in s.server.state.table.connections
  {
    EveryRunIsUndoubled(ch, cf, sf, run);
  }

  /** Over a whole run each side sends at most one end-of-stream packet for a uid, refused
      connects included, and once it has sent one it does not hold the uid any more. */
  lemma AtMostOneEof(ch: Channel, cf: map<Fd, Callback>, sf: map<Fd, Callback>, run: seq<Event>, u: Uid)
    requires Fixed(cf) && Fixed(sf) && Possible(ch, Init(cf, sf), run) && !ch.Duplicating?
    ensures var s := Run(ch, Init(cf, sf), run);
            s.accepted <= UID_SPACE ==>
              && EofCount(s.client.sent, u) <= 1 && EofCount(s.server.sent, u) <= 1
              && (EofCount(s.client.sent, u) == 1 ==> u !in s.client.state.table.connections)
              && (EofCount(s.server.sent, u) == 1 ==> u !in s.server.state.table.connections)
  {
    hide Next;
    EveryRunIsUndoubled(ch, cf, sf, run);
    var s := Run(ch, Init(cf, sf), run);
    if s.accepted <= UID_SPACE {
      assert OneEofOfClient(s, u) && OneEofOfServer(s.server, u);
    }
  }

  /** A uid that a side has closed never reappears on that side. */
  lemma ClosedStaysClosed(ch: Channel, cf: map<Fd, Callback>, sf: map<Fd, Callback>, run: seq<Event>)
    requires Fixed(cf) && Fixed(sf) && Possible(ch, Init(cf, sf), run) && !ch.Duplicating?
    ensures var s := Run(ch, Init(cf, sf), run);
            s.accepted <= UID_SPACE ==>
              && (forall u <- s.client.closed :: u !in s.client.state.table.connections)
              && (forall u <- s.server.closed :: u !in s.server.state.table.connections)
  {
    hide Next;
    EveryRunIsUndoubled(ch, cf, sf, run);
  }
}
