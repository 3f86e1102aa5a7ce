/** The two processes and the network together: whatever way their events interleave, what the
    client and the server do is a run of module Tunnel, so its theorems hold of the sockets. */
module SplitterRuns {
  import opened Wrappers
  import opened Text
  import opened SplitTcpPacket
  import opened FileDescriptors
  import opened SplitterSpec
  import opened Tunnel
  import opened TunnelSafety
  import opened TunnelNoDuplication
  import opened TunnelInOrder
  import opened SplitterAddresses
  import opened SplitterClients
  import opened SplitterServers
  import opened Connections

  /** One event of one process, or one act of the network. `i` is the place in its channel of the
      datagram that a tunnel socket's callback reads. */
  datatype Step =
    | OfClient(call: Call, i: nat)
    | OfServer(call: Call, i: nat)
    | OfNetwork(event: Event)

  /** What the kernel can answer to an event of the client: a new socket's fd is not open, a read of
      the tunnel socket gets a datagram that is in the channel, and a forwarding read returns no
      more than it was asked for. */
  predicate FitsClient(ch: Channel, s: System, call: Call, i: nat) {
    var t, r := s.client.state.table, call.reply;
    && s.client.up
    && (call.fd in t.actions ==>
          match t.actions[call.fd]
          case AcceptReady => r.fd !in OpenFds(t)
          case TunnelReady =>
            && i < |s.downstream| && (ch.InOrder? ==> FirstOfUid(s.downstream, i))
            && r.datagram == Truncated(ToString(s.downstream[i]))
          case ConnectionReady(_) => |r.chunk| <= READ_LIMIT)
  }

  /** The same for the server, which has no listener. */
  predicate FitsServer(ch: Channel, s: System, call: Call, i: nat) {
    var t, r := s.server.state.table, call.reply;
    && s.server.up
    && (call.fd in t.actions ==>
          match t.actions[call.fd]
          case AcceptReady => false
          case TunnelReady =>
            && i < |s.upstream| && (ch.InOrder? ==> FirstOfUid(s.upstream, i))
            && r.datagram == ToString(s.upstream[i]) && r.from != NO_ADDRESS && r.fd !in OpenFds(t)
          case ConnectionReady(_) => |r.chunk| <= READ_LIMIT)
  }

  predicate ByNetwork(e: Event) { e.LoseUpstream? || e.LoseDownstream? || e.CopyUpstream? || e.CopyDownstream? }

  predicate Fits(ch: Channel, s: System, step: Step) {
    match step
    case OfClient(call, i) => FitsClient(ch, s, call, i)
    case OfServer(call, i) => FitsServer(ch, s, call, i)
    case OfNetwork(e) => ByNetwork(e) && Enabled(ch, s, e)
  }

  /** The event of module Tunnel that a step is; none for an event whose action is gone. */
  function EventOf(s: System, step: Step): Option<Event> {
    match step
    case OfNetwork(e) => Some(e)
    case OfClient(call, i) =>
      var actions := s.client.state.table.actions;
      if call.fd !in actions then None
      else
        (match actions[call.fd]
         case AcceptReady => Some(Accept(call.reply.fd, call.reply.dest))
         case TunnelReady => Some(ToClient(i))
         case ConnectionReady(_) => Some(ClientReads(call.fd, call.reply.chunk)))
    case OfServer(call, i) =>
      var actions := s.server.state.table.actions;
      if call.fd !in actions then None
      else
        (match actions[call.fd]
         case AcceptReady => None
         case TunnelReady => Some(ToServer(i, call.reply.from, call.reply.fd, call.reply.connected))
         case ConnectionReady(_) => Some(ServerReads(call.fd, call.reply.chunk)))
  }

  function Play(ch: Channel, s: System, step: Step): System
    requires Fits(ch, s, step)
  {
    match EventOf(s, step)
    case None => s
    case Some(e) => Next(ch, s, e)
  }

  /** The steps can happen one after the other. */
  predicate Fitting(ch: Channel, s: System, steps: seq<Step>)
    decreases |steps|, 0
  {
    steps == [] ||
    (var n := |steps| - 1;
     Fitting(ch, s, steps[..n]) && Fits(ch, Played(ch, s, steps[..n]), steps[n]))
  }

  function Played(ch: Channel, s: System, steps: seq<Step>): System
    requires Fitting(ch, s, steps)
    decreases |steps|, 1
  {
    if steps == [] then s
    else
      var n := |steps| - 1;
      Play(ch, Played(ch, s, steps[..n]), steps[n])
  }

  function EventsOf(ch: Channel, s: System, steps: seq<Step>): seq<Event>
    requires Fitting(ch, s, steps)
  {
    if steps == [] then []
    else
      var n := |steps| - 1;
      EventsOf(ch, s, steps[..n])
      + match EventOf(Played(ch, s, steps[..n]), steps[n])
        case None => []
        case Some(e) => [e]
  }

  /** The client's own events. */
  function ClientCalls(steps: seq<Step>): seq<Call> {
    if steps == [] then []
    else
      var n := |steps| - 1;
      ClientCalls(steps[..n]) + if steps[n].OfClient? then [steps[n].call] else []
  }

  function ServerCalls(steps: seq<Step>): seq<Call> {
    if steps == [] then []
    else
      var n := |steps| - 1;
      ServerCalls(steps[..n]) + if steps[n].OfServer? then [steps[n].call] else []
  }

  // ---------------------------------------------------------------------------------------
  // One step

  /** A side of the tunnel is where a process's own events take it. */
  ghost predicate AtBatch<S>(side: Side<S>, b: Option<Batch<S>>) {
    && (side.up <==> b.Some?)
    && (b.Some? ==> Batch(side.state, side.sent, side.read, side.wrote) == b.value)
  }

  lemma AfterIsThen<S>(side: Side<S>, o: Outcome<S>, read: seq<Chunk>, cause: Cause, b: Batch<S>)
    requires AtBatch(side, Some(b))
    ensures AtBatch(After(side, o, read, cause), Then(b, o, read))
  {
  }

  /** The 1 MiB buffer never cuts a datagram of the server. */
  lemma NothingIsTruncated(s: System, p: Packet)
    requires Safe(s) && p in s.downstream
    ensures Truncated(ToString(p)) == ToString(p)
  {
    assert p in s.server.sent;
    DatagramBound(p);
  }

  /** An event of the client, on the datagram of a packet in the channel, is the event of the
      tunnel that takes the packet; and so for accepts and forwarding reads. */
  lemma ClientStepIsEvent(ch: Channel, s: System, call: Call, i: nat, b: Batch<ClientState>)
    requires Safe(s) && FitsClient(ch, s, call, i) && AtBatch(s.client, Some(b))
    ensures var s' := Play(ch, s, OfClient(call, i));
            && s'.server == s.server
            && AtBatch(s'.client, Then(b, ClientEvent(b.state, call), ReadBy(b.state.table, call)))
  {
    hide After, Then, AtBatch, Registered, ToString, Parse, ClientAccept, ClientReceive, ClientForward, Safe;
    var t := s.client.state.table;
    AfterIsThen(s.client, ClientEvent(b.state, call), ReadBy(t, call), LocalEof, b);
    AfterIsThen(s.client, ClientEvent(b.state, call), ReadBy(t, call), RemoteEof, b);
    SameState(s.client, b);
    if call.fd !in t.actions {
      AfterNothing(s.client);
    } else if t.actions[call.fd].TunnelReady? {
      NothingIsTruncated(s, s.downstream[i]);
      ParseToString(s.downstream[i]);
    }
  }

  lemma SameState<S>(side: Side<S>, b: Batch<S>)
    requires AtBatch(side, Some(b))
    ensures side.state == b.state
  {
  }

  lemma AfterNothing<S>(side: Side<S>)
    ensures After(side, Ran(side.state, [], [], None), [], LocalEof) == side
  {
    assert side.sent + [] == side.sent && side.read + [] == side.read && side.wrote + [] == side.wrote;
  }

  lemma ServerStepIsEvent(ch: Channel, s: System, call: Call, i: nat, b: Batch<ServerState>)
    requires Safe(s) && FitsServer(ch, s, call, i) && AtBatch(s.server, Some(b))
    ensures var s' := Play(ch, s, OfServer(call, i));
            && s'.client == s.client
            && AtBatch(s'.server, Then(b, ServerEvent(b.state, call), ReadBy(b.state.table, call)))
  {
    hide After, Then, AtBatch, Registered, ToString, Parse, ServerReceive, ServerForward, Safe;
    var t := s.server.state.table;
    AfterIsThen(s.server, ServerEvent(b.state, call), ReadBy(t, call), LocalEof, b);
    AfterIsThen(s.server, ServerEvent(b.state, call), ReadBy(t, call), RemoteEof, b);
    SameState(s.server, b);
    if call.fd !in t.actions {
      AfterNothing(s.server);
    } else if t.actions[call.fd].TunnelReady? {
      ParseToString(s.upstream[i]);
      HandledDoesNotMatter(s.server, call.reply.from, s.upstream[i], call.reply.fd, call.reply.connected, b);
    }
  }

  lemma HandledDoesNotMatter(
    v: Side<ServerState>, from: Address, p: Packet, fd: Fd, connected: bool, b: Batch<ServerState>)
    requires AtBatch(v, Some(b))
    ensures AtBatch(AfterPacket(v, from, p, fd, connected), Then(b, ServerReceive(b.state, from, p, fd, connected), []))
  {
    hide ServerReceive;
  }

  // ---------------------------------------------------------------------------------------
  // Whole runs

  /** A schedule is a run of the tunnel. */
  lemma {:induction false} ScheduleIsRun(ch: Channel, s: System, steps: seq<Step>)
    requires Fitting(ch, s, steps)
    ensures Possible(ch, s, EventsOf(ch, s, steps))
    ensures Run(ch, s, EventsOf(ch, s, steps)) == Played(ch, s, steps)
  {
    hide Next, Enabled;
    if steps != [] {
      var n := |steps| - 1;
      var before := Played(ch, s, steps[..n]);
      ScheduleIsRun(ch, s, steps[..n]);
      match EventOf(before, steps[n])
      case None => assert EventsOf(ch, s, steps) == EventsOf(ch, s, steps[..n]);
      case Some(e) =>
        EventIsEnabled(ch, before, steps[n]);
        Extend(ch, s, EventsOf(ch, s, steps[..n]), e);
    }
  }

  lemma EventIsEnabled(ch: Channel, s: System, step: Step)
    requires Fits(ch, s, step) && EventOf(s, step).Some?
    ensures Enabled(ch, s, EventOf(s, step).value)
  {
  }

  lemma StepKeepsProduct(
    ch: Channel, s: System, step: Step, c: ClientState, v: ServerState, mine: seq<Call>, theirs: seq<Call>)
    requires Safe(s) && Fits(ch, s, step)
    requires AtBatch(s.client, ClientBatch(c, mine)) && AtBatch(s.server, ServerBatch(v, theirs))
    ensures var s' := Play(ch, s, step);
            && AtBatch(s'.client, ClientBatch(c, mine + if step.OfClient? then [step.call] else []))
            && AtBatch(s'.server, ServerBatch(v, theirs + if step.OfServer? then [step.call] else []))
  {
    hide Next, Safe, ClientEvent, ServerEvent, ReadBy, Then, Play, ClientBatch, ServerBatch;
    assert mine + [] == mine && theirs + [] == theirs;
    match step
    case OfClient(call, i) =>
      ClientStepIsEvent(ch, s, call, i, ClientBatch(c, mine).value);
      ClientBatchExtends(c, mine, call);
    case OfServer(call, i) =>
      ServerStepIsEvent(ch, s, call, i, ServerBatch(v, theirs).value);
      ServerBatchExtends(v, theirs, call);
    case OfNetwork(e) =>
      NetworkLeavesProcesses(ch, s, e);
  }

  /** The tunnel is the product of its two processes: however their events interleave with each
      other and with the network, each side is where its own events alone take it. */
  lemma {:induction false} ScheduleIsProduct(
    ch: Channel, cf: map<Fd, Callback>, sf: map<Fd, Callback>, steps: seq<Step>)
    requires Fixed(cf) && Fixed(sf) && Fitting(ch, Init(cf, sf), steps)
    ensures var s := Played(ch, Init(cf, sf), steps);
            && AtBatch(s.client, ClientBatch(Init(cf, sf).client.state, ClientCalls(steps)))
            && AtBatch(s.server, ServerBatch(Init(cf, sf).server.state, ServerCalls(steps)))
  {
    hide Next, Safe, ClientEvent, ServerEvent, ReadBy, Then, Play, Fits, EventOf, Run, Possible;
    if steps != [] {
      var n, s0 := |steps| - 1, Init(cf, sf);
      ScheduleIsProduct(ch, cf, sf, steps[..n]);
      ScheduleIsRun(ch, s0, steps[..n]);
      EveryRunIsSafe(ch, cf, sf, EventsOf(ch, s0, steps[..n]));
      StepKeepsProduct(ch, Played(ch, s0, steps[..n]), steps[n], s0.client.state, s0.server.state,
                       ClientCalls(steps[..n]), ServerCalls(steps[..n]));
    }
  }

  lemma NetworkLeavesProcesses(ch: Channel, s: System, e: Event)
    requires ByNetwork(e) && Fits(ch, s, OfNetwork(e))
    ensures Play(ch, s, OfNetwork(e)).client == s.client && Play(ch, s, OfNetwork(e)).server == s.server
  {
  }

  // ---------------------------------------------------------------------------------------
  // Where connections lead

  /** A connection that was accepted for `dest` is announced with the text of `dest`. */
  ghost predicate AnnouncesWhatIsMeant(sent: seq<Packet>, c: ClientState, mine: seq<Call>) {
    forall p <- sent | p.newConnection ::
      && MeantFor(c, mine, p.uid).Some?
      && p.body == FormatAddress(MeantFor(c, mine, p.uid).value)
  }

  /** Only an accept sends an announcement, of a uid that none was sent for before. */
  lemma ClientStepSends(ch: Channel, s: System, call: Call, i: nat)
    requires Safe(s) && FitsClient(ch, s, call, i)
    ensures var s' := Play(ch, s, OfClient(call, i));
            var uid := s.client.state.nextUid;
            && s'.accepted >= s.accepted
            && (forall p <- s'.client.sent | p.newConnection && p !in s.client.sent ::
                  IsAccept(s.client.state, call) && p == Packet(true, uid, FormatAddress(call.reply.dest)))
            && (IsAccept(s.client.state, call) && s'.accepted <= UID_SPACE ==>
                  forall p <- s.client.sent :: p.uid != uid)
  {
    hide FormatAddress, ToString, Parse, Registered;
    if IsAccept(s.client.state, call) && s.accepted < UID_SPACE {
      IssuedOnce(s.accepted, s.client.state.nextUid);
    }
  }

  lemma ClientStepAnnounces(ch: Channel, s: System, call: Call, i: nat, c: ClientState, mine: seq<Call>)
    requires Safe(s) && FitsClient(ch, s, call, i) && AtBatch(s.client, ClientBatch(c, mine))
    requires AnnouncesWhatIsMeant(s.client.sent, c, mine)
    ensures var s' := Play(ch, s, OfClient(call, i));
            && s'.accepted >= s.accepted
            && (s'.accepted <= UID_SPACE ==> AnnouncesWhatIsMeant(s'.client.sent, c, mine + [call]))
  {
    hide Play, Safe, IsAccept, ClientBatch, MeantFor, FormatAddress;
    var s' := Play(ch, s, OfClient(call, i));
    ClientStepSends(ch, s, call, i);
    if s'.accepted <= UID_SPACE {
      forall p | p in s'.client.sent && p.newConnection
        ensures MeantFor(c, mine + [call], p.uid).Some?
        ensures p.body == FormatAddress(MeantFor(c, mine + [call], p.uid).value)
      {
        MeantForExtends(c, mine, call, p.uid);
      }
    }
  }

  /** Every address that the server was asked to connect to is one that the client announced. */
  ghost predicate OpensWhatIsAnnounced(sent: seq<Packet>, v: ServerState, theirs: seq<Call>) {
    forall u: Uid | OpenedTo(v, theirs, u).Some? ::
      exists p <- sent :: p.newConnection && p.uid == u && ParseAddress(p.body) == OpenedTo(v, theirs, u)
  }

  lemma ServerStepOpens(ch: Channel, s: System, call: Call, i: nat, v: ServerState, theirs: seq<Call>)
    requires Safe(s) && FitsServer(ch, s, call, i) && AtBatch(s.server, ServerBatch(v, theirs))
    requires OpensWhatIsAnnounced(s.client.sent, v, theirs)
    ensures OpensWhatIsAnnounced(s.client.sent, v, theirs + [call])
  {
    hide ServerBatch, OpenedTo, ParseAddress, ToString, Parse;
    if IsTunnel(s.server.state, call) {
      ParseToString(s.upstream[i]);
      assert s.upstream[i] in s.client.sent;
    }
    forall u: Uid | OpenedTo(v, theirs + [call], u).Some?
      ensures exists p <- s.client.sent ::
                p.newConnection && p.uid == u && ParseAddress(p.body) == OpenedTo(v, theirs + [call], u)
    {
      OpenedToExtends(v, theirs, call, u);
      match AnnouncementIn(s.server.state, call)
      case None =>
      case Some(p) => assert p == s.upstream[i];
    }
  }

  /** More packets sent leave what was announced. */
  lemma SendingKeepsOpens(sent: seq<Packet>, more: seq<Packet>, v: ServerState, theirs: seq<Call>)
    requires OpensWhatIsAnnounced(sent, v, theirs) && forall p <- sent :: p in more
    ensures OpensWhatIsAnnounced(more, v, theirs)
  {
  }

  lemma PlayOnlySends(ch: Channel, s: System, step: Step)
    requires Fits(ch, s, step)
    ensures var s' := Play(ch, s, step);
            && s.accepted <= s'.accepted
            && (forall p <- s.client.sent :: p in s'.client.sent)
            && (step.OfClient? || s'.client.sent == s.client.sent)
  {
  }

  lemma StepKeepsAddresses(
    ch: Channel, s: System, step: Step, c: ClientState, v: ServerState, mine: seq<Call>, theirs: seq<Call>)
    requires Safe(s) && Fits(ch, s, step)
    requires AtBatch(s.client, ClientBatch(c, mine)) && AtBatch(s.server, ServerBatch(v, theirs))
    requires AnnouncesWhatIsMeant(s.client.sent, c, mine) && OpensWhatIsAnnounced(s.client.sent, v, theirs)
    ensures var s' := Play(ch, s, step);
            && s.accepted <= s'.accepted
            && (s'.accepted <= UID_SPACE ==>
                  && AnnouncesWhatIsMeant(s'.client.sent, c, mine + if step.OfClient? then [step.call] else [])
                  && OpensWhatIsAnnounced(s'.client.sent, v, theirs + if step.OfServer? then [step.call] else []))
  {
    hide Next, Safe, Play, ClientBatch, ServerBatch, AnnouncesWhatIsMeant, OpensWhatIsAnnounced;
    assert mine + [] == mine && theirs + [] == theirs;
    PlayOnlySends(ch, s, step);
    match step
    case OfClient(call, i) =>
      ClientStepAnnounces(ch, s, call, i, c, mine);
      SendingKeepsOpens(s.client.sent, Play(ch, s, step).client.sent, v, theirs);
    case OfServer(call, i) =>
      ServerStepOpens(ch, s, call, i, v, theirs);
    case OfNetwork(e) =>
  }

  lemma {:induction false} ScheduleKeepsAddresses(
    ch: Channel, cf: map<Fd, Callback>, sf: map<Fd, Callback>, steps: seq<Step>)
    requires Fixed(cf) && Fixed(sf) && Fitting(ch, Init(cf, sf), steps)
    requires Played(ch, Init(cf, sf), steps).accepted <= UID_SPACE
    ensures var s := Played(ch, Init(cf, sf), steps);
            && AnnouncesWhatIsMeant(s.client.sent, Init(cf, sf).client.state, ClientCalls(steps))
            && OpensWhatIsAnnounced(s.client.sent, Init(cf, sf).server.state, ServerCalls(steps))
  {
    hide Next, Safe, Play, Fits, Run, Possible, ClientBatch, ServerBatch;
    if steps != [] {
      var n, s0 := |steps| - 1, Init(cf, sf);
      var s := Played(ch, s0, steps[..n]);
      ScheduleIsProduct(ch, cf, sf, steps[..n]);
      ScheduleIsRun(ch, s0, steps[..n]);
      EveryRunIsSafe(ch, cf, sf, EventsOf(ch, s0, steps[..n]));
      PlayOnlySends(ch, s, steps[n]);
      ScheduleKeepsAddresses(ch, cf, sf, steps[..n]);
      StepKeepsAddresses(ch, s, steps[n], s0.client.state, s0.server.state,
                         ClientCalls(steps[..n]), ServerCalls(steps[..n]));
    }
  }

  // ---------------------------------------------------------------------------------------
  // The processes themselves

  ghost function Beginning(client: SplitterClient, server: SplitterServer): System {
    Init(client.Initial().table.fixed, server.Initial().table.fixed)
  }

  /** The two processes have lived through these steps: each has handled its own events among them,
      in order, and nothing else. */
  ghost predicate Lived(ch: Channel, client: SplitterClient, server: SplitterServer, steps: seq<Step>)
    reads client`history, server`history
  {
    && client.listener.num != client.tunnel.num
    && Fitting(ch, Beginning(client, server), steps)
    && client.history == ClientCalls(steps)
    && server.history == ServerCalls(steps)
  }

  /** The maps, the datagrams sent, and the bytes that went through the sockets of the two processes
      are those of a run of the tunnel. */
  lemma ProcessesAreInRun(ch: Channel, client: SplitterClient, server: SplitterServer, steps: seq<Step>, u: Uid)
    returns (run: seq<Event>)
    requires client.Valid() && server.Valid() && Lived(ch, client, server, steps)
    ensures var s0 := Beginning(client, server);
            && Possible(ch, s0, run) && Run(ch, s0, run) == Played(ch, s0, steps)
            && var s := Played(ch, s0, steps);
            && s.client.up && s.client.state == client.State()
            && s.server.up && s.server.state == server.State()
            && client.tunnel.sent == Datagrams(s.client.sent) && server.tunnel.sent == Datagrams(s.server.sent)
            && client.conns.Received(u) == Stream(s.client.read, u)
            && client.conns.Output(u) == Stream(s.client.wrote, u)
            && server.conns.Received(u) == Stream(s.server.read, u)
            && server.conns.Output(u) == Stream(s.server.wrote, u)
            && client.conns.connections.Keys == s.client.state.table.connections.Keys
            && server.conns.connections.Keys == s.server.state.table.connections.Keys
  {
    hide Next, Run, Possible, Play, Played, Fitting, ClientBatch, ServerBatch;
    var s0 := Beginning(client, server);
    run := EventsOf(ch, s0, steps);
    ScheduleIsRun(ch, s0, steps);
    ScheduleIsProduct(ch, client.Initial().table.fixed, server.Initial().table.fixed, steps);
  }

  /** Stream integrity of the processes: over a network that keeps each connection's datagrams in
      order, whatever the kernel does and however polls interleave, the bytes put out by the sockets
      of a uid on one side are a prefix of the bytes received by its sockets on the other; while
      the receiving side holds the uid, what is missing is in flight. */
  lemma SocketsCarryStreams(client: SplitterClient, server: SplitterServer, steps: seq<Step>, u: Uid)
    requires client.Valid() && server.Valid() && Lived(InOrder, client, server, steps)
    ensures var s := Played(InOrder, Beginning(client, server), steps);
            s.accepted <= UID_SPACE ==>
              && server.conns.Output(u) <= client.conns.Received(u)
              && client.conns.Output(u) <= server.conns.Received(u)
              && (u in server.conns.connections ==>
                    client.conns.Received(u) == server.conns.Output(u) + Bodies(ForUid(s.upstream, u)))
              && (u in client.conns.connections ==>
                    server.conns.Received(u) == client.conns.Output(u) + Bodies(ForUid(s.downstream, u)))
  {
    hide Next, Run, Possible, Played, Fitting, SplitterClient.Valid, SplitterServer.Valid;
    var run := ProcessesAreInRun(InOrder, client, server, steps, u);
    StreamIntegrity(client.Initial().table.fixed, server.Initial().table.fixed, run, u);
  }

  /** Whenever both channels are empty, the two connection maps hold the same uids, and their sockets
      have put out exactly what the other side's have received. */
  lemma ProcessesAgree(client: SplitterClient, server: SplitterServer, steps: seq<Step>)
    requires client.Valid() && server.Valid() && Lived(InOrder, client, server, steps)
    requires var s := Played(InOrder, Beginning(client, server), steps);
             s.accepted <= UID_SPACE && s.upstream == [] && s.downstream == []
    ensures client.conns.connections.Keys == server.conns.connections.Keys
    ensures forall u <- client.conns.connections ::
              && server.conns.Output(u) == client.conns.Received(u)
              && client.conns.Output(u) == server.conns.Received(u)
  {
    hide Next, Run, Possible, Played, Fitting, SplitterClient.Valid, SplitterServer.Valid;
    var run := ProcessesAreInRun(InOrder, client, server, steps, 0);
    AgreementAtQuiescence(client.Initial().table.fixed, server.Initial().table.fixed, run);
    forall u | u in client.conns.connections
      ensures server.conns.Output(u) == client.conns.Received(u)
      ensures client.conns.Output(u) == server.conns.Received(u)
    {
      var _ := ProcessesAreInRun(InOrder, client, server, steps, u);
    }
  }

  /** On any network, every connection the server holds leads to the original destination of the
      connection that the client accepted with its uid. */
  lemma ConnectionsLeadWhereMeant(
    ch: Channel, client: SplitterClient, server: SplitterServer, steps: seq<Step>, u: Uid)
    requires client.Valid() && server.Valid() && Lived(ch, client, server, steps)
    requires Played(ch, Beginning(client, server), steps).accepted <= UID_SPACE
    ensures u in server.conns.connections ==>
              MeantFor(client.Initial(), client.history, u) == Some(server.conns.connections[u].address)
    ensures u in server.conns.connections && u in client.conns.connections ==>
              server.conns.connections[u].address == client.conns.connections[u].address
  {
    hide Next, Played, Fitting, ClientBatch, ServerBatch, MeantFor, OpenedTo, FormatAddress, ParseAddress;
    var cf, sf := client.Initial().table.fixed, server.Initial().table.fixed;
    ScheduleKeepsAddresses(ch, cf, sf, steps);
    if u in server.conns.connections {
      var sent := Played(ch, Beginning(client, server), steps).client.sent;
      var p :| p in sent && p.newConnection && p.uid == u
               && ParseAddress(p.body) == OpenedTo(server.Initial(), server.history, u);
      AddressRoundTrip(MeantFor(client.Initial(), client.history, u).value);
    }
  }

  /** On a network that does not duplicate, no event ever stops a process: with the contracts of the
      two Poll methods, no assert fails and nothing is thrown unless the kernel refuses a write. */
  lemma NoEventStopsAProcess(ch: Channel, client: SplitterClient, server: SplitterServer, steps: seq<Step>)
    requires Lived(ch, client, server, steps) && !ch.Duplicating?
    requires Played(ch, Beginning(client, server), steps).accepted <= UID_SPACE
    ensures client.Lifetime().Some? && server.Lifetime().Some?
  {
    hide Next, Run, Possible, Played, Fitting;
    var cf, sf := client.Initial().table.fixed, server.Initial().table.fixed;
    ScheduleIsRun(ch, Init(cf, sf), steps);
    ScheduleIsProduct(ch, cf, sf, steps);
    NoAssertFails(ch, cf, sf, EventsOf(ch, Init(cf, sf), steps));
  }

  // ---------------------------------------------------------------------------------------
  // Living on

  lemma OneMoreStep(ch: Channel, s: System, steps: seq<Step>, step: Step)
    requires Fitting(ch, s, steps) && Fits(ch, Played(ch, s, steps), step)
    ensures var more := steps + [step];
            && Fitting(ch, s, more)
            && Played(ch, s, more) == Play(ch, Played(ch, s, steps), step)
            && ClientCalls(more) == ClientCalls(steps) + (if step.OfClient? then [step.call] else [])
            && ServerCalls(more) == ServerCalls(steps) + (if step.OfServer? then [step.call] else [])
  {
    hide Fits, Play;
    assert (steps + [step])[..|steps|] == steps;
  }

  /** A process that has handled one event more, which fits, has lived through one step more. */
  lemma ClientLivesOn(
    ch: Channel, client: SplitterClient, server: SplitterServer, steps: seq<Step>, call: Call, i: nat)
    requires client.listener.num != client.tunnel.num && Fitting(ch, Beginning(client, server), steps)
    requires FitsClient(ch, Played(ch, Beginning(client, server), steps), call, i)
    requires client.history == ClientCalls(steps) + [call] && server.history == ServerCalls(steps)
    ensures Lived(ch, client, server, steps + [OfClient(call, i)])
  {
    hide FitsClient, Fitting, Played, ClientCalls, ServerCalls;
    OneMoreStep(ch, Beginning(client, server), steps, OfClient(call, i));
    assert ServerCalls(steps) + [] == ServerCalls(steps);
  }

  lemma ServerLivesOn(
    ch: Channel, client: SplitterClient, server: SplitterServer, steps: seq<Step>, call: Call, i: nat)
    requires client.listener.num != client.tunnel.num && Fitting(ch, Beginning(client, server), steps)
    requires FitsServer(ch, Played(ch, Beginning(client, server), steps), call, i)
    requires client.history == ClientCalls(steps) && server.history == ServerCalls(steps) + [call]
    ensures Lived(ch, client, server, steps + [OfServer(call, i)])
  {
    hide FitsServer, Fitting, Played, ClientCalls, ServerCalls;
    OneMoreStep(ch, Beginning(client, server), steps, OfServer(call, i));
    assert ClientCalls(steps) + [] == ClientCalls(steps);
  }

  /** The two processes share no connections. */
  ghost predicate Apart(client: SplitterClient, server: SplitterServer) reads client.conns, server.conns {
    client.conns != server.conns && client.conns.connections.Values !! server.conns.connections.Values
  }

  /** Two processes that have just started. */
  method Deploy(listener: FileDescriptor, tunnel: UdpSocket, serverTunnel: AutoSocket, ghost ch: Channel)
    returns (client: SplitterClient, server: SplitterServer)
    requires listener.num != tunnel.num && tunnel.sent == []
    requires serverTunnel.savedAddress == NO_ADDRESS && serverTunnel.sent == [] && serverTunnel.destinations == []
    ensures client.Valid() && server.Valid() && Apart(client, server) && Lived(ch, client, server, [])
  {
    hide ConnectionTable.Valid, SplitterClient.LongLived, SplitterServer.LongLived;
    client := new SplitterClient(listener, tunnel);
    server := new SplitterServer(serverTunnel);
  }

  /** The client handles an event that fits: the processes have then lived through one step more.
      Without duplication it never stops, unless the kernel refuses a write. */
  method ClientHandles(
    client: SplitterClient, server: SplitterServer, fd: Fd, a: Answer,
    ghost ch: Channel, ghost steps: seq<Step>, ghost i: nat)
    returns (status: Status, ghost lived: seq<Step>)
    requires client.Valid() && server.Valid() && Apart(client, server) && Lived(ch, client, server, steps)
    requires a.newFd > 2 && FitsClient(ch, Played(ch, Beginning(client, server), steps), client.CallFor(fd, a), i)
    modifies client, client.listener`readCount, client.tunnel, client.conns, client.conns.connections.Values
    ensures lived == steps + [OfClient(old(client.CallFor(fd, a)), i)] && Lived(ch, client, server, lived)
    ensures server.Valid() && (status == Continue ==> client.Valid() && Apart(client, server))
    ensures !ch.Duplicating? && Played(ch, Beginning(client, server), lived).accepted <= UID_SPACE ==>
              status == Continue || exists n :: a.kernel(n) == 0
  {
    hide SplitterClient.Valid, SplitterServer.Valid, SplitterClient.CallFor, SplitterClient.Lifetime;
    hide FitsClient, Fitting, Played, Beginning, ClientCalls, ServerCalls;
    ghost var call;
    status, call := client.HandleEvent(fd, a);
    lived := steps + [OfClient(call, i)];
    ClientLivesOn(ch, client, server, steps, call, i);
    if !ch.Duplicating? && Played(ch, Beginning(client, server), lived).accepted <= UID_SPACE {
      NoEventStopsAProcess(ch, client, server, lived);
    }
  }

  /** Likewise the server. */
  method ServerHandles(
    client: SplitterClient, server: SplitterServer, fd: Fd, a: Answer,
    ghost ch: Channel, ghost steps: seq<Step>, ghost i: nat)
    returns (status: Status, ghost lived: seq<Step>)
    requires client.Valid() && server.Valid() && Apart(client, server) && Lived(ch, client, server, steps)
    requires a.newFd > 2 && FitsServer(ch, Played(ch, Beginning(client, server), steps), server.CallFor(fd, a), i)
    modifies server, server.tunnel, server.conns, server.conns.connections.Values
    ensures lived == steps + [OfServer(old(server.CallFor(fd, a)), i)] && Lived(ch, client, server, lived)
    ensures client.Valid() && (status == Continue ==> server.Valid() && Apart(client, server))
    ensures !ch.Duplicating? && Played(ch, Beginning(client, server), lived).accepted <= UID_SPACE ==>
              status == Continue || exists n :: a.kernel(n) == 0
  {
    hide SplitterClient.Valid, SplitterServer.Valid, SplitterServer.CallFor, SplitterServer.Lifetime;
    hide FitsServer, Fitting, Played, Beginning, ClientCalls, ServerCalls;
    ghost var call;
    status, call := server.HandleEvent(fd, a);
    lived := steps + [OfServer(call, i)];
    ServerLivesOn(ch, client, server, steps, call, i);
    if !ch.Duplicating? && Played(ch, Beginning(client, server), lived).accepted <= UID_SPACE {
      NoEventStopsAProcess(ch, client, server, lived);
    }
  }
}
