/** Where the guarantees stop: for each assumption of the other tunnel modules, a run that breaks
    the guarantee without it, and the exact condition under which an assert fails. */
module TunnelLimits {
  import opened Wrappers
  import opened Text
  import opened SplitTcpPacket
  import opened SplitterSpec
  import opened Tunnel
  import opened TunnelSafety
  import opened TunnelNoDuplication
  import opened TunnelInOrder

  const CLIENT_FIXED: map<Fd, Callback> := map[3 := AcceptReady, 4 := TunnelReady]
  const SERVER_FIXED: map<Fd, Callback> := map[3 := TunnelReady]

  function Start(): System { Init(CLIENT_FIXED, SERVER_FIXED) }

  /** On any network, in any reachable state, a packet aborts the server exactly when it announces
      a uid the server holds. */
  lemma ServerSurvivesIff(
    ch: Channel, cf: map<Fd, Callback>, sf: map<Fd, Callback>, run: seq<Event>,
    i: nat, from: Address, fd: Fd, connected: bool)
    requires Fixed(cf) && Fixed(sf) && Possible(ch, Init(cf, sf), run)
    requires Enabled(ch, Run(ch, Init(cf, sf), run), ToServer(i, from, fd, connected))
    ensures var s := Run(ch, Init(cf, sf), run);
            var p := s.upstream[i];
            Next(ch, s, ToServer(i, from, fd, connected)).server.up
            <==> !(p.newConnection && p.uid in s.server.state.table.connections)
  {
    EveryRunIsSafe(ch, cf, sf, run);
    var s := Run(ch, Init(cf, sf), run);
    assert s.upstream[i] in s.client.sent;
    ServerAbortsIff(s.server.state, from, s.upstream[i], fd, connected, 0, []);
  }

  /** Likewise, in any reachable state an accept aborts the client exactly when the counter has come
      round to a uid that is still held; taking a packet never does. */
  lemma AcceptSurvivesIff(
    ch: Channel, cf: map<Fd, Callback>, sf: map<Fd, Callback>, run: seq<Event>, fd: Fd, dest: Address, i: nat)
    requires Fixed(cf) && Fixed(sf) && Possible(ch, Init(cf, sf), run)
    ensures var s := Run(ch, Init(cf, sf), run);
            && (Enabled(ch, s, Accept(fd, dest)) ==>
                  (Next(ch, s, Accept(fd, dest)).client.up
                   <==> s.client.state.nextUid !in s.client.state.table.connections))
            && (Enabled(ch, s, ToClient(i)) ==> Next(ch, s, ToClient(i)).client.up)
  {
    hide Run, Possible, Registered, FormatAddress;
    EveryRunIsSafe(ch, cf, sf, run);
    var s := Run(ch, Init(cf, sf), run);
    if Enabled(ch, s, Accept(fd, dest)) {
      ClientAbortsIff(s.client.state, fd, dest, EofPacket(0), 0, []);
    }
    if Enabled(ch, s, ToClient(i)) {
      assert s.downstream[i] in s.server.sent;
    }
  }

  // ---------------------------------------------------------------------------------------
  // Single steps of the runs below

  /** The client has accepted one connection and its announcement is in flight. */
  ghost predicate JustAccepted(s: System, here: Address) {
    && s.upstream == [Packet(true, 1, FormatAddress(here))] && s.downstream == []
    && s.client.state.table.connections == map[1 := 5]
    && 5 in s.client.state.table.actions && s.client.state.table.actions[5] == ConnectionReady(1)
    && s.server == Start().server && s.accepted == 1 && s.client.up && s.client.read == []
  }

  lemma AcceptStep(ch: Channel, here: Address)
    ensures Enabled(ch, Start(), Accept(5, here))
    ensures JustAccepted(Next(ch, Start(), Accept(5, here)), here)
  {
  }

  /** The server opens a connection on an announcement. */
  lemma OpenStep(ch: Channel, s: System, i: nat, from: Address, fd: Fd)
    requires Enabled(ch, s, ToServer(i, from, fd, true)) && Registered(s.server.state.table)
    requires var p := s.upstream[i];
             p.newConnection && p.uid !in s.server.state.table.connections && ParseAddress(p.body).Some?
    ensures var s' := Next(ch, s, ToServer(i, from, fd, true));
            && s'.server.up && s'.server.wrote == s.server.wrote
            && s'.server.state.table.connections == s.server.state.table.connections[s.upstream[i].uid := fd]
            && s'.server.state.table.fixed == s.server.state.table.fixed
            && s'.upstream == Without(s.upstream, i) && s'.client == s.client && s'.accepted == s.accepted
  {
    FreshFdIsUnregistered(s.server.state.table, fd);
    assert s.server.wrote + [] == s.server.wrote;
  }

  /** The client forwards a chunk. */
  lemma ForwardStep(ch: Channel, s: System, fd: Fd, chunk: seq<byte>)
    requires Enabled(ch, s, ClientReads(fd, chunk)) && chunk != []
    requires s.client.state.table.actions[fd].uid in s.client.state.table.connections
    ensures var s' := Next(ch, s, ClientReads(fd, chunk));
            var uid := s.client.state.table.actions[fd].uid;
            && s'.client.state == s.client.state && s'.client.up && s'.accepted == s.accepted && s'.server == s.server
            && s'.client.read == s.client.read + [Chunk(uid, chunk)]
            && s'.upstream == s.upstream + [Packet(false, uid, chunk)]
  {
  }

  /** The server writes a chunk. */
  lemma WriteStep(ch: Channel, s: System, i: nat, from: Address, fd: Fd)
    requires Enabled(ch, s, ToServer(i, from, fd, true))
    requires var p := s.upstream[i];
             !p.newConnection && p.body != [] && p.uid in s.server.state.table.connections
    ensures var s' := Next(ch, s, ToServer(i, from, fd, true));
            && s'.server.up && s'.server.state.table == s.server.state.table
            && s'.server.wrote == s.server.wrote + [Chunk(s.upstream[i].uid, s.upstream[i].body)]
            && s'.upstream == Without(s.upstream, i) && s'.client == s.client && s'.accepted == s.accepted
  {
  }

  // ---------------------------------------------------------------------------------------
  // Runs that break a guarantee

  /** One lost announcement: both channels are empty, and only the client holds the uid. */
  lemma LossBreaksAgreement(here: Address) returns (run: seq<Event>)
    requires here != NO_ADDRESS
    ensures Possible(Lossy, Start(), run)
    ensures var s := Run(Lossy, Start(), run);
            s.accepted == 1 && s.upstream == [] && s.downstream == [] && !InAgreement(s)
  {
    AcceptStep(Lossy, here);
    Extend(Lossy, Start(), [], Accept(5, here));
    run := [] + [Accept(5, here)];
    Extend(Lossy, Start(), run, LoseUpstream(0));
    run := run + [LoseUpstream(0)];
    assert 1 in Run(Lossy, Start(), run).client.state.table.connections.Keys;
  }

  lemma SecondAnnouncementAborts(s: System, here: Address)
    requires here != NO_ADDRESS
    requires JustAccepted(s, here)
    ensures var s1 := Next(Duplicating, s, CopyUpstream(0));
            && Enabled(Duplicating, s1, ToServer(0, here, 5, true))
            && var s2 := Next(Duplicating, s1, ToServer(0, here, 5, true));
            && Enabled(Duplicating, s2, ToServer(0, here, 6, true))
            && !Next(Duplicating, s2, ToServer(0, here, 6, true)).server.up
  {
    AddressRoundTrip(here);
    var s1 := Next(Duplicating, s, CopyUpstream(0));
    OpenStep(Duplicating, s1, 0, here, 5);
    var s2 := Next(Duplicating, s1, ToServer(0, here, 5, true));
    assert s2.upstream == [s1.upstream[1]];
    HeldAnnouncementAborts(s2, here);
  }

  lemma HeldAnnouncementAborts(s: System, here: Address)
    requires here != NO_ADDRESS
    requires s.server.up && s.server.state.table.fixed == SERVER_FIXED
    requires s.server.state.table.connections == map[1 := 5]
    requires s.upstream == [Packet(true, 1, FormatAddress(here))]
    ensures Enabled(Duplicating, s, ToServer(0, here, 6, true))
    ensures !Next(Duplicating, s, ToServer(0, here, 6, true)).server.up
  {
  }

  /** A duplicated announcement aborts the server. */
  lemma DuplicationAbortsServer(here: Address) returns (run: seq<Event>)
    requires here != NO_ADDRESS
    ensures Possible(Duplicating, Start(), run)
    ensures var s := Run(Duplicating, Start(), run); s.accepted == 1 && s.client.up && !s.server.up
  {
    AcceptStep(Duplicating, here);
    SecondAnnouncementAborts(Next(Duplicating, Start(), Accept(5, here)), here);
    run := RunOf4(Duplicating, Start(), Accept(5, here), CopyUpstream(0),
                  ToServer(0, here, 5, true), ToServer(0, here, 6, true));
  }

  lemma RunOf4(ch: Channel, s: System, a: Event, b: Event, c: Event, d: Event) returns (run: seq<Event>)
    requires Enabled(ch, s, a) && Enabled(ch, Next(ch, s, a), b)
    requires Enabled(ch, Next(ch, Next(ch, s, a), b), c)
    requires Enabled(ch, Next(ch, Next(ch, Next(ch, s, a), b), c), d)
    ensures Possible(ch, s, run) && Run(ch, s, run) == Next(ch, Next(ch, Next(ch, Next(ch, s, a), b), c), d)
  {
    Extend(ch, s, [], a);
    Extend(ch, s, [] + [a], b);
    Extend(ch, s, [] + [a] + [b], c);
    Extend(ch, s, [] + [a] + [b] + [c], d);
    run := [] + [a] + [b] + [c] + [d];
  }

  /** One connection is open on both sides and nothing has been read from it. */
  ghost predicate OneOpen(s: System) {
    && s.upstream == [] && s.accepted == 1 && s.client.up && s.server.up
    && s.client.state.table.connections == map[1 := 5]
    && 5 in s.client.state.table.actions && s.client.state.table.actions[5] == ConnectionReady(1)
    && s.server.state.table.connections == map[1 := 5] && s.server.state.table.fixed == SERVER_FIXED
    && s.client.read == [] && s.server.wrote == []
  }

  lemma OpenOne(s: System, here: Address)
    requires here != NO_ADDRESS
    requires JustAccepted(s, here)
    ensures Enabled(Lossy, s, ToServer(0, here, 5, true)) && OneOpen(Next(Lossy, s, ToServer(0, here, 5, true)))
  {
    AddressRoundTrip(here);
    OpenStep(Lossy, s, 0, here, 5);
  }

  lemma OutOfOrder(s: System, here: Address, x: byte, y: byte)
    requires here != NO_ADDRESS
    requires OneOpen(s)
    ensures Enabled(Lossy, s, ClientReads(5, [x]))
    ensures var s1 := Next(Lossy, s, ClientReads(5, [x]));
            && Enabled(Lossy, s1, ClientReads(5, [y]))
            && var s2 := Next(Lossy, s1, ClientReads(5, [y]));
            && Enabled(Lossy, s2, ToServer(1, here, 6, true))
            && var s3 := Next(Lossy, s2, ToServer(1, here, 6, true));
            && s3.accepted == 1
            && s3.client.read == [Chunk(1, [x]), Chunk(1, [y])] && s3.server.wrote == [Chunk(1, [y])]
  {
    ForwardStep(Lossy, s, 5, [x]);
    var s1 := Next(Lossy, s, ClientReads(5, [x]));
    ForwardStep(Lossy, s1, 5, [y]);
    var s2 := Next(Lossy, s1, ClientReads(5, [y]));
    WriteStep(Lossy, s2, 1, here, 6);
  }

  /** Two different chunks of one connection, delivered the other way round, break its stream. */
  lemma ReorderingBreaksStreams(here: Address, x: byte, y: byte) returns (run: seq<Event>)
    requires here != NO_ADDRESS
    requires x != y
    ensures Possible(Lossy, Start(), run)
    ensures var s := Run(Lossy, Start(), run);
            && s.accepted == 1 && Stream(s.client.read, 1) == [x, y]
            && !(Stream(s.server.wrote, 1) <= Stream(s.client.read, 1))
  {
    hide Next, Stream;
    AcceptStep(Lossy, here);
    var s1 := Next(Lossy, Start(), Accept(5, here));
    OpenOne(s1, here);
    var s2 := Next(Lossy, s1, ToServer(0, here, 5, true));
    OutOfOrder(s2, here, x, y);
    run := RunOf4(Lossy, Start(), Accept(5, here), ToServer(0, here, 5, true),
                  ClientReads(5, [x]), ClientReads(5, [y]));
    Extend(Lossy, Start(), run, ToServer(1, here, 6, true));
    run := run + [ToServer(1, here, 6, true)];
    StreamOfTwo(x, y);
  }

  lemma StreamOfTwo(x: byte, y: byte)
    ensures Stream([Chunk(1, [x]), Chunk(1, [y])], 1) == [x, y]
    ensures x != y ==> !(Stream([Chunk(1, [y])], 1) <= [x, y])
  {
    StreamOfOne(1, [x]);
    StreamOfOne(1, [y]);
    assert Stream([Chunk(1, [y])], 1)[0] == y && [x, y][0] == x;
    StreamAppend([Chunk(1, [x])], Chunk(1, [y]), 1);
    assert [Chunk(1, [x])] + [Chunk(1, [y])] == [Chunk(1, [x]), Chunk(1, [y])];
  }

  /** `n` connections accepted and none closed. */
  function Accepts(n: nat, here: Address): seq<Event> {
    if n == 0 then [] else Accepts(n - 1, here) + [Accept(n + 4, here)]
  }

  ghost predicate Holding(s: System, n: nat) {
    && s.accepted == n && s.client.up && s.client.state.nextUid == Counter(n)
    && Registered(s.client.state.table)
    && (forall u: Uid :: u in s.client.state.table.connections <==> Issued(n, u))
    && (forall f | f in OpenFds(s.client.state.table) :: f < n + 5)
  }

  lemma OneMoreIssued(n: nat, u: Uid)
    requires n < UID_SPACE
    ensures Issued(n + 1, u) <==> Issued(n, u) || u == Counter(n)
    ensures !Issued(n, Counter(n)) && NextUid(Counter(n)) == Counter(n + 1)
  {
    IssuedOnce(n, u);
  }

  lemma OneMore(s: System, n: nat, here: Address)
    requires Holding(s, n) && n < UID_SPACE
    ensures Enabled(InOrder, s, Accept(n + 5, here)) && Holding(Next(InOrder, s, Accept(n + 5, here)), n + 1)
  {
    var c, fd := s.client.state, n + 5;
    OneMoreIssued(n, c.nextUid);
    FreshFdIsUnregistered(c.table, fd);
    AddConnectionKeepsRegistered(c.table, c.nextUid, fd);
    var c' := ClientAccept(c, fd, here).state;
    assert c' == ClientState(AddConnection(c.table, c.nextUid, fd), Counter(n + 1));
    forall u: Uid
      ensures u in c'.table.connections <==> Issued(n + 1, u)
    {
      OneMoreIssued(n, u);
    }
    forall f | f in OpenFds(c'.table)
      ensures f < n + 6
    {
      assert f in OpenFds(c.table) || f == fd;
    }
  }

  lemma {:induction false} AfterAccepts(s: System, n: nat, here: Address)
    requires Holding(s, 0) && n <= UID_SPACE
    ensures Possible(InOrder, s, Accepts(n, here)) && Holding(Run(InOrder, s, Accepts(n, here)), n)
  {
    hide Next, Holding;
    if n > 0 {
      AfterAccepts(s, n - 1, here);
      OneMore(Run(InOrder, s, Accepts(n - 1, here)), n - 1, here);
      Extend(InOrder, s, Accepts(n - 1, here), Accept(n + 4, here));
    }
  }

  /** With every uid issued and none closed, the next accept aborts. */
  lemma AllHeldAborts(s: System, here: Address)
    requires Holding(s, UID_SPACE)
    ensures var e := Accept(UID_SPACE + 5, here);
            Enabled(InOrder, s, e) && !Next(InOrder, s, e).client.up && Next(InOrder, s, e).accepted == UID_SPACE + 1
  {
    assert Issued(UID_SPACE, s.client.state.nextUid);
  }

  /** The bound on accepted connections is sharp: with one more, on a network without a fault,
      the counter comes round to a uid that is still held and the client aborts. */
  lemma UidWrapAbortsClient(here: Address) returns (run: seq<Event>)
    ensures Possible(InOrder, Start(), run)
    ensures var s := Run(InOrder, Start(), run); s.accepted == UID_SPACE + 1 && !s.client.up
  {
    AfterAccepts(Start(), UID_SPACE, here);
    AllHeldAborts(Run(InOrder, Start(), Accepts(UID_SPACE, here)), here);
    Extend(InOrder, Start(), Accepts(UID_SPACE, here), Accept(UID_SPACE + 5, here));
    run := Accepts(UID_SPACE, here) + [Accept(UID_SPACE + 5, here)];
  }

  // ---------------------------------------------------------------------------------------
  // Which networks give which guarantee

  predicate AtLeastAsGood(better: Channel, worse: Channel) {
    better == worse || better.InOrder? || worse.Duplicating?
  }

  /** What can happen on a network can happen on a worse one. */
  lemma {:induction false} RunsOfBetter(better: Channel, worse: Channel, s: System, run: seq<Event>)
    requires AtLeastAsGood(better, worse) && Possible(better, s, run)
    ensures Possible(worse, s, run) && Run(worse, s, run) == Run(better, s, run)
    decreases |run|
  {
    if run != [] {
      assert Next(worse, s, run[0]) == Next(better, s, run[0]);
      RunsOfBetter(better, worse, Next(better, s, run[0]), run[1..]);
    }
  }

  ghost predicate Reachable(ch: Channel, s: System) {
    exists cf, sf, run | Fixed(cf) && Fixed(sf) && Possible(ch, Init(cf, sf), run) :: Run(ch, Init(cf, sf), run) == s
  }

  lemma IsReachable(better: Channel, worse: Channel, run: seq<Event>)
    requires AtLeastAsGood(better, worse) && Possible(better, Start(), run)
    ensures Reachable(worse, Run(better, Start(), run))
  {
    hide Next, Enabled;
    RunsOfBetter(better, worse, Start(), run);
    assert Fixed(CLIENT_FIXED) && Fixed(SERVER_FIXED);
    assert Possible(worse, Init(CLIENT_FIXED, SERVER_FIXED), run);
  }

  /** Agreement at quiescence is guaranteed exactly by networks that lose nothing and keep order. */
  lemma AgreesIffInOrder(ch: Channel)
    ensures (forall s | Reachable(ch, s) && s.accepted <= UID_SPACE && s.upstream == [] && s.downstream == [] ::
               InAgreement(s))
            <==> ch.InOrder?
  {
    hide Next, Enabled, Run, Possible, InAgreement;
    if ch.InOrder? {
      forall s | Reachable(ch, s) && s.accepted <= UID_SPACE && s.upstream == [] && s.downstream == []
        ensures InAgreement(s)
      {
        var cf, sf, run :| Fixed(cf) && Fixed(sf) && Possible(ch, Init(cf, sf), run) && Run(ch, Init(cf, sf), run) == s;
        AgreementAtQuiescence(cf, sf, run);
      }
    } else {
      var run := LossBreaksAgreement(LOOPBACK);
      IsReachable(Lossy, ch, run);
    }
  }

  /** So is it with the prefix property of the streams. */
  lemma StreamsIntactIffInOrder(ch: Channel)
    ensures (forall s, u | Reachable(ch, s) && s.accepted <= UID_SPACE ::
               && Stream(s.server.wrote, u) <= Stream(s.client.read, u)
               && Stream(s.client.wrote, u) <= Stream(s.server.read, u))
            <==> ch.InOrder?
  {
    hide Next, Enabled, Run, Possible, Stream;
    if ch.InOrder? {
      forall s, u | Reachable(ch, s) && s.accepted <= UID_SPACE
        ensures Stream(s.server.wrote, u) <= Stream(s.client.read, u)
        ensures Stream(s.client.wrote, u) <= Stream(s.server.read, u)
      {
        var cf, sf, run :| Fixed(cf) && Fixed(sf) && Possible(ch, Init(cf, sf), run) && Run(ch, Init(cf, sf), run) == s;
        StreamIntegrity(cf, sf, run, u);
      }
    } else {
      var run := ReorderingBreaksStreams(LOOPBACK, 0, 1);
      IsReachable(Lossy, ch, run);
    }
  }

  /** That no assert fails is guaranteed exactly by networks that do not duplicate. */
  lemma NoAssertFailsIffNotDuplicating(ch: Channel)
    ensures (forall s | Reachable(ch, s) && s.accepted <= UID_SPACE :: s.client.up && s.server.up)
            <==> !ch.Duplicating?
  {
    hide Next, Enabled, Run, Possible;
    if ch.Duplicating? {
      var run := DuplicationAbortsServer(LOOPBACK);
      IsReachable(Duplicating, ch, run);
    } else {
      forall s | Reachable(ch, s) && s.accepted <= UID_SPACE
        ensures s.client.up && s.server.up
      {
        var cf, sf, run :| Fixed(cf) && Fixed(sf) && Possible(ch, Init(cf, sf), run) && Run(ch, Init(cf, sf), run) == s;
        NoAssertFails(ch, cf, sf, run);
      }
    }
  }

  /** On any network, the client survives every run with up to `n` accepted connections exactly if
      `n` is at most 2^64. */
  lemma ClientSurvivesIff(ch: Channel, n: nat)
    ensures (forall s | Reachable(ch, s) && s.accepted <= n :: s.client.up) <==> n <= UID_SPACE
  {
    hide Next, Enabled, Run, Possible;
    if n <= UID_SPACE {
      forall s | Reachable(ch, s) && s.accepted <= n
        ensures s.client.up
      {
        var cf, sf, run :| Fixed(cf) && Fixed(sf) && Possible(ch, Init(cf, sf), run) && Run(ch, Init(cf, sf), run) == s;
        ClientNeverAborts(ch, cf, sf, run);
      }
    } else {
      var run := UidWrapAbortsClient(LOOPBACK);
      IsReachable(InOrder, ch, run);
    }
  }
}
