/** The TCP relay itself: sockets, ring buffers and the poller, changed in place. The poller's
    callbacks are named by what they do; everything else is as the poller has it. */
module TcpRelays {
  import opened Wrappers
  import opened FileDescriptors
  import opened ByteStreamQueues
  import RelaySpec

  datatype Direction = In | Out

  datatype Action = Action(fd: FileDescriptor, direction: Direction, callback: RelaySpec.Callback, active: bool)

  datatype PollFd = PollFd(fd: int, events: bool)

  /** What the kernel's poll reports for one entry: an error or hang-up, or the event asked for. */
  datatype Revents = Revents(error: bool, ready: bool)

  datatype ResultType = Continue | Cancel | Threw

  datatype PollResult = Success | Timeout | Exit | BusyWait | Exception

  class TcpRelay {
    const dnsServer: FileDescriptor
    const client: FileDescriptor
    const fromClient: ByteStreamQueue
    const fromServer: ByteStreamQueue
    var actions: seq<Action>
    var pollfds: seq<PollFd>

    ghost function Objects(): set<object> {
      {dnsServer, client, fromClient, fromServer, fromClient.buffer, fromServer.buffer}
    }

    /** The action made by the `i`-th `add_action` call. */
    ghost predicate Wired(i: nat, a: Action)
      requires i < |RelaySpec.WIRING|
    {
      && a.callback == RelaySpec.WIRING[i]
      && a.fd == (if i == 0 || i == 2 then dnsServer else client)
      && a.direction == (if i < 2 then In else Out)
      && (i >= 2 ==> a.active)
    }

    ghost predicate QueuesValid() reads this, Objects() {
      && dnsServer != client && fromClient != fromServer && fromClient.buffer != fromServer.buffer
      && fromClient.Valid() && fromServer.Valid()
      && fromClient.buffer.Length == fromServer.buffer.Length
    }

    ghost predicate Valid() reads this, Objects() {
      && QueuesValid()
      && |actions| == |pollfds| == |RelaySpec.WIRING|
      && (forall i | 0 <= i < |actions| :: Wired(i, actions[i]) && pollfds[i].fd == actions[i].fd.num)
    }

    ghost function State(): RelaySpec.Relay
      requires Valid()
      reads this, Objects()
    {
      RelaySpec.Relay(
        RelaySpec.Flow(
          dnsServer.unread, dnsServer.received, fromServer.Contents(), client.output, dnsServer.eof, actions[0].active),
        RelaySpec.Flow(
          client.unread, client.received, fromClient.Contents(), dnsServer.output, client.eof, actions[1].active),
        fromServer.buffer.Length - 1)
    }

    method AddAction(fd: FileDescriptor, direction: Direction, callback: RelaySpec.Callback)
      modifies this`actions, this`pollfds
      ensures actions == old(actions) + [Action(fd, direction, callback, true)]
      ensures pollfds == old(pollfds) + [PollFd(fd.num, false)]
    {
      actions := actions + [Action(fd, direction, callback, true)];
      pollfds := pollfds + [PollFd(fd.num, false)];
    }

    /** The set-up of one relayed connection, with both sockets connected. */
    constructor (dnsServer: FileDescriptor, client: FileDescriptor, size: nat)
      requires dnsServer != client && 1 < size <= MAX_STRING
      requires !dnsServer.eof && dnsServer.received == [] && dnsServer.output == []
      requires !client.eof && client.received == [] && client.output == []
      ensures Valid() && this.dnsServer == dnsServer && this.client == client
      ensures fresh(fromClient) && fresh(fromServer) && fresh(fromClient.buffer) && fresh(fromServer.buffer)
      ensures State() == RelaySpec.Start(dnsServer.unread, client.unread, size - 1)
      ensures actions == [
                Action(dnsServer, In, RelaySpec.PushDown, true), Action(client, In, RelaySpec.PushUp, true),
                Action(dnsServer, Out, RelaySpec.PopUp, true), Action(client, Out, RelaySpec.PopDown, true)]
    {
      this.dnsServer, this.client := dnsServer, client;
      fromClient := new ByteStreamQueue(size);
      fromServer := new ByteStreamQueue(size);
      actions, pollfds := [], [];
      new;
      AddAction(dnsServer, In, RelaySpec.PushDown);
      AddAction(client, In, RelaySpec.PushUp);
      AddAction(dnsServer, Out, RelaySpec.PopUp);
      AddAction(client, Out, RelaySpec.PopDown);
      assert actions == [
          Action(dnsServer, In, RelaySpec.PushDown, true), Action(client, In, RelaySpec.PushUp, true),
          Action(dnsServer, Out, RelaySpec.PopUp, true), Action(client, Out, RelaySpec.PopDown, true)];
    }

    predicate WhenInterested(c: RelaySpec.Callback)
      requires QueuesValid()
      reads this, Objects()
    {
      match c
      case PushDown => fromServer.SpaceAvailable()
      case PushUp => fromClient.SpaceAvailable()
      case PopUp => fromClient.NonEmpty()
      case PopDown => fromServer.NonEmpty()
    }

    /** How many bytes a callback moves when the kernel is ready to move `k`: it asks for what fits
        into its queue before the ring wraps, or offers what there is up to there. */
    ghost function Amount(c: RelaySpec.Callback, k: nat): nat
      requires QueuesValid()
      reads this, Objects()
    {
      match c
      case PushDown =>
        var room := Min(fromServer.buffer.Length - 1 - |fromServer.Contents()|,
                        fromServer.buffer.Length - fromServer.nextPush);
        Granted(k, Min(Min(BUFFER_SIZE, room), |dnsServer.unread|))
      case PushUp =>
        var room := Min(fromClient.buffer.Length - 1 - |fromClient.Contents()|,
                        fromClient.buffer.Length - fromClient.nextPush);
        Granted(k, Min(Min(BUFFER_SIZE, room), |client.unread|))
      case PopUp => Min(k, Min(|fromClient.Contents()|, fromClient.buffer.Length - fromClient.nextPop))
      case PopDown => Min(k, Min(|fromServer.Contents()|, fromServer.buffer.Length - fromServer.nextPop))
    }

    function ServiceCount(a: Action): Count
      reads a.fd
    {
      if a.direction == In then a.fd.readCount else a.fd.writeCount
    }

    /** The callback that reads from the DNS server. */
    method PushFromServer(k: nat) returns (r: ResultType, n: nat)
      requires Valid() && fromServer.SpaceAvailable()
      modifies dnsServer, fromServer, fromServer.buffer
      ensures Valid() && RelaySpec.Legal(old(State()), RelaySpec.PushDown, n) && n == old(Amount(RelaySpec.PushDown, k))
      ensures State() == RelaySpec.Carry(old(State()), RelaySpec.PushDown, n)
      ensures r == (if n == 0 then Cancel else Continue) && dnsServer.readCount == Bump(old(dnsServer.readCount))
    {
      hide Ring, AvailableToPop, AvailableToPush, Granted, Bump;
      var pushed: PushResult;
      pushed, n := fromServer.Push(dnsServer, k);
      r := if pushed == EndOfFile then Cancel else Continue;
    }

    /** The callback that reads from the client. */
    method PushFromClient(k: nat) returns (r: ResultType, n: nat)
      requires Valid() && fromClient.SpaceAvailable()
      modifies client, fromClient, fromClient.buffer
      ensures Valid() && RelaySpec.Legal(old(State()), RelaySpec.PushUp, n) && n == old(Amount(RelaySpec.PushUp, k))
      ensures State() == RelaySpec.Carry(old(State()), RelaySpec.PushUp, n)
      ensures r == (if n == 0 then Cancel else Continue) && client.readCount == Bump(old(client.readCount))
    {
      hide Ring, AvailableToPop, AvailableToPush, Granted, Bump;
      var pushed: PushResult;
      pushed, n := fromClient.Push(client, k);
      r := if pushed == EndOfFile then Cancel else Continue;
    }

    /** The callback that writes to the DNS server. */
    method PopToServer(k: nat) returns (r: ResultType, n: nat)
      requires Valid() && fromClient.NonEmpty()
      modifies dnsServer, fromClient
      ensures Valid()
      ensures r == (if k == 0 then Threw else Continue) && (r == Threw ==> State() == old(State()))
      ensures r != Threw ==>
                && RelaySpec.Legal(old(State()), RelaySpec.PopUp, n) && n == old(Amount(RelaySpec.PopUp, k))
                && State() == RelaySpec.Carry(old(State()), RelaySpec.PopUp, n)
                && dnsServer.writeCount == Bump(old(dnsServer.writeCount))
    {
      hide Ring, AvailableToPop, AvailableToPush, Granted, Bump;
      var popped := fromClient.Pop(dnsServer, k);
      if popped.None? {
        return Threw, 0;
      }
      return Continue, popped.value;
    }

    /** The callback that writes to the client. */
    method PopToClient(k: nat) returns (r: ResultType, n: nat)
      requires Valid() && fromServer.NonEmpty()
      modifies client, fromServer
      ensures Valid()
      ensures r == (if k == 0 then Threw else Continue) && (r == Threw ==> State() == old(State()))
      ensures r != Threw ==>
                && RelaySpec.Legal(old(State()), RelaySpec.PopDown, n) && n == old(Amount(RelaySpec.PopDown, k))
                && State() == RelaySpec.Carry(old(State()), RelaySpec.PopDown, n)
                && client.writeCount == Bump(old(client.writeCount))
    {
      hide Ring, AvailableToPop, AvailableToPush, Granted, Bump;
      var popped := fromServer.Pop(client, k);
      if popped.None? {
        return Threw, 0;
      }
      return Continue, popped.value;
    }

    /** Runs the callback of entry `i`; `k` is what the kernel is ready to move. The queue's asserts
        are its only precondition. */
    method RunCallback(i: nat, k: nat) returns (r: ResultType, n: nat)
      requires Valid() && i < |actions| && WhenInterested(actions[i].callback)
      modifies dnsServer, client, fromClient, fromServer, fromClient.buffer, fromServer.buffer
      ensures Valid()
      ensures r == Threw ==> k == 0 && State() == old(State())
      ensures r != Threw ==>
                && RelaySpec.Legal(old(State()), RelaySpec.WIRING[i], n) && n == old(Amount(RelaySpec.WIRING[i], k))
                && State() == RelaySpec.Carry(old(State()), RelaySpec.WIRING[i], n)
                && (r == Cancel <==> RelaySpec.Cancels(RelaySpec.WIRING[i], n))
                && ServiceCount(actions[i]) == Bump(old(ServiceCount(actions[i])))
    {
      match actions[i].callback
      case PushDown => r, n := PushFromServer(k);
      case PushUp => r, n := PushFromClient(k);
      case PopUp => r, n := PopToServer(k);
      case PopDown => r, n := PopToClient(k);
    }

    /** Entry `i`'s part of the dispatch loop, once poll has reported its event. */
    method Service(i: nat, k: nat) returns (r: PollResult, n: nat)
      requires Valid() && i < |actions| && WhenInterested(actions[i].callback)
      modifies this`actions, dnsServer, client, fromClient, fromServer, fromClient.buffer, fromServer.buffer
      ensures Valid()
      ensures r == PollResult.Success || (r == Exception && k == 0 && State() == old(State()))
      ensures r == PollResult.Success ==>
                && RelaySpec.Legal(old(State()), RelaySpec.WIRING[i], n) && n == old(Amount(RelaySpec.WIRING[i], k))
                && State() == RelaySpec.Move(old(State()), RelaySpec.WIRING[i], n)
    {
      var before := ServiceCount(actions[i]);
      var result: ResultType;
      result, n := RunCallback(i, k);
      if result == Threw {
        return Exception, n;
      }
      ghost var carried := State();
      if result == Cancel {
        actions := actions[i := actions[i].(active := false)];
        assert State() == RelaySpec.Deactivate(carried, RelaySpec.WIRING[i]);
      }
      if before == ServiceCount(actions[i]) {
        return BusyWait, n;
      }
      return PollResult.Success, n;
    }

    /** The first loop of the poller: tells the kernel what each entry is interested in. */
    method SnapshotInterest()
      requires Valid()
      modifies this`pollfds
      ensures Valid() && State() == old(State())
      ensures forall j | 0 <= j < |pollfds| :: pollfds[j].events == RelaySpec.Interests(State())[j]
      ensures pollfds[0].events <==>
              actions[0].active && !dnsServer.eof && |fromServer.Contents()| < fromServer.buffer.Length - 1
      ensures pollfds[1].events <==>
              actions[1].active && !client.eof && |fromClient.Contents()| < fromClient.buffer.Length - 1
      ensures pollfds[2].events <==> fromClient.Contents() != []
      ensures pollfds[3].events <==> fromServer.Contents() != []
    {
      for i := 0 to |actions|
        invariant Valid() && State() == old(State()) && |pollfds| == |actions|
        invariant forall j | 0 <= j < i :: pollfds[j].events == RelaySpec.Interests(State())[j]
      {
        var events := actions[i].active && WhenInterested(actions[i].callback);
        if actions[i].direction == In && actions[i].fd.eof {
          events := false;
        }
        pollfds := pollfds[i := pollfds[i].(events := events)];
      }
    }

    /** True if some entry is interested: the poller's test for going on. */
    method AnyInterest() returns (any: bool)
      ensures any <==> exists j | 0 <= j < |pollfds| :: pollfds[j].events
    {
      any := false;
      for i := 0 to |pollfds|
        invariant any <==> exists j | 0 <= j < i :: pollfds[j].events
      {
        any := any || pollfds[i].events;
      }
    }

    /** One entry's turn in the dispatch loop, after `turns`, in a round that began in `s0`. */
    method TakeTurn(v: Revents, k: nat, turns: seq<RelaySpec.Turn>, ghost s0: RelaySpec.Relay)
      returns (r: PollResult, extended: seq<RelaySpec.Turn>)
      requires Valid() && |turns| < |pollfds|
      requires forall j | 0 <= j < |pollfds| :: pollfds[j].events == RelaySpec.Interests(s0)[j]
      requires RelaySpec.Possible(s0, RelaySpec.Interests(s0), turns)
      requires State() == RelaySpec.Dispatch(s0, RelaySpec.Interests(s0), turns)
      modifies this`actions, dnsServer, client, fromClient, fromServer, fromClient.buffer, fromServer.buffer
      ensures Valid() && r in {PollResult.Success, Exit, Exception}
      ensures |extended| <= |pollfds| && RelaySpec.Possible(s0, RelaySpec.Interests(s0), extended)
      ensures State() == RelaySpec.Dispatch(s0, RelaySpec.Interests(s0), extended)
      ensures r == PollResult.Success ==>
                && |extended| == |turns| + 1 && extended == turns + [extended[|turns|]]
                && extended[|turns|].ready == v.ready
                && (v.ready && pollfds[|turns|].events ==>
                      extended[|turns|].n == old(Amount(RelaySpec.WIRING[|turns|], k)))
      ensures r != PollResult.Success ==> extended == turns
      ensures r == Exit <==> v.error
      ensures r == Exception ==> k == 0 && v.ready && pollfds[|turns|].events
    {
      hide RelaySpec.Move, RelaySpec.Legal;
      var i, n := |turns|, 0;
      if v.error {
        return Exit, turns;
      }
      if v.ready && pollfds[i].events {
        RelaySpec.InterestIsStable(s0, turns, i);
        InterestAllowsCallback(i);
        r, n := Service(i, k);
        if r != PollResult.Success {
          return r, turns;
        }
      }
      extended := turns + [RelaySpec.Turn(v.ready, n)];
      assert extended[..i] == turns;
      r := PollResult.Success;
    }

    /** The dispatch loop, on interest computed before it. */
    method DispatchEvents(revents: seq<Revents>, ks: seq<nat>) returns (r: PollResult, turns: seq<RelaySpec.Turn>)
      requires Valid() && |revents| == |ks| == |actions|
      requires forall j | 0 <= j < |pollfds| :: pollfds[j].events == RelaySpec.Interests(State())[j]
      modifies this`actions, dnsServer, client, fromClient, fromServer, fromClient.buffer, fromServer.buffer
      ensures Valid() && r in {PollResult.Success, Exit, Exception}
      ensures |turns| <= |RelaySpec.WIRING|
      ensures RelaySpec.Possible(old(State()), RelaySpec.Interests(old(State())), turns)
      ensures State() == RelaySpec.Dispatch(old(State()), RelaySpec.Interests(old(State())), turns)
      ensures |turns| <= |revents| && forall i | 0 <= i < |turns| :: turns[i].ready == revents[i].ready
      ensures r == PollResult.Success ==> |turns| == |revents|
      ensures forall i | 0 <= i < |turns| :: !revents[i].error
      ensures r == Exit ==> |turns| < |revents| && revents[|turns|].error
      ensures r == Exception ==>
                |turns| < |revents| && !revents[|turns|].error && revents[|turns|].ready && ks[|turns|] == 0
    {
      hide RelaySpec.Dispatch, RelaySpec.Possible, RelaySpec.Interests, Amount, State;
      turns := [];
      ghost var s0 := State();
      RelaySpec.NoTurns(s0, RelaySpec.Interests(s0));
      for i := 0 to |revents|
        invariant Valid() && |turns| == i && |revents| == |pollfds| && pollfds == old(pollfds)
        invariant forall j | 0 <= j < i :: turns[j].ready == revents[j].ready && !revents[j].error
        invariant RelaySpec.Possible(s0, RelaySpec.Interests(s0), turns)
        invariant State() == RelaySpec.Dispatch(s0, RelaySpec.Interests(s0), turns)
      {
        r, turns := TakeTurn(revents[i], ks[i], turns, s0);
        if r != PollResult.Success {
          return;
        }
      }
      r := PollResult.Success;
    }

    /** The queue's assert holds wherever the entry's interest does. */
    lemma InterestAllowsCallback(i: nat)
      requires Valid() && i < |actions| && RelaySpec.Interested(State(), RelaySpec.WIRING[i])
      ensures WhenInterested(actions[i].callback)
    {
    }

    /** One poll. The kernel times out or reports `revents`, and moves up to `ks[i]` bytes in the
        callback of entry `i`; `turns` records the turns taken. The queues' asserts hold at every
        callback, whatever the kernel does, and no busy wait is ever detected. */
    method Poll(timedOut: bool, revents: seq<Revents>, ks: seq<nat>) returns (r: PollResult, turns: seq<RelaySpec.Turn>)
      requires Valid() && |revents| == |ks| == |actions|
      modifies this`actions, this`pollfds, dnsServer, client
      modifies fromClient, fromServer, fromClient.buffer, fromServer.buffer
      ensures Valid() && r != BusyWait
      ensures |turns| <= |RelaySpec.WIRING|
      ensures RelaySpec.Possible(old(State()), RelaySpec.Interests(old(State())), turns)
      ensures State() == RelaySpec.Dispatch(old(State()), RelaySpec.Interests(old(State())), turns)
      ensures turns == [] ==> State() == old(State())
      ensures RelaySpec.Quits(old(State())) ==> r == Exit && turns == []
      ensures r == Timeout <==> timedOut && !RelaySpec.Quits(old(State()))
      ensures r == Timeout ==> turns == []
      ensures |turns| <= |revents| && forall i | 0 <= i < |turns| :: turns[i].ready == revents[i].ready
      ensures r == PollResult.Success ==> |turns| == |revents|
      ensures forall i | 0 <= i < |turns| :: !revents[i].error
      ensures r == Exit && !RelaySpec.Quits(old(State())) ==> |turns| < |revents| && revents[|turns|].error
      ensures r == Exception ==>
                |turns| < |revents| && !revents[|turns|].error && revents[|turns|].ready && ks[|turns|] == 0
      ensures if 2 < |turns| && revents[2].ready && old(fromClient.Contents()) != []
              then |dnsServer.output| > |old(dnsServer.output)| else dnsServer.output == old(dnsServer.output)
      ensures if 3 < |turns| && revents[3].ready && old(fromServer.Contents()) != []
              then |client.output| > |old(client.output)| else client.output == old(client.output)
      ensures if && 0 < |turns| && revents[0].ready && old(actions[0].active) && !old(dnsServer.eof)
                 && |old(fromServer.Contents())| < fromServer.buffer.Length - 1
              then if old(dnsServer.unread) == [] then dnsServer.eof
                   else |dnsServer.received| > |old(dnsServer.received)|
              else dnsServer.received == old(dnsServer.received) && dnsServer.eof == old(dnsServer.eof)
      ensures if && 1 < |turns| && revents[1].ready && old(actions[1].active) && !old(client.eof)
                 && |old(fromClient.Contents())| < fromClient.buffer.Length - 1
              then if old(client.unread) == [] then client.eof
                   else |client.received| > |old(client.received)|
              else client.received == old(client.received) && client.eof == old(client.eof)
    {
      hide RelaySpec.Dispatch, RelaySpec.Possible, RelaySpec.Interests, Amount;
      ghost var s0 := State();
      RelaySpec.NoTurns(s0, RelaySpec.Interests(s0));
      SnapshotInterest();
      var any := AnyInterest();
      assert any <==> !RelaySpec.Quits(State());
      if !any {
        return Exit, [];
      }
      if timedOut {
        return Timeout, [];
      }
      r, turns := DispatchEvents(revents, ks);
      RelaySpec.RoundMoves(s0, turns);
    }

    /** One turn of the relay's loop, after `rounds`, in a run that began in `s0`. */
    method PollOnce(
      a: PollAnswer, ghost s0: RelaySpec.Relay, ghost rounds: seq<seq<RelaySpec.Turn>>,
      ghost fromServerStream: seq<byte>, ghost fromClientStream: seq<byte>)
      returns (r: PollResult, ghost extended: seq<seq<RelaySpec.Turn>>)
      requires Valid() && |a.revents| == |a.ks| == |RelaySpec.WIRING|
      requires RelaySpec.Ok(s0, fromServerStream, fromClientStream)
      requires RelaySpec.Rounds(s0, rounds) && State() == RelaySpec.Run(s0, rounds)
      modifies this`actions, this`pollfds, dnsServer, client
      modifies fromClient, fromServer, fromClient.buffer, fromServer.buffer
      ensures Valid() && r != BusyWait && RelaySpec.Ok(State(), fromServerStream, fromClientStream)
      ensures RelaySpec.Rounds(s0, extended) && State() == RelaySpec.Run(s0, extended)
      ensures RelaySpec.Events(s0, extended) + RelaySpec.Work(State()) <= RelaySpec.Work(s0)
      ensures exists turns :: extended == rounds + [turns] && Follows(turns, a)
      ensures r == PollResult.Success ==> IsComplete(extended[|extended| - 1])
      ensures r == Timeout ==> a.timedOut
      ensures r == PollResult.Success && Helpful(a) ==>
                RelaySpec.Events(s0, extended) == RelaySpec.Events(s0, rounds) + 1
      ensures r == Exit && NoErrors(a) ==>
                && client.output == fromServerStream && dnsServer.output == fromClientStream
                && client.eof && dnsServer.eof
      ensures r == Exception ==> 0 in a.ks
    {
      hide RelaySpec.Ok, RelaySpec.Work, RelaySpec.Rounds, RelaySpec.Run, RelaySpec.Events, RelaySpec.Dispatch,
        RelaySpec.Possible, RelaySpec.Quits, RelaySpec.Reports;
      ghost var s := State();
      RelaySpec.RunKeepsOk(s0, rounds, fromServerStream, fromClientStream);
      var turns: seq<RelaySpec.Turn>;
      r, turns := Poll(a.timedOut, a.revents, a.ks);
      RelaySpec.OneMoreRound(s0, rounds, turns);
      extended := rounds + [turns];
      RelaySpec.RunKeepsOk(s0, extended, fromServerStream, fromClientStream);
      if r == Exit {
        RelaySpec.QuitsIffDone(s, fromServerStream, fromClientStream);
      }
      if r == PollResult.Success && Helpful(a) {
        RelaySpec.ReadyReports(s, turns);
      }
    }

    /** The relay's loop, over what the kernel does at each poll: until the poller exits, an
        exception, or the end of `script`; `rounds` are the turns taken at each poll. If the kernel
        reports no error and the loop exits, each peer has been sent every byte the other ever sends.
        Each poll that reports an event uses up some of the work left, so a kernel that always does
        gets the loop to exit within a bounded number of polls. */
    method Serve(script: seq<PollAnswer>, ghost fromServerStream: seq<byte>, ghost fromClientStream: seq<byte>)
      returns (r: PollResult, ghost rounds: seq<seq<RelaySpec.Turn>>)
      requires Valid() && RelaySpec.Ok(State(), fromServerStream, fromClientStream)
      requires forall a <- script :: |a.revents| == |a.ks| == |RelaySpec.WIRING|
      modifies this`actions, this`pollfds, dnsServer, client
      modifies fromClient, fromServer, fromClient.buffer, fromServer.buffer
      ensures Valid() && r != BusyWait && RelaySpec.Ok(State(), fromServerStream, fromClientStream)
      ensures RelaySpec.Rounds(old(State()), rounds) && State() == RelaySpec.Run(old(State()), rounds)
      ensures |rounds| <= |script| && forall i | 0 <= i < |rounds| :: Follows(rounds[i], script[i])
      ensures r == PollResult.Success || r == Timeout ==>
                |rounds| == |script| && forall i | 0 <= i < |rounds| :: script[i].timedOut || IsComplete(rounds[i])
      ensures r == Exit && (forall a <- script :: NoErrors(a)) ==>
                && client.output == fromServerStream && dnsServer.output == fromClientStream
                && client.eof && dnsServer.eof
      ensures r == Exception ==> exists a <- script :: 0 in a.ks
      ensures RelaySpec.Events(old(State()), rounds) + RelaySpec.Work(State()) <= RelaySpec.Work(old(State()))
      ensures AllHelpful(script) && |script| > RelaySpec.Work(old(State())) ==> r == Exit
    {
      hide RelaySpec.Ok, RelaySpec.Work, RelaySpec.Rounds, RelaySpec.Run, RelaySpec.Events, Follows, NoErrors,
        Helpful, IsComplete, TcpRelay.Valid, State;
      r, rounds := PollResult.Success, [];
      ghost var s0 := State();
      RelaySpec.NoRounds(s0);
      for i := 0 to |script|
        invariant Valid() && RelaySpec.Ok(State(), fromServerStream, fromClientStream)
        invariant r == PollResult.Success || r == Timeout
        invariant |rounds| == i && RelaySpec.Rounds(s0, rounds) && State() == RelaySpec.Run(s0, rounds)
        invariant forall j | 0 <= j < i :: Follows(rounds[j], script[j])
        invariant forall j | 0 <= j < i :: script[j].timedOut || IsComplete(rounds[j])
        invariant AllHelpful(script) ==> RelaySpec.Events(s0, rounds) == i
        invariant RelaySpec.Events(s0, rounds) + RelaySpec.Work(State()) <= RelaySpec.Work(s0)
      {
        r, rounds := PollOnce(script[i], s0, rounds, fromServerStream, fromClientStream);
        assert Helpful(script[i]) ==> r != Timeout && r != Exception by { Unhelpful(script[i]); }
        if r == Exit || r == Exception {
          return;
        }
      }
    }
  }

  /** What the kernel does at one poll. */
  datatype PollAnswer = PollAnswer(timedOut: bool, revents: seq<Revents>, ks: seq<nat>)

  /** The turns of a round are about what the kernel reported, entry by entry. */
  predicate Follows(turns: seq<RelaySpec.Turn>, a: PollAnswer) {
    && |turns| <= |a.revents| && (a.timedOut ==> turns == [])
    && forall i | 0 <= i < |turns| :: turns[i].ready == a.revents[i].ready && !a.revents[i].error
  }

  predicate NoErrors(a: PollAnswer) { forall v <- a.revents :: !v.error }

  predicate IsComplete(turns: seq<RelaySpec.Turn>) { |turns| == |RelaySpec.WIRING| }

  /** A kernel that reports every entry ready, no error, and moves at least one byte. */
  predicate Helpful(a: PollAnswer) {
    !a.timedOut && NoErrors(a) && (forall v <- a.revents :: v.ready) && (forall k <- a.ks :: k > 0)
  }

  lemma Unhelpful(a: PollAnswer)
    ensures a.timedOut || 0 in a.ks ==> !Helpful(a)
  {
  }

  predicate AllHelpful(script: seq<PollAnswer>) { forall i | 0 <= i < |script| :: Helpful(script[i]) }
}
