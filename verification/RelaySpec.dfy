/** The TCP relay on values: two byte flows, each with one queue, one pusher and one popper, and
    poll rounds that act on interest computed before the round. */
module RelaySpec {
  import opened Wrappers

  /** One direction: bytes still to come from the source, bytes read, bytes queued, bytes written
      to the sink, whether the source has ended, and whether its action is still active. */
  datatype Flow = Flow(
    unread: seq<byte>, read: seq<byte>, queue: seq<byte>, written: seq<byte>, eof: bool, active: bool)

  /** `down` runs from the DNS server to the client, `up` the other way; queues hold `capacity`. */
  datatype Relay = Relay(down: Flow, up: Flow, capacity: nat)

  datatype Callback = PushDown | PushUp | PopUp | PopDown

  /** The order of the `add_action` calls. */
  const WIRING: seq<Callback> := [PushDown, PushUp, PopUp, PopDown]

  function Start(fromServer: seq<byte>, fromClient: seq<byte>, capacity: nat): Relay {
    Relay(Flow(fromServer, [], [], [], false, true), Flow(fromClient, [], [], [], false, true), capacity)
  }

  predicate WantsPush(f: Flow, capacity: nat) { f.active && |f.queue| < capacity && !f.eof }

  predicate WantsPop(f: Flow) { f.queue != [] }

  /** What one entry of the poll set asks for. */
  predicate Interested(s: Relay, c: Callback) {
    match c
    case PushDown => WantsPush(s.down, s.capacity)
    case PushUp => WantsPush(s.up, s.capacity)
    case PopUp => WantsPop(s.up)
    case PopDown => WantsPop(s.down)
  }

  function Interests(s: Relay): (r: seq<bool>)
    ensures |r| == |WIRING| && forall i | 0 <= i < |r| :: r[i] == Interested(s, WIRING[i])
  {
    [Interested(s, PushDown), Interested(s, PushUp), Interested(s, PopUp), Interested(s, PopDown)]
  }

  /** `n` bytes move from the source into the queue; none means the end of the stream. */
  function Push(f: Flow, n: nat): Flow
    requires n <= |f.unread|
  {
    if n == 0 then f.(eof := true)
    else f.(unread := f.unread[n..], read := f.read + f.unread[..n], queue := f.queue + f.unread[..n])
  }

  /** `n` bytes move from the queue to the sink. */
  function Pop(f: Flow, n: nat): Flow
    requires n <= |f.queue|
  {
    f.(queue := f.queue[n..], written := f.written + f.queue[..n])
  }

  predicate CanPush(f: Flow, capacity: nat, n: nat) {
    n <= |f.unread| && |f.queue| + n <= capacity && (n == 0 <==> f.unread == [])
  }

  predicate CanPop(f: Flow, n: nat) { 0 < n <= |f.queue| }

  /** How many bytes a callback can move, whatever the kernel and the ring decide. */
  predicate Legal(s: Relay, c: Callback, n: nat) {
    match c
    case PushDown => CanPush(s.down, s.capacity, n)
    case PushUp => CanPush(s.up, s.capacity, n)
    case PopUp => CanPop(s.up, n)
    case PopDown => CanPop(s.down, n)
  }

  /** What a callback does to the two flows. */
  function Carry(s: Relay, c: Callback, n: nat): Relay
    requires Legal(s, c, n)
  {
    match c
    case PushDown => s.(down := Push(s.down, n))
    case PushUp => s.(up := Push(s.up, n))
    case PopUp => s.(up := Pop(s.up, n))
    case PopDown => s.(down := Pop(s.down, n))
  }

  predicate Cancels(c: Callback, n: nat) { n == 0 && (c.PushDown? || c.PushUp?) }

  /** The poller deactivates an action whose callback asked to be cancelled. */
  function Deactivate(s: Relay, c: Callback): Relay {
    match c
    case PushDown => s.(down := s.down.(active := false))
    case PushUp => s.(up := s.up.(active := false))
    case _ => s
  }

  function Move(s: Relay, c: Callback, n: nat): Relay
    requires Legal(s, c, n)
  {
    if Cancels(c, n) then Deactivate(Carry(s, c, n), c) else Carry(s, c, n)
  }

  /** One entry's turn in the dispatch loop: whether the kernel reports it ready, and how many
      bytes its callback then moves. */
  datatype Turn = Turn(ready: bool, n: nat)

  /** The turns so far are ones that can happen, given the interest snapshot. */
  predicate Possible(s: Relay, interest: seq<bool>, turns: seq<Turn>)
    requires |turns| <= |WIRING| == |interest|
    decreases |turns|, 0
  {
    turns == [] ||
    (var i := |turns| - 1;
     && Possible(s, interest, turns[..i])
     && (interest[i] && turns[i].ready ==> Legal(Dispatch(s, interest, turns[..i]), WIRING[i], turns[i].n)))
  }

  /** The state after the first `|turns|` entries of a round, on the snapshot `interest`. */
  function Dispatch(s: Relay, interest: seq<bool>, turns: seq<Turn>): Relay
    requires |turns| <= |WIRING| == |interest| && Possible(s, interest, turns)
    decreases |turns|, 1
  {
    if turns == [] then s
    else
      var i := |turns| - 1;
      var before := Dispatch(s, interest, turns[..i]);
      if interest[i] && turns[i].ready then Move(before, WIRING[i], turns[i].n) else before
  }

  lemma NoTurns(s: Relay, interest: seq<bool>)
    requires |interest| == |WIRING|
    ensures Possible(s, interest, []) && Dispatch(s, interest, []) == s
  {
  }

  // ---------------------------------------------------------------------------------------
  // Stable interest

  /** A callback leaves the interest of every other entry standing. */
  lemma MoveKeepsOtherInterest(s: Relay, c: Callback, n: nat, d: Callback)
    requires Legal(s, c, n) && c != d && Interested(s, d)
    ensures Interested(Move(s, c, n), d)
  {
  }

  /** Interest computed before the round still holds when each callback runs, although earlier
      callbacks of the round have changed the queues it was computed from. */
  lemma {:induction false} InterestIsStable(s: Relay, turns: seq<Turn>, j: nat)
    requires |turns| <= j < |WIRING| && Possible(s, Interests(s), turns) && Interested(s, WIRING[j])
    ensures Interested(Dispatch(s, Interests(s), turns), WIRING[j])
  {
    if turns != [] {
      var i := |turns| - 1;
      InterestIsStable(s, turns[..i], j);
      if Interests(s)[i] && turns[i].ready {
        MoveKeepsOtherInterest(Dispatch(s, Interests(s), turns[..i]), WIRING[i], turns[i].n, WIRING[j]);
      }
    }
  }

  /** Why one pusher and one popper per queue: after its own callback an entry may well have lost
      its interest, so a second entry on the same queue could not rely on the snapshot. */
  lemma OwnInterestEndsIff(s: Relay, c: Callback, n: nat)
    requires Legal(s, c, n) && Interested(s, c)
    ensures !Interested(Move(s, c, n), c) <==>
              match c
              case PushDown => n == 0 || |s.down.queue| + n == s.capacity
              case PushUp => n == 0 || |s.up.queue| + n == s.capacity
              case PopUp => n == |s.up.queue|
              case PopDown => n == |s.down.queue|
  {
  }

  /** A round makes one direction's reads: if its pusher had its turn and its event, its source had
      not ended and there was space, bytes are read, or the end of the stream is seen if nothing is
      left; otherwise nothing is. */
  ghost predicate Reads(f: Flow, f': Flow, capacity: nat, turn: bool) {
    if turn && f.active && !f.eof && |f.queue| < capacity
    then f'.eof == (f.unread == []) && (f.unread != [] ==> |f'.read| > |f.read|)
    else f'.eof == f.eof && f'.read == f.read
  }

  /** And its writes: if its popper had its turn and its event and the queue had something at the
      start of the round, bytes are written; otherwise nothing is. */
  ghost predicate Writes(f: Flow, f': Flow, turn: bool) {
    if turn && f.queue != [] then |f'.written| > |f.written| else f'.written == f.written
  }

  /** What a round does, complete or cut off, in terms of what the kernel reported and of the flows
      before it. */
  lemma {:induction false} RoundMoves(s: Relay, turns: seq<Turn>)
    requires |turns| <= |WIRING| && Possible(s, Interests(s), turns)
    ensures var s' := Dispatch(s, Interests(s), turns);
            && Reads(s.down, s'.down, s.capacity, 0 < |turns| && turns[0].ready)
            && Reads(s.up, s'.up, s.capacity, 1 < |turns| && turns[1].ready)
            && Writes(s.up, s'.up, 2 < |turns| && turns[2].ready)
            && Writes(s.down, s'.down, 3 < |turns| && turns[3].ready)
            && s'.capacity == s.capacity
            && (|turns| <= 0 ==> s'.down == s.down) && (|turns| <= 1 ==> s'.up == s.up)
  {
    if turns != [] {
      var i := |turns| - 1;
      RoundMoves(s, turns[..i]);
      if Interests(s)[i] && turns[i].ready {
        InterestIsStable(s, turns[..i], i);
      }
    }
  }

  // ---------------------------------------------------------------------------------------
  // What every callback keeps

  ghost predicate FlowOk(f: Flow, stream: seq<byte>, capacity: nat) {
    && f.read + f.unread == stream
    && f.written + f.queue == f.read
    && |f.queue| <= capacity
    && (f.active <==> !f.eof)
    && (f.eof ==> f.unread == [])
  }

  /** `fromServer` and `fromClient` are everything the two peers ever send. */
  ghost predicate Ok(s: Relay, fromServer: seq<byte>, fromClient: seq<byte>) {
    FlowOk(s.down, fromServer, s.capacity) && FlowOk(s.up, fromClient, s.capacity)
  }

  lemma PushKeepsOk(f: Flow, stream: seq<byte>, capacity: nat, n: nat)
    requires FlowOk(f, stream, capacity) && CanPush(f, capacity, n)
    ensures FlowOk(if n == 0 then Push(f, n).(active := false) else Push(f, n), stream, capacity)
  {
    assert f.unread == f.unread[..n] + f.unread[n..];
    assert (f.read + f.unread[..n]) + f.unread[n..] == f.read + f.unread;
    assert f.written + (f.queue + f.unread[..n]) == (f.written + f.queue) + f.unread[..n];
  }

  lemma PopKeepsOk(f: Flow, stream: seq<byte>, capacity: nat, n: nat)
    requires FlowOk(f, stream, capacity) && CanPop(f, n)
    ensures FlowOk(Pop(f, n), stream, capacity)
  {
    assert f.queue == f.queue[..n] + f.queue[n..];
    assert (f.written + f.queue[..n]) + f.queue[n..] == f.written + f.queue;
  }

  lemma MoveKeepsOk(s: Relay, c: Callback, n: nat, fromServer: seq<byte>, fromClient: seq<byte>)
    requires Ok(s, fromServer, fromClient) && Legal(s, c, n)
    ensures Ok(Move(s, c, n), fromServer, fromClient)
  {
    match c
    case PushDown => PushKeepsOk(s.down, fromServer, s.capacity, n);
    case PushUp => PushKeepsOk(s.up, fromClient, s.capacity, n);
    case PopUp => PopKeepsOk(s.up, fromClient, s.capacity, n);
    case PopDown => PopKeepsOk(s.down, fromServer, s.capacity, n);
  }

  lemma {:induction false} DispatchKeepsOk(s: Relay, turns: seq<Turn>, fromServer: seq<byte>, fromClient: seq<byte>)
    requires |turns| <= |WIRING| && Possible(s, Interests(s), turns) && Ok(s, fromServer, fromClient)
    ensures var s' := Dispatch(s, Interests(s), turns); Ok(s', fromServer, fromClient) && s'.capacity == s.capacity
  {
    if turns != [] {
      var i := |turns| - 1;
      DispatchKeepsOk(s, turns[..i], fromServer, fromClient);
      if Interests(s)[i] && turns[i].ready {
        MoveKeepsOk(Dispatch(s, Interests(s), turns[..i]), WIRING[i], turns[i].n, fromServer, fromClient);
      }
    }
  }

  // ---------------------------------------------------------------------------------------
  // Termination

  function FlowWork(f: Flow): nat { 2 * |f.unread| + |f.queue| + if f.eof then 0 else 1 }

  function Work(s: Relay): nat { FlowWork(s.down) + FlowWork(s.up) }

  /** Every callback that was interested does some of the work left. */
  lemma MoveDoesWork(s: Relay, c: Callback, n: nat)
    requires Legal(s, c, n) && Interested(s, c)
    ensures Work(Move(s, c, n)) < Work(s)
  {
  }

  lemma {:induction false} DispatchDoesWork(s: Relay, turns: seq<Turn>)
    requires |turns| <= |WIRING| && Possible(s, Interests(s), turns)
    ensures var s' := Dispatch(s, Interests(s), turns);
            && Work(s') <= Work(s)
            && (Reports(s, turns) ==> Work(s') < Work(s))
  {
    if turns != [] {
      var i := |turns| - 1;
      DispatchDoesWork(s, turns[..i]);
      if Interests(s)[i] && turns[i].ready {
        InterestIsStable(s, turns[..i], i);
        MoveDoesWork(Dispatch(s, Interests(s), turns[..i]), WIRING[i], turns[i].n);
      } else {
        forall j | 0 <= j < |turns| && Interests(s)[j] && turns[j].ready
          ensures exists k | 0 <= k < i :: Interests(s)[k] && turns[..i][k].ready
        {
          assert turns[..i][j] == turns[j];
        }
      }
    }
  }

  // ---------------------------------------------------------------------------------------
  // Whole runs

  /** A poll round, complete or cut off by an error; one that times out has no turns. */
  predicate Round(s: Relay, turns: seq<Turn>) { |turns| <= |WIRING| && Possible(s, Interests(s), turns) }

  /** Poll reported an event that was asked for, and it was acted on. */
  ghost predicate Reports(s: Relay, turns: seq<Turn>)
    requires |turns| <= |WIRING|
  {
    exists i | 0 <= i < |turns| :: Interests(s)[i] && turns[i].ready
  }

  ghost predicate Rounds(s: Relay, rounds: seq<seq<Turn>>)
    decreases |rounds|, 0
  {
    rounds == [] ||
    (var n := |rounds| - 1;
     Rounds(s, rounds[..n]) && Round(Run(s, rounds[..n]), rounds[n]))
  }

  ghost function Run(s: Relay, rounds: seq<seq<Turn>>): Relay
    requires Rounds(s, rounds)
    decreases |rounds|, 1
  {
    if rounds == [] then s
    else
      var n := |rounds| - 1;
      var before := Run(s, rounds[..n]);
      Dispatch(before, Interests(before), rounds[n])
  }

  /** How many of the rounds reported an event. */
  ghost function Events(s: Relay, rounds: seq<seq<Turn>>): nat
    requires Rounds(s, rounds)
  {
    if rounds == [] then 0
    else
      var n := |rounds| - 1;
      Events(s, rounds[..n]) + if Reports(Run(s, rounds[..n]), rounds[n]) then 1 else 0
  }

  lemma NoRounds(s: Relay)
    ensures Rounds(s, []) && Run(s, []) == s && Events(s, []) == 0
  {
  }

  lemma OneMoreRound(s: Relay, rounds: seq<seq<Turn>>, turns: seq<Turn>)
    requires Rounds(s, rounds) && Round(Run(s, rounds), turns)
    ensures Rounds(s, rounds + [turns])
    ensures var s' := Run(s, rounds); Run(s, rounds + [turns]) == Dispatch(s', Interests(s'), turns)
    ensures Events(s, rounds + [turns]) == Events(s, rounds) + if Reports(Run(s, rounds), turns) then 1 else 0
  {
    hide Dispatch, Possible;
    assert (rounds + [turns])[..|rounds|] == rounds;
  }

  lemma {:induction false} RunKeepsOk(
    s: Relay, rounds: seq<seq<Turn>>, fromServer: seq<byte>, fromClient: seq<byte>)
    requires Rounds(s, rounds) && Ok(s, fromServer, fromClient)
    ensures Ok(Run(s, rounds), fromServer, fromClient) && Run(s, rounds).capacity == s.capacity
    ensures Events(s, rounds) + Work(Run(s, rounds)) <= Work(s)
  {
    if rounds != [] {
      var n := |rounds| - 1;
      RunKeepsOk(s, rounds[..n], fromServer, fromClient);
      DispatchKeepsOk(Run(s, rounds[..n]), rounds[n], fromServer, fromClient);
      DispatchDoesWork(Run(s, rounds[..n]), rounds[n]);
    }
  }

  /** Nothing is interested: the poller's condition for exiting. */
  predicate Quits(s: Relay) { forall i | 0 <= i < |WIRING| :: !Interested(s, WIRING[i]) }

  /** Conservation, for any rounds with any read sizes and short writes, even ones cut off in the
      middle: in each direction the bytes read are the bytes written followed by the queue, which
      is within its capacity; and the directions never mix. */
  lemma RelayConserves(fromServer: seq<byte>, fromClient: seq<byte>, capacity: nat, rounds: seq<seq<Turn>>)
    requires Rounds(Start(fromServer, fromClient, capacity), rounds)
    ensures var s := Run(Start(fromServer, fromClient, capacity), rounds);
            && s.down.read == s.down.written + s.down.queue && s.down.written <= s.down.read <= fromServer
            && s.up.read == s.up.written + s.up.queue && s.up.written <= s.up.read <= fromClient
            && |s.down.queue| <= capacity && |s.up.queue| <= capacity
  {
    RunKeepsOk(Start(fromServer, fromClient, capacity), rounds, fromServer, fromClient);
  }

  lemma QuitsIffDone(s: Relay, fromServer: seq<byte>, fromClient: seq<byte>)
    requires Ok(s, fromServer, fromClient) && s.capacity > 0
    ensures Quits(s) <==> s.down.eof && s.down.written == fromServer && s.up.eof && s.up.written == fromClient
  {
    assert WIRING[0] == PushDown && WIRING[1] == PushUp && WIRING[2] == PopUp && WIRING[3] == PopDown;
    if s.down.eof && s.down.written == fromServer {
      assert |s.down.read| == |s.down.written| + |s.down.queue|;
    }
    if s.up.eof && s.up.written == fromClient {
      assert |s.up.read| == |s.up.written| + |s.up.queue|;
    }
  }

  /** A clean exit means full delivery, and nothing short of full delivery makes one: the poller
      quits exactly when both peers have signalled the end of their streams and every byte either
      ever sent has been written to the other, in order. */
  lemma QuitsIffDelivered(fromServer: seq<byte>, fromClient: seq<byte>, capacity: nat, rounds: seq<seq<Turn>>)
    requires capacity > 0 && Rounds(Start(fromServer, fromClient, capacity), rounds)
    ensures var s := Run(Start(fromServer, fromClient, capacity), rounds);
            Quits(s) <==>
            && s.down.eof && s.down.written == fromServer
            && s.up.eof && s.up.written == fromClient
  {
    RunKeepsOk(Start(fromServer, fromClient, capacity), rounds, fromServer, fromClient);
    QuitsIffDone(Run(Start(fromServer, fromClient, capacity), rounds), fromServer, fromClient);
  }

  /** The relay ends: the poll rounds that report an event number at most twice the bytes the
      peers send, plus two. */
  lemma RoundsAreBounded(fromServer: seq<byte>, fromClient: seq<byte>, capacity: nat, rounds: seq<seq<Turn>>)
    requires Rounds(Start(fromServer, fromClient, capacity), rounds)
    ensures Events(Start(fromServer, fromClient, capacity), rounds) <= 2 * (|fromServer| + |fromClient|) + 2
  {
    RunKeepsOk(Start(fromServer, fromClient, capacity), rounds, fromServer, fromClient);
  }

  /** As long as something is interested, a round in which every entry is ready reports an event. */
  lemma ReadyReports(s: Relay, turns: seq<Turn>)
    requires |turns| == |WIRING| && !Quits(s) && forall i | 0 <= i < |turns| :: turns[i].ready
    ensures Reports(s, turns)
  {
    var i :| 0 <= i < |WIRING| && Interested(s, WIRING[i]);
    assert Interests(s)[i] && turns[i].ready;
  }
}
