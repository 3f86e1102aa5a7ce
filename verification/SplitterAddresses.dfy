/** Where things go, told from the events of a process alone: the destination each uid was accepted
    for, the address each uid was opened to, and the address each datagram of the server goes to. */
module SplitterAddresses {
  import opened Wrappers
  import opened Text
  import opened SplitTcpPacket
  import opened SplitterSpec

  /** The event is an accept. */
  predicate IsAccept(c: ClientState, call: Call) {
    call.fd in c.table.actions && c.table.actions[call.fd].AcceptReady?
  }

  /** The event takes a datagram from the tunnel. */
  predicate IsTunnel(s: ServerState, call: Call) {
    call.fd in s.table.actions && s.table.actions[call.fd].TunnelReady?
  }

  /** The packet that an event of the server announces a connection with, if it does. */
  function AnnouncementIn(s: ServerState, call: Call): Option<Packet> {
    if IsTunnel(s, call) then Announcing(Parse(call.reply.datagram)) else None
  }

  function Announcing(packet: Option<Packet>): Option<Packet> {
    if packet.Some? && packet.value.newConnection then packet else None
  }

  /** The original destination of the latest connection that was accepted with this uid. */
  function MeantFor(c: ClientState, calls: seq<Call>, uid: Uid): Option<Address> {
    if calls == [] then None
    else
      var n := |calls| - 1;
      match ClientBatch(c, calls[..n])
      case None => None
      case Some(b) =>
        if IsAccept(b.state, calls[n]) && b.state.nextUid == uid then Some(calls[n].reply.dest)
        else MeantFor(c, calls[..n], uid)
  }

  /** The address that the latest announcement of this uid asked for. */
  function OpenedTo(s: ServerState, calls: seq<Call>, uid: Uid): Option<Address> {
    if calls == [] then None
    else
      var n := |calls| - 1;
      match ServerBatch(s, calls[..n])
      case None => None
      case Some(b) =>
        match AnnouncementIn(b.state, calls[n])
        case None => OpenedTo(s, calls[..n], uid)
        case Some(p) => if p.uid == uid then ParseAddress(p.body) else OpenedTo(s, calls[..n], uid)
  }

  /** The source of the latest datagram that came through the tunnel. */
  function LatestSource(s: ServerState, calls: seq<Call>): Address {
    if calls == [] then NO_ADDRESS
    else
      var n := |calls| - 1;
      match ServerBatch(s, calls[..n])
      case None => NO_ADDRESS
      case Some(b) => if IsTunnel(b.state, calls[n]) then calls[n].reply.from else LatestSource(s, calls[..n])
  }

  function Repeated(a: Address, n: nat): (r: seq<Address>)
    ensures |r| == n && forall i | 0 <= i < n :: r[i] == a
  {
    if n == 0 then [] else Repeated(a, n - 1) + [a]
  }

  /** Where the datagrams sent so far should have gone: each to the source of the latest datagram
      that had come in by then. */
  function Destinations(s: ServerState, calls: seq<Call>): seq<Address> {
    if calls == [] then []
    else
      var n := |calls| - 1;
      match ServerBatch(s, calls[..n])
      case None => []
      case Some(b) =>
        var o := ServerEvent(b.state, calls[n]);
        Destinations(s, calls[..n]) + Repeated(LatestSource(s, calls), if o.Ran? then |o.sent| else 0)
  }

  lemma MeantForExtends(c: ClientState, calls: seq<Call>, call: Call, uid: Uid)
    requires ClientBatch(c, calls).Some?
    ensures var state := ClientBatch(c, calls).value.state;
            MeantFor(c, calls + [call], uid)
            == if IsAccept(state, call) && state.nextUid == uid then Some(call.reply.dest) else MeantFor(c, calls, uid)
  {
    assert (calls + [call])[..|calls|] == calls;
  }

  lemma OpenedToExtends(s: ServerState, calls: seq<Call>, call: Call, uid: Uid)
    requires ServerBatch(s, calls).Some?
    ensures OpenedTo(s, calls + [call], uid)
            == match AnnouncementIn(ServerBatch(s, calls).value.state, call)
               case None => OpenedTo(s, calls, uid)
               case Some(p) => if p.uid == uid then ParseAddress(p.body) else OpenedTo(s, calls, uid)
  {
    hide ParseAddress;
    assert (calls + [call])[..|calls|] == calls;
  }

  lemma DestinationsExtend(s: ServerState, calls: seq<Call>, call: Call)
    requires ServerBatch(s, calls).Some?
    ensures var state := ServerBatch(s, calls).value.state;
            var o := ServerEvent(state, call);
            && LatestSource(s, calls + [call])
               == (if IsTunnel(state, call) then call.reply.from else LatestSource(s, calls))
            && Destinations(s, calls + [call])
               == Destinations(s, calls)
                  + Repeated(LatestSource(s, calls + [call]), if o.Ran? then |o.sent| else 0)
  {
    hide ServerEvent;
    assert (calls + [call])[..|calls|] == calls;
  }

  /** There is one destination for each packet sent. */
  lemma {:induction false} OneDestinationEach(s: ServerState, calls: seq<Call>)
    requires ServerBatch(s, calls).Some?
    ensures |Destinations(s, calls)| == |ServerBatch(s, calls).value.sent|
  {
    hide ServerEvent;
    if calls != [] {
      OneDestinationEach(s, calls[..|calls| - 1]);
    }
  }
}
