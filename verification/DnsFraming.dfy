/** One DNS request relayed over TCP: the two-byte length of section 4.2.2 of RFC 1035 in front of
    each message, and the loop that reassembles the response. */
module DnsFraming {
  import opened Wrappers
  import opened FileDescriptors

  const LENGTH_SPACE := 0x1_0000

  type Length = n: nat | n < LENGTH_SPACE

  /** The request with its length field, which is 16 bits wide. */
  function Frame(request: seq<byte>): seq<byte> {
    var n := |request| % LENGTH_SPACE;
    [n / 256, n % 256] + request
  }

  /** `be16toh` of the two bytes at `raw.data()`. A string's data ends with a NUL, and what comes
      after an empty string's NUL is `stale`. */
  function DeclaredLength(raw: seq<byte>, stale: byte): Length {
    if |raw| >= 2 then 256 * raw[0] + raw[1]
    else if |raw| == 1 then 256 * raw[0]
    else stale
  }

  /** The length field has its most significant byte first; a longer request wraps around in it. */
  lemma FrameFormat(request: seq<byte>)
    ensures var s := Frame(request);
            && |s| == |request| + 2 && s[2..] == request
            && s[0] == |request| / 256 % 256 && s[1] == |request| % 256
  {
  }

  /** How a receiver reads a framed message. None: fewer bytes than the length says, or more. */
  function Unframe(s: seq<byte>): Option<seq<byte>> {
    if |s| < 2 || |s| - 2 != DeclaredLength(s[..2], 0) then None else Some(s[2..])
  }

  /** A framed request decodes to the request exactly if it has at most 65535 bytes, which is all
      that the length field can say. */
  lemma FrameRoundTripIff(request: seq<byte>)
    ensures Unframe(Frame(request)) == Some(request) <==> |request| < LENGTH_SPACE
  {
    var n := |request| % LENGTH_SPACE;
    assert Frame(request)[..2] == [n / 256, n % 256];
    assert Frame(request)[2..] == request;
  }

  /** The bytes the reassembly loop collects when `rest` is still to come: at least one byte a
      read, as the kernel decides, until there are `declared` bytes or the stream ends. */
  function Collected(rest: seq<byte>, have: nat, declared: nat, kernel: nat -> nat, calls: nat): (n: nat)
    requires have <= |rest|
    ensures have <= n <= |rest| && (n < declared ==> n == |rest|)
    decreases |rest| - have
  {
    var chunk := Granted(kernel(calls), Min(BUFFER_SIZE, |rest| - have));
    if have >= declared || chunk == 0 then have else Collected(rest, have + chunk, declared, kernel, calls + 1)
  }

  /** A response of exactly the declared length is collected whole however it is chunked, and a
      shorter one never reaches it. */
  lemma {:induction false} ExactResponseIsCollected(
    rest: seq<byte>, have: nat, declared: nat, kernel: nat -> nat, calls: nat)
    requires have <= |rest|
    ensures |rest| == declared ==> Collected(rest, have, declared, kernel, calls) == declared
    ensures |rest| < declared ==> Collected(rest, have, declared, kernel, calls) < declared
    decreases |rest| - have
  {
    var chunk := Granted(kernel(calls), Min(BUFFER_SIZE, |rest| - have));
    if have < declared && chunk != 0 {
      ExactResponseIsCollected(rest, have + chunk, declared, kernel, calls + 1);
    }
  }

  /** The bytes that have come in after `count` reads, each limited by the buffer and by what is left
      and by nothing else. */
  function AfterReads(total: nat, kernel: nat -> nat, calls: nat, count: nat): (n: nat)
    ensures n <= total
  {
    if count == 0 then 0
    else
      var before := AfterReads(total, kernel, calls, count - 1);
      before + Granted(kernel(calls + count - 1), Min(BUFFER_SIZE, total - before))
  }

  /** The loop stops after the first read with which the declared length is reached, or the stream
      has ended; and it keeps everything that the reads return. */
  lemma {:induction false} StopsAtFirstReaching(
    rest: seq<byte>, declared: nat, kernel: nat -> nat, calls: nat, done: nat)
    returns (count: nat)
    requires forall m | 0 <= m < done :: AfterReads(|rest|, kernel, calls, m) < declared
    ensures Collected(rest, AfterReads(|rest|, kernel, calls, done), declared, kernel, calls + done)
            == AfterReads(|rest|, kernel, calls, count)
    ensures forall m | 0 <= m < count :: AfterReads(|rest|, kernel, calls, m) < declared
    ensures AfterReads(|rest|, kernel, calls, count) >= declared || AfterReads(|rest|, kernel, calls, count) == |rest|
    decreases |rest| - AfterReads(|rest|, kernel, calls, done)
  {
    var have := AfterReads(|rest|, kernel, calls, done);
    if have >= declared || have == |rest| {
      count := done;
    } else {
      assert AfterReads(|rest|, kernel, calls, done + 1)
          == have + Granted(kernel(calls + done), Min(BUFFER_SIZE, |rest| - have));
      count := StopsAtFirstReaching(rest, declared, kernel, calls, done + 1);
    }
  }

  /** So the bytes collected are the first sum of reads that reaches the declared length, or all. */
  lemma CollectedIsFirstReaching(rest: seq<byte>, declared: nat, kernel: nat -> nat, calls: nat)
    ensures exists count: nat ::
              && Collected(rest, 0, declared, kernel, calls) == AfterReads(|rest|, kernel, calls, count)
              && (forall m | 0 <= m < count :: AfterReads(|rest|, kernel, calls, m) < declared)
              && (AfterReads(|rest|, kernel, calls, count) >= declared
                  || AfterReads(|rest|, kernel, calls, count) == |rest|)
  {
    var count := StopsAtFirstReaching(rest, declared, kernel, calls, 0);
  }

  /** In particular a read asks for more than is missing: a segment with surplus bytes is taken
      whole, so the response is refused. */
  lemma SurplusSegmentIsTakenWhole(rest: seq<byte>, declared: Length, kernel: nat -> nat, calls: nat)
    requires 0 < declared && |rest| <= BUFFER_SIZE && kernel(calls) >= |rest|
    ensures Collected(rest, 0, declared, kernel, calls) == |rest|
  {
    if rest != [] {
      assert Granted(kernel(calls), Min(BUFFER_SIZE, |rest|)) == |rest|;
      assert Collected(rest, |rest|, declared, kernel, calls + 1) == |rest|;
    }
  }

  /** Whether the bytes collected total the declared length does not depend on how the response is
      chunked exactly if nothing is declared or the response is not longer than declared. */
  lemma ChunksDoNotMatterIff(rest: seq<byte>, declared: Length)
    ensures (forall kernel, other ::
               Collected(rest, 0, declared, kernel, 0) == declared
               <==> Collected(rest, 0, declared, other, 0) == declared)
            <==> declared == 0 || |rest| <= declared
  {
    if declared == 0 || |rest| <= declared {
      forall kernel, other
        ensures Collected(rest, 0, declared, kernel, 0) == declared
                <==> Collected(rest, 0, declared, other, 0) == declared
      {
        ExactResponseIsCollected(rest, 0, declared, kernel, 0);
        ExactResponseIsCollected(rest, 0, declared, other, 0);
      }
    } else {
      assert Collected(rest, 0, declared, i => declared, 0) == declared;
      assert Collected(rest, 0, declared, i => |rest|, 0) != declared;
    }
  }

  /** What is relayed of a stream: the message collected, if it has the length the first read
      declared. */
  function Relayed(stream: seq<byte>, had: nat -> nat, stale: byte): Option<seq<byte>> {
    var raw := stream[..Granted(had(0), Min(2, |stream|))];
    var rest := stream[|raw|..];
    var n := Collected(rest, 0, DeclaredLength(raw, stale), had, 1);
    if n == DeclaredLength(raw, stale) then Some(rest[..n]) else None
  }

  datatype DnsError = WriteFailed | LengthMismatch

  /** The reassembly loop. The kernel has `had(i)` bytes at the `i`-th read of the connection, of
      which the length field's was the first. */
  method CollectResponse(dnsServer: FileDescriptor, declared: Length, had: nat -> nat) returns (response: seq<byte>)
    modifies dnsServer
    ensures response == old(dnsServer.unread)[..Collected(old(dnsServer.unread), 0, declared, had, 1)]
    ensures 0 < declared && had(1) >= |old(dnsServer.unread)| && |old(dnsServer.unread)| <= BUFFER_SIZE ==>
              response == old(dnsServer.unread)
    ensures dnsServer.received == old(dnsServer.received) + response && dnsServer.output == old(dnsServer.output)
  {
    response := [];
    var calls := 1;
    ghost var rest := dnsServer.unread;
    while |response| < declared
      invariant |response| <= |rest| && response == rest[..|response|] && dnsServer.unread == rest[|response|..]
      invariant dnsServer.received == old(dnsServer.received) + response && dnsServer.output == old(dnsServer.output)
      invariant Collected(rest, 0, declared, had, 1) == Collected(rest, |response|, declared, had, calls)
      decreases |rest| - |response|
    {
      var chunk := dnsServer.Read(BUFFER_SIZE, had(calls));
      NextChunk(rest, |response|, chunk, dnsServer.unread);
      if chunk == [] {
        break;
      }
      response, calls := response + chunk, calls + 1;
    }
    if 0 < declared && had(1) >= |rest| && |rest| <= BUFFER_SIZE {
      SurplusSegmentIsTakenWhole(rest, declared, had, 1);
    }
  }

  lemma NextChunk(rest: seq<byte>, have: nat, chunk: seq<byte>, left: seq<byte>)
    requires have <= |rest| && chunk + left == rest[have..]
    ensures have + |chunk| <= |rest|
    ensures rest[..have] + chunk == rest[..have + |chunk|] && left == rest[have + |chunk|..]
  {
    assert rest == rest[..have] + (chunk + left);
  }

  /** The reading half of the exchange. */
  method ReceiveResponse(dnsServer: FileDescriptor, had: nat -> nat, stale: byte)
    returns (r: Result<seq<byte>, DnsError>)
    modifies dnsServer
    ensures dnsServer.output == old(dnsServer.output)
    ensures r == match Relayed(old(dnsServer.unread), had, stale)
                 case None => Failure(LengthMismatch)
                 case Some(response) => Success(response)
  {
    ghost var stream := dnsServer.unread;
    var raw := dnsServer.Read(2, had(0));
    assert raw == stream[..Granted(had(0), Min(2, |stream|))] && dnsServer.unread == stream[|raw|..];
    var declared := DeclaredLength(raw, stale);
    var response := CollectResponse(dnsServer, declared, had);
    return if |response| != declared then Failure(LengthMismatch) else Success(response);
  }

  /** Sends the framed request to the DNS server and collects the response. The kernel takes
      `taken(i)` bytes at the `i`-th write. */
  method HandleUdp(dnsServer: FileDescriptor, request: seq<byte>, taken: nat -> nat, had: nat -> nat, stale: byte)
    returns (r: Result<seq<byte>, DnsError>)
    modifies dnsServer
    ensures r == Failure(WriteFailed) ==> exists i :: taken(i) == 0
    ensures r != Failure(WriteFailed) ==>
              && dnsServer.output == old(dnsServer.output) + Frame(request)
              && r == match Relayed(old(dnsServer.unread), had, stale)
                      case None => Failure(LengthMismatch)
                      case Some(response) => Success(response)
  {
    var w := dnsServer.Write(Frame(request), true, taken);
    if w.Failure? {
      assert w.error == WroteZero;
      return Failure(WriteFailed);
    }
    r := ReceiveResponse(dnsServer, had, stale);
  }

  /** With both length bytes in the first read, what is relayed is what the framing says, whatever
      the chunks, exactly if the stream is not longer than declared. */
  lemma FramingIsFollowedIff(stream: seq<byte>, stale: byte)
    requires |stream| >= 2
    ensures (forall had: nat -> nat | had(0) >= 2 :: Relayed(stream, had, stale) == Unframe(stream))
            <==> |stream| - 2 <= DeclaredLength(stream[..2], 0)
  {
    var declared := DeclaredLength(stream[..2], 0);
    if |stream| - 2 <= declared {
      forall had: nat -> nat | had(0) >= 2
        ensures Relayed(stream, had, stale) == Unframe(stream)
      {
        RelayedIfComplete(stream, had, stale);
      }
    } else {
      var had := i => if i == 0 then 2 else declared;
      assert stream[..Granted(had(0), Min(2, |stream|))] == stream[..2];
      assert Collected(stream[2..], 0, declared, had, 1) == declared;
      assert had(0) >= 2 && Relayed(stream, had, stale) != Unframe(stream);
    }
  }

  /** A response that is not longer than declared is relayed exactly if it is complete. */
  lemma RelayedIfComplete(stream: seq<byte>, had: nat -> nat, stale: byte)
    requires |stream| >= 2 && had(0) >= 2 && |stream| - 2 <= DeclaredLength(stream[..2], 0)
    ensures Relayed(stream, had, stale) == Unframe(stream)
  {
    assert stream[..Granted(had(0), Min(2, |stream|))] == stream[..2];
    ExactResponseIsCollected(stream[2..], 0, DeclaredLength(stream[..2], 0), had, 1);
    assert stream[2..][..|stream| - 2] == stream[2..];
  }

  /** With a response that came in one segment with surplus bytes behind it, nothing is relayed. */
  lemma SurplusSegmentIsRefused(stream: seq<byte>, had: nat -> nat, stale: byte)
    requires 2 <= |stream| <= BUFFER_SIZE && had(0) >= 2 && had(1) >= |stream| - 2
    requires 0 < DeclaredLength(stream[..2], 0) < |stream| - 2
    ensures Relayed(stream, had, stale) == None
  {
    assert stream[..Granted(had(0), Min(2, |stream|))] == stream[..2];
    SurplusSegmentIsTakenWhole(stream[2..], DeclaredLength(stream[..2], 0), had, 1);
  }

  /** A DNS server that sends nothing: the two bytes behind the empty string are a NUL and `stale`. */
  lemma NothingReceived(had: nat -> nat, stale: byte)
    ensures Relayed([], had, stale) == if stale == 0 then Some([]) else None
  {
  }

  lemma {:induction false} ShiftedIsConstant(s: seq<byte>, i: nat)
    requires i < |s| && s == [0] + s[..|s| - 1]
    ensures s[i] == 0
  {
    if i > 0 {
      ShiftedIsConstant(s, i - 1);
      assert s[i] == s[..|s| - 1][i - 1];
    }
  }

  lemma FrameParts(response: seq<byte>)
    requires 0 < |response| < LENGTH_SPACE
    ensures var stream := Frame(response);
            && |stream| == |response| + 2
            && stream[..2] == [|response| / 256, |response| % 256] && stream[2..] == response
            && stream[..1] == [|response| / 256] && stream[1..] == [|response| % 256] + response
            && DeclaredLength(stream[..2], 0) == |response|
  {
  }

  lemma EmptyIsRelayed(had: nat -> nat, stale: byte)
    ensures Relayed(Frame([]), had, stale) == Some([])
  {
    assert Frame([]) == [0, 0];
    assert [0, 0][..Granted(had(0), 2)][0] == 0;
  }

  lemma BothBytesRelay(response: seq<byte>, had: nat -> nat, stale: byte)
    requires 0 < |response| < LENGTH_SPACE && had(0) >= 2
    ensures Relayed(Frame(response), had, stale) == Some(response)
  {
    FrameParts(response);
    RelayedIfComplete(Frame(response), had, stale);
  }

  predicate AllNul(s: seq<byte>) { forall i | 0 <= i < |s| :: s[i] == 0 }

  /** After a first read of one byte, that byte is taken for the high half of the length and the low
      half for part of the message. */
  lemma OneByteMisleads(response: seq<byte>, had: nat -> nat, stale: byte)
    requires 0 < |response| < LENGTH_SPACE && had(0) < 2
    ensures var rest, declared := [|response| % 256] + response, 256 * (|response| / 256);
            Relayed(Frame(response), had, stale)
            == if Collected(rest, 0, declared, had, 1) == declared then Some(rest[..declared]) else None
  {
    FrameParts(response);
    var stream := Frame(response);
    assert stream[..Granted(had(0), Min(2, |stream|))] == stream[..1];
  }

  lemma ShiftedIsNul(response: seq<byte>)
    requires response != []
    ensures ([0] + response)[..|response|] == response <==> AllNul(response)
  {
    if ([0] + response)[..|response|] == response {
      assert ([0] + response)[..|response|] == [0] + response[..|response| - 1];
      forall i | 0 <= i < |response| ensures response[i] == 0 { ShiftedIsConstant(response, i); }
    }
  }

  /** A correctly framed response is relayed as it was sent exactly when the first read returns both
      length bytes, or the response is empty; or by chance, when it is nothing but NULs, a multiple
      of 256 of them, and the reads happen to stop at the length declared. */
  lemma FramedResponseIsRelayedIff(response: seq<byte>, had: nat -> nat, stale: byte)
    requires |response| < LENGTH_SPACE
    ensures Relayed(Frame(response), had, stale) == Some(response)
            <==> || had(0) >= 2 || response == []
                 || (AllNul(response) && |response| % 256 == 0
                     && Collected([0] + response, 0, |response|, had, 1) == |response|)
  {
    hide Frame, Relayed, Collected;
    if response == [] {
      EmptyIsRelayed(had, stale);
    } else if had(0) >= 2 {
      BothBytesRelay(response, had, stale);
    } else {
      OneByteMisleads(response, had, stale);
      ShiftedIsNul(response);
    }
  }
}
