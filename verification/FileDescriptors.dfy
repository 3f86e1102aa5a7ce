/** File descriptors: one read, one short write, and the loop that writes everything. What the
    kernel decides (how many bytes a call moves) is a parameter of each call. */
module FileDescriptors {
  import opened Wrappers
  import opened Text

  /** The maximum size of a read. */
  const BUFFER_SIZE: nat := 1024 * 1024

  /** The service counters are `unsigned int`. */
  const COUNT_SPACE := 0x1_0000_0000

  datatype WriteError = NothingToWrite | WroteZero

  function Min(a: nat, b: nat): nat { if a < b then a else b }

  /** A blocking read of at most `most` bytes returns some of them if there are any. */
  function Granted(k: nat, most: nat): (n: nat)
    ensures n <= most && (n == 0 <==> most == 0) && (0 < k ==> n == Min(k, most))
  {
    if most == 0 then 0 else if k == 0 then 1 else Min(k, most)
  }

  /** How many of `total` bytes the kernel takes in the first `calls` write calls. */
  function Taken(total: nat, kernel: nat -> nat, calls: nat): (n: nat)
    ensures n <= total
  {
    if calls == 0 then 0
    else
      var before := Taken(total, kernel, calls - 1);
      before + Min(kernel(calls - 1), total - before)
  }

  lemma TakenNext(total: nat, kernel: nat -> nat, calls: nat)
    ensures Taken(total, kernel, 0) == 0
    ensures var before := Taken(total, kernel, calls);
            Taken(total, kernel, calls + 1) == before + Min(kernel(calls), total - before)
  {
  }

  type Count = n: nat | n < COUNT_SPACE

  /** One more service call, which is visible even when the counter wraps. */
  function Bump(count: Count): (r: Count)
    ensures r == if count < COUNT_SPACE - 1 then count + 1 else 0
  {
    (count + 1) % COUNT_SPACE
  }

  /** A socket. `unread` is what its peer has still to send before the end of the stream;
      `received` and `output` are the bytes read from and written to it so far. `address` is where
      its bytes are meant to go: the address it is connected to, or the original destination of a
      connection that was accepted. */
  class FileDescriptor {
    const num: int
    const address: Address
    var eof: bool
    var readCount: Count
    var writeCount: Count
    var unread: seq<byte>
    var received: seq<byte>
    var output: seq<byte>

    constructor (num: int, address: Address, incoming: seq<byte>)
      requires num > 2
      ensures this.num == num && this.address == address
      ensures unread == incoming && received == [] && output == [] && !eof
    {
      this.num, this.address := num, address;
      eof, readCount, writeCount := false, 0, 0;
      unread, received, output := incoming, [], [];
    }

    method RegisterRead()
      modifies this`readCount
      ensures readCount == Bump(old(readCount))
    {
      readCount := Bump(readCount);
    }

    /** Reads at most `limit` bytes; an empty result marks the end of the stream. */
    method Read(limit: nat, k: nat) returns (chunk: seq<byte>)
      modifies this`eof, this`readCount, this`unread, this`received
      ensures readCount == Bump(old(readCount))
      ensures |chunk| == Granted(k, Min(Min(BUFFER_SIZE, limit), |old(unread)|))
      ensures chunk + unread == old(unread)
      ensures received == old(received) + chunk
      ensures eof == (old(eof) || chunk == [])
    {
      var n := Granted(k, Min(Min(BUFFER_SIZE, limit), |unread|));
      chunk := unread[..n];
      unread := unread[n..];
      received := received + chunk;
      if n == 0 {
        eof := true;
      }
      RegisterRead();
    }

    /** Writes a portion of `buffer[start..]`; `k` is what the kernel is ready to take. */
    method WriteSome(buffer: seq<byte>, start: nat, k: nat) returns (r: Result<nat, WriteError>)
      requires start <= |buffer|
      modifies this`writeCount, this`output
      ensures r == if start == |buffer| then Failure(NothingToWrite)
                   else if k == 0 then Failure(WroteZero)
                   else Success(start + Min(k, |buffer| - start))
      ensures r.Success? ==> output == old(output) + buffer[start..r.value] && writeCount == Bump(old(writeCount))
      ensures r.Failure? ==> output == old(output) && writeCount == old(writeCount)
    {
      if start >= |buffer| {
        return Failure(NothingToWrite);
      }
      var n := Min(k, |buffer| - start);
      output := output + buffer[start..start + n];
      if n == 0 {
        return Failure(WroteZero);
      }
      writeCount := Bump(writeCount);
      return Success(start + n);
    }

    /** The write method: one short write, and with `writeAll` as many more as it takes. The
        kernel takes `kernel(i)` bytes at the `i`-th call. It fails at the first call that takes
        nothing, and only then. */
    method Write(buffer: seq<byte>, writeAll: bool, kernel: nat -> nat) returns (r: Result<nat, WriteError>)
      modifies this`writeCount, this`output
      ensures r.Success? ==> 0 < r.value <= |buffer| && output == old(output) + buffer[..r.value]
      ensures r.Success? && writeAll ==> output == old(output) + buffer && r.value == |buffer|
      ensures !writeAll && buffer != [] ==>
                r == if kernel(0) == 0 then Failure(WroteZero) else Success(Min(kernel(0), |buffer|))
      ensures r == Failure(WroteZero) ==>
                exists i: nat ::
                  && kernel(i) == 0 && (forall j: nat | j < i :: kernel(j) > 0)
                  && Taken(|buffer|, kernel, i) < |buffer|
                  && output == old(output) + buffer[..Taken(|buffer|, kernel, i)]
      ensures buffer != [] && (forall i: nat | i < |buffer| :: kernel(i) > 0) ==> r.Success?
      ensures r == Failure(NothingToWrite) <==> buffer == []
      ensures r.Failure? ==> exists j | 0 <= j <= |buffer| :: output == old(output) + buffer[..j]
      ensures r == Failure(WroteZero) ==> exists i :: kernel(i) == 0
      ensures buffer == [] ==> output == old(output)
    {
      hide Taken, Bump;
      TakenNext(|buffer|, kernel, 0);
      r := WriteSome(buffer, 0, kernel(0));
      if r.Failure? {
        assert output == old(output) + buffer[..Taken(|buffer|, kernel, 0)];
        return;
      }
      var it, calls := r.value, 1;
      while writeAll && it != |buffer|
        invariant 0 < it <= |buffer| && r == Success(it)
        invariant output == old(output) + buffer[..it]
        invariant it == Taken(|buffer|, kernel, calls) && calls <= it && forall j: nat | j < calls :: kernel(j) > 0
        invariant !writeAll ==> it == Min(kernel(0), |buffer|)
        decreases |buffer| - it
      {
        r := WriteSome(buffer, it, kernel(calls));
        if r.Failure? {
          return;
        }
        TakenNext(|buffer|, kernel, calls);
        assert buffer[..it] + buffer[it..r.value] == buffer[..r.value];
        it, calls := r.value, calls + 1;
      }
      assert buffer[..|buffer|] == buffer;
    }
  }

  /** What one read gets of a datagram: the kernel cuts it at the buffer's size. */
  function Truncated(datagram: seq<byte>): (r: seq<byte>)
    ensures r <= datagram && |r| <= BUFFER_SIZE
    ensures |datagram| <= BUFFER_SIZE ==> r == datagram
    ensures |datagram| > BUFFER_SIZE ==> |r| == BUFFER_SIZE
  {
    datagram[..Min(BUFFER_SIZE, |datagram|)]
  }

  /** The client's UDP socket, connected to the server. `sent` are the datagrams it sent. */
  class UdpSocket {
    const num: int
    var eof: bool
    var readCount: Count
    var writeCount: Count
    var sent: seq<seq<byte>>

    constructor (num: int)
      requires num > 2
      ensures this.num == num && sent == [] && !eof && readCount == 0 && writeCount == 0
    {
      this.num := num;
      eof, readCount, writeCount, sent := false, 0, 0, [];
    }

    /** The kernel has `datagram`. An empty one looks like the end of a stream. */
    method Read(datagram: seq<byte>) returns (r: seq<byte>)
      modifies this`eof, this`readCount
      ensures r == Truncated(datagram) && readCount == Bump(old(readCount))
      ensures eof == (old(eof) || datagram == [])
    {
      r := Truncated(datagram);
      if r == [] {
        eof := true;
      }
      readCount := Bump(readCount);
    }

    /** A datagram goes out whole; an empty one would be refused. */
    method Write(datagram: seq<byte>)
      requires datagram != []
      modifies this`sent, this`writeCount
      ensures sent == old(sent) + [datagram] && writeCount == Bump(old(writeCount))
    {
      sent := sent + [datagram];
      writeCount := Bump(writeCount);
    }
  }

  /** The server's UDP socket, which answers the source of the latest datagram. `sent` are the
      datagrams it sent, and `destinations` where each one went. */
  class AutoSocket {
    const num: int
    var savedAddress: Address
    var readCount: Count
    var writeCount: Count
    var sent: seq<seq<byte>>
    var destinations: seq<Address>

    constructor (num: int)
      requires num > 2
      ensures this.num == num && savedAddress == NO_ADDRESS && sent == [] && destinations == []
      ensures readCount == 0 && writeCount == 0
    {
      this.num := num;
      savedAddress, readCount, writeCount, sent, destinations := NO_ADDRESS, 0, 0, [], [];
    }

    /** The kernel has `datagram` from `source`. */
    method Read(source: Address, datagram: seq<byte>) returns (r: seq<byte>)
      modifies this`savedAddress, this`readCount
      ensures r == datagram && savedAddress == source && readCount == Bump(old(readCount))
    {
      savedAddress := source;
      readCount := Bump(readCount);
      return datagram;
    }

    /** Without a saved address the datagram is dropped, which still counts as a write. */
    method Write(datagram: seq<byte>)
      modifies this`sent, this`destinations, this`writeCount
      ensures writeCount == Bump(old(writeCount))
      ensures savedAddress == NO_ADDRESS ==> sent == old(sent) && destinations == old(destinations)
      ensures savedAddress != NO_ADDRESS ==>
                sent == old(sent) + [datagram] && destinations == old(destinations) + [savedAddress]
    {
      writeCount := Bump(writeCount);
      if savedAddress == NO_ADDRESS {
        return;
      }
      sent, destinations := sent + [datagram], destinations + [savedAddress];
    }
  }
}
