/** The ring buffer of the TCP relay. One slot stays unused, and sizes are `size_t`. */
module ByteStreamQueues {
  import opened Wrappers
  import opened FileDescriptors

  const SIZE_SPACE := 0x1_0000_0000_0000_0000

  /** No `std::string` is larger than this. */
  const MAX_STRING := 0x7fff_ffff_ffff_ffff

  /** `available_to_pop`, with the wrap-around of `size_t` after every operation. */
  function AvailableToPop(push: nat, pop: nat, size: nat): nat {
    ((push - pop) % SIZE_SPACE + if pop > push then size else 0) % SIZE_SPACE
  }

  /** `available_to_push`, likewise. */
  function AvailableToPush(push: nat, pop: nat, size: nat): nat {
    (((pop - push) % SIZE_SPACE - 1) % SIZE_SPACE + if pop > push then 0 else size) % SIZE_SPACE
  }

  /** What both loops of the ring do to a count that would run past the end of the buffer. */
  function Contiguous(next: nat, count: nat, size: nat): nat
    requires next < size
  {
    if (next + count) % SIZE_SPACE >= size then size - next else count
  }

  /** The arithmetic is exact, underflow and all: used and free space always add up to all but one
      of the slots. */
  lemma RingArithmeticIsExact(push: nat, pop: nat, size: nat)
    requires push < size && pop < size && size <= MAX_STRING
    ensures AvailableToPop(push, pop, size) == if pop <= push then push - pop else push - pop + size
    ensures AvailableToPop(push, pop, size) + AvailableToPush(push, pop, size) == size - 1
  {
    Wrap(push - pop);
    Wrap(pop - push);
    Wrap((pop - push) % SIZE_SPACE - 1);
    Wrap((push - pop) % SIZE_SPACE + if pop > push then size else 0);
    Wrap(((pop - push) % SIZE_SPACE - 1) % SIZE_SPACE + if pop > push then 0 else size);
  }

  /** What wrapping around does to one sum or difference of two sizes. */
  lemma Wrap(x: int)
    requires -SIZE_SPACE <= x < 2 * SIZE_SPACE
    ensures x % SIZE_SPACE == if x < 0 then x + SIZE_SPACE else if x < SIZE_SPACE then x else x - SIZE_SPACE
  {
  }

  /** A contiguous region is the smaller of what is available and what is left up to the end; it
      is not empty when something is available, and never leaves the buffer. */
  lemma ContiguousIsMin(next: nat, count: nat, size: nat)
    requires next < size <= MAX_STRING && count < size
    ensures Contiguous(next, count, size) == Min(count, size - next)
    ensures count > 0 ==> Contiguous(next, count, size) > 0
    ensures next + Contiguous(next, count, size) <= size
  {
  }

  /** The ring's contents, oldest byte first. */
  function Ring(buffer: seq<byte>, push: nat, pop: nat): seq<byte>
    requires push < |buffer| && pop < |buffer|
  {
    if pop <= push then buffer[pop..push] else buffer[pop..] + buffer[..push]
  }

  datatype PushResult = Pushed | EndOfFile

  class ByteStreamQueue {
    const buffer: array<byte>
    var nextPush: nat
    var nextPop: nat

    ghost predicate Valid() reads this {
      1 < buffer.Length <= MAX_STRING && nextPush < buffer.Length && nextPop < buffer.Length
    }

    ghost function Contents(): (s: seq<byte>)
      requires Valid()
      reads this, buffer
      ensures |s| == AvailableToPop(nextPush, nextPop, buffer.Length) < buffer.Length
    {
      Ring(buffer[..], nextPush, nextPop)
    }

    constructor (size: nat)
      requires 1 < size <= MAX_STRING
      ensures Valid() && fresh(buffer) && buffer.Length == size && Contents() == []
    {
      buffer := new byte[size](i => 0);
      nextPush, nextPop := 0, 0;
    }

    predicate SpaceAvailable()
      requires Valid()
      reads this, buffer
      ensures SpaceAvailable() <==> |Contents()| < buffer.Length - 1
    {
      hide AvailableToPush, AvailableToPop;
      RingArithmeticIsExact(nextPush, nextPop, buffer.Length);
      AvailableToPush(nextPush, nextPop, buffer.Length) > 0
    }

    predicate NonEmpty()
      requires Valid()
      reads this, buffer
      ensures NonEmpty() <==> Contents() != []
    {
      AvailableToPop(nextPush, nextPop, buffer.Length) > 0
    }

    /** Appends what one read of `fd` returns, `n` bytes; at the end of the stream, nothing. The read
        asks for as many as fit in before the buffer ends. */
    method Push(fd: FileDescriptor, k: nat) returns (r: PushResult, n: nat)
      requires Valid() && SpaceAvailable()
      modifies this`nextPush, buffer, fd`eof, fd`readCount, fd`unread, fd`received
      ensures Valid() && fd.readCount == Bump(old(fd.readCount))
      ensures n <= |old(fd.unread)| && |old(Contents())| + n < buffer.Length
      ensures fd.received == old(fd.received) + old(fd.unread)[..n] && fd.unread == old(fd.unread)[n..]
      ensures Contents() == old(Contents()) + old(fd.unread)[..n]
      ensures (r == EndOfFile <==> n == 0) && (n == 0 <==> old(fd.unread) == [])
      ensures fd.eof == (old(fd.eof) || n == 0)
      ensures var room := Min(buffer.Length - 1 - |old(Contents())|, buffer.Length - old(nextPush));
              n == Granted(k, Min(Min(BUFFER_SIZE, room), |old(fd.unread)|))
      ensures nextPush == if old(nextPush) + n == buffer.Length then 0 else old(nextPush) + n
    {
      hide AvailableToPop, AvailableToPush, Contiguous;
      RingArithmeticIsExact(nextPush, nextPop, buffer.Length);
      ContiguousIsMin(nextPush, AvailableToPush(nextPush, nextPop, buffer.Length), buffer.Length);
      var space := Contiguous(nextPush, AvailableToPush(nextPush, nextPop, buffer.Length), buffer.Length);
      var chunk := fd.Read(space, k);
      n := |chunk|;
      assert chunk == old(fd.unread)[..n];
      if chunk == [] {
        return EndOfFile, 0;
      }
      Store(chunk);
      return Pushed, n;
    }

    /** The copy into the buffer and the new push position. */
    method Store(chunk: seq<byte>)
      requires Valid() && chunk != [] && nextPush + |chunk| <= buffer.Length && |Contents()| + |chunk| < buffer.Length
      modifies this`nextPush, buffer
      ensures Valid() && Contents() == old(Contents()) + chunk
      ensures nextPush == if old(nextPush) + |chunk| == buffer.Length then 0 else old(nextPush) + |chunk|
    {
      ghost var before := buffer[..];
      forall i | 0 <= i < |chunk| {
        buffer[nextPush + i] := chunk[i];
      }
      assert buffer[..] == before[..nextPush] + chunk + before[nextPush + |chunk|..];
      PushAppends(before, buffer[..], nextPush, nextPop, chunk);
      nextPush := nextPush + |chunk|;
      if nextPush == buffer.Length {
        nextPush := 0;
      }
    }

    /** Removes what one write to `fd` takes from the front. The write offers as many bytes as there
        are before the buffer ends. None is the exception for a write that returned 0. */
    method Pop(fd: FileDescriptor, k: nat) returns (r: Option<nat>)
      requires Valid() && NonEmpty()
      modifies this`nextPop, fd`writeCount, fd`output
      ensures Valid()
      ensures r.None? <==> k == 0
      ensures r.None? ==> Contents() == old(Contents()) && fd.output == old(fd.output)
      ensures r.Some? ==>
                && r.value == Min(k, Min(|old(Contents())|, buffer.Length - old(nextPop)))
                && nextPop == (if old(nextPop) + r.value == buffer.Length then 0 else old(nextPop) + r.value)
                && 0 < r.value <= |old(Contents())| && fd.writeCount == Bump(old(fd.writeCount))
                && fd.output == old(fd.output) + old(Contents())[..r.value]
                && Contents() == old(Contents())[r.value..]
    {
      hide AvailableToPop, AvailableToPush, Contiguous, Ring;
      RingArithmeticIsExact(nextPush, nextPop, buffer.Length);
      ContiguousIsMin(nextPop, AvailableToPop(nextPush, nextPop, buffer.Length), buffer.Length);
      var count := Contiguous(nextPop, AvailableToPop(nextPush, nextPop, buffer.Length), buffer.Length);
      var region := buffer[nextPop..nextPop + count];
      assert region == buffer[..][nextPop..nextPop + count];
      var w := fd.WriteSome(region, 0, k);
      if w.Failure? {
        return None;
      }
      PopRemoves(buffer[..], nextPush, nextPop, w.value);
      FrontOfRegion(buffer[..], nextPop, count, w.value);
      Advance(w.value);
      return Some(w.value);
    }

    /** The new pop position. */
    method Advance(n: nat)
      requires Valid() && 0 < n <= |Contents()| && nextPop + n <= buffer.Length
      modifies this`nextPop
      ensures Valid() && Contents() == old(Contents())[n..]
      ensures nextPop == if old(nextPop) + n == buffer.Length then 0 else old(nextPop) + n
    {
      PopRemoves(buffer[..], nextPush, nextPop, n);
      nextPop := nextPop + n;
      if nextPop == buffer.Length {
        nextPop := 0;
      }
    }
  }

  lemma FrontOfRegion(buffer: seq<byte>, pop: nat, count: nat, n: nat)
    requires n <= count && pop + count <= |buffer|
    ensures buffer[pop..pop + count][0..n] == buffer[pop..pop + n]
  {
  }

  /** Writing `chunk` at the push position of a ring with room for it appends it. */
  lemma PushAppends(before: seq<byte>, after: seq<byte>, push: nat, pop: nat, chunk: seq<byte>)
    requires push < |before| && pop < |before| && push + |chunk| <= |before|
    requires |Ring(before, push, pop)| + |chunk| < |before|
    requires after == before[..push] + chunk + before[push + |chunk|..]
    ensures var push' := if push + |chunk| == |before| then 0 else push + |chunk|;
            Ring(after, push', pop) == Ring(before, push, pop) + chunk
  {
    if push < pop {
      assert after[pop..] == before[pop..];
      assert after[..push + |chunk|] == before[..push] + chunk;
    } else {
      assert after[pop..push + |chunk|] == before[pop..push] + chunk;
      if push + |chunk| == |before| {
        assert after[pop..] == after[pop..push + |chunk|];
      }
    }
  }

  /** Advancing the pop position removes the front. */
  lemma PopRemoves(buffer: seq<byte>, push: nat, pop: nat, n: nat)
    requires push < |buffer| && pop < |buffer| && pop + n <= |buffer| && 0 < n <= |Ring(buffer, push, pop)|
    ensures var pop' := if pop + n == |buffer| then 0 else pop + n;
            Ring(buffer, push, pop') == Ring(buffer, push, pop)[n..]
    ensures Ring(buffer, push, pop)[..n] == buffer[pop..pop + n]
  {
  }
}
