/** The ring of fixed-size blocks in TOOLS/buffer.c.  A block becomes readable only when it is full. */
module BlockRing {
  import opened Wrappers

  const BUFFSIZE := 1024
  const NUM_BUFS := 64
  const CAPACITY := NUM_BUFS * BUFFSIZE

  type Byte = b: int | 0 <= b < 256

  /** The block and the offset in it of the byte at distance p from the start of block `first`. */
  function BlockOf(first: nat, p: nat): (b: int)
    ensures 0 <= b < NUM_BUFS
  {
    (first + p / BUFFSIZE) % NUM_BUFS
  }

  function OffsetOf(p: nat): (o: int)
    ensures 0 <= o < BUFFSIZE
  {
    p % BUFFSIZE
  }

  lemma WritePlace(first: nat, full: nat, o: nat)
    requires o < BUFFSIZE
    ensures BlockOf(first, full * BUFFSIZE + o) == (first + full) % NUM_BUFS
    ensures OffsetOf(full * BUFFSIZE + o) == o
  {
  }

  /** What is already buffered lies in other blocks, or before the write position of the last one. */
  lemma BufferedElsewhere(first: nat, full: nat, wp: nat, p: nat)
    requires full < NUM_BUFS && wp < BUFFSIZE && p < full * BUFFSIZE + wp
    ensures BlockOf(first, p) != (first + full) % NUM_BUFS || OffsetOf(p) < wp
  {
    if p / BUFFSIZE < full { DistinctBlocks(first, p / BUFFSIZE, full); }
  }

  lemma DistinctBlocks(first: nat, j: nat, k: nat)
    requires j < k < j + NUM_BUFS
    ensures (first + j) % NUM_BUFS != (first + k) % NUM_BUFS
  {
  }

  /** Skipping a whole block is the same as starting at the next one. */
  lemma NextBlock(first: nat, p: nat)
    requires first < NUM_BUFS
    ensures BlockOf(first, BUFFSIZE + p) == BlockOf((first + 1) % NUM_BUFS, p)
    ensures OffsetOf(BUFFSIZE + p) == OffsetOf(p)
  {
    assert (BUFFSIZE + p) / BUFFSIZE == 1 + p / BUFFSIZE;
  }

  lemma CurrentBlock(first: nat, p: nat)
    requires first < NUM_BUFS && p < BUFFSIZE
    ensures BlockOf(first, p) == first && OffsetOf(p) == p
  {
  }

  /** Whether block b is one of the `full` blocks that start at `first`. */
  predicate IsFull(first: int, full: int, b: int) { (b - first) % NUM_BUFS < full }

  lemma WriteBlockNotFull(first: nat, before: nat, full: nat)
    requires first < NUM_BUFS && before <= full < NUM_BUFS
    ensures !IsFull(first, before, (first + full) % NUM_BUFS)
  {
  }

  lemma Offsets(a: nat, n: nat, x: nat)
    ensures ((a + n) % BUFFSIZE + x) % BUFFSIZE == (a + (n + x)) % BUFFSIZE
  {
  }

  class Ring {
    const buffer: array2<Byte>
    var bufRead: int
    var bufWrite: int
    var bufReadPos: int
    var bufWritePos: int
    var fullBuffers: int
    var bufferedBytes: int
    ghost var contents: seq<Byte>    // the queue: every byte written and not yet read

    ghost predicate Indices()
      reads this
    {
      && buffer.Length0 == NUM_BUFS && buffer.Length1 == BUFFSIZE
      && 0 <= bufRead < NUM_BUFS && 0 <= bufReadPos < BUFFSIZE && 0 <= bufWritePos < BUFFSIZE
      && 0 <= fullBuffers <= NUM_BUFS && bufWrite == (bufRead + fullBuffers) % NUM_BUFS
      && (fullBuffers == 0 ==> bufReadPos == 0) && (fullBuffers == NUM_BUFS ==> bufWritePos == 0)
      && bufferedBytes == fullBuffers * BUFFSIZE + bufWritePos - bufReadPos == |contents|
    }

    /** The byte at offset p from the start of the block being read. */
    ghost function At(p: nat): Byte
      requires buffer.Length0 == NUM_BUFS && buffer.Length1 == BUFFSIZE && 0 <= bufRead
      reads this, buffer
    {
      buffer[BlockOf(bufRead, p), OffsetOf(p)]
    }

    ghost predicate Valid()
      reads this, buffer
    {
      Indices() && forall i :: 0 <= i < |contents| ==> contents[i] == At(bufReadPos + i)
    }

    constructor ()
      ensures Valid() && contents == [] && bufReadPos == 0 && bufWritePos == 0 && fresh(buffer)
    {
      buffer := new Byte[NUM_BUFS, BUFFSIZE];
      bufRead, bufWrite, bufReadPos, bufWritePos := 0, 0, 0, 0;
      fullBuffers, bufferedBytes, contents := 0, 0, [];
    }

    function GetSpace(): int
      reads this
    {
      (NUM_BUFS - fullBuffers) * BUFFSIZE - bufWritePos
    }

    function GetDelay(): int
      reads this
    {
      bufferedBytes
    }

    /** Bytes in full blocks that have not been read. */
    function WholeBlockBytes(): int
      reads this
    {
      fullBuffers * BUFFSIZE - bufReadPos
    }

    /** Free space, buffered bytes and the part of the current block already read make up the capacity. */
    lemma SpaceAccounting()
      requires Valid()
      ensures GetSpace() + GetDelay() + bufReadPos == CAPACITY
      ensures 0 <= GetSpace() && 0 <= WholeBlockBytes() <= GetDelay()
      ensures GetDelay() == |contents| && WholeBlockBytes() == |contents| - bufWritePos
    {
    }

    /** memcpy of a chunk to the write position. */
    method CopyIn(chunk: seq<Byte>)
      requires Valid() && fullBuffers < NUM_BUFS && bufWritePos + |chunk| <= BUFFSIZE
      modifies buffer
      ensures forall i :: 0 <= i < |contents + chunk| ==> (contents + chunk)[i] == At(bufReadPos + i)
      ensures forall b, o :: 0 <= b < NUM_BUFS && b != bufWrite && 0 <= o < BUFFSIZE ==> buffer[b, o] == old(buffer[b, o])
    {
      hide BlockOf, OffsetOf;
      forall o | bufWritePos <= o < bufWritePos + |chunk| { buffer[bufWrite, o] := chunk[o - bufWritePos]; }
      forall i | 0 <= i < |contents + chunk| ensures (contents + chunk)[i] == At(bufReadPos + i) {
        if i < |contents| {
          BufferedElsewhere(bufRead, fullBuffers, bufWritePos, bufReadPos + i);
        } else {
          WritePlace(bufRead, fullBuffers, bufWritePos + i - |contents|);
        }
      }
    }

    /** One pass of the write loop: the copy and the index updates. */
    method Append(chunk: seq<Byte>)
      requires Valid() && fullBuffers < NUM_BUFS && chunk != [] && bufWritePos + |chunk| <= BUFFSIZE
      modifies this`contents, this`bufferedBytes, this`bufWritePos, this`bufWrite, this`fullBuffers, buffer
      ensures Valid() && contents == old(contents) + chunk && GetSpace() == old(GetSpace()) - |chunk|
      ensures old(fullBuffers) <= fullBuffers && bufWritePos == (old(bufWritePos) + |chunk|) % BUFFSIZE
      ensures forall b, o :: 0 <= b < NUM_BUFS && b != old(bufWrite) && 0 <= o < BUFFSIZE ==>
        buffer[b, o] == old(buffer[b, o])
    {
      hide BlockOf, OffsetOf;
      CopyIn(chunk);
      contents := contents + chunk;
      bufferedBytes := bufferedBytes + |chunk|;
      bufWritePos := bufWritePos + |chunk|;
      if bufWritePos >= BUFFSIZE {
        bufWrite := (bufWrite + 1) % NUM_BUFS;
        fullBuffers := fullBuffers + 1;
        bufWritePos := 0;
      }
    }

    /** write_buffer: accepts as many bytes as fit, appends them to the queue in order, and changes no byte
        of a block that is full, read in part or not at all. */
    method WriteBuffer(data: seq<Byte>, len: int) returns (len2: int)
      requires Valid() && len <= |data|
      modifies this`contents, this`bufferedBytes, this`bufWritePos, this`bufWrite, this`fullBuffers, buffer
      ensures Valid() && len2 == (if len <= 0 then 0 else Min(len, old(GetSpace())))
      ensures contents == old(contents) + data[..len2] && bufWritePos == (old(bufWritePos) + len2) % BUFFSIZE
      ensures forall b, o :: 0 <= b < NUM_BUFS && 0 <= o < BUFFSIZE && IsFull(bufRead, old(fullBuffers), b) ==>
        buffer[b, o] == old(buffer[b, o])
    {
      hide BlockOf, OffsetOf, IsFull, Ring.At;
      len2 := 0;
      var left := len;
      while left > 0
        invariant Valid() && 0 <= len2 && len2 + left == len && (left >= 0 || left == len)
        invariant GetSpace() == old(GetSpace()) - len2 && old(fullBuffers) <= fullBuffers
        invariant contents == old(contents) + data[..len2] && bufWritePos == (old(bufWritePos) + len2) % BUFFSIZE
        invariant forall b, o :: 0 <= b < NUM_BUFS && 0 <= o < BUFFSIZE && IsFull(bufRead, old(fullBuffers), b) ==>
          buffer[b, o] == old(buffer[b, o])
      {
        if fullBuffers == NUM_BUFS { break; }
        var x := BUFFSIZE - bufWritePos;
        if x > left { x := left; }
        WriteBlockNotFull(bufRead, old(fullBuffers), fullBuffers);
        Offsets(old(bufWritePos), len2, x);
        Append(data[len2..len2 + x]);
        len2 := len2 + x;
        left := left - x;
      }
    }

    /** memcpy of x bytes from the read position. */
    method CopyOut(x: int) returns (data: seq<Byte>)
      requires Valid() && fullBuffers > 0 && 0 < x && bufReadPos + x <= BUFFSIZE
      ensures x <= |contents| && data == contents[..x]
    {
      hide BlockOf, OffsetOf;
      data := [];
      for o := 0 to x
        invariant data == contents[..o]
      {
        CurrentBlock(bufRead, bufReadPos + o);
        data := data + [buffer[bufRead, bufReadPos + o]];
      }
    }

    /** read_buffer: returns the oldest bytes of the full blocks, as many as asked for or left there. */
    method ReadBuffer(len: int) returns (data: seq<Byte>, len2: int)
      requires Valid()
      modifies this
      ensures Valid() && len2 == (if len <= 0 then 0 else Min(len, old(WholeBlockBytes())))
      ensures 0 <= len2 <= |old(contents)| && data == old(contents)[..len2] && contents == old(contents)[len2..]
      ensures bufReadPos == (old(bufReadPos) + len2) % BUFFSIZE && bufWritePos == old(bufWritePos)
    {
      hide BlockOf, OffsetOf;
      data, len2 := [], 0;
      var left := len;
      while left > 0
        invariant Valid() && 0 <= len2 <= |old(contents)| && len2 + left == len && (left >= 0 || left == len)
        invariant WholeBlockBytes() == old(WholeBlockBytes()) - len2
        invariant bufReadPos == (old(bufReadPos) + len2) % BUFFSIZE && bufWritePos == old(bufWritePos)
        invariant data == old(contents)[..len2] && contents == old(contents)[len2..]
      {
        if fullBuffers == 0 { break; }
        var x := BUFFSIZE - bufReadPos;
        if x > left { x := left; }
        Offsets(old(bufReadPos), len2, x);
        var chunk := CopyOut(x);
        data := data + chunk;
        len2 := len2 + x;
        left := left - x;
        Consume(x);
      }
    }

    /** The index updates after x bytes have been copied out. */
    method Consume(x: int)
      requires Valid() && fullBuffers > 0 && 0 < x && bufReadPos + x <= BUFFSIZE
      modifies this
      ensures Valid() && x <= |old(contents)| && contents == old(contents)[x..]
      ensures WholeBlockBytes() == old(WholeBlockBytes()) - x
      ensures bufReadPos == (old(bufReadPos) + x) % BUFFSIZE && bufWritePos == old(bufWritePos)
    {
      hide BlockOf, OffsetOf;
      ghost var from := bufReadPos + x;
      contents := contents[x..];
      bufferedBytes := bufferedBytes - x;
      bufReadPos := bufReadPos + x;
      assert forall i :: 0 <= i < |contents| ==> contents[i] == At(from + i);
      if bufReadPos >= BUFFSIZE {
        ghost var next := (bufRead + 1) % NUM_BUFS;
        forall p: nat
          ensures BlockOf(bufRead, BUFFSIZE + p) == BlockOf(next, p) && OffsetOf(BUFFSIZE + p) == OffsetOf(p)
        {
          NextBlock(bufRead, p);
        }
        bufRead := (bufRead + 1) % NUM_BUFS;
        fullBuffers := fullBuffers - 1;
        bufReadPos := 0;
      }
    }
  }

  // ---------------------------------------------------------------- any mix of calls

  datatype Request = Write(data: seq<Byte>, len: int) | Read(len: int)

  /** get_space and the readable bytes, from the numbers of bytes accepted and returned so far. */
  function Space(accepted: nat, returned: nat): int { CAPACITY - (accepted - returned) - returned % BUFFSIZE }

  function Readable(accepted: nat, returned: nat): int { accepted - accepted % BUFFSIZE - returned }

  function Limited(len: int, most: int): int { if len <= 0 then 0 else Min(len, most) }

  /** The numbers of bytes accepted and returned over a sequence of calls. */
  function Totals(requests: seq<Request>): (int, int) {
    if requests == [] then (0, 0)
    else
      var (accepted, returned) := Totals(requests[..|requests| - 1]);
      if accepted < 0 || returned < 0 then (accepted, returned)
      else
        match requests[|requests| - 1]
        case Write(_, len) => (accepted + Limited(len, Space(accepted, returned)), returned)
        case Read(len) => (accepted, returned + Limited(len, Readable(accepted, returned)))
  }

  predicate Callable(requests: seq<Request>) {
    forall i :: 0 <= i < |requests| && requests[i].Write? ==> requests[i].len <= |requests[i].data|
  }

  /** Never more is returned than was accepted, nor more held than fits. */
  lemma {:induction false} TotalsBounded(requests: seq<Request>)
    ensures var (accepted, returned) := Totals(requests);
      && 0 <= returned <= accepted && 0 <= Space(accepted, returned) && 0 <= Readable(accepted, returned)
  {
    if requests != [] {
      var n := |requests| - 1;
      TotalsBounded(requests[..n]);
      var (accepted, returned) := Totals(requests[..n]);
      hide Space, Readable;
      match requests[n]
      case Write(_, len) => MoreAccepted(accepted, returned, Limited(len, Space(accepted, returned)));
      case Read(len) => MoreReturned(accepted, returned, Limited(len, Readable(accepted, returned)));
    }
  }

  lemma BlockStart(x: nat, y: nat)
    requires x <= y
    ensures x - x % BUFFSIZE <= y - y % BUFFSIZE
  {
  }

  lemma MoreAccepted(accepted: nat, returned: nat, n: nat)
    requires returned <= accepted && n <= Space(accepted, returned) && 0 <= Readable(accepted, returned)
    ensures 0 <= Space(accepted + n, returned) && 0 <= Readable(accepted + n, returned)
  {
    BlockStart(accepted, accepted + n);
  }

  lemma MoreReturned(accepted: nat, returned: nat, n: nat)
    requires returned <= accepted && 0 <= Space(accepted, returned) && n <= Readable(accepted, returned)
    ensures returned + n <= accepted
    ensures 0 <= Space(accepted, returned + n) && 0 <= Readable(accepted, returned + n)
  {
    BlockStart(returned, returned + n);
  }

  /** The bytes accepted over a sequence of calls, in order. */
  function Accepted(requests: seq<Request>): seq<Byte>
    requires Callable(requests)
  {
    if requests == [] then []
    else
      var n := |requests| - 1;
      TotalsBounded(requests[..n]);
      var (accepted, returned) := Totals(requests[..n]);
      Accepted(requests[..n]) +
      match requests[n]
      case Write(data, len) => data[..Limited(len, Space(accepted, returned))]
      case Read(_) => []
  }

  /** The ring and the bytes it has returned agree with the calls so far. */
  ghost predicate Follows(ring: Ring, requests: seq<Request>, returned: seq<Byte>)
    reads ring, ring.buffer
  {
    && Callable(requests) && ring.Valid()
    && returned + ring.contents == Accepted(requests)
    && Totals(requests) == (|Accepted(requests)|, |returned|)
    && ring.bufReadPos == |returned| % BUFFSIZE && ring.bufWritePos == |Accepted(requests)| % BUFFSIZE
  }

  /** What one more call adds. */
  lemma OneMore(requests: seq<Request>, i: nat)
    requires Callable(requests) && i < |requests|
    requires Totals(requests[..i]).0 == |Accepted(requests[..i])|
    ensures var (accepted, returned) := Totals(requests[..i]);
      && 0 <= returned <= accepted && 0 <= Space(accepted, returned) && 0 <= Readable(accepted, returned)
      && match requests[i]
         case Write(data, len) =>
           var n := Limited(len, Space(accepted, returned));
           Totals(requests[..i + 1]) == (accepted + n, returned) &&
           Accepted(requests[..i + 1]) == Accepted(requests[..i]) + data[..n]
         case Read(len) =>
           Totals(requests[..i + 1]) == (accepted, returned + Limited(len, Readable(accepted, returned))) &&
           Accepted(requests[..i + 1]) == Accepted(requests[..i])
  {
    hide Space, Readable;
    TotalsBounded(requests[..i]);
    assert requests[..i + 1][..i] == requests[..i];
    assert Accepted(requests[..i]) + [] == Accepted(requests[..i]);
  }

  method PerformWrite(ring: Ring, requests: seq<Request>, i: nat, returned: seq<Byte>)
    requires Callable(requests) && i < |requests| && requests[i].Write? && Follows(ring, requests[..i], returned)
    modifies ring, ring.buffer
    ensures Follows(ring, requests[..i + 1], returned)
  {
    hide Ring.Valid, Totals, Accepted;
    OneMore(requests, i);
    ring.SpaceAccounting();
    var n := ring.WriteBuffer(requests[i].data, requests[i].len);
    Offsets(0, |Accepted(requests[..i])|, n);
  }

  method PerformRead(ring: Ring, requests: seq<Request>, i: nat, before: seq<Byte>) returns (returned: seq<Byte>)
    requires Callable(requests) && i < |requests| && requests[i].Read? && Follows(ring, requests[..i], before)
    modifies ring
    ensures Follows(ring, requests[..i + 1], returned)
  {
    hide Ring.Valid, Totals, Accepted;
    OneMore(requests, i);
    ring.SpaceAccounting();
    var data, n := ring.ReadBuffer(requests[i].len);
    Offsets(0, |before|, n);
    returned := before + data;
  }

  lemma RingStart(ring: Ring)
    requires ring.Valid() && ring.contents == [] && ring.bufReadPos == 0 && ring.bufWritePos == 0
    ensures Follows(ring, [], [])
  {
  }

  /** Any sequence of write_buffer and read_buffer calls on a new ring: every call moves exactly the number of
      bytes that Totals says, the bytes come out in the order in which they were accepted, and what has not
      come out is in the ring. */
  method Use(requests: seq<Request>) returns (ring: Ring, returned: seq<Byte>)
    requires Callable(requests)
    ensures ring.Valid() && fresh(ring) && fresh(ring.buffer)
    ensures returned + ring.contents == Accepted(requests)
    ensures Totals(requests) == (|Accepted(requests)|, |returned|)
    ensures ring.GetSpace() == Space(|Accepted(requests)|, |returned|)
  {
    hide Accepted, Ring.Valid;
    ring := new Ring();
    returned := [];
    RingStart(ring);
    for i := 0 to |requests|
      invariant fresh(ring) && fresh(ring.buffer) && Follows(ring, requests[..i], returned)
    {
      if requests[i].Write? {
        PerformWrite(ring, requests, i, returned);
      } else {
        returned := PerformRead(ring, requests, i, returned);
      }
    }
    assert requests[..|requests|] == requests;
    ring.SpaceAccounting();
  }
}
