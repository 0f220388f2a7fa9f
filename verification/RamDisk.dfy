/**
 * The RAM disk: registration of a region of memory, and its Block I/O requests, with the
 * 64-bit arithmetic of the driver. The device refines an array of 512-byte blocks.
 */
module RamDisk {
  import opened Octets

  const BLOCK_SIZE := 512
  const UINT64_MAX := 0xffff_ffff_ffff_ffff

  type uint32 = x: nat | x < 0x1_0000_0000 witness 0
  type uint64 = x: nat | x <= UINT64_MAX witness 0

  // Unsigned 64-bit arithmetic: results are reduced modulo 2^64.
  function Wrap(n: int): uint64 { n % (UINT64_MAX + 1) }
  function Add64(x: uint64, y: uint64): uint64 { Wrap(x + y) }
  function Sub64(x: uint64, y: uint64): uint64 { Wrap(x - y) }
  function Mul64(x: uint64, y: uint64): uint64 { Wrap(x * y) }

  lemma WrapExact(n: int)
    ensures 0 <= n <= UINT64_MAX ==> Wrap(n) == n
    ensures UINT64_MAX < n <= 2 * UINT64_MAX + 1 ==> Wrap(n) == n - UINT64_MAX - 1
    ensures -UINT64_MAX <= n < 0 ==> Wrap(n) == n + UINT64_MAX + 1
  {}

  datatype Status = Success | NotFound | BadBufferSize | InvalidParameter | MediaChanged | WriteProtected

  // --------------------------------------------------------------------------
  // Registration
  // --------------------------------------------------------------------------

  /** The argument checks of `RamDiskRegister`. */
  function RegisterStatus(base: uint64, size: uint64, hasType: bool, hasPath: bool): Status {
    if size == 0 || !hasType || !hasPath then NotFound
    else if size % BLOCK_SIZE != 0 then BadBufferSize
    else if size >= UINT64_MAX || base > Add64(Sub64(UINT64_MAX, size), 1) then InvalidParameter
    else Success
  }

  /** A region is accepted exactly when it is whole blocks that end inside the 64-bit address space. */
  lemma RegisterAcceptsExactly(base: uint64, size: uint64, hasType: bool, hasPath: bool)
    ensures RegisterStatus(base, size, hasType, hasPath) == Success
      <==> hasType && hasPath && size > 0 && size % BLOCK_SIZE == 0 && base + size <= UINT64_MAX + 1
  {
    WrapExact(UINT64_MAX - size);
    WrapExact(UINT64_MAX - size + 1);
  }

  /** What a rejected region is told. */
  lemma RegisterRejects(base: uint64, size: uint64, hasType: bool, hasPath: bool)
    ensures RegisterStatus(base, size, hasType, hasPath) == NotFound <==> size == 0 || !hasType || !hasPath
    ensures RegisterStatus(base, size, hasType, hasPath) == BadBufferSize <==>
      size != 0 && hasType && hasPath && size % 512 != 0
    ensures RegisterStatus(base, size, hasType, hasPath) == InvalidParameter <==>
      size != 0 && hasType && hasPath && size % 512 == 0 && base + size > 0x1_0000_0000_0000_0000
  {
    hide Wrap;
    WrapExact(UINT64_MAX - size);
    WrapExact(UINT64_MAX - size + 1);
  }

  function EndingAddr(base: uint64, size: uint64): uint64 {
    Sub64(Add64(base, size), 1)
  }

  function LastBlock(size: uint64): uint64 {
    Sub64(Sub64(Add64(size, BLOCK_SIZE), 1) / BLOCK_SIZE, 1)
  }

  /** For an accepted region both values are exact, even where an intermediate sum wraps to zero. */
  lemma GeometryExact(base: uint64, size: uint64)
    requires RegisterStatus(base, size, true, true) == Success
    ensures EndingAddr(base, size) == base + size - 1
    ensures LastBlock(size) == size / BLOCK_SIZE - 1
  {
    RegisterAcceptsExactly(base, size, true, true);
    hide Wrap;
    WrapExact(base + size);
    WrapExact(Wrap(base + size) - 1);
    WrapExact(size + BLOCK_SIZE);
    WrapExact(Wrap(size + BLOCK_SIZE) - 1);
    var q := size / BLOCK_SIZE;
    assert size == BLOCK_SIZE * q;
    assert (BLOCK_SIZE * q + 511) / BLOCK_SIZE == q;
    WrapExact(q - 1);
  }

  /** The two sums wrap for the largest sizes and for regions that end at 2^64, and such regions are accepted. */
  lemma SumsWrapExactly(base: uint64, size: uint64)
    requires RegisterStatus(base, size, true, true) == Success
    ensures Add64(size, BLOCK_SIZE) != size + BLOCK_SIZE <==> size > UINT64_MAX - BLOCK_SIZE
    ensures Add64(base, size) != base + size <==> base + size == UINT64_MAX + 1
    ensures RegisterStatus(0, UINT64_MAX - BLOCK_SIZE + 1, true, true) == Success
    ensures RegisterStatus(UINT64_MAX - BLOCK_SIZE + 1, BLOCK_SIZE, true, true) == Success
  {
    hide Wrap;
    RegisterAcceptsExactly(base, size, true, true);
    RegisterAcceptsExactly(0, UINT64_MAX - BLOCK_SIZE + 1, true, true);
    RegisterAcceptsExactly(UINT64_MAX - BLOCK_SIZE + 1, BLOCK_SIZE, true, true);
    WrapExact(size + BLOCK_SIZE);
    WrapExact(base + size);
  }

  /** At size 2^64 - 512 the sum for the last block wraps to zero, and the last block is right. */
  lemma LargestRegion()
    ensures var size := UINT64_MAX - BLOCK_SIZE + 1;
      && RegisterStatus(0, size, true, true) == Success
      && Add64(size, BLOCK_SIZE) == 0 && LastBlock(size) == size / BLOCK_SIZE - 1
  {
    hide Wrap;
    var size := UINT64_MAX - BLOCK_SIZE + 1;
    RegisterAcceptsExactly(0, size, true, true);
    GeometryExact(0, size);
    WrapExact(size + BLOCK_SIZE);
  }

  /**
   * For a request that starts inside the device no computation wraps, and one that is accepted
   * touches only addresses from the base to the ending address.
   */
  lemma RequestExact(base: uint64, size: uint64, lba: uint64, bufferSize: uint64)
    requires RegisterStatus(base, size, true, true) == Success
    requires lba <= LastBlock(size) && bufferSize > 0 && bufferSize % BLOCK_SIZE == 0
    ensures var n := bufferSize / BLOCK_SIZE;
      && Add64(lba, n) == lba + n && Sub64(Add64(lba, n), 1) == lba + n - 1
      && Mul64(lba, BLOCK_SIZE) == BLOCK_SIZE * lba
      && Add64(base, Mul64(lba, BLOCK_SIZE)) == base + BLOCK_SIZE * lba
      && (Sub64(Add64(lba, n), 1) <= LastBlock(size) <==> lba + n <= size / BLOCK_SIZE)
      && (lba + n <= size / BLOCK_SIZE ==> base + BLOCK_SIZE * lba + bufferSize - 1 <= EndingAddr(base, size))
  {
    GeometryExact(base, size);
    RegisterAcceptsExactly(base, size, true, true);
    hide Wrap, EndingAddr, LastBlock;
    var n := bufferSize / BLOCK_SIZE;
    assert bufferSize == BLOCK_SIZE * n && size == BLOCK_SIZE * (size / BLOCK_SIZE);
    WrapExact(lba + n);
    WrapExact(lba + n - 1);
    WrapExact(lba * BLOCK_SIZE);
    WrapExact(base + lba * BLOCK_SIZE);
  }

  // --------------------------------------------------------------------------
  // The abstract device: an array of blocks
  // --------------------------------------------------------------------------

  /** The bytes of `data` cut into blocks. */
  function Chop(data: seq<byte>): (blocks: seq<seq<byte>>)
    requires |data| % BLOCK_SIZE == 0
    ensures |blocks| == |data| / BLOCK_SIZE
  {
    seq(|data| / BLOCK_SIZE,
        i requires 0 <= i < |data| / BLOCK_SIZE => data[BLOCK_SIZE * i..BLOCK_SIZE * i + BLOCK_SIZE])
  }

  /** The blocks are whole, and one after the other they are the bytes. */
  lemma {:induction false} ChopCuts(data: seq<byte>)
    requires |data| % BLOCK_SIZE == 0
    ensures forall b :: b in Chop(data) ==> |b| == BLOCK_SIZE
    ensures Concat(Chop(data)) == data
    decreases |data|
  {
    if data != [] {
      var rest := data[BLOCK_SIZE..];
      ChopFirst(data);
      hide Chop;
      ChopCuts(rest);
      assert Chop(data)[0] == data[..BLOCK_SIZE] && Chop(data)[1..] == Chop(rest);
      assert data == data[..BLOCK_SIZE] + rest;
      forall b | b in Chop(data) ensures |b| == BLOCK_SIZE {
        if b != Chop(data)[0] {
          assert b in Chop(data)[1..];
        }
      }
    }
  }

  lemma ChopFirst(data: seq<byte>)
    requires |data| % BLOCK_SIZE == 0 && data != []
    ensures |data| >= BLOCK_SIZE && |data[BLOCK_SIZE..]| % BLOCK_SIZE == 0
    ensures Chop(data) == [data[..BLOCK_SIZE]] + Chop(data[BLOCK_SIZE..])
  {
    var rest := data[BLOCK_SIZE..];
    assert |rest| / BLOCK_SIZE == |data| / BLOCK_SIZE - 1;
    forall i | 0 <= i < |rest| / BLOCK_SIZE ensures Chop(rest)[i] == Chop(data)[i + 1] {
      SliceOfSlice(data, BLOCK_SIZE, |rest|, BLOCK_SIZE * i, BLOCK_SIZE);
      assert data[BLOCK_SIZE..BLOCK_SIZE + |rest|] == rest;
    }
  }

  lemma SpliceAtFront(s: seq<byte>, d: seq<byte>)
    requires |d| <= |s|
    ensures Splice(s, 0, d)[..|d|] == d && Splice(s, 0, d)[|d|..] == s[|d|..]
  {}

  // Consecutive blocks of a region are the blocks of a slice of it.
  lemma ChopSlice(memory: seq<byte>, base: nat, size: nat, lba: nat, n: nat)
    requires base + size <= |memory| && size % BLOCK_SIZE == 0 && n % BLOCK_SIZE == 0
    requires lba + n / BLOCK_SIZE <= size / BLOCK_SIZE
    ensures base + BLOCK_SIZE * lba + n <= base + size
    ensures Chop(memory[base + BLOCK_SIZE * lba..base + BLOCK_SIZE * lba + n])
         == Chop(memory[base..base + size])[lba..lba + n / BLOCK_SIZE]
  {
    var whole, part := memory[base..base + size], memory[base + BLOCK_SIZE * lba..base + BLOCK_SIZE * lba + n];
    forall i | 0 <= i < n / BLOCK_SIZE ensures Chop(part)[i] == Chop(whole)[lba + i] {
      SliceOfSlice(memory, base + BLOCK_SIZE * lba, n, BLOCK_SIZE * i, BLOCK_SIZE);
      SliceOfSlice(memory, base, size, BLOCK_SIZE * (lba + i), BLOCK_SIZE);
    }
  }

  // What a caller's buffer can hold: its size is a 64-bit number.
  type Payload = s: seq<byte> | |s| <= UINT64_MAX

  datatype Request =
    | Read(mediaId: uint32, lba: uint64, size: uint64, hasBuffer: bool)
    | Write(mediaId: uint32, lba: uint64, data: Payload, hasBuffer: bool)
  {
    function Size(): uint64 {
      if Read? then size else |data|
    }

    function Blocks(): nat {
      Size() / BLOCK_SIZE
    }
  }

  // What a device knows besides its contents.
  datatype Medium = Medium(mediaId: uint32, readOnly: bool)

  /** What a request deserves on an array of `count` blocks, in unbounded arithmetic. */
  function Answer(medium: Medium, count: nat, r: Request): Status {
    if r.mediaId != medium.mediaId then MediaChanged
    else if r.Write? && medium.readOnly then WriteProtected
    else if !r.hasBuffer then InvalidParameter
    else if r.Size() == 0 then Success
    else if r.Size() % BLOCK_SIZE != 0 then BadBufferSize
    else if r.lba + r.Blocks() > count then InvalidParameter
    else Success
  }

  /** Each status is given for its own reason, and the first reason in this order counts. */
  lemma AnswerExactly(medium: Medium, count: nat, r: Request)
    ensures var known, allowed := r.mediaId == medium.mediaId, r.Read? || !medium.readOnly;
      && (Answer(medium, count, r) == MediaChanged <==> !known)
      && (Answer(medium, count, r) == WriteProtected <==> known && !allowed)
      && (Answer(medium, count, r) == BadBufferSize <==>
            known && allowed && r.hasBuffer && r.Size() % 512 != 0)
      && (Answer(medium, count, r) == Success <==>
            && known && allowed && r.hasBuffer
            && (r.Size() == 0 || (r.Size() % 512 == 0 && 512 * r.lba + r.Size() <= 512 * count)))
      && Answer(medium, count, r) != NotFound
  {
    assert r.Size() == 512 * (r.Size() / 512) + r.Size() % 512;
  }

  predicate Changes(medium: Medium, count: nat, r: Request) {
    r.Write? && Answer(medium, count, r) == Success && r.Size() > 0
  }

  /** The array of blocks after a request. */
  function Step(medium: Medium, blocks: seq<seq<byte>>, r: Request): (next: seq<seq<byte>>)
    ensures |next| == |blocks|
  {
    if Changes(medium, |blocks|, r) then Splice(blocks, r.lba, Chop(r.data)) else blocks
  }

  function Run(medium: Medium, blocks: seq<seq<byte>>, history: seq<Request>): (next: seq<seq<byte>>)
    ensures |next| == |blocks|
    decreases |history|
  {
    if history == [] then blocks
    else Step(medium, Run(medium, blocks, history[..|history| - 1]), history[|history| - 1])
  }

  predicate Covers(medium: Medium, count: nat, r: Request, b: nat) {
    Changes(medium, count, r) && r.lba <= b < r.lba + r.Blocks()
  }

  /** After any history a block holds what the latest accepted write over it put there. */
  lemma {:induction false} LatestWriteWins(medium: Medium, blocks: seq<seq<byte>>, history: seq<Request>,
                                           b: nat, k: nat)
    requires b < |blocks| && k < |history|
    requires Covers(medium, |blocks|, history[k], b)
    requires forall j :: k < j < |history| ==> !Covers(medium, |blocks|, history[j], b)
    ensures Run(medium, blocks, history)[b] == Chop(history[k].data)[b - history[k].lba]
    decreases |history|
  {
    var n := |history| - 1;
    if k < n {
      LatestWriteWins(medium, blocks, history[..n], b, k);
      OtherBlocksStay(medium, Run(medium, blocks, history[..n]), history[n], b);
    }
  }

  /** The answer to a read after a history, and the blocks it returns. */
  predicate ReadsAs(medium: Medium, blocks: seq<seq<byte>>, r: Request, status: Status, data: seq<byte>)
    requires r.Read?
  {
    && status == Answer(medium, |blocks|, r)
    && if status == Success then |data| == r.size && (r.size > 0 ==> Chop(data) == blocks[r.lba..r.lba + r.Blocks()])
       else data == []
  }

  predicate NoneCovers(medium: Medium, count: nat, history: seq<Request>, from: nat, b: nat) {
    forall j :: from <= j < |history| ==> !Covers(medium, count, history[j], b)
  }

  /** What is found in block `b` is what the latest accepted write over it put there, or what it first held. */
  predicate ReadsLatest(medium: Medium, blocks: seq<seq<byte>>, history: seq<Request>, b: nat, found: seq<byte>)
    requires b < |blocks|
  {
    && (NoneCovers(medium, |blocks|, history, 0, b) ==> found == blocks[b])
    && forall k :: 0 <= k < |history| && Covers(medium, |blocks|, history[k], b) ==>
        NoneCovers(medium, |blocks|, history, k + 1, b) ==> found == Chop(history[k].data)[b - history[k].lba]
  }

  lemma RunReadsLatest(medium: Medium, blocks: seq<seq<byte>>, history: seq<Request>, b: nat)
    requires b < |blocks|
    ensures ReadsLatest(medium, blocks, history, b, Run(medium, blocks, history)[b])
  {
    hide Run, Chop;
    forall k: nat |
        k < |history| && Covers(medium, |blocks|, history[k], b) && NoneCovers(medium, |blocks|, history, k + 1, b)
      ensures Run(medium, blocks, history)[b] == Chop(history[k].data)[b - history[k].lba]
    {
      LatestWriteWins(medium, blocks, history, b, k);
    }
    if NoneCovers(medium, |blocks|, history, 0, b) {
      UntouchedBlockStays(medium, blocks, history, b);
    }
  }

  lemma OtherBlocksStay(medium: Medium, blocks: seq<seq<byte>>, r: Request, b: nat)
    requires b < |blocks| && !Covers(medium, |blocks|, r, b)
    ensures Step(medium, blocks, r)[b] == blocks[b]
  {}

  /** A block that no accepted write covers keeps its first contents. */
  lemma {:induction false} UntouchedBlockStays(medium: Medium, blocks: seq<seq<byte>>, history: seq<Request>, b: nat)
    requires b < |blocks|
    requires forall j :: 0 <= j < |history| ==> !Covers(medium, |blocks|, history[j], b)
    ensures Run(medium, blocks, history)[b] == blocks[b]
    decreases |history|
  {
    if history != [] {
      var n := |history| - 1;
      UntouchedBlockStays(medium, blocks, history[..n], b);
      OtherBlocksStay(medium, Run(medium, blocks, history[..n]), history[n], b);
    }
  }

  // Overwriting whole blocks of a region replaces those blocks and no others.
  lemma ChopUpdates(memory: seq<byte>, base: nat, size: nat, lba: nat, data: seq<byte>)
    requires base + size <= |memory| && size % BLOCK_SIZE == 0 && |data| % BLOCK_SIZE == 0
    requires lba + |data| / BLOCK_SIZE <= size / BLOCK_SIZE
    ensures base + BLOCK_SIZE * lba + |data| <= base + size
    ensures var after := Splice(memory, base + BLOCK_SIZE * lba, data);
      && Chop(after[base..base + size]) == Splice(Chop(memory[base..base + size]), lba, Chop(data))
      && after[..base] == memory[..base] && after[base + size..] == memory[base + size..]
  {
    var at := base + BLOCK_SIZE * lba;
    var after := Splice(memory, at, data);
    var old1, new1 := memory[base..base + size], after[base..base + size];
    var updated := Splice(Chop(old1), lba, Chop(data));
    forall i | 0 <= i < size / BLOCK_SIZE ensures Chop(new1)[i] == updated[i] {
      BlockAfterWrite(memory, base, size, lba, data, i);
    }
    assert Chop(new1) == updated;
  }

  lemma BlockAfterWrite(memory: seq<byte>, base: nat, size: nat, lba: nat, data: seq<byte>, i: nat)
    requires base + size <= |memory| && size % BLOCK_SIZE == 0 && |data| % BLOCK_SIZE == 0
    requires lba + |data| / BLOCK_SIZE <= size / BLOCK_SIZE && i < size / BLOCK_SIZE
    ensures Chop(Splice(memory, base + BLOCK_SIZE * lba, data)[base..base + size])[i]
         == Splice(Chop(memory[base..base + size]), lba, Chop(data))[i]
  {
    var after := Splice(memory, base + BLOCK_SIZE * lba, data);
    SliceOfSlice(after, base, size, BLOCK_SIZE * i, BLOCK_SIZE);
    SliceOfSlice(memory, base, size, BLOCK_SIZE * i, BLOCK_SIZE);
    if lba <= i < lba + |data| / BLOCK_SIZE {
      SpliceInside(memory, base + BLOCK_SIZE * lba, data, BLOCK_SIZE * (i - lba), BLOCK_SIZE);
    } else {
      SpliceOutside(memory, base + BLOCK_SIZE * lba, data, base + BLOCK_SIZE * i, BLOCK_SIZE);
    }
  }

  lemma SpliceInside(s: seq<byte>, at: nat, d: seq<byte>, i: nat, k: nat)
    requires at + |d| <= |s| && i + k <= |d|
    ensures Splice(s, at, d)[at + i..at + i + k] == d[i..i + k]
  {}

  lemma SpliceOutside(s: seq<byte>, at: nat, d: seq<byte>, i: nat, k: nat)
    requires at + |d| <= |s| && i + k <= |s| && (i + k <= at || at + |d| <= i)
    ensures Splice(s, at, d)[i..i + k] == s[i..i + k]
  {}

  // --------------------------------------------------------------------------
  // The device
  // --------------------------------------------------------------------------

  /** The completion token of a Block I/O 2 request. */
  class Token {
    const hasEvent: bool
    var completed: bool
    var signalled: bool

    // The event, if there is one, is signalled exactly by a request that succeeds.
    ghost predicate Answers(status: Status, wasCompleted: bool, wasSignalled: bool)
      reads this
    {
      if status == Success && hasEvent then completed && signalled
      else completed == wasCompleted && signalled == wasSignalled
    }

    constructor (hasEvent: bool)
      ensures this.hasEvent == hasEvent && !completed && !signalled
    {
      this.hasEvent := hasEvent;
      completed, signalled := false, false;
    }
  }

  class Device {
    // Physical memory, one byte for each address.
    const memory: array<byte>
    const startingAddr: uint64
    const size: uint64
    const mediaId: uint32
    const readOnly: bool
    const blockSize: uint64
    const lastBlock: uint64

    ghost predicate Valid()
      reads this
    {
      && RegisterStatus(startingAddr, size, true, true) == Success
      && startingAddr + size <= memory.Length
      && blockSize == BLOCK_SIZE && lastBlock == LastBlock(size)
    }

    ghost function Kind(): Medium
      reads this
    {
      Medium(mediaId, readOnly)
    }

    ghost function Contents(): (blocks: seq<seq<byte>>)
      requires Valid()
      reads this, memory
      ensures |blocks| == size / BLOCK_SIZE
    {
      RegisterAcceptsExactly(startingAddr, size, true, true);
      Chop(memory[startingAddr..startingAddr + size])
    }

    /** `RamDiskInitBlockIo` on an accepted region. */
    constructor (memory: array<byte>, base: uint64, size: uint64)
      requires RegisterStatus(base, size, true, true) == Success && base + size <= memory.Length
      ensures Valid() && this.memory == memory && startingAddr == base && this.size == size
      ensures mediaId == 0 && !readOnly
      ensures lastBlock == size / BLOCK_SIZE - 1
    {
      this.memory := memory;
      startingAddr, this.size := base, size;
      mediaId, readOnly := 0, false;
      blockSize := BLOCK_SIZE;
      lastBlock := LastBlock(size);
      GeometryExact(base, size);
    }

    /** The size and range checks that reads and writes share, and the address they lead to. */
    method Locate(lba: uint64, bufferSize: uint64) returns (status: Status, address: uint64)
      requires Valid() && bufferSize > 0
      ensures status ==
        if bufferSize % BLOCK_SIZE != 0 then BadBufferSize
        else if lba + bufferSize / BLOCK_SIZE > size / BLOCK_SIZE then InvalidParameter
        else Success
      ensures status == Success ==>
        && address == startingAddr + BLOCK_SIZE * lba
        && address + bufferSize - 1 <= EndingAddr(startingAddr, size)
    {
      hide Wrap;
      address := 0;
      if bufferSize % blockSize != 0 {
        return BadBufferSize, 0;
      }
      GeometryExact(startingAddr, size);
      if lba > lastBlock {
        return InvalidParameter, 0;
      }
      var numberOfBlocks := bufferSize / blockSize;
      RequestExact(startingAddr, size, lba, bufferSize);
      if Sub64(Add64(lba, numberOfBlocks), 1) > lastBlock {
        return InvalidParameter, 0;
      }
      return Success, Add64(startingAddr, Mul64(lba, blockSize));
    }

    /** `RamDiskBlkIoReadBlocks`. */
    method ReadBlocks(media: uint32, lba: uint64, bufferSize: uint64, buffer: array?<byte>) returns (status: Status)
      requires Valid()
      requires buffer != null ==> bufferSize <= buffer.Length && buffer != memory
      modifies if buffer == null then {} else {buffer}
      ensures status == Answer(Kind(), |Contents()|, Read(media, lba, bufferSize, buffer != null))
      ensures buffer != null && status != Success ==> buffer[..] == old(buffer[..])
      ensures status == Success ==> buffer[bufferSize..] == old(buffer[bufferSize..])
      ensures status == Success && bufferSize > 0 ==>
        Chop(buffer[..bufferSize]) == Contents()[lba..lba + bufferSize / BLOCK_SIZE]
      ensures status == Success && bufferSize > 0 ==>
        var at := startingAddr + 512 * lba;
        at + bufferSize <= memory.Length && buffer[..bufferSize] == memory[at..at + bufferSize]
    {
      hide Chop, Wrap;
      if media != mediaId {
        return MediaChanged;
      }
      if buffer == null {
        return InvalidParameter;
      }
      if bufferSize == 0 {
        return Success;
      }
      var from;
      status, from := Locate(lba, bufferSize);
      if status != Success {
        return;
      }
      RegisterAcceptsExactly(startingAddr, size, true, true);
      ChopSlice(memory[..], startingAddr, size, lba, bufferSize);
      ghost var before := buffer[..];
      CopyMem(buffer, 0, memory, from, bufferSize);
      SpliceAtFront(before, memory[from..from + bufferSize]);
      return Success;
    }

    /** `RamDiskBlkIoWriteBlocks`. */
    method WriteBlocks(media: uint32, lba: uint64, bufferSize: uint64, buffer: array?<byte>) returns (status: Status)
      requires Valid()
      requires buffer != null ==> bufferSize <= buffer.Length && buffer != memory
      modifies memory
      ensures var r := Write(media, lba, if buffer == null then [] else buffer[..bufferSize], buffer != null);
        && status == Answer(Kind(), |Contents()|, r)
        && Contents() == Step(Kind(), old(Contents()), r)
      ensures status == Success && bufferSize > 0 ==>
        var at := startingAddr + 512 * lba;
        && buffer != null && at + bufferSize <= memory.Length
        && memory[..] == Splice(old(memory[..]), at, buffer[..bufferSize])
      ensures status != Success || bufferSize == 0 ==> memory[..] == old(memory[..])
      ensures memory[..startingAddr] == old(memory[..startingAddr])
      ensures memory[startingAddr + size..] == old(memory[startingAddr + size..])
    {
      hide Chop, Wrap, Splice;
      ghost var before := memory[..];
      if media != mediaId {
        return MediaChanged;
      }
      if readOnly {
        return WriteProtected;
      }
      if buffer == null {
        return InvalidParameter;
      }
      if bufferSize == 0 {
        return Success;
      }
      var to;
      status, to := Locate(lba, bufferSize);
      if status != Success {
        return;
      }
      RegisterAcceptsExactly(startingAddr, size, true, true);
      ChopUpdates(memory[..], startingAddr, size, lba, buffer[..bufferSize]);
      CopyMem(memory, to, buffer, 0, bufferSize);
      ghost var after := memory[..];
      assert memory[..startingAddr] == after[..startingAddr] == before[..startingAddr];
      assert memory[startingAddr + size..] == after[startingAddr + size..] == before[startingAddr + size..];
      return Success;
    }

    /** `RamDiskBlkIo2ReadBlocksEx`: the same read, and the caller's event is signalled if it succeeds. */
    method ReadBlocksEx(media: uint32, lba: uint64, token: Token?, bufferSize: uint64, buffer: array?<byte>)
      returns (status: Status)
      requires Valid()
      requires buffer != null ==> bufferSize <= buffer.Length && buffer != memory
      modifies if buffer == null then {} else {buffer}
      modifies if token == null then {} else {token}
      ensures status == Answer(Kind(), |Contents()|, Read(media, lba, bufferSize, buffer != null))
      ensures buffer != null && status != Success ==> buffer[..] == old(buffer[..])
      ensures status == Success ==> buffer[bufferSize..] == old(buffer[bufferSize..])
      ensures status == Success && bufferSize > 0 ==>
        Chop(buffer[..bufferSize]) == Contents()[lba..lba + bufferSize / BLOCK_SIZE]
      ensures status == Success && bufferSize > 0 ==>
        var at := startingAddr + 512 * lba;
        at + bufferSize <= memory.Length && buffer[..bufferSize] == memory[at..at + bufferSize]
      ensures token != null ==> token.Answers(status, old(token.completed), old(token.signalled))
    {
      hide Chop, Answer;
      status := ReadBlocks(media, lba, bufferSize, buffer);
      if status != Success {
        return;
      }
      if token != null && token.hasEvent {
        token.completed := true;
        token.signalled := true;
      }
    }

    /** `RamDiskBlkIo2WriteBlocksEx`. */
    method WriteBlocksEx(media: uint32, lba: uint64, token: Token?, bufferSize: uint64, buffer: array?<byte>)
      returns (status: Status)
      requires Valid()
      requires buffer != null ==> bufferSize <= buffer.Length && buffer != memory
      modifies memory
      modifies if token == null then {} else {token}
      ensures var r := Write(media, lba, if buffer == null then [] else buffer[..bufferSize], buffer != null);
        && status == Answer(Kind(), |Contents()|, r)
        && Contents() == Step(Kind(), old(Contents()), r)
      ensures status == Success && bufferSize > 0 ==>
        var at := startingAddr + 512 * lba;
        && buffer != null && at + bufferSize <= memory.Length
        && memory[..] == Splice(old(memory[..]), at, buffer[..bufferSize])
      ensures status != Success || bufferSize == 0 ==> memory[..] == old(memory[..])
      ensures memory[..startingAddr] == old(memory[..startingAddr])
      ensures memory[startingAddr + size..] == old(memory[startingAddr + size..])
      ensures token != null ==> token.Answers(status, old(token.completed), old(token.signalled))
    {
      hide Chop, Answer, Step;
      status := WriteBlocks(media, lba, bufferSize, buffer);
      if status != Success {
        return;
      }
      if token != null && token.hasEvent {
        token.completed := true;
        token.signalled := true;
      }
    }
  }

  /** `RamDiskRegister`, up to the point where the device is handed to the firmware. */
  method Register(memory: array<byte>, base: uint64, size: uint64, hasType: bool, hasPath: bool)
    returns (status: Status, device: Device?)
    requires RegisterStatus(base, size, hasType, hasPath) == Success ==> base + size <= memory.Length
    ensures status == RegisterStatus(base, size, hasType, hasPath)
    ensures status != Success ==> device == null
    ensures status == Success ==>
      && device != null && fresh(device) && device.Valid()
      && device.memory == memory && device.startingAddr == base && device.size == size
      && device.Kind() == Medium(0, false)
      && device.lastBlock == |device.Contents()| - 1
      && EndingAddr(base, size) == base + size - 1
  {
    hide Chop, Wrap;
    if size == 0 || !hasType || !hasPath {
      return NotFound, null;
    }
    if size % BLOCK_SIZE != 0 {
      return BadBufferSize, null;
    }
    if size >= UINT64_MAX || base > Add64(Sub64(UINT64_MAX, size), 1) {
      return InvalidParameter, null;
    }
    GeometryExact(base, size);
    device := new Device(memory, base, size);
    status := Success;
  }

  // --------------------------------------------------------------------------
  // Any history of requests
  // --------------------------------------------------------------------------

  /** What a caller gets to see of a request: the status, the bytes read, and whether the event was signalled. */
  datatype Reply = Reply(status: Status, data: seq<byte>, signalled: bool)

  /** One read into a buffer of its own, through the plain form or through the extended one with an event. */
  method PerformRead(device: Device, r: Request, extended: bool) returns (reply: Reply)
    requires device.Valid() && r.Read?
    ensures ReadsAs(device.Kind(), device.Contents(), r, reply.status, reply.data)
    ensures reply.signalled <==> extended && reply.status == Success
  {
    hide Chop;
    var status;
    var token := new Token(true);
    var buffer: array?<byte> := null;
    if r.hasBuffer {
      buffer := new byte[r.size];
    }
    if extended {
      status := device.ReadBlocksEx(r.mediaId, r.lba, token, r.size, buffer);
    } else {
      status := device.ReadBlocks(r.mediaId, r.lba, r.size, buffer);
    }
    if status != Success {
      return Reply(status, [], token.signalled);
    }
    assert buffer[..r.size] == buffer[..];
    return Reply(status, buffer[..], token.signalled);
  }

  /** One write, through either form. */
  method PerformWrite(device: Device, r: Request, extended: bool) returns (reply: Reply)
    requires device.Valid() && r.Write?
    modifies device.memory
    ensures device.Contents() == Step(device.Kind(), old(device.Contents()), r)
    ensures reply.status == Answer(device.Kind(), |old(device.Contents())|, r)
    ensures reply.signalled <==> extended && reply.status == Success
    ensures device.memory[..device.startingAddr] == old(device.memory[..device.startingAddr])
    ensures device.memory[device.startingAddr + device.size..]
         == old(device.memory[device.startingAddr + device.size..])
  {
    hide Chop;
    var status;
    var token := new Token(true);
    var buffer: array?<byte> := null;
    if r.hasBuffer {
      buffer := new byte[|r.data|](i requires 0 <= i < |r.data| => r.data[i]);
      assert buffer[..|r.data|] == r.data;
    }
    if extended {
      status := device.WriteBlocksEx(r.mediaId, r.lba, token, |r.data|, buffer);
    } else {
      status := device.WriteBlocks(r.mediaId, r.lba, |r.data|, buffer);
    }
    return Reply(status, [], token.signalled);
  }

  /** What a read returned for block `b` after `history` is the latest that was written there. */
  ghost predicate FindsLatest(medium: Medium, blocks: seq<seq<byte>>, history: seq<Request>,
                              r: Request, data: seq<byte>, b: nat)
  {
    && b < |blocks| && |data| % BLOCK_SIZE == 0 && r.lba <= b < r.lba + |Chop(data)|
    && ReadsLatest(medium, blocks, history, b, Chop(data)[b - r.lba])
  }

  // What the reply to a request is, when `history` has come before it.
  ghost predicate Answered(medium: Medium, blocks: seq<seq<byte>>, history: seq<Request>,
                           extended: bool, r: Request, reply: Reply) {
    && reply.status == Answer(medium, |blocks|, r)
    && (reply.signalled <==> extended && reply.status == Success)
    && (r.Read? ==> ReadsAs(medium, Run(medium, blocks, history), r, reply.status, reply.data))
    && (r.Read? && reply.status == Success ==>
          forall b: nat :: r.lba <= b < r.lba + r.Blocks() ==> FindsLatest(medium, blocks, history, r, reply.data, b))
  }

  /**
   * Any history of requests, each through either form: the device ends as the array of blocks does,
   * every request is answered as the array would answer it, and what a read finds in a block is
   * what the latest accepted write before it put there.
   */
  method Serve(device: Device, history: seq<Request>, extended: seq<bool>) returns (replies: seq<Reply>)
    requires device.Valid() && |extended| == |history|
    modifies device.memory
    ensures |replies| == |history|
    ensures device.Contents() == Run(device.Kind(), old(device.Contents()), history)
    ensures forall i :: 0 <= i < |history| ==>
      Answered(device.Kind(), old(device.Contents()), history[..i], extended[i], history[i], replies[i])
    ensures device.memory[..device.startingAddr] == old(device.memory[..device.startingAddr])
    ensures device.memory[device.startingAddr + device.size..]
         == old(device.memory[device.startingAddr + device.size..])
  {
    hide Chop, Step, Answer, ReadsAs, Answered, Run;
    ghost var medium, blocks := device.Kind(), device.Contents();
    replies := [];
    var n: nat := 0;
    NothingServed(medium, blocks, history);
    while n < |history|
      invariant n <= |history| && |replies| == n
      invariant device.Contents() == Run(medium, blocks, history[..n])
      invariant forall i :: 0 <= i < n ==> Answered(medium, blocks, history[..i], extended[i], history[i], replies[i])
      invariant device.memory[..device.startingAddr] == old(device.memory[..device.startingAddr])
      invariant device.memory[device.startingAddr + device.size..]
             == old(device.memory[device.startingAddr + device.size..])
    {
      var reply;
      RunStep(medium, blocks, history, n);
      if history[n].Read? {
        reply := PerformRead(device, history[n], extended[n]);
        ReadChangesNothing(medium, device.Contents(), history[n]);
        ReadAnswered(medium, blocks, history[..n], extended[n], history[n], reply);
      } else {
        reply := PerformWrite(device, history[n], extended[n]);
        WriteAnswered(medium, blocks, history[..n], extended[n], history[n], reply);
      }
      replies := replies + [reply];
      n := n + 1;
    }
    assert history[..n] == history;
  }

  lemma NothingServed(medium: Medium, blocks: seq<seq<byte>>, history: seq<Request>)
    ensures Run(medium, blocks, history[..0]) == blocks
  {}

  lemma ReadChangesNothing(medium: Medium, blocks: seq<seq<byte>>, r: Request)
    requires r.Read?
    ensures Step(medium, blocks, r) == blocks
  {}

  lemma RunStep(medium: Medium, blocks: seq<seq<byte>>, history: seq<Request>, n: nat)
    requires n < |history|
    ensures Run(medium, blocks, history[..n + 1]) == Step(medium, Run(medium, blocks, history[..n]), history[n])
  {
    hide Step;
    assert history[..n + 1][..n] == history[..n];
  }

  lemma WriteAnswered(medium: Medium, blocks: seq<seq<byte>>, history: seq<Request>,
                      extended: bool, r: Request, reply: Reply)
    requires r.Write? && reply.status == Answer(medium, |blocks|, r)
    requires reply.signalled <==> extended && reply.status == Success
    ensures Answered(medium, blocks, history, extended, r, reply)
  {}

  lemma ReadAnswered(medium: Medium, blocks: seq<seq<byte>>, history: seq<Request>,
                     extended: bool, r: Request, reply: Reply)
    requires r.Read? && ReadsAs(medium, Run(medium, blocks, history), r, reply.status, reply.data)
    requires reply.signalled <==> extended && reply.status == Success
    ensures Answered(medium, blocks, history, extended, r, reply)
  {
    hide Run, ReadsLatest;
    if reply.status == Success {
      forall b: nat | r.lba <= b < r.lba + r.Blocks() ensures FindsLatest(medium, blocks, history, r, reply.data, b) {
        RunReadsLatest(medium, blocks, history, b);
      }
    }
  }
}
