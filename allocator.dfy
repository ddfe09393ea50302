/** The linear command allocator of Neko.h: one malloc'd block of
    `bufferSize` bytes at address `buffer`, handed out front to back by bumping
    `allocatedSize`. There is no per-allocation free; a reset drops the block. */
module Allocator {
  import opened Alignment

  // ---------------------------------------------------------------------------
  // nkCanSatisfyAllocation

  /** nkCanSatisfyAllocation as the C code evaluates it on a 64-bit platform.
      Two things differ from what its comments intend: the alignment mask is
      built from a `uint32_t` and clears the upper half of the address (see
      AlignToNarrowMask), and the new allocated size is truncated to 32 bits
      before it is compared with `bufferSize`. Each `return NkFalse` follows
      an NK_ASSERT of the opposite condition, so with assertions enabled the
      C function aborts instead of refusing; this is the release build. */
  function CanSatisfyAllocationAsWritten(buffer: U64, bufferSize: U32, allocatedSize: U32,
                                         size: U32, alignment: U32): (ok: bool)
    requires IsPowerOfTwo(alignment)
    ensures ok ==> 0 < size && Wrap64(buffer + allocatedSize) < WORD32
  {
    var bufferHead := Wrap64(buffer + allocatedSize);
    var allocStart := AlignToNarrowMask(bufferHead, alignment);
    if allocStart < bufferHead then
      false  // alignment overflowed
    else
      var allocEnd := Wrap64(allocStart + size);
      if allocEnd <= allocStart then
        false  // the size overflowed
      else
        var newAllocatedSize := Truncate32(allocatedSize + (allocEnd - bufferHead));
        newAllocatedSize <= bufferSize
  }

  /** nkCanSatisfyAllocation as its comments describe it: the aligned start of
      the free space must not wrap, the end of the request must not wrap, and
      the cursor advanced by padding plus size must stay within the block. */
  function CanSatisfyAllocation(buffer: U64, bufferSize: U32, allocatedSize: U32,
                                size: U32, alignment: U32): (ok: bool)
    requires IsPowerOfTwo(alignment)
    ensures ok ==> 0 < size && allocatedSize + size <= bufferSize
  {
    var bufferHead := Wrap64(buffer + allocatedSize);
    var allocStart := AlignTo(bufferHead, alignment);
    if allocStart < bufferHead then
      false
    else
      var allocEnd := Wrap64(allocStart + size);
      if allocEnd <= allocStart then
        false
      else
        allocatedSize + (allocEnd - bufferHead) <= bufferSize
  }

  /** A placement of `size` bytes at `start` inside the free part of a block:
      aligned, at or after the cursor, non-empty and ending within the block. */
  ghost predicate FitsAt(buffer: nat, bufferSize: nat, allocatedSize: nat,
                         size: nat, alignment: nat, start: int)
    requires alignment > 0
  {
    && Aligned(start, alignment)
    && buffer + allocatedSize <= start
    && 0 < size
    && start + size <= buffer + bufferSize
  }

  /** The satisfiability check accepts exactly when some aligned placement of
      the request fits in the free part of the block. */
  lemma CanSatisfyIffFits(buffer: U64, bufferSize: U32, allocatedSize: U32,
                          size: U32, alignment: U32)
    requires IsPowerOfTwo(alignment)
    requires allocatedSize <= bufferSize && buffer + bufferSize < WORD64
    ensures alignment > 0
    ensures CanSatisfyAllocation(buffer, bufferSize, allocatedSize, size, alignment)
            <==> exists start :: FitsAt(buffer, bufferSize, allocatedSize, size, alignment, start)
  {
    PowerOfTwoPositive(alignment);
    var head := buffer + allocatedSize;
    var start := AlignTo(head, alignment);
    if CanSatisfyAllocation(buffer, bufferSize, allocatedSize, size, alignment) {
      CanSatisfyGivesPlacement(buffer, bufferSize, allocatedSize, size, alignment);
    } else if s :| FitsAt(buffer, bufferSize, allocatedSize, size, alignment, s) {
      NoAlignmentWrap(head, alignment, s);
      AlignToIsLeast(head, alignment, s);
      assert false;
    }
  }

  /** If an aligned address exists at or above `head` in the address space,
      rounding `head` up does not wrap. */
  lemma NoAlignmentWrap(head: U64, alignment: U64, m: U64)
    requires IsPowerOfTwo(alignment)
    requires head <= m && Aligned(m, alignment)
    ensures head + alignment - 1 < WORD64
  {
    Word64IsPowerOfTwo();
    PowerOfTwoDivides(alignment, WORD64);
    MultiplesApart(m, WORD64, alignment);
  }

  /** What the intended check establishes: the rounded-up cursor is a
      placement that fits. */
  lemma CanSatisfyGivesPlacement(buffer: U64, bufferSize: U32, allocatedSize: U32,
                                 size: U32, alignment: U32)
    requires IsPowerOfTwo(alignment)
    requires allocatedSize <= bufferSize && buffer + bufferSize < WORD64
    requires CanSatisfyAllocation(buffer, bufferSize, allocatedSize, size, alignment)
    ensures alignment > 0
    ensures FitsAt(buffer, bufferSize, allocatedSize, size, alignment,
                   AlignTo(buffer + allocatedSize, alignment))
  {
    PowerOfTwoPositive(alignment);
    var start := AlignTo(buffer + allocatedSize, alignment);
    assert start + size < WORD64;
  }

  /** An aligned address less than one alignment above `head` is the least
      aligned address at or after `head`. */
  lemma FirstAlignedIsLeast(head: nat, alignment: nat, x: nat, m: nat)
    requires Aligned(x, alignment) && head <= x < head + alignment
    requires Aligned(m, alignment) && head <= m
    ensures x <= m
  {
    if m < x {
      MultiplesApart(m, x, alignment);
    }
  }

  /** After a reset the block is gone and no request can be satisfied. */
  lemma NothingFitsAfterReset(size: U32, alignment: U32)
    requires IsPowerOfTwo(alignment)
    ensures !CanSatisfyAllocation(0, 0, 0, size, alignment)
  {
    AlignToAligned(0, alignment);
  }

  // ---------------------------------------------------------------------------
  // The check as written against the intended check

  /** The narrow mask makes the check as written refuse every request once the
      cursor address is at or above 4 GiB, which is where a 64-bit heap
      usually lives. */
  lemma AsWrittenRefusesHighAddresses(buffer: U64, bufferSize: U32, allocatedSize: U32,
                                      size: U32, alignment: U32)
    requires IsPowerOfTwo(alignment)
    requires Wrap64(buffer + allocatedSize) >= WORD32
    ensures !CanSatisfyAllocationAsWritten(buffer, bufferSize, allocatedSize, size, alignment)
  {
  }

  /** A concrete request that fits but is refused by the check as written:
      4 bytes from an empty 16 KiB block at address 2^32. */
  lemma AsWrittenRefusesFittingRequest()
    ensures CanSatisfyAllocation(WORD32, 16384, 0, 4, 4)
    ensures !CanSatisfyAllocationAsWritten(WORD32, 16384, 0, 4, 4)
  {
    assert IsPowerOfTwo(4) by { assert IsPowerOfTwo(2); }
    AsWrittenRefusesHighAddresses(WORD32, 16384, 0, 4, 4);
    assert AlignTo(WORD32, 4) == WORD32 by {
      DividesWord32(4);
      AlignToAligned(WORD32, 4);
    }
  }

  /** A request from an aligned cursor below 4 GiB that would advance the
      cursor to exactly 2^32 overruns every block, yet the check as written
      accepts it: the new cursor truncates to 0. */
  lemma AsWrittenAcceptsCursorWrap(buffer: U64, bufferSize: U32, allocatedSize: U32,
                                   size: U32, alignment: U32)
    requires IsPowerOfTwo(alignment)
    requires buffer + allocatedSize < WORD32 && Aligned(buffer + allocatedSize, alignment)
    requires allocatedSize + size == WORD32
    ensures !CanSatisfyAllocation(buffer, bufferSize, allocatedSize, size, alignment)
    ensures CanSatisfyAllocationAsWritten(buffer, bufferSize, allocatedSize, size, alignment)
  {
    var head := buffer + allocatedSize;
    assert AlignTo(head, alignment) == head by {
      AlignToAligned(head, alignment);
    }
    assert AlignToNarrowMask(head, alignment) == head;
    assert Wrap64(head + size) == head + size;
    assert Truncate32(allocatedSize + size) == 0 by {
      assert Mod(WORD32, WORD32) == Mod(0, WORD32);
    }
  }

  /** A concrete instance: a 16 KiB block at 0x10000 already holds one 4-byte
      record, and a request for 2^32 - 4 more bytes is accepted. */
  lemma AsWrittenAcceptsOverrun()
    ensures !CanSatisfyAllocation(0x10000, 16384, 4, WORD32 - 4, 4)
    ensures CanSatisfyAllocationAsWritten(0x10000, 16384, 4, WORD32 - 4, 4)
  {
    assert IsPowerOfTwo(4) by { assert IsPowerOfTwo(2); }
    assert Aligned(0x10004, 4) by {
      Pow2At16();
      Pow2IsPowerOfTwo(16);
      PowerOfTwoDivides(4, 0x1_0000);
      ModAddAligned(4, 0x1_0000, 4);
    }
    AsWrittenAcceptsCursorWrap(0x10000, 16384, 4, WORD32 - 4, 4);
  }

  /** Below 4 GiB, and when the advanced cursor fits in 32 bits, the check as
      written and the intended check agree. */
  lemma AsWrittenAgreesInLowMemory(buffer: U64, bufferSize: U32, allocatedSize: U32,
                                   size: U32, alignment: U32)
    requires IsPowerOfTwo(alignment)
    requires buffer + allocatedSize + alignment + size < WORD32
    ensures CanSatisfyAllocationAsWritten(buffer, bufferSize, allocatedSize, size, alignment)
            == CanSatisfyAllocation(buffer, bufferSize, allocatedSize, size, alignment)
  {
  }

  // ---------------------------------------------------------------------------
  // nkAllocateFromBuffer

  /** nkAllocateFromBuffer. `allocatedSize` is passed by pointer in C and comes
      back here as `newAllocatedSize`; `allocationOffset` is the optional
      out-parameter. The three NK_ASSERTs of the C function are the
      preconditions (the last one compares the 32-bit truncated size). */
  method AllocateFromBuffer(buffer: U64, bufferSize: U32, allocatedSize: U32, size: U64, alignment: U64)
    returns (newAllocatedSize: U32, allocStart: U64, allocationOffset: U32)
    requires IsPowerOfTwo(alignment)
    requires var head := Wrap64(buffer + allocatedSize);
             var start := AlignTo(head, alignment);
             && start >= head
             && Wrap64(start + size) > start
             && Truncate32(allocatedSize + (Wrap64(start + size) - head)) <= bufferSize
    ensures var head := Wrap64(buffer + allocatedSize);
            && Aligned(allocStart, alignment)
            && head <= allocStart < head + alignment
            && 0 < size && allocStart + size < WORD64
            && newAllocatedSize == Truncate32(allocatedSize + (allocStart - head) + size)
            && newAllocatedSize <= bufferSize
    ensures allocationOffset == Truncate32(Sub64(allocStart, buffer))
  {
    var bufferHead := Wrap64(buffer + allocatedSize);
    allocStart := AlignTo(bufferHead, alignment);
    var allocEnd := Wrap64(allocStart + size);
    assert allocEnd == allocStart + size;  // the end did not wrap
    var allocSize := allocEnd - bufferHead;
    newAllocatedSize := Truncate32(allocatedSize + allocSize);
    allocationOffset := Truncate32(Sub64(allocStart, buffer));
  }

  /** When the intended check accepts, the NK_ASSERTs of nkAllocateFromBuffer
      hold. */
  lemma AllocationAccepted(buffer: U64, bufferSize: U32, allocatedSize: U32, size: U32, alignment: U32)
    requires IsPowerOfTwo(alignment)
    requires allocatedSize <= bufferSize && buffer + bufferSize < WORD64
    requires CanSatisfyAllocation(buffer, bufferSize, allocatedSize, size, alignment)
    ensures var head := Wrap64(buffer + allocatedSize);
            var start := AlignTo(head, alignment);
            && start >= head
            && Wrap64(start + size) > start
            && Truncate32(allocatedSize + (Wrap64(start + size) - head)) <= bufferSize
  {
    CanSatisfyGivesPlacement(buffer, bufferSize, allocatedSize, size, alignment);
  }

  /** When the intended check accepts, the cursor nkAllocateFromBuffer returns
      is not truncated: it is the end of the new allocation, inside the block. */
  lemma AllocationAdvances(buffer: U64, bufferSize: U32, allocatedSize: U32, size: U32, alignment: U32,
                           newAllocatedSize: U32, allocStart: U64)
    requires IsPowerOfTwo(alignment)
    requires allocatedSize <= bufferSize && buffer + bufferSize < WORD64
    requires CanSatisfyAllocation(buffer, bufferSize, allocatedSize, size, alignment)
    requires var head := buffer + allocatedSize;
             && Aligned(allocStart, alignment)
             && head <= allocStart < head + alignment
             && newAllocatedSize == Truncate32(allocatedSize + (allocStart - head) + size)
    ensures buffer + allocatedSize <= allocStart
    ensures newAllocatedSize == allocatedSize + (allocStart - (buffer + allocatedSize)) + size
    ensures allocStart + size == buffer + newAllocatedSize <= buffer + bufferSize
  {
    var head := buffer + allocatedSize;
    var start := AlignTo(head, alignment);
    CanSatisfyGivesPlacement(buffer, bufferSize, allocatedSize, size, alignment);
    FirstAlignedIsLeast(head, alignment, allocStart, start);
  }

  /** When the intended check accepts, the offset nkAllocateFromBuffer reports
      locates the allocation: it lies inside the block, and the buffer
      address plus the offset is the address returned. */
  lemma OffsetLocatesAllocation(buffer: U64, bufferSize: U32, allocatedSize: U32, size: U32, alignment: U32,
                                allocStart: U64)
    requires IsPowerOfTwo(alignment)
    requires allocatedSize <= bufferSize && buffer + bufferSize < WORD64
    requires CanSatisfyAllocation(buffer, bufferSize, allocatedSize, size, alignment)
    requires var head := buffer + allocatedSize;
             Aligned(allocStart, alignment) && head <= allocStart < head + alignment
    ensures buffer <= allocStart && allocStart + size <= buffer + bufferSize
    ensures allocStart == buffer + Truncate32(Sub64(allocStart, buffer))
  {
    var head := buffer + allocatedSize;
    CanSatisfyGivesPlacement(buffer, bufferSize, allocatedSize, size, alignment);
    FirstAlignedIsLeast(head, alignment, allocStart, AlignTo(head, alignment));
  }

  // ---------------------------------------------------------------------------
  // NkCommandAllocator

  /** One allocation handed out: the bytes `[address, address + size)`. */
  datatype Block = Block(address: nat, size: nat)

  /** The blocks are non-empty, lie in `[lo, hi)`, and each ends at or before
      the next one starts. */
  ghost predicate Packed(blocks: seq<Block>, lo: int, hi: int)
  {
    && (forall i :: 0 <= i < |blocks| ==>
          && 0 < blocks[i].size
          && lo <= blocks[i].address
          && blocks[i].address + blocks[i].size <= hi)
    && (forall i, j :: 0 <= i < j < |blocks| ==>
          blocks[i].address + blocks[i].size <= blocks[j].address)
  }

  /** A block placed at or after the end of a packed layout extends it. */
  lemma PackedAppend(blocks: seq<Block>, lo: int, hi: int, b: Block, hi': int)
    requires Packed(blocks, lo, hi)
    requires lo <= hi <= b.address && 0 < b.size && b.address + b.size == hi'
    ensures Packed(blocks + [b], lo, hi')
  {
  }

  class CommandAllocator {
    var buffer: U64
    var bufferSize: U32
    var allocatedSize: U32
    var lastAllocationSize: U32

    /** What has been written into the block, by address (the recording
        functions store one command tag at the start of each record). */
    var memory: map<nat, int>

    /** The allocations handed out from the current block, in order. */
    ghost var Allocations: seq<Block>

    /** The block lies in the address space with its one-past-the-end address
        representable, the cursor is inside it, and the allocations are
        non-empty, ordered, disjoint and below the cursor. */
    ghost predicate Valid()
      reads this
    {
      && allocatedSize <= bufferSize
      && buffer + bufferSize < WORD64
      && Packed(Allocations, buffer, buffer + allocatedSize)
    }

    /** Every allocation has had something written at its start. */
    ghost predicate Recorded()
      reads this
    {
      forall i :: 0 <= i < |Allocations| ==> Allocations[i].address in memory
    }

    /** The values stored at the start of each allocation, in allocation order. */
    ghost function Contents(): (s: seq<int>)
      reads this
      requires Recorded()
      ensures |s| == |Allocations|
    {
      seq(|Allocations|, i requires 0 <= i < |Allocations| && Allocations[i].address in memory reads this => memory[Allocations[i].address])
    }

    /** nkCreateCommandAllocator: `base` is the address NK_MALLOC returned,
        asserted non-null. */
    constructor Create(size: U32, base: U64)
      requires base != 0 && base + size < WORD64
      ensures Valid() && Recorded()
      ensures buffer == base && bufferSize == size
      ensures allocatedSize == 0 && lastAllocationSize == 0
      ensures Allocations == [] && memory == map[]
    {
      buffer := base;
      bufferSize := size;
      allocatedSize := 0;
      lastAllocationSize := 0;
      memory := map[];
      Allocations := [];
    }

    /** nkCommandAllocatorReset: the buffer, its size and the cursor are set to
        zero; `lastAllocationSize` is left alone. Nothing of the old block
        remains usable. */
    method Reset()
      requires Valid()
      modifies this
      ensures Valid() && Recorded()
      ensures buffer == 0 && bufferSize == 0 && allocatedSize == 0
      ensures lastAllocationSize == old(lastAllocationSize)
      ensures Allocations == [] && memory == map[]
    {
      buffer := 0;
      bufferSize := 0;
      allocatedSize := 0;
      memory := map[];
      Allocations := [];
    }

    /** nkCommandAllocatorAllocate: its NK_ASSERTs are the preconditions (with
        the satisfiability check as intended). The returned block is aligned,
        starts at the first aligned address at or after the cursor, lies in
        the free part of the block, and the cursor moves to its end. */
    method Allocate(size: U32, alignment: U32) returns (address: U64)
      requires Valid()
      requires buffer != 0
      requires size > 0
      requires IsPowerOfTwo(alignment)
      requires CanSatisfyAllocation(buffer, bufferSize, allocatedSize, size, alignment)
      modifies this`allocatedSize, this`Allocations
      ensures Valid()
      ensures Aligned(address, alignment)
      ensures old(buffer + allocatedSize) <= address < old(buffer + allocatedSize) + alignment
      ensures address + size == buffer + allocatedSize
      ensures allocatedSize == old(allocatedSize) + (address - old(buffer + allocatedSize)) + size
      ensures Allocations == old(Allocations) + [Block(address, size)]
    {
      var base, capacity, cursor := buffer, bufferSize, allocatedSize;
      AllocationAccepted(base, capacity, cursor, size, alignment);
      var newAllocatedSize, allocStart, _ := AllocateFromBuffer(base, capacity, cursor, size, alignment);
      AllocationAdvances(base, capacity, cursor, size, alignment, newAllocatedSize, allocStart);
      PackedAppend(Allocations, base, base + cursor, Block(allocStart, size), allocStart + size);
      address := allocStart;
      allocatedSize := newAllocatedSize;
      Allocations := Allocations + [Block(address, size)];
    }

    /** `command->type = value`: a store into an allocation handed out earlier. */
    method Write(address: nat, value: int)
      requires exists i :: 0 <= i < |Allocations| && Allocations[i].address == address
      modifies this`memory
      ensures memory == old(memory)[address := value]
    {
      memory := memory[address := value];
    }
  }
}
