/** Command recording in Neko.h: a command encoder owns a command allocator,
    and the render and compute pass encoders it begins hold a pointer to that
    same allocator. Each recording entry point allocates one record (a struct
    holding only its NkCommandType tag) and writes the tag into it, so the
    allocator's block holds the commands in call order. */
module Recording {
  import opened Wrappers
  import opened Alignment
  import opened Allocator

  /** NkCommandType */
  datatype CommandType =
    | BeginComputePass
    | BeginRenderPass
    | RenderPassEncoderSetPipeline
    | RenderPassEncoderSetVertexBuffer
    | RenderPassEncoderDraw

  /** The value C gives each enumerator: declaration order from 0. */
  function Code(t: CommandType): (c: int)
    ensures 0 <= c < 5
  {
    match t
    case BeginComputePass => 0
    case BeginRenderPass => 1
    case RenderPassEncoderSetPipeline => 2
    case RenderPassEncoderSetVertexBuffer => 3
    case RenderPassEncoderDraw => 4
  }

  /** Reads a stored tag back; a value outside the enumeration is no tag. */
  function Decode(c: int): (t: Option<CommandType>)
    ensures t.Some? <==> 0 <= c < 5
    ensures t.Some? ==> Code(t.value) == c
  {
    if c == 0 then Some(BeginComputePass)
    else if c == 1 then Some(BeginRenderPass)
    else if c == 2 then Some(RenderPassEncoderSetPipeline)
    else if c == 3 then Some(RenderPassEncoderSetVertexBuffer)
    else if c == 4 then Some(RenderPassEncoderDraw)
    else None
  }

  /** Distinct commands are stored as distinct values, and each stored value
      reads back as the command that wrote it. */
  lemma CodeRoundTrip(t: CommandType, u: CommandType)
    ensures Decode(Code(t)) == Some(t)
    ensures Code(t) == Code(u) ==> t == u
  {
  }

  /** Every record is `struct { NkCommandType type; }`: the size and the
      alignment of an enum, 4 bytes on the platforms Neko targets. */
  const RECORD_SIZE: U32 := 4
  const RECORD_ALIGNMENT: U32 := 4

  /** NK_COMMAND_ALLOCATOR_SIZE: the block size of every command encoder. */
  const COMMAND_ALLOCATOR_SIZE: U32 := 16384

  lemma RecordAlignmentIsPowerOfTwo()
    ensures IsPowerOfTwo(RECORD_ALIGNMENT)
  {
    assert IsPowerOfTwo(2);
  }

  /** Every allocation has a valid tag stored at its start. */
  ghost predicate Tagged(allocations: seq<Block>, memory: map<nat, int>)
  {
    forall i :: 0 <= i < |allocations| ==>
      allocations[i].address in memory && Decode(memory[allocations[i].address]).Some?
  }

  /** The commands stored at the starts of the allocations, in allocation order. */
  ghost function Tags(allocations: seq<Block>, memory: map<nat, int>): (s: seq<CommandType>)
    requires Tagged(allocations, memory)
    ensures |s| == |allocations|
    ensures forall i :: 0 <= i < |s| ==> Code(s[i]) == memory[allocations[i].address]
  {
    seq(|allocations|, i requires 0 <= i < |allocations| && Tagged(allocations, memory) =>
                         Decode(memory[allocations[i].address]).value)
  }

  /** Storing a tag at the start of a new allocation that lies past all the
      earlier ones appends that command and leaves the earlier tags intact. */
  lemma TagsAppend(allocations: seq<Block>, memory: map<nat, int>, lo: int, b: Block, t: CommandType)
    requires Tagged(allocations, memory) && Packed(allocations, lo, b.address)
    ensures Tagged(allocations + [b], memory[b.address := Code(t)])
    ensures Tags(allocations + [b], memory[b.address := Code(t)]) == Tags(allocations, memory) + [t]
  {
    var allocations', memory' := allocations + [b], memory[b.address := Code(t)];
    forall i | 0 <= i < |allocations|
      ensures allocations'[i].address in memory' && memory'[allocations'[i].address] == memory[allocations[i].address]
    {
      assert allocations[i].address < b.address;
    }
    assert Tagged(allocations', memory');
    var s, s' := Tags(allocations, memory), Tags(allocations', memory');
    forall i | 0 <= i < |s'|
      ensures s'[i] == (s + [t])[i]
    {
      CodeRoundTrip(s'[i], (s + [t])[i]);
    }
  }

  /** The allocator holds a command stream: every allocation is one tagged
      record, the block starts on a record boundary, and the records are
      packed, so the cursor is four bytes per record. */
  ghost predicate HoldsStream(a: CommandAllocator)
    reads a
  {
    && a.Valid()
    && Aligned(a.buffer, RECORD_ALIGNMENT)
    && a.allocatedSize == RECORD_SIZE * |a.Allocations|
    && Tagged(a.Allocations, a.memory)
  }

  /** The commands recorded in the allocator, in call order. */
  ghost function Stream(a: CommandAllocator): (s: seq<CommandType>)
    reads a
    requires HoldsStream(a)
    ensures a.Recorded() && |s| == |a.Allocations|
    ensures forall i :: 0 <= i < |s| ==> Code(s[i]) == a.Contents()[i]
  {
    Tags(a.Allocations, a.memory)
  }

  /** The NK_ASSERTs a recording entry point makes of the allocator: it has a
      block, and the block has room for one more record. */
  predicate CanRecordAt(buffer: U64, bufferSize: U32, allocatedSize: U32)
  {
    RecordAlignmentIsPowerOfTwo();
    buffer != 0 && CanSatisfyAllocation(buffer, bufferSize, allocatedSize, RECORD_SIZE, RECORD_ALIGNMENT)
  }

  predicate CanRecord(a: CommandAllocator)
    reads a
  {
    CanRecordAt(a.buffer, a.bufferSize, a.allocatedSize)
  }

  /** `n` packed records end on a record boundary. */
  lemma {:induction false} RecordsAligned(n: nat)
    ensures Aligned(RECORD_SIZE * n, RECORD_ALIGNMENT)
  {
    if n > 0 {
      RecordsAligned(n - 1);
      ModAddAligned(RECORD_ALIGNMENT, RECORD_SIZE * (n - 1), RECORD_ALIGNMENT);
      assert RECORD_SIZE * n == RECORD_ALIGNMENT + RECORD_SIZE * (n - 1);
    }
  }

  /** After `n` records in a block that starts on a record boundary, the
      cursor is on a record boundary too. */
  lemma HeadAligned(buffer: nat, n: nat)
    requires Aligned(buffer, RECORD_ALIGNMENT)
    ensures Aligned(buffer + RECORD_SIZE * n, RECORD_ALIGNMENT)
  {
    RecordsAligned(n);
    ModAddAligned(buffer, RECORD_SIZE * n, RECORD_ALIGNMENT);
  }

  /** With the records packed from an aligned block start, one more record
      fits exactly when four more bytes are free. */
  lemma RecordFits(buffer: U64, bufferSize: U32, n: nat)
    requires Aligned(buffer, RECORD_ALIGNMENT)
    requires RECORD_SIZE * n <= bufferSize && buffer + bufferSize < WORD64
    ensures CanRecordAt(buffer, bufferSize, RECORD_SIZE * n)
            <==> buffer != 0 && RECORD_SIZE * (n + 1) <= bufferSize
  {
    RecordAlignmentIsPowerOfTwo();
    var allocatedSize: U32 := RECORD_SIZE * n;
    var head := buffer + allocatedSize;
    HeadAligned(buffer, n);
    CanSatisfyIffFits(buffer, bufferSize, allocatedSize, RECORD_SIZE, RECORD_ALIGNMENT);
    if RECORD_SIZE * (n + 1) <= bufferSize {
      assert FitsAt(buffer, bufferSize, allocatedSize, RECORD_SIZE, RECORD_ALIGNMENT, head);
    }
  }

  /** Allocates one record and writes its tag: the common body of the five
      recording entry points. The stream grows by exactly that command and
      the block itself is left in place. */
  method Record(a: CommandAllocator, t: CommandType)
    requires HoldsStream(a) && CanRecord(a)
    modifies a
    ensures HoldsStream(a)
    ensures Stream(a) == old(Stream(a)) + [t]
    ensures a.buffer == old(a.buffer) && a.bufferSize == old(a.bufferSize)
    ensures a.lastAllocationSize == old(a.lastAllocationSize)
  {
    RecordAlignmentIsPowerOfTwo();
    var buffer, cursor := a.buffer, a.allocatedSize;
    ghost var allocations, memory := a.Allocations, a.memory;
    ghost var n := |allocations|;
    HeadAligned(buffer, n);
    var address := a.Allocate(RECORD_SIZE, RECORD_ALIGNMENT);
    FirstAlignedIsLeast(buffer + cursor, RECORD_ALIGNMENT, address, buffer + cursor);
    assert a.Allocations[n].address == address;
    a.Write(address, Code(t));
    TagsAppend(allocations, memory, buffer, Block(address, RECORD_SIZE), t);
  }

  /** NkCommandEncoderImpl: the encoder owns its allocator. */
  class CommandEncoder {
    const allocator: CommandAllocator

    /** The allocator holds a command stream in a block of
        NK_COMMAND_ALLOCATOR_SIZE bytes that has not been released. */
    ghost predicate Valid()
      reads this, allocator
    {
      && HoldsStream(allocator)
      && allocator.buffer != 0
      && allocator.bufferSize == COMMAND_ALLOCATOR_SIZE
    }

    /** nkCreateCommandEncoder: `base` is the address the allocator's
        NK_MALLOC returned; malloc aligns it for any object, records
        included. */
    constructor(base: U64)
      requires base != 0 && Aligned(base, RECORD_ALIGNMENT)
      requires base + COMMAND_ALLOCATOR_SIZE < WORD64
      ensures Valid() && fresh(allocator)
      ensures Stream(allocator) == []
    {
      allocator := new CommandAllocator.Create(COMMAND_ALLOCATOR_SIZE, base);
    }

    /** nkCommandEncoderBeginComputePass */
    method BeginComputePass() returns (pass: ComputePassEncoder)
      requires Valid() && CanRecord(allocator)
      modifies allocator
      ensures Valid()
      ensures fresh(pass) && pass.allocator == allocator
      ensures Stream(allocator) == old(Stream(allocator)) + [CommandType.BeginComputePass]
    {
      Record(allocator, CommandType.BeginComputePass);
      pass := new ComputePassEncoder(allocator);
    }

    /** nkCommandEncoderBeginRenderPass: `descriptor` is the pass description,
        asserted non-null; its contents are not recorded. */
    method BeginRenderPass(descriptor: U64) returns (pass: RenderPassEncoder)
      requires Valid() && descriptor != 0 && CanRecord(allocator)
      modifies allocator
      ensures Valid()
      ensures fresh(pass) && pass.allocator == allocator
      ensures Stream(allocator) == old(Stream(allocator)) + [CommandType.BeginRenderPass]
    {
      Record(allocator, CommandType.BeginRenderPass);
      pass := new RenderPassEncoder(allocator);
    }

    /** nkCommandEncoderCopyBufferToBuffer: an empty stub. */
    method CopyBufferToBuffer(source: U64, sourceOffset: U64, destination: U64, destinationOffset: U64, size: U64)
      ensures unchanged(allocator)
    {
    }

    /** nkCommandEncoderCopyBufferToTexture: an empty stub. */
    method CopyBufferToTexture(source: U64, destination: U64, copySize: U64)
      ensures unchanged(allocator)
    {
    }

    /** nkCommandEncoderCopyTextureToBuffer: an empty stub. */
    method CopyTextureToBuffer(source: U64, destination: U64, copySize: U64)
      ensures unchanged(allocator)
    {
    }

    /** nkCommandEncoderCopyTextureToTexture: an empty stub. */
    method CopyTextureToTexture(source: U64, destination: U64, copySize: U64)
      ensures unchanged(allocator)
    {
    }
  }

  /** NkComputePassEncoderImpl: a pointer to the parent encoder's allocator. */
  class ComputePassEncoder {
    const allocator: CommandAllocator

    constructor(a: CommandAllocator)
      ensures allocator == a
    {
      allocator := a;
    }

    /** nkComputePassEncoderEndPass: an empty stub. */
    method EndPass()
      ensures unchanged(allocator)
    {
    }
  }

  /** NkRenderPassEncoderImpl: a pointer to the parent encoder's allocator. */
  class RenderPassEncoder {
    const allocator: CommandAllocator

    constructor(a: CommandAllocator)
      ensures allocator == a
    {
      allocator := a;
    }

    /** nkRenderPassEncoderSetPipeline: `pipeline` is asserted non-null. */
    method SetPipeline(pipeline: U64)
      requires HoldsStream(allocator) && pipeline != 0 && CanRecord(allocator)
      modifies allocator
      ensures HoldsStream(allocator)
      ensures Stream(allocator) == old(Stream(allocator)) + [RenderPassEncoderSetPipeline]
      ensures allocator.buffer == old(allocator.buffer) && allocator.bufferSize == old(allocator.bufferSize)
    {
      Record(allocator, RenderPassEncoderSetPipeline);
    }

    /** nkRenderPassEncoderSetVertexBuffer: the arguments are not recorded. */
    method SetVertexBuffer(slot: U32, buffer: U64, offset: U64, size: U64)
      requires HoldsStream(allocator) && CanRecord(allocator)
      modifies allocator
      ensures HoldsStream(allocator)
      ensures Stream(allocator) == old(Stream(allocator)) + [RenderPassEncoderSetVertexBuffer]
      ensures allocator.buffer == old(allocator.buffer) && allocator.bufferSize == old(allocator.bufferSize)
    {
      Record(allocator, RenderPassEncoderSetVertexBuffer);
    }

    /** nkRenderPassEncoderDraw: the counts are not recorded. */
    method Draw(vertexCount: U32, instanceCount: U32, firstVertex: U32, firstInstance: U32)
      requires HoldsStream(allocator) && CanRecord(allocator)
      modifies allocator
      ensures HoldsStream(allocator)
      ensures Stream(allocator) == old(Stream(allocator)) + [RenderPassEncoderDraw]
      ensures allocator.buffer == old(allocator.buffer) && allocator.bufferSize == old(allocator.bufferSize)
    {
      Record(allocator, RenderPassEncoderDraw);
    }

    /** nkRenderPassEncoderDrawIndexed: an empty stub. */
    method DrawIndexed(indexCount: U32, instanceCount: U32, firstIndex: U32, baseVertex: int, firstInstance: U32)
      ensures unchanged(allocator)
    {
    }

    /** nkRenderPassEncoderEndPass: an empty stub. */
    method EndPass()
      ensures unchanged(allocator)
    {
    }
  }

  /** A command encoder has room for NK_COMMAND_ALLOCATOR_SIZE / 4 = 4096
      records: it can record exactly while fewer than that are in it. */
  lemma EncoderCapacity(e: CommandEncoder)
    requires e.Valid()
    ensures CanRecord(e.allocator) <==> |Stream(e.allocator)| < 4096
  {
    var a := e.allocator;
    RecordFits(a.buffer, a.bufferSize, |a.Allocations|);
  }

  /** A frame of the triangle sample: begin a render pass, set the pipeline
      and the vertex buffer, draw. The encoder's block then holds exactly
      those four commands, in that order. */
  method TriangleFrame(base: U64, descriptor: U64, pipeline: U64, vertexBuffer: U64)
    returns (encoder: CommandEncoder)
    requires base != 0 && Aligned(base, RECORD_ALIGNMENT)
    requires base + COMMAND_ALLOCATOR_SIZE < WORD64
    requires descriptor != 0 && pipeline != 0
    ensures fresh(encoder) && encoder.Valid()
    ensures Stream(encoder.allocator) == [BeginRenderPass, RenderPassEncoderSetPipeline,
                                          RenderPassEncoderSetVertexBuffer, RenderPassEncoderDraw]
  {
    encoder := new CommandEncoder(base);
    EncoderCapacity(encoder);
    var pass := encoder.BeginRenderPass(descriptor);
    EncoderCapacity(encoder);
    pass.SetPipeline(pipeline);
    EncoderCapacity(encoder);
    pass.SetVertexBuffer(0, vertexBuffer, 0, 0);
    EncoderCapacity(encoder);
    pass.Draw(3, 1, 0, 0);
  }
}
