# Neko command recording and Vulkan helpers in Dafny

Neko is a small WebGPU-shaped graphics API written as a single C header,
`Include/Neko/Neko.h`. This project models two parts of it.

**Command recording.** A command encoder owns a linear command allocator:
one malloc'd block of `NK_COMMAND_ALLOCATOR_SIZE` (16384) bytes. The
allocator hands the block out front to back by bumping a 32-bit cursor, and
only after `nkCanSatisfyAllocation` says the aligned request fits. The
encoder and the pass encoders it creates share that allocator. Each
recording call allocates one record and writes the command's `NkCommandType`
tag at its start. The model keeps the allocator as a class with the C
struct's fields, plus the bytes written (a map from address to value) and a
ghost list of the blocks handed out. It proves:

- the blocks are aligned, disjoint, in order and inside the buffer;
- the tags read back from memory are exactly the commands recorded, in order;
- under the intended allocation check, an encoder has room for exactly 4096
  records (the check as written refuses every record once the block lies at
  or above 4 GiB; see "## Left out").

**Vulkan backend helpers.** These are the pure decisions the backend makes
when it creates a device, a swap chain and a render pipeline:

- the translation of Neko enums to Vulkan enums (input rate, vertex format,
  primitive topology, primitive restart);
- the flattening of vertex buffer layouts into binding and attribute
  description arrays;
- the queue-family search and the queues the device is created with;
- the swap-chain surface-format and present-mode choosers, the extent, the
  image count and the image sharing mode.

What the driver reports arrives as parameters: the queue family
capabilities, the surface formats and present modes, and the surface
capabilities. Addresses returned by `malloc` are parameters too. All
integer widths are those of a 64-bit platform: `uintptr_t` and `size_t` are
64 bits, and `uint32_t` is 32 bits. Wrap-around and truncation are written
out (`Wrap64`, `Truncate32`). This includes the vertex-input stride and
offset: Neko gives them as `uint64_t`, and Vulkan's descriptions keep their
low 32 bits.

Two checks in the C code do not do what their comments and callers intend,
and two loops skip the last element of their input. See "## Findings". Each
is modelled twice: once as written, with a lemma that shows an input where
it goes wrong, and once as intended, with its property proved. The
command allocator uses the intended check. The swap-chain settings are
given both ways: `SwapchainSettingsFor` uses the choosers as written and
`IntendedSwapchainSettingsFor` the intended ones.

`nkCommandAllocatorReset` does not rewind the block: it zeroes `buffer`,
`bufferSize` and `allocatedSize` (Neko.h:1008-1010), so nothing can be
allocated afterwards (`NothingFitsAfterReset`). `lastAllocationSize` is
left as it was.

## Model

| member | source | states |
|---|---|---|
| Alignment.Wrap64 | Include/Neko/Neko.h:1023 | `uintptr_t` addition wraps: the result is the sum or the sum less 2^64 (`Wrap64IsMod`: it is the sum mod 2^64) |
| Alignment.Wrap64IsMod | Include/Neko/Neko.h:1023 | the wrapped sum equals the sum mod 2^64 |
| Alignment.Truncate32 | Include/Neko/Neko.h:1043 | storing into a `uint32_t` leaves values below 2^32 unchanged |
| Alignment.Truncate32IsMod | Include/Neko/Neko.h:1043 | the truncated value is the value mod 2^32 |
| Alignment.Sub64 | Include/Neko/Neko.h:1074 | `uintptr_t` subtraction is the difference, or the difference plus 2^64 when negative |
| Alignment.PowerOfTwoIffPow2 | Include/Neko/Neko.h:1013 | NK_IS_POWER_OF_TWO accepts exactly the powers 2^k |
| Alignment.RoundDown | Include/Neko/Neko.h:1015 | the `& ~(alignment - 1)` mask rounds down to an aligned value less than one alignment below its argument |
| Alignment.AlignTo | Include/Neko/Neko.h:1013-1015 | NK_ALIGN_TO on a 64-bit mask gives an aligned address; without wrap it is in `[value, value + alignment)`; when `value + alignment - 1` wraps it is 0, below `value` |
| Alignment.AlignToIsLeast | Include/Neko/Neko.h:1015 | NK_ALIGN_TO gives the least aligned address at or above `value` |
| Alignment.AlignToNarrowMask | Include/Neko/Neko.h:1015 | NK_ALIGN_TO with a mask built from the `uint32_t` alignment is the 64-bit result truncated to its low 32 bits |
| Alignment.NarrowMaskAgreesBelow4GiB | Include/Neko/Neko.h:1024 | below 4 GiB the narrow mask and the full mask agree |
| Allocator.CanSatisfyAllocationAsWritten | Include/Neko/Neko.h:1021-1054 | nkCanSatisfyAllocation as written accepts only non-empty requests whose cursor address lies below 4 GiB |
| Allocator.CanSatisfyAllocation | Include/Neko/Neko.h:1021-1054 | the intended check accepts only non-empty requests that leave the cursor plus the size within the block |
| Allocator.CanSatisfyIffFits | Include/Neko/Neko.h:1021-1054 | the intended check accepts exactly when an aligned placement of the request exists in the free part of the block |
| Allocator.CanSatisfyGivesPlacement | Include/Neko/Neko.h:1021-1054 | when the intended check accepts, the first aligned address after the cursor is such a placement |
| Allocator.FirstAlignedIsLeast | Include/Neko/Neko.h:1024 | an aligned address in `[head, head + alignment)` is the least aligned address at or above `head` |
| Allocator.NothingFitsAfterReset | Include/Neko/Neko.h:1005-1011 | after a reset (buffer, size and cursor all 0) no request is accepted |
| Allocator.AsWrittenRefusesHighAddresses | Include/Neko/Neko.h:1021-1054 | as written, the check refuses every request once the cursor address is at or above 4 GiB |
| Allocator.AsWrittenRefusesFittingRequest | Include/Neko/Neko.h:1021-1054 | a 4-byte request into an empty 16 KiB block at 2^32 fits, but the check as written refuses it |
| Allocator.AsWrittenAcceptsCursorWrap | Include/Neko/Neko.h:1042-1050 | as written, a request that moves the cursor to exactly 2^32 is accepted, although it overruns every block |
| Allocator.AsWrittenAcceptsOverrun | Include/Neko/Neko.h:1042-1050 | a concrete overrun: block 0x10000 of 16 KiB, cursor 4, request 2^32 - 4 bytes is accepted as written and refused as intended |
| Allocator.AsWrittenAgreesInLowMemory | Include/Neko/Neko.h:1021-1054 | when the whole computation stays below 2^32, the check as written and as intended agree |
| Allocator.AllocateFromBuffer | Include/Neko/Neko.h:1056-1078 | nkAllocateFromBuffer returns an aligned start in `[head, head + alignment)`, advances the cursor by padding plus size within the block, and reports the offset from the buffer |
| Allocator.AllocationAccepted | Include/Neko/Neko.h:1061-1069 | when the intended check accepts, the NK_ASSERTs of nkAllocateFromBuffer hold |
| Allocator.AllocationAdvances | Include/Neko/Neko.h:1067-1071 | after an accepted request the 32-bit cursor is not truncated: it is the end of the new allocation, inside the block |
| Allocator.OffsetLocatesAllocation | Include/Neko/Neko.h:1073-1077 | after an accepted request the reported offset locates the allocation: the buffer address plus the offset is the returned address, inside the block |
| Allocator.PackedAppend | Include/Neko/Neko.h:1056-1078 | an allocation placed at or after the cursor keeps the allocations ordered, disjoint and inside the block |
| Allocator.CommandAllocator.Contents | Include/Neko/Neko.h:985-990 | one stored value per allocation handed out |
| Allocator.CommandAllocator.Create | Include/Neko/Neko.h:992-1003 | nkCreateCommandAllocator: a block of `size` bytes at the malloc'd address, empty cursor, nothing allocated |
| Allocator.CommandAllocator.Reset | Include/Neko/Neko.h:1005-1011 | buffer, size and cursor become 0, nothing remains allocated, `lastAllocationSize` is unchanged |
| Allocator.CommandAllocator.Allocate | Include/Neko/Neko.h:1080-1088 | the returned address is aligned, is the first aligned address at or after the cursor, and the cursor moves to its end; the allocation is appended to the allocations, which stay ordered and disjoint |
| Allocator.CommandAllocator.Write | Include/Neko/Neko.h:1279 | a store into an allocation changes exactly that address |
| Recording.Code | Include/Neko/Neko.h:1112-1118 | the NkCommandType values are 0 to 4 |
| Recording.Decode | Include/Neko/Neko.h:1112-1118 | exactly the codes 0 to 4 decode, and each decodes to the command with that code |
| Recording.CodeRoundTrip | Include/Neko/Neko.h:1112-1118 | decoding a command's code gives the command back, and distinct commands have distinct codes |
| Recording.Tags | Include/Neko/Neko.h:1112-1118 | the commands read back are one per allocation, each the one whose code is stored at its start |
| Recording.TagsAppend | Include/Neko/Neko.h:1268-1280 | tagging a new allocation placed after the others appends its command to those read back and leaves the earlier ones alone |
| Recording.Stream | Include/Neko/Neko.h:1090-1100 | the encoder's command stream: one command per allocation, whose code is the value stored at its start |
| Recording.RecordsAligned | Include/Neko/Neko.h:1015 | the cursor after any number of 4-byte records is 4-aligned |
| Recording.HeadAligned | Include/Neko/Neko.h:1023-1024 | with an aligned buffer and only records in it, the cursor address is already aligned |
| Recording.RecordFits | Include/Neko/Neko.h:1021-1054 | after `n` records, one more fits exactly when the buffer is non-null and `4(n + 1)` bytes fit in the block |
| Recording.Record | Include/Neko/Neko.h:1268-1279 | allocating a record and writing its tag appends that command to the stream and keeps the block and its layout intact |
| Recording.CommandEncoder.constructor | Include/Neko/Neko.h:1102-1110 | nkCreateCommandEncoder: a 16384-byte allocator whose stream is empty |
| Recording.CommandEncoder.BeginComputePass | Include/Neko/Neko.h:1125-1141 | records BeginComputePass and returns a fresh pass encoder sharing the encoder's allocator |
| Recording.CommandEncoder.BeginRenderPass | Include/Neko/Neko.h:1146-1167 | with a non-null descriptor, records BeginRenderPass and returns a fresh pass encoder sharing the encoder's allocator |
| Recording.CommandEncoder.CopyBufferToBuffer | Include/Neko/Neko.h:1169-1171 | an empty stub: the allocator is unchanged |
| Recording.CommandEncoder.CopyBufferToTexture | Include/Neko/Neko.h:1173-1175 | an empty stub: the allocator is unchanged |
| Recording.CommandEncoder.CopyTextureToBuffer | Include/Neko/Neko.h:1177-1179 | an empty stub: the allocator is unchanged |
| Recording.CommandEncoder.CopyTextureToTexture | Include/Neko/Neko.h:1181-1183 | an empty stub: the allocator is unchanged |
| Recording.ComputePassEncoder.constructor | Include/Neko/Neko.h:1137 | the pass encoder points at its encoder's allocator |
| Recording.ComputePassEncoder.EndPass | Include/Neko/Neko.h:1223-1225 | an empty stub: the allocator is unchanged |
| Recording.RenderPassEncoder.constructor | Include/Neko/Neko.h:1164 | the pass encoder points at its encoder's allocator |
| Recording.RenderPassEncoder.SetPipeline | Include/Neko/Neko.h:1338-1351 | with a non-null pipeline, appends RenderPassEncoderSetPipeline to the stream; the block is unchanged |
| Recording.RenderPassEncoder.SetVertexBuffer | Include/Neko/Neko.h:1365-1377 | appends RenderPassEncoderSetVertexBuffer to the stream; the block is unchanged |
| Recording.RenderPassEncoder.Draw | Include/Neko/Neko.h:1268-1280 | appends RenderPassEncoderDraw to the stream; the block is unchanged |
| Recording.RenderPassEncoder.DrawIndexed | Include/Neko/Neko.h:1282-1284 | an empty stub: the allocator is unchanged |
| Recording.RenderPassEncoder.EndPass | Include/Neko/Neko.h:1298-1300 | an empty stub: the allocator is unchanged |
| Recording.EncoderCapacity | Include/Neko/Neko.h:1102 | an encoder can record another command exactly while it holds fewer than 16384 / 4 = 4096 |
| Recording.TriangleFrame | Samples/01_Triangle/Triangle.c:84-98 | one frame of the triangle sample leaves exactly BeginRenderPass, SetPipeline, SetVertexBuffer, Draw in the encoder's stream, in that order |
| VkTypes.InputRate | Include/Neko/Neko.h:1762-1770 | nkVkInputRate gives a real input rate exactly for the two NkInputStepMode values, MAX_ENUM otherwise |
| VkTypes.StepModeOf | Include/Neko/Neko.h:267-271 | every input rate except MAX_ENUM has a step mode |
| VkTypes.InputRateRoundTrip | Include/Neko/Neko.h:1762-1770 | the step-mode translation is a bijection between the two step modes and the two input rates |
| VkTypes.Format | Include/Neko/Neko.h:1772-1834 | nkVkFormat gives a real format exactly for the 30 NkVertexFormat values, MAX_ENUM otherwise |
| VkTypes.FormatLayout | Include/Neko/Neko.h:1772-1834 | each of the vertex formats has a component count, bit width and numeric type |
| VkTypes.VertexFormatLayout | Include/Neko/Neko.h:414-446 | each NkVertexFormat code, and only those, has a component count, bit width and numeric type |
| VkTypes.FormatKeepsLayout | Include/Neko/Neko.h:1772-1834 | every NkVertexFormat maps to the Vulkan format with the same components, bit width and numeric type |
| VkTypes.FormatInjective | Include/Neko/Neko.h:1772-1834 | distinct codes map to distinct Vulkan formats (the MAX_ENUM result aside) |
| VkTypes.LayoutDeterminesFormat | Include/Neko/Neko.h:414-446 | no two vertex formats share a layout |
| VkTypes.PrimitiveTopology | Include/Neko/Neko.h:1838-1852 | nkVkPrimitiveTopology gives a real topology exactly for the five NkPrimitiveTopology values |
| VkTypes.TopologyOf | Include/Neko/Neko.h:288-295 | every topology except MAX_ENUM has a Neko topology |
| VkTypes.TopologyRoundTrip | Include/Neko/Neko.h:1838-1852 | the topology translation is a bijection between the five Neko and the five Vulkan topologies |
| VkTypes.ShouldEnablePrimitiveRestart | Include/Neko/Neko.h:1854-1868 | primitive restart is enabled exactly for the strip topologies |
| VkPipeline.DescribeBinding | Include/Neko/Neko.h:1936-1940 | a binding names its slot and carries the slot's input rate; a stride below 2^32 is kept as is |
| VkPipeline.DescribeAttribute | Include/Neko/Neko.h:1947-1951 | an attribute names its slot, its shader location and its translated format; an offset below 2^32 is kept as is |
| VkPipeline.DescriptionsKeepLowBits | Include/Neko/Neko.h:1938 | the stride and the offset Vulkan is given are the Neko values mod 2^32 |
| VkPipeline.WideStrideKeepsLowBits | Include/Neko/Neko.h:1951 | a stride of 2^32 reaches Vulkan as 0, and an offset of 2^32 + 4 as 4 |
| VkPipeline.Bindings | Include/Neko/Neko.h:1927-1940 | one binding description per slot with attributes |
| VkPipeline.Attributes | Include/Neko/Neko.h:1942-1954 | as many attribute descriptions as attributes in all the slots |
| VkPipeline.BindingsDescribeUsedSlots | Include/Neko/Neko.h:1932-1940 | each binding names a slot with attributes and carries that slot's input rate and its stride truncated to 32 bits |
| VkPipeline.BindingsIncreasing | Include/Neko/Neko.h:1927-1940 | the bindings name strictly increasing slots |
| VkPipeline.BindingsComplete | Include/Neko/Neko.h:1932-1940 | every slot with attributes has a binding |
| VkPipeline.AttributesFromUsedSlots | Include/Neko/Neko.h:1942-1954 | every attribute description names a slot with attributes |
| VkPipeline.AttributesGroupedBySlot | Include/Neko/Neko.h:1927-1955 | the attribute descriptions are grouped by slot, in slot order |
| VkPipeline.SlotAttributesInPlace | Include/Neko/Neko.h:1942-1954 | a slot's attributes are described, in their order, starting after all the attributes of the earlier slots |
| VkPipeline.AttributesReferToBindings | Include/Neko/Neko.h:1936-1951 | every attribute description refers to a binding that is described |
| VkPipeline.CountsGrow | Include/Neko/Neko.h:1927-1955 | the binding and attribute counts only grow slot by slot |
| VkPipeline.FlattenVertexInput | Include/Neko/Neko.h:1919-1963 | when they fit NK_MAX_BUFFERS and NK_MAX_ATTRIBUTES, the first `bindingCount` and `attributeCount` array entries are exactly the bindings and attributes of all the slots, strides and offsets truncated to 32 bits |
| VkPipeline.AppendSlotAttributes | Include/Neko/Neko.h:1942-1954 | the inner loop appends the slot's attribute descriptions, in order and with offsets truncated to 32 bits, after those already written |
| VkDevice.LastIndex | Include/Neko/Neko.h:2223-2236 | the family recorded for a capability is the last one among those examined that has it, and none is recorded when none has it |
| VkDevice.Stored | Include/Neko/Neko.h:2211-2212 | UINT32_MAX stands exactly for a family not found |
| VkDevice.ScanLength | Include/Neko/Neko.h:2223-2243 | the search examines families up to and including the first at which both kinds have been seen, or all of them |
| VkDevice.QueueFamilies | Include/Neko/Neko.h:2204-2248 | a family reported for graphics or presentation exists and has that capability |
| VkDevice.FindQueueFamilies | Include/Neko/Neko.h:2204-2248 | the loop with its early break computes QueueFamilies |
| VkDevice.QueueFamiliesComplete | Include/Neko/Neko.h:2462-2465 | both families are found exactly when the device has a graphics family and a family that can present |
| VkDevice.QueuesToCreate | Include/Neko/Neko.h:2517-2541 | one or two queue create infos, one queue each, for distinct families: the graphics family first, and the present family included |
| VkDevice.Family | Include/Neko/Neko.h:2530 | `*(&graphicsFamily + i)` is the graphics family for 0 and the present family for 1 |
| VkDevice.QueueCreateInfos | Include/Neko/Neko.h:2520-2541 | the loop with its early break fills the first `queueCount` entries with exactly QueuesToCreate |
| VkSwapchain.ScanPresentModes | Include/Neko/Neko.h:2158-2164 | the scan as written gives MAILBOX exactly when it occurs before the last entry, FIFO otherwise |
| VkSwapchain.ChooseSwapPresentMode | Include/Neko/Neko.h:2153-2165 | the loop with its early return computes the scan as written |
| VkSwapchain.PresentMode | Include/Neko/Neko.h:2153-2165 | the intended choice: MAILBOX exactly when offered; otherwise FIFO, a mode the surface offers when it offers FIFO |
| VkSwapchain.PresentModeScanMissesLast | Include/Neko/Neko.h:2158 | the loop as written and the intended choice differ exactly when MAILBOX is offered only as the last entry |
| VkSwapchain.SingleMailboxIgnored | Include/Neko/Neko.h:2158 | a surface offering only MAILBOX gets FIFO as written and MAILBOX as intended |
| VkSwapchain.ScanSurfaceFormats | Include/Neko/Neko.h:2172-2178 | the scan as written gives B8G8R8A8_SRGB/SRGB_NONLINEAR when it occurs before the last entry, otherwise the first format |
| VkSwapchain.ChooseSwapSurfaceFormat | Include/Neko/Neko.h:2167-2179 | the loop with its early return computes the scan as written |
| VkSwapchain.SurfaceFormatChoice | Include/Neko/Neko.h:2167-2179 | the intended choice is an offered format, and is B8G8R8A8_SRGB/SRGB_NONLINEAR exactly when that is offered |
| VkSwapchain.SurfaceFormatScanMissesLast | Include/Neko/Neko.h:2172 | the loop as written and the intended choice differ exactly when the preferred format is offered only as the last entry, and the first entry is another format |
| VkSwapchain.Clamp | Include/Neko/Neko.h:2194-2198 | NK_MAX(lo, NK_MIN(hi, x)) is at least `lo`; with ordered bounds it is at most `hi` and is the value in `[lo, hi]` nearest to `x` |
| VkSwapchain.ChooseSwapExtent | Include/Neko/Neko.h:2181-2202 | the current extent when its width is not UINT32_MAX; otherwise each requested side brought into the surface's range, and kept when already inside it |
| VkSwapchain.ImageCount | Include/Neko/Neko.h:2266-2269 | never above a non-zero maximum; one more than the minimum when there is room; at least the minimum when the minimum is below UINT32_MAX and not above the maximum |
| VkSwapchain.ImageCountWraps | Include/Neko/Neko.h:2266 | a minimum of UINT32_MAX wraps the count to 0 |
| VkSwapchain.SwapchainSharing | Include/Neko/Neko.h:2289-2298 | concurrent sharing over both families exactly when graphics and present differ; exclusive with no family list otherwise |
| VkSwapchain.SharingMatchesQueues | Include/Neko/Neko.h:2289-2298 | the images are shared exactly when the device has two queues, and then between exactly those two families |
| VkSwapchain.SwapchainSettingsFor | Include/Neko/Neko.h:2250-2306 | with the choosers as written, the swap chain uses an offered surface format (the preferred one when it is offered before the last entry), MAILBOX exactly when it is offered before the last entry, an offered present mode when FIFO is offered, an image count within the maximum, and the sharing rule |
| VkSwapchain.IntendedSwapchainSettingsFor | Include/Neko/Neko.h:2250-2306 | with the intended choosers, the preferred format and MAILBOX are used exactly when offered; everything else equals the settings as written |

## Left out

- Creation and destruction of Vulkan objects (instance, device, surface, swap chain, image views, shader modules, pipeline layout, render pass, framebuffers) and the `NK_CHECK_VK` result checks: these are foreign calls into the driver.
- The fixed-function state of nkCreateRenderPipeline other than vertex input and input assembly (viewport, rasterizer, blending): it is floating point and driver structures.
- The queue priority `1.0f` of nkCreateDevice: floating point.
- nkVkCheckValidationLayerSupport, nkVkCheckDeviceExtensionProperties, the surface-support queries, and the rest of nkVkIsPhysicalDeviceSuitable: string comparisons against driver lists. Only its `indicesIsComplete` test is modelled, by `VkDevice.QueueFamiliesComplete`.
- nkCommandEncoderFinish, nkQueueSubmit and all other stubs outside the ones in the "## Model" table: they have empty bodies, or have no return statement (Finish), so there is nothing to model.
- `malloc` and `free`: the addresses they return are parameters. Leaks, and a block released while records remain, are not modelled.
- The SDL sample application and its window and event loop: I/O.
- Allocator.CommandAllocator.Allocate: requires the intended check, not the one as written that the C NK_ASSERT evaluates (Neko.h:1086). The gap runs both ways. The model does not cover a request that the check as written accepts but does not fit (see "## Findings"). And it accepts requests the check as written refuses: once the cursor lies at or above 4 GiB, the check as written refuses everything (`AsWrittenRefusesHighAddresses`), so a debug build aborts on the first record in such a block.
- Recording.EncoderCapacity: holds under the intended check. `CanRecord` and the recording methods use that check too, so in a block at or above 4 GiB they allow up to 4096 records where the C code, with assertions enabled, aborts on the first.
- Allocator.CanSatisfyAllocationAsWritten: models the release build. In a debug build, each `return NkFalse` follows an NK_ASSERT of the opposite condition, so the C function aborts instead of refusing.
- Alignment.AlignTo: only defined for power-of-two alignments. The mask is computed arithmetically, as rounding down to a multiple, not bit by bit.
- VkTypes.ShouldEnablePrimitiveRestart: requires one of the five topologies, because the C function has no return statement for any other value.
- VkPipeline.FlattenVertexInput: requires the used slots and the attributes to fit 16 entries each, because the C code writes past its fixed arrays otherwise. Its `uint32_t` counters are unbounded, which is harmless within those bounds.
- VkSwapchain.SwapchainSettingsFor: does not include `preTransform`, the composite alpha or `clipped`, which are copied into the create info unchanged.
- The `currentFrame` counter, the image views and the synchronisation objects of the swap chain: driver objects.

## Findings

| source | as written | input that shows it | evidently intended | confidence | as-written member | corrected member |
|---|---|---|---|---|---|---|
| Include/Neko/Neko.h:1015 | NK_ALIGN_TO builds its mask from the `uint32_t` alignment, so `~(alignment - 1)` is 32 bits wide and clears the upper half of a 64-bit address | buffer 2^32, bufferSize 16384, allocatedSize 0, size 4, alignment 4: the aligned start becomes 0, below the head, and the request is refused | align the address without clearing its upper bits, so that a fitting request is accepted at any address | not executed | Allocator.AsWrittenRefusesFittingRequest | Allocator.CanSatisfyIffFits |
| Include/Neko/Neko.h:1043-1046 | the new allocated size is stored in a `uint32_t` before it is compared with `bufferSize`, so a cursor that reaches 2^32 wraps to a small value | buffer 0x10000, bufferSize 16384, allocatedSize 4, size 2^32 - 4, alignment 4: the new size truncates to 0 and the request is accepted | compare the untruncated new size, so that the request is refused | not executed | Allocator.AsWrittenAcceptsOverrun | Allocator.CanSatisfyIffFits |
| Include/Neko/Neko.h:2158 | the present-mode loop runs while `i < count - 1`, so the last mode is never looked at | available modes `[MAILBOX]`: the result is FIFO | pick MAILBOX whenever the surface offers it | not executed | VkSwapchain.SingleMailboxIgnored | VkSwapchain.PresentMode |
| Include/Neko/Neko.h:2172 | the surface-format loop runs while `i < count - 1`, so the last format is never looked at | available formats `[R8G8B8A8_UNORM/SRGB_NONLINEAR, B8G8R8A8_SRGB/SRGB_NONLINEAR]`: the result is the first format | pick B8G8R8A8_SRGB with SRGB_NONLINEAR whenever the surface offers it | not executed | VkSwapchain.SurfaceFormatScanMissesLast | VkSwapchain.SurfaceFormatChoice |
