/** The vertex-input part of nkCreateRenderPipeline: the vertex buffer layouts
    of the pipeline description are flattened into Vulkan's binding and
    attribute description arrays, which have NK_MAX_BUFFERS and
    NK_MAX_ATTRIBUTES entries. The source never checks those bounds; here
    they are preconditions. */
module VkPipeline {
  import opened Alignment
  import opened VkTypes

  /** NK_MAX_BUFFERS and NK_MAX_ATTRIBUTES */
  const MAX_BUFFERS := 16
  const MAX_ATTRIBUTES := 16

  /** NkVertexAttributeInfo: `format` is an NkVertexFormat code. */
  datatype VertexAttributeInfo = VertexAttributeInfo(format: int, offset: U64, shaderLocation: U32)

  /** NkVertexBufferLayoutInfo: `stepMode` is an NkInputStepMode code, and
      `attributes` holds its attributeCount entries. */
  datatype VertexBufferLayoutInfo = VertexBufferLayoutInfo(arrayStride: U64, stepMode: int, attributes: seq<VertexAttributeInfo>)

  /** VkVertexInputBindingDescription: Vulkan's `stride` is a `uint32_t`. */
  datatype BindingDescription = BindingDescription(binding: nat, stride: U32, inputRate: VkVertexInputRate)

  /** VkVertexInputAttributeDescription: Vulkan's `offset` is a `uint32_t`. */
  datatype AttributeDescription = AttributeDescription(location: U32, binding: nat, format: VkFormat, offset: U32)

  /** The binding description of a vertex buffer in slot `slot`. The 64-bit
      `arrayStride` is stored into the 32-bit `stride`, which keeps its low
      32 bits (DescriptionsKeepLowBits). */
  function DescribeBinding(slot: nat, layout: VertexBufferLayoutInfo): (d: BindingDescription)
    ensures d.binding == slot && d.inputRate == InputRate(layout.stepMode)
    ensures layout.arrayStride < WORD32 ==> d.stride == layout.arrayStride
  {
    BindingDescription(slot, Truncate32(layout.arrayStride), InputRate(layout.stepMode))
  }

  /** The attribute description of one attribute of the buffer in slot `slot`.
      The 64-bit `offset` is stored into the 32-bit `offset`, which keeps
      its low 32 bits (DescriptionsKeepLowBits). */
  function DescribeAttribute(slot: nat, attribute: VertexAttributeInfo): (d: AttributeDescription)
    ensures d.binding == slot && d.location == attribute.shaderLocation
    ensures d.format == Format(attribute.format)
    ensures attribute.offset < WORD32 ==> d.offset == attribute.offset
  {
    AttributeDescription(attribute.shaderLocation, slot, Format(attribute.format), Truncate32(attribute.offset))
  }

  /** The stride and the offset Vulkan is given are the Neko values modulo
      2^32. */
  lemma DescriptionsKeepLowBits(slot: nat, layout: VertexBufferLayoutInfo, attribute: VertexAttributeInfo)
    ensures DescribeBinding(slot, layout).stride == layout.arrayStride % WORD32
    ensures DescribeAttribute(slot, attribute).offset == attribute.offset % WORD32
  {
    Truncate32IsMod(layout.arrayStride);
    Truncate32IsMod(attribute.offset);
  }

  /** A stride of 2^32 reaches Vulkan as 0, and an offset of 2^32 + 4 as 4. */
  lemma WideStrideKeepsLowBits()
    ensures var layouts := [VertexBufferLayoutInfo(WORD32, STEP_MODE_VERTEX, [VertexAttributeInfo(0, WORD32 + 4, 0)])];
            && Bindings(layouts, 1)[0].stride == 0
            && Attributes(layouts, 1)[0].offset == 4
  {
    var layouts := [VertexBufferLayoutInfo(WORD32, STEP_MODE_VERTEX, [VertexAttributeInfo(0, WORD32 + 4, 0)])];
    DescriptionsKeepLowBits(0, layouts[0], layouts[0].attributes[0]);
    assert Bindings(layouts, 1)[0] == DescribeBinding(0, layouts[0]);
    assert Attributes(layouts, 1)[0] == DescribeAttribute(0, layouts[0].attributes[0]);
  }

  /** The descriptions of one buffer's attributes, in order. */
  function SlotAttributes(slot: nat, attributes: seq<VertexAttributeInfo>): seq<AttributeDescription>
  {
    seq(|attributes|, j requires 0 <= j < |attributes| => DescribeAttribute(slot, attributes[j]))
  }

  /** How many of the first `n` slots have at least one attribute. */
  function UsedSlotCount(layouts: seq<VertexBufferLayoutInfo>, n: nat): nat
    requires n <= |layouts|
  {
    if n == 0 then 0
    else UsedSlotCount(layouts, n - 1) + (if layouts[n - 1].attributes == [] then 0 else 1)
  }

  /** The sum of the first `n` slots' attribute counts. */
  function TotalAttributeCount(layouts: seq<VertexBufferLayoutInfo>, n: nat): nat
    requires n <= |layouts|
  {
    if n == 0 then 0
    else TotalAttributeCount(layouts, n - 1) + |layouts[n - 1].attributes|
  }

  /** The binding descriptions the flattening produces for the first `n`
      slots: one for each slot that has attributes. */
  function Bindings(layouts: seq<VertexBufferLayoutInfo>, n: nat): (b: seq<BindingDescription>)
    requires n <= |layouts|
    ensures |b| == UsedSlotCount(layouts, n)
  {
    if n == 0 then []
    else if layouts[n - 1].attributes == [] then Bindings(layouts, n - 1)
    else Bindings(layouts, n - 1) + [DescribeBinding(n - 1, layouts[n - 1])]
  }

  /** The attribute descriptions the flattening produces for the first `n`
      slots: every attribute of every slot, slot after slot. */
  function Attributes(layouts: seq<VertexBufferLayoutInfo>, n: nat): (a: seq<AttributeDescription>)
    requires n <= |layouts|
    ensures |a| == TotalAttributeCount(layouts, n)
  {
    if n == 0 then []
    else Attributes(layouts, n - 1) + SlotAttributes(n - 1, layouts[n - 1].attributes)
  }

  /** Each binding describes one of the first `n` slots that has
      attributes, with that slot's stride and input rate. */
  ghost predicate DescribesUsedSlots(layouts: seq<VertexBufferLayoutInfo>, n: nat, b: seq<BindingDescription>)
    requires n <= |layouts|
  {
    forall k :: 0 <= k < |b| ==>
      && b[k].binding < n
      && layouts[b[k].binding].attributes != []
      && b[k] == DescribeBinding(b[k].binding, layouts[b[k].binding])
  }

  /** The bindings name strictly increasing slots. */
  ghost predicate StrictlyIncreasing(b: seq<BindingDescription>)
  {
    forall k, l :: 0 <= k < l < |b| ==> b[k].binding < b[l].binding
  }

  /** Every one of the first `n` slots that has attributes has a binding. */
  ghost predicate CoversUsedSlots(layouts: seq<VertexBufferLayoutInfo>, n: nat, b: seq<BindingDescription>)
    requires n <= |layouts|
  {
    forall slot :: 0 <= slot < n && layouts[slot].attributes != [] ==>
      exists k :: 0 <= k < |b| && b[k].binding == slot
  }

  /** Each attribute description belongs to one of the first `n` slots that
      has attributes. */
  ghost predicate FromUsedSlots(layouts: seq<VertexBufferLayoutInfo>, n: nat, a: seq<AttributeDescription>)
    requires n <= |layouts|
  {
    forall k :: 0 <= k < |a| ==> a[k].binding < n && layouts[a[k].binding].attributes != []
  }

  /** The attribute descriptions are grouped by slot, in increasing slot order. */
  ghost predicate GroupedBySlot(a: seq<AttributeDescription>)
  {
    forall k, l :: 0 <= k < l < |a| ==> a[k].binding <= a[l].binding
  }

  lemma {:induction false} BindingsDescribeUsedSlots(layouts: seq<VertexBufferLayoutInfo>, n: nat)
    requires n <= |layouts|
    ensures DescribesUsedSlots(layouts, n, Bindings(layouts, n))
  {
    if n > 0 {
      BindingsDescribeUsedSlots(layouts, n - 1);
      var earlier, b := Bindings(layouts, n - 1), Bindings(layouts, n);
      forall k | 0 <= k < |b|
        ensures b[k].binding < n && layouts[b[k].binding].attributes != []
        ensures b[k] == DescribeBinding(b[k].binding, layouts[b[k].binding])
      {
        if k < |earlier| {
          assert b[k] == earlier[k];
        } else {
          assert b[k] == DescribeBinding(n - 1, layouts[n - 1]);
        }
      }
    }
  }

  lemma {:induction false} BindingsIncreasing(layouts: seq<VertexBufferLayoutInfo>, n: nat)
    requires n <= |layouts|
    ensures StrictlyIncreasing(Bindings(layouts, n))
  {
    if n > 0 {
      BindingsIncreasing(layouts, n - 1);
      BindingsDescribeUsedSlots(layouts, n - 1);
      var earlier, b := Bindings(layouts, n - 1), Bindings(layouts, n);
      forall k, l | 0 <= k < l < |b|
        ensures b[k].binding < b[l].binding
      {
        assert b[k] == earlier[k];
        if l < |earlier| {
          assert b[l] == earlier[l];
        } else {
          assert b[l] == DescribeBinding(n - 1, layouts[n - 1]);
        }
      }
    }
  }

  lemma {:induction false} BindingsComplete(layouts: seq<VertexBufferLayoutInfo>, n: nat)
    requires n <= |layouts|
    ensures CoversUsedSlots(layouts, n, Bindings(layouts, n))
  {
    if n > 0 {
      BindingsComplete(layouts, n - 1);
      var earlier, b := Bindings(layouts, n - 1), Bindings(layouts, n);
      forall slot | 0 <= slot < n && layouts[slot].attributes != []
        ensures exists k :: 0 <= k < |b| && b[k].binding == slot
      {
        if slot < n - 1 {
          var k :| 0 <= k < |earlier| && earlier[k].binding == slot;
          assert b[k] == earlier[k];
        } else {
          assert b[|earlier|].binding == slot;
        }
      }
    }
  }

  lemma {:induction false} AttributesFromUsedSlots(layouts: seq<VertexBufferLayoutInfo>, n: nat)
    requires n <= |layouts|
    ensures FromUsedSlots(layouts, n, Attributes(layouts, n))
  {
    if n > 0 {
      AttributesFromUsedSlots(layouts, n - 1);
      var earlier, a := Attributes(layouts, n - 1), Attributes(layouts, n);
      forall k | 0 <= k < |a|
        ensures a[k].binding < n && layouts[a[k].binding].attributes != []
      {
        if k < |earlier| {
          assert a[k] == earlier[k];
        } else {
          assert a[k] == DescribeAttribute(n - 1, layouts[n - 1].attributes[k - |earlier|]);
        }
      }
    }
  }

  lemma {:induction false} AttributesGroupedBySlot(layouts: seq<VertexBufferLayoutInfo>, n: nat)
    requires n <= |layouts|
    ensures GroupedBySlot(Attributes(layouts, n))
  {
    if n > 0 {
      AttributesGroupedBySlot(layouts, n - 1);
      AttributesFromUsedSlots(layouts, n - 1);
      var earlier, a := Attributes(layouts, n - 1), Attributes(layouts, n);
      forall k, l | 0 <= k < l < |a|
        ensures a[k].binding <= a[l].binding
      {
        if l < |earlier| {
          assert a[k] == earlier[k] && a[l] == earlier[l];
        } else if k < |earlier| {
          assert a[k] == earlier[k];
          assert a[l] == DescribeAttribute(n - 1, layouts[n - 1].attributes[l - |earlier|]);
        } else {
          assert a[k] == DescribeAttribute(n - 1, layouts[n - 1].attributes[k - |earlier|]);
          assert a[l] == DescribeAttribute(n - 1, layouts[n - 1].attributes[l - |earlier|]);
        }
      }
    }
  }

  /** The attributes of slot `slot` sit, in their own order, right after those
      of all earlier slots. */
  lemma {:induction false} SlotAttributesInPlace(layouts: seq<VertexBufferLayoutInfo>, n: nat, slot: nat)
    requires slot < n <= |layouts|
    ensures var start := TotalAttributeCount(layouts, slot);
            var count := |layouts[slot].attributes|;
            start + count <= TotalAttributeCount(layouts, n) &&
            Attributes(layouts, n)[start..start + count] == SlotAttributes(slot, layouts[slot].attributes)
  {
    if slot < n - 1 {
      SlotAttributesInPlace(layouts, n - 1, slot);
      var start, count := TotalAttributeCount(layouts, slot), |layouts[slot].attributes|;
      assert Attributes(layouts, n)[start..start + count] == Attributes(layouts, n - 1)[start..start + count];
    }
  }

  /** Every attribute description names a binding that is described. */
  ghost predicate ReferToBindings(a: seq<AttributeDescription>, b: seq<BindingDescription>)
  {
    forall k :: 0 <= k < |a| ==> exists m :: 0 <= m < |b| && b[m].binding == a[k].binding
  }

  /** The flattened attributes only name bindings the flattening describes,
      as vkCreateGraphicsPipelines requires. */
  lemma AttributesReferToBindings(layouts: seq<VertexBufferLayoutInfo>)
    ensures ReferToBindings(Attributes(layouts, |layouts|), Bindings(layouts, |layouts|))
  {
    var a, b := Attributes(layouts, |layouts|), Bindings(layouts, |layouts|);
    AttributesFromUsedSlots(layouts, |layouts|);
    BindingsComplete(layouts, |layouts|);
    forall k | 0 <= k < |a|
      ensures exists m :: 0 <= m < |b| && b[m].binding == a[k].binding
    {
      var slot := a[k].binding;
      assert slot < |layouts| && layouts[slot].attributes != [];
    }
  }

  /** The counts only grow as more slots are taken in. */
  lemma {:induction false} CountsGrow(layouts: seq<VertexBufferLayoutInfo>, m: nat, n: nat)
    requires m <= n <= |layouts|
    ensures UsedSlotCount(layouts, m) <= UsedSlotCount(layouts, n)
    ensures TotalAttributeCount(layouts, m) <= TotalAttributeCount(layouts, n)
    decreases n
  {
    if m < n {
      CountsGrow(layouts, m, n - 1);
    }
  }

  /** The vertex-input loop of nkCreateRenderPipeline (the bindings and
      attributes arrays and their counts). Provided the slots with attributes
      and the attributes fit the two arrays, the first `bindingCount` and
      `attributeCount` entries are exactly the bindings and the attributes
      of all the slots. */
  method FlattenVertexInput(layouts: seq<VertexBufferLayoutInfo>)
    returns (bindings: array<BindingDescription>, bindingCount: nat,
             attributes: array<AttributeDescription>, attributeCount: nat)
    requires UsedSlotCount(layouts, |layouts|) <= MAX_BUFFERS
    requires TotalAttributeCount(layouts, |layouts|) <= MAX_ATTRIBUTES
    ensures fresh(bindings) && bindings.Length == MAX_BUFFERS
    ensures fresh(attributes) && attributes.Length == MAX_ATTRIBUTES
    ensures bindingCount <= MAX_BUFFERS && bindings[..bindingCount] == Bindings(layouts, |layouts|)
    ensures attributeCount <= MAX_ATTRIBUTES && attributes[..attributeCount] == Attributes(layouts, |layouts|)
  {
    bindingCount := 0;
    bindings := new BindingDescription[MAX_BUFFERS];
    attributeCount := 0;
    attributes := new AttributeDescription[MAX_ATTRIBUTES];

    for slot := 0 to |layouts|
      invariant bindingCount == UsedSlotCount(layouts, slot) <= MAX_BUFFERS
      invariant bindings[..bindingCount] == Bindings(layouts, slot)
      invariant attributeCount == TotalAttributeCount(layouts, slot) <= MAX_ATTRIBUTES
      invariant attributes[..attributeCount] == Attributes(layouts, slot)
    {
      var layout := layouts[slot];
      CountsGrow(layouts, slot + 1, |layouts|);
      if |layout.attributes| == 0 {
        continue;
      }

      bindings[bindingCount] := DescribeBinding(slot, layout);
      bindingCount := bindingCount + 1;
      assert bindings[..bindingCount] == Bindings(layouts, slot) + [DescribeBinding(slot, layout)];

      attributeCount := AppendSlotAttributes(attributes, attributeCount, slot, layout.attributes);
    }
  }

  /** The inner loop of the flattening: the attributes of the buffer in
      slot `slot` are described, in order, after the first `attributeCount`
      entries of `attributes`. */
  method AppendSlotAttributes(attributes: array<AttributeDescription>, attributeCount: nat,
                              slot: nat, slotAttributes: seq<VertexAttributeInfo>)
    returns (newCount: nat)
    requires attributeCount + |slotAttributes| <= attributes.Length
    modifies attributes
    ensures newCount == attributeCount + |slotAttributes|
    ensures attributes[..newCount] == old(attributes[..attributeCount]) + SlotAttributes(slot, slotAttributes)
  {
    newCount := attributeCount;
    for attributeIndex := 0 to |slotAttributes|
      invariant newCount == attributeCount + attributeIndex
      invariant attributes[..newCount] ==
                  old(attributes[..attributeCount]) + SlotAttributes(slot, slotAttributes[..attributeIndex])
    {
      attributes[newCount] := DescribeAttribute(slot, slotAttributes[attributeIndex]);
      newCount := newCount + 1;
      assert SlotAttributes(slot, slotAttributes[..attributeIndex + 1]) ==
             SlotAttributes(slot, slotAttributes[..attributeIndex]) + [DescribeAttribute(slot, slotAttributes[attributeIndex])];
    }
    assert slotAttributes[..|slotAttributes|] == slotAttributes;
  }
}
