/** The queue decisions of the Vulkan backend of Neko.h: which queue families
    serve graphics and presentation (nkVkFindQueueFamilies), and which queues
    the logical device is created with (nkCreateDevice). The driver's
    answers for each queue family arrive as two boolean sequences: whether
    the family has VK_QUEUE_GRAPHICS_BIT, and whether it can present to the
    surface. */
module VkDevice {
  import opened Wrappers
  import opened Alignment

  /** NkVkQueueFamilyIndices; UINT32_MAX marks a family not found. */
  datatype QueueFamilyIndices = QueueFamilyIndices(graphicsFamily: U32, presentFamily: U32)

  /** The last of the first `n` families that has the capability. */
  function LastIndex(flags: seq<bool>, n: nat): (r: Option<nat>)
    requires n <= |flags|
    ensures r.Some? ==> r.value < n && flags[r.value] && forall j :: r.value < j < n ==> !flags[j]
    ensures r.None? ==> forall j :: 0 <= j < n ==> !flags[j]
  {
    if n == 0 then None
    else if flags[n - 1] then Some(n - 1)
    else LastIndex(flags, n - 1)
  }

  /** A family index as the C struct stores it: UINT32_MAX for none. */
  function Stored(r: Option<nat>): (index: U32)
    requires r.Some? ==> r.value < UINT32_MAX
    ensures index == UINT32_MAX <==> r.None?
  {
    if r.Some? then r.value else UINT32_MAX
  }

  /** Both kinds of family occur among the first `n` families. */
  predicate Complete(graphics: seq<bool>, present: seq<bool>, n: nat)
    requires n <= |graphics| && n <= |present|
  {
    LastIndex(graphics, n).Some? && LastIndex(present, n).Some?
  }

  /** How many families the search examines when it has examined `i`
      without finding both kinds: it stops after the first family at which
      both kinds have been seen, or at the end. */
  function ScanLength(graphics: seq<bool>, present: seq<bool>, i: nat): (m: nat)
    requires |graphics| == |present| && i <= |graphics|
    ensures i <= m <= |graphics|
    ensures m == |graphics| || Complete(graphics, present, m)
    ensures forall n :: i < n < m ==> !Complete(graphics, present, n)
    decreases |graphics| - i
  {
    if i == |graphics| then i
    else if Complete(graphics, present, i + 1) then i + 1
    else ScanLength(graphics, present, i + 1)
  }

  /** What nkVkFindQueueFamilies returns: for each kind, the last family of
      that kind among those it examined. A family it reports has the
      capability it is reported for. */
  function QueueFamilies(graphics: seq<bool>, present: seq<bool>): (indices: QueueFamilyIndices)
    requires |graphics| == |present| <= UINT32_MAX
    ensures indices.graphicsFamily != UINT32_MAX ==>
              indices.graphicsFamily < |graphics| && graphics[indices.graphicsFamily]
    ensures indices.presentFamily != UINT32_MAX ==>
              indices.presentFamily < |present| && present[indices.presentFamily]
  {
    var m := ScanLength(graphics, present, 0);
    QueueFamilyIndices(Stored(LastIndex(graphics, m)), Stored(LastIndex(present, m)))
  }

  /** nkVkFindQueueFamilies: the loop over the queue families, which records
      the latest family of each kind and stops as soon as both are known.
      The surface is asserted non-null on entry, so the present query is
      always made. */
  method FindQueueFamilies(graphics: seq<bool>, present: seq<bool>) returns (indices: QueueFamilyIndices)
    requires |graphics| == |present| <= UINT32_MAX
    ensures indices == QueueFamilies(graphics, present)
  {
    indices := QueueFamilyIndices(UINT32_MAX, UINT32_MAX);
    var i: nat := 0;
    while i < |graphics|
      invariant i <= |graphics|
      invariant ScanLength(graphics, present, 0) == ScanLength(graphics, present, i)
      invariant indices == QueueFamilyIndices(Stored(LastIndex(graphics, i)), Stored(LastIndex(present, i)))
    {
      if graphics[i] {
        indices := indices.(graphicsFamily := i);
      }
      if present[i] {
        indices := indices.(presentFamily := i);
      }
      if indices.graphicsFamily != UINT32_MAX && indices.presentFamily != UINT32_MAX {
        assert ScanLength(graphics, present, i) == i + 1;
        break;
      }
      i := i + 1;
    }
  }

  /** Both families are found exactly when the device has a graphics family
      and a family that can present: the search never gives up on a device
      that has both. */
  lemma {:induction false} QueueFamiliesComplete(graphics: seq<bool>, present: seq<bool>)
    requires |graphics| == |present| <= UINT32_MAX
    ensures var indices := QueueFamilies(graphics, present);
            (indices.graphicsFamily != UINT32_MAX && indices.presentFamily != UINT32_MAX)
            <==> (exists g :: 0 <= g < |graphics| && graphics[g]) && (exists p :: 0 <= p < |present| && present[p])
  {
    var m := ScanLength(graphics, present, 0);
    if (exists g :: 0 <= g < |graphics| && graphics[g]) && (exists p :: 0 <= p < |present| && present[p]) {
      var g :| 0 <= g < |graphics| && graphics[g];
      var p :| 0 <= p < |present| && present[p];
      assert LastIndex(graphics, |graphics|).Some? && LastIndex(present, |present|).Some?;
    }
  }

  /** VkDeviceQueueCreateInfo: one queue of the family. */
  datatype QueueCreateInfo = QueueCreateInfo(queueFamilyIndex: U32, queueCount: nat)

  /** The queues the logical device is created with: one for each distinct
      family among the graphics and the present family. */
  function QueuesToCreate(indices: QueueFamilyIndices): (infos: seq<QueueCreateInfo>)
    ensures 1 <= |infos| <= 2
    ensures forall k :: 0 <= k < |infos| ==> infos[k].queueCount == 1
    ensures forall k, l :: 0 <= k < l < |infos| ==> infos[k].queueFamilyIndex != infos[l].queueFamilyIndex
    ensures infos[0].queueFamilyIndex == indices.graphicsFamily
    ensures exists k :: 0 <= k < |infos| && infos[k].queueFamilyIndex == indices.presentFamily
    ensures forall k :: 0 <= k < |infos| ==>
              infos[k].queueFamilyIndex == indices.graphicsFamily || infos[k].queueFamilyIndex == indices.presentFamily
  {
    if indices.graphicsFamily == indices.presentFamily then
      [QueueCreateInfo(indices.graphicsFamily, 1)]
    else
      var infos := [QueueCreateInfo(indices.graphicsFamily, 1), QueueCreateInfo(indices.presentFamily, 1)];
      assert infos[1].queueFamilyIndex == indices.presentFamily;
      infos
  }

  /** The family in position `i` of the indices struct, as the loop of
      nkCreateDevice reads it through a pointer to its first field. */
  function Family(indices: QueueFamilyIndices, i: nat): (family: U32)
    requires i < 2
    ensures i == 0 ==> family == indices.graphicsFamily
    ensures i == 1 ==> family == indices.presentFamily
  {
    if i == 0 then indices.graphicsFamily else indices.presentFamily
  }

  /** The queue-create loop of nkCreateDevice: fills `queueCreateInfos[2]`,
      stopping after the first entry when both families are the same. */
  method QueueCreateInfos(indices: QueueFamilyIndices) returns (queueCreateInfos: array<QueueCreateInfo>, queueCount: nat)
    ensures fresh(queueCreateInfos) && queueCreateInfos.Length == 2
    ensures queueCount <= 2 && queueCreateInfos[..queueCount] == QueuesToCreate(indices)
  {
    queueCreateInfos := new QueueCreateInfo[2];
    queueCount := 0;
    for i := 0 to 2
      invariant queueCount == i <= |QueuesToCreate(indices)|
      invariant queueCreateInfos[..i] == QueuesToCreate(indices)[..i]
      invariant i > 0 ==> indices.graphicsFamily != indices.presentFamily
    {
      queueCreateInfos[i] := QueueCreateInfo(Family(indices, i), 1);
      queueCount := i + 1;
      if indices.graphicsFamily == indices.presentFamily {
        assert queueCreateInfos[..queueCount] == QueuesToCreate(indices);
        break;
      }
    }
  }
}
