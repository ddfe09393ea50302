/** The switch mappings the Vulkan backend of Neko.h uses to translate Neko's
    enumerations into Vulkan's. Neko values arrive as their integer codes
    (a C enum variable can hold any value, and the mappings give every value
    outside the enumeration Vulkan's MAX_ENUM); Vulkan values are named. */
module VkTypes {
  import opened Wrappers

  /** VkVertexInputRate, as far as the backend produces it. */
  datatype VkVertexInputRate = Vertex | Instance | InputRateMaxEnum

  /** VkPrimitiveTopology, as far as the backend produces it. */
  datatype VkPrimitiveTopology =
    | PointList | LineList | LineStrip | TriangleList | TriangleStrip
    | TopologyMaxEnum

  /** VkFormat: the formats the backend names, and every other format a
      driver can report, identified by its code. */
  datatype VkFormat =
    | R8G8_UINT | R8G8B8A8_UINT | R8G8_SINT | R8G8B8A8_SINT
    | R8G8_UNORM | R8G8B8A8_UNORM | R8G8_SNORM | R8G8B8A8_SNORM
    | R16G16_UINT | R16G16B16A16_UINT | R16G16_SINT | R16G16B16A16_SINT
    | R16G16_UNORM | R16G16B16A16_UNORM | R16G16_SNORM | R16G16B16A16_SNORM
    | R16G16_SFLOAT | R16G16B16A16_SFLOAT
    | R32_SFLOAT | R32G32_SFLOAT | R32G32B32_SFLOAT | R32G32B32A32_SFLOAT
    | R32_UINT | R32G32_UINT | R32G32B32_UINT | R32G32B32A32_UINT
    | R32_SINT | R32G32_SINT | R32G32B32_SINT | R32G32B32A32_SINT
    | B8G8R8A8_SRGB
    | FormatMaxEnum
    | OtherFormat(code: int)  // any other VkFormat; `code` is never that of a format named above

  /** NkInputStepMode codes. */
  const STEP_MODE_VERTEX := 0
  const STEP_MODE_INSTANCE := 1

  /** NkPrimitiveTopology codes. */
  const TOPOLOGY_POINT_LIST := 0
  const TOPOLOGY_LINE_LIST := 1
  const TOPOLOGY_LINE_STRIP := 2
  const TOPOLOGY_TRIANGLE_LIST := 3
  const TOPOLOGY_TRIANGLE_STRIP := 4

  /** NkVertexFormat codes run from UChar2 = 0 to Int4 = 29. */
  const VERTEX_FORMAT_COUNT := 30

  /** nkVkInputRate */
  function InputRate(stepMode: int): (r: VkVertexInputRate)
    ensures r != InputRateMaxEnum <==> stepMode == STEP_MODE_VERTEX || stepMode == STEP_MODE_INSTANCE
  {
    if stepMode == STEP_MODE_VERTEX then Vertex
    else if stepMode == STEP_MODE_INSTANCE then Instance
    else InputRateMaxEnum
  }

  /** The NkInputStepMode a Vulkan input rate stands for. */
  function StepModeOf(r: VkVertexInputRate): (stepMode: Option<int>)
    ensures stepMode.Some? <==> r != InputRateMaxEnum
  {
    match r
    case Vertex => Some(STEP_MODE_VERTEX)
    case Instance => Some(STEP_MODE_INSTANCE)
    case InputRateMaxEnum => None
  }

  /** The translation is a bijection between the two step modes and the two
      Vulkan input rates. */
  lemma InputRateRoundTrip(stepMode: int, r: VkVertexInputRate)
    ensures stepMode == STEP_MODE_VERTEX || stepMode == STEP_MODE_INSTANCE ==>
              StepModeOf(InputRate(stepMode)) == Some(stepMode)
    ensures r != InputRateMaxEnum ==> InputRate(StepModeOf(r).value) == r
  {
  }

  /** nkVkFormat */
  function Format(format: int): (f: VkFormat)
    ensures f != FormatMaxEnum <==> 0 <= format < VERTEX_FORMAT_COUNT
  {
    if format == 0x00 then R8G8_UINT
    else if format == 0x01 then R8G8B8A8_UINT
    else if format == 0x02 then R8G8_SINT
    else if format == 0x03 then R8G8B8A8_SINT
    else if format == 0x04 then R8G8_UNORM
    else if format == 0x05 then R8G8B8A8_UNORM
    else if format == 0x06 then R8G8_SNORM
    else if format == 0x07 then R8G8B8A8_SNORM
    else if format == 0x08 then R16G16_UINT
    else if format == 0x09 then R16G16B16A16_UINT
    else if format == 0x0A then R16G16_SINT
    else if format == 0x0B then R16G16B16A16_SINT
    else if format == 0x0C then R16G16_UNORM
    else if format == 0x0D then R16G16B16A16_UNORM
    else if format == 0x0E then R16G16_SNORM
    else if format == 0x0F then R16G16B16A16_SNORM
    else if format == 0x10 then R16G16_SFLOAT
    else if format == 0x11 then R16G16B16A16_SFLOAT
    else if format == 0x12 then R32_SFLOAT
    else if format == 0x13 then R32G32_SFLOAT
    else if format == 0x14 then R32G32B32_SFLOAT
    else if format == 0x15 then R32G32B32A32_SFLOAT
    else if format == 0x16 then R32_UINT
    else if format == 0x17 then R32G32_UINT
    else if format == 0x18 then R32G32B32_UINT
    else if format == 0x19 then R32G32B32A32_UINT
    else if format == 0x1A then R32_SINT
    else if format == 0x1B then R32G32_SINT
    else if format == 0x1C then R32G32B32_SINT
    else if format == 0x1D then R32G32B32A32_SINT
    else FormatMaxEnum
  }

  /** How the components of a vertex attribute are read. */
  datatype Numeric = UInt | SInt | UNorm | SNorm | SFloat | Srgb

  /** The shape of one vertex element: component count, bits per component
      and how the bits are read. */
  datatype ElementLayout = ElementLayout(components: nat, bits: nat, numeric: Numeric)

  /** The layout a Vulkan format's name spells out. */
  function FormatLayout(f: VkFormat): (l: Option<ElementLayout>)
    ensures l.Some? <==> !f.FormatMaxEnum? && !f.OtherFormat?
  {
    match f
    case R8G8_UINT => Some(ElementLayout(2, 8, UInt))
    case R8G8B8A8_UINT => Some(ElementLayout(4, 8, UInt))
    case R8G8_SINT => Some(ElementLayout(2, 8, SInt))
    case R8G8B8A8_SINT => Some(ElementLayout(4, 8, SInt))
    case R8G8_UNORM => Some(ElementLayout(2, 8, UNorm))
    case R8G8B8A8_UNORM => Some(ElementLayout(4, 8, UNorm))
    case R8G8_SNORM => Some(ElementLayout(2, 8, SNorm))
    case R8G8B8A8_SNORM => Some(ElementLayout(4, 8, SNorm))
    case R16G16_UINT => Some(ElementLayout(2, 16, UInt))
    case R16G16B16A16_UINT => Some(ElementLayout(4, 16, UInt))
    case R16G16_SINT => Some(ElementLayout(2, 16, SInt))
    case R16G16B16A16_SINT => Some(ElementLayout(4, 16, SInt))
    case R16G16_UNORM => Some(ElementLayout(2, 16, UNorm))
    case R16G16B16A16_UNORM => Some(ElementLayout(4, 16, UNorm))
    case R16G16_SNORM => Some(ElementLayout(2, 16, SNorm))
    case R16G16B16A16_SNORM => Some(ElementLayout(4, 16, SNorm))
    case R16G16_SFLOAT => Some(ElementLayout(2, 16, SFloat))
    case R16G16B16A16_SFLOAT => Some(ElementLayout(4, 16, SFloat))
    case R32_SFLOAT => Some(ElementLayout(1, 32, SFloat))
    case R32G32_SFLOAT => Some(ElementLayout(2, 32, SFloat))
    case R32G32B32_SFLOAT => Some(ElementLayout(3, 32, SFloat))
    case R32G32B32A32_SFLOAT => Some(ElementLayout(4, 32, SFloat))
    case R32_UINT => Some(ElementLayout(1, 32, UInt))
    case R32G32_UINT => Some(ElementLayout(2, 32, UInt))
    case R32G32B32_UINT => Some(ElementLayout(3, 32, UInt))
    case R32G32B32A32_UINT => Some(ElementLayout(4, 32, UInt))
    case R32_SINT => Some(ElementLayout(1, 32, SInt))
    case R32G32_SINT => Some(ElementLayout(2, 32, SInt))
    case R32G32B32_SINT => Some(ElementLayout(3, 32, SInt))
    case R32G32B32A32_SINT => Some(ElementLayout(4, 32, SInt))
    case B8G8R8A8_SRGB => Some(ElementLayout(4, 8, Srgb))
    case FormatMaxEnum => None
    case OtherFormat(_) => None
  }

  /** The layout an NkVertexFormat's name spells out, computed from how the
      enumeration is ordered: eight 8-bit formats, eight 16-bit ones (each
      group: integer then normalized, unsigned then signed, 2 then 4
      components), two half-float ones, then float, unsigned and signed
      32-bit formats of 1 to 4 components. */
  function VertexFormatLayout(format: int): (l: Option<ElementLayout>)
    ensures l.Some? <==> 0 <= format < VERTEX_FORMAT_COUNT
  {
    if 0 <= format < 16 then
      var bits := if format < 8 then 8 else 16;
      var r := if format < 8 then format else format - 8;
      var normalized := r >= 4;
      var q := if normalized then r - 4 else r;
      var signed := q >= 2;
      var components := if q == 0 || q == 2 then 2 else 4;
      var numeric :=
        if normalized then (if signed then SNorm else UNorm)
        else (if signed then SInt else UInt);
      Some(ElementLayout(components, bits, numeric))
    else if format == 16 then Some(ElementLayout(2, 16, SFloat))
    else if format == 17 then Some(ElementLayout(4, 16, SFloat))
    else if 18 <= format < 22 then Some(ElementLayout(format - 17, 32, SFloat))
    else if 22 <= format < 26 then Some(ElementLayout(format - 21, 32, UInt))
    else if 26 <= format < 30 then Some(ElementLayout(format - 25, 32, SInt))
    else None
  }

  /** nkVkFormat keeps the element layout: the Vulkan format it picks reads
      the same number of components, of the same width, the same way as
      the Neko format asks for; everything else maps to no layout. */
  lemma FormatKeepsLayout(format: int)
    ensures FormatLayout(Format(format)) == VertexFormatLayout(format)
  {
    if format < 0 || format >= VERTEX_FORMAT_COUNT {
    } else if format < 4 {
    } else if format < 8 {
    } else if format < 12 {
    } else if format < 16 {
    } else if format < 22 {
    } else {
    }
  }

  /** Distinct Neko vertex formats become distinct Vulkan formats. */
  lemma {:induction false} FormatInjective(format: int, other: int)
    requires 0 <= format < VERTEX_FORMAT_COUNT && 0 <= other < VERTEX_FORMAT_COUNT
    requires Format(format) == Format(other)
    ensures format == other
  {
    FormatKeepsLayout(format);
    FormatKeepsLayout(other);
    LayoutDeterminesFormat(format, other);
  }

  /** No two Neko vertex formats have the same layout. */
  lemma LayoutDeterminesFormat(format: int, other: int)
    requires 0 <= format < VERTEX_FORMAT_COUNT && 0 <= other < VERTEX_FORMAT_COUNT
    requires VertexFormatLayout(format) == VertexFormatLayout(other)
    ensures format == other
  {
  }

  /** nkVkPrimitiveTopology */
  function PrimitiveTopology(topology: int): (t: VkPrimitiveTopology)
    ensures t != TopologyMaxEnum <==> TOPOLOGY_POINT_LIST <= topology <= TOPOLOGY_TRIANGLE_STRIP
  {
    if topology == TOPOLOGY_POINT_LIST then PointList
    else if topology == TOPOLOGY_LINE_LIST then LineList
    else if topology == TOPOLOGY_LINE_STRIP then LineStrip
    else if topology == TOPOLOGY_TRIANGLE_LIST then TriangleList
    else if topology == TOPOLOGY_TRIANGLE_STRIP then TriangleStrip
    else TopologyMaxEnum
  }

  /** The NkPrimitiveTopology a Vulkan topology stands for. */
  function TopologyOf(t: VkPrimitiveTopology): (topology: Option<int>)
    ensures topology.Some? <==> t != TopologyMaxEnum
  {
    match t
    case PointList => Some(TOPOLOGY_POINT_LIST)
    case LineList => Some(TOPOLOGY_LINE_LIST)
    case LineStrip => Some(TOPOLOGY_LINE_STRIP)
    case TriangleList => Some(TOPOLOGY_TRIANGLE_LIST)
    case TriangleStrip => Some(TOPOLOGY_TRIANGLE_STRIP)
    case TopologyMaxEnum => None
  }

  /** The translation is a bijection between the five Neko topologies and the
      five Vulkan ones. */
  lemma TopologyRoundTrip(topology: int, t: VkPrimitiveTopology)
    ensures TOPOLOGY_POINT_LIST <= topology <= TOPOLOGY_TRIANGLE_STRIP ==>
              TopologyOf(PrimitiveTopology(topology)) == Some(topology)
    ensures t != TopologyMaxEnum ==> PrimitiveTopology(TopologyOf(t).value) == t
  {
  }

  /** The Vulkan topologies in which consecutive primitives share vertices,
      the ones whose strips a restart index can cut. */
  predicate IsStrip(t: VkPrimitiveTopology)
  {
    t == LineStrip || t == TriangleStrip
  }

  /** nkVkShouldEnablePrimitiveRestart: defined for the five topologies only,
      since the switch has no return for any other value. Restart is enabled
      exactly when the Vulkan topology the pipeline gets is a strip, which is
      what Vulkan's validation rules allow. */
  function ShouldEnablePrimitiveRestart(topology: int): (enable: bool)
    requires TOPOLOGY_POINT_LIST <= topology <= TOPOLOGY_TRIANGLE_STRIP
    ensures enable <==> IsStrip(PrimitiveTopology(topology))
  {
    match topology
    case 0 => false
    case 1 => false
    case 3 => false
    case 2 => true
    case 4 => true
  }
}
