/**
 * The per-instance record the engine hands to the GPU, its defaults, the
 * capacity of one primitive buffer, and the vertex constructor that stamps
 * tessellated vertices with a primitive id.
 */
module Gpu {
  import opened Tetrominos

  datatype Vec2 = Vec2(x: real, y: real)

  /**
   * One per-instance record: sixteen 4-byte f32 or i32 words on the GPU
   * (colour 4, stroke colour 4, translate 2, then one each for z, width,
   * angle, scale and the two padding words), 64 bytes.
   */
  datatype Primitive = Primitive(
    color: Color,
    colorStroke: Color,
    translate: Vec2,
    zIndex: int,
    width: real,
    angle: real,
    scale: real,
    pad1: int,
    pad2: int)

  const BLACK_TRANSPARENT: Color := Color(0.0, 0.0, 0.0, 0.0)

  /** Primitive::DEFAULT. */
  const DEFAULT: Primitive := Primitive(
    BLACK_TRANSPARENT, BLACK_TRANSPARENT, Vec2(0.0, 0.0), 0, 0.0, 0.0, 1.0, 0, 0)

  /** Opaque black fill at the given scale; every other field as in DEFAULT. */
  function NewWithScale(scale: real): (p: Primitive)
    ensures p.color == Color(0.0, 0.0, 0.0, 1.0) && p.scale == scale
    ensures p.(color := DEFAULT.color, scale := DEFAULT.scale) == DEFAULT
  {
    DEFAULT.(color := Color(0.0, 0.0, 0.0, 1.0), scale := scale)
  }

  /** DEFAULT is all zero apart from a unit scale. */
  lemma DefaultFields()
    ensures DEFAULT.color == DEFAULT.colorStroke == Color(0.0, 0.0, 0.0, 0.0)
    ensures DEFAULT.translate == Vec2(0.0, 0.0) && DEFAULT.zIndex == 0
    ensures DEFAULT.width == 0.0 && DEFAULT.angle == 0.0 && DEFAULT.scale == 1.0
    ensures DEFAULT.pad1 == 0 && DEFAULT.pad2 == 0
  {
  }

  /** The number of records in one primitive buffer. */
  const PRIM_BUFFER_LEN: nat := 180

  // ---------------------------------------------------------------------
  // Vertices
  // ---------------------------------------------------------------------

  datatype GpuVertex = GpuVertex(position: Vec2, normal: Vec2, primId: int)

  /** What the tessellator reports for a fill vertex and for a stroke vertex. */
  datatype FillVertex = FillVertex(position: Vec2)
  datatype StrokeVertex = StrokeVertex(positionOnPath: Vec2, normal: Vec2)

  /** WithId(id): a vertex constructor that tags every vertex with its primitive id. */
  datatype WithId = WithId(id: int) {

    function NewFillVertex(v: FillVertex): (g: GpuVertex)
      ensures g.primId == id && g.position == v.position && g.normal == Vec2(0.0, 0.0)
    {
      GpuVertex(v.position, Vec2(0.0, 0.0), id)
    }

    function NewStrokeVertex(v: StrokeVertex): (g: GpuVertex)
      ensures g.primId == id && g.position == v.positionOnPath && g.normal == v.normal
    {
      GpuVertex(v.positionOnPath, v.normal, id)
    }

    /** The vertices a fill tessellation builds through this constructor, one per reported vertex. */
    function FillVertices(vs: seq<FillVertex>): (gs: seq<GpuVertex>)
      ensures |gs| == |vs|
      ensures forall i :: 0 <= i < |gs| ==> gs[i].primId == id && gs[i].normal == Vec2(0.0, 0.0)
      ensures forall i :: 0 <= i < |gs| ==> gs[i].position == vs[i].position
    {
      if vs == [] then [] else [NewFillVertex(vs[0])] + FillVertices(vs[1..])
    }

    /** The vertices a stroke tessellation builds through this constructor, one per reported vertex. */
    function StrokeVertices(vs: seq<StrokeVertex>): (gs: seq<GpuVertex>)
      ensures |gs| == |vs|
      ensures forall i :: 0 <= i < |gs| ==> gs[i].primId == id && gs[i].normal == vs[i].normal
      ensures forall i :: 0 <= i < |gs| ==> gs[i].position == vs[i].positionOnPath
    {
      if vs == [] then [] else [NewStrokeVertex(vs[0])] + StrokeVertices(vs[1..])
    }
  }
}
