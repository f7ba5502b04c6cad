/**
 * A drawable entity: tessellated geometry plus its own buffer of
 * PRIM_BUFFER_LEN per-instance records.
 */
module GeoEntities {
  import opened Tetrominos
  import opened Gpu

  /** The tessellator's output: vertices and 16-bit indices. */
  datatype VertexBuffers = VertexBuffers(vertices: seq<GpuVertex>, indices: seq<nat>)

  class GeoEntity {
    const scale: real
    const instances: nat
    const geometry: VertexBuffers
    /** [fill index range, stroke index range]. */
    const ranges: seq<Range>
    /** The per-instance records; the engine overwrites slots in place, the vector itself is never replaced. */
    const primitives: array<Primitive>
    /** Whether init_render has attached GPU resources (renderer is Some). */
    var hasRenderer: bool

    /**
     * GeoEntity::new. The capacity assert is this constructor's
     * precondition: a caller asking for more instances than one buffer
     * holds stops the program.
     */
    constructor (geometry: VertexBuffers, rangeFill: Range, rangeStroke: Range, scale: real, instances: nat)
      requires instances <= PRIM_BUFFER_LEN
      ensures this.geometry == geometry && this.scale == scale && this.instances == instances
      ensures ranges == [rangeFill, rangeStroke]
      ensures !hasRenderer
      ensures fresh(primitives) && primitives.Length == PRIM_BUFFER_LEN
      ensures forall i :: 0 <= i < PRIM_BUFFER_LEN ==> primitives[i] == NewWithScale(scale)
    {
      var prims := new Primitive[PRIM_BUFFER_LEN];
      for i := 0 to PRIM_BUFFER_LEN
        invariant forall j :: 0 <= j < i ==> prims[j] == NewWithScale(scale)
      {
        prims[i] := NewWithScale(scale);
      }
      this.scale := scale;
      this.geometry := geometry;
      this.ranges := [rangeFill, rangeStroke];
      this.instances := instances;
      this.primitives := prims;
      this.hasRenderer := false;
    }
  }
}
