/** The process-wide rendering strategy. */
module RenderMethods {

  /** Immediate submission, client arrays, one interleaved vertex buffer, or a
      vertex array object. */
  datatype RenderMethod = RenderImmediate | RenderClientArray | RenderVbo | RenderVao

  /** The strategy the program is built with. */
  const ActiveRenderMethod: RenderMethod := RenderVao
}
