/** The graphics driver seen as an abstract environment: a fresh-handle
    allocator, the uploaded vertex data, the current framebuffer binding and
    viewport, and a log of state-independent commands. Draw calls that depend
    only on the scene are returned as `DrawCall` lists by the traversals. */
module Gl {
  import opened Point3D

  /** An unsigned char. */
  type byte = x: int | 0 <= x < 0x100

  /** An unsigned int (32 bits). */
  type uint32 = x: int | 0 <= x < 0x1_0000_0000

  /** A colour as three bytes, the format of GL_RGB / GL_UNSIGNED_BYTE. */
  datatype Rgb = Rgb(r: byte, g: byte, b: byte)

  /** One recorded driver call. */
  datatype DrawCall =
    | PushMatrix
    | PopMatrix
    | Translate(offset: PointDouble3D)
      // glBindVertexArray(vao) + glDrawArrays(GL_TRIANGLES, 0, count)
    | DrawFromVao(vao: nat, count: nat)
      // glBindBuffer(vbo) + the three client-array pointers + glDrawArrays
    | DrawFromVbo(vbo: nat, count: nat)
    | CallList(list: nat)
      // selection pass with a shader: mvp/model uniforms, black light, object colour
    | SelectionUniforms(color: Rgb)
      // selection pass without a shader: glColor3f + glBegin(GL_TRIANGLES) ... glEnd
    | SelectionTriangles(color: Rgb, vertices: seq<PointDouble3D>)
      // glClear(GL_COLOR_BUFFER_BIT | GL_DEPTH_BUFFER_BIT)
    | ClearBuffers
      // glClear(GL_COLOR_BUFFER_BIT)
    | ClearColorBuffer
    | ClearColor(red: real, green: real, blue: real, alpha: real)
    | Viewport(width: int, height: int)
    | Ortho(left: real, right: real, bottom: real, top: real, near: real, far: real)
    | Flush
      // glColor3ub + glLineWidth + glBegin(GL_LINE_STRIP), one glVertex2i per point, glEnd
    | LineStrip(color: Rgb, width: int, points: seq<(int, int)>)

  /** Where an orthographic projection puts coordinate `c` between planes `a`
      and `b` on one axis: `a` goes to -1 and `b` to +1. */
  function OrthoAxis(a: real, b: real, c: real): real
    requires a != b
  {
    2.0 * (c - a) / (b - a) - 1.0
  }

  /** Every entry of `before` is still in `after`, with the same value. */
  predicate Extends<K, V(==)>(before: map<K, V>, after: map<K, V>)
  {
    forall k | k in before :: k in after && after[k] == before[k]
  }

  /** The part of the driver state that allocation changes, as a value. */
  datatype Driver = Driver(nextHandle: nat, live: set<nat>, bufferData: map<nat, seq<real>>, vaoBuffer: map<nat, nat>)

  /** From `before` to `after` the driver only issued handles and added
      uploads and attachments. */
  predicate Grows(before: Driver, after: Driver)
  {
    before.nextHandle <= after.nextHandle && before.live <= after.live &&
    Extends(before.bufferData, after.bufferData) && Extends(before.vaoBuffer, after.vaoBuffer)
  }

  /** The driver state the core touches. */
  class Gpu {
    /** Handles are positive; these are never issued twice. */
    var nextHandle: nat
    /** Handles issued and not yet deleted. */
    var live: set<nat>
    /** Contents uploaded with glBufferData, by buffer handle. */
    var bufferData: map<nat, seq<real>>
    /** The vertex buffer each vertex array object reads. */
    var vaoBuffer: map<nat, nat>
    /** GL_FRAMEBUFFER binding (0 = the window). */
    var drawFramebuffer: nat
    /** Last glViewport size. */
    var viewport: (int, int)
    /** Commands whose effect is on the bound framebuffer (clears), each with
        the framebuffer bound when it was issued. */
    var commands: seq<(nat, DrawCall)>

    /** The allocation state, as a value. */
    ghost function Snapshot(): Driver
      reads this
    {
      Driver(nextHandle, live, bufferData, vaoBuffer)
    }

    ghost predicate Valid()
      reads this
    {
      0 < nextHandle && (forall h :: h in live ==> 0 < h < nextHandle) &&
      (forall h :: h in bufferData ==> 0 < h < nextHandle) &&
      (forall h :: h in vaoBuffer ==> 0 < h < nextHandle)
    }

    constructor ()
      ensures Valid() && nextHandle == 1 && live == {}
      ensures bufferData == map[] && vaoBuffer == map[] && drawFramebuffer == 0 && commands == []
    {
      nextHandle := 1;
      live := {};
      bufferData := map[];
      vaoBuffer := map[];
      drawFramebuffer := 0;
      viewport := (0, 0);
      commands := [];
    }

    /** glGen*: a handle never issued before. */
    method Gen() returns (h: nat)
      requires Valid()
      modifies this`nextHandle, this`live
      ensures Valid()
      ensures h == old(nextHandle) && 0 < h && h !in old(live)
      ensures nextHandle == old(nextHandle) + 1 && live == old(live) + {h}
    {
      h := nextHandle;
      nextHandle := nextHandle + 1;
      live := live + {h};
    }

    /** glDelete*: the handle is no longer live. */
    method Delete(h: nat)
      requires Valid()
      modifies this`live
      ensures Valid() && live == old(live) - {h}
    {
      live := live - {h};
    }

    /** glBufferData on buffer `h`. */
    method Upload(h: nat, data: seq<real>)
      requires Valid() && 0 < h < nextHandle
      modifies this`bufferData
      ensures Valid() && bufferData == old(bufferData)[h := data]
    {
      bufferData := bufferData[h := data];
    }

    /** The attribute pointers of vertex array `vao` are set to read `vbo`. */
    method AttachBuffer(vao: nat, vbo: nat)
      requires Valid() && 0 < vao < nextHandle
      modifies this`vaoBuffer
      ensures Valid() && vaoBuffer == old(vaoBuffer)[vao := vbo]
    {
      vaoBuffer := vaoBuffer[vao := vbo];
    }

    /** glBindFramebuffer(GL_FRAMEBUFFER, fb). */
    method BindFramebuffer(fb: nat)
      modifies this`drawFramebuffer
      ensures drawFramebuffer == fb
    {
      drawFramebuffer := fb;
    }

    /** glViewport(0, 0, w, h). */
    method SetViewport(w: int, h: int)
      modifies this`viewport
      ensures viewport == (w, h)
    {
      viewport := (w, h);
    }

    /** A command recorded against the bound framebuffer. */
    method Issue(c: DrawCall)
      modifies this`commands
      ensures commands == old(commands) + [(drawFramebuffer, c)]
    {
      commands := commands + [(drawFramebuffer, c)];
    }
  }
}
