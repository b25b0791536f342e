/** The scene-node tree: a node owns its geometry arrays, a position, GPU
    handles and an ordered list of (possibly null) children. Spheres are nodes
    whose shape is `SphereShape`; they override only the bounding volume. */
module RenderObjects {
  import opened Point3D
  import opened Gl
  import opened Wrappers
  import opened RenderMethods
  import opened Spheres
  import SelectionBuffers

  // ---------------------------------------------------------------------
  // Axis-aligned boxes and the fold getVolume performs
  // ---------------------------------------------------------------------

  /** An axis-aligned box from `lo` to `hi`. */
  datatype Box = Box(lo: PointDouble3D, hi: PointDouble3D)

  /** Coordinate `axis` (0 x, 1 y, otherwise z) of `p`. */
  function Coord(p: PointDouble3D, axis: nat): real
  {
    if axis == 0 then p.x else if axis == 1 then p.y else p.z
  }

  /** `if (c < m) m = c;` */
  function Lower(m: real, c: real): real
  {
    if c < m then c else m
  }

  /** `if (c > m) m = c;` */
  function Upper(m: real, c: real): real
  {
    if c > m then c else m
  }

  /** `acc` grown, axis by axis, to take in `b`. */
  function Union(acc: Box, b: Box): Box
  {
    Box(PointDouble3D(Lower(acc.lo.x, b.lo.x), Lower(acc.lo.y, b.lo.y), Lower(acc.lo.z, b.lo.z)),
        PointDouble3D(Upper(acc.hi.x, b.hi.x), Upper(acc.hi.y, b.hi.y), Upper(acc.hi.z, b.hi.z)))
  }

  /** The degenerate box of one point. */
  function PointBox(p: PointDouble3D): Box
  {
    Box(p, p)
  }

  /** Box `outer` reaches at least as far as box `inner` on every side. */
  predicate Encloses(outer: Box, inner: Box)
  {
    outer.lo.x <= inner.lo.x && outer.lo.y <= inner.lo.y && outer.lo.z <= inner.lo.z &&
    inner.hi.x <= outer.hi.x && inner.hi.y <= outer.hi.y && inner.hi.z <= outer.hi.z
  }

  /** The vertex loop of getVolume: start from the first vertex, grow by each later one. */
  function VerticesBox(vs: seq<PointDouble3D>): Box
    requires |vs| > 0
    decreases |vs|
  {
    if |vs| == 1 then PointBox(vs[0]) else Union(VerticesBox(vs[..|vs| - 1]), PointBox(vs[|vs| - 1]))
  }

  /** One child step of getVolume: a child without a volume changes nothing,
      the first volume found is taken as is, a later one is merged in. */
  function Merge(acc: Option<Box>, b: Option<Box>): Option<Box>
  {
    if b.None? then acc else if acc.None? then b else Some(Union(acc.value, b.value))
  }

  /** The children loop of getVolume over the children's answers `bs`, starting from `init`. */
  function Fold(init: Option<Box>, bs: seq<Option<Box>>): Option<Box>
    decreases |bs|
  {
    if |bs| == 0 then init else Merge(Fold(init, bs[..|bs| - 1]), bs[|bs| - 1])
  }

  /** Each coordinate of a union is one of the two operands' coordinates, the smaller for `lo`, the larger for `hi`. */
  lemma UnionCoord(a: Box, b: Box, axis: nat)
    ensures Coord(Union(a, b).lo, axis) == Lower(Coord(a.lo, axis), Coord(b.lo, axis))
    ensures Coord(Union(a, b).hi, axis) == Upper(Coord(a.hi, axis), Coord(b.hi, axis))
  {
  }

  /** A union reaches as far as both operands. */
  lemma UnionEncloses(a: Box, b: Box)
    ensures Encloses(Union(a, b), a) && Encloses(Union(a, b), b)
  {
  }

  /** The vertex box holds every vertex and each of its bounds is some vertex's coordinate. */
  lemma {:induction false} VerticesBoxTight(vs: seq<PointDouble3D>, axis: nat)
    requires |vs| > 0
    ensures forall k | 0 <= k < |vs| :: Within(vs[k], VerticesBox(vs).lo, VerticesBox(vs).hi)
    ensures exists k | 0 <= k < |vs| :: Coord(vs[k], axis) == Coord(VerticesBox(vs).lo, axis)
    ensures exists k | 0 <= k < |vs| :: Coord(vs[k], axis) == Coord(VerticesBox(vs).hi, axis)
    decreases |vs|
  {
    var n := |vs|;
    if n == 1 {
      assert Coord(vs[0], axis) == Coord(VerticesBox(vs).lo, axis) == Coord(VerticesBox(vs).hi, axis);
    } else {
      var front := vs[..n - 1];
      VerticesBoxTight(front, axis);
      var b := VerticesBox(front);
      UnionCoord(b, PointBox(vs[n - 1]), axis);
      forall k | 0 <= k < n
        ensures Within(vs[k], VerticesBox(vs).lo, VerticesBox(vs).hi)
      {
        if k < n - 1 {
          assert vs[k] == front[k];
        }
      }
      var kl :| 0 <= kl < n - 1 && Coord(front[kl], axis) == Coord(b.lo, axis);
      var kh :| 0 <= kh < n - 1 && Coord(front[kh], axis) == Coord(b.hi, axis);
      assert front[kl] == vs[kl] && front[kh] == vs[kh];
      if Coord(vs[n - 1], axis) < Coord(b.lo, axis) {
        assert Coord(vs[n - 1], axis) == Coord(VerticesBox(vs).lo, axis);
      } else {
        assert Coord(vs[kl], axis) == Coord(VerticesBox(vs).lo, axis);
      }
      if Coord(vs[n - 1], axis) > Coord(b.hi, axis) {
        assert Coord(vs[n - 1], axis) == Coord(VerticesBox(vs).hi, axis);
      } else {
        assert Coord(vs[kh], axis) == Coord(VerticesBox(vs).hi, axis);
      }
    }
  }

  /** The fold finds a volume exactly when it starts from one or some answer is one. */
  lemma {:induction false} FoldFound(init: Option<Box>, bs: seq<Option<Box>>)
    ensures Fold(init, bs).Some? <==> init.Some? || exists i | 0 <= i < |bs| :: bs[i].Some?
    decreases |bs|
  {
    if |bs| > 0 {
      var front := bs[..|bs| - 1];
      FoldFound(init, front);
      if exists i | 0 <= i < |front| :: front[i].Some? {
        var i :| 0 <= i < |front| && front[i].Some?;
        assert bs[i] == front[i];
      }
      if exists i | 0 <= i < |bs| :: bs[i].Some? {
        var i :| 0 <= i < |bs| && bs[i].Some?;
        if i < |bs| - 1 {
          assert front[i] == bs[i];
        }
      }
    }
  }

  /** The folded box reaches as far as the starting box and every answer box. */
  lemma {:induction false} FoldEncloses(init: Option<Box>, bs: seq<Option<Box>>)
    ensures Fold(init, bs).Some? && init.Some? ==> Encloses(Fold(init, bs).value, init.value)
    ensures forall i | 0 <= i < |bs| && bs[i].Some? :: Fold(init, bs).Some? && Encloses(Fold(init, bs).value, bs[i].value)
    decreases |bs|
  {
    if |bs| > 0 {
      var front := bs[..|bs| - 1];
      var last := bs[|bs| - 1];
      assert forall i | 0 <= i < |front| :: front[i] == bs[i];
      FoldEncloses(init, front);
      FoldFound(init, front);
      FoldFound(init, bs);
      var acc := Fold(init, front);
      if acc.Some? && last.Some? {
        UnionEncloses(acc.value, last.value);
      }
    }
  }

  /** Each bound of the folded box is the same bound of the starting box or of some answer box. */
  lemma {:induction false} FoldAttained(init: Option<Box>, bs: seq<Option<Box>>, axis: nat)
    requires Fold(init, bs).Some?
    ensures (init.Some? && Coord(init.value.lo, axis) == Coord(Fold(init, bs).value.lo, axis)) ||
            exists i | 0 <= i < |bs| :: bs[i].Some? && Coord(bs[i].value.lo, axis) == Coord(Fold(init, bs).value.lo, axis)
    ensures (init.Some? && Coord(init.value.hi, axis) == Coord(Fold(init, bs).value.hi, axis)) ||
            exists i | 0 <= i < |bs| :: bs[i].Some? && Coord(bs[i].value.hi, axis) == Coord(Fold(init, bs).value.hi, axis)
    decreases |bs|
  {
    if |bs| > 0 {
      var front := bs[..|bs| - 1];
      var last := bs[|bs| - 1];
      assert forall i | 0 <= i < |front| :: front[i] == bs[i];
      if Fold(init, front).Some? {
        FoldAttained(init, front, axis);
        if last.Some? {
          UnionCoord(Fold(init, front).value, last.value, axis);
        }
      }
    }
  }

  /** The box getVolume reports for a sphere: the cube of half-side `radius` around `position`. */
  function SphereVolume(position: PointDouble3D, radius: real): Box
  {
    Box(SphereBox(position, radius).0, SphereBox(position, radius).1)
  }

  /** `vs` with `p` added to every point. */
  function Translated(vs: seq<PointDouble3D>, p: PointDouble3D): (r: seq<PointDouble3D>)
    ensures |r| == |vs|
  {
    seq(|vs|, k requires 0 <= k < |vs| => Add(vs[k], p))
  }

  /** Baking two positions in turn bakes their sum; the origin bakes nothing. */
  lemma TranslatedTwice(vs: seq<PointDouble3D>, p: PointDouble3D, q: PointDouble3D)
    ensures Translated(Translated(vs, p), q) == Translated(vs, Add(p, q))
    ensures Translated(vs, Origin()) == vs
  {
    forall k | 0 <= k < |vs|
      ensures Translated(Translated(vs, p), q)[k] == Translated(vs, Add(p, q))[k]
    {
      AddLaws(vs[k], p, q);
    }
  }

  /** What createDefaultNormal leaves in the normal array: three (0, 0, 1)
      normals for exactly three vertices, nothing otherwise. */
  function DefaultNormals(vertexCount: nat): (r: seq<PointDouble3D>)
    ensures |r| == (if vertexCount == 3 then 3 else 0)
    ensures forall k | 0 <= k < |r| :: r[k] == PointDouble3D(0.0, 0.0, 1.0)
  {
    if vertexCount == 3 then [PointDouble3D(0.0, 0.0, 1.0), PointDouble3D(0.0, 0.0, 1.0), PointDouble3D(0.0, 0.0, 1.0)] else []
  }

  /** The nine floats of one interleaved vertex: position, normal, colour. */
  function VertexRecord(v: PointDouble3D, n: PointDouble3D, c: PointDouble3D): (r: seq<real>)
    ensures |r| == 9
  {
    [v.x, v.y, v.z, n.x, n.y, n.z, c.x, c.y, c.z]
  }

  /** The interleaved buffer createVBO uploads for the first |vs| vertices. */
  function Interleave(vs: seq<PointDouble3D>, ns: seq<PointDouble3D>, cs: seq<PointDouble3D>): seq<real>
    requires |vs| <= |ns| && |vs| <= |cs|
    decreases |vs|
  {
    if |vs| == 0 then []
    else Interleave(vs[..|vs| - 1], ns, cs) + VertexRecord(vs[|vs| - 1], ns[|vs| - 1], cs[|vs| - 1])
  }

  /** The buffer holds 9 floats per vertex, and floats 9i..9i+8 are vertex i's
      position, normal and colour. */
  lemma {:induction false} InterleaveAt(vs: seq<PointDouble3D>, ns: seq<PointDouble3D>, cs: seq<PointDouble3D>, i: nat, c: nat)
    requires |vs| <= |ns| && |vs| <= |cs| && i < |vs| && c < 9
    ensures |Interleave(vs, ns, cs)| == 9 * |vs|
    ensures Interleave(vs, ns, cs)[9 * i + c] == VertexRecord(vs[i], ns[i], cs[i])[c]
    decreases |vs|
  {
    var n := |vs|;
    var front := vs[..n - 1];
    InterleaveLength(front, ns, cs);
    if i < n - 1 {
      InterleaveAt(front, ns, cs, i, c);
      assert front[i] == vs[i];
    }
  }

  lemma {:induction false} InterleaveLength(vs: seq<PointDouble3D>, ns: seq<PointDouble3D>, cs: seq<PointDouble3D>)
    requires |vs| <= |ns| && |vs| <= |cs|
    ensures |Interleave(vs, ns, cs)| == 9 * |vs|
    decreases |vs|
  {
    if |vs| > 0 {
      InterleaveLength(vs[..|vs| - 1], ns, cs);
    }
  }

  /** The packing loop of createVBO. */
  method InterleaveVertexData(vs: seq<PointDouble3D>, ns: seq<PointDouble3D>, cs: seq<PointDouble3D>)
    returns (buffer: seq<real>)
    requires |vs| <= |ns| && |vs| <= |cs|
    ensures buffer == Interleave(vs, ns, cs)
  {
    buffer := [];
    var i := 0;
    while i < |vs|
      invariant 0 <= i <= |vs|
      invariant buffer == Interleave(vs[..i], ns, cs)
    {
      assert vs[..i + 1][..i] == vs[..i];
      buffer := buffer + VertexRecord(vs[i], ns[i], cs[i]);
      i := i + 1;
    }
    assert vs[..i] == vs;
  }

  /** createVBO: a fresh buffer holding the interleaved vertex data. */
  method CreateVbo(gpu: Gpu, vs: seq<PointDouble3D>, ns: seq<PointDouble3D>, cs: seq<PointDouble3D>)
    returns (vbo: nat)
    requires gpu.Valid() && |vs| <= |ns| && |vs| <= |cs|
    modifies gpu`nextHandle, gpu`live, gpu`bufferData
    ensures gpu.Valid() && vbo == old(gpu.nextHandle) && gpu.nextHandle == vbo + 1 && 0 < vbo
    ensures gpu.live == old(gpu.live) + {vbo}
    ensures gpu.bufferData == old(gpu.bufferData)[vbo := Interleave(vs, ns, cs)]
  {
    var buffer := InterleaveVertexData(vs, ns, cs);
    vbo := gpu.Gen();
    gpu.Upload(vbo, buffer);
  }

  /** createVAO: a fresh vertex array whose three attributes read `vbo`. */
  method CreateVao(gpu: Gpu, vbo: nat) returns (vao: nat)
    requires gpu.Valid()
    modifies gpu`nextHandle, gpu`live, gpu`vaoBuffer
    ensures gpu.Valid() && vao == old(gpu.nextHandle) && gpu.nextHandle == vao + 1 && 0 < vao
    ensures gpu.live == old(gpu.live) + {vao}
    ensures gpu.vaoBuffer == old(gpu.vaoBuffer)[vao := vbo]
  {
    vao := gpu.Gen();
    gpu.AttachBuffer(vao, vbo);
  }

  /** createDispList: a fresh display-list handle (the compiled list itself is not recorded). */
  method CreateDispList(gpu: Gpu) returns (list: nat)
    requires gpu.Valid()
    modifies gpu`nextHandle, gpu`live
    ensures gpu.Valid() && list == old(gpu.nextHandle) && gpu.nextHandle == list + 1 && 0 < list
    ensures gpu.live == old(gpu.live) + {list}
  {
    list := gpu.Gen();
  }

  /** The vertex loop of getVolume. */
  method BoundVertices(vs: seq<PointDouble3D>) returns (b: Box)
    requires |vs| > 0
    ensures b == VerticesBox(vs)
  {
    b := PointBox(vs[0]);
    var k := 1;
    while k < |vs|
      invariant 1 <= k <= |vs|
      invariant b == VerticesBox(vs[..k])
    {
      assert vs[..k + 1][..k] == vs[..k];
      b := Union(b, PointBox(vs[k]));
      k := k + 1;
    }
    assert vs[..k] == vs;
  }

  /** A plain mesh node, or a sphere with the arguments it was constructed with. */
  datatype Shape = Mesh | SphereShape(radius: real, slices: int, stacks: int)

  /** Which traversal: the display pass (Render) or the picking pass (RenderSelection). */
  datatype Pass = Display | Selection

  /** Every field of a node, as a value. */
  datatype NodeState = NodeState(
    name: string, shape: Shape, vertices: seq<PointDouble3D>, normals: seq<PointDouble3D>,
    texCoords: seq<PointDouble3D>, colors: seq<PointDouble3D>, color: PointDouble3D,
    position: PointDouble3D, objectID: uint32, vbo: nat, vao: nat, dispList: nat,
    children: seq<RenderObject?>, footprint: set<object>)

  class RenderObject {
    var name: string
    var shape: Shape
    var vertices: seq<PointDouble3D>
    var normals: seq<PointDouble3D>
    var texCoords: seq<PointDouble3D>
    var colors: seq<PointDouble3D>
    /** The fallback colour. */
    var color: PointDouble3D
    var position: PointDouble3D
    var objectID: uint32
    var vbo: nat
    var vao: nat
    var dispList: nat
    /** Shared pointers, so an entry may be null. */
    var children: seq<RenderObject?>
    /** This node and everything its subtree consists of. */
    ghost var Repr: set<object>

    /** A tree: every non-null child lies in this node's footprint without
        this node, is itself a tree, and no two children share objects. */
    ghost predicate Valid()
      reads this, Repr
      decreases Repr
    {
      this in Repr &&
      (forall i | 0 <= i < |children| && children[i] != null ::
         children[i] in Repr && children[i].Repr <= Repr && this !in children[i].Repr && children[i].Valid()) &&
      (forall i, j | 0 <= i < j < |children| && children[i] != null && children[j] != null ::
         children[i].Repr !! children[j].Repr)
    }

    /** This node's fields, as a value. */
    ghost function State(): NodeState
      reads this
    {
      NodeState(name, shape, vertices, normals, texCoords, colors, color, position, objectID,
                vbo, vao, dispList, children, Repr)
    }

    /** A node named `name` with no geometry, no children and zero handles. */
    constructor (name: string)
      ensures Valid() && Repr == {this} && this.name == name && shape == Mesh
      ensures vertices == normals == texCoords == colors == [] && children == []
      ensures color == Origin() && position == Origin()
      ensures objectID == 0 && vbo == 0 && vao == 0 && dispList == 0
    {
      this.name := name;
      shape := Mesh;
      vertices, normals, texCoords, colors := [], [], [], [];
      color, position := Origin(), Origin();
      objectID, vbo, vao, dispList := 0, 0, 0, 0;
      children := [];
      Repr := {this};
    }

    /** The Sphere constructor: records the requested arguments unclamped and
        runs Build with clamped copies, so the mesh is a triangle list of
        6 * stacks * slices vertices, each the radius times its normal and
        coloured SphereColor. */
    constructor Sphere(name: string, radius: real, slices: int, stacks: int, trig: Trig)
      ensures Valid() && Repr == {this} && this.name == name
      ensures shape == SphereShape(radius, slices, stacks)
      ensures |vertices| == |normals| == |colors| == MeshVertexCount(slices, stacks)
      ensures forall k | 0 <= k < |vertices| :: vertices[k] == Scale(normals[k], radius)
      ensures forall k | 0 <= k < |normals| ::
        normals[k] == StripNormal(trig, ClampSlices(slices), ClampStacks(stacks), CornerOf(ClampSlices(slices), k))
      ensures forall k | 0 <= k < |colors| :: colors[k] == SphereColor
      ensures texCoords == [] && children == [] && color == Origin() && position == Origin()
      ensures objectID == 0 && vbo == 0 && vao == 0 && dispList == 0
    {
      var sl, st := ClampSlices(slices), ClampStacks(stacks);
      var stripV, stripN := BuildStrip(radius, sl, st, trig);
      var triV, triN := ReindexStrip(stripV, stripN, sl, st);
      ReindexKeepsScale(stripV, stripN, triV, triN, sl, radius);
      var triC := SphereColors(|triV|);
      this.name := name;
      shape := SphereShape(radius, slices, stacks);
      vertices, normals, texCoords, colors := triV, triN, [], triC;
      color, position := Origin(), Origin();
      objectID, vbo, vao, dispList := 0, 0, 0, 0;
      children := [];
      Repr := {this};
    }

    /** addChild: appends `child`; the earlier children keep their order. */
    method AddChild(child: RenderObject?)
      requires Valid() && (child != null ==> child.Valid() && child.Repr !! Repr)
      modifies this`children, this`Repr
      ensures Valid() && children == old(children) + [child]
      ensures Repr == old(Repr) + (if child == null then {} else child.Repr)
    {
      children := children + [child];
      if child != null {
        Repr := Repr + child.Repr;
      }
    }

    /** removeChild: drops child `i` when there is one; otherwise nothing changes. */
    method RemoveChild(i: nat)
      requires Valid()
      modifies this`children
      ensures Valid()
      ensures i < |old(children)| ==> children == old(children)[..i] + old(children)[i + 1..]
      ensures i >= |old(children)| ==> children == old(children)
    {
      if i < |children| {
        ghost var before := children;
        children := children[..i] + children[i + 1..];
        assert forall k | 0 <= k < |children| :: children[k] == before[if k < i then k else k + 1];
      }
    }

    method SetVertices(vs: seq<PointDouble3D>)
      requires Valid()
      modifies this`vertices
      ensures Valid() && vertices == vs
    {
      vertices := vs;
    }

    method SetNormals(ns: seq<PointDouble3D>)
      requires Valid()
      modifies this`normals
      ensures Valid() && normals == ns
    {
      normals := ns;
    }

    method SetTexCoords(ts: seq<PointDouble3D>)
      requires Valid()
      modifies this`texCoords
      ensures Valid() && texCoords == ts
    {
      texCoords := ts;
    }

    /** setColors(vector): the per-vertex colours. */
    method SetColors(cs: seq<PointDouble3D>)
      requires Valid()
      modifies this`colors
      ensures Valid() && colors == cs
    {
      colors := cs;
    }

    /** setColors(point): the fallback colour only; the per-vertex colours stay. */
    method SetColor(c: PointDouble3D)
      requires Valid()
      modifies this`color
      ensures Valid() && color == c
    {
      color := c;
    }

    /** setPosition as implemented: stores `p` and bakes it into every vertex. */
    method SetPosition(p: PointDouble3D)
      requires Valid()
      modifies this`position, this`vertices
      ensures Valid() && position == p && vertices == Translated(old(vertices), p)
    {
      position := p;
      var k := 0;
      while k < |vertices|
        invariant 0 <= k <= |vertices| == |old(vertices)|
        invariant forall j | 0 <= j < k :: vertices[j] == Add(old(vertices)[j], p)
        invariant forall j | k <= j < |vertices| :: vertices[j] == old(vertices)[j]
        invariant position == p
      {
        vertices := vertices[k := Add(vertices[k], p)];
        k := k + 1;
      }
    }

    /** setPosition as declared inline in the header: stores `p`, vertices untouched. */
    method SetPositionAsDeclared(p: PointDouble3D)
      requires Valid()
      modifies this`position
      ensures Valid() && position == p
    {
      position := p;
    }

    // -------------------------------------------------------------------
    // Bounding volume
    // -------------------------------------------------------------------

    /** getVolume, as a value: a sphere's cube, or for a mesh the fold over
        the children's answers starting from the vertex box (nothing when
        there are no vertices). */
    function Volume(): Option<Box>
      reads this, Repr
      requires Valid()
      decreases Repr, 2, 0
    {
      match shape
      case SphereShape(radius, _, _) => Some(SphereVolume(position, radius))
      case Mesh => Fold(OwnBox(), ChildBoxes(|children|))
    }

    /** The box of this node's own vertices, if it has any. */
    function OwnBox(): Option<Box>
      reads this
    {
      if |vertices| == 0 then None else Some(VerticesBox(vertices))
    }

    /** What child `i` answers: nothing for a null pointer. */
    function ChildBox(i: nat): Option<Box>
      reads this, Repr
      requires Valid() && i < |children|
      decreases Repr, 0, 0
    {
      if children[i] == null then None else children[i].Volume()
    }

    /** The answers of the first `n` children, in order. */
    function ChildBoxes(n: nat): (bs: seq<Option<Box>>)
      reads this, Repr
      requires Valid() && n <= |children|
      ensures |bs| == n
      decreases Repr, 1, n
    {
      if n == 0 then [] else ChildBoxes(n - 1) + [ChildBox(n - 1)]
    }

    lemma {:induction false} ChildBoxesAt(n: nat, i: nat)
      requires Valid() && i < n <= |children|
      ensures ChildBoxes(n)[i] == ChildBox(i)
      decreases n
    {
      if i < n - 1 {
        ChildBoxesAt(n - 1, i);
      }
    }

    /** What the tree invariant says about each child and its answer. */
    lemma ChildrenFacts()
      requires Valid()
      ensures forall i | 0 <= i < |children| :: ChildBoxes(|children|)[i] == ChildBox(i)
      ensures forall i | 0 <= i < |children| && children[i] == null :: ChildBox(i) == None
      ensures forall i | 0 <= i < |children| && children[i] != null ::
        children[i].Valid() && children[i].Repr < Repr && ChildBox(i) == children[i].Volume()
    {
      forall i | 0 <= i < |children|
        ensures ChildBoxes(|children|)[i] == ChildBox(i)
      {
        ChildBoxesAt(|children|, i);
      }
    }

    /** What the tree invariant says about child `i` and its answer. */
    lemma ChildFacts(i: nat)
      requires Valid() && i < |children|
      ensures ChildBoxes(|children|)[i] == ChildBox(i)
      ensures children[i] == null ==> ChildBox(i) == None
      ensures children[i] != null ==>
        children[i].Valid() && children[i].Repr < Repr && ChildBox(i) == children[i].Volume()
    {
      ChildBoxesAt(|children|, i);
    }

    /** getVolume: the vertex loop, then the children loop. */
    method GetVolume() returns (r: Option<Box>)
      requires Valid()
      ensures r == Volume()
      decreases Repr
    {
      if shape.SphereShape? {
        return Some(SphereVolume(position, shape.radius));
      }
      var acc: Option<Box> := None;
      if |vertices| > 0 {
        var b := BoundVertices(vertices);
        acc := Some(b);
      }
      ghost var init, answers := OwnBox(), ChildBoxes(|children|);
      assert acc == Fold(init, answers[..0]);
      var i := 0;
      while i < |children|
        invariant 0 <= i <= |children|
        invariant acc == Fold(init, answers[..i])
      {
        var child := children[i];
        ChildFacts(i);
        var answer: Option<Box> := None;
        if child != null {
          answer := child.GetVolume();
        }
        assert answer == answers[i];
        assert answers[..i + 1][..i] == answers[..i];
        acc := Merge(acc, answer);
        i := i + 1;
      }
      assert answers[..i] == answers;
      return acc;
    }

    /** A mesh node finds a volume exactly when it has vertices or some
        non-null child finds one. */
    lemma MeshVolumeFound()
      requires Valid() && shape == Mesh
      ensures Volume().Some? <==> |vertices| > 0 || exists i | 0 <= i < |children| :: ChildBox(i).Some?
    {
      var bs := ChildBoxes(|children|);
      FoldFound(OwnBox(), bs);
      if exists i | 0 <= i < |bs| :: bs[i].Some? {
        var i :| 0 <= i < |bs| && bs[i].Some?;
        ChildBoxesAt(|children|, i);
      }
      if exists i | 0 <= i < |children| :: ChildBox(i).Some? {
        var i :| 0 <= i < |children| && ChildBox(i).Some?;
        ChildBoxesAt(|children|, i);
      }
    }

    /** A mesh node's box holds every vertex and every box a child reports. */
    lemma MeshVolumeEncloses()
      requires Valid() && shape == Mesh && Volume().Some?
      ensures forall k | 0 <= k < |vertices| :: Within(vertices[k], Volume().value.lo, Volume().value.hi)
      ensures forall i | 0 <= i < |children| && ChildBox(i).Some? :: Encloses(Volume().value, ChildBox(i).value)
    {
      var bs := ChildBoxes(|children|);
      FoldEncloses(OwnBox(), bs);
      ChildrenFacts();
      if |vertices| > 0 {
        VerticesBoxTight(vertices, 0);
      }
    }

    /** Each bound of a mesh node's box is the coordinate of one of its
        vertices or the same bound of a box some child reports. */
    lemma MeshVolumeAttained(axis: nat)
      requires Valid() && shape == Mesh && Volume().Some?
      ensures (exists k | 0 <= k < |vertices| :: Coord(vertices[k], axis) == Coord(Volume().value.lo, axis)) ||
              (exists i | 0 <= i < |children| :: ChildBox(i).Some? && Coord(ChildBox(i).value.lo, axis) == Coord(Volume().value.lo, axis))
      ensures (exists k | 0 <= k < |vertices| :: Coord(vertices[k], axis) == Coord(Volume().value.hi, axis)) ||
              (exists i | 0 <= i < |children| :: ChildBox(i).Some? && Coord(ChildBox(i).value.hi, axis) == Coord(Volume().value.hi, axis))
    {
      var bs := ChildBoxes(|children|);
      var r := Volume().value;
      FoldAttained(OwnBox(), bs, axis);
      if |vertices| > 0 {
        VerticesBoxTight(vertices, axis);
      }
      if exists i | 0 <= i < |bs| :: bs[i].Some? && Coord(bs[i].value.lo, axis) == Coord(r.lo, axis) {
        var i :| 0 <= i < |bs| && bs[i].Some? && Coord(bs[i].value.lo, axis) == Coord(r.lo, axis);
        ChildBoxesAt(|children|, i);
        assert ChildBox(i).Some? && Coord(ChildBox(i).value.lo, axis) == Coord(r.lo, axis);
      }
      if exists i | 0 <= i < |bs| :: bs[i].Some? && Coord(bs[i].value.hi, axis) == Coord(r.hi, axis) {
        var i :| 0 <= i < |bs| && bs[i].Some? && Coord(bs[i].value.hi, axis) == Coord(r.hi, axis);
        ChildBoxesAt(|children|, i);
        assert ChildBox(i).Some? && Coord(ChildBox(i).value.hi, axis) == Coord(r.hi, axis);
      }
    }

    /** A sphere reports its cube whatever its vertices and children. */
    lemma SphereVolumeIgnoresMesh()
      requires Valid() && shape.SphereShape?
      ensures Volume() == Some(SphereVolume(position, shape.radius))
      ensures 0.0 <= shape.radius ==> Within(position, Volume().value.lo, Volume().value.hi)
    {
    }

    // -------------------------------------------------------------------
    // GPU resources
    // -------------------------------------------------------------------

    /** The node has as many normals as vertices, and some vertices: what
        buildGraphicsResources needs before it allocates anything. */
    predicate HasGeometry()
      reads this
    {
      |vertices| > 0 && |normals| == |vertices|
    }

    /** The handles strategy `m` draws with are allocated. */
    predicate HandlesReady(m: RenderMethod)
      reads this
    {
      match m
      case RenderVao => vbo != 0 && vao != 0
      case RenderVbo => vbo != 0
      case _ => dispList != 0
    }

    /** What buildGraphicsResources leaves behind: colours as long as the
        vertices, default normals where they were due, and for a node with
        geometry its handles and, recursively, its children prepared. */
    ghost predicate Prepared(m: RenderMethod)
      reads this, Repr
      requires Valid()
      decreases Repr
    {
      |colors| == |vertices| && (|vertices| == 3 ==> |normals| == 3) &&
      (HasGeometry() ==>
         HandlesReady(m) && forall i | 0 <= i < |children| && children[i] != null :: children[i].Prepared(m))
    }

    /** createDefaultNormal: three (0, 0, 1) normals for a single triangle,
        none otherwise. */
    method CreateDefaultNormal()
      requires Valid()
      modifies this`normals
      ensures Valid() && normals == DefaultNormals(|vertices|)
    {
      normals := [];
      if |vertices| == 3 {
        var up := PointDouble3D(0.0, 0.0, 1.0);
        normals := normals + [up];
        normals := normals + [up];
        normals := normals + [up];
      }
    }

    /** The handles of strategy `m` are allocated where they are zero, vbo
        before vao; every other handle stays as it was. */
    method AllocateHandles(gpu: Gpu, m: RenderMethod)
      requires Valid() && gpu.Valid() && gpu !in Repr && HasGeometry() && |vertices| <= |colors|
      modifies this`vbo, this`vao, this`dispList, gpu`nextHandle, gpu`live, gpu`bufferData, gpu`vaoBuffer
      ensures Valid() && gpu.Valid() && HandlesReady(m)
      ensures HandlesStepped(this, m, gpu)
      ensures old(HandlesReady(m)) ==> gpu.nextHandle == old(gpu.nextHandle)
    {
      if m == RenderVao {
        EnsureVbo(gpu);
        EnsureVao(gpu);
      } else if m == RenderVbo {
        EnsureVbo(gpu);
      } else {
        EnsureDispList(gpu);
      }
      OwnFieldsOnly();
    }

    /** The `vbo == 0` guard of createVBO's callers: a buffer is made only
        when none exists, and then holds this node's interleaved data. */
    method EnsureVbo(gpu: Gpu)
      requires gpu.Valid() && |vertices| <= |normals| && |vertices| <= |colors|
      modifies this`vbo, gpu`nextHandle, gpu`live, gpu`bufferData
      ensures gpu.Valid() && vbo != 0 && KeptOrFresh(old(vbo), vbo, gpu) && Grown(gpu)
      ensures gpu.vaoBuffer == old(gpu.vaoBuffer)
      ensures vbo != old(vbo) ==> vbo in gpu.bufferData && gpu.bufferData[vbo] == Interleave(vertices, normals, colors)
      ensures old(vbo) != 0 ==> gpu.nextHandle == old(gpu.nextHandle)
    {
      if vbo == 0 {
        vbo := CreateVbo(gpu, vertices, normals, colors);
      }
    }

    /** The `vao == 0` guard: a vertex array is made only when none exists,
        and then reads this node's buffer. */
    method EnsureVao(gpu: Gpu)
      requires gpu.Valid()
      modifies this`vao, gpu`nextHandle, gpu`live, gpu`vaoBuffer
      ensures gpu.Valid() && vao != 0 && KeptOrFresh(old(vao), vao, gpu) && Grown(gpu)
      ensures gpu.bufferData == old(gpu.bufferData)
      ensures vao != old(vao) ==> vao in gpu.vaoBuffer && gpu.vaoBuffer[vao] == vbo
      ensures old(vao) != 0 ==> gpu.nextHandle == old(gpu.nextHandle)
    {
      if vao == 0 {
        vao := CreateVao(gpu, vbo);
      }
    }

    /** The `dispList == 0` guard: a display list is compiled only when none exists. */
    method EnsureDispList(gpu: Gpu)
      requires gpu.Valid()
      modifies this`dispList, gpu`nextHandle, gpu`live
      ensures gpu.Valid() && dispList != 0 && KeptOrFresh(old(dispList), dispList, gpu) && Grown(gpu)
      ensures old(dispList) != 0 ==> gpu.nextHandle == old(gpu.nextHandle)
    {
      if dispList == 0 {
        dispList := CreateDispList(gpu);
      }
    }

    /** The first half of buildGraphicsResources: default normals when the
        normals do not match the vertices, and the object colour repeated
        per vertex when the colours do not. */
    method FillDefaults()
      requires Valid()
      modifies this`normals, this`colors
      ensures Valid()
      ensures colors == (if |old(colors)| == |vertices| then old(colors) else Repeat(color, |vertices|))
      ensures normals == (if |old(normals)| == |vertices| then old(normals) else DefaultNormals(|vertices|))
    {
      var hasNormals := |normals| == |vertices|;
      var hasPerVertexColors := |colors| == |vertices|;
      if !hasNormals {
        CreateDefaultNormal();
      }
      if !hasPerVertexColors {
        colors := Repeat(color, |vertices|);
      }
    }

    /** buildGraphicsResources with rendering strategy `m`. */
    method BuildGraphicsResources(gpu: Gpu, m: RenderMethod)
      requires Valid() && gpu.Valid() && gpu !in Repr
      modifies Repr - {this}, this`normals, this`colors, this`vbo, this`vao, this`dispList
      modifies gpu`nextHandle, gpu`live, gpu`bufferData, gpu`vaoBuffer
      decreases Repr, 3
      ensures Valid() && gpu.Valid() && Prepared(m)
      ensures colors == (if |old(colors)| == |vertices| then old(colors) else Repeat(color, |vertices|))
      ensures normals == (if |old(normals)| == |vertices| then old(normals) else DefaultNormals(|vertices|))
      ensures !HasGeometry() ==>
        unchanged(gpu) && unchanged(Repr - {this}) && vbo == old(vbo) && vao == old(vao) && dispList == old(dispList)
      ensures Grown(gpu)
      ensures old(Prepared(m)) ==> gpu.nextHandle == old(gpu.nextHandle)
      ensures FilledIn(this, m, gpu) && OnlyFilledIn(old(Repr), this, m, gpu)
    {
      ghost var wasPrepared := Prepared(m);
      ghost var before := State();
      FillDefaults();
      assert DefaultsFilled(before, State());
      if |vertices| == 0 || |normals| != |vertices| {
        FilledNothing(State(), old(gpu.nextHandle), gpu.Snapshot(), m);
        FilledAfterDefaults(before, State(), State(), old(gpu.nextHandle), gpu.Snapshot(), m);
        forall o: RenderObject | o in old(Repr) && o != this
          ensures FilledIn(o, m, gpu)
        {
          FilledNothing(o.State(), old(gpu.nextHandle), gpu.Snapshot(), m);
        }
        return;
      }
      label Filled:
      BuildWithGeometry(gpu, m, wasPrepared, before);
      forall o: RenderObject | o in old(Repr) && o != this
        ensures FilledIn(o, m, gpu)
      {
        assert FilledIn@Filled(o, m, gpu);
      }
    }

    /** The part of buildGraphicsResources past the early return: this
        node's handles, then its children. */
    method BuildWithGeometry(gpu: Gpu, m: RenderMethod, ghost wasPrepared: bool, ghost before: NodeState)
      requires Valid() && gpu.Valid() && gpu !in Repr && HasGeometry() && |colors| == |vertices|
      requires DefaultsFilled(before, State())
      requires wasPrepared ==> HandlesReady(m)
      requires wasPrepared ==> forall i | 0 <= i < |children| && children[i] != null :: children[i].Prepared(m)
      modifies Repr - {this}, this`vbo, this`vao, this`dispList
      modifies gpu`nextHandle, gpu`live, gpu`bufferData, gpu`vaoBuffer
      decreases Repr, 2
      ensures Valid() && gpu.Valid() && HandlesReady(m)
      ensures forall i | 0 <= i < |children| && children[i] != null :: children[i].Prepared(m)
      ensures Grown(gpu)
      ensures wasPrepared ==> gpu.nextHandle == old(gpu.nextHandle)
      ensures Filled(before, State(), old(gpu.nextHandle), gpu.Snapshot(), m)
      ensures OnlyFilledIn(old(Repr), this, m, gpu)
    {
      AllocateHandles(gpu, m);
      assert Filled(old(State()), State(), old(gpu.nextHandle), gpu.Snapshot(), m);
      label Allocated:
      BuildChildren(gpu, m, wasPrepared);
      FilledGrows(old(State()), State(), old(gpu.nextHandle), old@Allocated(gpu.Snapshot()), gpu.Snapshot(), m);
      FilledAfterDefaults(before, old(State()), State(), old(gpu.nextHandle), gpu.Snapshot(), m);
      forall o: RenderObject | o in old(Repr) && o != this
        ensures FilledIn(o, m, gpu)
      {
        assert FilledIn@Allocated(o, m, gpu);
        FilledEarlier(old(o.State()), o.State(), old@Allocated(gpu.nextHandle), old(gpu.nextHandle), gpu.Snapshot(), m);
      }
    }

    /** The children loop of buildGraphicsResources. */
    method BuildChildren(gpu: Gpu, m: RenderMethod, ghost wasPrepared: bool)
      requires Valid() && gpu.Valid() && gpu !in Repr
      requires wasPrepared ==> forall i | 0 <= i < |children| && children[i] != null :: children[i].Prepared(m)
      modifies Repr - {this}, gpu`nextHandle, gpu`live, gpu`bufferData, gpu`vaoBuffer
      decreases Repr, 1
      ensures Valid() && gpu.Valid()
      ensures forall i | 0 <= i < |children| && children[i] != null :: children[i].Prepared(m)
      ensures Grown(gpu)
      ensures wasPrepared ==> gpu.nextHandle == old(gpu.nextHandle)
      ensures unchanged(this) && OnlyFilledIn(old(Repr), this, m, gpu)
    {
      var i := 0;
      while i < |children|
        invariant 0 <= i <= |children|
        invariant Valid() && gpu.Valid()
        invariant forall j | 0 <= j < i && children[j] != null :: children[j].Prepared(m)
        invariant wasPrepared ==> forall j | i <= j < |children| && children[j] != null :: children[j].Prepared(m)
        invariant Grown(gpu)
        invariant wasPrepared ==> gpu.nextHandle == old(gpu.nextHandle)
        invariant unchanged(this) && OnlyFilledIn(old(Repr), this, m, gpu)
        invariant forall j | i <= j < |children| && children[j] != null ::
          forall o | o in children[j].Repr :: unchanged(o)
      {
        ghost var built := if children[i] == null then {} else children[i].Repr;
        label Head:
        BuildChild(gpu, m, i);
        forall o: RenderObject | o in old(Repr) && o != this
          ensures FilledIn(o, m, gpu)
        {
          if o in built {
            assert FilledIn@Head(o, m, gpu);
            FilledEarlier(old(o.State()), o.State(), old@Head(gpu.nextHandle), old(gpu.nextHandle), gpu.Snapshot(), m);
          } else {
            assert FilledIn@Head(o, m, gpu);
            FilledGrows(old(o.State()), o.State(), old(gpu.nextHandle), old@Head(gpu.Snapshot()), gpu.Snapshot(), m);
          }
        }
        i := i + 1;
      }
    }

    /** One step of the children loop: child `i`, unless it is null, builds
        its resources; every other child stays exactly as prepared as it was. */
    method BuildChild(gpu: Gpu, m: RenderMethod, i: nat)
      requires Valid() && gpu.Valid() && gpu !in Repr && i < |children|
      modifies Repr - {this}, gpu`nextHandle, gpu`live, gpu`bufferData, gpu`vaoBuffer
      decreases Repr, 0
      ensures Valid() && gpu.Valid()
      ensures children[i] != null ==> children[i].Prepared(m)
      ensures forall j | 0 <= j < |children| && j != i && children[j] != null ::
        children[j].Prepared(m) <==> old(children[j].Prepared(m))
      ensures Grown(gpu)
      ensures children[i] == null || old(children[i].Prepared(m)) ==> gpu.nextHandle == old(gpu.nextHandle)
      ensures forall j | 0 <= j < |children| && j != i && children[j] != null ::
        forall o | o in old(children[j].Repr) :: unchanged(o)
      ensures forall o | o in old(Repr) && (children[i] == null || o !in old(children[i].Repr)) :: unchanged(o)
      ensures unchanged(this) && OnlyFilledIn(old(Repr), this, m, gpu)
    {
      var child := children[i];
      if child != null {
        child.BuildGraphicsResources(gpu, m);
        forall j | 0 <= j < |children| && j != i && children[j] != null
          ensures children[j].Valid() && (children[j].Prepared(m) <==> old(children[j].Prepared(m)))
        {
          assert old(children[j].Repr !! children[i].Repr);
          assert forall o | o in old(children[j].Repr) :: unchanged(o);
        }
      }
      forall o: RenderObject | o in old(Repr) && o != this
        ensures FilledIn(o, m, gpu)
      {
        if child == null || o !in old(child.Repr) {
          FilledNothing(o.State(), old(gpu.nextHandle), gpu.Snapshot(), m);
        }
      }
    }

    /** A change to this node's own fields other than its children and its
        footprint, with every other object of the footprint untouched, keeps
        the tree valid. */
    twostate lemma OwnFieldsOnly()
      requires old(Valid()) && children == old(children) && Repr == old(Repr)
      requires forall o | o in old(Repr) && o != this :: unchanged(o)
      ensures Valid()
    {
      forall i | 0 <= i < |children| && children[i] != null
        ensures children[i].Valid()
      {
        assert old(this !in children[i].Repr);
        assert forall o | o in old(children[i].Repr) :: unchanged(o);
      }
    }

    /** cleanRenderResources: every nonzero handle is deleted and all three
        are zero afterwards. */
    method CleanRenderResources(gpu: Gpu)
      requires Valid() && gpu.Valid() && gpu !in Repr
      modifies this`vao, this`vbo, this`dispList, gpu`live
      ensures Valid() && gpu.Valid() && vao == 0 && vbo == 0 && dispList == 0
      ensures gpu.live == old(gpu.live) - {old(vao), old(vbo), old(dispList)}
      ensures old(vao) == 0 && old(vbo) == 0 && old(dispList) == 0 ==> gpu.live == old(gpu.live)
    {
      if vao != 0 {
        gpu.Delete(vao);
        vao := 0;
      }
      if vbo != 0 {
        gpu.Delete(vbo);
        vbo := 0;
      }
      if dispList != 0 {
        gpu.Delete(dispList);
        dispList := 0;
      }
      OwnFieldsOnly();
    }

    /** Every handle this subtree holds. */
    ghost function Handles(): set<nat>
      reads this, Repr
      requires Valid()
      decreases Repr, |children| + 1
    {
      {vbo, vao, dispList} + ChildHandles(|children|)
    }

    /** The handles the subtrees of the first `n` children hold. */
    ghost function ChildHandles(n: nat): set<nat>
      reads this, Repr
      requires Valid() && n <= |children|
      decreases Repr, n
    {
      if n == 0 then {}
      else ChildHandles(n - 1) + (if children[n - 1] == null then {} else children[n - 1].Handles())
    }

    /** ~RenderObject: cleanRenderResources on this node, then the children
        are released in order. With each child owned by this node alone,
        every handle of the subtree is deleted. */
    method Release(gpu: Gpu)
      requires Valid() && gpu.Valid() && gpu !in Repr
      modifies Repr, gpu`live
      decreases Repr, 1
      ensures Valid() && gpu.Valid() && Repr == old(Repr) && children == old(children)
      ensures gpu.live == old(gpu.live) - old(Handles())
    {
      CleanRenderResources(gpu);
      var i := 0;
      while i < |children|
        invariant 0 <= i <= |children|
        invariant Valid() && gpu.Valid() && Repr == old(Repr) && children == old(children)
        invariant forall j | i <= j < |children| && children[j] != null ::
          forall o | o in children[j].Repr :: unchanged(o)
        invariant gpu.live == old(gpu.live) - old({vbo, vao, dispList}) - old(ChildHandles(i))
      {
        if children[i] != null {
          assert children[i].Handles() == old(children[i].Handles());
        }
        ReleaseChild(gpu, i);
        i := i + 1;
      }
    }

    /** One step of the destructor's release of the children: child `i`,
        unless it is null, releases its subtree; every other child's subtree
        is untouched. */
    method ReleaseChild(gpu: Gpu, i: nat)
      requires Valid() && gpu.Valid() && gpu !in Repr && i < |children|
      modifies Repr - {this}, gpu`live
      decreases Repr, 0
      ensures Valid() && gpu.Valid()
      ensures gpu.live == old(gpu.live) - (if children[i] == null then {} else old(children[i].Handles()))
      ensures forall j | 0 <= j < |children| && j != i && children[j] != null ::
        forall o | o in children[j].Repr :: unchanged(o)
    {
      var child := children[i];
      if child != null {
        child.Release(gpu);
        forall j | 0 <= j < |children| && children[j] != null
          ensures children[j].Valid()
        {
          if j != i {
            assert children[j].Repr !! child.Repr;
            assert forall o | o in children[j].Repr :: unchanged(o);
          }
        }
      }
    }

    // -------------------------------------------------------------------
    // Traversals
    // -------------------------------------------------------------------

    /** What Render draws for this node itself under strategy `m`:
        RenderWithVAO and RenderWithVBO skip a zero handle, immediate mode
        (and any other strategy) calls the display list whatever it is. */
    function OwnDisplay(m: RenderMethod): seq<DrawCall>
      reads this
    {
      match m
      case RenderVao => if vao == 0 then [] else [DrawFromVao(vao, |vertices|)]
      case RenderVbo => if vbo == 0 then [] else [DrawFromVbo(vbo, |vertices|)]
      case _ => [CallList(dispList)]
    }

    /** What RenderSelection draws for this node itself: nothing without
        vertices or without an ID; with the VAO strategy only the colour
        uniforms, and only when the node has a vertex array; otherwise its
        triangles in the colour that encodes its ID. */
    function OwnSelection(m: RenderMethod): seq<DrawCall>
      reads this
    {
      if |vertices| == 0 || objectID == 0 then []
      else if m == RenderVao then
        (if vao > 0 then [SelectionUniforms(SelectionBuffers.ObjectIDToColor(objectID))] else [])
      else [SelectionTriangles(SelectionBuffers.ObjectIDToColor(objectID), vertices)]
    }

    function Own(pass: Pass, m: RenderMethod): seq<DrawCall>
      reads this
    {
      match pass
      case Display => OwnDisplay(m)
      case Selection => OwnSelection(m)
    }

    /** The calls one pass issues for this subtree: the node's translation
        pushed, its own part, its children in order, and the matrix popped. */
    function Trace(pass: Pass, m: RenderMethod): seq<DrawCall>
      reads this, Repr
      requires Valid()
      decreases Repr, 2, 0
    {
      [PushMatrix, Translate(position)] + Own(pass, m) + ChildTraces(pass, m, |children|) + [PopMatrix]
    }

    /** The calls of child `i`: nothing for a null pointer. */
    function ChildTrace(pass: Pass, m: RenderMethod, i: nat): seq<DrawCall>
      reads this, Repr
      requires Valid() && i < |children|
      decreases Repr, 0, 0
    {
      if children[i] == null then [] else children[i].Trace(pass, m)
    }

    /** The calls of the first `n` children, one after the other. */
    function ChildTraces(pass: Pass, m: RenderMethod, n: nat): seq<DrawCall>
      reads this, Repr
      requires Valid() && n <= |children|
      decreases Repr, 1, n
    {
      if n == 0 then [] else ChildTraces(pass, m, n - 1) + ChildTrace(pass, m, n - 1)
    }

    lemma TraceChildFacts(pass: Pass, m: RenderMethod, i: nat)
      requires Valid() && i < |children|
      ensures ChildTraces(pass, m, i + 1) == ChildTraces(pass, m, i) + ChildTrace(pass, m, i)
      ensures children[i] == null ==> ChildTrace(pass, m, i) == []
      ensures children[i] != null ==>
        children[i].Valid() && children[i].Repr < Repr && ChildTrace(pass, m, i) == children[i].Trace(pass, m)
    {
    }

    /** Render with strategy `m`. */
    method Render(m: RenderMethod) returns (calls: seq<DrawCall>)
      requires Valid()
      decreases Repr
      ensures calls == Trace(Display, m)
    {
      calls := [PushMatrix, Translate(position)];
      match m {
        case RenderVao =>
          if vao != 0 {
            calls := calls + [DrawFromVao(vao, |vertices|)];
          }
        case RenderVbo =>
          if vbo != 0 {
            calls := calls + [DrawFromVbo(vbo, |vertices|)];
          }
        case _ =>
          calls := calls + [CallList(dispList)];
      }
      calls := RenderChildren(Display, m, calls);
    }

    /** RenderSelection with strategy `m`. */
    method RenderSelection(m: RenderMethod) returns (calls: seq<DrawCall>)
      requires Valid()
      decreases Repr
      ensures calls == Trace(Selection, m)
    {
      calls := [PushMatrix, Translate(position)];
      if |vertices| == 0 {
        calls := RenderChildren(Selection, m, calls);
        return;
      }
      if objectID > 0 {
        var selectionColor := SelectionBuffers.ObjectIDToColor(objectID);
        if m == RenderVao {
          if vao > 0 {
            calls := calls + [SelectionUniforms(selectionColor)];
          }
        } else {
          calls := calls + [SelectionTriangles(selectionColor, vertices)];
        }
      }
      calls := RenderChildren(Selection, m, calls);
    }

    /** The pass over child `i`, if it is not null. */
    method RenderChild(pass: Pass, m: RenderMethod, i: nat) returns (part: seq<DrawCall>)
      requires Valid() && i < |children|
      decreases Repr, 0
      ensures part == ChildTrace(pass, m, i)
      ensures ChildTraces(pass, m, i + 1) == ChildTraces(pass, m, i) + part
    {
      var child := children[i];
      TraceChildFacts(pass, m, i);
      part := [];
      if child != null {
        match pass {
          case Display => part := child.Render(m);
          case Selection => part := child.RenderSelection(m);
        }
      }
    }

    /** The children loop shared by both passes, then the final pop. */
    method RenderChildren(pass: Pass, m: RenderMethod, head: seq<DrawCall>) returns (calls: seq<DrawCall>)
      requires Valid()
      decreases Repr, 1
      ensures calls == head + ChildTraces(pass, m, |children|) + [PopMatrix]
    {
      var kids: seq<DrawCall> := [];
      var i := 0;
      while i < |children|
        invariant 0 <= i <= |children|
        invariant kids == ChildTraces(pass, m, i)
      {
        var part := RenderChild(pass, m, i);
        kids := kids + part;
        i := i + 1;
      }
      calls := head + kids + [PopMatrix];
    }

    /** The IDs of every node of the subtree. */
    ghost function Ids(): set<uint32>
      reads this, Repr
      requires Valid()
      decreases Repr, 2, 0
    {
      {objectID} + ChildIds(|children|)
    }

    ghost function ChildIds(n: nat): set<uint32>
      reads this, Repr
      requires Valid() && n <= |children|
      decreases Repr, 1, n
    {
      if n == 0 then {}
      else ChildIds(n - 1) + (if children[n - 1] == null then {} else children[n - 1].Ids())
    }

    /** Both passes push and pop the matrix stack in matching pairs. */
    lemma {:induction false} TraceBalanced(pass: Pass, m: RenderMethod)
      requires Valid()
      ensures Balanced(Trace(pass, m))
      decreases Repr, 2, 0
    {
      ChildTracesBalanced(pass, m, |children|);
      OwnFlat(pass, m);
      NodeBalanced(Translate(position), Own(pass, m), ChildTraces(pass, m, |children|));
    }

    /** A node's own calls never touch the matrix stack. */
    lemma OwnFlat(pass: Pass, m: RenderMethod)
      ensures Flat([Translate(position)] + Own(pass, m))
    {
    }

    lemma {:induction false} ChildTracesBalanced(pass: Pass, m: RenderMethod, n: nat)
      requires Valid() && n <= |children|
      ensures Balanced(ChildTraces(pass, m, n))
      decreases Repr, 1, n
    {
      if n == 0 {
        assert ChildTraces(pass, m, 0) == [];
        BalancedEmpty();
      } else {
        ChildTracesBalanced(pass, m, n - 1);
        if children[n - 1] == null {
          assert ChildTraces(pass, m, n) == ChildTraces(pass, m, n - 1);
        } else {
          children[n - 1].TraceBalanced(pass, m);
          BalancedConcat(ChildTraces(pass, m, n - 1), ChildTrace(pass, m, n - 1));
        }
      }
    }

    /** With the VAO strategy the selection pass submits no geometry at all:
        no draw, no display list and no triangles, only colour uniforms. */
    lemma {:induction false} VaoSelectionDrawsNothing()
      requires Valid()
      ensures NoGeometry(Trace(Selection, RenderVao))
      decreases Repr, 2, 0
    {
      VaoChildSelectionsDrawNothing(|children|);
    }

    lemma {:induction false} VaoChildSelectionsDrawNothing(n: nat)
      requires Valid() && n <= |children|
      ensures NoGeometry(ChildTraces(Selection, RenderVao, n))
      decreases Repr, 1, n
    {
      if n > 0 {
        VaoChildSelectionsDrawNothing(n - 1);
        if children[n - 1] != null {
          children[n - 1].VaoSelectionDrawsNothing();
        }
      }
    }

    /** When every ID fits in 24 bits, each colour the selection pass draws
        is not the black the buffer is cleared to, and decodes to the ID of
        a node of the subtree: reading it back names the node. */
    lemma {:induction false} SelectionColorsPick(m: RenderMethod)
      requires Valid() && forall id | id in Ids() :: id < 0x100_0000
      ensures PicksFrom(Trace(Selection, m), Ids())
      decreases Repr, 2, 0
    {
      var own := OwnSelection(m);
      if own != [] {
        SelectionBuffers.IdColorRoundTrip(objectID);
        assert own[0].color == SelectionBuffers.ObjectIDToColor(objectID);
      }
      assert PicksFrom([PushMatrix, Translate(position)] + own, Ids());
      var kids := ChildTraces(Selection, m, |children|);
      ChildSelectionColorsPick(m, |children|);
      PicksFromWider(kids, ChildIds(|children|), Ids());
      PicksFromConcat([PushMatrix, Translate(position)] + own, kids, Ids());
      PicksFromConcat([PushMatrix, Translate(position)] + own + kids, [PopMatrix], Ids());
    }

    lemma {:induction false} ChildSelectionColorsPick(m: RenderMethod, n: nat)
      requires Valid() && n <= |children| && forall id | id in ChildIds(n) :: id < 0x100_0000
      ensures PicksFrom(ChildTraces(Selection, m, n), ChildIds(n))
      decreases Repr, 1, n
    {
      if n > 0 {
        assert ChildIds(n - 1) <= ChildIds(n);
        ChildSelectionColorsPick(m, n - 1);
        PicksFromWider(ChildTraces(Selection, m, n - 1), ChildIds(n - 1), ChildIds(n));
        if children[n - 1] != null {
          var child := children[n - 1];
          assert child.Ids() <= ChildIds(n);
          child.SelectionColorsPick(m);
          PicksFromWider(child.Trace(Selection, m), child.Ids(), ChildIds(n));
          PicksFromConcat(ChildTraces(Selection, m, n - 1), child.Trace(Selection, m), ChildIds(n));
        }
      }
    }

    /** Each non-null child's calls appear, contiguous, inside its parent's. */
    lemma ChildTraceInside(pass: Pass, m: RenderMethod, i: nat)
      requires Valid() && i < |children| && children[i] != null
      ensures exists before, after :: Trace(pass, m) == before + children[i].Trace(pass, m) + after
    {
      var front, back := ChildTracesSplit(pass, m, |children|, i);
      var before := [PushMatrix, Translate(position)] + Own(pass, m) + front;
      var after := back + [PopMatrix];
      assert Trace(pass, m) == before + children[i].Trace(pass, m) + after;
    }

    lemma {:induction false} ChildTracesSplit(pass: Pass, m: RenderMethod, n: nat, i: nat) returns (front: seq<DrawCall>, back: seq<DrawCall>)
      requires Valid() && i < n <= |children|
      ensures ChildTraces(pass, m, n) == front + ChildTrace(pass, m, i) + back
      decreases n
    {
      if i == n - 1 {
        front, back := ChildTraces(pass, m, n - 1), [];
      } else {
        front, back := ChildTracesSplit(pass, m, n - 1, i);
        back := back + ChildTrace(pass, m, n - 1);
      }
    }
  }


  /** The change a call makes to the depth of the matrix stack. */
  function StackStep(c: DrawCall): int
  {
    if c.PushMatrix? then 1 else if c.PopMatrix? then -1 else 0
  }

  /** Pushes minus pops. */
  function Depth(s: seq<DrawCall>): int
  {
    if |s| == 0 then 0 else StackStep(s[0]) + Depth(s[1..])
  }

  /** Every pop has a push before it, and the stack ends where it began. */
  predicate Balanced(s: seq<DrawCall>)
  {
    Depth(s) == 0 && forall k | 0 <= k <= |s| :: Depth(s[..k]) >= 0
  }

  /** No call touches the matrix stack. */
  predicate Flat(s: seq<DrawCall>)
  {
    forall k | 0 <= k < |s| :: StackStep(s[k]) == 0
  }

  /** No call draws anything: no vertex array, buffer, display list or triangles. */
  predicate NoGeometry(s: seq<DrawCall>)
  {
    forall k | 0 <= k < |s| ::
      !s[k].DrawFromVao? && !s[k].DrawFromVbo? && !s[k].CallList? && !s[k].SelectionTriangles?
  }

  /** Every selection colour is non-black and decodes to one of `ids`. */
  predicate PicksFrom(s: seq<DrawCall>, ids: set<uint32>)
  {
    forall k | 0 <= k < |s| && (s[k].SelectionUniforms? || s[k].SelectionTriangles?) ::
      s[k].color != Rgb(0, 0, 0) && SelectionBuffers.ColorToObjectID(s[k].color) in ids
  }

  lemma PicksFromConcat(a: seq<DrawCall>, b: seq<DrawCall>, ids: set<uint32>)
    requires PicksFrom(a, ids) && PicksFrom(b, ids)
    ensures PicksFrom(a + b, ids)
  {
    forall k | 0 <= k < |a + b| && ((a + b)[k].SelectionUniforms? || (a + b)[k].SelectionTriangles?)
      ensures (a + b)[k].color != Rgb(0, 0, 0) && SelectionBuffers.ColorToObjectID((a + b)[k].color) in ids
    {
      if k >= |a| {
        assert (a + b)[k] == b[k - |a|];
      }
    }
  }

  lemma PicksFromWider(s: seq<DrawCall>, ids: set<uint32>, wider: set<uint32>)
    requires PicksFrom(s, ids) && ids <= wider
    ensures PicksFrom(s, wider)
  {
  }

  lemma {:induction false} DepthConcat(a: seq<DrawCall>, b: seq<DrawCall>)
    ensures Depth(a + b) == Depth(a) + Depth(b)
    decreases |a|
  {
    if |a| > 0 {
      assert (a + b)[1..] == a[1..] + b;
      DepthConcat(a[1..], b);
    } else {
      assert a + b == b;
    }
  }

  lemma BalancedEmpty()
    ensures Balanced([])
  {
    var e: seq<DrawCall> := [];
    assert e[..0] == e;
  }

  lemma {:induction false} FlatDepth(s: seq<DrawCall>)
    requires Flat(s)
    ensures Depth(s) == 0
    decreases |s|
  {
    if |s| > 0 {
      assert StackStep(s[0]) == 0;
      FlatDepth(s[1..]);
    }
  }

  lemma FlatBalanced(s: seq<DrawCall>)
    requires Flat(s)
    ensures Balanced(s)
  {
    FlatDepth(s);
    forall k | 0 <= k <= |s|
      ensures Depth(s[..k]) >= 0
    {
      FlatDepth(s[..k]);
    }
  }

  lemma BalancedConcat(a: seq<DrawCall>, b: seq<DrawCall>)
    requires Balanced(a) && Balanced(b)
    ensures Balanced(a + b)
  {
    DepthConcat(a, b);
    forall k | 0 <= k <= |a + b|
      ensures Depth((a + b)[..k]) >= 0
    {
      if k <= |a| {
        assert (a + b)[..k] == a[..k];
      } else {
        assert (a + b)[..k] == a + b[..k - |a|];
        DepthConcat(a, b[..k - |a|]);
      }
    }
  }

  /** The shape of one node's trace: a push, flat calls of its own, balanced
      calls of its children and a pop. */
  lemma NodeBalanced(t: DrawCall, own: seq<DrawCall>, kids: seq<DrawCall>)
    requires Flat([t] + own) && Balanced(kids)
    ensures Balanced([PushMatrix, t] + own + kids + [PopMatrix])
  {
    FlatBalanced([t] + own);
    BalancedConcat([t] + own, kids);
    BalancedWrap([t] + own + kids);
    assert [PushMatrix, t] + own + kids + [PopMatrix] == [PushMatrix] + ([t] + own + kids) + [PopMatrix];
  }

  lemma BalancedWrap(s: seq<DrawCall>)
    requires Balanced(s)
    ensures Balanced([PushMatrix] + s + [PopMatrix])
  {
    var w := [PushMatrix] + s + [PopMatrix];
    DepthConcat([PushMatrix] + s, [PopMatrix]);
    DepthConcat([PushMatrix], s);
    forall k | 0 <= k <= |w|
      ensures Depth(w[..k]) >= 0
    {
      if k == 0 {
      } else if k <= |s| + 1 {
        assert w[..k] == [PushMatrix] + s[..k - 1];
        DepthConcat([PushMatrix], s[..k - 1]);
      } else {
        assert w[..k] == w;
      }
    }
  }

  /** `count` copies of `c`: what `assign(count, c)` leaves in a vector. */
  function Repeat(c: PointDouble3D, count: nat): (r: seq<PointDouble3D>)
    ensures |r| == count && forall k | 0 <= k < count :: r[k] == c
  {
    seq(count, _ => c)
  }

  /** What preparing one node may do to its handles (Issued), with the
      driver only growing. */
  twostate predicate HandlesStepped(node: RenderObject, m: RenderMethod, gpu: Gpu)
    reads node, gpu
  {
    Issued(old(node.vbo), old(node.vao), old(node.dispList), node.State(), old(gpu.nextHandle), gpu.Snapshot(), m) &&
    Grown(gpu)
  }


  /** The handle is unchanged, or it was zero and is now a live handle
      issued since the driver's counter stood at `issued`. */
  predicate FreshIn(before: nat, after: nat, issued: nat, d: Driver)
  {
    after == before || (before == 0 && issued <= after < d.nextHandle && after in d.live)
  }

  /** The handles of a node, which were `vbo0`, `vao0` and `dispList0` when
      the driver's counter stood at `issued`, as they are in state `a` with
      the driver at `d`: each is kept, or was zero and is now a live handle
      issued since; only the handles of strategy `m` differ; only a node with
      geometry holds new handles; a new vertex buffer holds the node's
      interleaved data and a new vertex array reads its buffer. */
  predicate Issued(vbo0: nat, vao0: nat, dispList0: nat, a: NodeState, issued: nat, d: Driver, m: RenderMethod)
  {
    FreshIn(vbo0, a.vbo, issued, d) && FreshIn(vao0, a.vao, issued, d) &&
    FreshIn(dispList0, a.dispList, issued, d) &&
    (m != RenderVao && m != RenderVbo ==> a.vbo == vbo0 && a.vao == vao0) &&
    (m == RenderVao || m == RenderVbo ==> a.dispList == dispList0) &&
    (m == RenderVbo ==> a.vao == vao0) &&
    (a.vbo != vbo0 || a.vao != vao0 || a.dispList != dispList0 ==>
       |a.vertices| > 0 && |a.normals| == |a.vertices|) &&
    (a.vbo != vbo0 ==>
       |a.vertices| <= |a.colors| &&
       a.vbo in d.bufferData && d.bufferData[a.vbo] == Interleave(a.vertices, a.normals, a.colors)) &&
    (a.vao != vao0 ==> a.vao in d.vaoBuffer && d.vaoBuffer[a.vao] == a.vbo)
  }

  /** What buildGraphicsResources with strategy `m` may do to one node, from
      state `b` to state `a`: fill in default normals and colours where they
      did not match the vertices, and issue the strategy's handles where they
      were zero (Issued); everything else is kept. */
  predicate Filled(b: NodeState, a: NodeState, issued: nat, d: Driver, m: RenderMethod)
  {
    a.name == b.name && a.shape == b.shape && a.vertices == b.vertices && a.texCoords == b.texCoords &&
    a.color == b.color && a.position == b.position && a.objectID == b.objectID &&
    a.children == b.children && a.footprint == b.footprint &&
    (a.normals == b.normals || (|b.normals| != |a.vertices| && a.normals == DefaultNormals(|a.vertices|))) &&
    (a.colors == b.colors || (|b.colors| != |a.vertices| && a.colors == Repeat(a.color, |a.vertices|))) &&
    Issued(b.vbo, b.vao, b.dispList, a, issued, d, m)
  }

  /** Doing nothing to a node is a fill-in. */
  lemma FilledNothing(s: NodeState, issued: nat, d: Driver, m: RenderMethod)
    ensures Filled(s, s, issued, d, m)
  {
  }

  /** A fill-in stays one while the driver only grows. */
  lemma FilledGrows(b: NodeState, a: NodeState, issued: nat, d: Driver, d': Driver, m: RenderMethod)
    requires Filled(b, a, issued, d, m) && Grows(d, d')
    ensures Filled(b, a, issued, d', m)
  {
  }

  /** Handles issued since some count were issued since any smaller count. */
  lemma FilledEarlier(b: NodeState, a: NodeState, issued: nat, earlier: nat, d: Driver, m: RenderMethod)
    requires Filled(b, a, issued, d, m) && earlier <= issued
    ensures Filled(b, a, earlier, d, m)
  {
  }

  /** State `f` is state `b` after fillDefaults. */
  predicate DefaultsFilled(b: NodeState, f: NodeState)
  {
    f == b.(normals := f.normals, colors := f.colors) &&
    f.normals == (if |b.normals| == |b.vertices| then b.normals else DefaultNormals(|b.vertices|)) &&
    f.colors == (if |b.colors| == |b.vertices| then b.colors else Repeat(b.color, |b.vertices|))
  }

  /** FillDefaults followed by a fill-in is a fill-in. */
  lemma FilledAfterDefaults(b: NodeState, f: NodeState, a: NodeState, issued: nat, d: Driver, m: RenderMethod)
    requires DefaultsFilled(b, f) && Filled(f, a, issued, d, m)
    ensures Filled(b, a, issued, d, m)
  {
  }

  /** What buildGraphicsResources with strategy `m` may do to a node of the
      tree it walks (Filled), from the old state to the current one. */
  twostate predicate FilledIn(o: RenderObject, m: RenderMethod, gpu: Gpu)
    reads o, gpu
  {
    Filled(old(o.State()), o.State(), old(gpu.nextHandle), gpu.Snapshot(), m)
  }

  /** Every node of `nodes` other than `root` was at most filled in. */
  twostate predicate OnlyFilledIn(nodes: set<object>, root: object, m: RenderMethod, gpu: Gpu)
    reads nodes, gpu
  {
    forall o: RenderObject | o in nodes && o != root :: FilledIn(o, m, gpu)
  }

  /** The handle is unchanged, or it was zero and is now a live handle
      issued since the old state. */
  twostate predicate KeptOrFresh(before: nat, after: nat, gpu: Gpu)
    reads gpu
  {
    after == before || (before == 0 && old(gpu.nextHandle) <= after < gpu.nextHandle && after in gpu.live)
  }

  /** Since the old state the driver only issued handles: the counter grew,
      every live handle is old or newly issued, and no upload or attachment
      was overwritten. */
  twostate predicate Grown(gpu: Gpu)
    reads gpu
  {
    old(gpu.nextHandle) <= gpu.nextHandle && old(gpu.live) <= gpu.live &&
    (forall h | h in gpu.live :: h in old(gpu.live) || old(gpu.nextHandle) <= h) &&
    Extends(old(gpu.bufferData), gpu.bufferData) && Extends(old(gpu.vaoBuffer), gpu.vaoBuffer)
  }
}
