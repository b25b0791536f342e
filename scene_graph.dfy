/** The scene root: the viewport size, the one root node, the frame it draws
    and the fixed scene it builds. */
module SceneGraphs {
  import opened Point3D
  import opened Gl
  import opened Wrappers
  import opened RenderMethods
  import opened Spheres
  import opened RenderObjects

  /** The larger of two reals. */
  function Max(a: real, b: real): real
  {
    if a < b then b else a
  }

  /** The depth half-range render uses: 1.5 times the largest extent of the
      root's box. A root that finds no volume leaves min and max at their
      default (0, 0, 0), so the range is 0. */
  function DepthRange(v: Option<Box>): (d: real)
    ensures v.Some? ==>
      d >= 1.5 * (v.value.hi.x - v.value.lo.x) && d >= 1.5 * (v.value.hi.y - v.value.lo.y) &&
      d >= 1.5 * (v.value.hi.z - v.value.lo.z)
    ensures v.Some? ==>
      d == 1.5 * (v.value.hi.x - v.value.lo.x) || d == 1.5 * (v.value.hi.y - v.value.lo.y) ||
      d == 1.5 * (v.value.hi.z - v.value.lo.z)
    ensures v.None? ==> d == 0.0
  {
    var b := if v.Some? then v.value else Box(Origin(), Origin());
    1.5 * Max(Max(b.hi.x - b.lo.x, b.hi.y - b.lo.y), b.hi.z - b.lo.z)
  }

  /** glOrtho(0, width, height, 0, -depth, depth): x runs over [0, width],
      y is inverted (top edge 0, bottom edge height), z over [-depth, depth]. */
  function Projection(width: int, height: int, depth: real): DrawCall
  {
    Ortho(0.0, width as real, height as real, 0.0, -depth, depth)
  }

  /** With a positive size the projection is the screen's: x = 0 on the left
      edge and x = width on the right, y = 0 on the top edge and y = height
      on the bottom. */
  lemma ProjectionIsScreen(width: int, height: int, depth: real)
    requires width > 0 && height > 0
    ensures var o := Projection(width, height, depth);
      OrthoAxis(o.left, o.right, 0.0) == -1.0 && OrthoAxis(o.left, o.right, width as real) == 1.0 &&
      OrthoAxis(o.bottom, o.top, 0.0) == 1.0 && OrthoAxis(o.bottom, o.top, height as real) == -1.0
  {
  }

  const Red: PointDouble3D := PointDouble3D(1.0, 0.0, 0.0)
  const Green: PointDouble3D := PointDouble3D(0.0, 1.0, 0.0)
  const Blue: PointDouble3D := PointDouble3D(0.0, 0.0, 1.0)

  /** The root triangle of the built scene. */
  const RootTriangle: seq<PointDouble3D> :=
    [PointDouble3D(0.0, 0.0, 0.0), PointDouble3D(0.0, 200.0, 0.0), PointDouble3D(200.0, 200.0, 0.0)]

  /** The box of the built scene: the sphere's cube around (100, 100, 0)
      holds the triangle, so it is the whole answer. */
  const SceneBox: Box := Box(PointDouble3D(0.0, 0.0, -100.0), PointDouble3D(200.0, 200.0, 100.0))

  /** A mesh node holding the root triangle whose one child is a sphere of
      radius 100 at (100, 100, 0) has the scene's box. */
  lemma SceneVolume(root: RenderObject, sphere: RenderObject)
    requires root.Valid() && root.shape == Mesh && root.vertices == RootTriangle && root.children == [sphere]
    requires sphere.shape.SphereShape? && sphere.shape.radius == 100.0
    requires sphere.position == PointDouble3D(100.0, 100.0, 0.0)
    ensures root.Volume() == Some(SceneBox)
  {
    assert root.ChildBoxes(1) == [root.ChildBox(0)];
    assert root.ChildBox(0) == Some(SceneBox);
    var vs := RootTriangle;
    assert vs[..2][..1] == vs[..1];
    assert VerticesBox(vs[..1]) == PointBox(vs[0]);
    assert VerticesBox(vs[..2]) == Union(PointBox(vs[0]), PointBox(vs[1]));
    assert VerticesBox(vs) == Box(PointDouble3D(0.0, 0.0, 0.0), PointDouble3D(200.0, 200.0, 0.0));
    assert root.OwnBox() == Some(VerticesBox(vs));
    var bs := root.ChildBoxes(1);
    assert bs[..0] == [];
    assert Fold(root.OwnBox(), bs) == Merge(root.OwnBox(), bs[0]);
  }

  /** The scene's depth half-range is 300. */
  lemma SceneDepth()
    ensures DepthRange(Some(SceneBox)) == 300.0
  {
  }

  /** The root node of buildScene before its child is added. */
  method NewRoot() returns (r: RenderObject)
    ensures fresh(r) && r.Valid() && r.Repr == {r} && r.children == []
    ensures r.name == "RootObject" && r.shape == Mesh && r.position == Origin()
    ensures r.vertices == RootTriangle && r.colors == [Red, Green, Blue]
  {
    r := new RenderObject("RootObject");
    r.SetVertices(RootTriangle);
    r.SetColors([Red, Green, Blue]);
  }

  /** The sphere of buildScene: radius 100, 32 slices, 16 stacks, fallback
      colour (0.8, 0.2, 0.2), moved to (100, 100, 0). */
  method NewSphere(trig: Trig) returns (sphere: RenderObject)
    ensures fresh(sphere) && sphere.Valid() && sphere.Repr == {sphere} && sphere.children == []
    ensures sphere.name == "unit_sphere" && sphere.shape == SphereShape(100.0, 32, 16)
    ensures sphere.color == PointDouble3D(0.8, 0.2, 0.2) && sphere.position == PointDouble3D(100.0, 100.0, 0.0)
    ensures |sphere.vertices| == |sphere.normals| == |sphere.colors| == 3072
    ensures forall k | 0 <= k < |sphere.vertices| ::
      sphere.vertices[k] == Add(Scale(sphere.normals[k], 100.0), PointDouble3D(100.0, 100.0, 0.0))
    ensures forall k | 0 <= k < |sphere.colors| :: sphere.colors[k] == SphereColor
  {
    sphere := new RenderObject.Sphere("unit_sphere", 100.0, 32, 16, trig);
    sphere.SetColor(PointDouble3D(0.8, 0.2, 0.2));
    sphere.SetPosition(PointDouble3D(100.0, 100.0, 0.0));
  }

  /** The scene buildScene makes, field by field: the root triangle with
      its three colours and no offset, whose only child is the sphere. */
  ghost predicate BuiltScene(root: RenderObject, sphere: RenderObject)
    reads root, sphere
  {
    root.name == "RootObject" && root.shape == Mesh && root.position == Origin() &&
    root.vertices == RootTriangle && root.colors == [Red, Green, Blue] && root.children == [sphere] &&
    sphere.name == "unit_sphere" && sphere.shape == SphereShape(100.0, 32, 16) &&
    sphere.color == PointDouble3D(0.8, 0.2, 0.2) && sphere.position == PointDouble3D(100.0, 100.0, 0.0) &&
    sphere.children == [] &&
    |sphere.vertices| == |sphere.normals| == |sphere.colors| == 3072 &&
    (forall k | 0 <= k < |sphere.vertices| ::
       sphere.vertices[k] == Add(Scale(sphere.normals[k], 100.0), PointDouble3D(100.0, 100.0, 0.0))) &&
    (forall k | 0 <= k < |sphere.colors| :: sphere.colors[k] == SphereColor)
  }

  /** The body of buildScene: the root, the sphere, and the sphere added
      as the root's child. */
  method NewScene(trig: Trig) returns (root: RenderObject, sphere: RenderObject)
    ensures fresh(root) && fresh(sphere) && root.Valid() && root.Repr == {root, sphere}
    ensures BuiltScene(root, sphere)
    ensures root.Volume() == Some(SceneBox) && DepthRange(root.Volume()) == 300.0
  {
    root := NewRoot();
    sphere := NewSphere(trig);
    root.AddChild(sphere);
    SceneVolume(root, sphere);
    SceneDepth();
  }

  class SceneGraph {
    var root: RenderObject?
    var width: int
    var height: int
    ghost var Repr: set<object>

    ghost predicate Valid()
      reads this, Repr
    {
      this in Repr &&
      (root != null ==> root in Repr && root.Repr <= Repr && this !in root.Repr && root.Valid())
    }

    /** No root and a 0 x 0 viewport. */
    constructor ()
      ensures Valid() && root == null && width == 0 && height == 0
    {
      root := null;
      width, height := 0, 0;
      Repr := {this};
    }

    /** setupViewport: records the size and nothing else. */
    method SetupViewport(w: int, h: int)
      requires Valid()
      modifies this`width, this`height
      ensures Valid() && width == w && height == h
    {
      width, height := w, h;
    }

    /** What render issues: clear, then for a root the viewport, the
        projection fitted to its box and its display pass, then flush. */
    ghost function Frame(): seq<DrawCall>
      reads this, Repr
      requires Valid()
    {
      [ClearBuffers, ClearColor(0.8, 0.8, 0.8, 1.0)] +
      (if root == null then []
       else [Viewport(width, height), Projection(width, height, DepthRange(root.Volume()))] +
            root.Trace(Display, ActiveRenderMethod)) +
      [Flush]
    }

    /** render. */
    method Render() returns (calls: seq<DrawCall>)
      requires Valid()
      ensures calls == Frame()
    {
      calls := [ClearBuffers, ClearColor(0.8, 0.8, 0.8, 1.0)];
      if root != null {
        var volume := root.GetVolume();
        var volumeSphere := DepthRange(volume);
        calls := calls + [Viewport(width, height), Projection(width, height, volumeSphere)];
        var drawn := root.Render(ActiveRenderMethod);
        calls := calls + drawn;
      }
      calls := calls + [Flush];
    }

    /** Without a root a frame only clears and flushes: no viewport, no
        projection, nothing drawn. */
    lemma EmptyFrame()
      requires Valid() && root == null
      ensures Frame() == [ClearBuffers, ClearColor(0.8, 0.8, 0.8, 1.0), Flush]
      ensures NoGeometry(Frame()) && forall k | 0 <= k < |Frame()| :: !Frame()[k].Ortho? && !Frame()[k].Viewport?
    {
    }

    /** A frame leaves the matrix stack as it found it. */
    lemma FrameBalanced()
      requires Valid()
      ensures Balanced(Frame())
    {
      var head: seq<DrawCall> := [ClearBuffers, ClearColor(0.8, 0.8, 0.8, 1.0)];
      FlatBalanced(head);
      FlatBalanced([Flush]);
      if root == null {
        BalancedConcat(head, [Flush]);
        assert Frame() == head + [Flush];
      } else {
        var setup := [Viewport(width, height), Projection(width, height, DepthRange(root.Volume()))];
        FlatBalanced(setup);
        root.TraceBalanced(Display, ActiveRenderMethod);
        BalancedConcat(head, setup);
        BalancedConcat(head + setup, root.Trace(Display, ActiveRenderMethod));
        BalancedConcat(head + setup + root.Trace(Display, ActiveRenderMethod), [Flush]);
        assert Frame() == head + setup + root.Trace(Display, ActiveRenderMethod) + [Flush];
      }
    }

    /** buildScene: a fresh root triangle coloured red, green and blue, with
        one fresh child, a 32 x 16 sphere of radius 100 whose fallback colour
        is (0.8, 0.2, 0.2), moved to (100, 100, 0). Replacing the root
        destroys the old one, whose destructor releases every handle of
        its tree. */
    method BuildScene(trig: Trig, gpu: Gpu) returns (sphere: RenderObject)
      requires Valid() && gpu.Valid() && gpu !in Repr
      modifies this`root, this`Repr, Repr - {this}, gpu`live
      ensures Valid() && root != null && fresh(root) && fresh(sphere)
      ensures BuiltScene(root, sphere)
      ensures root.Volume() == Some(SceneBox) && DepthRange(root.Volume()) == 300.0
      ensures gpu.Valid() && gpu.live == old(gpu.live) - (if old(root) == null then {} else old(root.Handles()))
    {
      var r;
      r, sphere := NewScene(trig);
      if root != null {
        root.Release(gpu);
      }
      root := r;
      Repr := {this} + r.Repr;
    }
  }
}
