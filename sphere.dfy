/** The procedural UV sphere: a latitude/longitude strip of vertex pairs,
    re-indexed into a triangle list. Sine and cosine are left uninterpreted;
    what is modelled is the counts, the index pattern and that every vertex
    is the radius times its normal. */
module Spheres {
  import opened Point3D
  import opened Arith

  /** The sine and cosine the mesh is evaluated with. */
  datatype Trig = Trig(sin: real -> real, cos: real -> real)

  const Pi: real := 3.14159265358979323846

  /** The colour every sphere vertex gets. */
  const SphereColor: PointDouble3D := PointDouble3D(0.8, 0.2, 0.2)

  /** Subdivisions around the axis, at least 3. */
  function ClampSlices(slices: int): (n: nat)
    ensures 3 <= n && (3 <= slices ==> n == slices) && (slices < 3 ==> n == 3)
  {
    if slices < 3 then 3 else slices
  }

  /** Subdivisions from pole to pole, at least 2. */
  function ClampStacks(stacks: int): (n: nat)
    ensures 2 <= n && (2 <= stacks ==> n == stacks) && (stacks < 2 ==> n == 2)
  {
    if stacks < 2 then 2 else stacks
  }

  /** Clamping twice clamps once. */
  lemma ClampIdempotent(slices: int, stacks: int)
    ensures ClampSlices(ClampSlices(slices)) == ClampSlices(slices)
    ensures ClampStacks(ClampStacks(stacks)) == ClampStacks(stacks)
  {
  }

  /** Latitude of ring `i`: from -Pi/2 at ring 0 to Pi/2 at ring `stacks`. */
  function Phi(i: int, stacks: nat): real
    requires 0 < stacks
  {
    Pi * (i as real / stacks as real - 0.5)
  }

  /** Longitude of column `j`. */
  function Theta(j: int, slices: nat): real
    requires 0 < slices
  {
    2.0 * Pi * j as real / slices as real
  }

  /** The unit normal at latitude `phi`, longitude `theta`. */
  function RingNormal(trig: Trig, phi: real, theta: real): PointDouble3D
  {
    PointDouble3D(trig.cos(phi) * trig.cos(theta), trig.sin(phi), trig.cos(phi) * trig.sin(theta))
  }

  /** `p` with every component multiplied by `radius`. */
  function Scale(p: PointDouble3D, radius: real): PointDouble3D
  {
    PointDouble3D(p.x * radius, p.y * radius, p.z * radius)
  }

  /** Vertices of one stack in the strip: a lower and an upper vertex per column 0..slices. */
  function PairsPerStack(slices: nat): nat
  {
    (slices + 1) * 2
  }

  /** Length of the strip. */
  function StripLength(slices: nat, stacks: nat): nat
  {
    stacks * PairsPerStack(slices)
  }

  /** Strip position of column `j` of stack `i`, lower (`u` = 0) or upper (`u` = 1) vertex. */
  function StripIndex(slices: nat, i: nat, j: nat, u: nat): nat
  {
    i * PairsPerStack(slices) + 2 * j + u
  }

  /** The normal at strip position `k`: stack k / PairsPerStack, column
      (k % PairsPerStack) / 2, ring of the stack's lower or upper edge by the parity. */
  function StripNormal(trig: Trig, slices: nat, stacks: nat, k: nat): PointDouble3D
    requires 0 < slices && 0 < stacks
  {
    var i := k / PairsPerStack(slices);
    var r := k % PairsPerStack(slices);
    RingNormal(trig, Phi(i + r % 2, stacks), Theta(r / 2, slices))
  }

  /** Every (stack, column, edge) position lies inside the strip and holds the
      normal at that stack edge's latitude and that column's longitude. */
  lemma StripAt(trig: Trig, slices: nat, stacks: nat, i: nat, j: nat, u: nat)
    requires 0 < slices && 0 < stacks && i < stacks && j <= slices && u < 2
    ensures StripIndex(slices, i, j, u) < StripLength(slices, stacks)
    ensures StripNormal(trig, slices, stacks, StripIndex(slices, i, j, u)) ==
      RingNormal(trig, Phi(i + u, stacks), Theta(j, slices))
  {
    var p := PairsPerStack(slices);
    MulMono(i + 1, stacks, p);
    assert (i + 1) * p == i * p + p;
    DivModUnique(StripIndex(slices, i, j, u), p, i, 2 * j + u);
    DivModUnique(2 * j + u, 2, j, u);
  }

  /** Column j of stack i puts its lower vertex at i * PairsPerStack + 2j and its upper one just after. */
  lemma StripStep(trig: Trig, slices: nat, stacks: nat, i: nat, j: nat, at: nat)
    requires 0 < slices && 0 < stacks && j <= slices && at == i * PairsPerStack(slices) + 2 * j
    ensures StripNormal(trig, slices, stacks, at) == RingNormal(trig, Phi(i, stacks), Theta(j, slices))
    ensures StripNormal(trig, slices, stacks, at + 1) == RingNormal(trig, Phi(i + 1, stacks), Theta(j, slices))
  {
    var p := PairsPerStack(slices);
    DivModUnique(i * p + 2 * j, p, i, 2 * j);
    DivModUnique(i * p + 2 * j + 1, p, i, 2 * j + 1);
    DivModUnique(2 * j, 2, j, 0);
    DivModUnique(2 * j + 1, 2, j, 1);
  }

  /** The strip loops of Build: for stack i and column j, the vertex pair at
      the stack's lower and upper latitude, each the radius times its normal. */
  method BuildStrip(radius: real, slices: nat, stacks: nat, trig: Trig)
    returns (vertices: seq<PointDouble3D>, normals: seq<PointDouble3D>)
    requires 0 < slices && 0 < stacks
    ensures |vertices| == |normals| == StripLength(slices, stacks)
    ensures forall k | 0 <= k < |normals| :: normals[k] == StripNormal(trig, slices, stacks, k)
    ensures forall k | 0 <= k < |vertices| :: vertices[k] == Scale(normals[k], radius)
  {
    var p := PairsPerStack(slices);
    vertices, normals := [], [];
    var i := 0;
    while i < stacks
      invariant 0 <= i <= stacks
      invariant |vertices| == |normals| == i * p
      invariant forall k | 0 <= k < |normals| :: normals[k] == StripNormal(trig, slices, stacks, k)
      invariant forall k | 0 <= k < |vertices| :: vertices[k] == Scale(normals[k], radius)
    {
      var phi1 := Phi(i, stacks);
      var phi2 := Phi(i + 1, stacks);
      ghost var base := i * p;
      var j := 0;
      while j <= slices
        invariant 0 <= j <= slices + 1
        invariant |vertices| == |normals| == base + 2 * j
        invariant forall k | 0 <= k < |normals| :: normals[k] == StripNormal(trig, slices, stacks, k)
        invariant forall k | 0 <= k < |vertices| :: vertices[k] == Scale(normals[k], radius)
      {
        var theta := Theta(j, slices);
        var n1 := RingNormal(trig, phi1, theta);
        var n2 := RingNormal(trig, phi2, theta);
        StripStep(trig, slices, stacks, i, j, |normals|);
        vertices := vertices + [Scale(n1, radius), Scale(n2, radius)];
        normals := normals + [n1, n2];
        j := j + 1;
      }
      assert base + 2 * j == (i + 1) * p;
      i := i + 1;
    }
  }

  /** Length of the triangle list: two triangles per quad, stacks * slices quads. */
  function TriangleListLength(slices: nat, stacks: nat): nat
  {
    stacks * slices * 6
  }

  /** Column offset (0 or 1) of corner `t` of a quad: i2 and i3 are one column on. */
  function CornerColumn(t: nat): nat
  {
    if t == 1 || t == 3 || t == 4 then 1 else 0
  }

  /** Edge (0 lower, 1 upper) of corner `t` of a quad: i1 and i3 are on the upper ring. */
  function CornerEdge(t: nat): nat
  {
    if t == 2 || t == 4 || t == 5 then 1 else 0
  }

  /** The corner of quad (s, j) that triangle-list entry `t` (0..5) takes:
      strip indices i0, i2, i1, i2, i3, i1 with i0 = s * PairsPerStack + 2j,
      i1 = i0 + 1, i2 = i0 + 2, i3 = i0 + 3. */
  function QuadCorner(slices: nat, s: nat, j: nat, t: nat): (k: nat)
    requires t < 6
    ensures k == StripIndex(slices, s, j + CornerColumn(t), CornerEdge(t))
  {
    var i0 := s * PairsPerStack(slices) + j * 2;
    if t == 0 then i0
    else if t == 1 || t == 3 then i0 + 2
    else if t == 4 then i0 + 3
    else i0 + 1
  }

  /** The strip position triangle-list entry `k` copies: entry k % 6 of quad
      k / 6, quads numbered stack by stack. */
  function CornerOf(slices: nat, k: nat): nat
    requires 0 < slices
  {
    var q := k / 6;
    QuadCorner(slices, q / slices, q % slices, k % 6)
  }

  /** Every corner the triangle list takes lies inside the strip. */
  lemma CornerInStrip(slices: nat, stacks: nat, k: nat)
    requires 0 < slices && k < TriangleListLength(slices, stacks)
    ensures CornerOf(slices, k) < StripLength(slices, stacks)
  {
    var q, t := k / 6, k % 6;
    var m := stacks * slices;
    assert k == q * 6 + t && k < m * 6;
    assert q < m;
    var s, j := q / slices, q % slices;
    assert q == s * slices + j && j < slices;
    if s >= stacks {
      MulMono(stacks, s, slices);
      assert false;
    }
    var p := PairsPerStack(slices);
    MulMono(s + 1, stacks, p);
    assert (s + 1) * p == s * p + p;
    assert CornerOf(slices, k) == StripIndex(slices, s, j + CornerColumn(t), CornerEdge(t));
  }

  /** Triangle-list entries `list` copy the strip corners CornerOf names. */
  ghost predicate CopiesCorners<T>(list: seq<T>, strip: seq<T>, slices: nat)
    requires 0 < slices
  {
    forall k | 0 <= k < |list| :: CornerOf(slices, k) < |strip| && list[k] == strip[CornerOf(slices, k)]
  }

  /** The six entries of quad (s, j) sit at (s * slices + j) * 6 + t and copy
      corner t of the quad, and the quad's corners lie inside the strip. */
  lemma QuadStep(slices: nat, stacks: nat, s: nat, j: nat)
    requires 0 < slices && s < stacks && j < slices
    ensures s * PairsPerStack(slices) + j * 2 + 3 < StripLength(slices, stacks)
    ensures forall t | 0 <= t < 6 :: CornerOf(slices, (s * slices + j) * 6 + t) == QuadCorner(slices, s, j, t)
  {
    var p := PairsPerStack(slices);
    MulMono(s + 1, stacks, p);
    assert (s + 1) * p == s * p + p;
    var q := s * slices + j;
    DivModUnique(q, slices, s, j);
    forall t | 0 <= t < 6
      ensures CornerOf(slices, q * 6 + t) == QuadCorner(slices, s, j, t)
    {
      DivModUnique(q * 6 + t, 6, q, t);
      assert (q * 6 + t) / 6 == q && (q * 6 + t) % 6 == t;
      assert q / slices == s && q % slices == j;
    }
  }

  /** The six entries pushed for quad (s, j): corners i0, i2, i1, i2, i3, i1. */
  function QuadEntries<T>(strip: seq<T>, slices: nat, stacks: nat, s: nat, j: nat): (r: seq<T>)
    requires 0 < slices && s < stacks && j < slices && |strip| == StripLength(slices, stacks)
    ensures |r| == 6 && forall t | 0 <= t < 6 :: QuadCorner(slices, s, j, t) < |strip| && r[t] == strip[QuadCorner(slices, s, j, t)]
  {
    QuadStep(slices, stacks, s, j);
    var i0 := s * PairsPerStack(slices) + j * 2;
    var i1, i2, i3 := i0 + 1, i0 + 2, i0 + 3;
    [strip[i0], strip[i2], strip[i1], strip[i2], strip[i3], strip[i1]]
  }

  lemma AppendQuad<T>(list: seq<T>, strip: seq<T>, slices: nat, stacks: nat, s: nat, j: nat)
    requires 0 < slices && s < stacks && j < slices && |strip| == StripLength(slices, stacks)
    requires |list| == (s * slices + j) * 6 && CopiesCorners(list, strip, slices)
    ensures CopiesCorners(list + QuadEntries(strip, slices, stacks, s, j), strip, slices)
  {
    var quad := QuadEntries(strip, slices, stacks, s, j);
    var ext := list + quad;
    QuadStep(slices, stacks, s, j);
    forall k | 0 <= k < |ext|
      ensures CornerOf(slices, k) < |strip| && ext[k] == strip[CornerOf(slices, k)]
    {
      if k >= |list| {
        var t := k - |list|;
        assert CornerOf(slices, (s * slices + j) * 6 + t) == QuadCorner(slices, s, j, t);
      }
    }
  }

  /** The re-indexing loops of Build: quad (s, j) becomes triangles
      (i0, i2, i1) and (i2, i3, i1) of the strip. */
  method ReindexStrip(stripVertices: seq<PointDouble3D>, stripNormals: seq<PointDouble3D>, slices: nat, stacks: nat)
    returns (vertices: seq<PointDouble3D>, normals: seq<PointDouble3D>)
    requires 0 < slices
    requires |stripVertices| == |stripNormals| == StripLength(slices, stacks)
    ensures |vertices| == |normals| == TriangleListLength(slices, stacks)
    ensures forall k | 0 <= k < |vertices| ::
      CornerOf(slices, k) < |stripVertices| &&
      vertices[k] == stripVertices[CornerOf(slices, k)] && normals[k] == stripNormals[CornerOf(slices, k)]
  {
    vertices, normals := [], [];
    var s := 0;
    while s < stacks
      invariant 0 <= s <= stacks
      invariant |vertices| == |normals| == s * slices * 6
      invariant CopiesCorners(vertices, stripVertices, slices) && CopiesCorners(normals, stripNormals, slices)
    {
      var j := 0;
      while j < slices
        invariant 0 <= j <= slices
        invariant |vertices| == |normals| == (s * slices + j) * 6
        invariant CopiesCorners(vertices, stripVertices, slices) && CopiesCorners(normals, stripNormals, slices)
      {
        AppendQuad(vertices, stripVertices, slices, stacks, s, j);
        AppendQuad(normals, stripNormals, slices, stacks, s, j);
        vertices := vertices + QuadEntries(stripVertices, slices, stacks, s, j);
        normals := normals + QuadEntries(stripNormals, slices, stacks, s, j);
        j := j + 1;
      }
      assert (s * slices + j) * 6 == (s + 1) * slices * 6;
      s := s + 1;
    }
    assert stacks * slices * 6 == TriangleListLength(slices, stacks);
  }

  /** Re-indexing keeps "vertex = radius * normal": each triangle-list entry
      copies one strip entry in both arrays. */
  lemma ReindexKeepsScale(stripVertices: seq<PointDouble3D>, stripNormals: seq<PointDouble3D>,
                          vertices: seq<PointDouble3D>, normals: seq<PointDouble3D>, slices: nat, radius: real)
    requires 0 < slices && |stripVertices| == |stripNormals| && |vertices| == |normals|
    requires forall k | 0 <= k < |stripVertices| :: stripVertices[k] == Scale(stripNormals[k], radius)
    requires forall k | 0 <= k < |vertices| ::
      CornerOf(slices, k) < |stripVertices| &&
      vertices[k] == stripVertices[CornerOf(slices, k)] && normals[k] == stripNormals[CornerOf(slices, k)]
    ensures forall k | 0 <= k < |vertices| :: vertices[k] == Scale(normals[k], radius)
  {
    forall k | 0 <= k < |vertices|
      ensures vertices[k] == Scale(normals[k], radius)
    {
      var c := CornerOf(slices, k);
      assert vertices[k] == stripVertices[c] == Scale(stripNormals[c], radius);
    }
  }

  /** Corner `t` of quad (s, j) carries the normal at the latitude of the
      stack's lower or upper edge and the longitude of column j or j + 1; so
      the two triangles (i0, i2, i1) and (i2, i3, i1) span the quad and share
      its diagonal i2-i1. */
  lemma QuadCornerNormal(trig: Trig, slices: nat, stacks: nat, s: nat, j: nat, t: nat)
    requires 0 < slices && s < stacks && j < slices && t < 6
    ensures StripNormal(trig, slices, stacks, QuadCorner(slices, s, j, t)) ==
      RingNormal(trig, Phi(s + CornerEdge(t), stacks), Theta(j + CornerColumn(t), slices))
  {
    StripAt(trig, slices, stacks, s, j + CornerColumn(t), CornerEdge(t));
  }

  /** The colour loop of Build: one SphereColor per vertex. */
  method SphereColors(count: nat) returns (colors: seq<PointDouble3D>)
    ensures |colors| == count && forall k | 0 <= k < count :: colors[k] == SphereColor
  {
    colors := [];
    while |colors| < count
      invariant |colors| <= count && forall k | 0 <= k < |colors| :: colors[k] == SphereColor
    {
      colors := colors + [SphereColor];
    }
  }

  /** Number of triangle-list vertices Build makes for the requested subdivisions. */
  function MeshVertexCount(slices: int, stacks: int): nat
  {
    TriangleListLength(ClampSlices(slices), ClampStacks(stacks))
  }

  /** The coarsest sphere has 36 vertices; the scene's sphere (32 slices, 16
      stacks) has 3072, from a strip of 1056. */
  lemma MeshCounts()
    ensures MeshVertexCount(0, 0) == MeshVertexCount(3, 2) == 36
    ensures MeshVertexCount(32, 16) == 3072 && StripLength(32, 16) == 1056
  {
  }

  /** getVolume of a sphere: the cube of half-side `radius` around `position`. */
  function SphereBox(position: PointDouble3D, radius: real): (PointDouble3D, PointDouble3D)
  {
    (PointDouble3D(-radius + position.x, -radius + position.y, -radius + position.z),
     PointDouble3D(radius + position.x, radius + position.y, radius + position.z))
  }

  /** The box is centred on the position and 2 * radius wide on every axis,
      whatever the mesh or the children hold. */
  lemma SphereBoxCentred(position: PointDouble3D, radius: real)
    ensures Add(SphereBox(position, radius).0, SphereBox(position, radius).1) == Add(position, position)
    ensures Sub(SphereBox(position, radius).1, SphereBox(position, radius).0) == PointDouble3D(2.0 * radius, 2.0 * radius, 2.0 * radius)
  {
  }

  /** For a non-negative radius the box contains the centre, and every vertex
      Build makes (radius times a unit normal) lies in it. */
  lemma SphereBoxContains(radius: real, n: PointDouble3D)
    requires 0.0 <= radius
    requires -1.0 <= n.x <= 1.0 && -1.0 <= n.y <= 1.0 && -1.0 <= n.z <= 1.0
    ensures Within(Origin(), SphereBox(Origin(), radius).0, SphereBox(Origin(), radius).1)
    ensures Within(Scale(n, radius), SphereBox(Origin(), radius).0, SphereBox(Origin(), radius).1)
  {
    var lo, hi := PointDouble3D(-radius, -radius, -radius), PointDouble3D(radius, radius, radius);
    assert SphereBox(Origin(), radius) == (lo, hi);
    var v := Scale(n, radius);
    ScaleBound(n.x, radius, v.x);
    ScaleBound(n.y, radius, v.y);
    ScaleBound(n.z, radius, v.z);
    assert Within(v, lo, hi);
  }

  lemma ScaleBound(c: real, radius: real, product: real)
    requires 0.0 <= radius && -1.0 <= c <= 1.0 && product == c * radius
    ensures -radius <= product <= radius
  {
    assert radius - c * radius == (1.0 - c) * radius;
    assert c * radius + radius == (c + 1.0) * radius;
  }
}
