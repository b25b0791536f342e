# Scene, picking and stroke core of wxWidgetsStudy, in Dafny

This project models the rendering bookkeeping of the wxWidgetsStudy drawing
application and proves properties of it. It covers:

- **Scene nodes** (`RenderObject`, `render_object.dfy`): a tree of nodes.
  - Each node owns vertex, normal, texture-coordinate and colour arrays, a fallback colour, a position, an object ID, and three GPU handles (vertex buffer, vertex array, display list).
  - Children are an ordered list of possibly-null pointers.
  - Operations: the child-list operations and setters, position baking, the bounding-box fold of `getVolume`, and resource preparation and release.
  - Draw traversals: the display pass and the picking pass.
- **Spheres** (`sphere.dfy`): the procedural UV sphere, which is a latitude/longitude strip of vertex pairs re-indexed into a triangle list, and its analytic bounding box. A sphere is a `RenderObject` whose shape is `SphereShape`.
- **Scene root** (`SceneGraph`, `scene_graph.dfy`): the viewport size, the frame `render` issues with its depth range, and the fixed scene `buildScene` makes.
- **Picking buffer** (`SelectionBuffer`, `selection_buffer.dfy`, `ppm.dfy`):
  - the 24-bit ID-to-RGB encoding;
  - the framebuffer and attachment lifecycle;
  - saving and restoring the framebuffer binding;
  - the bounds-checked pixel read;
  - the binary PPM dump and its `.png` to `.ppm` name rewrite.
- **Points** (`point3d.dfy`): the double- and single-precision point values, with coordinates as `real`.
- **Stroke capture** (`DrawingPanel`, `drawing_panel.dfy`): the press/move/release state machine over a list of strokes, resizing, and the repaint.

The graphics driver is an abstract environment, the `Gpu` class in `gl.dfy`:

- a handle allocator that never reissues a handle;
- the set of live handles;
- the data uploaded to each vertex buffer and the buffer each vertex array reads;
- the framebuffer binding and the viewport;
- a log of clear commands.

Other environment answers are parameters of the methods that ask for them:

- whether a framebuffer is complete;
- what `glGetError` reports;
- whether a file can be opened;
- the colour stored at each pixel;
- the window size;
- whether the GL context could be created.

Sine and cosine are a `Trig` value passed in, so nothing depends on their values.

The traversals (`Render`, `RenderSelection`, `SceneGraph.render` and `DrawingPanel::Render`) return the list of driver calls they issue. Each is proved equal to a recursive specification function (`Trace`, `Frame`). Lemmas about those functions state:

- the matrix stack is balanced;
- the VAO picking pass submits no geometry;
- every picking colour decodes to an ID of the subtree;
- a child's calls appear contiguously inside its parent's.

The rendering strategy is the constant `RenderMethods.ActiveRenderMethod`, which is `RenderVao` as in `src/render/SceneGraph.cpp:9`. The strategy enum follows `src/render/SceneGraph.h:8-14`. Resource preparation and both traversals are proved for every strategy.

Where the headers and the `.cpp` files disagree, the model follows the `.cpp` files:

- `RenderObject.h` does not declare the handles, the object ID, `buildGraphicsResources` or `RenderSelection`.
- Its inline `setPosition` conflicts with the one in `RenderObject.cpp`. The header variant is modelled separately as `SetPositionAsDeclared`.
- `DrawingPanel.h` lacks the stroke fields. They are modelled as `RenderObject.cpp` and `DrawingPanel.cpp` use them.

## Model

| member | source | states |
|---|---|---|
| Point3D.Origin | src/render/Point3D.h:54-55 | a default-constructed double point is (0, 0, 0) |
| Point3D.Add | src/render/Point3D.h:83-86 | `a + b` is componentwise: subtracting either operand from the sum gives back the other |
| Point3D.SubAddCancel | src/render/Point3D.h:88-91 | `a - b` is undone by adding `b` back |
| Point3D.AddLaws | src/render/Point3D.h:83-86 | addition is commutative and associative, and the default point is its neutral element |
| Point3D.AddFloat | src/render/Point3D.h:30-33 | float `a + b` is componentwise: subtracting either operand gives back the other |
| Point3D.SubAddCancelFloat | src/render/Point3D.h:35-38 | float `a - b` is undone by adding `b` back |
| Spheres.ClampSlices | src/render/Sphere.cpp:89 | slices below 3 become 3, others are kept |
| Spheres.ClampStacks | src/render/Sphere.cpp:90 | stacks below 2 become 2, others are kept |
| Spheres.ClampIdempotent | src/render/Sphere.cpp:89-90 | clamping an already clamped count changes nothing |
| Spheres.StripAt | src/render/Sphere.cpp:93-128 | every (stack, column, lower/upper) position lies inside the strip and holds the normal at that latitude and longitude |
| Spheres.StripStep | src/render/Sphere.cpp:104-127 | column j of stack i puts its lower-ring normal at i·(slices+1)·2 + 2j and its upper-ring normal just after |
| Spheres.BuildStrip | src/render/Sphere.cpp:93-129 | the strip has stacks·(slices+1)·2 vertices and as many normals; each normal is the one at its position, and each vertex is radius times its normal |
| Spheres.QuadCorner | src/render/Sphere.cpp:144-165 | the six entries of quad (s, j) take strip corners i0, i2, i1, i2, i3, i1 with i0 = s·(slices+1)·2 + 2j |
| Spheres.CornerInStrip | src/render/Sphere.cpp:137-167 | every strip index the triangle list uses lies inside the strip |
| Spheres.QuadStep | src/render/Sphere.cpp:140-165 | quad (s, j) fills triangle-list entries (s·slices + j)·6 .. +5 in push order, and its highest corner i3 is inside the strip |
| Spheres.QuadEntries | src/render/Sphere.cpp:150-165 | the six entries pushed for a quad are exactly the strip entries at its six corners |
| Spheres.AppendQuad | src/render/Sphere.cpp:150-165 | appending a quad's entries keeps every triangle-list entry a copy of its strip corner |
| Spheres.ReindexStrip | src/render/Sphere.cpp:137-171 | the triangle list has 6·stacks·slices vertices and normals; entry k copies strip corner CornerOf(k) in both arrays |
| Spheres.ReindexKeepsScale | src/render/Sphere.cpp:150-165 | re-indexing keeps every vertex equal to radius times its normal |
| Spheres.QuadCornerNormal | src/render/Sphere.cpp:144-165 | each quad corner carries the normal of its stack edge and column, so the two triangles span the quad and share the diagonal i2–i1 |
| Spheres.SphereColors | src/render/Sphere.cpp:174-183 | one colour per vertex, each (0.8, 0.2, 0.2) |
| Spheres.MeshCounts | src/render/Sphere.cpp:137-167 | the coarsest sphere (including any smaller request) has 36 vertices; the 32 × 16 scene sphere has 3072, from a strip of 1056 |
| Spheres.SphereBoxCentred | src/render/Sphere.cpp:230-235 | the sphere box is centred on the position and 2·radius wide on every axis |
| Spheres.SphereBoxContains | src/render/Sphere.cpp:230-235 | for a non-negative radius the box holds the centre and every radius-times-unit-normal vertex |
| RenderObjects.UnionCoord | src/render/RenderObject.cpp:65-71 | each merged bound is the smaller (lower) or larger (upper) of the two operands' bounds |
| RenderObjects.UnionEncloses | src/render/RenderObject.cpp:100-106 | a merged box encloses both boxes it was merged from |
| RenderObjects.VerticesBoxTight | src/render/RenderObject.cpp:78-91 | the vertex box holds every vertex, and each of its bounds is attained by some vertex |
| RenderObjects.FoldFound | src/render/RenderObject.cpp:48-76 | the children fold finds a volume exactly when it started with one or some child returned one |
| RenderObjects.FoldEncloses | src/render/RenderObject.cpp:93-108 | the folded box encloses the starting box and every box a child returned |
| RenderObjects.FoldAttained | src/render/RenderObject.cpp:93-108 | each folded bound is the same bound of the starting box or of some child's box |
| RenderObjects.Translated | src/render/RenderObject.cpp:39-42 | baking a position keeps the vertex count |
| RenderObjects.TranslatedTwice | src/render/RenderObject.cpp:36-43 | baking p then q bakes p + q; baking the origin changes nothing |
| RenderObjects.DefaultNormals | src/render/RenderObject.cpp:174-184 | three (0, 0, 1) normals for exactly three vertices, no normal otherwise |
| RenderObjects.VertexRecord | src/render/RenderObject.cpp:411-424 | one interleaved vertex is nine floats |
| RenderObjects.InterleaveAt | src/render/RenderObject.cpp:400-425 | the buffer has 9·n floats, and floats 9i..9i+8 are vertex i's position, normal and colour |
| RenderObjects.InterleaveLength | src/render/RenderObject.cpp:400-425 | the buffer has 9 floats per vertex |
| RenderObjects.InterleaveVertexData | src/render/RenderObject.cpp:400-425 | the packing loop yields the interleaved buffer |
| RenderObjects.CreateVbo | src/render/RenderObject.cpp:395-434 | a fresh, live, non-zero buffer handle whose uploaded contents are the interleaved data |
| RenderObjects.CreateVao | src/render/RenderObject.cpp:436-462 | a fresh, live, non-zero vertex-array handle that reads the given buffer |
| RenderObjects.CreateDispList | src/render/RenderObject.cpp:464-514 | a fresh, live, non-zero display-list handle |
| RenderObjects.BoundVertices | src/render/RenderObject.cpp:78-91 | the vertex loop of getVolume computes the vertex box |
| RenderObjects.Repeat | src/render/RenderObject.cpp:125 | `assign(n, c)` leaves exactly n copies of c |
| RenderObjects.RenderObject.constructor | src/render/RenderObject.cpp:24-28 | a named node with no geometry and no children; the zero handles and zero ID are assumed starting values (see below) |
| RenderObjects.RenderObject.Sphere | src/render/Sphere.cpp:25-32 | keeps the unclamped arguments, and builds a 6·stacks·slices triangle list from clamped copies; each vertex is radius times its strip normal, each colour (0.8, 0.2, 0.2) |
| RenderObjects.RenderObject.AddChild | src/render/RenderObject.h:17 | the child is appended and the earlier children keep their order |
| RenderObjects.RenderObject.RemoveChild | src/render/RenderObject.h:18-24 | for i < count exactly child i is removed and the rest keep their order; otherwise nothing changes |
| RenderObjects.RenderObject.SetVertices | src/render/RenderObject.h:26 | replaces the vertex array only |
| RenderObjects.RenderObject.SetNormals | src/render/RenderObject.h:27 | replaces the normal array only |
| RenderObjects.RenderObject.SetTexCoords | src/render/RenderObject.h:28 | replaces the texture-coordinate array only |
| RenderObjects.RenderObject.SetColors | src/render/RenderObject.h:29 | replaces the per-vertex colours only |
| RenderObjects.RenderObject.SetColor | src/render/RenderObject.h:31-34 | setColors(point) changes the fallback colour only, not the per-vertex colours |
| RenderObjects.RenderObject.SetPosition | src/render/RenderObject.cpp:36-43 | stores the position and adds it to every vertex; the count is kept |
| RenderObjects.RenderObject.SetPositionAsDeclared | src/render/RenderObject.h:36-39 | the header's variant: stores the position, vertices untouched |
| RenderObjects.RenderObject.GetVolume | src/render/RenderObject.cpp:45-111 | the loops compute the recursive volume: a sphere's box, or the children fold started from the vertex box |
| RenderObjects.RenderObject.MeshVolumeFound | src/render/RenderObject.cpp:48-76 | a mesh node finds a volume exactly when it has vertices or some non-null child finds one |
| RenderObjects.RenderObject.MeshVolumeEncloses | src/render/RenderObject.cpp:78-110 | min ≤ every vertex ≤ max, and every child box is enclosed |
| RenderObjects.RenderObject.MeshVolumeAttained | src/render/RenderObject.cpp:78-110 | each bound is attained by a vertex or by the same bound of some child box |
| RenderObjects.RenderObject.SphereVolumeIgnoresMesh | src/render/Sphere.cpp:230-235 | a sphere always reports position ± radius, whatever its vertices and children, and for a non-negative radius the box holds the position |
| RenderObjects.RenderObject.CreateDefaultNormal | src/render/RenderObject.cpp:174-184 | the normals become three (0, 0, 1) for exactly three vertices, and empty otherwise |
| RenderObjects.RenderObject.FillDefaults | src/render/RenderObject.cpp:115-126 | mismatched normals become the default normals; mismatched colours become copies of the fallback colour |
| RenderObjects.RenderObject.EnsureVbo | src/render/RenderObject.cpp:133-136 | a buffer is made only when the handle is zero, and then holds this node's interleaved data |
| RenderObjects.RenderObject.EnsureVao | src/render/RenderObject.cpp:138-141 | a vertex array is made only when the handle is zero, and then reads this node's buffer |
| RenderObjects.RenderObject.EnsureDispList | src/render/RenderObject.cpp:152-155 | a display list is made only when the handle is zero |
| RenderObjects.RenderObject.AllocateHandles | src/render/RenderObject.cpp:131-156 | VAO gets a vbo then a vao, VBO a vbo, any other strategy a display list, each only where zero; other handles are kept; nothing new when they are ready |
| RenderObjects.RenderObject.BuildGraphicsResources | src/render/RenderObject.cpp:113-165 | colours and normals are fixed up; a node without usable geometry allocates nothing and visits no child; otherwise the node and all children are prepared; a second call allocates nothing; in every node of the tree only mismatched normals and colours are filled with the defaults; each handle is kept or, where it was zero, replaced by a live handle issued during the call; only the strategy's kinds of handle change, only in nodes with geometry; a new vertex buffer holds that node's interleaved vertices, normals and colours, and a new vertex array reads that buffer; the driver only grows |
| RenderObjects.RenderObject.BuildWithGeometry | src/render/RenderObject.cpp:131-164 | the node's handles are ready and every non-null child is prepared; the node goes from its state before the defaults were filled in to its new state by such a fill-in; in every other node of the tree only mismatched normals and colours are filled with the defaults; each handle is kept or, where it was zero, replaced by a live handle issued during the call; only the strategy's kinds of handle change, only in nodes with geometry; a new vertex buffer holds that node's interleaved vertices, normals and colours, and a new vertex array reads that buffer; the driver only grows |
| RenderObjects.RenderObject.BuildChildren | src/render/RenderObject.cpp:158-164 | every non-null child is prepared; this node itself is untouched; in every other node of the tree only mismatched normals and colours are filled with the defaults; each handle is kept or, where it was zero, replaced by a live handle issued during the call; only the strategy's kinds of handle change, only in nodes with geometry; a new vertex buffer holds that node's interleaved vertices, normals and colours, and a new vertex array reads that buffer; the driver only grows |
| RenderObjects.RenderObject.BuildChild | src/render/RenderObject.cpp:160-163 | child i is prepared; every object outside child i's subtree is untouched, so each sibling stays exactly as prepared as it was; in every other node of the tree only mismatched normals and colours are filled with the defaults; each handle is kept or, where it was zero, replaced by a live handle issued during the call; only the strategy's kinds of handle change, only in nodes with geometry; a new vertex buffer holds that node's interleaved vertices, normals and colours, and a new vertex array reads that buffer; the driver only grows |
| RenderObjects.RenderObject.CleanRenderResources | src/render/RenderObject.cpp:167-172 | every non-zero handle is deleted and all three become zero; a second call deletes nothing |
| RenderObjects.RenderObject.Release | src/render/RenderObject.cpp:30-34 | the destructor deletes every handle of the subtree (this node's, then each child's in order) and nothing else; the tree keeps its shape |
| RenderObjects.RenderObject.ReleaseChild | src/render/RenderObject.cpp:30-34 | releasing child i deletes exactly that child's subtree handles and leaves every other child's subtree untouched |
| RenderObjects.RenderObject.Render | src/render/RenderObject.cpp:223-262 | push, translate, the strategy's draw (skipped for a zero vao/vbo), children in order, pop |
| RenderObjects.RenderObject.RenderSelection | src/render/RenderObject.cpp:264-346 | own geometry only with vertices and a non-zero ID, in the ID's colour; uniforms only under VAO; children always visited |
| RenderObjects.RenderObject.RenderChild | src/render/RenderObject.cpp:253-259 | a null child draws nothing; a non-null child draws its own pass |
| RenderObjects.RenderObject.RenderChildren | src/render/RenderObject.cpp:253-261 | the children's calls in order, then the pop |
| RenderObjects.RenderObject.TraceBalanced | src/render/RenderObject.cpp:223-262 | both passes push and pop the matrix stack in matching pairs |
| RenderObjects.RenderObject.OwnFlat | src/render/RenderObject.cpp:229-239 | a node's own calls never touch the matrix stack |
| RenderObjects.RenderObject.ChildTracesBalanced | src/render/RenderObject.cpp:253-259 | the children's calls together are balanced |
| RenderObjects.RenderObject.VaoSelectionDrawsNothing | src/render/RenderObject.cpp:300-321 | under VAO the picking pass of a whole subtree submits no geometry |
| RenderObjects.RenderObject.VaoChildSelectionsDrawNothing | src/render/RenderObject.cpp:337-343 | under VAO the children's picking calls submit no geometry |
| RenderObjects.RenderObject.SelectionColorsPick | src/render/RenderObject.cpp:292-298 | with 24-bit IDs every picking colour is non-black and decodes to the ID of a node in the subtree |
| RenderObjects.RenderObject.ChildSelectionColorsPick | src/render/RenderObject.cpp:337-343 | the children's picking colours decode to IDs of the children's subtrees |
| RenderObjects.RenderObject.ChildTraceInside | src/render/RenderObject.cpp:253-259 | each non-null child's calls appear contiguously inside its parent's |
| RenderObjects.RenderObject.ChildTracesSplit | src/render/RenderObject.cpp:253-259 | the children's calls split around child i's calls |
| SceneGraphs.DepthRange | src/render/SceneGraph.cpp:91 | the depth half-range is 1.5 times the largest extent of the root box (attained on some axis); 0 without a volume |
| SceneGraphs.ProjectionIsScreen | src/render/SceneGraph.cpp:100 | x runs from 0 (left) to width (right); y is inverted, 0 on top and height at the bottom |
| SceneGraphs.SceneVolume | src/render/SceneGraph.cpp:118-137 | the built scene's box is (0, 0, -100)–(200, 200, 100) |
| SceneGraphs.SceneDepth | src/render/SceneGraph.cpp:91 | the built scene's depth half-range is 300 |
| SceneGraphs.NewRoot | src/render/SceneGraph.cpp:120-131 | the root triangle (0,0,0), (0,200,0), (200,200,0) coloured red, green, blue |
| SceneGraphs.NewSphere | src/render/SceneGraph.cpp:133-135 | a 32 × 16 sphere of radius 100 with 3072 vertices, normals and colours, fallback colour (0.8, 0.2, 0.2), at (100, 100, 0); each vertex is 100 times its normal plus (100, 100, 0), since setPosition adds the position into every vertex, and each colour is (0.8, 0.2, 0.2) |
| SceneGraphs.NewScene | src/render/SceneGraph.cpp:118-137 | the root with the sphere as its only child, the sphere's vertices and colours as for NewSphere, box and depth range as above |
| SceneGraphs.SceneGraph.constructor | src/render/SceneGraph.cpp:11-14 | no root and a 0 × 0 viewport |
| SceneGraphs.SceneGraph.SetupViewport | src/render/SceneGraph.cpp:26-30 | stores width and height and nothing else |
| SceneGraphs.SceneGraph.Render | src/render/SceneGraph.cpp:79-116 | clear; with a root, the viewport, the fitted orthographic projection and the display pass; flush |
| SceneGraphs.SceneGraph.EmptyFrame | src/render/SceneGraph.cpp:82-115 | without a root a frame only clears and flushes: no viewport, no projection, no geometry |
| SceneGraphs.SceneGraph.FrameBalanced | src/render/SceneGraph.cpp:79-116 | a frame leaves the matrix stack balanced |
| SceneGraphs.SceneGraph.BuildScene | src/render/SceneGraph.cpp:118-137 | replaces the root with a fresh scene: triangle root, one sphere child whose vertices are 100 times their normals plus (100, 100, 0) and whose colours are (0.8, 0.2, 0.2); box (0,0,-100)–(200,200,100); destroying the old root deletes exactly the handles of its tree |
| SelectionBuffers.ObjectIDToColor | src/render/SelectionBuffer.cpp:128-134 | the three bytes are bits 16-23, 8-15 and 0-7 of the ID: r·65536 + g·256 + b is the ID mod 2^24 |
| SelectionBuffers.ColorToObjectID | src/render/SelectionBuffer.cpp:136-142 | r·65536 + g·256 + b is always below 2^24 |
| SelectionBuffers.IdColorRoundTrip | src/render/SelectionBuffer.cpp:128-142 | encoding then decoding gives id mod 2^24, the identity below 2^24 |
| SelectionBuffers.ColorIdRoundTrip | src/render/SelectionBuffer.cpp:128-142 | every colour is the encoding of the ID it decodes to |
| SelectionBuffers.ColorsDistinguishIds | src/render/SelectionBuffer.h:36-40 | below 2^24, two IDs get the same colour exactly when they are equal |
| SelectionBuffers.OnlyZeroIsBlack | src/render/SelectionBuffer.h:32-34 | below 2^24 only ID 0 ("no object") is encoded as the black the buffer is cleared to |
| SelectionBuffers.ReadRowIgnoresY | src/render/SelectionBuffer.cpp:116-121 | as written, the row read does not depend on y and lies outside the attachment |
| SelectionBuffers.FlippedRowInside | src/render/SelectionBuffer.cpp:116 | the flipped row stays inside the attachment, is injective and undoes itself |
| SelectionBuffers.ReadPixels | src/render/SelectionBuffer.cpp:173-181 | the tightly packed read-back has width·height·3 bytes |
| SelectionBuffers.ReadPixelsAt | src/render/SelectionBuffer.cpp:181 | byte (y·width + x)·3 + ch of the read-back is channel ch of pixel (x, y) |
| SelectionBuffers.SavedFileAt | src/render/SelectionBuffer.cpp:228-234 | after the header, file row r holds attachment row height − 1 − r |
| SelectionBuffers.RowStride | src/render/SelectionBuffer.cpp:181 | a read-back row occupies the least multiple of the pack alignment that holds its 3·width bytes |
| SelectionBuffers.DefaultStride | src/render/SelectionBuffer.cpp:181 | with the default alignment of 4 the rows are unpadded exactly when the width is a multiple of 4 |
| SelectionBuffers.DefaultPackOverruns | src/render/SelectionBuffer.cpp:173-181 | as written, for two rows or more the read stores past the width·height·3-byte buffer exactly when the width is not a multiple of 4 |
| SelectionBuffers.DefaultPackSkews | src/render/SelectionBuffer.cpp:181-233 | as written, from the second row on a pixel is stored where the file writer takes it from exactly when the width is a multiple of 4 |
| SelectionBuffers.SmallBufferOverrun | src/render/SelectionBuffer.cpp:173-181 | a 2 × 2 buffer receives 14 bytes into 12 |
| SelectionBuffers.TightPackMatches | src/render/SelectionBuffer.cpp:173-181 | with a pack alignment of 1 the read fills the buffer exactly and every pixel byte is where ReadPixels has it |
| SelectionBuffers.WriteImage | src/render/SelectionBuffer.cpp:228-234 | the writer's loop emits the header, then rows height − 1 down to 0 |
| SelectionBuffers.SelectionBuffer.GetWidth | src/render/SelectionBuffer.h:46 | the stored width, positive exactly when the buffer is valid |
| SelectionBuffers.SelectionBuffer.GetHeight | src/render/SelectionBuffer.h:47 | the stored height, positive exactly when the buffer is valid |
| SelectionBuffers.SelectionBuffer.IsValid | src/render/SelectionBuffer.h:48 | in a consistent buffer, valid exactly when both attachments exist and the size is positive |
| SelectionBuffers.SelectionBuffer.ValidIffSized | src/render/SelectionBuffer.h:48 | isValid() holds exactly when the size is positive |
| SelectionBuffers.SelectionBuffer.constructor | src/render/SelectionBuffer.cpp:7-14 | zero handles and size, not valid; the previous binding is left unset |
| SelectionBuffers.SelectionBuffer.Cleanup | src/render/SelectionBuffer.cpp:144-163 | deletes the non-zero handles, zeroes handles and size |
| SelectionBuffers.SelectionBuffer.Init | src/render/SelectionBuffer.cpp:21-72 | a non-positive size changes nothing and fails; otherwise old handles are released, and a complete framebuffer gives fresh handles and the size; an incomplete one gives zeros and fails; either way framebuffer 0 is bound afterwards |
| SelectionBuffers.SelectionBuffer.CreateAttachments | src/render/SelectionBuffer.cpp:31-56 | the size and three fresh handles, with the new framebuffer bound |
| SelectionBuffers.SelectionBuffer.Resize | src/render/SelectionBuffer.cpp:74-81 | the same size is a no-op; any other behaves as init |
| SelectionBuffers.SelectionBuffer.Bind | src/render/SelectionBuffer.cpp:83-93 | an invalid buffer changes nothing; otherwise saves the binding, binds the buffer, sets the viewport |
| SelectionBuffers.SelectionBuffer.Unbind | src/render/SelectionBuffer.cpp:95-98 | binds the saved framebuffer |
| SelectionBuffers.SelectionBuffer.Clear | src/render/SelectionBuffer.cpp:100-108 | clears the buffer to black and leaves the binding as it found it |
| SelectionBuffers.SelectionBuffer.ReadObjectID | src/render/SelectionBuffer.cpp:110-126 | 0 when invalid or out of bounds, nothing changed; otherwise bind saves the previous binding in prefbo, unbind restores it; as written reads row `height` |
| SelectionBuffers.SelectionBuffer.ReadObjectIDFlipped | src/render/SelectionBuffer.cpp:110-126 | as above, with the previous binding saved in prefbo, but reads the pixel under (x, y) via the flipped row |
| SelectionBuffers.SelectionBuffer.SaveToFile | src/render/SelectionBuffer.cpp:165-242 | fails on an invalid buffer, a null name, a GL error or an unopenable file; otherwise writes the PPM image of the tightly packed read-back (the corrected read, see Findings) to the rewritten name; the binding is restored |
| Ppm.Decimal | src/render/SelectionBuffer.cpp:229 | a non-negative number prints as decimal digits without a leading zero |
| Ppm.DecimalRoundTrip | src/render/SelectionBuffer.cpp:229 | reading back the printed number gives the number |
| Ppm.Header | src/render/SelectionBuffer.cpp:229 | the header is plain ASCII |
| Ppm.AsciiBytes | src/render/SelectionBuffer.cpp:229 | one byte per character, its code |
| Ppm.Row | src/render/SelectionBuffer.cpp:233 | each row written is width·3 bytes |
| Ppm.RowsDownToAt | src/render/SelectionBuffer.cpp:232-234 | byte c of the r-th row written is byte c of row rows − 1 − r |
| Ppm.RowsDownToLength | src/render/SelectionBuffer.cpp:232-234 | the rows written total width·3·height bytes |
| Ppm.FlippedRowsAt | src/render/SelectionBuffer.cpp:232-234 | file row r is memory row rows − 1 − r |
| Ppm.ImageLayout | src/render/SelectionBuffer.cpp:228-234 | the file is the header followed by exactly the pixel bytes |
| Ppm.ImageAt | src/render/SelectionBuffer.cpp:228-234 | channel ch of pixel x in file row r comes from memory row height − 1 − r |
| Ppm.SmallBlackImage | src/render/SelectionBuffer.cpp:228-234 | a 2 × 2 black image is "P6\n2 2\n255\n" and twelve zero bytes |
| Ppm.PpmFileName | src/render/SelectionBuffer.cpp:217-220 | a name longer than 4 ending in ".png" gets ".ppm"; any other is kept |
| Ppm.PpmFileNameIdempotent | src/render/SelectionBuffer.cpp:195-220 | the rewritten name is never a PNG name, so rewriting again changes nothing |
| DrawingPanels.InitialSize | src/DrawingPanel.cpp:31-33 | the window size where positive, 640 × 480 otherwise |
| DrawingPanels.StrokeCalls | src/DrawingPanel.cpp:198-212 | under two points nothing; otherwise one line strip with the stroke's colour, width and points |
| DrawingPanels.DrawableExact | src/DrawingPanel.cpp:185-187 | the strokes drawn are exactly the saved strokes with two points or more |
| DrawingPanels.StrokesCallsAreStrips | src/DrawingPanel.cpp:185-187 | drawing the saved strokes yields one strip per drawable stroke, in order |
| DrawingPanels.DrawingPanel.constructor | src/DrawingPanel.cpp:13-41 | not drawing, black, width 2, redraw pending, size with the 640 × 480 fallback |
| DrawingPanels.DrawingPanel.SetDrawingColor | src/DrawingPanel.cpp:48-51 | sets the colour of future strokes only |
| DrawingPanels.DrawingPanel.ClearDrawing | src/DrawingPanel.cpp:53-59 | empties the saved strokes and the current points, sets redraw |
| DrawingPanels.ViewportCalls | src/DrawingPanel.cpp:78-91 | the viewport covers the window; with a positive size the ortho projection maps x = 0 to the left edge, x = width to the right, y = 0 to the top and y = height to the bottom, with depth -1 to 1 |
| DrawingPanels.DrawingPanel.OnSize | src/DrawingPanel.cpp:112-128 | always stores the size; only a positive size sets the viewport (with a context) and redraw |
| DrawingPanels.DrawingPanel.OnMouseDown | src/DrawingPanel.cpp:130-142 | with the left button, starts drawing a stroke of exactly the press point in the current colour and width, and captures the mouse; otherwise nothing changes |
| DrawingPanels.DrawingPanel.OnMouseMove | src/DrawingPanel.cpp:144-155 | appends the point only while drawing with the left button down; otherwise nothing changes |
| DrawingPanels.DrawingPanel.OnMouseUp | src/DrawingPanel.cpp:157-175 | while drawing, stops, releases, saves a non-empty stroke, empties the points; otherwise nothing changes |
| DrawingPanels.DrawingPanel.Render | src/DrawingPanel.cpp:177-196 | nothing without a context; else clear, the saved strokes in order, the current stroke while drawing, flush; every strip has two points or more |
| DrawingPanels.DrawingPanel.FrameShape | src/DrawingPanel.cpp:177-196 | a frame starts with the clear and ends with the flush, and every strip in it has two points or more |
| DrawingPanels.DrawingPanel.ClickDrawsNothing | src/DrawingPanel.cpp:198-200 | a click saved as a one-point stroke adds nothing to the frame |

## Left out

- Real OpenGL calls. The driver is the abstract `Gpu` environment, and the matrix arithmetic behind `glOrtho` is not computed. Shader uniforms appear only as a `SelectionUniforms` entry. `src/gl/Shader.cpp` is not part of this model.
- Floating point. All coordinates are `real`, so there is no rounding or float/double truncation. The `/255.0f` normalisation of picking colours is dropped, and those colours are kept as bytes.
- The constructors and copy/assignment operators of `PointDouble3D` and `PointFloat3D`, and the casts between them (`src/render/Point3D.h:7-28,57-81,93-130`). Dafny values are copied whole, so a copy keeps all three components by construction. A cast would only round.
- Sine and cosine are uninterpreted (`Trig`). No lemma states that the normals are unit length. `Spheres.SphereBoxContains` takes unit-range components as a hypothesis.
- The cross-product branch of `createDefaultNormal` (`src/render/RenderObject.cpp:186-220`). It only issues `glNormal3f` calls and never stores a normal, so the model stores no normal there.
- The display list's compiled contents (`src/render/RenderObject.cpp:472-511`). Only the handle is modelled.
- The logging `printf`/`std::cerr`/`std::cout`, and the PNG branch behind `STB_IMAGE_WRITE_IMPLEMENTATION` (`src/render/SelectionBuffer.cpp:199-212`). The model takes the PPM fallback.
- File I/O. `SaveToFile` returns the path and bytes it would write. Whether the file opens is a parameter.
- `SceneGraph::init`, `setup` and `setLight`. They only set GL state and shader uniforms.
- Window plumbing in `src/DrawingPanel.cpp`: `InitializeOpenGL`, `OnPaint`, `SwapBuffers`, `Refresh`, the show-event binding and `RedrawAll`. The window size, the context and the button state are parameters. The mouse capture is a flag.
- Shared ownership. Children are `shared_ptr`s in the source. The model requires each added child to be a separate subtree, with no sharing and no cycles, so this is a precondition of `RenderObjects.RenderObject.AddChild`.
- RenderObjects.RenderObject.RemoveChild: erasing a child drops its shared pointer. When that was the last reference, the child's destructor deletes its subtree's handles. Reference counts are not modelled, so the removal releases nothing; `Release` models the destructor where ownership is certain, which is when `buildScene` replaces the root.
- `m_objectID`. No code in these files sets it. The model keeps it as a field that the constructors zero. The picking lemmas hold for any value.
- The starting values of the three GL handles. `src/render/RenderObject.h:43-54` declares no `m_vbo`, `m_vao` or `m_dispList` fields, and the constructor at `src/render/RenderObject.cpp:24-28` initialises only `m_name`. The model assumes that all three handles start at zero, which is what the zero checks in `buildGraphicsResources` and `cleanRenderResources` expect.
- `DrawingStroke`, `m_strokes` and `m_currentStroke` are not declared in any header of the repository. The stroke's fields (colour, width, points) come from their use in `src/DrawingPanel.cpp:137-138,203-209`. The colour and width of the stroke held before the first press are not part of this model.
- `DrawingPanel::OnTimer` and the timer field are declared in `src/DrawingPanel.h:34,44`, but no source file defines or starts the timer, so the model has no timer.

## Findings

| source | as written | input that shows it | evidently intended | confidence | as-written member | corrected member |
|---|---|---|---|---|---|---|
| src/render/SelectionBuffer.cpp:116-121 | `readObjectID` passes row `m_height` to `glReadPixels` and leaves the flip `m_height - y - 1` commented out. So every read looks at the row just above the attachment, whatever `y` is. | a valid 640 × 480 buffer and any in-range point (x, 10): the row read is 480 for y = 10 and for y = 400 alike | read row `m_height - y - 1`, the pixel under (x, y) in bottom-left-origin storage | not executed | SelectionBuffers.SelectionBuffer.ReadObjectID (with SelectionBuffers.ReadRowIgnoresY) | SelectionBuffers.SelectionBuffer.ReadObjectIDFlipped (with SelectionBuffers.FlippedRowInside) |
| src/render/SelectionBuffer.cpp:173-181 | `saveToFile` sizes its buffer as width·height·3 bytes and calls `glReadPixels` for GL_RGB without setting GL_PACK_ALIGNMENT, which starts at 4, so every row but the last is padded to a multiple of 4 bytes | a valid 2 × 2 buffer: the read stores 14 bytes into 12, and row 1 starts at byte 8, not 6 | call `glPixelStorei(GL_PACK_ALIGNMENT, 1)` before the read, so the rows are tightly packed | not executed | SelectionBuffers.DefaultPackOverruns (with SelectionBuffers.DefaultPackSkews and SelectionBuffers.SmallBufferOverrun) | SelectionBuffers.ReadPixels (with SelectionBuffers.TightPackMatches) |
