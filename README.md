# SimpleDirectX3DRenderer: the terrain core in Dafny

SimpleDirectX3DRenderer reads a grey-scale depth image and turns it into a
terrain mesh, then draws it with Direct3D 11. An orbit camera can be panned,
zoomed and rotated. The repository has two variants of the application object:

- `Application` puts the height in y and draws a flat base plate under the
  terrain.
- `Application2` puts the height in z and draws the terrain only.

One model covers both. The `Layout` parameter chooses the variant:
`HeightOnY` is `Application` and `HeightOnZ` is `Application2`.

The project has four modules:

- `HeightField` (`heightfield.dfy`): the 8-bit sample type and the row-major
  slot arithmetic. `CopyDepth` is the de-striding copy from the mapped
  staging texture into a dense buffer; it is a method over an array with
  nested loops. `MaxSample` is the value `std::max_element` finds.
- `Mesh` (`mesh.dfy`): vertices and their layouts. `GridVertex` gives the
  vertex for one sample. `IsGridMesh` specifies the vertex list.
  `CellIndices`, `RowIndices`, `GridIndices` and `MeshIndices` specify the
  index list. The lemmas prove its size, that every index is in range, the
  winding of every triangle, and the base-plate quad.
- `Camera` (`camera.dfy`): the clamped zoom, the movement step and the
  orbit rotation as functions. `OrbitCamera` is a class holding the camera
  fields that the `Application` methods update in place.
- `Renderer` (`application.dfy`): the `Application` class, holding the CPU
  mesh, the window size and the render-target / depth-stencil state.
  - Resource loading and the mesh build are methods: one vertex per sample
    and six indices per interior cell, rows outer, columns inner.
  - `OnWindowResized`, `UpdateWindowSize` and `Render` return the device
    calls they issue as a `GpuCall` list.
  - `WellOrdered` states the swap chain's rules on that list. The state it
    tracks (`Output`) says whether a render-target view is held, whether a
    view is bound to the output-merger stage, and whether a view unbound
    since the last flush may still be referenced by the context. The
    buffers may be resized only when all three are clear. A view may be
    bound, and a frame cleared or presented, only while a view is held,
    and drawn only while it is also bound.

Float arithmetic is modelled with `real`. The view matrix is kept symbolic:
it records the inputs of the look-at construction and the pan and zoom that
follow it.

## Model

| member | source | states |
|---|---|---|
| HeightField.CopyDepth | DirectX3DRenderer/Application.cpp:717-727 | the dense buffer has `width * height` slots, and slot `y * width + x` holds source byte `y * rowPitch + x` for every cell of the image |
| HeightField.SlotInjective | DirectX3DRenderer/Application.cpp:725 | two different cells of the image never write the same slot of the dense buffer |
| HeightField.DestridedSlot | DirectX3DRenderer/Application2.cpp:717-727 | every slot of the dense buffer was written from the source image, so none keeps its zero fill |
| HeightField.MaxSample | DirectX3DRenderer/Application.cpp:739 | the result is one of the samples and no sample exceeds it |
| Mesh.GridPoint | DirectX3DRenderer/Application.cpp:750-753 | the ground position of cell (x, y) is `x / width` and `1 - y / height`, inside [0, 1) by (0, 1] |
| Mesh.GridVertex | DirectX3DRenderer/Application.cpp:748-764 | the vertex of one sample lies over its grid point, its texture coordinate equals that point, and its height is within [0, 1] and is exactly 1 iff the sample is the maximum |
| Mesh.GridMeshHeights | DirectX3DRenderer/Application2.cpp:741-753 | the vertex list has one vertex per sample, every height is within [0, 1], and a height is 1 exactly where the sample equals the maximum |
| Mesh.GridMeshUnique | DirectX3DRenderer/Application.cpp:744-765 | the samples and the layout fully determine the vertex list |
| Mesh.UniformFieldIsLevel | DirectX3DRenderer/Application.cpp:739-748 | an image whose samples are all equal (and not zero) gives a flat terrain at height 1 |
| Mesh.GridIndicesAt | DirectX3DRenderer/Application.cpp:766-774 | the six indices of cell (x, y) sit at positions `6 * (y * (width - 1) + x)` onward, in the order the loop pushes them |
| Mesh.MeshIndicesShape | DirectX3DRenderer/Application.cpp:766-774 | the index list has `6 * (width - 1) * (height - 1)` entries, and every entry names one of the `width * height` vertices |
| Mesh.FirstCellOfFourWide | DirectX3DRenderer/Application2.cpp:755-763 | for a four-wide image the first cell's indices are 0, 1, 4, 4, 1, 5 |
| Mesh.CellCorners | DirectX3DRenderer/Application.cpp:767-773 | the six indices of a cell are the slots of its corners (x, y), (x+1, y), (x, y+1), (x, y+1), (x+1, y), (x+1, y+1) |
| Mesh.GridCellAreas | DirectX3DRenderer/Application.cpp:750-774 | both triangles of every cell have twice-signed ground area `-1 / (width * height)` (the cross product of two edges) |
| Mesh.MeshWinding | DirectX3DRenderer/Application.cpp:744-776 | every triangle of the terrain has the same winding and twice-signed ground area `-1 / (width * height)` |
| Mesh.BasePlateShape | DirectX3DRenderer/Application.cpp:1168-1178 | the base plate is four vertices at height 0 and two triangles of twice-signed area +1, whose six indices are all in range |
| Camera.Zoomed | DirectX3DRenderer/Application.cpp:408-423 | the new offset is the old one plus `dz * 0.0001`, clamped to [-1, 4], with the clamp cases stated separately |
| Camera.ZoomedAllInRange | DirectX3DRenderer/Application.cpp:408-423 | any sequence of wheel events keeps the zoom offset within [-1, 4] |
| Camera.ZoomOutAfterZoomInEndsAtMin | DirectX3DRenderer/Application.cpp:408-423 | a zoom-out of at least 50000 wheel units after any zoom lands exactly on the lower clamp |
| Camera.AxisStep | DirectX3DRenderer/Application.cpp:338-357 | opposite keys held together cancel, and one key alone moves by plus or minus `speed * deltaTime` |
| Camera.OrbitKeepsDistance | DirectX3DRenderer/Application.cpp:463-476 | rotating the camera about y and then x keeps its distance from the origin |
| Camera.OrbitCamera.constructor | DirectX3DRenderer/Application.cpp:322-323 | a new camera is at its home position with no view matrix, and its movement flags are whatever it was given |
| Camera.OrbitCamera.InitializeCamera | DirectX3DRenderer/Application.cpp:325-336 | position (1, 1, -1) looking at the origin with up +y; speed 1, scale 1; pan 0, zoom 0 |
| Camera.OrbitCamera.UpdateViewMatrix | DirectX3DRenderer/Application.cpp:359-380 | the view matrix is rebuilt from the current position, target, up, pan and zoom |
| Camera.OrbitCamera.PanModel | DirectX3DRenderer/Application.cpp:398-406 | the pan offsets move by exactly (dx, dy) and the view matrix is current |
| Camera.OrbitCamera.ZoomView | DirectX3DRenderer/Application.cpp:408-423 | the zoom offset becomes the clamped `Zoomed` value and the view matrix is current |
| Camera.OrbitCamera.RotateModel | DirectX3DRenderer/Application.cpp:463-476 | the position is rotated by the yaw and then the pitch, keeps its distance from the origin, and the view matrix is current |
| Camera.OrbitCamera.MoveCamera | DirectX3DRenderer/Application.cpp:425-442 | the flag of the pressed direction is set and every other flag keeps its value |
| Camera.OrbitCamera.StopCamera | DirectX3DRenderer/Application.cpp:444-461 | the flag of the released direction is cleared and every other flag keeps its value |
| Camera.OrbitCamera.UpdateCameraPosition | DirectX3DRenderer/Application.cpp:338-357 | each pan offset moves by the `AxisStep` of its key pair, and the view matrix is rebuilt only if some key is held |
| Camera.OrbitCamera.Update | DirectX3DRenderer/Application.cpp:893-903 | one frame's camera work: the key step is applied and the view matrix is current |
| Renderer.WellOrderedConcat | DirectX3DRenderer/Application.cpp:603-625 | call lists compose: the output state, well-orderedness (both directions) and the drawn index count of `a + b` follow from those of `a` and `b` |
| Renderer.TearDownNeedsAllThree | DirectX3DRenderer/Application.cpp:613-619 | after a frame, the unbind, flush, release, resize sequence is allowed, and leaving out any one of the first three makes the resize break the rules |
| Renderer.ResizeOrdered | DirectX3DRenderer/Application.cpp:611-625 | from any output state the handler's calls are allowed, leave nothing held, bound or pending (or a held view only if it was recreated), and draw nothing |
| Renderer.DrawsKeep | DirectX3DRenderer/Application.cpp:1165 | draw calls issued through a held and bound view are allowed and leave the output state as it was |
| Renderer.FrameOrdered | DirectX3DRenderer/Application.cpp:1089-1107 | a frame of unbind, clear, depth clear, bind, draws and present is allowed whenever a view is held, leaves the view bound, and draws exactly its draws' indices |
| Renderer.IndicesStep | DirectX3DRenderer/Application.cpp:766-774 | visiting (x, y) appends the six indices of its cell exactly when x and y are not last, and nothing otherwise |
| Renderer.GridVerticesIsGridMesh | DirectX3DRenderer/Application.cpp:744-765 | the vertices pushed for every row, scaled by the largest sample, form the grid mesh of the samples |
| Renderer.Application.constructor | DirectX3DRenderer/Application.cpp:313-318 | after set-up the render target exists but is not yet bound, the depth buffer has the window's size, and no mesh is loaded |
| Renderer.Application.LoadAndPrepareRenderResource | DirectX3DRenderer/Application.cpp:664-883 | a failed load keeps the old mesh, except that the `HeightOnZ` variant (Application2.cpp:666) has already cleared its vertex list; a successful one leaves the de-strided height map, the model size, the grid mesh and its index list, and every index names a vertex |
| Renderer.Application.HeightFieldOf | DirectX3DRenderer/Application.cpp:719-739 | the dense copy of an image with a non-zero byte is a height field whose maximum is positive |
| Renderer.Application.BuildMesh | DirectX3DRenderer/Application.cpp:741-776 | after clearing and the two nested loops, the vertex list is the grid mesh and the index list is `MeshIndices`, all in range |
| Renderer.Application.PushRow | DirectX3DRenderer/Application.cpp:745-776 | one pass of the inner loop extends both lists from rows 0 .. y-1 to rows 0 .. y |
| Renderer.Application.VisitCell | DirectX3DRenderer/Application.cpp:746-775 | one loop body at (x, y) advances both lists from column x to column x + 1 |
| Renderer.Application.OnWindowResized | DirectX3DRenderer/Application.cpp:611-625 | the calls begin unbind, flush, release, resize, and recreate the view and the depth buffer only after a successful resize. The render target exists afterwards iff both the resize and the view creation succeeded. A successful resize gives a depth buffer of the window's size; a failed one keeps the old depth buffer. Nothing is left bound or pending. The calls are well ordered from any state and draw nothing |
| Renderer.Application.UpdateWindowSize | DirectX3DRenderer/Application.cpp:603-609 | the window takes the new size, and every guarantee of the resize handler holds at that size: the call order, the resize at the new size, the depth buffer (kept on failure), well-orderedness and no draw |
| Renderer.Application.Render | DirectX3DRenderer/Application.cpp:1153-1218 | no call at all without a render target; otherwise the frame's calls are exactly unbind, clear, depth clear, bind, the terrain draw, the base-plate draw (`HeightOnY` only) and present; it leaves the view bound, and keeps the invariant that the depth buffer it clears has the window's size; draws every terrain index (plus the six base-plate indices for `HeightOnY` only; Application2.cpp:1030-1044 draws the terrain alone), and is well ordered |

## Left out

- Image decoding (WIC), texture creation, staging and mapping are not modelled. `TextureLoad` stands in for them: it carries the stage that failed or the mapped bytes.
- Shaders, constant buffers, samplers, the raster state, the projection matrix and `UpdateModelBuffer` are not part of this model.
- The window procedure, `main`, the `Run` loop and its frame timing are not modelled; `deltaTime` is a parameter.
- Floating point is modelled as `real`: rounding in the divisions and in `1.0 - posZ` is not modelled.
- Camera.OrbitCamera.UpdateCameraPosition: the exact cancellation of opposite keys holds over `real`. In IEEE single precision, `(y + v) - v` need not equal `y`, and the camera's other additive updates (pan, zoom) round in the same way.
- Camera.Zoomed: the sensitivity is the exact rational 0.0001, whereas `0.0001f` is only the nearest single-precision value.
- The index arithmetic is unbounded here. The source's 32-bit `UINT` would wrap for images of more than 2^32 cells.
- Camera.OrbitCamera.RotateModel: takes the cosine and sine of each angle as a `Turn` rather than the mouse deltas, because Dafny has no trigonometry. The view matrix is kept as its look-at inputs rather than computed, because normalisation needs square roots.
- Camera.OrbitCamera.constructor: the movement flags are never initialised in the source, so the constructor takes their initial values as parameters.
- Renderer.Application.LoadAndPrepareRenderResource: requires a mapped image that is non-empty and has at least one non-zero byte. An all-zero image divides every sample by a zero maximum, giving NaN heights. A zero-sized image is left out too: the source then skips both loops and leaves the vertex and index lists empty, but a height field needs at least one sample (an image with a non-zero byte is never empty).
- Renderer.Application.LoadAndPrepareRenderResource: the copy reads one byte per pixel (`src[y * rowPitch + x]`), although the source comment speaks of the red channel of an RGBA image. The model reads exactly what the code reads.
- The creation of the GPU vertex and index buffers is not modelled; after a successful load the CPU lists stand for their contents. A failed second load in the `HeightOnZ` layout clears the CPU vertices while the buffers keep the old mesh; the source loads once, from empty lists, so it never reaches that state.
- Renderer.Application.OnWindowResized: the result of recreating the render-target view is ignored by the source; the model takes it as `createOk`. A failure to create the depth-stencil view throws in the source; here it always succeeds.
- Renderer.Application.Render: the base-plate vertex and index buffers are created on every frame and never released. The model records only the draw of their six indices, not the leak.
- Renderer.Application.Render: the following are not recorded as calls: the clear colour, the shader resources, the raster and depth-stencil states, the viewport, the constant buffers, and the vertex and index buffer bindings of the base plate. The depth-stencil view bound with the render target is not tracked in `Output`; `Valid` states its existence and size instead.
