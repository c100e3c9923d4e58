# Rasterized HiPS surveys and the camera field of view (aladin-lite renderer)

This project models two parts of the aladin-lite WebGL renderer and proves
properties about them in Dafny.

**Rendering one HiPS image survey** (`src/render/src/renderable/image_survey.rs`):
- Three transition policies, `Move`, `Zoom` and `UnZoom`. For each HEALPix cell to draw, a policy picks two resident tiles to cross-fade and a tessellation level.
- `add_vertices_grid`, which tessellates a cell into an n x n grid (n = 2^s). It appends the (n+1)^2 vertices to the vertex list and 6 n^2 u16 indices to the index list.
- `ImageSurvey`:
  - `set_vertices`, `update_vertices` and `draw`. These gate recomputation and track the GPU buffer sizes.
  - the mesh it uploads, which is one grid per cell to draw.
- `ImageSurveys`. It holds the surveys by root URL and the primary layer (`None`, one `Simple` survey, or a `Composite` of component surveys). Its `set_simple_hips` is a state machine. `get_view` picks the view the renderer follows.

**The field of view of the camera** (`src/render/src/camera/fov_vertices.rs`):
- A fixed ring of 44 points on the border of the viewport, in normalized device coordinates (NDC).
- The ring is unprojected through the projection, all or nothing. It is then rotated to model space point by point.
- The resulting outline is a polygon, or the whole sky.

Modules:

| file | module | contents |
|---|---|---|
| `options.dfy` | `Options` | `Option` |
| `healpix.dfy` | `Healpix` | NESTED HEALPix cells: `Parent` is `(d-1, i/4)`, valid cells, ancestors |
| `textures.dfy` | `SurveyTextures` | the tile residency the renderer queries: `contains`, `get`, `get_nearest_parent`, `is_ready` |
| `transition.dfy` | `Transition` | the policies, `get_textures_from_survey`, `num_subdivision` |
| `mesh.dfy` | `Mesh` | `add_vertices_grid`, and the mesh of a sequence of grids |
| `survey.dfy` | `Survey` | `ImageSurvey`: gesture dispatch, draw gating, the mesh build, buffer bookkeeping |
| `surveys.dfy` | `Surveys` | `ImageSurveys`: `set_simple_hips`, `get_view` |
| `fov_vertices.dfy` | `FovVertices` | `FieldOfViewVertices`: `ndc_to_world`, `world_to_model`, the ring, `set_fov`/`set_rotation`/`set_great_circles` |

Modelling choices:
- **Tile residency.** `ImageSurveyTextures` is a map from each resident cell to the arrival time of its tile.
  - `get_nearest_parent` climbs `parent()` until it meets a resident cell or a base cell.
  - `is_ready` means the 12 base cells are resident.
  - The `unwrap()`s on `get` become a residency precondition. The model proves that this precondition holds for every valid cell once the survey is ready (`ReadyMakesPairResolvable`). `draw` only builds a mesh in that state.
- **Parent of a base cell.** `HEALPixCell::parent` is not part of this model. `Parent` gives `(d-1, i/4)` for depth above 0 and makes a base cell (depth 0) its own parent. This decides two things:
  - `NearestParent` stops at a base cell;
  - under every policy, a base cell's pair is the cell itself twice (`PairCoversCell`).
- **Vertices.** A vertex is the data its 12 floats are computed from: the cell's grid, its grid point (i, j), the two tiles and the blend start time.
- **Index arithmetic.** Indices are `u16`.
  - The offset is the number of vertices already present, truncated to 16 bits.
  - Each stored index is `offset + local` modulo 2^16, as a release build computes it.
  - Up to 2^16 vertices, every triangle joins vertices of its own cell (`MeshGridIndicesOwnVertices`). Beyond that, the truncated offset makes later cells' indices name vertices of earlier cells. The model computes exactly that and does not exclude it.
- **Iteration order.** The `HashMap` iteration order in `update_vertices` is an arbitrary enumeration of the keys. The mesh is specified for that order, which is recorded as a ghost field.
- **Outside computations as inputs.**
  - The sphere subdivision level of a cell (`SphereSubdivided::get_num_subdivide`) is a function parameter.
  - The projection's inverse (`clip_to_world_space`) and the rotation matrix product are uninterpreted functions.
  - The camera's answers (`has_depth_decreased_while_unzooming`, `get_cells_in_camera(depth + 1)`, the aperture, whether it moved, the last user action) are parameters.
  - Whether new cells entered the view and whether new tiles are available are parameters of `Draw`.
- **Max depth.** `maxDepth` is the survey configuration's maximum depth, which the source reads from `textures.config()`. The model stores it on the survey.

## Model

| member | source | states |
|---|---|---|
| Healpix.ParentValid | src/render/src/renderable/image_survey.rs:154 | `cell.parent()` of a valid cell (index below 12·4^depth) is a valid cell |
| Healpix.AncestorDepth | src/render/src/renderable/image_survey.rs:154 | climbing parents never reaches a deeper cell |
| Healpix.AncestorTransitive | src/render/src/renderable/image_survey.rs:154 | an ancestor of an ancestor is an ancestor |
| SurveyTextures.ImageSurveyTextures.Get | src/render/src/renderable/image_survey.rs:76-77 | `get(cell).unwrap()` is defined only on a resident cell and returns that cell's own tile |
| SurveyTextures.ImageSurveyTextures.NearestParentIsAncestor | src/render/src/renderable/image_survey.rs:74-82 | `get_nearest_parent` returns an ancestor of the cell. It is strictly coarser for a cell of depth above 0, and a base cell is its own nearest parent |
| SurveyTextures.ImageSurveyTextures.NearestParentResident | src/render/src/renderable/image_survey.rs:828-832 | once the 12 base tiles are resident (`is_ready`), the nearest parent of every valid cell is resident |
| Transition.CellsToDraw | src/render/src/renderable/image_survey.rs:140-149 | `Move`/`Zoom` draw the view's cells. `UnZoom` draws the camera's cells one depth finer exactly when the view depth is below the max depth and decreased while unzooming, and draws the view's cells otherwise |
| Transition.GetTexturesFromSurvey | src/render/src/renderable/image_survey.rs:67-91 | one entry per cell to draw, and no other key. Each entry holds the two resident tiles of the pair `PairCells` selects for that cell: `RefiningPair` under `Move`/`Zoom`, `UnZoomPair` under `UnZoom` (also lines 103-127 and 139-183) |
| Transition.NumSubdivision | src/render/src/renderable/image_survey.rs:185-192 | `Move`/`Zoom` keep the sphere subdivision level s. `UnZoom` gives 0 when s <= 1 and s - 1 otherwise |
| Transition.UnZoomCoarser | src/render/src/renderable/image_survey.rs:185-192 | `UnZoom` never tessellates finer than `Move`, `Move` and `Zoom` agree, and `UnZoom` is exactly one level coarser from level 1 up |
| Transition.MoveAndZoomAgree | src/render/src/renderable/image_survey.rs:103-127 | `Move` and `Zoom` draw the same cells (the view's) and select the same pair for every cell |
| Transition.PairCoversCell | src/render/src/renderable/image_survey.rs:154-178 | under every policy, both selected tiles are the cell or one of its ancestors, so they cover the cell. A base cell is drawn from its own tile alone |
| Transition.RefiningBlendsCoarseToFine | src/render/src/renderable/image_survey.rs:73-88 | `Move`/`Zoom`: a resident cell blends to itself, from a strictly coarser tile when its depth is above 0 (a base cell blends from itself, see `PairCoversCell`). In every case the start tile is an ancestor of (or equal to) the end tile |
| Transition.ReadyMakesPairResolvable | src/render/src/renderable/image_survey.rs:76-85 | once ready, both tiles any policy selects for a valid cell are resident, so the `unwrap()`s cannot fail (also lines 162-176) |
| Transition.CellsToDrawResolvable | src/render/src/renderable/image_survey.rs:139-178 | once ready, every cell a policy draws resolves both of its tiles, given that the view and the camera report valid cells |
| Transition.NearestParentValid | src/render/src/renderable/image_survey.rs:160 | the nearest parent of a valid cell is a valid cell |
| Mesh.WrapU16 | src/render/src/renderable/image_survey.rs:450 | the `as u16` truncation gives a value below 2^16 and leaves values already below it unchanged |
| Mesh.AddVerticesGrid | src/render/src/renderable/image_survey.rs:432-512 | appends the (n+1)^2 grid vertices, n = 2^s, row by row, and the 6·n^2 indices of the quads offset by the truncated vertex count. Every new index names one of the vertices present after the call, and one of the new vertices whenever they all fit in the u16 range |
| Mesh.AppendGridVertices | src/render/src/renderable/image_survey.rs:451-495 | the nested vertex loops append exactly the grid's vertices, rows i then columns j |
| Mesh.AppendGridIndices | src/render/src/renderable/image_survey.rs:497-512 | the nested index loops append, for each quad (i, j), the triangles (0, 1, 2) and (1, 3, 2) of its corners, offset with u16 wrap-around |
| Mesh.AppendRowIndices | src/render/src/renderable/image_survey.rs:498-511 | the inner loop over j appends the two triangles of each quad of row i, in order, offset with u16 wrap-around |
| Mesh.GridVerticesLength | src/render/src/renderable/image_survey.rs:452-453 | `rows` rows of the grid hold rows·(n+1) vertices |
| Mesh.GridVertexAt | src/render/src/renderable/image_survey.rs:453 | vertex (i, j) sits at `id_vertex_0 = j + i·(n+1)` of the appended vertices |
| Mesh.GridIndicesLength | src/render/src/renderable/image_survey.rs:497-512 | six indices per quad: `rows` rows of n quads give 6·n·rows indices |
| Mesh.WrappedIndex | src/render/src/renderable/image_survey.rs:505-510 | a local vertex number added to the truncated offset names one of the first offset + count vertices, and exactly offset + local without wrap-around |
| Mesh.GridIndicesWithin | src/render/src/renderable/image_survey.rs:500-510 | every index of a grid names a vertex below base + (n+1)^2, and one of the grid's own vertices when no wrap-around occurs |
| Mesh.GridIndicesBelowU16 | src/render/src/renderable/image_survey.rs:499-502 | every stored index fits in a u16 |
| Mesh.GridVerticesOfGrid | src/render/src/renderable/image_survey.rs:452-497 | every appended vertex carries the cell's grid (its tiles and blend start) |
| Mesh.MeshSnoc | src/render/src/renderable/image_survey.rs:731-746 | adding one more cell's grid appends its vertices, and its indices offset by the vertices already built |
| Mesh.MeshVerticesLength | src/render/src/renderable/image_survey.rs:731-746 | the mesh of several grids holds the sum of their (n+1)^2 vertices |
| Mesh.MeshIndicesLength | src/render/src/renderable/image_survey.rs:731-746 | the mesh of several grids holds the sum of their 6·n^2 indices |
| Mesh.MeshIndicesInRange | src/render/src/renderable/image_survey.rs:731-786 | every index of the uploaded mesh names one of its uploaded vertices and fits in a u16, so the rasterizer never reads past the vertex buffer |
| Mesh.MeshGridIndicesOwnVertices | src/render/src/renderable/image_survey.rs:450-510 | while the whole mesh has at most 2^16 vertices, the indices each cell's grid adds lie in that grid's own block of vertices (between the vertex counts before and after it) and name vertices of that grid. So every triangle stays inside one cell, even when two cells have equal grids |
| Survey.PolicyFor | src/render/src/renderable/image_survey.rs:704-719 | Unzooming uses `UnZoom`, Zooming uses `Zoom`, and Moving and Starting use `Move` |
| Survey.DrawDecision | src/render/src/renderable/image_survey.rs:828-836 | `draw` does nothing until ready. When ready, it raytraces exactly above 150 degrees and rasterizes otherwise, recomputing exactly when new cells were added, tiles became available or the camera moved (also lines 887-894) |
| Survey.GridsOf | src/render/src/renderable/image_survey.rs:731-746 | one grid per cell drawn |
| Survey.GridsOfAt | src/render/src/renderable/image_survey.rs:731-745 | the grid of cell k is that cell, tessellated at the policy's level, blending between the two tiles the policy selects |
| Survey.UnsubdividedMeshFits | src/render/src/renderable/image_survey.rs:304-309 | up to 768 cells drawn as single quads take 4 vertices and 6 indices each, which fits the buffers allocated up front |
| Survey.HashMapOrder | src/render/src/renderable/image_survey.rs:730 | the `HashMap` iteration visits every key exactly once |
| Survey.GridsToDrawOfPairs | src/render/src/renderable/image_survey.rs:731-745 | building each grid from the map entry gives the grid of the policy's pair for that cell |
| Survey.AppendCellGrid | src/render/src/renderable/image_survey.rs:732-745 | one loop turn extends the mesh by the cell's grid, built from the ending tile's arrival time and the policy's subdivision |
| Survey.AppendCellGrids | src/render/src/renderable/image_survey.rs:724-746 | the loop builds exactly the mesh of the map's grids, in the iteration order |
| Survey.BuildMesh | src/render/src/renderable/image_survey.rs:721-746 | the mesh built before upload has one grid per cell to draw, each cell once, and every index names one of its vertices and fits in a u16 |
| Survey.ImageSurvey.constructor | src/render/src/renderable/image_survey.rs:544-628 | both buffers are allocated at their maximum sizes (768·4·12 floats, 768·6 indices), and there is nothing to draw yet |
| Survey.ImageSurvey.SetColor | src/render/src/renderable/image_survey.rs:634-636 | only the colour changes |
| Survey.ImageSurvey.UpdateVertices | src/render/src/renderable/image_survey.rs:721-786 | the uploaded mesh is that of the cells to draw and `num_idx` is its index count. Each buffer grows to the new data when they exceed it and keeps its size otherwise, and the class invariant is kept |
| Survey.ImageSurvey.Upload | src/render/src/renderable/image_survey.rs:747-785 | the new mesh replaces the old one and `num_idx` is its index count. A buffer is reallocated to the new data exactly when they exceed it, so each size becomes the larger of the old size and the new data. Colour, tiles and view are untouched, and the class invariant holds |
| Survey.ImageSurvey.SetVertices | src/render/src/renderable/image_survey.rs:704-719 | `update_vertices` with the policy of the last gesture |
| Survey.ImageSurvey.Draw | src/render/src/renderable/image_survey.rs:827-898 | returns the decision of `DrawDecision`. The mesh is rebuilt with the gesture's policy when the rasterizer recomputes, and left untouched otherwise |
| Surveys.Named | src/render/src/renderable/image_survey.rs:989-993 | the root URLs the primary layer names: none, the simple one, or the composite's components |
| Surveys.NextPrimary | src/render/src/renderable/image_survey.rs:1122-1184 | a simple survey becomes the only primary survey. A new component joins the composite or starts one. A reselected survey leaves the layer as it was. The layer stays well formed (composite non-empty, no repeats), and the names go from the old set, minus those dropped, plus the new id |
| Surveys.SetSimpleHipsTwice | src/render/src/renderable/image_survey.rs:1126-1133 | adding the same survey a second time only recolours it and leaves the layer unchanged (also lines 1163-1170) |
| Surveys.RemoveEachIsSetRemoval | src/render/src/renderable/image_survey.rs:1151-1155 | removing the composite's ids one by one removes exactly that set of keys |
| Surveys.ImageSurveys.constructor | src/render/src/renderable/image_survey.rs:1011-1040 | no surveys and no primary layer |
| Surveys.AddKeepsConsistent | src/render/src/renderable/image_survey.rs:1134-1182 | storing a survey that is not already in place, after dropping the surveys the layer gives up, keeps the map consistent with the new primary layer: its keys are exactly the layer's names, each survey sits under its own id, and each kind fits the layer |
| Surveys.ImageSurveys.SetSimpleHips | src/render/src/renderable/image_survey.rs:1122-1184 | the new primary layer is `NextPrimary`. A reselection keeps the map and recolours the stored survey in place, leaving its tiles, view, mesh, index count and buffer sizes as they were. Otherwise the dropped surveys leave the map and the new survey is stored under its root URL. The invariant is kept: the keys are exactly the names of the layer, each survey is stored under its own id, and its kind fits the layer |
| Surveys.ImageSurveys.RemoveComponents | src/render/src/renderable/image_survey.rs:1151-1155 | the loop drops every component of the composite from the map |
| Surveys.ImageSurveys.GetView | src/render/src/renderable/image_survey.rs:1186-1203 | `get_view` gives no view exactly when no survey is loaded. Otherwise it gives the view of the simple survey or of the composite's first component |
| Surveys.FindComponent | src/render/src/renderable/image_survey.rs:1163-1171 | the search finds the id exactly when it is among the components |
| FovVertices.NdcToWorld | src/render/src/camera/fov_vertices.rs:10-35 | no result exactly when some scaled ring point fails to unproject. Otherwise there is one world point per ring point, in order, each the unprojection of `(x·ndc_to_clip.x·zoom, y·ndc_to_clip.y·zoom)` |
| FovVertices.UnprojectsUnique | src/render/src/camera/fov_vertices.rs:10-35 | the unprojection of a ring is determined by the ring: all or nothing, point by point |
| FovVertices.WorldToModel | src/render/src/camera/fov_vertices.rs:36-45 | same length, and each point is taken independently through the matrix |
| FovVertices.Linspace | src/render/src/camera/fov_vertices.rs:69-77 | n values from a to b, both included, each between the two. Consecutive values are (b − a)/(n − 1) apart, so the i-th is a + i·(b − a)/(n − 1) |
| FovVertices.LinspaceSpaced | src/render/src/camera/fov_vertices.rs:69-77 | values a + i·step with step = (b − a)/(n − 1) start at a, end at b, and are one step apart |
| FovVertices.LinspaceBounded | src/render/src/camera/fov_vertices.rs:69-77 | those values all lie between a and b, whichever of the two is larger |
| FovVertices.LinspaceStep | src/render/src/camera/fov_vertices.rs:69-77 | the (i + 1)-th multiple of the step is one step past the i-th |
| FovVertices.LinspaceLast | src/render/src/camera/fov_vertices.rs:69-77 | n − 1 steps of (b − a)/(n − 1) lead from a to b |
| FovVertices.LinspaceBetween | src/render/src/camera/fov_vertices.rs:69-77 | each evenly spaced step from a towards b stays between them |
| FovVertices.Repeat | src/render/src/camera/fov_vertices.rs:72 | `repeat(v).take(n)` is n copies of v |
| FovVertices.Ring | src/render/src/camera/fov_vertices.rs:47-49 | the reference ring, side by side, as `RingPoint` gives it: 4 + 2·10 + 2·10 = 44 points. Positions 0-11 run along the bottom side from (−1, −1) to (1, −1) in steps of 2/11. Positions 12-21 run up the inside of the right side. Positions 22-33 run along the top side from (1, 1) to (−1, 1). Positions 34-43 run down the inside of the left side |
| FovVertices.RingOnBorder | src/render/src/camera/fov_vertices.rs:47-49 | every reference ring point is on the viewport border, with the corners at positions 0, 11, 22 and 33, and no two consecutive points (the last and the first included) are equal |
| FovVertices.BottomSide | src/render/src/camera/fov_vertices.rs:69-70 | the bottom side of the reference ring is `linspace(-1, 1, 12)` at y = −1 |
| FovVertices.RightSide | src/render/src/camera/fov_vertices.rs:84-88 | inside the right side, the reference ring follows `linspace(-1, 1, 12)` at x = 1 |
| FovVertices.TopSide | src/render/src/camera/fov_vertices.rs:73-77 | the top side of the reference ring is `linspace(1, -1, 12)` at y = 1 |
| FovVertices.LeftSide | src/render/src/camera/fov_vertices.rs:90-94 | inside the left side, the reference ring follows `linspace(1, -1, 12)` at x = −1 |
| FovVertices.ZipIsRing | src/render/src/camera/fov_vertices.rs:69-100 | the x list and the y list built as `new` builds them, the y list cut to 44 values, zipped give `RingPoint(k)` at every position k |
| FovVertices.NdcRing | src/render/src/camera/fov_vertices.rs:69-100 | the x list (`linspace`, repeated 1, `linspace`, repeated −1) and the y list (repeated −1, `linspace`, repeated 1, `linspace`, minus its 45th value after `pop`), zipped point by point, are exactly the reference ring `Ring()`. So every point lies on the border |
| FovVertices.GreatCircles | src/render/src/camera/fov_vertices.rs:171-184 | the outline is a polygon exactly below the threshold aperture with model vertices present, and that polygon is made of them. Otherwise it is the whole sky |
| FovVertices.FieldOfViewVertices.constructor | src/render/src/camera/fov_vertices.rs:62-124 | the stored NDC ring is the reference ring `Ring()`. It is unprojected and rotated, and the outline is a polygon of the model vertices exactly when every ring point unprojected, with no aperture test |
| FovVertices.FieldOfViewVertices.SetProjection | src/render/src/camera/fov_vertices.rs:127-142 | the same as `set_fov` |
| FovVertices.FieldOfViewVertices.SetFov | src/render/src/camera/fov_vertices.rs:144-159 | the ring is unchanged and unprojected again, then rotated, and the outline is settled by `GreatCircles` |
| FovVertices.FieldOfViewVertices.SetRotation | src/render/src/camera/fov_vertices.rs:161-169 | model vertices exist exactly when world vertices do and are their image through the new matrix. The world vertices and the ring are unchanged |
| FovVertices.FieldOfViewVertices.SetGreatCircles | src/render/src/camera/fov_vertices.rs:171-184 | the outline becomes `GreatCircles(aperture, threshold, model)`, and nothing else changes |

## Left out

- Mesh.AddVerticesGrid: requires a subdivision level of at most 7. From level 8 up, the source's u16 products `j + (i + 1)·(n + 1)` overflow (256·257 > 65535), and the model does not reproduce that overflow.
- Survey.ImageSurvey.UpdateVertices: requires the subdivision level of every cell to be at most 7, for the reason above, and the camera's cells to be valid HEALPix cells.
- Survey.ImageSurvey.Draw: requires the same two conditions as `UpdateVertices`.
- Survey.ImageSurvey.SetVertices: requires the same two conditions as `UpdateVertices`: every cell's subdivision level at most 7, and valid camera cells.
- Survey.BuildMesh: requires every cell's subdivision level to be at most 7, and the camera's cells to be valid HEALPix cells, for the reasons above.
- Survey.AppendCellGrids: requires every cell's subdivision level to be at most 7, because it appends one `add_vertices_grid` per cell.
- Survey.AppendCellGrid: requires the cell's subdivision level to be at most 7, because it is one `add_vertices_grid` call.
- The floats of a vertex:
  - lon/lat and xyz from `cdshealpix::grid_lonlat`;
  - the tile UVs (`TileUVW`) and their interpolation;
  - the packing into 12 `f32`.
  A vertex keeps only the data they are computed from.
- The `as u32` casts of the buffer sizes. They are exact on the 32-bit target for the sizes involved.
- WebGL: buffer creation, upload, attribute layout, VAO binding, shaders and uniforms (`Color` shaders, `SendUniforms`, `GrayscaleParameter` values). These are foreign graphics calls.
- `ImageSurveys::draw`, which compares the aperture with a bare 110 and draws the primary and overlay layers. It is graphics dispatch whose threshold does not match the 150 degrees of `ImageSurvey::draw`.
- The overlay layer. No modelled operation ever sets it.
- `HiPS::create`, `HiPSConfig`, `ImageSurvey::from`, `refresh_view`/`refresh_views`, `set_available_tiles`, `add_resolved_tiles` and `TaskExecutor`. These are asynchronous tile fetching and JavaScript interop.
- The accessors `get`, `len`, `iter`, `iter_mut`, `get_textures`, `get_textures_mut`, `get_vertices`, `get_bounding_box` and `_type`. They only expose fields.
- `HEALPixCellsInView` and `get_cells_in_camera`. These are not part of this model. The view is the cells and depth it reports, and `ImageSurvey::new`'s initial view is a constructor parameter.
- `SphereSubdivided::get_num_subdivide`. This is not part of this model, and its result is a function parameter.
- The internals of the tile store (`ImageSurveyTextures`) and `FieldOfViewType`/`BoundingBox`. These are not part of this model. The bounding box of a polygon is not computed.
- Floating point:
  - NDC coordinates, the aperture, the threshold and `linspace` are over the reals;
  - `f32` rounding (for instance, the last `linspace` value being exactly the end point) is not modelled;
  - the projection's inverse and the matrix product are uninterpreted functions.
- `FieldOfViewVertices::new`'s unused `_center` argument.
- Rust ownership. The surveys stored in `ImageSurveys` are objects, and the model does not state that they are distinct from the survey passed to `set_simple_hips`.
