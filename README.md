# Picking, render passes and index buffers of a small WebGL lab, modelled in Dafny

This project models the exactly statable core of a WebGL exercise. There, a pawn made of
three glTF parts (base, column, head) is rendered with shadow mapping. A click picks a part,
and the picked part slides up or down on an animation. The project covers three pieces.

- **Frame and picking state machine**, from `js/lab10.js`:
  - the keyboard handler: `r` toggles render-pick-only, `l` toggles lock-picking, `a`
    cycles the animation style;
  - the mouse handler's click flag;
  - the pick pass: each geometry with a program is drawn with a colour from a running
    counter, then the pending click is resolved from the red byte under the cursor;
  - the fixed order of the pick, shadow and final passes;
  - the capability filters of the shadow and final passes;
  - the translations the three pawn callbacks accumulate in `mat4_VM`, counted in units of
    `g_value`;
  - the table-building and buffer-creating loops of `initScene`.

  GPU work is modelled abstractly:
  - buffer handles come from a fresh-handle allocator (`SceneInit.Gpu`);
  - link and reflection results are inputs (`SceneInit.LinkResult`);
  - the framebuffer readback is a byte parameter;
  - every draw, shadow-map binding and animation request is appended to a trace of
    `FrameSpec.Event`s kept in `Frame.Context`.
- **Tower generator**, `create_tower` in `js/geometry_tower.js`. Nested loops fill a vertex
  array, a normal array and a 16-bit index array in place. The model keeps the three
  arrays. It proves the offset arithmetic and every stored index against a layout
  specification (`TowerLayout`). This is done for any number of sides ≥ 3 and any profile
  of ≥ 4 rings. `Tower.CreateGeometryTower` then instantiates the source's 8 sides and
  26 rings.
- **Tiny-house tables**, `js/geometry_house.js`: the constant vertex, normal, triangle and
  outline tables, and the two geometries built from them. Range, arity, per-face grouping
  and closed outlines are proved by computation.

Layout:

| file | module | what it holds |
|---|---|---|
| `geometry_data.dfy` | `GeometryData` | what a geometry producer hands over; typed-array conversions |
| `house.dfy` | `TinyHouse` | the house tables and geometries |
| `tower_layout.dfy` | `TowerLayout` | vertex and index slot encoding, index values, layout lemmas |
| `tower.dfy` | `Tower` | the in-place `CreateTower` method and `createGeometryTower` |
| `scene.dfy` | `SceneModel` | programs, geometries, lights, and the illumination scene |
| `scene_init.dfy` | `SceneInit` | `initScene`: reflection tables, buffer handles, callbacks |
| `frame_spec.dfy` | `FrameSpec` | UI state, keys, click resolution, pick colours, pass events |
| `illumination_frame.dfy` | `IlluminationFrame` | one frame over the initialized illumination scene |
| `frame.dfy` | `Frame` | the mutable `Context` class: handlers, passes, `Render`, `Step` |

The pick loop sets its uniforms only after each draw. As a result each geometry is drawn
with the colour assigned to the geometry before it: the first one gets the previous frame's
last assignment, or the uniform's initial 0 in the very first frame. With the scene order
base, column, head, every frame after the first shows base, column and head as 163, 82 and
122 (`FrameSpec.PickSteadyState`, `IlluminationFrame.IlluminationPickPass`). These are
exactly the identifiers the pawn callbacks test. The base reads back 0 only in the first
frame, and 163 from then on.

## Model

| member | source | states |
|---|---|---|
| GeometryData.ToUint8 | js/geometry_house.js:55 | storing into a Uint8Array keeps a value modulo 2^8; values 0..255 are kept unchanged |
| GeometryData.ToUint16 | js/geometry_tower.js:76 | storing into a Uint16Array keeps a value modulo 2^16; values 0..65535 are kept unchanged |
| TinyHouse.TableSizes | js/geometry_house.js:11-28 | vertices and normals both have 90 numbers, i.e. 30 three-component entries, one normal per vertex |
| TinyHouse.TriangleIndicesValid | js/geometry_house.js:29-37 | the triangle list has 48 entries, a multiple of 3, all naming one of the 30 vertices |
| TinyHouse.OutlineIndicesValid | js/geometry_house.js:38-46 | the outline list has 60 entries, an even number, all naming one of the 30 vertices |
| TinyHouse.FacesTileVertices | js/geometry_house.js:10-47 | the seven faces' vertex groups tile vertices 0..29 in table order, and the faces' runs concatenate to the two index tables |
| TinyHouse.FaceTrianglesInGroup | js/geometry_house.js:30-36 | each face's triangles are whole triangles using only that face's vertices (base 0-3 … back 25-29) |
| TinyHouse.FaceOutlineClosed | js/geometry_house.js:39-45 | each face's outline pairs form a closed chain (a,b),(b,c),…,(z,a) within that face's vertices |
| TinyHouse.CreateGeometryHouse | js/geometry_house.js:49-61 | a triangle geometry with the 90-float a_Position and a_Normal arrays, whose 8-bit element buffer is the triangle table unchanged, with count = length, a multiple of 3, all indices below 30 |
| TinyHouse.CreateGeometryHouseWires | js/geometry_house.js:64-76 | a line geometry with the 90-float a_Position and a_Normal arrays, whose 8-bit element buffer is the outline table unchanged, with count = length, even, all indices below 30 |
| TinyHouse.Uint8Array | js/geometry_house.js:55 | the converted list has the same length, each entry modulo 2^8, and equals the input when every entry is below 256 |
| TowerLayout.Next | js/geometry_tower.js:104 | `(i+1) % n_sides` is a side index that wraps the last side back to side 0 |
| TowerLayout.VertexSlotDecode | js/geometry_tower.js:91-99 | the offset 3·(k·n+i)+c written for ring k, side i, axis c decodes back to (k, i, c) |
| TowerLayout.VertexSlotEncode | js/geometry_tower.js:71-75 | every slot of the 3·n_rings·n_sides vertex array is the offset of exactly one (ring, side, axis) |
| TowerLayout.VertexSlotInBounds | js/geometry_tower.js:74-75 | every vertex and normal write lies inside the arrays of length 3·n_vertices |
| TowerLayout.IndexSlotDecode | js/geometry_tower.js:103-126 | index slot (block, side, subslot) decodes back uniquely: the fan slots 3i+c and 3n+3i+c and the quad slots k·3n+6i+c |
| TowerLayout.IndexSlotEncode | js/geometry_tower.js:76 | every index slot decomposes into a block, a side and one of six subslots |
| TowerLayout.IndexSlotInBounds | js/geometry_tower.js:76 | every index write lies inside the array of length (3·n_rings−1)·n_sides |
| TowerLayout.IndexBelowVertexCount | js/geometry_tower.js:71 | every stored index is below n_vertices = n_rings·n_sides |
| TowerLayout.IndexWrittenPrefix | js/geometry_tower.js:76 | a slot is written iff it lies in the leading 6n·((n_rings−3)/2+1) slots (block 0 or a block below the last quad), which fit the array; every later slot stays 0 |
| TowerLayout.WrittenIndexCountEven | js/geometry_tower.js:113 | for an even ring count the written prefix is 3·n_sides·(n_rings−2) slots |
| TowerLayout.BottomFanAt | js/geometry_tower.js:105-107 | slots 3i..3i+2 hold (i, n+i, n+(i+1)%n) |
| TowerLayout.TopFanAt | js/geometry_tower.js:108-110 | slots 3n+3i..3n+3i+2 hold ((R−2)n+(i+1)%n, (R−2)n+i, (R−1)n); the last is the single apex |
| TowerLayout.SideQuadAt | js/geometry_tower.js:113-126 | for even k with 2 ≤ k < R−2, slot k·3n+6i+c holds (idx0,idx1,idx2,idx0,idx2,idx3), with the shared diagonal idx0–idx2 |
| TowerLayout.TriangleCornersDistinct | js/geometry_tower.js:105-125 | each written triangle's three index values are pairwise distinct |
| TowerLayout.TriangleSlots | js/geometry_tower.js:105-125 | each written triangle occupies three consecutive slots starting at a multiple of 3 |
| TowerLayout.WrittenTriangleNondegenerate | js/geometry_tower.js:105-125 | the three stored corners of every written triangle are distinct vertices |
| Tower.VertexAtSlot | js/geometry_tower.js:91-99 | offset 3·(k·n+i)+c is inside the array and receives component c of ring k turned to side i |
| Tower.VertexFillStep | js/geometry_tower.js:92-99 | writing ring k of side i fills exactly the three slots at its offset and nothing else |
| Tower.VertexFillSide | js/geometry_tower.js:86-100 | after all rings of side i, side i+1 starts from ring 0 |
| Tower.IndexFanStep | js/geometry_tower.js:103-110 | the six fan writes of side i fill exactly that side's bottom-fan and top-fan slots |
| Tower.IndexQuadStep | js/geometry_tower.js:113-126 | the six writes of quad k of side i fill exactly the slots from k·3n+6i with its two triangles |
| Tower.IndexFillSide | js/geometry_tower.js:113-127 | once k reaches n_rings−2 the rest of side i stays 0 and side i+1 starts |
| Tower.CreateTower | js/geometry_tower.js:69-127 | the arrays have lengths 3·n_vertices and (3·n_rings−1)·n_sides; every vertex and normal slot holds its ring/side/axis coordinate, every index slot the layout's value converted to 16 bits |
| Tower.FillRings | js/geometry_tower.js:91-100 | the ring loop of side i, with its running offset stepping by 3·n_sides, writes exactly that side's vertex and normal slots |
| Tower.FillFans | js/geometry_tower.js:103-110 | the six fan writes of side i produce exactly that side's bottom- and top-fan slots |
| Tower.FillQuad | js/geometry_tower.js:114-125 | one quad pass writes exactly the six slots from k·3n+6i with the quad's two triangles |
| Tower.FillQuads | js/geometry_tower.js:113-126 | the quad loop over k = 2, 4, … below n_rings−2 completes side i, so side i+1 starts from a correct array |
| Tower.VertexSlotsDistinct | js/geometry_tower.js:91-99 | distinct (ring, side, axis) triples have distinct offsets, so no vertex slot is written twice |
| Tower.TowerIndicesFitUint16 | js/geometry_tower.js:76 | with at most 65536 vertices, the 16-bit store of every index is lossless |
| Tower.Uint16Array | js/geometry_tower.js:143 | the converted list has the same length, each entry modulo 2^16, and equals the input when every entry fits |
| Tower.CreateGeometryTower | js/geometry_tower.js:136-150 | a triangle geometry with 624 position and 624 normal floats; UNSIGNED_SHORT elements with count = length = 616, not a multiple of 3; every index below 208; the layout's values; zero from slot 576 on |
| SceneInit.Gpu.CreateBuffer | js/lab10.js:96 | every created buffer handle is new: the allocator returns its counter and advances it |
| SceneInit.LastIndexOf | js/lab10.js:66-71 | the last position reporting a name, or −1 exactly when no entry reports it |
| SceneInit.ReflectedTable | js/lab10.js:65-80 | after reflection a name is in the table iff it was before or was reported; a reported name maps to its last reported location, any other name keeps its location |
| SceneInit.ReflectedDistinct | js/lab10.js:65-80 | with distinct reported names every active attribute or uniform name maps to its own location |
| SceneInit.ReflectActive | js/lab10.js:66-71 | the reflection loop computes exactly the reflected table |
| SceneInit.Compiled | js/lab10.js:57-80 | linking keeps the program's name and callback |
| SceneInit.FirstFailure | js/lab10.js:55-61 | no failure iff every link succeeded; otherwise the index of a failed link with all earlier links successful |
| SceneInit.FirstFailureAt | js/lab10.js:58-61 | a failed link preceded only by successes is the first failure |
| SceneInit.AssignHandlesTable | js/lab10.js:94-100 | buffers_gl gets exactly the keys of buffers added; each new handle is in [start, start+|buffers|) and belongs to the name it was created for; other keys are unchanged |
| SceneInit.HandlesNeededPrefix | js/lab10.js:84-110 | handle counts grow along the geometry list |
| SceneInit.CreateGeometryBuffers | js/lab10.js:93-109 | one geometry's loop gives the geometry its buffer table and element handle, consuming one handle per attribute plus one for elements |
| SceneInit.SetRenderersAttach | js/lab10.js:113-121 | the six attach statements attach exactly the callbacks named for simple, shadow, base, column, head and head_simple |
| SceneInit.BuffersCreatedAt | js/lab10.js:84-110 | geometry j receives its handles from start + the handles of the geometries before it |
| SceneInit.LinkPrograms | js/lab10.js:55-81 | the program loop succeeds iff every link does; on success every program is linked with its tables; on failure it stops at the first failure, leaving later programs untouched |
| SceneInit.CreateAllBuffers | js/lab10.js:84-110 | all buffer loops together produce the specified geometries and consume exactly the handles they need |
| SceneInit.InitScene | js/lab10.js:50-124 | returns true iff every program links; on failure no buffer is created and the failed program has a null id; on success programs, buffers and callbacks are as specified |
| SceneInit.WithBuffersTable | js/lab10.js:94-109 | buffers_gl gets exactly the keys of buffers, with new handles in [start, start+|buffers|); with elements, elements_gl is the one handle after those, otherwise it is unchanged |
| SceneInit.WithBuffersDistinct | js/lab10.js:94-100 | two attribute names of one geometry get different buffer handles |
| SceneInit.BuffersCreatedRanges | js/lab10.js:84-110 | each geometry's handles form a range below every later geometry's range, so no handle is shared |
| SceneInit.InitializedRenderers | js/lab10.js:55-121 | after success each program is compiled with its link handle, and can render iff a callback was attached to its name or it had one already |
| SceneInit.IlluminationRenderers | js/lab10.js:113-121 | in the illumination scene every program except shadowmap_create can render, and base, column, head and head_simple get their own callbacks |
| SceneInit.FailedInitUntouched | js/lab10.js:57-61 | after a failed link the geometries are unchanged, the failed program has no handle and later programs are untouched |
| SceneInit.Init | js/lab10.js:259-267 | init ignores initScene's result: after a failed link it carries on with geometries that have no GPU buffers |
| SceneModel.ProgramNamed | js/lab10.js:1010 | `scene.programs[name]` is found iff a program of that name exists, and the result has that name |
| FrameSpec.JsRem | js/lab10.js:292 | JavaScript's `%` agrees with the mathematical remainder for non-negative operands and keeps the dividend's sign otherwise |
| FrameSpec.KeyPressFrame | js/lab10.js:273-305 | `r` negates renderPickOnly, `l` negates lockPicking, only `a` moves animationStyle, no key touches click or selection state, and any other key changes nothing |
| FrameSpec.KeyToggleInvolution | js/lab10.js:275-293 | pressing `r` twice, or `l` twice, restores the state |
| FrameSpec.AnimationStyleCycle | js/lab10.js:293-303 | from a style in {0,1,2} every key leaves it in {0,1,2}; `a` sets it to (old+1) % 3, and three presses restore it |
| FrameSpec.ResolveClickCases | js/lab10.js:1037-1053 | a pending unlocked click clears the flag, resets g_value and g_startTime and selects the pixel byte, changing nothing else; with no click, or while locked, nothing changes |
| FrameSpec.LockedSelectionFrozen | js/lab10.js:1037-1038 | while locked and without `l`, any run of keys, clicks and frames keeps the selection and the lock, and a pending click stays pending |
| FrameSpec.UnlockResolvesPendingClick | js/lab10.js:1037-1053 | a click pending while locked is resolved by the first pick pass after unlocking |
| FrameSpec.PickIdValues | js/lab10.js:1001-1031 | the colours 0.32 + 0.16k give round(255·r) = 82, 122, 163, 204, 245, and each is the byte the framebuffer shows |
| FrameSpec.PickBytesDistinct | js/lab10.js:1001-1031 | six pickable geometries read back as six different bytes; the sixth and seventh collide at 255 |
| FrameSpec.EventsAppend | js/lab10.js:1096-1106 | pass markers, shadow-draw counts and final draws of concatenated traces concatenate |
| FrameSpec.PickDrawsLag | js/lab10.js:1005-1035 | one draw per geometry with a program, in scene order; the j-th is drawn with the uniform from before the pass if j = 0, and with colour 0.32 + 0.16(j−1) otherwise |
| FrameSpec.PickDrawsOfThree | js/lab10.js:1005-1035 | three pickable parts, from any starting uniform: drawn with that uniform, 82's colour and 122's colour, leaving the uniform at 163's colour |
| FrameSpec.PickSteadyState | js/lab10.js:1005-1035 | with three pickable parts, the first frame shows the first with 0, then 82 and 122; every later frame shows 163, 82, 122 |
| FrameSpec.ShadowGeometryDrawsCount | js/lab10.js:925-937 | one light's draws are one per geometry with elements, all shadow draws into that light's map |
| FrameSpec.ShadowGeometryDrawsMembership | js/lab10.js:925-937 | a geometry is drawn into a light's map iff it has elements |
| FrameSpec.ShadowDrawsCount | js/lab10.js:946-964 | the shadow pass makes (lights with a shadow map) × (geometries with elements) draws |
| FrameSpec.ShadowDrawsMembership | js/lab10.js:946-964 | a (light, geometry) pair is drawn iff the light has a shadow map and the geometry has elements |
| FrameSpec.CallbackEventsShape | js/lab10.js:616-801 | a callback makes exactly one final draw, with its own callback, and no pass marker or shadow draw |
| FrameSpec.FinalDrawsShape | js/lab10.js:978-987 | the final pass calls a callback exactly once per geometry whose program can render, in scene order, and it is that program's callback |
| FrameSpec.PawnOffsets | js/lab10.js:640-645 | accumulated in draw order: base is at −g_value when 163 or 82 is selected; column is back at the frame's VM for every selection; head is at +g_value when 82 or 122 is selected |
| FrameSpec.PassMarkers | js/lab10.js:990-1106 | each pass carries exactly its own marker |
| FrameSpec.FramePassOrder | js/lab10.js:1096-1106 | each frame's passes are [pick] when renderPickOnly holds and [pick, shadow, final] otherwise |
| IlluminationFrame.ProgramNamedAt | js/lab10.js:1010 | a program lookup by name finds the first program of that name |
| IlluminationFrame.PawnProgram | js/lab10.js:978-987 | base, column and head each resolve to the program of their own name, whose callback the final pass runs |
| IlluminationFrame.PassProgramsFound | js/lab10.js:1010 | the pick pass finds head_simple with its callback, and the shadow pass finds shadowmap_create |
| IlluminationFrame.IlluminationInitialized | js/scene_illumination.js:63-131 | after a successful initScene the scene has the seven programs in order with their callbacks, and the three pawn parts with elements, each bound to its own program, and the one spot light with a shadow map |
| IlluminationFrame.IlluminationLookups | js/lab10.js:978-987 | base, column and head resolve to their pawn callbacks, and head_simple and shadowmap_create are found |
| IlluminationFrame.IlluminationFinalSteps | js/lab10.js:978-987 | the final pass runs the base, column and head callbacks in turn, each on the VM the previous one left |
| IlluminationFrame.IlluminationFinalPass | js/lab10.js:640-645 | from the frame's fresh VM: base −g_value when 163/82 is selected; column always at rest; head +g_value when 82/122 is selected; base requests the animation when 163 or 82 is selected, and head when 122 is |
| IlluminationFrame.IlluminationShadowPass | js/lab10.js:940-965 | the shadow pass binds spot0's map and draws base, column and head into it |
| IlluminationFrame.IlluminationPickPass | js/lab10.js:1005-1035 | the first frame shows base, column, head as 0, 82, 122; every later frame as 163, 82, 122, the values tested at lines 640, 701 and 758 |
| IlluminationFrame.IlluminationFrameEvents | js/lab10.js:1096-1106 | a whole steady-state frame: the pick draws, then, unless only picking is rendered, spot0's map with the three parts and the final pass |
| Frame.Context.constructor | js/lab10.js:269-272 | the initial state is false/false/0, with no click, no selection, g_value 0, g_startTime null and an empty trace |
| Frame.Context.KeyPressed | js/lab10.js:269-305 | the key handler changes the UI state as KeyPress does and nothing else |
| Frame.Context.MousePressed | js/lab10.js:206-223 | the button is down and a click is pending; nothing else changes |
| Frame.Context.MouseMoved | js/lab10.js:225-243 | the pick position becomes (clientX − left, height − (clientY − top)) |
| Frame.Context.MouseReleased | js/lab10.js:245-251 | mouse-up and mouse-out release the button only |
| Frame.Context.BeginFrame | js/lab10.js:390 | the lookat resets the view so that no translation of the previous frame remains |
| Frame.Context.PickLoop | js/lab10.js:1001-1035 | the loop appends the specified pick draws and leaves the uniform at the last assigned colour |
| Frame.Context.ResolvePendingClick | js/lab10.js:1037-1053 | the click resolution changes the UI state as ResolveClick does |
| Frame.Context.RenderPassPick | js/lab10.js:990-1053 | the pick pass appends its marker and specified draws, updates the uniform, then resolves the click |
| Frame.Context.ShadowGeometryPass | js/lab10.js:920-938 | one light's geometry loop appends exactly the specified shadow draws |
| Frame.Context.RenderPassShadows | js/lab10.js:940-965 | the shadow pass appends its marker and the specified draws, and changes nothing else |
| Frame.Context.RunCallback | js/lab10.js:616-801 | a callback applies its selection translation to the VM, requests the animation when its test holds, and draws with the translated VM |
| Frame.Context.FinalStep | js/lab10.js:979-986 | one iteration runs the geometry's program's callback iff the program can render |
| Frame.Context.RenderPassFinal | js/lab10.js:967-988 | the final pass appends its marker and the specified draws, leaving the VM at the accumulated translation |
| Frame.Context.Render | js/lab10.js:1096-1106 | a frame appends the pick pass and, unless only picking is rendered, the shadow and final passes, with the selection the pick pass left |
| Frame.Context.Step | js/lab10.js:1113-1117 | a step resets the VM and renders one frame |

## Left out

- All `gl.*` calls are outside the model. Shader compilation and linking become the
  `LinkResult` inputs, reflection queries their attribute and uniform lists, and buffer
  creation the `Gpu` allocator. Uploads, bindings, viewport and clear calls, and
  framebuffer, texture and renderbuffer creation (js/lab10.js:137-197) are not modelled;
  draws become trace events. `readPixels` is the `pixel` parameter, the byte at the
  current mouse position.
- The pick pass's `u_Id` uniform and the green and blue channels are not modelled: only the
  red byte is read back.
- Float maths is left out: the orbit camera and light rotation in `update`,
  `transformClient2WebGL`, easing, `lerp`, the colour tween, and the cos/sin coordinates of
  the tower. Tower coordinates are symbolic (`Tower.Coord`). Pick colours are exact reals
  0.32 + 0.16k rather than the running float sum. Every r·255 (81.6, 122.4, 163.2, 204.0,
  244.8) lies at least 0.1 from a .5 boundary, so float drift in the running sum cannot
  change a byte.
- Timing and scheduling: `requestAnimationFrame`, `animate`, `animate_color` and the random
  colour choice. A `start_animate` call is recorded as an `AnimationRequested` event, and
  `g_value` stays symbolic (translations are counted in units of it). `update` returns
  before its lookat on the very first call, while `timestamp_last` is still unset
  (js/lab10.js:335-343); `Frame.Context.Step` always resets the VM. The two cannot differ
  there, because no translation has been applied before the first frame.
- DOM and event wiring (`querySelector`, `innerText`, listener registration), and the
  mouse-drag and wheel fields of the mouse handler.
- Frame.Context.MouseMoved: it takes integer client and rectangle coordinates, where the
  browser supplies doubles (js/lab10.js:241-242). The pick position only reaches
  `readPixels`, which is the `pixel` parameter here, so the model loses no behaviour.
- `js/scene_illumination.js` itself: only its program order, geometry order, program
  bindings and single shadow-mapped light are used (`SceneModel.IlluminationScene`). The glTF
  loader is not part of this model; each pawn part is assumed to carry `a_Position` and
  `a_Normal` buffers and an element buffer.
- The unseen `Geometry`, `Program` and `gl_math` libraries are taken as simple record
  updates. Programs and geometries refer to each other by name rather than by object
  reference.
- `idx_rings` of `create_tower` is allocated but never filled, so it is not modelled.
- Tower.CreateTower: it is generalised over the side count and the profile, where the source
  fixes them as constants inside the function; `CreateGeometryTower` instantiates the
  source's values.
- SceneInit.InitScene: a program missing from the callback attach statements makes the
  source throw; the model requires those programs to be present when every link succeeds.
- Frame.Context.RenderPassPick and Frame.Context.RenderPassShadows: the lookups of
  head_simple and shadowmap_create throw in the source when those programs are missing
  and the pass would use them; the model requires them in exactly those cases.
