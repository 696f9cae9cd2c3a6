/** initScene (js/lab10.js:50-124): link every program and record the locations of its active
    attributes and uniforms, create one GPU buffer per attribute array and one per element
    array of every geometry, and attach the render callbacks. Shader compilation, reflection
    queries and buffer creation are driver calls: their results are inputs (LinkResult) or come
    from a fresh-handle allocator (Gpu). */
module SceneInit {
  import opened GeometryData
  import opened SceneModel

  /** What the driver reports for one active attribute or uniform: its name and location. */
  datatype ActiveInfo = ActiveInfo(name: string, location: int)

  /** The outcome of createProgram for one program: null, or a program handle together with its
      active attributes and uniforms in index order. */
  datatype LinkResult =
    | LinkFailed
    | Linked(handle: nat, attributes: seq<ActiveInfo>, uniforms: seq<ActiveInfo>)

  /** The GPU as far as initScene sees it: gl.createBuffer returns a handle never returned
      before. */
  class Gpu {
    var nextHandle: nat

    constructor()
      ensures nextHandle == 0
    {
      nextHandle := 0;
    }

    method CreateBuffer() returns (h: nat)
      modifies this
      ensures h == old(nextHandle) && nextHandle == old(nextHandle) + 1
    {
      h := nextHandle;
      nextHandle := nextHandle + 1;
    }
  }

  // ---------------------------------------------------------------------------------------
  // Name-to-location tables
  // ---------------------------------------------------------------------------------------

  /** The table after `table[info.name] = info.location` for each info in order. */
  function Reflected(table: map<string, int>, infos: seq<ActiveInfo>): map<string, int>
    decreases |infos|
  {
    if infos == [] then table
    else Reflected(table, infos[..|infos| - 1])[infos[|infos| - 1].name := infos[|infos| - 1].location]
  }

  /** Position of the last info named `name`, or -1. */
  function LastIndexOf(infos: seq<ActiveInfo>, name: string): (r: int)
    ensures -1 <= r < |infos|
    ensures r >= 0 ==> infos[r].name == name && forall j :: r < j < |infos| ==> infos[j].name != name
    ensures r == -1 <==> forall j :: 0 <= j < |infos| ==> infos[j].name != name
    decreases |infos|
  {
    if infos == [] then -1
    else if infos[|infos| - 1].name == name then |infos| - 1
    else LastIndexOf(infos[..|infos| - 1], name)
  }

  /** After reflection the table holds exactly the old names and the reported names; a reported
      name maps to the location of its last report, and every other name keeps its location. */
  lemma {:induction false} ReflectedTable(table: map<string, int>, infos: seq<ActiveInfo>, name: string)
    ensures name in Reflected(table, infos) <==> name in table || LastIndexOf(infos, name) >= 0
    ensures LastIndexOf(infos, name) >= 0 ==>
      Reflected(table, infos)[name] == infos[LastIndexOf(infos, name)].location
    ensures LastIndexOf(infos, name) < 0 && name in table ==> Reflected(table, infos)[name] == table[name]
    decreases |infos|
  {
    if infos != [] {
      ReflectedTable(table, infos[..|infos| - 1], name);
    }
  }

  /** With distinct reported names every reported name maps to its own location. */
  lemma ReflectedDistinct(table: map<string, int>, infos: seq<ActiveInfo>, j: int)
    requires 0 <= j < |infos|
    requires forall a, b :: 0 <= a < b < |infos| ==> infos[a].name != infos[b].name
    ensures infos[j].name in Reflected(table, infos)
    ensures Reflected(table, infos)[infos[j].name] == infos[j].location
  {
    ReflectedTable(table, infos, infos[j].name);
    var last := LastIndexOf(infos, infos[j].name);
    assert last == j;
  }

  /** One reflection loop (js/lab10.js:66-71 for attributes, 75-80 for uniforms). */
  method ReflectActive(table: map<string, int>, infos: seq<ActiveInfo>) returns (r: map<string, int>)
    ensures r == Reflected(table, infos)
  {
    r := table;
    var j := 0;
    while j < |infos|
      invariant j <= |infos|
      invariant r == Reflected(table, infos[..j])
    {
      assert infos[..j + 1][..j] == infos[..j];
      r := r[infos[j].name := infos[j].location];
      j := j + 1;
    }
    assert infos[..j] == infos;
  }

  // ---------------------------------------------------------------------------------------
  // Programs
  // ---------------------------------------------------------------------------------------

  /** A program after a successful link: its handle, compiled, and its reflected tables. */
  function Compiled(p: Program, link: LinkResult): (q: Program)
    requires link.Linked?
    ensures q.name == p.name && q.renderer == p.renderer
  {
    p.(id := Some(link.handle), isCompiled := true,
       attributes := Reflected(p.attributes, link.attributes),
       uniforms := Reflected(p.uniforms, link.uniforms))
  }

  predicate AllLinked(links: seq<LinkResult>)
  {
    forall i :: 0 <= i < |links| ==> links[i].Linked?
  }

  /** Index of the first failed link. */
  function FirstFailure(links: seq<LinkResult>): (r: Option<nat>)
    ensures r.None? <==> AllLinked(links)
    ensures r.Some? ==>
      && r.value < |links| && links[r.value].LinkFailed?
      && forall i :: 0 <= i < r.value ==> links[i].Linked?
    decreases |links|
  {
    if links == [] then None
    else if links[0].LinkFailed? then Some(0)
    else
      var rest := FirstFailure(links[1..]);
      if rest.None? then None else Some(rest.value + 1)
  }

  /** The callback initScene attaches to the program of that name. */
  function RendererFor(name: string): Option<Renderer>
  {
    if name == "simple" then Some(RenderSimple)
    else if name == "shadow" then Some(RenderShadow)
    else if name == "base" then Some(RenderPawnBase)
    else if name == "column" then Some(RenderPawnColumn)
    else if name == "head" then Some(RenderPawnHead)
    else if name == "head_simple" then Some(RenderHeadSimple)
    else None
  }

  /** `scene.programs[name].setRenderGeometryFunc(r)`. */
  function SetRenderer(ps: seq<Program>, name: string, r: Renderer): (qs: seq<Program>)
    ensures |qs| == |ps|
  {
    seq(|ps|, j requires 0 <= j < |ps| => if ps[j].name == name then ps[j].(renderer := Some(r)) else ps[j])
  }

  /** The programs initScene looks up by name to attach callbacks all exist. */
  predicate RendererTargetsPresent(ps: seq<Program>)
  {
    && ProgramNamed(ps, "simple").Some? && ProgramNamed(ps, "shadow").Some?
    && ProgramNamed(ps, "base").Some? && ProgramNamed(ps, "column").Some?
    && ProgramNamed(ps, "head").Some? && ProgramNamed(ps, "head_simple").Some?
  }

  // ---------------------------------------------------------------------------------------
  // Geometry buffers
  // ---------------------------------------------------------------------------------------

  /** The buffer table after `buffers_gl[name] = createBuffer()` for each name in order, with
      handles start, start + 1, ... */
  function AssignHandles(table: map<string, nat>, names: seq<string>, start: nat): map<string, nat>
    decreases |names|
  {
    if names == [] then table
    else AssignHandles(table, names[..|names| - 1], start)[names[|names| - 1] := start + |names| - 1]
  }

  /** Number of handles the buffer loop of one geometry creates. */
  function HandlesOf(g: Geometry): nat
  {
    |g.buffers| + if g.hasElements then 1 else 0
  }

  /** Number of handles the buffer loops of a list of geometries create. */
  function HandlesNeeded(gs: seq<Geometry>): nat
    decreases |gs|
  {
    if gs == [] then 0 else HandlesNeeded(gs[..|gs| - 1]) + HandlesOf(gs[|gs| - 1])
  }

  /** A geometry after its buffer loop, the first new handle being `start`. */
  function WithBuffers(g: Geometry, start: nat): Geometry
  {
    g.(buffersGl := AssignHandles(g.buffersGl, g.buffers, start),
       elementsGl := if g.hasElements then Some(start + |g.buffers|) else g.elementsGl)
  }

  /** The buffer table gets exactly the keys of `buffers` added; each new handle is fresh
      (in [start, start + |names|)), and distinct names receive distinct handles: the j-th name
      receives start + j unless it occurs again later. */
  lemma {:induction false} AssignHandlesTable(table: map<string, nat>, names: seq<string>, start: nat, name: string)
    ensures name in AssignHandles(table, names, start) <==> name in table || name in names
    ensures name in names ==> start <= AssignHandles(table, names, start)[name] < start + |names|
    ensures name in names ==> names[AssignHandles(table, names, start)[name] - start] == name
    ensures name !in names && name in table ==> AssignHandles(table, names, start)[name] == table[name]
    decreases |names|
  {
    if names != [] {
      var init := names[..|names| - 1];
      AssignHandlesTable(table, init, start, name);
      if name != names[|names| - 1] {
        assert name in names ==> name in init by {
          if name in names {
            var k :| 0 <= k < |names| && names[k] == name;
            assert init[k] == name;
          }
        }
      }
    }
  }

  /** The handles of the geometries before `j` all precede the first handle of geometry j. */
  lemma {:induction false} HandlesNeededPrefix(gs: seq<Geometry>, j: nat, k: nat)
    requires j <= k <= |gs|
    ensures HandlesNeeded(gs[..j]) <= HandlesNeeded(gs[..k])
    decreases k - j
  {
    if j < k {
      HandlesNeededPrefix(gs, j, k - 1);
      assert gs[..k][..k - 1] == gs[..k - 1];
    }
  }

  /** One geometry's buffer loop (js/lab10.js:94-109). */
  method CreateGeometryBuffers(gpu: Gpu, g: Geometry) returns (r: Geometry)
    modifies gpu
    ensures r == WithBuffers(g, old(gpu.nextHandle))
    ensures gpu.nextHandle == old(gpu.nextHandle) + HandlesOf(g)
  {
    var start := gpu.nextHandle;
    var buffersGl := g.buffersGl;
    var a := 0;
    while a < |g.buffers|
      invariant a <= |g.buffers|
      invariant buffersGl == AssignHandles(g.buffersGl, g.buffers[..a], start)
      invariant gpu.nextHandle == start + a
    {
      var bufferGl := gpu.CreateBuffer();
      assert g.buffers[..a + 1][..a] == g.buffers[..a];
      buffersGl := buffersGl[g.buffers[a] := bufferGl];
      a := a + 1;
    }
    assert g.buffers[..a] == g.buffers;
    var elementsGl := g.elementsGl;
    if g.hasElements {
      var h := gpu.CreateBuffer();
      elementsGl := Some(h);
    }
    r := g.(buffersGl := buffersGl, elementsGl := elementsGl);
  }

  // ---------------------------------------------------------------------------------------
  // initScene
  // ---------------------------------------------------------------------------------------

  /** The scene initScene leaves when the link of program f fails: the programs before f are
      linked, program f has a null handle, nothing else has changed and no buffer exists. */
  function FailedInit(s: Scene, links: seq<LinkResult>, f: nat): Scene
    requires |links| == |s.programs| && f < |links|
    requires forall i :: 0 <= i < f ==> links[i].Linked?
  {
    s.(programs := seq(|s.programs|, j requires 0 <= j < |s.programs| =>
      if j < f then Compiled(s.programs[j], links[j])
      else if j == f then s.programs[j].(id := None)
      else s.programs[j]))
  }

  /** Every program linked. */
  function LinkedAll(ps: seq<Program>, links: seq<LinkResult>): (qs: seq<Program>)
    requires |links| == |ps| && AllLinked(links)
    ensures |qs| == |ps|
  {
    seq(|ps|, j requires 0 <= j < |ps| => Compiled(ps[j], links[j]))
  }

  /** Every program whose name has a callback gets it; the others keep theirs. */
  function AttachRenderers(ps: seq<Program>): (qs: seq<Program>)
    ensures |qs| == |ps|
  {
    seq(|ps|, j requires 0 <= j < |ps| =>
      if RendererFor(ps[j].name).Some? then ps[j].(renderer := RendererFor(ps[j].name)) else ps[j])
  }

  /** The six attach statements together attach every callback RendererFor names. */
  lemma SetRenderersAttach(ps: seq<Program>)
    ensures
      SetRenderer(SetRenderer(SetRenderer(SetRenderer(SetRenderer(SetRenderer(ps,
        "simple", RenderSimple), "shadow", RenderShadow), "base", RenderPawnBase),
        "column", RenderPawnColumn), "head", RenderPawnHead), "head_simple", RenderHeadSimple)
      == AttachRenderers(ps)
  {
  }

  /** The geometries after all buffer loops, the first new handle being `start`. */
  function BuffersCreated(gs: seq<Geometry>, start: nat): (hs: seq<Geometry>)
    ensures |hs| == |gs|
  {
    seq(|gs|, j requires 0 <= j < |gs| => WithBuffers(gs[j], start + HandlesNeeded(gs[..j])))
  }

  lemma BuffersCreatedAt(gs: seq<Geometry>, start: nat, j: nat)
    requires j < |gs|
    ensures BuffersCreated(gs, start)[j] == WithBuffers(gs[j], start + HandlesNeeded(gs[..j]))
  {
  }

  /** The scene after a successful initScene whose first new buffer handle is `start`. */
  function Initialized(s: Scene, links: seq<LinkResult>, start: nat): Scene
    requires |links| == |s.programs| && AllLinked(links)
  {
    Scene(AttachRenderers(LinkedAll(s.programs, links)), BuffersCreated(s.geometries, start), s.lights)
  }

  /** The program loop of initScene (js/lab10.js:55-81): it stops at the first program that
      fails to link. */
  method LinkPrograms(ps: seq<Program>, links: seq<LinkResult>) returns (ok: bool, programs: seq<Program>)
    requires |links| == |ps|
    ensures ok <==> AllLinked(links)
    ensures ok ==> programs == LinkedAll(ps, links)
    ensures !ok ==> (
      && FirstFailure(links).Some?
      && programs == FailedInit(Scene(ps, [], []), links, FirstFailure(links).value).programs)
  {
    programs := ps;
    var i := 0;
    while i < |programs|
      invariant i <= |programs| == |ps|
      invariant forall j :: 0 <= j < i ==> links[j].Linked?
      invariant forall j :: 0 <= j < |programs| ==>
        programs[j] == if j < i then Compiled(ps[j], links[j]) else ps[j]
    {
      var link := links[i];
      if link.LinkFailed? {
        programs := programs[i := programs[i].(id := None)];
        FirstFailureAt(links, i);
        return false, programs;
      }
      var attributes := ReflectActive(programs[i].attributes, link.attributes);
      var uniforms := ReflectActive(programs[i].uniforms, link.uniforms);
      programs := programs[i := programs[i].(id := Some(link.handle), isCompiled := true,
                                             attributes := attributes, uniforms := uniforms)];
      i := i + 1;
    }
    ok := true;
  }

  /** The geometry loop of initScene (js/lab10.js:84-110). */
  method CreateAllBuffers(gpu: Gpu, gs: seq<Geometry>) returns (geometries: seq<Geometry>)
    modifies gpu
    ensures geometries == BuffersCreated(gs, old(gpu.nextHandle))
    ensures gpu.nextHandle == old(gpu.nextHandle) + HandlesNeeded(gs)
  {
    var start := gpu.nextHandle;
    geometries := gs;
    var g := 0;
    while g < |geometries|
      invariant g <= |geometries| == |gs|
      invariant gpu.nextHandle == start + HandlesNeeded(gs[..g])
      invariant forall j :: 0 <= j < |geometries| ==>
        geometries[j] == if j < g then WithBuffers(gs[j], start + HandlesNeeded(gs[..j])) else gs[j]
    {
      assert geometries[g] == gs[g];
      var updated := CreateGeometryBuffers(gpu, geometries[g]);
      assert HandlesNeeded(gs[..g + 1]) == HandlesNeeded(gs[..g]) + HandlesOf(gs[g]) by {
        assert gs[..g + 1][..g] == gs[..g];
      }
      geometries := geometries[g := updated];
      g := g + 1;
    }
    assert gs[..g] == gs;
    ghost var expected := BuffersCreated(gs, start);
    forall j | 0 <= j < |gs|
      ensures geometries[j] == expected[j]
    {
      assert j < g;
      BuffersCreatedAt(gs, start, j);
    }
  }

  /** initScene: `ok` is false exactly when some program fails to link; then the scene is left
      as FailedInit says and no buffer has been created. Otherwise every program is linked and
      has its callback, and every geometry has its buffers. */
  method InitScene(gpu: Gpu, scene: Scene, links: seq<LinkResult>) returns (ok: bool, result: Scene)
    requires |links| == |scene.programs|
    requires AllLinked(links) ==> RendererTargetsPresent(scene.programs)
    modifies gpu
    ensures ok <==> AllLinked(links)
    ensures !ok ==> (
      && FirstFailure(links).Some?
      && result == FailedInit(scene, links, FirstFailure(links).value)
      && gpu.nextHandle == old(gpu.nextHandle))
    ensures ok ==> (
      && result == Initialized(scene, links, old(gpu.nextHandle))
      && gpu.nextHandle == old(gpu.nextHandle) + HandlesNeeded(scene.geometries))
  {
    var programs;
    ok, programs := LinkPrograms(scene.programs, links);
    if !ok {
      result := scene.(programs := programs);
      return;
    }
    var geometries := CreateAllBuffers(gpu, scene.geometries);
    programs := SetRenderer(programs, "simple", RenderSimple);
    programs := SetRenderer(programs, "shadow", RenderShadow);
    programs := SetRenderer(programs, "base", RenderPawnBase);
    programs := SetRenderer(programs, "column", RenderPawnColumn);
    programs := SetRenderer(programs, "head", RenderPawnHead);
    programs := SetRenderer(programs, "head_simple", RenderHeadSimple);
    SetRenderersAttach(LinkedAll(scene.programs, links));
    result := Scene(programs, geometries, scene.lights);
  }

  /** A failed link at i after successful links before it is the first failure. */
  lemma {:induction false} FirstFailureAt(links: seq<LinkResult>, i: nat)
    requires i < |links| && links[i].LinkFailed? && forall j :: 0 <= j < i ==> links[j].Linked?
    ensures FirstFailure(links) == Some(i)
    decreases i
  {
    if i > 0 {
      FirstFailureAt(links[1..], i - 1);
    }
  }

  // ---------------------------------------------------------------------------------------
  // What initScene guarantees
  // ---------------------------------------------------------------------------------------

  /** After a geometry's buffer loop its buffer table has exactly the keys of `buffers` added,
      every new handle lies in [start, start + HandlesOf(g)), the element handle is present
      iff the geometry has elements (or was present already), and it differs from every
      vertex-buffer handle. */
  lemma WithBuffersTable(g: Geometry, start: nat, name: string)
    ensures name in WithBuffers(g, start).buffersGl <==> name in g.buffersGl || name in g.buffers
    ensures name in g.buffers ==>
      start <= WithBuffers(g, start).buffersGl[name] < start + |g.buffers|
    ensures g.hasElements ==> WithBuffers(g, start).elementsGl == Some(start + |g.buffers|)
    ensures !g.hasElements ==> WithBuffers(g, start).elementsGl == g.elementsGl
    ensures start + |g.buffers| < start + HandlesOf(g) <==> g.hasElements
  {
    AssignHandlesTable(g.buffersGl, g.buffers, start, name);
  }

  /** Two different attribute names of one geometry get different buffer handles. */
  lemma WithBuffersDistinct(g: Geometry, start: nat, a: string, b: string)
    requires a in g.buffers && b in g.buffers && a != b
    ensures a in WithBuffers(g, start).buffersGl && b in WithBuffers(g, start).buffersGl
    ensures WithBuffers(g, start).buffersGl[a] != WithBuffers(g, start).buffersGl[b]
  {
    AssignHandlesTable(g.buffersGl, g.buffers, start, a);
    AssignHandlesTable(g.buffersGl, g.buffers, start, b);
  }

  /** Geometry j of a successful initScene received its new handles from the range
      [start + HandlesNeeded(gs[..j]), start + HandlesNeeded(gs[..j + 1])), and that range
      lies below the range of every later geometry k: no handle is shared. */
  lemma BuffersCreatedRanges(gs: seq<Geometry>, start: nat, j: nat, k: nat, name: string)
    requires j < k < |gs|
    ensures var base := start + HandlesNeeded(gs[..j]);
      && BuffersCreated(gs, start)[j] == WithBuffers(gs[j], base)
      && base + HandlesOf(gs[j]) == start + HandlesNeeded(gs[..j + 1])
      && base + HandlesOf(gs[j]) <= start + HandlesNeeded(gs[..k])
  {
    assert gs[..j + 1][..j] == gs[..j];
    HandlesNeededPrefix(gs, j + 1, k);
  }

  /** After a successful initScene a program can render geometry exactly when initScene
      attached a callback for its name, or it had one already. */
  lemma InitializedRenderers(s: Scene, links: seq<LinkResult>, start: nat, j: nat)
    requires |links| == |s.programs| && AllLinked(links) && j < |s.programs|
    ensures var p := Initialized(s, links, start).programs[j];
      && p.name == s.programs[j].name && p.isCompiled && p.id == Some(links[j].handle)
      && (CanRenderGeometry(p) <==> RendererFor(p.name).Some? || CanRenderGeometry(s.programs[j]))
  {
  }

  /** In the illumination scene every program except shadowmap_create gets a callback, and
      each pawn part gets its own. */
  lemma IlluminationRenderers(links: seq<LinkResult>, start: nat)
    requires |links| == |IlluminationScene.programs| && AllLinked(links)
    ensures var ps := Initialized(IlluminationScene, links, start).programs;
      && (forall j :: 0 <= j < |ps| ==> (CanRenderGeometry(ps[j]) <==> ps[j].name != "shadowmap_create"))
      && ps[4].renderer == Some(RenderPawnBase) && ps[5].renderer == Some(RenderPawnColumn)
      && ps[6].renderer == Some(RenderPawnHead) && ps[1].renderer == Some(RenderHeadSimple)
  {
    var ps := Initialized(IlluminationScene, links, start).programs;
    forall j | 0 <= j < |ps|
      ensures CanRenderGeometry(ps[j]) <==> ps[j].name != "shadowmap_create"
    {
      InitializedRenderers(IlluminationScene, links, start, j);
    }
  }

  /** When a link fails, initScene leaves every geometry without the buffers it creates, the
      failing program without a handle, and every later program untouched; init carries on
      with this scene regardless (js/lab10.js:263). */
  lemma FailedInitUntouched(s: Scene, links: seq<LinkResult>, f: nat, j: nat)
    requires |links| == |s.programs| && FirstFailure(links) == Some(f)
    ensures FailedInit(s, links, f).geometries == s.geometries
    ensures FailedInit(s, links, f).programs[f].id.None?
    ensures FailedInit(s, links, f).programs[f].isCompiled == s.programs[f].isCompiled
    ensures f < j < |s.programs| ==> FailedInit(s, links, f).programs[j] == s.programs[j]
  {
  }

  /** Status of initScene as init(context) uses it: the result is discarded, so a failed link
      still leads into rendering a scene whose pawn parts have no GPU buffers. */
  method Init(gpu: Gpu, scene: Scene, links: seq<LinkResult>) returns (result: Scene)
    requires |links| == |scene.programs|
    requires AllLinked(links) ==> RendererTargetsPresent(scene.programs)
    modifies gpu
    ensures !AllLinked(links) ==> result.geometries == scene.geometries
    ensures AllLinked(links) ==> result == Initialized(scene, links, old(gpu.nextHandle))
  {
    var ok;
    ok, result := InitScene(gpu, scene, links);
  }
}
