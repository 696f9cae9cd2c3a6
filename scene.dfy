/** The scene the renderer works on (js/lab10.js, js/scene_illumination.js): named shader
    programs, named geometries and named lights, each collection in the insertion order that
    Object.entries reports. Programs are referred to by name; the GPU objects they and the
    geometries own are opaque handles. */
module SceneModel {
  import opened GeometryData

  /** The render callbacks initScene attaches to programs (js/lab10.js:113-121). */
  datatype Renderer =
    | RenderSimple      // renderGeometrySimpleProgram
    | RenderShadow      // renderGeometryShadowProgram
    | RenderPawnBase    // renderPawnBase
    | RenderPawnColumn  // renderPawnColumn
    | RenderPawnHead    // renderPawnHead
    | RenderHeadSimple  // renderHeadSimple

  /** A shader program: its GPU handle (null after a failed link), whether it compiled, the
      name-to-location tables of its active attributes and uniforms, and its render callback. */
  datatype Program = Program(
    name: string,
    id: Option<nat>,
    isCompiled: bool,
    attributes: map<string, int>,
    uniforms: map<string, int>,
    renderer: Option<Renderer>)

  /** Program.canRenderGeometry: a render callback has been attached. */
  predicate CanRenderGeometry(p: Program)
  {
    p.renderer.Some?
  }

  /** A geometry: the attribute names of its vertex buffers in insertion order, whether it has
      an element buffer, the name of its program, and the GPU handles initScene creates. */
  datatype Geometry = Geometry(
    name: string,
    buffers: seq<string>,
    hasElements: bool,
    program: Option<string>,
    buffersGl: map<string, nat>,
    elementsGl: Option<nat>)

  /** Geometry.hasProgram. */
  predicate HasProgram(g: Geometry)
  {
    g.program.Some?
  }

  /** A light and whether a shadow map is attached to it. */
  datatype Light = Light(name: string, hasShadowmap: bool)

  datatype Scene = Scene(programs: seq<Program>, geometries: seq<Geometry>, lights: seq<Light>)

  /** `scene.programs[name]`: the first program of that name, if any. */
  function ProgramNamed(ps: seq<Program>, name: string): (r: Option<Program>)
    ensures r.Some? <==> exists i :: 0 <= i < |ps| && ps[i].name == name
    ensures r.Some? ==> r.value in ps && r.value.name == name
  {
    if ps == [] then None
    else if ps[0].name == name then Some(ps[0])
    else ProgramNamed(ps[1..], name)
  }

  /** geometry.getProgram(): the program a geometry was given, looked up in the scene. */
  function ProgramOf(s: Scene, g: Geometry): Option<Program>
  {
    if g.program.Some? then ProgramNamed(s.programs, g.program.value) else None
  }

  /** Every geometry that names a program names one the scene holds, as the object reference
      of the source always does. */
  predicate ProgramsResolve(s: Scene)
  {
    forall i :: 0 <= i < |s.geometries| && HasProgram(s.geometries[i]) ==>
      ProgramOf(s, s.geometries[i]).Some?
  }

  /** A program as the shader loader hands it over: not yet compiled, empty tables, no
      callback. */
  function Unlinked(name: string): Program
  {
    Program(name, None, false, map[], map[], None)
  }

  /** A geometry created by the glTF loader: position and normal buffers and an element
      buffer, bound to the named program, no GPU buffers yet. */
  function PawnPart(name: string, program: string): Geometry
  {
    Geometry(name, ["a_Position", "a_Normal"], true, Some(program), map[], None)
  }

  /** createIlluminationScene: seven programs, the three pawn parts in the order base, column,
      head, and the single spot light with a 1024 x 1024 shadow map. */
  const IlluminationScene: Scene := Scene(
    [Unlinked("simple"), Unlinked("head_simple"), Unlinked("shadow"), Unlinked("shadowmap_create"),
     Unlinked("base"), Unlinked("column"), Unlinked("head")],
    [PawnPart("base", "base"), PawnPart("column", "column"), PawnPart("head", "head")],
    [Light("spot0", true)])
}
