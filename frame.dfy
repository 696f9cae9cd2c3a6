/** The rendering context of js/lab10.js as a mutable object: the input handlers, the three
    render passes and the frame step, each proved to follow the functions of FrameSpec. GPU
    work is recorded as a trace of events; the framebuffer readback is a parameter. */
module Frame {
  import opened GeometryData
  import opened SceneModel
  import opened FrameSpec

  /** The context fields besides the UiState ones: the mouse state, the y-translation held
      in mat4_VM, the red channel of head_simple's u_Color uniform, and the trace. */
  datatype Devices = Devices(
    isMouseDown: bool,
    canvasMouseX: int,
    canvasMouseY: int,
    vmShift: Shift,
    pickRed: real,
    trace: seq<Event>)

  class Context {
    var renderPickOnly: bool
    var lockPicking: bool
    var animationStyle: int
    var clicked: bool
    var selectedID: Option<int>
    var gValue: real
    var gStartTime: Option<real>
    var isMouseDown: bool
    var canvasMouseX: int
    var canvasMouseY: int
    var vmShift: Shift
    var pickRed: real
    var trace: seq<Event>

    function Ui(): UiState
      reads this
    {
      UiState(renderPickOnly, lockPicking, animationStyle, clicked, selectedID, gValue, gStartTime)
    }

    function Io(): Devices
      reads this
    {
      Devices(isMouseDown, canvasMouseX, canvasMouseY, vmShift, pickRed, trace)
    }

    /** The context after initMouseHandler and initKeyboardHandler: nothing pressed, nothing
        selected, no translation, the pick uniform at its initial 0, nothing drawn. */
    constructor ()
      ensures Ui() == InitialUi
      ensures Io() == Devices(false, 0, 0, Shift(0, 0), 0.0, [])
    {
      renderPickOnly, lockPicking, animationStyle := false, false, 0;
      clicked, selectedID := false, None;
      gValue, gStartTime := 0.0, None;
      isMouseDown, canvasMouseX, canvasMouseY := false, 0, 0;
      vmShift, pickRed, trace := Shift(0, 0), 0.0, [];
    }

    /** The keypress listener (js/lab10.js:273-305). */
    method KeyPressed(key: string)
      modifies this
      ensures Ui() == KeyPress(old(Ui()), key)
      ensures Io() == old(Io())
    {
      if key == "r" {
        renderPickOnly := !renderPickOnly;
      } else if key == "l" {
        lockPicking := !lockPicking;
      } else if key == "a" {
        animationStyle := JsRem(animationStyle + 1, 3);
      }
    }

    /** onmousedown (js/lab10.js:206-223): the button is down and a click is pending. */
    method MousePressed()
      modifies this
      ensures Ui() == Apply(old(Ui()), MouseDown)
      ensures Io() == old(Io()).(isMouseDown := true)
    {
      isMouseDown := true;
      clicked := true;
    }

    /** onmousemove (js/lab10.js:225-243): the pick position in canvas pixels, y measured
        from the bottom edge as readPixels expects. */
    method MouseMoved(clientX: int, clientY: int, rectLeft: int, rectTop: int, rectHeight: int)
      modifies this
      ensures Ui() == old(Ui())
      ensures Io() == old(Io()).(canvasMouseX := clientX - rectLeft, canvasMouseY := rectHeight - (clientY - rectTop))
    {
      canvasMouseX := clientX - rectLeft;
      canvasMouseY := rectHeight - (clientY - rectTop);
    }

    /** onmouseup and onmouseout (js/lab10.js:245-251). */
    method MouseReleased()
      modifies this
      ensures Ui() == old(Ui())
      ensures Io() == old(Io()).(isMouseDown := false)
    {
      isMouseDown := false;
    }

    /** The mat4_set_lookat of update (js/lab10.js:390): the VM loses every translation the
        previous frame's callbacks added. */
    method BeginFrame()
      modifies this
      ensures Ui() == old(Ui())
      ensures Io() == old(Io()).(vmShift := Shift(0, 0))
    {
      vmShift := Shift(0, 0);
    }

    /** The loop of render_pass_pick (js/lab10.js:1001-1035): each geometry with a program
        is drawn through head_simple with the uniform as it stands, and only then is its own
        colour 0.32 + 0.16 k assigned. */
    method PickLoop(gs: seq<Geometry>, canPick: bool)
      modifies this
      ensures Ui() == old(Ui())
      ensures Io() == old(Io()).(
        pickRed := PickRedAfter(gs, canPick, old(pickRed)),
        trace := old(trace) + if canPick then PickDraws(gs, old(pickRed)) else [])
    {
      ghost var red0 := pickRed;
      var r := 0.32;
      var i := 0;
      while i < |gs|
        invariant 0 <= i <= |gs|
        invariant canPick ==> r == PickRed(PickCount(gs[..i])) && pickRed == RedAfter(gs[..i], red0)
        invariant canPick ==> trace == old(trace) + PickDraws(gs[..i], red0)
        invariant !canPick ==> pickRed == red0 && trace == old(trace)
        invariant Ui() == old(Ui()) && Io() == old(Io()).(pickRed := pickRed, trace := trace)
      {
        assert gs[..i + 1][..i] == gs[..i];
        var g := gs[i];
        if HasProgram(g) && canPick {
          trace := trace + [PickDraw(g.name, pickRed)];
          pickRed := r;
          r := r + 0.16;
        }
        i := i + 1;
      }
      assert gs[..i] == gs;
    }

    /** The end of render_pass_pick (js/lab10.js:1037-1053), with `pixel` the red byte
        readPixels returns at the mouse position. */
    method ResolvePendingClick(pixel: Byte)
      modifies this
      ensures Ui() == ResolveClick(old(Ui()), pixel)
      ensures Io() == old(Io())
    {
      if clicked {
        if lockPicking {
          return;
        }
        clicked := false;
        gValue := 0.0;
        gStartTime := None;
        selectedID := Some(pixel);
      }
    }

    /** render_pass_pick (js/lab10.js:990-1053), which draws with scene.programs["head_simple"]
        whatever program a geometry has. */
    method RenderPassPick(scene: Scene, pixel: Byte)
      modifies this
      requires PickCount(scene.geometries) > 0 ==> ProgramNamed(scene.programs, "head_simple").Some?
      ensures Ui() == ResolveClick(old(Ui()), pixel)
      ensures Io() == old(Io()).(
        pickRed := PickRedAfter(scene.geometries, CanPick(scene), old(pickRed)),
        trace := old(trace) + PickPassEvents(scene.geometries, CanPick(scene), old(pickRed)))
    {
      trace := trace + [BeginPass(PickPass)];
      var program := ProgramNamed(scene.programs, "head_simple");
      var canPick := program.Some? && CanRenderGeometry(program.value);
      PickLoop(scene.geometries, canPick);
      ResolvePendingClick(pixel);
    }

    /** render_pass_shadows_geometry (js/lab10.js:920-938) for one light. */
    method ShadowGeometryPass(light: string, gs: seq<Geometry>)
      modifies this
      ensures Ui() == old(Ui())
      ensures Io() == old(Io()).(trace := old(trace) + ShadowGeometryDraws(light, gs))
    {
      var i := 0;
      while i < |gs|
        invariant 0 <= i <= |gs|
        invariant trace == old(trace) + ShadowGeometryDraws(light, gs[..i])
        invariant Ui() == old(Ui()) && Io() == old(Io()).(trace := trace)
      {
        assert gs[..i + 1][..i] == gs[..i];
        if gs[i].hasElements {
          trace := trace + [ShadowDraw(light, gs[i].name)];
        }
        i := i + 1;
      }
      assert gs[..i] == gs;
    }

    /** render_pass_shadows (js/lab10.js:940-965): each light with a shadow map binds its
        framebuffer and has the geometries drawn into it with shadowmap_create. */
    method RenderPassShadows(scene: Scene)
      modifies this
      requires CasterCount(scene.lights) > 0 ==> ProgramNamed(scene.programs, "shadowmap_create").Some?
      ensures Ui() == old(Ui())
      ensures Io() == old(Io()).(trace := old(trace) + ShadowPassEvents(scene))
    {
      trace := trace + [BeginPass(ShadowPass)];
      ghost var t0 := trace;
      var ls := scene.lights;
      var i := 0;
      while i < |ls|
        invariant 0 <= i <= |ls|
        invariant trace == t0 + ShadowDraws(ls[..i], scene.geometries)
        invariant Ui() == old(Ui()) && Io() == old(Io()).(trace := trace)
      {
        ShadowDrawsStep(ls, scene.geometries, i);
        if ls[i].hasShadowmap {
          trace := trace + [ShadowTarget(ls[i].name)];
          ShadowGeometryPass(ls[i].name, scene.geometries);
        }
        i := i + 1;
      }
      assert ls[..i] == ls;
    }

    /** program.renderGeometry(gl, geometry) in the final pass: the callback's draw, with its
        translation of mat4_VM (js/lab10.js:640-645, 701-705, 758-767, 883-884) and its call
        of start_animate. */
    method RunCallback(name: string, r: Renderer)
      modifies this
      ensures Ui() == old(Ui())
      ensures Io() == old(Io()).(
        vmShift := CallbackShift(r, selectedID, old(vmShift)),
        trace := old(trace) + CallbackEvents(name, r, selectedID, old(vmShift)))
    {
      match r {
        case RenderPawnBase =>
          if selectedID == Some(163) || selectedID == Some(82) {
            trace := trace + [AnimationRequested];
            vmShift := vmShift.(gUnits := vmShift.gUnits - 1);
          }
        case RenderPawnColumn =>
          if selectedID == Some(163) || selectedID == Some(82) {
            vmShift := vmShift.(gUnits := vmShift.gUnits + 1);
          }
        case RenderPawnHead =>
          if selectedID == Some(122) {
            trace := trace + [AnimationRequested];
          }
          if selectedID == Some(82) || selectedID == Some(122) {
            vmShift := vmShift.(gUnits := vmShift.gUnits + 1);
          }
        case RenderShadow =>
          vmShift := vmShift.(units := vmShift.units - 2);
        case RenderSimple =>
        case RenderHeadSimple =>
      }
      trace := trace + [FinalDraw(name, r, vmShift)];
    }

    /** One iteration of render_pass_final's loop (js/lab10.js:979-986). */
    method FinalStep(scene: Scene, g: Geometry)
      modifies this
      ensures Ui() == old(Ui())
      ensures var r := FinalRenderer(scene, g);
        Io() == old(Io()).(
          vmShift := if r.Some? then CallbackShift(r.value, selectedID, old(vmShift)) else old(vmShift),
          trace := old(trace) + if r.Some? then CallbackEvents(g.name, r.value, selectedID, old(vmShift)) else [])
    {
      if g.program.Some? {
        var program := ProgramNamed(scene.programs, g.program.value);
        if program.Some? && program.value.renderer.Some? {
          RunCallback(g.name, program.value.renderer.value);
        }
      }
    }

    /** render_pass_final (js/lab10.js:967-988): every geometry whose program can render is
        handed to that program's callback, in scene order. */
    method RenderPassFinal(scene: Scene)
      modifies this
      ensures Ui() == old(Ui())
      ensures Io() == old(Io()).(
        vmShift := ShiftAfter(scene, scene.geometries, selectedID, old(vmShift)),
        trace := old(trace) + FinalPassEvents(scene, selectedID, old(vmShift)))
    {
      trace := trace + [BeginPass(FinalPass)];
      ghost var t0, shift0, sel := trace, vmShift, selectedID;
      var gs := scene.geometries;
      var i := 0;
      while i < |gs|
        invariant 0 <= i <= |gs|
        invariant vmShift == ShiftAfter(scene, gs[..i], sel, shift0)
        invariant trace == t0 + FinalDraws(scene, gs[..i], sel, shift0)
        invariant Ui() == old(Ui()) && Io() == old(Io()).(vmShift := vmShift, trace := trace)
      {
        FinalDrawsStep(scene, gs, i, sel, shift0);
        FinalStep(scene, gs[i]);
        i := i + 1;
      }
      assert gs[..i] == gs;
    }

    /** render (js/lab10.js:1096-1106). */
    method Render(scene: Scene, pixel: Byte)
      modifies this
      requires PickCount(scene.geometries) > 0 ==> ProgramNamed(scene.programs, "head_simple").Some?
      requires CasterCount(scene.lights) > 0 ==> ProgramNamed(scene.programs, "shadowmap_create").Some?
      ensures Ui() == ResolveClick(old(Ui()), pixel)
      ensures Io() == old(Io()).(
        vmShift := if old(renderPickOnly) then old(vmShift)
                   else ShiftAfter(scene, scene.geometries, selectedID, old(vmShift)),
        pickRed := PickRedAfter(scene.geometries, CanPick(scene), old(pickRed)),
        trace := old(trace) + FrameEvents(old(Ui()), scene, old(pickRed), pixel, old(vmShift)))
    {
      RenderPassPick(scene, pixel);
      if !renderPickOnly {
        RenderPassShadows(scene);
        RenderPassFinal(scene);
      }
    }

    /** step (js/lab10.js:1113-1117) without the scheduling: update's lookat resets the VM,
        then the frame is rendered. */
    method Step(scene: Scene, pixel: Byte)
      modifies this
      requires PickCount(scene.geometries) > 0 ==> ProgramNamed(scene.programs, "head_simple").Some?
      requires CasterCount(scene.lights) > 0 ==> ProgramNamed(scene.programs, "shadowmap_create").Some?
      ensures Ui() == ResolveClick(old(Ui()), pixel)
      ensures Io() == old(Io()).(
        vmShift := if old(renderPickOnly) then Shift(0, 0)
                   else ShiftAfter(scene, scene.geometries, selectedID, Shift(0, 0)),
        pickRed := PickRedAfter(scene.geometries, CanPick(scene), old(pickRed)),
        trace := old(trace) + FrameEvents(old(Ui()), scene, old(pickRed), pixel, Shift(0, 0)))
    {
      BeginFrame();
      Render(scene, pixel);
    }
  }
}
