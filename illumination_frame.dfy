/** One frame over the illumination scene after a successful initScene: which callback draws
    each pawn part, where each part ends up for each selection, and what the shadow and pick
    passes draw. */
module IlluminationFrame {
  import opened GeometryData
  import opened SceneModel
  import opened SceneInit
  import opened FrameSpec

  /** `scene.programs[name]` finds the first program of that name. */
  lemma {:induction false} ProgramNamedAt(ps: seq<Program>, j: nat, name: string)
    requires j < |ps| && ps[j].name == name
    requires forall i :: 0 <= i < j ==> ps[i].name != name
    ensures ProgramNamed(ps, name) == Some(ps[j])
    decreases j
  {
    if j > 0 {
      forall i | 0 <= i < j - 1
        ensures ps[1..][i].name != name
      {
        assert ps[1..][i] == ps[i + 1];
      }
      ProgramNamedAt(ps[1..], j - 1, name);
    }
  }

  /** The programs after a successful initScene: the seven names in order, with the pawn and
      pick callbacks attached. */
  predicate IlluminationPrograms(ps: seq<Program>)
  {
    && |ps| == 7
    && ps[0].name == "simple" && ps[1].name == "head_simple" && ps[2].name == "shadow"
    && ps[3].name == "shadowmap_create" && ps[4].name == "base" && ps[5].name == "column"
    && ps[6].name == "head"
    && ps[4].renderer == Some(RenderPawnBase) && ps[5].renderer == Some(RenderPawnColumn)
    && ps[6].renderer == Some(RenderPawnHead) && ps[1].renderer == Some(RenderHeadSimple)
  }

  /** The geometries after a successful initScene: base, column, head, each with elements and
      bound to the program of its own name. */
  predicate IlluminationGeometries(gs: seq<Geometry>)
  {
    && |gs| == 3
    && gs[0].name == "base" && gs[1].name == "column" && gs[2].name == "head"
    && gs[0].program == Some("base") && gs[1].program == Some("column") && gs[2].program == Some("head")
    && gs[0].hasElements && gs[1].hasElements && gs[2].hasElements
  }

  /** A successful initScene over the illumination scene leaves it in that shape. */
  lemma IlluminationInitialized(links: seq<LinkResult>, start: nat)
    requires |links| == |IlluminationScene.programs| && AllLinked(links)
    ensures var s := Initialized(IlluminationScene, links, start);
      IlluminationPrograms(s.programs) && IlluminationGeometries(s.geometries)
      && s.lights == [Light("spot0", true)]
  {
    var s := Initialized(IlluminationScene, links, start);
    IlluminationRenderers(links, start);
    forall j | 0 <= j < |s.programs|
      ensures s.programs[j].name == IlluminationScene.programs[j].name
    {
      InitializedRenderers(IlluminationScene, links, start, j);
    }
    forall j | 0 <= j < 3
      ensures s.geometries[j].name == IlluminationScene.geometries[j].name
      ensures s.geometries[j].program == IlluminationScene.geometries[j].program
      ensures s.geometries[j].hasElements
    {
      BuffersCreatedAt(IlluminationScene.geometries, start, j);
    }
  }

  /** Pawn part j (base, column, head) resolves to program 4 + j, the program of its own name. */
  lemma PawnProgram(s: Scene, j: nat)
    requires IlluminationPrograms(s.programs) && IlluminationGeometries(s.geometries) && j < 3
    ensures ProgramOf(s, s.geometries[j]) == Some(s.programs[4 + j])
    ensures HasProgram(s.geometries[j]) && FinalRenderer(s, s.geometries[j]) == s.programs[4 + j].renderer
  {
    var ps := s.programs;
    if j == 0 {
      ProgramNamedAt(ps, 4, "base");
    } else if j == 1 {
      ProgramNamedAt(ps, 5, "column");
    } else {
      ProgramNamedAt(ps, 6, "head");
    }
  }

  /** The pick pass finds head_simple with its callback, and the shadow pass finds
      shadowmap_create. */
  lemma PassProgramsFound(s: Scene)
    requires IlluminationPrograms(s.programs)
    ensures CanPick(s) && ProgramNamed(s.programs, "shadowmap_create").Some?
  {
    ProgramNamedAt(s.programs, 1, "head_simple");
    ProgramNamedAt(s.programs, 3, "shadowmap_create");
  }

  /** The pawn parts draw with their own programs' callbacks. */
  lemma PawnRenderers(s: Scene)
    requires IlluminationPrograms(s.programs) && IlluminationGeometries(s.geometries)
    ensures FinalRenderer(s, s.geometries[0]) == Some(RenderPawnBase)
    ensures FinalRenderer(s, s.geometries[1]) == Some(RenderPawnColumn)
    ensures FinalRenderer(s, s.geometries[2]) == Some(RenderPawnHead)
  {
    PawnProgram(s, 0);
    PawnProgram(s, 1);
    PawnProgram(s, 2);
  }

  /** Every pawn part names a program the scene holds. */
  lemma PawnProgramsResolve(s: Scene)
    requires IlluminationPrograms(s.programs) && IlluminationGeometries(s.geometries)
    ensures forall i :: 0 <= i < 3 ==> HasProgram(s.geometries[i])
    ensures ProgramsResolve(s)
  {
    forall i | 0 <= i < |s.geometries|
      ensures HasProgram(s.geometries[i]) && ProgramOf(s, s.geometries[i]).Some?
    {
      PawnProgram(s, i);
    }
  }

  /** In a scene of that shape the pawn parts resolve to the base, column and head callbacks,
      and the pick and shadow passes find their programs. */
  lemma IlluminationLookups(s: Scene)
    requires IlluminationPrograms(s.programs) && IlluminationGeometries(s.geometries)
    ensures FinalRenderer(s, s.geometries[0]) == Some(RenderPawnBase)
    ensures FinalRenderer(s, s.geometries[1]) == Some(RenderPawnColumn)
    ensures FinalRenderer(s, s.geometries[2]) == Some(RenderPawnHead)
    ensures forall i :: 0 <= i < 3 ==> HasProgram(s.geometries[i])
    ensures ProgramsResolve(s) && CanPick(s) && ProgramNamed(s.programs, "shadowmap_create").Some?
  {
    PawnRenderers(s);
    PawnProgramsResolve(s);
    PassProgramsFound(s);
  }

  /** The final pass over the three parts runs the base, column and head callbacks in turn,
      each on the VM the previous one left. */
  lemma IlluminationFinalSteps(s: Scene, sel: Option<int>, z: Shift)
    requires IlluminationPrograms(s.programs) && IlluminationGeometries(s.geometries)
    ensures var base := CallbackShift(RenderPawnBase, sel, z);
      var column := CallbackShift(RenderPawnColumn, sel, base);
      && FinalDraws(s, s.geometries, sel, z) ==
        CallbackEvents("base", RenderPawnBase, sel, z) + CallbackEvents("column", RenderPawnColumn, sel, base)
          + CallbackEvents("head", RenderPawnHead, sel, column)
      && ShiftAfter(s, s.geometries, sel, z) == CallbackShift(RenderPawnHead, sel, column)
  {
    IlluminationLookups(s);
    var gs := s.geometries;
    var g1, g2 := gs[..1], gs[..2];
    assert g1[..0] == [] && g2[..1] == g1 && gs[..|gs| - 1] == g2;
    assert g1[0] == gs[0] && g2[1] == gs[1];
    var base := CallbackShift(RenderPawnBase, sel, z);
    var column := CallbackShift(RenderPawnColumn, sel, base);
    assert ShiftAfter(s, g1, sel, z) == base;
    assert ShiftAfter(s, g2, sel, z) == column;
    assert FinalDraws(s, g1, sel, z) == CallbackEvents("base", RenderPawnBase, sel, z);
    assert FinalDraws(s, g2, sel, z) ==
      CallbackEvents("base", RenderPawnBase, sel, z) + CallbackEvents("column", RenderPawnColumn, sel, base);
  }

  /** The final pass of a frame, starting from the VM the frame's lookat left: the base is
      drawn g_value lower when base or column is selected, the column always at rest, and the
      head g_value higher when head or column is selected; base and head ask for the
      animation when their own selection test holds. */
  lemma IlluminationFinalPass(s: Scene, sel: Option<int>)
    requires IlluminationPrograms(s.programs) && IlluminationGeometries(s.geometries)
    ensures var b := if Selected(sel, 163, 82) then 1 else 0;
      var h := if Selected(sel, 82, 122) then 1 else 0;
      && FinalDraws(s, s.geometries, sel, Shift(0, 0)) ==
        (if b == 1 then [AnimationRequested] else [])
          + [FinalDraw("base", RenderPawnBase, Shift(-b, 0)), FinalDraw("column", RenderPawnColumn, Shift(0, 0))]
          + (if sel == Some(122) then [AnimationRequested] else [])
          + [FinalDraw("head", RenderPawnHead, Shift(h, 0))]
      && ShiftAfter(s, s.geometries, sel, Shift(0, 0)) == Shift(h, 0)
  {
    IlluminationFinalSteps(s, sel, Shift(0, 0));
    PawnOffsets(sel, Shift(0, 0));
  }

  /** The shadow pass draws the three pawn parts into spot0's map, in scene order. */
  lemma IlluminationShadowPass(s: Scene)
    requires IlluminationGeometries(s.geometries) && s.lights == [Light("spot0", true)]
    ensures ShadowDraws(s.lights, s.geometries) ==
      [ShadowTarget("spot0"), ShadowDraw("spot0", "base"), ShadowDraw("spot0", "column"), ShadowDraw("spot0", "head")]
  {
    var gs := s.geometries;
    var g1, g2 := gs[..1], gs[..2];
    assert g1[..0] == [] && g2[..1] == g1 && gs[..|gs| - 1] == g2;
    assert g1[0] == gs[0] && g2[1] == gs[1];
    assert s.lights[..0] == [];
    assert ShadowGeometryDraws("spot0", g1) == [ShadowDraw("spot0", "base")];
    assert ShadowGeometryDraws("spot0", g2) == [ShadowDraw("spot0", "base"), ShadowDraw("spot0", "column")];
    assert ShadowDraws(s.lights, gs) == [ShadowTarget("spot0")] + ShadowGeometryDraws("spot0", gs);
  }

  /** The pick pass of the first frame shows the base with the uniform's initial 0, and from
      the second frame on it shows base, column and head as 163, 82 and 122, the identifiers
      the pawn callbacks test. */
  lemma IlluminationPickPass(s: Scene)
    requires IlluminationPrograms(s.programs) && IlluminationGeometries(s.geometries)
    ensures CanPick(s)
    ensures PickRedAfter(s.geometries, CanPick(s), 0.0) == PickRed(2)
    ensures PickRedAfter(s.geometries, CanPick(s), PickRed(2)) == PickRed(2)
    ensures PickDraws(s.geometries, 0.0) ==
      [PickDraw("base", 0.0), PickDraw("column", PickRed(0)), PickDraw("head", PickRed(1))]
    ensures PickDraws(s.geometries, PickRed(2)) ==
      [PickDraw("base", PickRed(2)), PickDraw("column", PickRed(0)), PickDraw("head", PickRed(1))]
    ensures RedByte(0.0) == 0 && RedByte(PickRed(2)) == 163
    ensures RedByte(PickRed(0)) == 82 && RedByte(PickRed(1)) == 122
  {
    IlluminationLookups(s);
    PickSteadyState(s.geometries);
  }

  /** A whole steady-state frame over the initialized illumination scene: the pick pass
      shows base, column and head with the colours of the previous frame's assignment,
      then, unless only picking is rendered, the shadow pass draws the three parts into
      spot0's map and the final pass draws them with the selection the pick pass left. */
  lemma IlluminationFrameEvents(s: Scene, ui: UiState, pixel: Byte)
    requires IlluminationPrograms(s.programs) && IlluminationGeometries(s.geometries)
    requires s.lights == [Light("spot0", true)]
    ensures FrameEvents(ui, s, PickRed(2), pixel, Shift(0, 0)) ==
      [BeginPass(PickPass), PickDraw("base", PickRed(2)), PickDraw("column", PickRed(0)), PickDraw("head", PickRed(1))]
        + (if ui.renderPickOnly then []
           else ([BeginPass(ShadowPass), ShadowTarget("spot0"), ShadowDraw("spot0", "base"),
                  ShadowDraw("spot0", "column"), ShadowDraw("spot0", "head"), BeginPass(FinalPass)]
                 + FinalDraws(s, s.geometries, ResolveClick(ui, pixel).selectedID, Shift(0, 0))))
  {
    IlluminationPickPass(s);
    IlluminationShadowPass(s);
  }
}
