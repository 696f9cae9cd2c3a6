/** What one frame of js/lab10.js does, as functions: the key handler, click resolution, the
    pick colours, and the events each render pass emits. The Context class (frame.dfy) is
    proved to follow these functions. */
module FrameSpec {
  import opened GeometryData
  import opened SceneModel

  /** One unsigned byte, as read back from the 8-bit framebuffer. */
  type Byte = x: int | 0 <= x < 256

  // ---------------------------------------------------------------------------------------
  // Keyboard and selection state
  // ---------------------------------------------------------------------------------------

  /** The fields of the context that the key handler, the mouse handler and the pick pass
      change, together with the translation animation's g_value and g_startTime. */
  datatype UiState = UiState(
    renderPickOnly: bool,
    lockPicking: bool,
    animationStyle: int,
    clicked: bool,
    selectedID: Option<int>,
    gValue: real,
    gStartTime: Option<real>)

  /** initKeyboardHandler sets false / false / 0; no click is pending and nothing is selected;
      g_value starts at 0 and g_startTime at null. */
  const InitialUi: UiState := UiState(false, false, 0, false, None, 0.0, None)

  /** JavaScript's `%` on integers: the remainder has the sign of the dividend. */
  function JsRem(a: int, b: int): (r: int)
    requires b > 0
    ensures -b < r < b
    ensures a >= 0 ==> r == a % b
    ensures a < 0 ==> r <= 0
  {
    if a >= 0 then a % b else -((-a) % b)
  }

  /** The keypress listener (js/lab10.js:273-305). */
  function KeyPress(s: UiState, key: string): UiState
  {
    if key == "r" then s.(renderPickOnly := !s.renderPickOnly)
    else if key == "l" then s.(lockPicking := !s.lockPicking)
    else if key == "a" then s.(animationStyle := JsRem(s.animationStyle + 1, 3))
    else s
  }

  /** Each key touches only its own field: `r` negates renderPickOnly, `l` negates
      lockPicking, `a` is the only key that moves animationStyle, and no key touches the
      click and selection state. */
  lemma KeyPressFrame(s: UiState, key: string)
    ensures var t := KeyPress(s, key);
      && (t.renderPickOnly == if key == "r" then !s.renderPickOnly else s.renderPickOnly)
      && (t.lockPicking == if key == "l" then !s.lockPicking else s.lockPicking)
      && (key != "a" ==> t.animationStyle == s.animationStyle)
      && t.clicked == s.clicked && t.selectedID == s.selectedID
      && t.gValue == s.gValue && t.gStartTime == s.gStartTime
      && (key != "r" && key != "l" && key != "a" ==> t == s)
  {
  }

  /** Pressing `r` twice, or `l` twice, restores the state. */
  lemma KeyToggleInvolution(s: UiState)
    ensures KeyPress(KeyPress(s, "r"), "r") == s
    ensures KeyPress(KeyPress(s, "l"), "l") == s
  {
  }

  /** animationStyle stays in {0, 1, 2} under every key, `a` steps it to (old + 1) % 3, and
      three presses of `a` restore it. */
  lemma AnimationStyleCycle(s: UiState, key: string)
    requires 0 <= s.animationStyle < 3
    ensures 0 <= KeyPress(s, key).animationStyle < 3
    ensures key == "a" ==> KeyPress(s, key).animationStyle == (s.animationStyle + 1) % 3
    ensures KeyPress(KeyPress(KeyPress(s, "a"), "a"), "a") == s
  {
  }

  /** The pending-click resolution at the end of the pick pass (js/lab10.js:1037-1053):
      nothing happens without a click, and a locked click stays pending. */
  function ResolveClick(s: UiState, pixel: Byte): UiState
  {
    if !s.clicked || s.lockPicking then s
    else s.(clicked := false, gValue := 0.0, gStartTime := None, selectedID := Some(pixel))
  }

  /** What can happen to the UI state between two frames and in one: a key press, a mouse
      button press (which marks a click pending), or a pick pass whose readback shows `pixel`. */
  datatype Input = KeyInput(key: string) | MouseDown | PickFrame(pixel: Byte)

  function Apply(s: UiState, e: Input): UiState
  {
    match e
    case KeyInput(key) => KeyPress(s, key)
    case MouseDown => s.(clicked := true)
    case PickFrame(pixel) => ResolveClick(s, pixel)
  }

  function Run(s: UiState, es: seq<Input>): UiState
    decreases |es|
  {
    if es == [] then s else Run(Apply(s, es[0]), es[1..])
  }

  /** A click resolves only when picking is unlocked: then it clears the pending flag, resets
      the animation and selects the pixel's red byte; otherwise the state is unchanged. */
  lemma ResolveClickCases(s: UiState, pixel: Byte)
    ensures var t := ResolveClick(s, pixel);
      && (s.clicked && !s.lockPicking ==>
            !t.clicked && t.selectedID == Some(pixel) && t.gValue == 0.0 && t.gStartTime.None?
            && t.(clicked := s.clicked, selectedID := s.selectedID, gValue := s.gValue,
                  gStartTime := s.gStartTime) == s)
      && (!s.clicked || s.lockPicking ==> t == s)
      && (t.selectedID.Some? ==> 0 <= t.selectedID.value < 256 || t.selectedID == s.selectedID)
  {
  }

  /** While picking is locked and `l` is not pressed, the selection stays frozen over any
      number of clicks and frames, and a pending click stays pending. */
  lemma {:induction false} LockedSelectionFrozen(s: UiState, es: seq<Input>)
    requires s.lockPicking
    requires forall i :: 0 <= i < |es| ==> es[i] != KeyInput("l")
    ensures Run(s, es).lockPicking
    ensures Run(s, es).selectedID == s.selectedID
    ensures s.clicked ==> Run(s, es).clicked
    decreases |es|
  {
    if es != [] {
      var t := Apply(s, es[0]);
      assert t.lockPicking && t.selectedID == s.selectedID && (s.clicked ==> t.clicked);
      assert forall i :: 0 <= i < |es[1..]| ==> es[1..][i] != KeyInput("l") by {
        forall i | 0 <= i < |es[1..]| ensures es[1..][i] != KeyInput("l") {
          assert es[1..][i] == es[i + 1];
        }
      }
      LockedSelectionFrozen(t, es[1..]);
    }
  }

  /** A click made while locked is resolved by the first pick pass after unlocking. */
  lemma UnlockResolvesPendingClick(s: UiState, es: seq<Input>, pixel: Byte)
    requires s.lockPicking && s.clicked
    requires forall i :: 0 <= i < |es| ==> es[i] != KeyInput("l")
    ensures var t := Run(Run(s, es), [KeyInput("l"), PickFrame(pixel)]);
      !t.clicked && t.selectedID == Some(pixel) && !t.lockPicking
  {
    LockedSelectionFrozen(s, es);
    var u := Run(s, es);
    var v := Apply(u, KeyInput("l"));
    assert [KeyInput("l"), PickFrame(pixel)][1..] == [PickFrame(pixel)];
    assert Run(u, [KeyInput("l"), PickFrame(pixel)]) == Run(v, [PickFrame(pixel)]);
    assert Run(v, [PickFrame(pixel)]) == ResolveClick(v, pixel);
  }

  // ---------------------------------------------------------------------------------------
  // Pick colours and identifiers
  // ---------------------------------------------------------------------------------------

  /** Math.round for the non-negative arguments it receives here: half rounds up. */
  function JsRound(x: real): int
  {
    (x + 0.5).Floor
  }

  /** Red channel assigned to the k-th pickable geometry: 0.32 + 0.16 k. */
  function PickRed(k: nat): real
  {
    0.32 + 0.16 * k as real
  }

  /** `Math.round(r * 255)` for that red value. */
  function PickId(k: nat): int
  {
    JsRound(PickRed(k) * 255.0)
  }

  /** The byte an 8-bit framebuffer stores for a red channel: clamped to [0, 1] and rounded. */
  function RedByte(r: real): Byte
  {
    if r <= 0.0 then 0 else if r >= 1.0 then 255
    else JsRound(r * 255.0)
  }

  /** The identifiers listed next to the pick loop: 82, 122, 163, 204 (then 245), and each is
      what the framebuffer shows for that colour. */
  lemma PickIdValues()
    ensures PickId(0) == 82 && PickId(1) == 122 && PickId(2) == 163 && PickId(3) == 204
    ensures PickId(4) == 245
    ensures forall k :: 0 <= k < 5 ==> RedByte(PickRed(k)) == PickId(k)
  {
    assert PickRed(0) * 255.0 + 0.5 == 82.1;
    assert PickRed(1) * 255.0 + 0.5 == 122.9;
    assert PickRed(2) * 255.0 + 0.5 == 163.7;
    assert PickRed(3) * 255.0 + 0.5 == 204.5;
    assert PickRed(4) * 255.0 + 0.5 == 245.3;
  }

  /** Six pickable geometries read back as six different bytes; from the sixth on the red
      channel saturates, so the sixth and seventh collide. */
  lemma PickBytesDistinct(k: nat, k': nat)
    requires k < 6 && k' < 6 && k != k'
    ensures RedByte(PickRed(k)) != RedByte(PickRed(k'))
    ensures RedByte(PickRed(5)) == RedByte(PickRed(6)) == 255
  {
    PickIdValues();
  }

  // ---------------------------------------------------------------------------------------
  // Render-pass events
  // ---------------------------------------------------------------------------------------

  datatype Pass = PickPass | ShadowPass | FinalPass

  /** The y-translation accumulated in mat4_VM since the frame's lookat: `gUnits` times
      g_value plus `units`. */
  datatype Shift = Shift(gUnits: int, units: int)

  /** The draw calls and other observable effects of the render passes, in order. */
  datatype Event =
    | BeginPass(pass: Pass)
    | PickDraw(geometry: string, red: real)
    | ShadowTarget(light: string)
    | ShadowDraw(light: string, geometry: string)
    | AnimationRequested
    | FinalDraw(geometry: string, renderer: Renderer, shift: Shift)

  /** The pass markers of a run of events. */
  function Passes(es: seq<Event>): seq<Pass>
    decreases |es|
  {
    if es == [] then []
    else Passes(es[..|es| - 1]) + if es[|es| - 1].BeginPass? then [es[|es| - 1].pass] else []
  }

  /** The (geometry, callback) pairs of the final-pass draws of a run of events. */
  function FinalDrawn(es: seq<Event>): seq<(string, Renderer)>
    decreases |es|
  {
    if es == [] then []
    else
      var e := es[|es| - 1];
      FinalDrawn(es[..|es| - 1]) + if e.FinalDraw? then [(e.geometry, e.renderer)] else []
  }

  /** Number of shadow draws in a run of events. */
  function ShadowDrawCount(es: seq<Event>): nat
    decreases |es|
  {
    if es == [] then 0
    else ShadowDrawCount(es[..|es| - 1]) + if es[|es| - 1].ShadowDraw? then 1 else 0
  }

  lemma {:induction false} EventsAppend(a: seq<Event>, b: seq<Event>)
    ensures Passes(a + b) == Passes(a) + Passes(b)
    ensures ShadowDrawCount(a + b) == ShadowDrawCount(a) + ShadowDrawCount(b)
    ensures FinalDrawn(a + b) == FinalDrawn(a) + FinalDrawn(b)
    decreases |b|
  {
    if b == [] {
      assert a + b == a;
    } else {
      var b' := b[..|b| - 1];
      assert (a + b)[..|a + b| - 1] == a + b';
      EventsAppend(a, b');
    }
  }

  lemma Singleton(e: Event)
    ensures Passes([e]) == if e.BeginPass? then [e.pass] else []
    ensures ShadowDrawCount([e]) == if e.ShadowDraw? then 1 else 0
    ensures FinalDrawn([e]) == if e.FinalDraw? then [(e.geometry, e.renderer)] else []
  {
    assert [e][..0] == [];
  }

  // ----- pick pass ------------------------------------------------------------------------

  /** Number of geometries with a program. */
  function PickCount(gs: seq<Geometry>): nat
    decreases |gs|
  {
    if gs == [] then 0 else PickCount(gs[..|gs| - 1]) + if HasProgram(gs[|gs| - 1]) then 1 else 0
  }

  /** The red value of the pick uniform after the assignments of the pick loop over `gs`,
      starting from `red0`. */
  function RedAfter(gs: seq<Geometry>, red0: real): real
  {
    if PickCount(gs) == 0 then red0 else PickRed(PickCount(gs) - 1)
  }

  /** The pick loop's draws (js/lab10.js:1005-1035): each geometry with a program is drawn with
      the uniform as it stands, and only then is its own colour assigned. */
  function PickDraws(gs: seq<Geometry>, red0: real): seq<Event>
    decreases |gs|
  {
    if gs == [] then []
    else
      var init, g := gs[..|gs| - 1], gs[|gs| - 1];
      PickDraws(init, red0) + if HasProgram(g) then [PickDraw(g.name, RedAfter(init, red0))] else []
  }

  /** Names of the geometries with a program, in scene order. */
  function PickNames(gs: seq<Geometry>): seq<string>
    decreases |gs|
  {
    if gs == [] then []
    else PickNames(gs[..|gs| - 1]) + if HasProgram(gs[|gs| - 1]) then [gs[|gs| - 1].name] else []
  }

  /** One draw per geometry with a program, in scene order; the j-th shows the colour assigned
      to the (j - 1)-th, and the first shows what the uniform held before the pass. */
  lemma {:induction false} PickDrawsLag(gs: seq<Geometry>, red0: real)
    ensures |PickDraws(gs, red0)| == PickCount(gs) == |PickNames(gs)|
    ensures forall j :: 0 <= j < |PickDraws(gs, red0)| ==>
      && PickDraws(gs, red0)[j] == PickDraw(PickNames(gs)[j], if j == 0 then red0 else PickRed(j - 1))
    ensures Passes(PickDraws(gs, red0)) == []
    decreases |gs|
  {
    if gs != [] {
      var init, g := gs[..|gs| - 1], gs[|gs| - 1];
      PickDrawsLag(init, red0);
      var tail := if HasProgram(g) then [PickDraw(g.name, RedAfter(init, red0))] else [];
      EventsAppend(PickDraws(init, red0), tail);
      if HasProgram(g) {
        Singleton(PickDraw(g.name, RedAfter(init, red0)));
      }
    }
  }

  /** The pick pass: its marker, then the pick loop if the head_simple program can render. */
  function PickPassEvents(gs: seq<Geometry>, canPick: bool, red0: real): seq<Event>
  {
    [BeginPass(PickPass)] + if canPick then PickDraws(gs, red0) else []
  }

  /** The pick uniform after the pick pass. */
  function PickRedAfter(gs: seq<Geometry>, canPick: bool, red0: real): real
  {
    if canPick then RedAfter(gs, red0) else red0
  }

  /** Three geometries with programs: the counts and names of the pick loop's prefixes. */
  lemma PickNamesOfThree(gs: seq<Geometry>)
    requires |gs| == 3 && forall i :: 0 <= i < 3 ==> HasProgram(gs[i])
    ensures PickCount(gs[..2]) == 2 && PickCount(gs) == 3
    ensures PickNames(gs) == [gs[0].name, gs[1].name, gs[2].name]
  {
    var g1, g2 := gs[..1], gs[..2];
    assert g1[..0] == [] && g2[..1] == g1 && gs[..|gs| - 1] == g2;
    assert g1[0] == gs[0] && g2[1] == gs[1];
    assert PickCount(g1) == 1 && PickCount(g2) == 2;
    assert PickNames(g1) == [gs[0].name];
    assert PickNames(g2) == [gs[0].name, gs[1].name];
  }

  /** The pick loop over three geometries with programs, from any starting uniform `red0`: the
      first is drawn with `red0`, the others with the first two colours, and the uniform ends
      at the third colour. */
  lemma PickDrawsOfThree(gs: seq<Geometry>, red0: real)
    requires |gs| == 3 && forall i :: 0 <= i < 3 ==> HasProgram(gs[i])
    ensures RedAfter(gs, red0) == PickRed(2)
    ensures PickDraws(gs, red0) ==
      [PickDraw(gs[0].name, red0), PickDraw(gs[1].name, PickRed(0)), PickDraw(gs[2].name, PickRed(1))]
  {
    PickNamesOfThree(gs);
    PickDrawsLag(gs, red0);
    var d := PickDraws(gs, red0);
    assert d[0] == PickDraw(gs[0].name, red0);
    assert d[1] == PickDraw(gs[1].name, PickRed(0));
    assert d[2] == PickDraw(gs[2].name, PickRed(1));
  }

  /** With the pawn parts ordered base, column, head, the first frame shows base with the
      uniform's initial value 0 and every later frame shows base, column and head as 163, 82
      and 122: the identifiers the pawn callbacks test. */
  lemma PickSteadyState(gs: seq<Geometry>)
    requires |gs| == 3 && forall i :: 0 <= i < 3 ==> HasProgram(gs[i])
    ensures RedAfter(gs, 0.0) == PickRed(2) && RedAfter(gs, PickRed(2)) == PickRed(2)
    ensures PickDraws(gs, 0.0) ==
      [PickDraw(gs[0].name, 0.0), PickDraw(gs[1].name, PickRed(0)), PickDraw(gs[2].name, PickRed(1))]
    ensures PickDraws(gs, PickRed(2)) ==
      [PickDraw(gs[0].name, PickRed(2)), PickDraw(gs[1].name, PickRed(0)), PickDraw(gs[2].name, PickRed(1))]
    ensures RedByte(0.0) == 0 && RedByte(PickRed(2)) == 163
    ensures RedByte(PickRed(0)) == 82 && RedByte(PickRed(1)) == 122
  {
    PickDrawsOfThree(gs, 0.0);
    PickDrawsOfThree(gs, PickRed(2));
    PickIdValues();
  }

  // ----- shadow pass ----------------------------------------------------------------------

  /** render_pass_shadows_geometry (js/lab10.js:920-938): one draw per geometry with elements. */
  function ShadowGeometryDraws(light: string, gs: seq<Geometry>): seq<Event>
    decreases |gs|
  {
    if gs == [] then []
    else
      var g := gs[|gs| - 1];
      ShadowGeometryDraws(light, gs[..|gs| - 1]) + if g.hasElements then [ShadowDraw(light, g.name)] else []
  }

  /** render_pass_shadows (js/lab10.js:940-965): for each light with a shadow map, bind its
      framebuffer and draw the geometries into it. */
  function ShadowDraws(ls: seq<Light>, gs: seq<Geometry>): seq<Event>
    decreases |ls|
  {
    if ls == [] then []
    else
      var l := ls[|ls| - 1];
      ShadowDraws(ls[..|ls| - 1], gs)
        + if l.hasShadowmap then [ShadowTarget(l.name)] + ShadowGeometryDraws(l.name, gs) else []
  }

  /** One more loop iteration of the shadow pass over ls[..i + 1]. */
  lemma ShadowDrawsStep(ls: seq<Light>, gs: seq<Geometry>, i: nat)
    requires i < |ls|
    ensures ShadowDraws(ls[..i + 1], gs) == ShadowDraws(ls[..i], gs)
      + (if ls[i].hasShadowmap then [ShadowTarget(ls[i].name)] + ShadowGeometryDraws(ls[i].name, gs) else [])
  {
    assert ls[..i + 1][..i] == ls[..i] && ls[..i + 1][i] == ls[i];
  }

  function IndexedCount(gs: seq<Geometry>): nat
    decreases |gs|
  {
    if gs == [] then 0 else IndexedCount(gs[..|gs| - 1]) + if gs[|gs| - 1].hasElements then 1 else 0
  }

  function CasterCount(ls: seq<Light>): nat
    decreases |ls|
  {
    if ls == [] then 0 else CasterCount(ls[..|ls| - 1]) + if ls[|ls| - 1].hasShadowmap then 1 else 0
  }

  /** A light's shadow draws number the geometries with elements, and are all shadow draws
      into that light's map. */
  lemma {:induction false} ShadowGeometryDrawsCount(light: string, gs: seq<Geometry>)
    ensures ShadowDrawCount(ShadowGeometryDraws(light, gs)) == |ShadowGeometryDraws(light, gs)| == IndexedCount(gs)
    ensures Passes(ShadowGeometryDraws(light, gs)) == []
    ensures forall e :: e in ShadowGeometryDraws(light, gs) ==> e.ShadowDraw? && e.light == light
    decreases |gs|
  {
    if gs != [] {
      var init, g := gs[..|gs| - 1], gs[|gs| - 1];
      ShadowGeometryDrawsCount(light, init);
      var tail := if g.hasElements then [ShadowDraw(light, g.name)] else [];
      EventsAppend(ShadowGeometryDraws(light, init), tail);
      if g.hasElements {
        Singleton(ShadowDraw(light, g.name));
      }
    }
  }

  /** Some geometry of that name has elements. */
  predicate HasIndexed(gs: seq<Geometry>, name: string)
  {
    exists i :: 0 <= i < |gs| && gs[i].name == name && gs[i].hasElements
  }

  /** Some light of that name has a shadow map. */
  predicate HasCaster(ls: seq<Light>, light: string)
  {
    exists i :: 0 <= i < |ls| && ls[i].name == light && ls[i].hasShadowmap
  }

  lemma HasIndexedStep(gs: seq<Geometry>, name: string)
    requires gs != []
    ensures HasIndexed(gs, name) <==>
      HasIndexed(gs[..|gs| - 1], name) || (gs[|gs| - 1].name == name && gs[|gs| - 1].hasElements)
  {
    var init := gs[..|gs| - 1];
    if HasIndexed(gs, name) {
      var i :| 0 <= i < |gs| && gs[i].name == name && gs[i].hasElements;
      if i < |init| {
        assert init[i] == gs[i];
      }
    }
    if HasIndexed(init, name) {
      var i :| 0 <= i < |init| && init[i].name == name && init[i].hasElements;
      assert gs[i] == init[i];
    }
  }

  lemma HasCasterStep(ls: seq<Light>, light: string)
    requires ls != []
    ensures HasCaster(ls, light) <==>
      HasCaster(ls[..|ls| - 1], light) || (ls[|ls| - 1].name == light && ls[|ls| - 1].hasShadowmap)
  {
    var init := ls[..|ls| - 1];
    if HasCaster(ls, light) {
      var i :| 0 <= i < |ls| && ls[i].name == light && ls[i].hasShadowmap;
      if i < |init| {
        assert init[i] == ls[i];
      }
    }
    if HasCaster(init, light) {
      var i :| 0 <= i < |init| && init[i].name == light && init[i].hasShadowmap;
      assert ls[i] == init[i];
    }
  }

  /** A light draws a geometry into its map iff that geometry has elements. */
  lemma {:induction false} ShadowGeometryDrawsMembership(light: string, gs: seq<Geometry>, name: string)
    ensures ShadowDraw(light, name) in ShadowGeometryDraws(light, gs) <==> HasIndexed(gs, name)
    decreases |gs|
  {
    if gs != [] {
      ShadowGeometryDrawsMembership(light, gs[..|gs| - 1], name);
      HasIndexedStep(gs, name);
    }
  }

  lemma MulSucc(c: nat, m: nat)
    ensures (c + 1) * m == c * m + m
  {
  }

  /** What one light adds to the shadow pass: its target and one draw per geometry with
      elements if it has a shadow map, nothing otherwise. */
  lemma CasterRun(l: Light, gs: seq<Geometry>)
    ensures var run := if l.hasShadowmap then [ShadowTarget(l.name)] + ShadowGeometryDraws(l.name, gs) else [];
      && ShadowDrawCount(run) == (if l.hasShadowmap then IndexedCount(gs) else 0)
      && Passes(run) == []
  {
    if l.hasShadowmap {
      ShadowGeometryDrawsCount(l.name, gs);
      EventsAppend([ShadowTarget(l.name)], ShadowGeometryDraws(l.name, gs));
      Singleton(ShadowTarget(l.name));
    }
  }

  /** The shadow pass emits one draw per (light with a shadow map, geometry with elements),
      and no pass marker. */
  lemma {:induction false} ShadowDrawsCount(ls: seq<Light>, gs: seq<Geometry>)
    ensures ShadowDrawCount(ShadowDraws(ls, gs)) == CasterCount(ls) * IndexedCount(gs)
    ensures Passes(ShadowDraws(ls, gs)) == []
    decreases |ls|
  {
    if ls != [] {
      var init, l := ls[..|ls| - 1], ls[|ls| - 1];
      var run := if l.hasShadowmap then [ShadowTarget(l.name)] + ShadowGeometryDraws(l.name, gs) else [];
      assert ShadowDraws(ls, gs) == ShadowDraws(init, gs) + run;
      ShadowDrawsCount(init, gs);
      CasterRun(l, gs);
      EventsAppend(ShadowDraws(init, gs), run);
      var c, m := CasterCount(init), IndexedCount(gs);
      assert CasterCount(ls) == c + if l.hasShadowmap then 1 else 0;
      MulSucc(c, m);
    }
  }

  /** A (light, geometry) pair is drawn in the shadow pass iff the light has a shadow map and
      the geometry has elements. */
  lemma {:induction false} ShadowDrawsMembership(ls: seq<Light>, gs: seq<Geometry>, light: string, name: string)
    ensures ShadowDraw(light, name) in ShadowDraws(ls, gs) <==> HasCaster(ls, light) && HasIndexed(gs, name)
    decreases |ls|
  {
    if ls != [] {
      var init, l := ls[..|ls| - 1], ls[|ls| - 1];
      ShadowDrawsMembership(init, gs, light, name);
      ShadowGeometryDrawsMembership(l.name, gs, name);
      ShadowGeometryDrawsCount(l.name, gs);
      HasCasterStep(ls, light);
    }
  }

  // ----- final pass -----------------------------------------------------------------------

  predicate Selected(sel: Option<int>, a: int, b: int)
  {
    sel == Some(a) || sel == Some(b)
  }

  /** mat4_VM after a render callback's own post-multiplication (js/lab10.js:640-645, 701-705,
      763-767, 883-884): the pawn callbacks translate by -g_value, +g_value and +g_value when
      their selection test holds, the shadow callback always by -2, the others not at all. */
  function CallbackShift(r: Renderer, sel: Option<int>, shift: Shift): Shift
  {
    match r
    case RenderPawnBase => if Selected(sel, 163, 82) then shift.(gUnits := shift.gUnits - 1) else shift
    case RenderPawnColumn => if Selected(sel, 163, 82) then shift.(gUnits := shift.gUnits + 1) else shift
    case RenderPawnHead => if Selected(sel, 82, 122) then shift.(gUnits := shift.gUnits + 1) else shift
    case RenderShadow => shift.(units := shift.units - 2)
    case RenderSimple => shift
    case RenderHeadSimple => shift
  }

  /** Whether the callback calls start_animate: the base when base or column is selected, the
      head when the head is. */
  predicate StartsAnimation(r: Renderer, sel: Option<int>)
  {
    (r == RenderPawnBase && Selected(sel, 163, 82)) || (r == RenderPawnHead && sel == Some(122))
  }

  /** One callback invocation: the animation request, if any, then the draw with the VM it
      uploads. */
  function CallbackEvents(name: string, r: Renderer, sel: Option<int>, shift: Shift): seq<Event>
  {
    (if StartsAnimation(r, sel) then [AnimationRequested] else []) + [FinalDraw(name, r, CallbackShift(r, sel, shift))]
  }

  /** The callback the final pass runs for a geometry: that of its program, if it has a
      program that can render. */
  function FinalRenderer(s: Scene, g: Geometry): Option<Renderer>
  {
    var p := ProgramOf(s, g);
    if HasProgram(g) && p.Some? && CanRenderGeometry(p.value) then p.value.renderer else None
  }

  /** mat4_VM after the final pass over `gs`, starting from `shift0`. */
  function ShiftAfter(s: Scene, gs: seq<Geometry>, sel: Option<int>, shift0: Shift): Shift
    decreases |gs|
  {
    if gs == [] then shift0
    else
      var prev := ShiftAfter(s, gs[..|gs| - 1], sel, shift0);
      var r := FinalRenderer(s, gs[|gs| - 1]);
      if r.Some? then CallbackShift(r.value, sel, prev) else prev
  }

  /** render_pass_final's loop (js/lab10.js:978-987). */
  function FinalDraws(s: Scene, gs: seq<Geometry>, sel: Option<int>, shift0: Shift): seq<Event>
    decreases |gs|
  {
    if gs == [] then []
    else
      var init, g := gs[..|gs| - 1], gs[|gs| - 1];
      var r := FinalRenderer(s, g);
      FinalDraws(s, init, sel, shift0)
        + if r.Some? then CallbackEvents(g.name, r.value, sel, ShiftAfter(s, init, sel, shift0)) else []
  }

  /** One more loop iteration of the final pass: the draws and VM over the prefix gs[..i + 1]. */
  lemma FinalDrawsStep(s: Scene, gs: seq<Geometry>, i: nat, sel: Option<int>, shift0: Shift)
    requires i < |gs|
    ensures var prev, r := gs[..i], FinalRenderer(s, gs[i]);
      && FinalDraws(s, gs[..i + 1], sel, shift0) == FinalDraws(s, prev, sel, shift0)
           + (if r.Some? then CallbackEvents(gs[i].name, r.value, sel, ShiftAfter(s, prev, sel, shift0)) else [])
      && ShiftAfter(s, gs[..i + 1], sel, shift0) ==
           (if r.Some? then CallbackShift(r.value, sel, ShiftAfter(s, prev, sel, shift0))
            else ShiftAfter(s, prev, sel, shift0))
  {
    assert gs[..i + 1][..i] == gs[..i] && gs[..i + 1][i] == gs[i];
  }

  /** The geometries the final pass should draw, each with its program's callback. */
  function Renderable(s: Scene, gs: seq<Geometry>): seq<(string, Renderer)>
    decreases |gs|
  {
    if gs == [] then []
    else
      var g := gs[|gs| - 1];
      Renderable(s, gs[..|gs| - 1]) + if FinalRenderer(s, g).Some? then [(g.name, FinalRenderer(s, g).value)] else []
  }

  lemma CallbackEventsShape(name: string, r: Renderer, sel: Option<int>, shift: Shift)
    ensures FinalDrawn(CallbackEvents(name, r, sel, shift)) == [(name, r)]
    ensures Passes(CallbackEvents(name, r, sel, shift)) == []
    ensures ShadowDrawCount(CallbackEvents(name, r, sel, shift)) == 0
  {
    var pre := if StartsAnimation(r, sel) then [AnimationRequested] else [];
    EventsAppend(pre, [FinalDraw(name, r, CallbackShift(r, sel, shift))]);
    Singleton(FinalDraw(name, r, CallbackShift(r, sel, shift)));
    if StartsAnimation(r, sel) {
      Singleton(AnimationRequested);
    }
  }

  /** The final pass calls a callback exactly once per geometry whose program can render, in
      scene order, and that callback is the program's own. */
  lemma {:induction false} FinalDrawsShape(s: Scene, gs: seq<Geometry>, sel: Option<int>, shift0: Shift)
    ensures FinalDrawn(FinalDraws(s, gs, sel, shift0)) == Renderable(s, gs)
    ensures Passes(FinalDraws(s, gs, sel, shift0)) == []
    ensures ShadowDrawCount(FinalDraws(s, gs, sel, shift0)) == 0
    decreases |gs|
  {
    if gs != [] {
      var init, g := gs[..|gs| - 1], gs[|gs| - 1];
      var r := FinalRenderer(s, g);
      FinalDrawsShape(s, init, sel, shift0);
      var tail := if r.Some? then CallbackEvents(g.name, r.value, sel, ShiftAfter(s, init, sel, shift0)) else [];
      EventsAppend(FinalDraws(s, init, sel, shift0), tail);
      if r.Some? {
        CallbackEventsShape(g.name, r.value, sel, ShiftAfter(s, init, sel, shift0));
      }
    }
  }

  /** The column's translation undoes the base's, so the column's net offset is 0 for every
      selection, and the head ends up g_value higher exactly when head or column is selected. */
  lemma PawnOffsets(sel: Option<int>, shift: Shift)
    ensures var base := CallbackShift(RenderPawnBase, sel, shift);
      var column := CallbackShift(RenderPawnColumn, sel, base);
      var head := CallbackShift(RenderPawnHead, sel, column);
      && base == shift.(gUnits := shift.gUnits - if Selected(sel, 163, 82) then 1 else 0)
      && column == shift
      && head == shift.(gUnits := shift.gUnits + if Selected(sel, 82, 122) then 1 else 0)
  {
  }

  // ----- one frame ------------------------------------------------------------------------

  /** Whether the pick loop can draw: scene.programs["head_simple"] can render. */
  predicate CanPick(s: Scene)
  {
    var p := ProgramNamed(s.programs, "head_simple");
    p.Some? && CanRenderGeometry(p.value)
  }

  function ShadowPassEvents(s: Scene): seq<Event>
  {
    [BeginPass(ShadowPass)] + ShadowDraws(s.lights, s.geometries)
  }

  function FinalPassEvents(s: Scene, sel: Option<int>, shift0: Shift): seq<Event>
  {
    [BeginPass(FinalPass)] + FinalDraws(s, s.geometries, sel, shift0)
  }

  /** Each pass carries exactly its own marker, at its start. */
  lemma PassMarkers(s: Scene, canPick: bool, red0: real, sel: Option<int>, shift0: Shift)
    ensures Passes(PickPassEvents(s.geometries, canPick, red0)) == [PickPass]
    ensures Passes(ShadowPassEvents(s)) == [ShadowPass]
    ensures Passes(FinalPassEvents(s, sel, shift0)) == [FinalPass]
  {
    PickDrawsLag(s.geometries, red0);
    Singleton(BeginPass(PickPass));
    EventsAppend([BeginPass(PickPass)], if canPick then PickDraws(s.geometries, red0) else []);
    ShadowDrawsCount(s.lights, s.geometries);
    Singleton(BeginPass(ShadowPass));
    EventsAppend([BeginPass(ShadowPass)], ShadowDraws(s.lights, s.geometries));
    FinalDrawsShape(s, s.geometries, sel, shift0);
    Singleton(BeginPass(FinalPass));
    EventsAppend([BeginPass(FinalPass)], FinalDraws(s, s.geometries, sel, shift0));
  }

  /** render (js/lab10.js:1096-1106): the pick pass, then, unless only picking is rendered,
      the shadow pass and the final pass with the selection the pick pass left. */
  function FrameEvents(ui: UiState, s: Scene, red0: real, pixel: Byte, shift0: Shift): seq<Event>
  {
    PickPassEvents(s.geometries, CanPick(s), red0)
      + (if ui.renderPickOnly then []
         else ShadowPassEvents(s) + FinalPassEvents(s, ResolveClick(ui, pixel).selectedID, shift0))
  }

  /** Every frame runs the pick pass, and the shadow and final passes exactly when
      renderPickOnly is off, in that order. */
  lemma FramePassOrder(ui: UiState, s: Scene, red0: real, pixel: Byte, shift0: Shift)
    ensures Passes(FrameEvents(ui, s, red0, pixel, shift0)) ==
      if ui.renderPickOnly then [PickPass] else [PickPass, ShadowPass, FinalPass]
  {
    var sel := ResolveClick(ui, pixel).selectedID;
    PassMarkers(s, CanPick(s), red0, sel, shift0);
    var pick := PickPassEvents(s.geometries, CanPick(s), red0);
    if ui.renderPickOnly {
      EventsAppend(pick, []);
    } else {
      EventsAppend(ShadowPassEvents(s), FinalPassEvents(s, sel, shift0));
      EventsAppend(pick, ShadowPassEvents(s) + FinalPassEvents(s, sel, shift0));
    }
  }
}
