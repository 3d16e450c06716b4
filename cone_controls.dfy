/** The keyboard controls of the lit-cone viewer (hw07): three two-valued
    modes switched by single keys, the overlay lines that report them, and
    the choices render() makes from them. The arcball, the cone mesh, the
    lamp and the shader programs are foreign objects; the model records the
    calls made on them as effects and takes the arcball's matrices as a
    parameter. */
module ConeControls {

  datatype ArcballMode = Camera | Model
  datatype ShadingMode = Flat | Smooth
  datatype RenderingMode = Phong | Gouraud

  /** The three mode variables of the page. */
  datatype Modes = Modes(arcBallMode: ArcballMode, shadingMode: ShadingMode, renderingMode: RenderingMode)

  /** The page starts in CAMERA, FLAT and PHONG. */
  const InitialModes := Modes(Camera, Flat, Phong)

  /** The source stores each mode as its upper-case name. */
  function ArcballLabel(m: ArcballMode): string
  {
    match m
    case Camera => "CAMERA"
    case Model => "MODEL"
  }

  function ShadingLabel(m: ShadingMode): string
  {
    match m
    case Flat => "FLAT"
    case Smooth => "SMOOTH"
  }

  function RenderingLabel(m: RenderingMode): string
  {
    match m
    case Phong => "PHONG"
    case Gouraud => "GOURAUD"
  }

  /** The second overlay line. */
  function ArcballText(m: Modes): string
  {
    "arcball mode: " + ArcballLabel(m.arcBallMode)
  }

  /** The third overlay line. */
  function ShadingText(m: Modes): string
  {
    "shading mode: " + ShadingLabel(m.shadingMode) + " (" + RenderingLabel(m.renderingMode) + ")"
  }

  function Flip(m: ArcballMode): (m': ArcballMode)
    ensures m' != m
  {
    if m == Camera then Model else Camera
  }

  /** The mode assignments of the keydown handler. */
  function NextModes(m: Modes, key: string): Modes
  {
    if key == "a" then m.(arcBallMode := Flip(m.arcBallMode))
    else if key == "r" then m.(arcBallMode := Camera)
    else if key == "s" then m.(shadingMode := Smooth)
    else if key == "f" then m.(shadingMode := Flat)
    else if key == "g" then m.(renderingMode := Gouraud)
    else if key == "p" then m.(renderingMode := Phong)
    else m
  }

  predicate IsShadingKey(key: string)
  {
    key == "s" || key == "f"
  }

  predicate IsRenderingKey(key: string)
  {
    key == "g" || key == "p"
  }

  predicate IsHandledKey(key: string)
  {
    key == "a" || key == "r" || IsShadingKey(key) || IsRenderingKey(key)
  }

  /** 'a' always changes the arcball mode, pressing it twice restores it,
      and it touches neither of the other modes. */
  lemma ToggleTwiceRestores(m: Modes)
    ensures NextModes(m, "a").arcBallMode != m.arcBallMode
    ensures NextModes(NextModes(m, "a"), "a") == m
    ensures NextModes(m, "a").shadingMode == m.shadingMode
    ensures NextModes(m, "a").renderingMode == m.renderingMode
  {
  }

  /** 'r' puts the arcball in CAMERA mode from any state, idempotently. */
  lemma ResetIsCamera(m: Modes)
    ensures NextModes(m, "r").arcBallMode == Camera
    ensures NextModes(NextModes(m, "r"), "r") == NextModes(m, "r")
    ensures NextModes(m, "r").shadingMode == m.shadingMode
    ensures NextModes(m, "r").renderingMode == m.renderingMode
  {
  }

  /** 's' and 'f' set the shading mode and nothing else, idempotently. */
  lemma ShadingKeySetsShading(m: Modes, key: string)
    requires IsShadingKey(key)
    ensures NextModes(m, key).shadingMode == Smooth <==> key == "s"
    ensures NextModes(m, key).arcBallMode == m.arcBallMode
    ensures NextModes(m, key).renderingMode == m.renderingMode
    ensures NextModes(NextModes(m, key), key) == NextModes(m, key)
  {
  }

  /** 'g' and 'p' set the rendering mode and nothing else, idempotently. */
  lemma RenderingKeySetsRendering(m: Modes, key: string)
    requires IsRenderingKey(key)
    ensures NextModes(m, key).renderingMode == Phong <==> key == "p"
    ensures NextModes(m, key).arcBallMode == m.arcBallMode
    ensures NextModes(m, key).shadingMode == m.shadingMode
    ensures NextModes(NextModes(m, key), key) == NextModes(m, key)
  {
  }

  /** The if/else chain has no final else: every other key is ignored. */
  lemma OtherKeysIgnored(m: Modes, key: string)
    requires !IsHandledKey(key)
    ensures NextModes(m, key) == m
  {
  }

  /** The three modes are independent: keys acting on different modes
      commute. */
  lemma KeysOfDifferentModesCommute(m: Modes, k1: string, k2: string)
    requires IsShadingKey(k1) && (IsRenderingKey(k2) || k2 == "a" || k2 == "r")
    ensures NextModes(NextModes(m, k1), k2) == NextModes(NextModes(m, k2), k1)
  {
  }

  /** The modes after a sequence of key presses. */
  function RunModes(m: Modes, keys: seq<string>): Modes
    decreases |keys|
  {
    if keys == [] then m else RunModes(NextModes(m, keys[0]), keys[1..])
  }

  lemma {:induction false} RunModesAppend(m: Modes, keys1: seq<string>, keys2: seq<string>)
    ensures RunModes(m, keys1 + keys2) == RunModes(RunModes(m, keys1), keys2)
    decreases |keys1|
  {
    if keys1 != [] {
      assert (keys1 + keys2)[0] == keys1[0];
      assert (keys1 + keys2)[1..] == keys1[1..] + keys2;
      RunModesAppend(NextModes(m, keys1[0]), keys1[1..], keys2);
    } else {
      assert keys1 + keys2 == keys2;
    }
  }

  /** A sequence with no 's' or 'f' leaves the shading mode as it was. */
  lemma {:induction false} ShadingUntouched(m: Modes, keys: seq<string>)
    requires forall i :: 0 <= i < |keys| ==> !IsShadingKey(keys[i])
    ensures RunModes(m, keys).shadingMode == m.shadingMode
    decreases |keys|
  {
    if keys != [] {
      ShadingUntouched(NextModes(m, keys[0]), keys[1..]);
    }
  }

  /** The shading mode is decided by the last 's' or 'f' pressed. */
  lemma LastShadingKeyWins(m: Modes, keys: seq<string>, i: int)
    requires 0 <= i < |keys| && IsShadingKey(keys[i])
    requires forall j :: i < j < |keys| ==> !IsShadingKey(keys[j])
    ensures RunModes(m, keys).shadingMode == if keys[i] == "s" then Smooth else Flat
  {
    var rest := keys[i + 1..];
    assert keys == keys[..i] + [keys[i]] + rest;
    RunModesAppend(m, keys[..i] + [keys[i]], rest);
    RunModesAppend(m, keys[..i], [keys[i]]);
    assert forall j :: 0 <= j < |rest| ==> rest[j] == keys[i + 1 + j];
    ShadingUntouched(RunModes(m, keys[..i + 1]), rest);
  }

  /** A sequence with no 'g' or 'p' leaves the rendering mode as it was. */
  lemma {:induction false} RenderingUntouched(m: Modes, keys: seq<string>)
    requires forall i :: 0 <= i < |keys| ==> !IsRenderingKey(keys[i])
    ensures RunModes(m, keys).renderingMode == m.renderingMode
    decreases |keys|
  {
    if keys != [] {
      RenderingUntouched(NextModes(m, keys[0]), keys[1..]);
    }
  }

  /** The rendering mode is decided by the last 'g' or 'p' pressed. */
  lemma LastRenderingKeyWins(m: Modes, keys: seq<string>, i: int)
    requires 0 <= i < |keys| && IsRenderingKey(keys[i])
    requires forall j :: i < j < |keys| ==> !IsRenderingKey(keys[j])
    ensures RunModes(m, keys).renderingMode == if keys[i] == "p" then Phong else Gouraud
  {
    var rest := keys[i + 1..];
    assert keys == keys[..i] + [keys[i]] + rest;
    RunModesAppend(m, keys[..i] + [keys[i]], rest);
    RunModesAppend(m, keys[..i], [keys[i]]);
    assert forall j :: 0 <= j < |rest| ==> rest[j] == keys[i + 1 + j];
    RenderingUntouched(RunModes(m, keys[..i + 1]), rest);
  }

  /** Without 'r', the arcball mode ends where it started exactly when 'a'
      was pressed an even number of times. */
  lemma {:induction false} ArcballParity(m: Modes, keys: seq<string>)
    requires forall i :: 0 <= i < |keys| ==> keys[i] != "r"
    ensures RunModes(m, keys).arcBallMode == m.arcBallMode <==> multiset(keys)["a"] % 2 == 0
    decreases |keys|
  {
    if keys != [] {
      var m' := NextModes(m, keys[0]);
      ArcballParity(m', keys[1..]);
      assert keys == [keys[0]] + keys[1..];
      assert multiset(keys) == multiset([keys[0]]) + multiset(keys[1..]);
    }
  }

  /** After the last 'r', the arcball mode is MODEL exactly when 'a' was
      pressed an odd number of times since. */
  lemma LastResetWins(m: Modes, keys: seq<string>, i: int)
    requires 0 <= i < |keys| && keys[i] == "r"
    requires forall j :: i < j < |keys| ==> keys[j] != "r"
    ensures RunModes(m, keys).arcBallMode == Model <==> multiset(keys[i + 1..])["a"] % 2 == 1
  {
    var rest := keys[i + 1..];
    assert keys == keys[..i] + [keys[i]] + rest;
    RunModesAppend(m, keys[..i] + [keys[i]], rest);
    RunModesAppend(m, keys[..i], [keys[i]]);
    assert forall j :: 0 <= j < |rest| ==> rest[j] == keys[i + 1 + j];
    ArcballParity(RunModes(m, keys[..i + 1]), rest);
  }

  /** Every combination of the three modes can be reached from the start. */
  lemma EveryModesReachable(m: Modes)
    ensures exists keys :: RunModes(InitialModes, keys) == m
  {
    var keys := [if m.arcBallMode == Model then "a" else "r",
                 if m.shadingMode == Smooth then "s" else "f",
                 if m.renderingMode == Gouraud then "g" else "p"];
    var m1 := NextModes(InitialModes, keys[0]);
    var m2 := NextModes(m1, keys[1]);
    assert keys[1..][1..] == [keys[2]];
    assert RunModes(InitialModes, keys) == RunModes(m2, [keys[2]]);
    assert m1.arcBallMode == m.arcBallMode;
    assert m2 == m1.(shadingMode := m.shadingMode);
    assert NextModes(m2, keys[2]) == m;
    assert RunModes(m2, [keys[2]]) == RunModes(m, []);
  }

  /* ---------------- matrices, render() and the handler's effects ---------------- */

  /** A 4x4 matrix in the column-major layout of the matrix library. */
  type Mat4 = seq<real>

  /** mat4.create(): the identity. */
  const Identity: Mat4 := [1.0, 0.0, 0.0, 0.0,
                           0.0, 1.0, 0.0, 0.0,
                           0.0, 0.0, 1.0, 0.0,
                           0.0, 0.0, 0.0, 1.0]

  datatype Vec3 = Vec3(x: real, y: real, z: real)

  /** The fixed camera position passed to the cone's shader as u_viewPos. */
  const CameraPos := Vec3(0.0, 0.0, 3.0)

  /** What the arcball reports when render() asks it. */
  datatype ArcballReading = ArcballReading(viewMatrix: Mat4, modelRotMatrix: Mat4, viewCamDistanceMatrix: Mat4)

  datatype Shader = PhongShader | GouraudShader

  /** textOverlay2 shows the arcball mode, textOverlay3 the shading modes. */
  datatype Overlay = ArcballOverlay | ShadingOverlay

  /** A call the page makes on a foreign object. */
  datatype Effect =
    | ResetArcball
    | CopyVertexNormalsToNormals
    | CopyFaceNormalsToNormals
    | UpdateNormals
    | UpdateText(overlay: Overlay, text: string)
    | DrawCone(shader: Shader, model: Mat4, view: Mat4, viewPos: Vec3)
    | DrawLamp(view: Mat4)

  /** The page's mutable globals: the modes and the two matrices render()
      and the 'r' key assign. */
  datatype ConeState = ConeState(modes: Modes, modelMatrix: Mat4, viewMatrix: Mat4)

  function ShaderFor(r: RenderingMode): (sh: Shader)
    ensures sh == PhongShader <==> r == Phong
  {
    match r
    case Phong => PhongShader
    case Gouraud => GouraudShader
  }

  /** The matrices render() stores: in CAMERA mode the arcball's view matrix
      and the model matrix left as it was, in MODEL mode the arcball's model
      rotation and its camera-distance view. */
  function AfterRender(s: ConeState, ab: ArcballReading): (s': ConeState)
    ensures s'.modes == s.modes
    ensures s'.viewMatrix == ab.viewMatrix || s'.viewMatrix == ab.viewCamDistanceMatrix
    ensures s'.modelMatrix != s.modelMatrix ==> s.modes.arcBallMode == Model
  {
    match s.modes.arcBallMode
    case Camera => s.(viewMatrix := ab.viewMatrix)
    case Model => s.(modelMatrix := ab.modelRotMatrix, viewMatrix := ab.viewCamDistanceMatrix)
  }

  /** The draw calls of one render(): the cone with the shader of the
      rendering mode, then the lamp, both with the view just stored. */
  function RenderEffects(s: ConeState, ab: ArcballReading): (fx: seq<Effect>)
    ensures |fx| == 2 && fx[0].DrawCone? && fx[1].DrawLamp?
    ensures fx[0].shader == PhongShader <==> s.modes.renderingMode == Phong
    ensures fx[0].view == fx[1].view
  {
    var s' := AfterRender(s, ab);
    [DrawCone(ShaderFor(s.modes.renderingMode), s'.modelMatrix, s'.viewMatrix, CameraPos),
     DrawLamp(s'.viewMatrix)]
  }

  /** render() draws with the matrices it stores; the cone's model matrix
      comes from the arcball only in MODEL mode. */
  lemma RenderUsesArcball(s: ConeState, ab: ArcballReading)
    ensures var fx := RenderEffects(s, ab);
            var s' := AfterRender(s, ab);
            && fx[0].model == s'.modelMatrix && fx[0].view == s'.viewMatrix
            && fx[0].viewPos == CameraPos
            && (s.modes.arcBallMode == Model ==>
                  fx[0].model == ab.modelRotMatrix && fx[0].view == ab.viewCamDistanceMatrix)
            && (s.modes.arcBallMode == Camera ==>
                  fx[0].model == s.modelMatrix && fx[0].view == ab.viewMatrix)
  {
  }

  /** The state after the keydown handler, including the render() that
      's', 'f', 'g' and 'p' end with. */
  function AfterKey(s: ConeState, key: string, ab: ArcballReading): (s': ConeState)
    ensures s'.modes == NextModes(s.modes, key)
    ensures key == "r" ==> s'.modelMatrix == Identity
    ensures !IsShadingKey(key) && !IsRenderingKey(key) ==> s'.viewMatrix == s.viewMatrix
    ensures s'.modelMatrix != s.modelMatrix ==>
              key == "r" ||
              ((IsShadingKey(key) || IsRenderingKey(key)) &&
               s'.modes.arcBallMode == Model && s'.modelMatrix == ab.modelRotMatrix)
  {
    var s1 := s.(modes := NextModes(s.modes, key));
    if key == "r" then s1.(modelMatrix := Identity)
    else if IsShadingKey(key) || IsRenderingKey(key) then AfterRender(s1, ab)
    else s1
  }

  /** The calls the keydown handler makes, in order. */
  function KeyEffects(s: ConeState, key: string, ab: ArcballReading): (fx: seq<Effect>)
    ensures !IsHandledKey(key) ==> fx == []
  {
    var m := NextModes(s.modes, key);
    var s1 := s.(modes := m);
    if key == "a" then [UpdateText(ArcballOverlay, ArcballText(m))]
    else if key == "r" then [ResetArcball, UpdateText(ArcballOverlay, ArcballText(m))]
    else if key == "s" then
      [CopyVertexNormalsToNormals, UpdateNormals, UpdateText(ShadingOverlay, ShadingText(m))] + RenderEffects(s1, ab)
    else if key == "f" then
      [CopyFaceNormalsToNormals, UpdateNormals, UpdateText(ShadingOverlay, ShadingText(m))] + RenderEffects(s1, ab)
    else if IsRenderingKey(key) then
      [UpdateText(ShadingOverlay, ShadingText(m))] + RenderEffects(s1, ab)
    else []
  }

  /** Every overlay update shows the modes the handler has just set, on the
      line of the mode the key changed. */
  lemma OverlayShowsNewModes(s: ConeState, key: string, ab: ArcballReading)
    ensures forall e :: e in KeyEffects(s, key, ab) && e.UpdateText? ==>
              e.text == (if e.overlay == ArcballOverlay then ArcballText(NextModes(s.modes, key))
                         else ShadingText(NextModes(s.modes, key)))
    ensures forall e :: e in KeyEffects(s, key, ab) && e.UpdateText? ==>
              (e.overlay == ArcballOverlay <==> key == "a" || key == "r")
  {
  }

  /** The keys that switch shading or rendering redraw the frame with the
      new modes; 'a' and 'r' do not draw. */
  lemma ModeKeysRedraw(s: ConeState, key: string, ab: ArcballReading)
    ensures IsShadingKey(key) || IsRenderingKey(key) ==>
              exists pre :: KeyEffects(s, key, ab) == pre + RenderEffects(s.(modes := NextModes(s.modes, key)), ab)
    ensures key == "a" || key == "r" ==>
              forall e :: e in KeyEffects(s, key, ab) ==> !e.DrawCone? && !e.DrawLamp?
  {
    var m := NextModes(s.modes, key);
    var text := UpdateText(ShadingOverlay, ShadingText(m));
    if key == "s" {
      assert KeyEffects(s, key, ab) == [CopyVertexNormalsToNormals, UpdateNormals, text] + RenderEffects(s.(modes := m), ab);
    } else if key == "f" {
      assert KeyEffects(s, key, ab) == [CopyFaceNormalsToNormals, UpdateNormals, text] + RenderEffects(s.(modes := m), ab);
    } else if IsRenderingKey(key) {
      assert KeyEffects(s, key, ab) == [text] + RenderEffects(s.(modes := m), ab);
    }
  }

  /** Smooth shading takes the cone's vertex normals, flat shading its face
      normals, and either way the normals buffer is refreshed. */
  lemma ShadingKeysChooseNormals(s: ConeState, key: string, ab: ArcballReading)
    requires IsShadingKey(key)
    ensures var fx := KeyEffects(s, key, ab);
            && fx[0] == (if key == "s" then CopyVertexNormalsToNormals else CopyFaceNormalsToNormals)
            && fx[1] == UpdateNormals
            && (CopyVertexNormalsToNormals in fx <==> AfterKey(s, key, ab).modes.shadingMode == Smooth)
  {
  }

  /** Pressing a shading or rendering key twice with the arcball unmoved
      yields the same state and the same calls as pressing it once. */
  lemma ModeKeysIdempotent(s: ConeState, key: string, ab: ArcballReading)
    requires IsShadingKey(key) || IsRenderingKey(key)
    ensures AfterKey(AfterKey(s, key, ab), key, ab) == AfterKey(s, key, ab)
    ensures KeyEffects(AfterKey(s, key, ab), key, ab) == KeyEffects(s, key, ab)
  {
  }

  /** 'r' brings back the starting arcball mode and model matrix. */
  lemma ResetRestoresStart(s: ConeState, ab: ArcballReading)
    ensures AfterKey(s, "r", ab).modes.arcBallMode == InitialModes.arcBallMode
    ensures AfterKey(s, "r", ab).modelMatrix == Identity
    ensures KeyEffects(s, "r", ab)[0] == ResetArcball
  {
  }

  /** Switching from MODEL back to CAMERA keeps the last model rotation:
      render() in CAMERA mode never touches the model matrix. */
  lemma CameraModeKeepsModelRotation(s: ConeState, ab1: ArcballReading, ab2: ArcballReading)
    requires s.modes.arcBallMode == Model
    ensures var s1 := AfterKey(AfterRender(s, ab1), "a", ab1);
            s1.modes.arcBallMode == Camera && AfterRender(s1, ab2).modelMatrix == ab1.modelRotMatrix
  {
  }

  /** The page's mode and matrix globals, assigned by the keydown handler and
      by render(). The arcball, cone, lamp and overlays are the environment:
      their readings are parameters and the calls made on them are returned. */
  class ConeApp {
    var arcBallMode: ArcballMode
    var shadingMode: ShadingMode
    var renderingMode: RenderingMode
    var modelMatrix: Mat4
    var viewMatrix: Mat4

    function State(): ConeState
      reads this
    {
      ConeState(Modes(arcBallMode, shadingMode, renderingMode), modelMatrix, viewMatrix)
    }

    /** The globals as declared; the view matrix is the lookAt matrix main()
        computes, passed in. */
    constructor (lookAt: Mat4)
      ensures State() == ConeState(InitialModes, Identity, lookAt)
    {
      arcBallMode := Camera;
      shadingMode := Flat;
      renderingMode := Phong;
      modelMatrix := Identity;
      viewMatrix := lookAt;
    }

    method Render(ab: ArcballReading) returns (fx: seq<Effect>)
      modifies this
      ensures State() == AfterRender(old(State()), ab)
      ensures fx == RenderEffects(old(State()), ab)
    {
      if arcBallMode == Camera {
        viewMatrix := ab.viewMatrix;
      } else {
        modelMatrix := ab.modelRotMatrix;
        viewMatrix := ab.viewCamDistanceMatrix;
      }
      var shader := if renderingMode == Phong then PhongShader else GouraudShader;
      fx := [DrawCone(shader, modelMatrix, viewMatrix, CameraPos), DrawLamp(viewMatrix)];
    }

    method KeyDown(key: string, ab: ArcballReading) returns (fx: seq<Effect>)
      modifies this
      ensures State() == AfterKey(old(State()), key, ab)
      ensures fx == KeyEffects(old(State()), key, ab)
    {
      fx := [];
      if key == "a" {
        arcBallMode := if arcBallMode == Camera then Model else Camera;
        fx := [UpdateText(ArcballOverlay, "arcball mode: " + ArcballLabel(arcBallMode))];
      } else if key == "r" {
        fx := [ResetArcball];
        modelMatrix := Identity;
        arcBallMode := Camera;
        fx := fx + [UpdateText(ArcballOverlay, "arcball mode: " + ArcballLabel(arcBallMode))];
      } else if key == "s" || key == "f" {
        fx := [if key == "s" then CopyVertexNormalsToNormals else CopyFaceNormalsToNormals, UpdateNormals];
        shadingMode := if key == "s" then Smooth else Flat;
        fx := fx + [UpdateText(ShadingOverlay, ShadingText(Modes(arcBallMode, shadingMode, renderingMode)))];
        var drawn := Render(ab);
        fx := fx + drawn;
      } else if key == "g" || key == "p" {
        renderingMode := if key == "g" then Gouraud else Phong;
        fx := [UpdateText(ShadingOverlay, ShadingText(Modes(arcBallMode, shadingMode, renderingMode)))];
        var drawn := Render(ab);
        fx := fx + drawn;
      }
    }
  }
}
