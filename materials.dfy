/**
  The GPU side of the preview, as data: a material is the program it runs
  plus its uniforms, a map from uniform name to a tagged value. The factory
  builds one material per pattern; every animation frame writes the time,
  the resolution and the active pattern's settings into the current
  material, and the post-effect settings into the overlay material.

  Textures and render targets are opaque handles (`nat`); the GLSL programs
  themselves are named by their pattern.
 */
module Materials {
  import opened Wrappers
  import opened Config

  datatype Uniform =
    | Scalar(x: real)
    | Vec2(x: real, y: real)
    | Vec3(c: Rgb)
    | Bool(b: bool)
    | Texture(handle: nat)

  /** The uniform names the pattern programs declare. */
  datatype Name =
    | UTime | UResolution | UMask | UHue | USaturation | UContrast
    | USpeed | USpinRotation | USpinSpeed | UColor1 | UColor2 | UColor3
    | ULighting | USpinAmount | UPixelFilter | USpinEase | UIsRotate
    | USides | UDensity | UGlow
    | UVelocity | UDetail | UTwist | URgbMultiplierR | URgbMultiplierG | URgbMultiplierB | UColorOffset
    | UScale | UZoom

  type Uniforms = map<Name, Uniform>

  datatype Material = Material(program: Pattern, uniforms: Uniforms)

  // ---- the factory ----

  /** The uniforms every pattern's material starts with. */
  function BaseUniforms(mask: nat): Uniforms
  {
    map[
      UTime := Scalar(0.0),
      UResolution := Vec2(0.0, 0.0),
      UMask := Texture(mask),
      UHue := Scalar(0.0),
      USaturation := Scalar(1.0),
      UContrast := Scalar(1.0)]
  }

  /** The pattern-specific uniforms and their initial values. */
  function ExtraUniforms(p: Pattern): Uniforms
  {
    match p
    case Balatro => map[
      USpeed := Scalar(1.0), USpinRotation := Scalar(-2.0), USpinSpeed := Scalar(7.0),
      UColor1 := Vec3(Rgb(0.87, 0.26, 0.23)), UColor2 := Vec3(Rgb(0.0, 0.42, 0.70)),
      UColor3 := Vec3(Rgb(0.08, 0.13, 0.14)), ULighting := Scalar(0.4),
      USpinAmount := Scalar(0.25), UPixelFilter := Scalar(745.0), USpinEase := Scalar(1.0),
      UIsRotate := Bool(false)]
    case Glass => map[
      USpeed := Scalar(0.8), USides := Scalar(6.0), UDensity := Scalar(15.0), UGlow := Scalar(1.2)]
    case Flow => map[
      USpeed := Scalar(2.5), UVelocity := Scalar(0.2), UDetail := Scalar(200.0),
      UTwist := Scalar(50.0), URgbMultiplierR := Scalar(1.0), URgbMultiplierG := Scalar(1.0),
      URgbMultiplierB := Scalar(1.0), UColorOffset := Scalar(0.0)]
    case ChargedCells => map[
      USpeed := Scalar(1.0), UScale := Scalar(5.0),
      UColor1 := Vec3(Rgb(0.18, 0.7, 0.4)), UColor2 := Vec3(Rgb(0.58, 1.0, 0.15)),
      UColor3 := Vec3(Rgb(0.0, 0.65, 0.31))]
    case Melt => map[USpeed := Scalar(0.5), UZoom := Scalar(1.0), UDetail := Scalar(0.2)]
  }

  /** The names that belong to every material. */
  predicate IsBaseName(n: Name)
  {
    n == UTime || n == UResolution || n == UMask || n == UHue || n == USaturation || n == UContrast
  }

  /** The program a pattern id selects: anything that is not one of the other four ids gets melt. */
  function ProgramFor(id: string): (p: Pattern)
    ensures PatternOf(id).Some? ==> p == PatternOf(id).value
    ensures PatternOf(id).None? ==> p == Melt
  {
    if id == "balatro" then Balatro
    else if id == "glass" then Glass
    else if id == "flow" then Flow
    else if id == "charged-cells" then ChargedCells
    else Melt
  }

  /** `createMaterialForType`: the base uniforms overlaid with the selected pattern's. */
  function CreateMaterialForType(id: string, mask: nat): (m: Material)
    ensures m.program == ProgramFor(id)
    ensures m.uniforms.Keys == BaseUniforms(mask).Keys + ExtraUniforms(ProgramFor(id)).Keys
  {
    var p := ProgramFor(id);
    Material(p, BaseUniforms(mask) + ExtraUniforms(p))
  }

  /** No pattern's own uniforms shadow a base uniform. */
  lemma BaseNotShadowed(p: Pattern)
    ensures forall n :: IsBaseName(n) ==> n !in ExtraUniforms(p)
  {
  }

  /** Every material starts with time 0, an empty resolution, the mask and neutral hue, saturation and contrast. */
  lemma MaterialBase(id: string, mask: nat)
    ensures var u := CreateMaterialForType(id, mask).uniforms;
      u[UTime] == Scalar(0.0) && u[UResolution] == Vec2(0.0, 0.0) && u[UMask] == Texture(mask) &&
      u[UHue] == Scalar(0.0) && u[USaturation] == Scalar(1.0) && u[UContrast] == Scalar(1.0)
  {
    var p := ProgramFor(id);
    assert CreateMaterialForType(id, mask).uniforms == BaseUniforms(mask) + ExtraUniforms(p);
    BaseKept(p, mask, UTime);
    BaseKept(p, mask, UResolution);
    BaseKept(p, mask, UMask);
    BaseKept(p, mask, UHue);
    BaseKept(p, mask, USaturation);
    BaseKept(p, mask, UContrast);
  }

  /** A base uniform keeps its initial value in the merged map. */
  lemma BaseKept(p: Pattern, mask: nat, n: Name)
    requires IsBaseName(n)
    ensures n in BaseUniforms(mask) + ExtraUniforms(p)
    ensures (BaseUniforms(mask) + ExtraUniforms(p))[n] == BaseUniforms(mask)[n]
  {
    BaseNotShadowed(p);
  }

  /** An unknown pattern id gets exactly the melt material. */
  lemma UnknownIsMelt(id: string, mask: nat)
    requires PatternOf(id).None?
    ensures CreateMaterialForType(id, mask) == CreateMaterialForType("melt", mask)
  {
  }

  // ---- per-frame writes ----

  /**
    The unconditional writes of one frame for the pattern `activeShader`
    names (none for any other string). Each uniform is written at most once
    per frame, so the writes are a map; balatro resets hue and saturation
    to neutral, charged cells leaves contrast alone.
   */
  function PatternValues(s: Settings): Uniforms
  {
    match PatternOf(s.activeShader)
    case Some(Melt) =>
      var c := s.melt;
      map[UZoom := Scalar(c.zoom), USpeed := Scalar(c.speed), UDetail := Scalar(c.detail),
          UHue := Scalar(c.hue), USaturation := Scalar(c.saturation), UContrast := Scalar(c.contrast)]
    case Some(Flow) =>
      var c := s.flow;
      map[USpeed := Scalar(c.speed), UVelocity := Scalar(c.velocity), UDetail := Scalar(c.detail),
          UTwist := Scalar(c.twist), UContrast := Scalar(c.contrast),
          URgbMultiplierR := Scalar(c.rgbR), URgbMultiplierG := Scalar(c.rgbG),
          URgbMultiplierB := Scalar(c.rgbB), UColorOffset := Scalar(c.colorOffset),
          UHue := Scalar(c.hue), USaturation := Scalar(c.saturation)]
    case Some(Balatro) =>
      var c := s.balatro;
      map[USpeed := Scalar(c.speed), USpinRotation := Scalar(c.spinRotation),
          USpinSpeed := Scalar(c.spinSpeed), UContrast := Scalar(c.contrast),
          ULighting := Scalar(c.lighting), USpinAmount := Scalar(c.spinAmount),
          UPixelFilter := Scalar(c.pixelFilter), USpinEase := Scalar(c.spinEase),
          UIsRotate := Bool(c.isRotate), UHue := Scalar(0.0), USaturation := Scalar(1.0)]
    case Some(Glass) =>
      var c := s.glass;
      map[USpeed := Scalar(c.speed), USides := Scalar(c.sides), UHue := Scalar(c.hue),
          USaturation := Scalar(c.saturation), UContrast := Scalar(c.contrast),
          UDensity := Scalar(c.density), UGlow := Scalar(c.glow)]
    case Some(ChargedCells) =>
      var c := s.chargedCells;
      map[USpeed := Scalar(c.speed), UScale := Scalar(c.scale), UHue := Scalar(c.hue),
          USaturation := Scalar(c.saturation)]
    case None => map[]
  }

  /** The writes of one frame made only when the material has the uniform: time, resolution and the colour triples. */
  function GuardedValues(s: Settings, elapsed: real, width: real, height: real): Uniforms
  {
    var timing := map[UTime := Scalar(elapsed), UResolution := Vec2(width, height)];
    match PatternOf(s.activeShader)
    case Some(Balatro) =>
      timing + map[UColor1 := Vec3(s.balatro.color1), UColor2 := Vec3(s.balatro.color2), UColor3 := Vec3(s.balatro.color3)]
    case Some(ChargedCells) =>
      timing + map[UColor1 := Vec3(s.chargedCells.color1), UColor2 := Vec3(s.chargedCells.color2),
                   UColor3 := Vec3(s.chargedCells.color3)]
    case _ => timing
  }

  /** The uniforms a material needs so that none of the frame's unconditional writes throws. */
  predicate Accepts(u: Uniforms, s: Settings)
  {
    PatternValues(s).Keys <= u.Keys
  }

  /** What uniform `n` holds after the frame: the pattern's write, else the guarded write, else its old value. */
  function Updated(u: Uniforms, s: Settings, elapsed: real, width: real, height: real, n: Name): Uniform
    requires n in u
  {
    if n in PatternValues(s) then PatternValues(s)[n]
    else if n in GuardedValues(s, elapsed, width, height) then GuardedValues(s, elapsed, width, height)[n]
    else u[n]
  }

  /** One frame's update of the pattern material's uniforms. */
  function SyncMaterial(u: Uniforms, s: Settings, elapsed: real, width: real, height: real): (r: Uniforms)
    requires Accepts(u, s)
    ensures r.Keys == u.Keys
    ensures forall n :: n in u && n !in PatternValues(s) && n !in GuardedValues(s, elapsed, width, height) ==> r[n] == u[n]
  {
    map n | n in u :: Updated(u, s, elapsed, width, height, n)
  }

  /** The writes of a melt frame. */
  lemma MeltValues(s: Settings)
    requires PatternOf(s.activeShader) == Some(Melt)
    ensures var c := s.melt;
      PatternValues(s) == map[UZoom := Scalar(c.zoom), USpeed := Scalar(c.speed), UDetail := Scalar(c.detail),
        UHue := Scalar(c.hue), USaturation := Scalar(c.saturation), UContrast := Scalar(c.contrast)]
  {
  }

  /** The writes of a flow frame. */
  lemma FlowValues(s: Settings)
    requires PatternOf(s.activeShader) == Some(Flow)
    ensures var c := s.flow;
      PatternValues(s) == map[USpeed := Scalar(c.speed), UVelocity := Scalar(c.velocity), UDetail := Scalar(c.detail),
        UTwist := Scalar(c.twist), UContrast := Scalar(c.contrast),
        URgbMultiplierR := Scalar(c.rgbR), URgbMultiplierG := Scalar(c.rgbG),
        URgbMultiplierB := Scalar(c.rgbB), UColorOffset := Scalar(c.colorOffset),
        UHue := Scalar(c.hue), USaturation := Scalar(c.saturation)]
  {
  }

  /** The writes of a balatro frame. */
  lemma BalatroValues(s: Settings)
    requires PatternOf(s.activeShader) == Some(Balatro)
    ensures var c := s.balatro;
      PatternValues(s) == map[USpeed := Scalar(c.speed), USpinRotation := Scalar(c.spinRotation),
        USpinSpeed := Scalar(c.spinSpeed), UContrast := Scalar(c.contrast),
        ULighting := Scalar(c.lighting), USpinAmount := Scalar(c.spinAmount),
        UPixelFilter := Scalar(c.pixelFilter), USpinEase := Scalar(c.spinEase),
        UIsRotate := Bool(c.isRotate), UHue := Scalar(0.0), USaturation := Scalar(1.0)]
  {
  }

  /** The writes of a glass frame. */
  lemma GlassValues(s: Settings)
    requires PatternOf(s.activeShader) == Some(Glass)
    ensures var c := s.glass;
      PatternValues(s) == map[USpeed := Scalar(c.speed), USides := Scalar(c.sides), UHue := Scalar(c.hue),
        USaturation := Scalar(c.saturation), UContrast := Scalar(c.contrast),
        UDensity := Scalar(c.density), UGlow := Scalar(c.glow)]
  {
  }

  /** The writes of a charged-cells frame. */
  lemma ChargedCellsValues(s: Settings)
    requires PatternOf(s.activeShader) == Some(ChargedCells)
    ensures var c := s.chargedCells;
      PatternValues(s) == map[USpeed := Scalar(c.speed), UScale := Scalar(c.scale), UHue := Scalar(c.hue),
        USaturation := Scalar(c.saturation)]
  {
  }

  /** A uniform the pattern writes holds the written value after the frame. */
  lemma WrittenBy(u: Uniforms, s: Settings, elapsed: real, width: real, height: real, n: Name)
    requires Accepts(u, s) && n in PatternValues(s)
    ensures n in u && SyncMaterial(u, s, elapsed, width, height)[n] == PatternValues(s)[n]
  {
  }

  /** No pattern writes time or resolution unconditionally; the guarded writes carry the frame's values. */
  lemma TimingWrites(s: Settings, elapsed: real, width: real, height: real)
    ensures UTime !in PatternValues(s) && UResolution !in PatternValues(s)
    ensures var g := GuardedValues(s, elapsed, width, height);
      UTime in g && g[UTime] == Scalar(elapsed) && UResolution in g && g[UResolution] == Vec2(width, height)
  {
  }

  /** A uniform only the guarded writes touch holds the guarded value after the frame. */
  lemma GuardedWrite(u: Uniforms, s: Settings, elapsed: real, width: real, height: real, n: Name)
    requires Accepts(u, s) && n in u && n !in PatternValues(s) && n in GuardedValues(s, elapsed, width, height)
    ensures SyncMaterial(u, s, elapsed, width, height)[n] == GuardedValues(s, elapsed, width, height)[n]
  {
  }

  /** The uniform names of a pattern's own material. */
  function MaterialKeys(p: Pattern): set<Name>
  {
    BaseUniforms(0).Keys + ExtraUniforms(p).Keys
  }

  /** A freshly created material has exactly its pattern's names, and those accept every frame of that pattern. */
  lemma MaterialAcceptsFrames(s: Settings, mask: nat)
    ensures CreateMaterialForType(s.activeShader, mask).uniforms.Keys == MaterialKeys(ProgramFor(s.activeShader))
    ensures Accepts(CreateMaterialForType(s.activeShader, mask).uniforms, s)
  {
  }

  /** A material with all the names of the program `activeShader` selects accepts that id's frames. */
  lemma KeysAccept(u: Uniforms, s: Settings)
    requires MaterialKeys(ProgramFor(s.activeShader)) <= u.Keys
    ensures Accepts(u, s)
  {
  }

  /** Every frame writes the same values whatever the uniforms held, so a second identical frame changes nothing. */
  lemma SyncIdempotent(u: Uniforms, s: Settings, elapsed: real, width: real, height: real)
    requires Accepts(u, s)
    ensures var r := SyncMaterial(u, s, elapsed, width, height);
      Accepts(r, s) && SyncMaterial(r, s, elapsed, width, height) == r
  {
  }

  /** The time and resolution a frame leaves in a material that declares them. */
  lemma SyncTime(u: Uniforms, s: Settings, elapsed: real, width: real, height: real)
    requires Accepts(u, s) && UTime in u && UResolution in u
    ensures var r := SyncMaterial(u, s, elapsed, width, height);
      r[UTime] == Scalar(elapsed) && r[UResolution] == Vec2(width, height)
  {
    TimingWrites(s, elapsed, width, height);
    GuardedWrite(u, s, elapsed, width, height, UTime);
    GuardedWrite(u, s, elapsed, width, height, UResolution);
  }

  /** Balatro always renders with neutral hue and saturation. */
  lemma BalatroNeutral(u: Uniforms, s: Settings, elapsed: real, width: real, height: real)
    requires Accepts(u, s) && s.activeShader == "balatro"
    ensures var r := SyncMaterial(u, s, elapsed, width, height);
      r[UHue] == Scalar(0.0) && r[USaturation] == Scalar(1.0)
  {
    BalatroValues(s);
    WrittenBy(u, s, elapsed, width, height, UHue);
    WrittenBy(u, s, elapsed, width, height, USaturation);
  }

  /** Charged cells never writes contrast: the material keeps whatever it held. */
  lemma ChargedCellsKeepsContrast(u: Uniforms, s: Settings, elapsed: real, width: real, height: real)
    requires Accepts(u, s) && s.activeShader == "charged-cells" && UContrast in u
    ensures SyncMaterial(u, s, elapsed, width, height)[UContrast] == u[UContrast]
  {
  }

  /** With an id that names no pattern a frame touches only time and resolution. */
  lemma UnknownPatternOnlyTimes(u: Uniforms, s: Settings, elapsed: real, width: real, height: real)
    requires PatternOf(s.activeShader).None?
    ensures Accepts(u, s)
    ensures var r := SyncMaterial(u, s, elapsed, width, height);
      forall n :: n in u && n != UTime && n != UResolution ==> r[n] == u[n]
  {
  }

  // ---- reading the settings back ----

  function ScalarOf(u: Uniforms, n: Name): real
  {
    if n in u && u[n].Scalar? then u[n].x else 0.0
  }

  function FlagOf(u: Uniforms, n: Name): bool
  {
    n in u && u[n].Bool? && u[n].b
  }

  function ColourOf(u: Uniforms, n: Name): Rgb
  {
    if n in u && u[n].Vec3? then u[n].c else Rgb(0.0, 0.0, 0.0)
  }

  /** The pattern record a material's uniforms encode (what the program will render with). */
  function ReadConfig(u: Uniforms, p: Pattern): PatternConfig
  {
    match p
    case Melt => MeltCfg(MeltConfig(
      hue := ScalarOf(u, UHue), saturation := ScalarOf(u, USaturation), zoom := ScalarOf(u, UZoom),
      speed := ScalarOf(u, USpeed), detail := ScalarOf(u, UDetail), contrast := ScalarOf(u, UContrast)))
    case Flow => FlowCfg(FlowConfig(
      velocity := ScalarOf(u, UVelocity), detail := ScalarOf(u, UDetail), twist := ScalarOf(u, UTwist),
      speed := ScalarOf(u, USpeed), contrast := ScalarOf(u, UContrast),
      rgbR := ScalarOf(u, URgbMultiplierR), rgbG := ScalarOf(u, URgbMultiplierG), rgbB := ScalarOf(u, URgbMultiplierB),
      colorOffset := ScalarOf(u, UColorOffset), hue := ScalarOf(u, UHue), saturation := ScalarOf(u, USaturation)))
    case Balatro => BalatroCfg(BalatroConfig(
      speed := ScalarOf(u, USpeed), spinRotation := ScalarOf(u, USpinRotation), spinSpeed := ScalarOf(u, USpinSpeed),
      contrast := ScalarOf(u, UContrast), lighting := ScalarOf(u, ULighting), spinAmount := ScalarOf(u, USpinAmount),
      pixelFilter := ScalarOf(u, UPixelFilter), spinEase := ScalarOf(u, USpinEase), isRotate := FlagOf(u, UIsRotate),
      color1 := ColourOf(u, UColor1), color2 := ColourOf(u, UColor2), color3 := ColourOf(u, UColor3)))
    case Glass => GlassCfg(GlassConfig(
      speed := ScalarOf(u, USpeed), sides := ScalarOf(u, USides), hue := ScalarOf(u, UHue),
      saturation := ScalarOf(u, USaturation), contrast := ScalarOf(u, UContrast),
      density := ScalarOf(u, UDensity), glow := ScalarOf(u, UGlow)))
    case ChargedCells => ChargedCellsCfg(ChargedCellsConfig(
      speed := ScalarOf(u, USpeed), scale := ScalarOf(u, UScale), hue := ScalarOf(u, UHue),
      saturation := ScalarOf(u, USaturation),
      color1 := ColourOf(u, UColor1), color2 := ColourOf(u, UColor2), color3 := ColourOf(u, UColor3)))
  }

  /**
    After a frame, a material of the active pattern encodes that pattern's
    whole record: every setting of the active pattern reaches the GPU, and
    the other patterns' records play no part.
   */
  lemma SyncTransmitsActive(u: Uniforms, s: Settings, p: Pattern, elapsed: real, width: real, height: real)
    requires PatternOf(s.activeShader) == Some(p) && MaterialKeys(p) <= u.Keys
    ensures Accepts(u, s)
    ensures ReadConfig(SyncMaterial(u, s, elapsed, width, height), p) == ConfigOf(s, p)
  {
    match p
    case Melt => MeltTransmitted(u, s, elapsed, width, height);
    case Flow => FlowTransmitted(u, s, elapsed, width, height);
    case Balatro => BalatroTransmitted(u, s, elapsed, width, height);
    case Glass => GlassTransmitted(u, s, elapsed, width, height);
    case ChargedCells => ChargedCellsTransmitted(u, s, elapsed, width, height);
  }

  /** `SyncTransmitsActive` for whatever `activeShader` selects, when it names a pattern. */
  lemma SyncTransmitsIfActive(u: Uniforms, s: Settings, elapsed: real, width: real, height: real)
    requires MaterialKeys(ProgramFor(s.activeShader)) <= u.Keys
    ensures Accepts(u, s)
    ensures PatternOf(s.activeShader).Some? ==>
      ReadConfig(SyncMaterial(u, s, elapsed, width, height), ProgramFor(s.activeShader)) == ConfigOf(s, ProgramFor(s.activeShader))
  {
    KeysAccept(u, s);
    if PatternOf(s.activeShader).Some? {
      SyncTransmitsActive(u, s, PatternOf(s.activeShader).value, elapsed, width, height);
    }
  }

  lemma MeltTransmitted(u: Uniforms, s: Settings, elapsed: real, width: real, height: real)
    requires PatternOf(s.activeShader) == Some(Melt) && MaterialKeys(Melt) <= u.Keys
    ensures Accepts(u, s)
    ensures ReadConfig(SyncMaterial(u, s, elapsed, width, height), Melt) == MeltCfg(s.melt)
  {
    MeltValues(s);
    WrittenBy(u, s, elapsed, width, height, UZoom);
    WrittenBy(u, s, elapsed, width, height, USpeed);
    WrittenBy(u, s, elapsed, width, height, UDetail);
    WrittenBy(u, s, elapsed, width, height, UHue);
    WrittenBy(u, s, elapsed, width, height, USaturation);
    WrittenBy(u, s, elapsed, width, height, UContrast);
  }

  lemma FlowTransmitted(u: Uniforms, s: Settings, elapsed: real, width: real, height: real)
    requires PatternOf(s.activeShader) == Some(Flow) && MaterialKeys(Flow) <= u.Keys
    ensures Accepts(u, s)
    ensures ReadConfig(SyncMaterial(u, s, elapsed, width, height), Flow) == FlowCfg(s.flow)
  {
    FlowMotion(u, s, elapsed, width, height);
    FlowTint(u, s, elapsed, width, height);
  }

  lemma FlowMotion(u: Uniforms, s: Settings, elapsed: real, width: real, height: real)
    requires PatternOf(s.activeShader) == Some(Flow) && MaterialKeys(Flow) <= u.Keys
    ensures Accepts(u, s)
    ensures var r := SyncMaterial(u, s, elapsed, width, height);
      ScalarOf(r, USpeed) == s.flow.speed && ScalarOf(r, UVelocity) == s.flow.velocity &&
      ScalarOf(r, UDetail) == s.flow.detail && ScalarOf(r, UTwist) == s.flow.twist &&
      ScalarOf(r, UContrast) == s.flow.contrast
  {
    FlowValues(s);
    WrittenBy(u, s, elapsed, width, height, USpeed);
    WrittenBy(u, s, elapsed, width, height, UVelocity);
    WrittenBy(u, s, elapsed, width, height, UDetail);
    WrittenBy(u, s, elapsed, width, height, UTwist);
    WrittenBy(u, s, elapsed, width, height, UContrast);
  }

  lemma FlowTint(u: Uniforms, s: Settings, elapsed: real, width: real, height: real)
    requires PatternOf(s.activeShader) == Some(Flow) && MaterialKeys(Flow) <= u.Keys
    ensures Accepts(u, s)
    ensures var r := SyncMaterial(u, s, elapsed, width, height);
      ScalarOf(r, URgbMultiplierR) == s.flow.rgbR && ScalarOf(r, URgbMultiplierG) == s.flow.rgbG &&
      ScalarOf(r, URgbMultiplierB) == s.flow.rgbB && ScalarOf(r, UColorOffset) == s.flow.colorOffset &&
      ScalarOf(r, UHue) == s.flow.hue && ScalarOf(r, USaturation) == s.flow.saturation
  {
    FlowValues(s);
    WrittenBy(u, s, elapsed, width, height, URgbMultiplierR);
    WrittenBy(u, s, elapsed, width, height, URgbMultiplierG);
    WrittenBy(u, s, elapsed, width, height, URgbMultiplierB);
    WrittenBy(u, s, elapsed, width, height, UColorOffset);
    WrittenBy(u, s, elapsed, width, height, UHue);
    WrittenBy(u, s, elapsed, width, height, USaturation);
  }

  lemma BalatroTransmitted(u: Uniforms, s: Settings, elapsed: real, width: real, height: real)
    requires PatternOf(s.activeShader) == Some(Balatro) && MaterialKeys(Balatro) <= u.Keys
    ensures Accepts(u, s)
    ensures ReadConfig(SyncMaterial(u, s, elapsed, width, height), Balatro) == BalatroCfg(s.balatro)
  {
    assert Accepts(u, s);
    BalatroSpin(u, s, elapsed, width, height);
    BalatroLook(u, s, elapsed, width, height);
    BalatroColours(u, s, elapsed, width, height);
  }

  lemma BalatroSpin(u: Uniforms, s: Settings, elapsed: real, width: real, height: real)
    requires PatternOf(s.activeShader) == Some(Balatro) && Accepts(u, s)
    ensures var r := SyncMaterial(u, s, elapsed, width, height);
      ScalarOf(r, USpeed) == s.balatro.speed && ScalarOf(r, USpinRotation) == s.balatro.spinRotation &&
      ScalarOf(r, USpinSpeed) == s.balatro.spinSpeed && ScalarOf(r, USpinAmount) == s.balatro.spinAmount &&
      ScalarOf(r, USpinEase) == s.balatro.spinEase && FlagOf(r, UIsRotate) == s.balatro.isRotate
  {
    BalatroValues(s);
    WrittenBy(u, s, elapsed, width, height, USpeed);
    WrittenBy(u, s, elapsed, width, height, USpinRotation);
    WrittenBy(u, s, elapsed, width, height, USpinSpeed);
    WrittenBy(u, s, elapsed, width, height, USpinAmount);
    WrittenBy(u, s, elapsed, width, height, USpinEase);
    WrittenBy(u, s, elapsed, width, height, UIsRotate);
  }

  lemma BalatroLook(u: Uniforms, s: Settings, elapsed: real, width: real, height: real)
    requires PatternOf(s.activeShader) == Some(Balatro) && Accepts(u, s)
    ensures var r := SyncMaterial(u, s, elapsed, width, height);
      ScalarOf(r, UContrast) == s.balatro.contrast && ScalarOf(r, ULighting) == s.balatro.lighting &&
      ScalarOf(r, UPixelFilter) == s.balatro.pixelFilter
  {
    BalatroValues(s);
    WrittenBy(u, s, elapsed, width, height, UContrast);
    WrittenBy(u, s, elapsed, width, height, ULighting);
    WrittenBy(u, s, elapsed, width, height, UPixelFilter);
  }

  /** The colour writes are guarded, so they land only in a material that declares the colours. */
  lemma BalatroColours(u: Uniforms, s: Settings, elapsed: real, width: real, height: real)
    requires PatternOf(s.activeShader) == Some(Balatro) && Accepts(u, s)
    requires UColor1 in u && UColor2 in u && UColor3 in u
    ensures var r := SyncMaterial(u, s, elapsed, width, height);
      ColourOf(r, UColor1) == s.balatro.color1 && ColourOf(r, UColor2) == s.balatro.color2 &&
      ColourOf(r, UColor3) == s.balatro.color3
  {
    BalatroValues(s);
    GuardedWrite(u, s, elapsed, width, height, UColor1);
    GuardedWrite(u, s, elapsed, width, height, UColor2);
    GuardedWrite(u, s, elapsed, width, height, UColor3);
  }

  lemma GlassTransmitted(u: Uniforms, s: Settings, elapsed: real, width: real, height: real)
    requires PatternOf(s.activeShader) == Some(Glass) && MaterialKeys(Glass) <= u.Keys
    ensures Accepts(u, s)
    ensures ReadConfig(SyncMaterial(u, s, elapsed, width, height), Glass) == GlassCfg(s.glass)
  {
    GlassValues(s);
    WrittenBy(u, s, elapsed, width, height, USpeed);
    WrittenBy(u, s, elapsed, width, height, USides);
    WrittenBy(u, s, elapsed, width, height, UHue);
    WrittenBy(u, s, elapsed, width, height, USaturation);
    WrittenBy(u, s, elapsed, width, height, UContrast);
    WrittenBy(u, s, elapsed, width, height, UDensity);
    WrittenBy(u, s, elapsed, width, height, UGlow);
  }

  lemma ChargedCellsTransmitted(u: Uniforms, s: Settings, elapsed: real, width: real, height: real)
    requires PatternOf(s.activeShader) == Some(ChargedCells) && MaterialKeys(ChargedCells) <= u.Keys
    ensures Accepts(u, s)
    ensures ReadConfig(SyncMaterial(u, s, elapsed, width, height), ChargedCells) == ChargedCellsCfg(s.chargedCells)
  {
    ChargedCellsValues(s);
    WrittenBy(u, s, elapsed, width, height, USpeed);
    WrittenBy(u, s, elapsed, width, height, UScale);
    WrittenBy(u, s, elapsed, width, height, UHue);
    WrittenBy(u, s, elapsed, width, height, USaturation);
    ChargedCellsColours(u, s, elapsed, width, height);
  }

  /** The guarded colour writes of charged cells land when the material declares the colours. */
  lemma ChargedCellsColours(u: Uniforms, s: Settings, elapsed: real, width: real, height: real)
    requires PatternOf(s.activeShader) == Some(ChargedCells) && Accepts(u, s)
    requires UColor1 in u && UColor2 in u && UColor3 in u
    ensures var r := SyncMaterial(u, s, elapsed, width, height);
      ColourOf(r, UColor1) == s.chargedCells.color1 && ColourOf(r, UColor2) == s.chargedCells.color2 &&
      ColourOf(r, UColor3) == s.chargedCells.color3
  {
    ChargedCellsValues(s);
    GuardedWrite(u, s, elapsed, width, height, UColor1);
    GuardedWrite(u, s, elapsed, width, height, UColor2);
    GuardedWrite(u, s, elapsed, width, height, UColor3);
  }

  /**
    A frame applied to a material of the pattern `activeShader` selects: the
    program and the names stay, both timing uniforms carry this frame's values
    and the active record is fully encoded.
   */
  function SyncFrame(m: Material, s: Settings, elapsed: real, width: real, height: real): (r: Material)
    requires m.program == ProgramFor(s.activeShader) && MaterialKeys(m.program) <= m.uniforms.Keys
    ensures r.program == m.program && r.uniforms.Keys == m.uniforms.Keys
    ensures r.uniforms[UTime] == Scalar(elapsed) && r.uniforms[UResolution] == Vec2(width, height)
    ensures PatternOf(s.activeShader).Some? ==> ReadConfig(r.uniforms, m.program) == ConfigOf(s, m.program)
  {
    KeysAccept(m.uniforms, s);
    SyncTime(m.uniforms, s, elapsed, width, height);
    SyncTransmitsIfActive(m.uniforms, s, elapsed, width, height);
    Material(m.program, SyncMaterial(m.uniforms, s, elapsed, width, height))
  }

  // ---- the clock ----

  /** `now * 0.001` while playing; the manual time while frozen. */
  function Elapsed(s: Settings, timeMs: real): (e: real)
    ensures s.isFrozen ==> e == s.manualTime
    ensures !s.isFrozen ==> e * 1000.0 == timeMs
  {
    if s.isFrozen then s.manualTime else timeMs * 0.001
  }

  /** A frozen frame does not depend on the clock; a playing one is strictly increasing in it. */
  lemma ElapsedClock(s: Settings, t1: real, t2: real)
    ensures s.isFrozen ==> Elapsed(s, t1) == Elapsed(s, t2)
    ensures !s.isFrozen && t1 < t2 ==> Elapsed(s, t1) < Elapsed(s, t2)
  {
  }

  // ---- the post-effect overlay ----

  /** The code the overlay program uses for a blur type: 1 gaussian, 2 motion, 3 zoom, 0 anything else. */
  function BlurCode(blurType: string): (c: int)
    ensures 0 <= c <= 3
    ensures c == 0 <==> !(blurType == "gaussian" || blurType == "motion" || blurType == "zoom")
  {
    if blurType == "gaussian" then 1
    else if blurType == "motion" then 2
    else if blurType == "zoom" then 3
    else 0
  }

  /** The code the overlay program uses for a noise type: 1 grain, 2 static, 3 scanline, 0 anything else. */
  function NoiseCode(noiseType: string): (c: int)
    ensures 0 <= c <= 3
    ensures c == 0 <==> !(noiseType == "grain" || noiseType == "static" || noiseType == "scanline")
  {
    if noiseType == "grain" then 1
    else if noiseType == "static" then 2
    else if noiseType == "scanline" then 3
    else 0
  }

  /** The blur name a code stands for. */
  function BlurName(c: int): string
  {
    if c == 1 then "gaussian" else if c == 2 then "motion" else if c == 3 then "zoom" else "none"
  }

  /** The noise name a code stands for. */
  function NoiseName(c: int): string
  {
    if c == 1 then "grain" else if c == 2 then "static" else if c == 3 then "scanline" else "none"
  }

  /** On the declared names the codes lose nothing: decoding gives the name back. */
  lemma CodesRoundTrip(blurType: string, noiseType: string)
    ensures IsBlurName(blurType) ==> BlurName(BlurCode(blurType)) == blurType
    ensures IsNoiseName(noiseType) ==> NoiseName(NoiseCode(noiseType)) == noiseType
  {
  }

  /** The overlay material's uniforms; the source texture is `None` until the first frame. */
  datatype Overlay = Overlay(
    texture: Option<nat>, time: real, resolution: (real, real),
    blurType: int, blurStrength: real, blurAngle: real,
    noiseType: int, noiseStrength: real)

  /** The overlay material as the mount creates it. */
  function OverlayInitial(): (o: Overlay)
    ensures o.texture.None? && o.blurType == 0 && o.noiseType == 0
  {
    Overlay(None, 0.0, (0.0, 0.0), 0, 0.0, 0.0, 0, 0.0)
  }

  /** One frame's update of the overlay: the rendered pattern, the frame's time and size, and the global effects. */
  function SyncOverlay(s: Settings, elapsed: real, width: real, height: real, rendered: nat): (o: Overlay)
    ensures o.texture == Some(rendered) && o.time == elapsed && o.resolution == (width, height)
    ensures BlurName(o.blurType) == (if IsBlurName(s.blurType) then s.blurType else "none")
    ensures NoiseName(o.noiseType) == (if IsNoiseName(s.noiseType) then s.noiseType else "none")
    ensures o.blurStrength == s.blurStrength && o.blurAngle == s.blurAngle && o.noiseStrength == s.noiseStrength
  {
    Overlay(Some(rendered), elapsed, (width, height),
      BlurCode(s.blurType), s.blurStrength, s.blurAngle,
      NoiseCode(s.noiseType), s.noiseStrength)
  }
}
