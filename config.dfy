/**
  The settings record that the editor produces and the preview consumes every
  frame: the text and its font, the selected pattern, one configuration record
  per pattern (all five kept side by side), the global post effects and the
  time control. JavaScript numbers are modelled as exact reals.

  `activeShader`, `blurType` and `noiseType` are declared as string unions;
  they are kept as strings here because an imported record is not checked
  and any string can reach the renderer. `WellFormed` is the declared union.
 */
module Config {
  import opened Wrappers

  /** A colour triple `[number, number, number]`. */
  datatype Rgb = Rgb(r: real, g: real, b: real)

  /** The five patterns, with the identifier stored in `activeShader` and the key of their record. */
  datatype Pattern = Melt | Flow | Balatro | Glass | ChargedCells
  {
    function Id(): string
    {
      match this
      case Melt => "melt"
      case Flow => "flow"
      case Balatro => "balatro"
      case Glass => "glass"
      case ChargedCells => "charged-cells"
    }

    function Key(): string
    {
      match this
      case Melt => "melt"
      case Flow => "flow"
      case Balatro => "balatro"
      case Glass => "glass"
      case ChargedCells => "chargedCells"
    }
  }

  /** The pattern an `activeShader` string names, if it names one of the five. */
  function PatternOf(id: string): (r: Option<Pattern>)
    ensures r.Some? ==> r.value.Id() == id
    ensures r.None? ==> forall p: Pattern :: p.Id() != id
  {
    if id == "melt" then Some(Melt)
    else if id == "flow" then Some(Flow)
    else if id == "balatro" then Some(Balatro)
    else if id == "glass" then Some(Glass)
    else if id == "charged-cells" then Some(ChargedCells)
    else None
  }

  /** Distinct patterns have distinct identifiers, so `PatternOf` inverts `Id`. */
  lemma PatternOfId(p: Pattern)
    ensures PatternOf(p.Id()) == Some(p)
  {
  }

  predicate IsBlurName(s: string)
  {
    s == "none" || s == "gaussian" || s == "motion" || s == "zoom"
  }

  predicate IsNoiseName(s: string)
  {
    s == "none" || s == "grain" || s == "static" || s == "scanline"
  }

  datatype MeltConfig = MeltConfig(
    hue: real, saturation: real, zoom: real, speed: real, detail: real, contrast: real)

  datatype FlowConfig = FlowConfig(
    velocity: real, detail: real, twist: real, speed: real, contrast: real,
    rgbR: real, rgbG: real, rgbB: real, colorOffset: real, hue: real, saturation: real)

  datatype BalatroConfig = BalatroConfig(
    speed: real, spinRotation: real, spinSpeed: real, contrast: real, lighting: real,
    spinAmount: real, pixelFilter: real, spinEase: real, isRotate: bool,
    color1: Rgb, color2: Rgb, color3: Rgb)

  datatype GlassConfig = GlassConfig(
    speed: real, sides: real, hue: real, saturation: real, contrast: real,
    density: real, glow: real)

  datatype ChargedCellsConfig = ChargedCellsConfig(
    speed: real, scale: real, hue: real, saturation: real,
    color1: Rgb, color2: Rgb, color3: Rgb)

  datatype Settings = Settings(
    // text
    text: string, fontSize: real, fontWeight: real, fontFamily: string,
    textTranslateX: real, textTranslateY: real,
    // pattern selection and the five pattern records
    activeShader: string,
    melt: MeltConfig, flow: FlowConfig, balatro: BalatroConfig,
    glass: GlassConfig, chargedCells: ChargedCellsConfig,
    // global effects
    blurType: string, blurStrength: real, blurAngle: real,
    noiseType: string, noiseStrength: real,
    // animation
    isFrozen: bool, manualTime: real)

  /** The declared types of the three string-union fields. */
  predicate WellFormed(s: Settings)
  {
    PatternOf(s.activeShader).Some? && IsBlurName(s.blurType) && IsNoiseName(s.noiseType)
  }

  /** A value stored in a field of a pattern record. */
  datatype Value = Num(x: real) | Flag(b: bool) | Triple(c: Rgb)

  predicate SameKind(a: Value, b: Value)
  {
    (a.Num? && b.Num?) || (a.Flag? && b.Flag?) || (a.Triple? && b.Triple?)
  }

  function MeltGet(c: MeltConfig, key: string): Option<Value>
  {
    if key == "hue" then Some(Num(c.hue))
    else if key == "saturation" then Some(Num(c.saturation))
    else if key == "zoom" then Some(Num(c.zoom))
    else if key == "speed" then Some(Num(c.speed))
    else if key == "detail" then Some(Num(c.detail))
    else if key == "contrast" then Some(Num(c.contrast))
    else None
  }

  function FlowGet(c: FlowConfig, key: string): Option<Value>
  {
    if key == "velocity" then Some(Num(c.velocity))
    else if key == "detail" then Some(Num(c.detail))
    else if key == "twist" then Some(Num(c.twist))
    else if key == "speed" then Some(Num(c.speed))
    else if key == "contrast" then Some(Num(c.contrast))
    else if key == "rgbR" then Some(Num(c.rgbR))
    else if key == "rgbG" then Some(Num(c.rgbG))
    else if key == "rgbB" then Some(Num(c.rgbB))
    else if key == "colorOffset" then Some(Num(c.colorOffset))
    else if key == "hue" then Some(Num(c.hue))
    else if key == "saturation" then Some(Num(c.saturation))
    else None
  }

  function BalatroGet(c: BalatroConfig, key: string): Option<Value>
  {
    if key == "speed" then Some(Num(c.speed))
    else if key == "spinRotation" then Some(Num(c.spinRotation))
    else if key == "spinSpeed" then Some(Num(c.spinSpeed))
    else if key == "contrast" then Some(Num(c.contrast))
    else if key == "lighting" then Some(Num(c.lighting))
    else if key == "spinAmount" then Some(Num(c.spinAmount))
    else if key == "pixelFilter" then Some(Num(c.pixelFilter))
    else if key == "spinEase" then Some(Num(c.spinEase))
    else if key == "isRotate" then Some(Flag(c.isRotate))
    else if key == "color1" then Some(Triple(c.color1))
    else if key == "color2" then Some(Triple(c.color2))
    else if key == "color3" then Some(Triple(c.color3))
    else None
  }

  function GlassGet(c: GlassConfig, key: string): Option<Value>
  {
    if key == "speed" then Some(Num(c.speed))
    else if key == "sides" then Some(Num(c.sides))
    else if key == "hue" then Some(Num(c.hue))
    else if key == "saturation" then Some(Num(c.saturation))
    else if key == "contrast" then Some(Num(c.contrast))
    else if key == "density" then Some(Num(c.density))
    else if key == "glow" then Some(Num(c.glow))
    else None
  }

  function ChargedCellsGet(c: ChargedCellsConfig, key: string): Option<Value>
  {
    if key == "speed" then Some(Num(c.speed))
    else if key == "scale" then Some(Num(c.scale))
    else if key == "hue" then Some(Num(c.hue))
    else if key == "saturation" then Some(Num(c.saturation))
    else if key == "color1" then Some(Triple(c.color1))
    else if key == "color2" then Some(Triple(c.color2))
    else if key == "color3" then Some(Triple(c.color3))
    else None
  }

  /** `settings[p.Key()][key]`: a declared field of a pattern record, or `None` for any other key. */
  function GetField(s: Settings, p: Pattern, key: string): Option<Value>
  {
    match p
    case Melt => MeltGet(s.melt, key)
    case Flow => FlowGet(s.flow, key)
    case Balatro => BalatroGet(s.balatro, key)
    case Glass => GlassGet(s.glass, key)
    case ChargedCells => ChargedCellsGet(s.chargedCells, key)
  }

  /** One pattern's record, whichever pattern it is. */
  datatype PatternConfig =
    | MeltCfg(melt: MeltConfig)
    | FlowCfg(flow: FlowConfig)
    | BalatroCfg(balatro: BalatroConfig)
    | GlassCfg(glass: GlassConfig)
    | ChargedCellsCfg(chargedCells: ChargedCellsConfig)

  function ConfigOf(s: Settings, p: Pattern): PatternConfig
  {
    match p
    case Melt => MeltCfg(s.melt)
    case Flow => FlowCfg(s.flow)
    case Balatro => BalatroCfg(s.balatro)
    case Glass => GlassCfg(s.glass)
    case ChargedCells => ChargedCellsCfg(s.chargedCells)
  }

  /**
    The record `activeShader` selects, if it names a pattern. The other four
    records stay in the settings untouched, so switching back finds them as
    they were left.
   */
  function ActiveConfig(s: Settings): (r: Option<PatternConfig>)
    ensures r.Some? <==> PatternOf(s.activeShader).Some?
    ensures r.Some? ==> r.value == ConfigOf(s, PatternOf(s.activeShader).value)
  {
    match PatternOf(s.activeShader)
    case Some(p) => Some(ConfigOf(s, p))
    case None => None
  }

  predicate InUnitRange(x: real)
  {
    0.0 <= x <= 1.0
  }

  predicate RgbInUnitRange(c: Rgb)
  {
    InUnitRange(c.r) && InUnitRange(c.g) && InUnitRange(c.b)
  }

  /** The settings a first visit starts from. */
  function DefaultSettings(): (s: Settings)
    ensures WellFormed(s) && s.activeShader == Melt.Id()
    ensures s.textTranslateX == 0.0 && s.textTranslateY == 0.0
    ensures s.blurType == "none" && s.blurStrength == 0.0
    ensures s.noiseType == "none" && s.noiseStrength == 0.0
    ensures !s.isFrozen && s.manualTime == 0.0
    ensures s.melt.hue == 0.0 && s.melt.saturation == 1.0
    ensures s.flow.hue == 0.0 && s.flow.saturation == 1.0
    ensures s.glass.hue == 0.0 && s.glass.saturation == 1.0
    ensures s.chargedCells.hue == 0.0 && s.chargedCells.saturation == 1.0
    ensures RgbInUnitRange(s.balatro.color1) && RgbInUnitRange(s.balatro.color2)
    ensures RgbInUnitRange(s.balatro.color3)
    ensures RgbInUnitRange(s.chargedCells.color1) && RgbInUnitRange(s.chargedCells.color2)
    ensures RgbInUnitRange(s.chargedCells.color3)
  {
    Settings(
      text := "קרח", fontSize := 450.0, fontWeight := 600.0, fontFamily := "Quicksand",
      textTranslateX := 0.0, textTranslateY := 0.0,
      activeShader := "melt",
      melt := MeltConfig(hue := 0.0, saturation := 1.0, zoom := 7.60, speed := 0.5,
        detail := 0.2, contrast := 1.0),
      flow := FlowConfig(velocity := 0.2, detail := 200.0, twist := 50.0, speed := 2.5,
        contrast := 1.0, rgbR := 1.0, rgbG := 1.0, rgbB := 1.0, colorOffset := 0.0,
        hue := 0.0, saturation := 1.0),
      balatro := BalatroConfig(speed := 1.0, spinRotation := -2.0, spinSpeed := 7.0,
        contrast := 3.5, lighting := 0.4, spinAmount := 0.25, pixelFilter := 745.0,
        spinEase := 1.0, isRotate := false,
        color1 := Rgb(0.871, 0.267, 0.231), color2 := Rgb(0.0, 0.42, 0.706),
        color3 := Rgb(0.086, 0.137, 0.145)),
      glass := GlassConfig(speed := 0.8, sides := 6.0, hue := 0.0, saturation := 1.0,
        contrast := 1.0, density := 15.0, glow := 1.2),
      chargedCells := ChargedCellsConfig(speed := 1.0, scale := 5.0, hue := 0.0,
        saturation := 1.0, color1 := Rgb(0.18, 0.7, 0.4), color2 := Rgb(0.58, 1.0, 0.15),
        color3 := Rgb(0.0, 0.65, 0.31)),
      blurType := "none", blurStrength := 0.0, blurAngle := 0.0,
      noiseType := "none", noiseStrength := 0.0,
      isFrozen := false, manualTime := 0.0)
  }
}
