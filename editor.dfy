/**
  The settings editor. Every control hands the settings a record-copy updater
  (`{ ...prev, key: value }`); those updaters are the pure functions below.
  `EditorPanel` holds the editor's own state (the settings it edits, the JSON
  text box and the selected tab) and applies them in place.

  JSON text is the RFC 8259 serialisation of the settings. Parsing and
  printing it are not modelled: they are passed in as functions, parsing
  yielding `None` where `JSON.parse` would throw.
 */
module Editor {
  import opened Wrappers
  import opened Config

  /** The numeric top-level fields that sliders write. */
  datatype NumKey =
    | FontSize | FontWeight | TextTranslateX | TextTranslateY
    | BlurStrength | BlurAngle | NoiseStrength | ManualTime

  function GetNum(s: Settings, k: NumKey): real
  {
    match k
    case FontSize => s.fontSize
    case FontWeight => s.fontWeight
    case TextTranslateX => s.textTranslateX
    case TextTranslateY => s.textTranslateY
    case BlurStrength => s.blurStrength
    case BlurAngle => s.blurAngle
    case NoiseStrength => s.noiseStrength
    case ManualTime => s.manualTime
  }

  /** `{ ...prev, [key]: v }` for a numeric top-level field. */
  function SetNum(s: Settings, k: NumKey, v: real): (r: Settings)
    ensures GetNum(r, k) == v
    ensures forall j :: j != k ==> GetNum(r, j) == GetNum(s, j)
    ensures r.text == s.text && r.fontFamily == s.fontFamily && r.activeShader == s.activeShader
    ensures r.blurType == s.blurType && r.noiseType == s.noiseType && r.isFrozen == s.isFrozen
    ensures forall p :: ConfigOf(r, p) == ConfigOf(s, p)
  {
    match k
    case FontSize => s.(fontSize := v)
    case FontWeight => s.(fontWeight := v)
    case TextTranslateX => s.(textTranslateX := v)
    case TextTranslateY => s.(textTranslateY := v)
    case BlurStrength => s.(blurStrength := v)
    case BlurAngle => s.(blurAngle := v)
    case NoiseStrength => s.(noiseStrength := v)
    case ManualTime => s.(manualTime := v)
  }

  /** Writing back the old value of a numeric field restores the settings exactly. */
  lemma SetNumRestore(s: Settings, k: NumKey, v: real)
    ensures SetNum(SetNum(s, k, v), k, GetNum(s, k)) == s
  {
    match k
    case FontSize =>
    case FontWeight =>
    case TextTranslateX =>
    case TextTranslateY =>
    case BlurStrength =>
    case BlurAngle =>
    case NoiseStrength =>
    case ManualTime =>
  }

  /** Writes to two different numeric fields commute; a second write to the same field wins. */
  lemma SetNumCommute(s: Settings, j: NumKey, k: NumKey, v: real, w: real)
    ensures j != k ==> SetNum(SetNum(s, j, v), k, w) == SetNum(SetNum(s, k, w), j, v)
    ensures SetNum(SetNum(s, k, v), k, w) == SetNum(s, k, w)
  {
  }

  /**
    `handleSliderChange(key)(value)` and the inline slider handlers: the field
    takes the slider's first value. A slider always reports at least one value.
   */
  function SliderChange(s: Settings, k: NumKey, values: seq<real>): (r: Settings)
    requires |values| > 0
    ensures GetNum(r, k) == values[0]
    ensures forall j :: j != k ==> GetNum(r, j) == GetNum(s, j)
    ensures SetNum(r, k, GetNum(s, k)) == s
  {
    SetNumRestore(s, k, values[0]);
    SetNum(s, k, values[0])
  }

  /** `toggleAnimation`: flips `isFrozen` and nothing else. */
  function ToggleFrozen(s: Settings): (r: Settings)
    ensures r.isFrozen == !s.isFrozen
    ensures r.(isFrozen := s.isFrozen) == s
  {
    s.(isFrozen := !s.isFrozen)
  }

  lemma ToggleTwice(s: Settings)
    ensures ToggleFrozen(ToggleFrozen(s)) == s
  {
  }

  /** The string fields set by the text box, the font list and the three selects. */
  datatype StrKey = Text | FontFamily | ActiveShader | BlurType | NoiseType

  function GetStr(s: Settings, k: StrKey): string
  {
    match k
    case Text => s.text
    case FontFamily => s.fontFamily
    case ActiveShader => s.activeShader
    case BlurType => s.blurType
    case NoiseType => s.noiseType
  }

  function SetStr(s: Settings, k: StrKey, v: string): (r: Settings)
    ensures GetStr(r, k) == v
    ensures forall j :: j != k ==> GetStr(r, j) == GetStr(s, j)
    ensures forall n :: GetNum(r, n) == GetNum(s, n)
    ensures forall p :: ConfigOf(r, p) == ConfigOf(s, p)
    ensures r.isFrozen == s.isFrozen
  {
    match k
    case Text => s.(text := v)
    case FontFamily => s.(fontFamily := v)
    case ActiveShader => s.(activeShader := v)
    case BlurType => s.(blurType := v)
    case NoiseType => s.(noiseType := v)
  }

  /** The values the declared type of a string field admits. */
  predicate Admissible(k: StrKey, v: string)
  {
    match k
    case Text => true
    case FontFamily => true
    case ActiveShader => PatternOf(v).Some?
    case BlurType => IsBlurName(v)
    case NoiseType => IsNoiseName(v)
  }

  /** A string write keeps the settings well formed exactly when the new value is admissible. */
  lemma SetStrWellFormed(s: Settings, k: StrKey, v: string)
    requires WellFormed(s)
    ensures WellFormed(SetStr(s, k, v)) <==> Admissible(k, v)
  {
  }

  /**
    Switching the pattern only changes which record is read: all five records
    are kept, so switching away and back finds the old record as it was.
   */
  lemma SelectShaderKeepsRecords(s: Settings, p: Pattern, q: Pattern)
    ensures ActiveConfig(SetStr(s, ActiveShader, p.Id())) == Some(ConfigOf(s, p))
    ensures ActiveConfig(SetStr(SetStr(s, ActiveShader, p.Id()), ActiveShader, q.Id()))
         == Some(ConfigOf(s, q))
  {
    PatternOfId(p);
    PatternOfId(q);
  }

  // ---- one field of one pattern record ----

  function MeltSet(c: MeltConfig, key: string, v: Value): (r: MeltConfig)
    requires MeltGet(c, key).Some? && SameKind(MeltGet(c, key).value, v)
    ensures MeltGet(r, key) == Some(v)
    ensures forall k :: k != key ==> MeltGet(r, k) == MeltGet(c, k)
  {
    if key == "hue" then c.(hue := v.x)
    else if key == "saturation" then c.(saturation := v.x)
    else if key == "zoom" then c.(zoom := v.x)
    else if key == "speed" then c.(speed := v.x)
    else if key == "detail" then c.(detail := v.x)
    else c.(contrast := v.x)
  }

  function FlowSet(c: FlowConfig, key: string, v: Value): (r: FlowConfig)
    requires FlowGet(c, key).Some? && SameKind(FlowGet(c, key).value, v)
    ensures FlowGet(r, key) == Some(v)
    ensures forall k :: k != key ==> FlowGet(r, k) == FlowGet(c, k)
  {
    if key == "velocity" then c.(velocity := v.x)
    else if key == "detail" then c.(detail := v.x)
    else if key == "twist" then c.(twist := v.x)
    else if key == "speed" then c.(speed := v.x)
    else if key == "contrast" then c.(contrast := v.x)
    else if key == "rgbR" then c.(rgbR := v.x)
    else if key == "rgbG" then c.(rgbG := v.x)
    else if key == "rgbB" then c.(rgbB := v.x)
    else if key == "colorOffset" then c.(colorOffset := v.x)
    else if key == "hue" then c.(hue := v.x)
    else c.(saturation := v.x)
  }

  function BalatroSet(c: BalatroConfig, key: string, v: Value): (r: BalatroConfig)
    requires BalatroGet(c, key).Some? && SameKind(BalatroGet(c, key).value, v)
    ensures BalatroGet(r, key) == Some(v)
    ensures forall k :: k != key ==> BalatroGet(r, k) == BalatroGet(c, k)
  {
    if key == "speed" then c.(speed := v.x)
    else if key == "spinRotation" then c.(spinRotation := v.x)
    else if key == "spinSpeed" then c.(spinSpeed := v.x)
    else if key == "contrast" then c.(contrast := v.x)
    else if key == "lighting" then c.(lighting := v.x)
    else if key == "spinAmount" then c.(spinAmount := v.x)
    else if key == "pixelFilter" then c.(pixelFilter := v.x)
    else if key == "spinEase" then c.(spinEase := v.x)
    else if key == "isRotate" then c.(isRotate := v.b)
    else if key == "color1" then c.(color1 := v.c)
    else if key == "color2" then c.(color2 := v.c)
    else c.(color3 := v.c)
  }

  function GlassSet(c: GlassConfig, key: string, v: Value): (r: GlassConfig)
    requires GlassGet(c, key).Some? && SameKind(GlassGet(c, key).value, v)
    ensures GlassGet(r, key) == Some(v)
    ensures forall k :: k != key ==> GlassGet(r, k) == GlassGet(c, k)
  {
    if key == "speed" then c.(speed := v.x)
    else if key == "sides" then c.(sides := v.x)
    else if key == "hue" then c.(hue := v.x)
    else if key == "saturation" then c.(saturation := v.x)
    else if key == "contrast" then c.(contrast := v.x)
    else if key == "density" then c.(density := v.x)
    else c.(glow := v.x)
  }

  function ChargedCellsSet(c: ChargedCellsConfig, key: string, v: Value): (r: ChargedCellsConfig)
    requires ChargedCellsGet(c, key).Some? && SameKind(ChargedCellsGet(c, key).value, v)
    ensures ChargedCellsGet(r, key) == Some(v)
    ensures forall k :: k != key ==> ChargedCellsGet(r, k) == ChargedCellsGet(c, k)
  {
    if key == "speed" then c.(speed := v.x)
    else if key == "scale" then c.(scale := v.x)
    else if key == "hue" then c.(hue := v.x)
    else if key == "saturation" then c.(saturation := v.x)
    else if key == "color1" then c.(color1 := v.c)
    else if key == "color2" then c.(color2 := v.c)
    else c.(color3 := v.c)
  }

  function PatternOfConfig(c: PatternConfig): Pattern
  {
    match c
    case MeltCfg(_) => Melt
    case FlowCfg(_) => Flow
    case BalatroCfg(_) => Balatro
    case GlassCfg(_) => Glass
    case ChargedCellsCfg(_) => ChargedCells
  }

  /** `{ ...prev, [category]: record }`: puts one pattern record in place of its old one. */
  function WithConfig(s: Settings, c: PatternConfig): (r: Settings)
    ensures ConfigOf(r, PatternOfConfig(c)) == c
    ensures forall q :: q != PatternOfConfig(c) ==> ConfigOf(r, q) == ConfigOf(s, q)
    ensures forall n :: GetNum(r, n) == GetNum(s, n)
    ensures forall k :: GetStr(r, k) == GetStr(s, k)
    ensures r.isFrozen == s.isFrozen
  {
    match c
    case MeltCfg(m) => s.(melt := m)
    case FlowCfg(f) => s.(flow := f)
    case BalatroCfg(b) => s.(balatro := b)
    case GlassCfg(g) => s.(glass := g)
    case ChargedCellsCfg(x) => s.(chargedCells := x)
  }

  /**
    `updateNested(category, key, value)`: sets one declared field of one
    pattern record to a value of that field's kind. Every call site passes a
    declared field name and a value of its kind.
   */
  function UpdateNested(s: Settings, p: Pattern, key: string, v: Value): (r: Settings)
    requires GetField(s, p, key).Some? && SameKind(GetField(s, p, key).value, v)
    ensures GetField(r, p, key) == Some(v)
    ensures forall k :: k != key ==> GetField(r, p, k) == GetField(s, p, k)
    ensures forall q :: q != p ==> ConfigOf(r, q) == ConfigOf(s, q)
    ensures WithConfig(r, ConfigOf(s, p)) == s
  {
    match p
    case Melt => s.(melt := MeltSet(s.melt, key, v))
    case Flow => s.(flow := FlowSet(s.flow, key, v))
    case Balatro => s.(balatro := BalatroSet(s.balatro, key, v))
    case Glass => s.(glass := GlassSet(s.glass, key, v))
    case ChargedCells => s.(chargedCells := ChargedCellsSet(s.chargedCells, key, v))
  }

  /** A nested update leaves the top-level fields, and so well-formedness, alone. */
  lemma UpdateNestedTopLevel(s: Settings, p: Pattern, key: string, v: Value)
    requires GetField(s, p, key).Some? && SameKind(GetField(s, p, key).value, v)
    ensures var r := UpdateNested(s, p, key, v);
      (forall n :: GetNum(r, n) == GetNum(s, n)) && (forall k :: GetStr(r, k) == GetStr(s, k)) &&
      r.isFrozen == s.isFrozen && (WellFormed(r) <==> WellFormed(s))
  {
    var r := UpdateNested(s, p, key, v);
    assert WithConfig(r, ConfigOf(s, p)) == s;
  }

  /** A channel of the colour picker, 0..255, as a fraction of 255. */
  function Fraction(x: real): real
  {
    x / 255.0
  }

  function Scaled(rgba: Rgb): (c: Rgb)
    ensures 0.0 <= rgba.r <= 255.0 && 0.0 <= rgba.g <= 255.0 && 0.0 <= rgba.b <= 255.0 ==>
      RgbInUnitRange(c)
  {
    Rgb(Fraction(rgba.r), Fraction(rgba.g), Fraction(rgba.b))
  }

  /** The flow tint picker: writes `rgbR`, `rgbG`, `rgbB` as fractions of 255 and keeps the other flow fields. */
  function FlowTint(s: Settings, rgba: Rgb): (r: Settings)
    ensures r.flow.rgbR == rgba.r / 255.0 && r.flow.rgbG == rgba.g / 255.0 && r.flow.rgbB == rgba.b / 255.0
    ensures forall k :: k != "rgbR" && k != "rgbG" && k != "rgbB" ==> FlowGet(r.flow, k) == FlowGet(s.flow, k)
    ensures WithConfig(r, FlowCfg(s.flow)) == s
  {
    s.(flow := s.flow.(rgbR := Fraction(rgba.r), rgbG := Fraction(rgba.g), rgbB := Fraction(rgba.b)))
  }

  /** The tint write is the same as three nested updates of the three channels. */
  lemma FlowTintIsNested(s: Settings, rgba: Rgb)
    ensures FlowTint(s, rgba) ==
      UpdateNested(UpdateNested(UpdateNested(s, Flow, "rgbR", Num(rgba.r / 255.0)),
        Flow, "rgbG", Num(rgba.g / 255.0)), Flow, "rgbB", Num(rgba.b / 255.0))
  {
    var s1 := UpdateNested(s, Flow, "rgbR", Num(rgba.r / 255.0));
    var s2 := UpdateNested(s1, Flow, "rgbG", Num(rgba.g / 255.0));
    var s3 := UpdateNested(s2, Flow, "rgbB", Num(rgba.b / 255.0));
    assert s3.flow == FlowTint(s, rgba).flow;
  }

  /** The colour keys a pattern's pickers write. */
  predicate IsColourKey(p: Pattern, key: string)
  {
    (p == Balatro || p == ChargedCells) && (key == "color1" || key == "color2" || key == "color3")
  }

  /** A balatro or charged-cells colour picker: replaces the whole triple with the picked colour over 255. */
  function PatternColour(s: Settings, p: Pattern, key: string, rgba: Rgb): (r: Settings)
    requires IsColourKey(p, key)
    ensures GetField(r, p, key) == Some(Triple(Scaled(rgba)))
    ensures forall k :: k != key ==> GetField(r, p, k) == GetField(s, p, k)
    ensures forall q :: q != p ==> ConfigOf(r, q) == ConfigOf(s, q)
    ensures WithConfig(r, ConfigOf(s, p)) == s
  {
    UpdateNested(s, p, key, Triple(Scaled(rgba)))
  }

  /** Picked colours with channels in 0..255 leave every stored colour in [0, 1] if it was before. */
  lemma PatternColourInRange(s: Settings, p: Pattern, key: string, rgba: Rgb)
    requires IsColourKey(p, key)
    requires 0.0 <= rgba.r <= 255.0 && 0.0 <= rgba.g <= 255.0 && 0.0 <= rgba.b <= 255.0
    requires forall k :: GetField(s, p, k).Some? && GetField(s, p, k).value.Triple? ==>
      RgbInUnitRange(GetField(s, p, k).value.c)
    ensures var r := PatternColour(s, p, key, rgba);
      forall k :: GetField(r, p, k).Some? && GetField(r, p, k).value.Triple? ==>
        RgbInUnitRange(GetField(r, p, k).value.c)
  {
    var r := PatternColour(s, p, key, rgba);
    forall k | GetField(r, p, k).Some? && GetField(r, p, k).value.Triple?
      ensures RgbInUnitRange(GetField(r, p, k).value.c)
    {
      if k != key {
        assert GetField(r, p, k) == GetField(s, p, k);
      }
    }
  }

  // ---- import and export ----

  datatype Tab = ExportTab | ImportTab

  /** The part of the editor that import and export act on. */
  datatype Exchange = Exchange(settings: Settings, jsonInput: string)

  /** The export button: the text box receives the printed settings; the settings stay. */
  function Export(st: Exchange, stringify: Settings -> string): (r: Exchange)
    ensures r.settings == st.settings && r.jsonInput == stringify(st.settings)
  {
    st.(jsonInput := stringify(st.settings))
  }

  /**
    `handleImport`: when the text does not parse nothing changes (an alert is
    shown); when it does, the parsed record replaces the settings wholesale,
    without any check of its shape, and the text box is emptied.
   */
  function Import(st: Exchange, parse: string -> Option<Settings>): (r: Exchange)
    ensures parse(st.jsonInput).None? ==> r == st
    ensures parse(st.jsonInput).Some? ==> r == Exchange(parse(st.jsonInput).value, "")
  {
    match parse(st.jsonInput)
    case None => st
    case Some(imported) => Exchange(imported, "")
  }

  /** Exporting and importing the same text gives back the settings, when parsing inverts printing. */
  lemma ExportImportRoundTrip(st: Exchange, parse: string -> Option<Settings>, stringify: Settings -> string)
    requires parse(stringify(st.settings)) == Some(st.settings)
    ensures Import(Export(st, stringify), parse) == Exchange(st.settings, "")
  {
  }

  /** A second import reads the emptied text box; empty text is not JSON, so it changes nothing. */
  lemma ImportTwice(st: Exchange, parse: string -> Option<Settings>)
    requires parse("") == None
    ensures Import(Import(st, parse), parse) == Import(st, parse)
  {
  }

  /** Import keeps nothing of the old settings: any record the parser yields, well formed or not, is taken. */
  lemma ImportUnchecked(st: Exchange, t: Settings)
    ensures Import(st, _ => Some(t)).settings == t
  {
  }

  /**
    The editor's state: the settings it edits (owned by the page and passed in),
    the JSON text box and the selected tab. Each handler is one method.
   */
  class EditorPanel {
    var settings: Settings
    var jsonInput: string
    var tab: Tab

    /** The text box starts empty on the export tab. */
    constructor (initial: Settings)
      ensures settings == initial && jsonInput == "" && tab == ExportTab
    {
      settings := initial;
      jsonInput := "";
      tab := ExportTab;
    }

    method OnSlider(k: NumKey, values: seq<real>)
      requires |values| > 0
      modifies this
      ensures settings == SliderChange(old(settings), k, values)
      ensures jsonInput == old(jsonInput) && tab == old(tab)
    {
      settings := SliderChange(settings, k, values);
    }

    method OnToggleAnimation()
      modifies this
      ensures settings == ToggleFrozen(old(settings))
      ensures jsonInput == old(jsonInput) && tab == old(tab)
    {
      settings := ToggleFrozen(settings);
    }

    method OnText(k: StrKey, v: string)
      modifies this
      ensures settings == SetStr(old(settings), k, v)
      ensures jsonInput == old(jsonInput) && tab == old(tab)
    {
      settings := SetStr(settings, k, v);
    }

    method OnNested(p: Pattern, key: string, v: Value)
      requires GetField(settings, p, key).Some? && SameKind(GetField(settings, p, key).value, v)
      modifies this
      ensures settings == UpdateNested(old(settings), p, key, v)
      ensures jsonInput == old(jsonInput) && tab == old(tab)
    {
      settings := UpdateNested(settings, p, key, v);
    }

    method OnFlowTint(rgba: Rgb)
      modifies this
      ensures settings == FlowTint(old(settings), rgba)
      ensures jsonInput == old(jsonInput) && tab == old(tab)
    {
      settings := FlowTint(settings, rgba);
    }

    method OnPatternColour(p: Pattern, key: string, rgba: Rgb)
      requires IsColourKey(p, key)
      modifies this
      ensures settings == PatternColour(old(settings), p, key, rgba)
      ensures jsonInput == old(jsonInput) && tab == old(tab)
    {
      settings := PatternColour(settings, p, key, rgba);
    }

    method SetTab(t: Tab)
      modifies this
      ensures tab == t && settings == old(settings) && jsonInput == old(jsonInput)
    {
      tab := t;
    }

    /** Typing into the import box. */
    method EditJson(text: string)
      requires tab == ImportTab
      modifies this
      ensures jsonInput == text && settings == old(settings) && tab == old(tab)
    {
      jsonInput := text;
    }

    method OnExport(stringify: Settings -> string)
      requires tab == ExportTab
      modifies this
      ensures Exchange(settings, jsonInput) == Export(Exchange(old(settings), old(jsonInput)), stringify)
      ensures tab == old(tab)
    {
      jsonInput := stringify(settings);
    }

    method OnImport(parse: string -> Option<Settings>)
      requires tab == ImportTab
      modifies this
      ensures Exchange(settings, jsonInput) == Import(Exchange(old(settings), old(jsonInput)), parse)
      ensures tab == old(tab)
    {
      match parse(jsonInput)
      case None =>
      case Some(imported) =>
        settings := imported;
        jsonInput := "";
    }
  }
}
