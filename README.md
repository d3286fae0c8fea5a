# Kerach, modelled in Dafny

Kerach draws a line of text onto an offscreen canvas. It uses that canvas as a
mask and paints one of five animated GPU patterns inside it: melt, flow,
balatro, glass or charged cells. A blur and noise overlay pass is drawn on top.
A control panel edits the settings record that drives all of this, and an
import/export box moves the record in and out as JSON (RFC 8259). A credits
panel renders lines that contain `[label](href)` links.

This project models the sequential logic around the GPU and the browser:

- `config.dfy` (`Config`): the settings record, the five pattern records and the defaults.
- `hexcolor.dfy` (`HexColor`): the `#RRGGBB` colour codec, in the notation of section 5.2 of CSS Color Module Level 4.
- `editor.dfy` (`Editor`): the panel's record-copy updaters as pure functions, and class `EditorPanel`, whose handlers are proved against them.
- `maskshader.dfy` (`MaskShader`): the fragment-shader rewrite that injects the mask test.
- `textmask.dfy` (`TextMask`): the canvas font string, the line layout, and class `TextCanvas`, whose `UpdateTextTexture` resizes and draws in a loop.
- `materials.dfy` (`Materials`): the material factory, one frame's uniform writes, the clock, and the overlay's blur and noise codes.
- `preview.dfy` (`Preview`): class `ShaderPreview`, covering the mount, the material swap, the animation frame and the unmount.
- `credits.dfy` (`Credits`): the link tokenizer (a `while` loop proved against a specification function) and the pipeline that splits the credits text into entries.
- `jsstrings.dfy` (`JsStrings`) and `wrappers.dfy` (`Wrappers`): the JavaScript string built-ins the code relies on (`indexOf`, `includes`, `split`, `trim`, `slice`), and `Option`.

JavaScript numbers are Dafny `real`s, so the arithmetic is exact.

Number-to-text formatting (template literals, `toString`) is a parameter
`show: real -> string`. `JSON.parse` and `JSON.stringify` are parameters
`parse: string -> Option<Settings>` and `stringify: Settings -> string`. A
thrown parse error is `None`.

GPU objects are handles (`nat`):
- a material is its program (`Pattern`) plus a map from uniform name to a tagged value;
- disposal is membership in a set of handles.

## Model

| member | source | states |
|---|---|---|
| Config.PatternOf | src/lib/config.ts:69 | an id maps to a pattern exactly when it is one of the five declared identifiers, and that pattern's identifier is the id |
| Config.PatternOfId | src/lib/config.ts:69 | the five identifiers are distinct, so looking up a pattern's own identifier gives the pattern back |
| Config.ActiveConfig | src/lib/config.ts:69-76 | the active record exists exactly when `activeShader` names a pattern, and it is that pattern's record among the five held side by side |
| Config.DefaultSettings | src/lib/config.ts:90-166 | the defaults are well formed, select melt, have zero text offsets, a neutral post pass (`none`, strength 0) and a playing clock (not frozen, manual time 0); melt, flow, glass and charged cells have hue 0 and saturation 1; every balatro and charged-cells default colour channel lies in [0, 1] |
| JsStrings.IndexOf | src/components/shader-preview.tsx:39-40 | the result is the first occurrence at or after `from`, and `None` exactly when there is none |
| JsStrings.Split | src/components/shader-preview.tsx:153 | `split` on one character never yields an empty array, and no piece contains the separator |
| JsStrings.JoinSplit | src/components/shader-preview.tsx:153 | joining the pieces with the separator gives the string back |
| JsStrings.SplitLength | src/components/credits-info.tsx:93 | there is one piece more than there are separators |
| JsStrings.TrimmedShape | src/components/credits-info.tsx:93 | `trim` returns a contiguous piece of the input, whatever it cuts is whitespace, and the result neither starts nor ends with whitespace |
| JsStrings.TrimIdempotent | src/components/credits-info.tsx:93 | trimming twice gives the same result as trimming once |
| JsStrings.Slice | src/components/credits-info.tsx:78 | `slice` on in-range indices is the subsequence between them; a start past the end gives the empty string |
| HexColor.HexDigit | src/components/controls.tsx:56 | `toString(16)` writes a lower-case hex digit whose value is the number |
| HexColor.ChannelToHexInRange | src/components/controls.tsx:55-58 | a channel in [0, 1] rounds to a byte, and `toHex` writes exactly that byte's two zero-padded lower-case digits |
| HexColor.RgbToHexShape | src/components/controls.tsx:54-60 | for channels in [0, 1] the result is `#` followed by exactly six lower-case hex digits, the three pairs being the rounded channels times 255 |
| HexColor.ParsePair | src/components/controls.tsx:64-66 | `parseInt` of two hex digits in base 16 is their value, and the channel is that value over 255 |
| HexColor.SliceChannel | src/components/controls.tsx:64-66 | the channel read from characters i and i + 1 is the byte those two digits encode, over 255 |
| HexColor.HexToRgbWellFormed | src/components/controls.tsx:63-68 | for a well-formed `#RRGGBB`, each channel is its digit pair's byte over 255 and lies in [0, 1] |
| HexColor.ByteRoundTrip | src/components/controls.tsx:54-68 | a byte survives division by 255, multiplication by 255 and rounding; its two digits parse back to it |
| HexColor.RgbToHexBytes | src/components/controls.tsx:54-60 | byte-valued channels over 255 are written as `#` and the three bytes' two-digit forms |
| HexColor.ByteColorRoundTrip | src/components/controls.tsx:54-68 | for bytes r, g, b in 0..255, `hexToRgb(rgbToHex([r, g, b] / 255))` is `[r, g, b] / 255` |
| HexColor.HexToRgbBytes | src/components/controls.tsx:63-68 | a well-formed `#RRGGBB` whose pairs encode r, g and b reads back as `[r, g, b] / 255` |
| HexColor.PairDigits | src/components/controls.tsx:56-57 | rewriting the value of a pair of hex digits gives the pair back, lower-cased |
| HexColor.HexColorRoundTrip | src/components/controls.tsx:54-68 | for a well-formed `#RRGGBB` every channel parses, and `rgbToHex(hexToRgb(h))` is h lower-cased |
| Editor.SetNum | src/components/controls.tsx:75-76 | the numeric field gets the new value; every other numeric field, the string fields, the freeze flag and the five pattern records are unchanged |
| Editor.SetNumRestore | src/components/controls.tsx:75-76 | writing back a field's old value restores the settings exactly |
| Editor.SetNumCommute | src/components/controls.tsx:75-76 | writes to two different fields commute, and a second write to the same field overrides the first |
| Editor.SliderChange | src/components/controls.tsx:75-77 | the field becomes `value[0]`, every other numeric field is unchanged, and writing back the old value undoes the change |
| Editor.ToggleFrozen | src/components/controls.tsx:79-81 | `isFrozen` is negated and nothing else changes |
| Editor.ToggleTwice | src/components/controls.tsx:79-81 | toggling twice is the identity |
| Editor.SetStr | src/components/controls.tsx:122 | the text field (or font, pattern, blur or noise select) gets the new string; every other field and all five pattern records are unchanged |
| Editor.SetStrWellFormed | src/lib/config.ts:69-82 | a string write keeps the settings within their declared types exactly when the value is one the field's type admits |
| Editor.SelectShaderKeepsRecords | src/lib/config.ts:72-76 | selecting a pattern makes its stored record active, and selecting a second one afterwards finds that one's record as it was, because the records are kept side by side |
| Editor.MeltSet | src/components/controls.tsx:89-95 | the spread copy of the melt record sets one declared key and keeps the others |
| Editor.FlowSet | src/components/controls.tsx:89-95 | the spread copy of the flow record sets one declared key and keeps the others |
| Editor.BalatroSet | src/components/controls.tsx:89-95 | the spread copy of the balatro record sets one declared key and keeps the others |
| Editor.GlassSet | src/components/controls.tsx:89-95 | the spread copy of the glass record sets one declared key and keeps the others |
| Editor.ChargedCellsSet | src/components/controls.tsx:89-95 | the spread copy of the charged-cells record sets one declared key and keeps the others |
| Editor.WithConfig | src/components/controls.tsx:89-95 | `{ ...prev, [category]: record }` puts that record in its slot and keeps the other records and all top-level fields |
| Editor.UpdateNested | src/components/controls.tsx:84-96 | only `settings[category][key]` changes: the other keys of the record and the other records are unchanged, and putting the old record back restores the settings |
| Editor.UpdateNestedTopLevel | src/components/controls.tsx:84-96 | a nested update leaves every top-level field, and so well-formedness, unchanged |
| Editor.Scaled | src/components/controls.tsx:337-341 | picker channels in 0..255 become fractions in [0, 1] |
| Editor.FlowTint | src/components/controls.tsx:282-292 | the flow tint picker sets `rgbR`, `rgbG` and `rgbB` to the picked channels over 255, keeps every other flow field, and changes nothing outside the flow record |
| Editor.FlowTintIsNested | src/components/controls.tsx:282-292 | the tint write equals three nested updates of the three channels |
| Editor.PatternColour | src/components/controls.tsx:335-341 | a balatro or charged-cells colour picker replaces that whole triple with the picked colour over 255 and keeps everything else |
| Editor.PatternColourInRange | src/components/controls.tsx:335-341 | with picked channels in 0..255, every stored colour of the record stays in [0, 1] if it was before |
| Editor.Export | src/components/controls.tsx:748-751 | export fills the text box with the printed settings and keeps the settings |
| Editor.Import | src/components/controls.tsx:98-106 | a failed parse changes neither the settings nor the text; a successful parse replaces the settings wholesale and empties the text box |
| Editor.ExportImportRoundTrip | src/components/controls.tsx:98-106 | importing what was exported restores the settings when parsing inverts printing |
| Editor.ImportTwice | src/components/controls.tsx:98-106 | a second import reads the emptied box and, since empty text is not JSON, changes nothing |
| Editor.ImportUnchecked | src/components/controls.tsx:100-101 | whatever record the parser yields is taken as is, with no shape validation |
| Editor.EditorPanel.constructor | src/components/controls.tsx:71-72 | the panel starts on the export tab with an empty text box |
| Editor.EditorPanel.OnSlider | src/components/controls.tsx:75-77 | the settings become `SliderChange` of the old settings; the text box and the tab are kept |
| Editor.EditorPanel.OnToggleAnimation | src/components/controls.tsx:79-81 | the settings become `ToggleFrozen` of the old ones; the text box and the tab are kept |
| Editor.EditorPanel.OnText | src/components/controls.tsx:122 | the settings become `SetStr` of the old ones; the text box and the tab are kept |
| Editor.EditorPanel.OnNested | src/components/controls.tsx:84-96 | the settings become `UpdateNested` of the old ones; the text box and the tab are kept |
| Editor.EditorPanel.OnFlowTint | src/components/controls.tsx:282-292 | the settings become `FlowTint` of the old ones; the text box and the tab are kept |
| Editor.EditorPanel.OnPatternColour | src/components/controls.tsx:335-341 | the settings become `PatternColour` of the old ones; the text box and the tab are kept |
| Editor.EditorPanel.SetTab | src/components/controls.tsx:719 | only the tab changes |
| Editor.EditorPanel.EditJson | src/components/controls.tsx:757-763 | on the import tab, typing changes only the text box |
| Editor.EditorPanel.OnExport | src/components/controls.tsx:736-751 | on the export tab, settings and text box move as `Export` says; the tab is kept |
| Editor.EditorPanel.OnImport | src/components/controls.tsx:98-106 | on the import tab, settings and text box move as `Import` says; the tab is kept |
| MaskShader.SkipSpacesSound | src/components/shader-preview.tsx:46 | `\s*` skips only whitespace and stops at a non-space or at the end |
| MaskShader.SkipSpacesComplete | src/components/shader-preview.tsx:46 | a run of whitespace ending at a non-space is exactly what `\s*` consumes |
| MaskShader.MatchMainSound | src/components/shader-preview.tsx:46 | what the matcher returns is a match of `void\s+main\s*\(\s*\)\s*{` |
| MaskShader.MatchMainComplete | src/components/shader-preview.tsx:46 | every match at a position is the one the matcher returns |
| MaskShader.FirstMain | src/components/shader-preview.tsx:46 | the search finds the leftmost position where the expression matches, and `None` exactly when it matches nowhere |
| MaskShader.HeaderSite | src/components/shader-preview.tsx:39-43 | the insertion point lies within the source |
| MaskShader.InjectHeaderPlacement | src/components/shader-preview.tsx:39-43 | with `precision highp float;` present, the header follows its first occurrence; otherwise header and line break are prepended; the rest of the source is preserved |
| MaskShader.HeaderKeepsFirstMain | src/components/shader-preview.tsx:38-46 | inserting the header does not change which opening of `main` is found; it only shifts it past the header |
| MaskShader.MaskPrologueIffMain | src/components/shader-preview.tsx:22-49 | a source with no opening of `main` gets the header and no discard; otherwise the prologue that samples `u_mask` and discards when `mask.r < 0.1` stands where the original's first `void main() {` landed, the text before it is unchanged and the text after that opening is kept verbatim, so only the first opening is replaced |
| TextMask.GetCanvasFont | src/components/shader-preview.tsx:84-108 | every font string starts with `"<weight> <size>px "`; a listed family gets its fixed stack and any other family gets `"<family>, sans-serif"` |
| TextMask.FontOptionsHaveStacks | src/components/controls.tsx:44-49 | every family the editor offers has its own stack |
| TextMask.EffectiveFamily | src/components/shader-preview.tsx:140 | an empty family becomes a non-empty default; any other family is kept |
| TextMask.EffectiveDpr | src/components/shader-preview.tsx:125 | a ratio reported as 0 counts as 1; any other ratio is kept |
| TextMask.Layout | src/components/shader-preview.tsx:153-169 | one draw per line, in order, each drawing its own line |
| TextMask.LineSpacingExact | src/components/shader-preview.tsx:154-166 | consecutive lines are exactly 1.2 × font size apart |
| TextMask.LayoutCentred | src/components/shader-preview.tsx:156-157 | with no vertical offset, the first and last line centres are symmetric about half the height |
| TextMask.LayoutOffsets | src/components/shader-preview.tsx:159-168 | the vertical offset moves every line by the same amount, and every line is centred at half the width plus the horizontal offset |
| TextMask.LinesOfText | src/components/shader-preview.tsx:153 | there is one line more than there are line breaks, and the lines joined with breaks give the text back |
| TextMask.TextCanvas.constructor | src/components/shader-preview.tsx:289 | a new canvas is 300 × 150 with nothing drawn |
| TextMask.TextCanvas.UpdateTextTexture | src/components/shader-preview.tsx:114-180 | the canvas takes the container size times the pixel ratio; it is reallocated only when a dimension differs and otherwise just cleared; the font is built from the defaulted family and the scaled size; the draws are the layout of the text's lines with the scaled offsets |
| Materials.ProgramFor | src/components/shader-preview.tsx:199-256 | the four named ids select their programs, and every other id gets melt |
| Materials.CreateMaterialForType | src/components/shader-preview.tsx:185-267 | the material runs the selected program, with exactly the base uniforms plus that program's own |
| Materials.BaseNotShadowed | src/components/shader-preview.tsx:190-256 | no pattern's own uniforms override a base uniform |
| Materials.MaterialBase | src/components/shader-preview.tsx:190-197 | every material starts with time 0, an empty resolution, the mask texture, hue 0, saturation 1 and contrast 1 |
| Materials.UnknownIsMelt | src/components/shader-preview.tsx:247-256 | an unrecognised id yields exactly the melt material |
| Materials.SyncMaterial | src/components/shader-preview.tsx:495-568 | a frame keeps the uniform names and leaves every uniform it does not write unchanged |
| Materials.MaterialAcceptsFrames | src/components/shader-preview.tsx:185-256 | a new material has exactly its program's names, and none of that id's frame writes misses a uniform |
| Materials.KeysAccept | src/components/shader-preview.tsx:503-568 | a material with every name of the selected program accepts that id's unconditional writes |
| Materials.SyncIdempotent | src/components/shader-preview.tsx:495-568 | the writes do not depend on the old values, so a second identical frame changes nothing |
| Materials.WrittenBy | src/components/shader-preview.tsx:502-568 | a uniform the active pattern writes holds the written value after the frame |
| Materials.GuardedWrite | src/components/shader-preview.tsx:499-500 | a uniform only the `if (uniforms.x)` writes touch holds the guarded value after the frame, when the material declares it |
| Materials.TimingWrites | src/components/shader-preview.tsx:499-500 | no pattern writes time or resolution unconditionally; the guarded writes carry the frame's elapsed time and size |
| Materials.SyncTime | src/components/shader-preview.tsx:499-500 | time and resolution receive the elapsed time and the device-pixel size |
| Materials.BalatroNeutral | src/components/shader-preview.tsx:544-545 | under balatro, hue is forced to 0 and saturation to 1 |
| Materials.ChargedCellsKeepsContrast | src/components/shader-preview.tsx:560-568 | under charged cells, contrast is never written |
| Materials.UnknownPatternOnlyTimes | src/components/shader-preview.tsx:495-568 | with an id that names no pattern, only time and resolution are written |
| Materials.SyncTransmitsActive | src/components/shader-preview.tsx:502-568 | after a frame, the material's uniforms encode exactly the active pattern's record |
| Materials.SyncTransmitsIfActive | src/components/shader-preview.tsx:502-568 | the same, for whichever pattern `activeShader` names |
| Materials.MeltTransmitted | src/components/shader-preview.tsx:503-510 | under melt, the uniforms read back as the melt record |
| Materials.FlowTransmitted | src/components/shader-preview.tsx:513-525 | under flow, the uniforms read back as the flow record |
| Materials.FlowMotion | src/components/shader-preview.tsx:514-518 | under flow, speed, velocity, detail, twist and contrast receive the record's values |
| Materials.FlowTint | src/components/shader-preview.tsx:519-524 | under flow, the three multipliers, the colour offset, hue and saturation receive the record's values |
| Materials.BalatroTransmitted | src/components/shader-preview.tsx:528-546 | under balatro, the uniforms read back as the balatro record |
| Materials.BalatroSpin | src/components/shader-preview.tsx:529-537 | under balatro, speed, the spin fields and the rotate flag receive the record's values |
| Materials.BalatroLook | src/components/shader-preview.tsx:532-535 | under balatro, contrast, lighting and pixel filter receive the record's values |
| Materials.BalatroColours | src/components/shader-preview.tsx:540-542 | the guarded colour writes land when the material declares the colours |
| Materials.ChargedCellsColours | src/components/shader-preview.tsx:565-567 | under charged cells, the guarded colour writes land when the material declares the colours |
| Materials.GlassTransmitted | src/components/shader-preview.tsx:549-557 | under glass, the uniforms read back as the glass record |
| Materials.ChargedCellsTransmitted | src/components/shader-preview.tsx:560-568 | under charged cells, the uniforms read back as the charged-cells record |
| Materials.SyncFrame | src/components/shader-preview.tsx:495-568 | a frame keeps the program and the names, sets time and resolution, and leaves the active record encoded in the uniforms |
| Materials.Elapsed | src/components/shader-preview.tsx:492-493 | while frozen the elapsed time is the manual time; while playing it is the clock in milliseconds over 1000 |
| Materials.ElapsedClock | src/components/shader-preview.tsx:492-493 | a frozen frame does not depend on the clock; a playing one is strictly increasing in it |
| Materials.BlurCode | src/components/shader-preview.tsx:587-591 | codes lie in 0..3, and the code is 0 exactly when the name is not gaussian, motion or zoom |
| Materials.NoiseCode | src/components/shader-preview.tsx:595-599 | codes lie in 0..3, and the code is 0 exactly when the name is not grain, static or scanline |
| Materials.CodesRoundTrip | src/components/shader-preview.tsx:587-599 | on the declared names the codes lose nothing: decoding gives the name back |
| Materials.OverlayInitial | src/components/shader-preview.tsx:328-336 | the overlay starts with no source texture and both effect codes 0 |
| Materials.SyncOverlay | src/components/shader-preview.tsx:579-599 | the overlay receives the rendered texture, the same elapsed time, the device-pixel size and the strengths; its codes decode to the declared name, or to `none` for any other string |
| Preview.ResizeNeverSettles | src/components/shader-preview.tsx:482-486 | as written, with a pixel ratio other than 1 the resize check still fires right after `setSize`, on every frame |
| Preview.MaterialKeysOfCreated | src/components/shader-preview.tsx:185-256 | a created material has every name its program's frames write |
| Preview.ShaderPreview.constructor | src/components/shader-preview.tsx:272-413 | the mount creates one material for the current id and puts it on the mesh, with nothing disposed, the initial overlay and a 0 × 0 render target; the text-mask canvas takes the container size times the pixel ratio, the font of the defaulted family at the scaled size, and the layout of the text's lines |
| Preview.ShaderPreview.SwapMaterial | src/components/shader-preview.tsx:431-444 | the same id changes nothing; a new id appends its material, puts it on the mesh and records it before disposing the old one, so the mesh never holds a disposed material |
| Preview.ShaderPreview.Frame | src/components/shader-preview.tsx:460-604 | a frame resizes exactly when the check as written fires (renderer size against container size times the loop's pixel ratio), redrawing the mask with the window's current ratio on a canvas of the container size times that ratio, with the matching font, and once it has fired with a ratio other than 1 it fires again on the next frame; the current material gets the active record, and it and the overlay get the same elapsed time; nothing is created or disposed |
| Preview.ShaderPreview.Resize | src/components/shader-preview.tsx:481-490 | as written: when the renderer's size differs from the container's device-pixel size, the renderer takes the CSS size, the render target the device-pixel size and the mask is redrawn on a canvas of the container size times the window's ratio, with the matching font; otherwise nothing changes; with a ratio other than 1 the check still fires afterwards |
| Preview.ShaderPreview.ResizeCorrected | src/components/shader-preview.tsx:485-490 | corrected: it fires only when the container's CSS size differs from the renderer's, then redraws the mask on a canvas of the container size times the window's ratio; afterwards the same container does not fire it again |
| Preview.ShaderPreview.UnmountAsWritten | src/components/shader-preview.tsx:416-423 | the cleanup disposes the material created at mount and keeps the materials and the mesh as they were, so after a swap the material on the mesh is never disposed |
| Preview.ShaderPreview.Unmount | src/components/shader-preview.tsx:416-423 | the corrected cleanup disposes the current material and keeps the materials and the mesh as they were, so every material ever created ends up disposed |
| Credits.NextCharSound | src/components/credits-info.tsx:70 | `[^\]]+` and `[^)]+` end at the first closing character: the position found holds it, and nothing before it does |
| Credits.NextCharFinds | src/components/credits-info.tsx:70 | a closing character preceded only by other characters is the one found |
| Credits.LinkAt | src/components/credits-info.tsx:70 | a match at a position starts there and lies inside the entry |
| Credits.LinkAtSound | src/components/credits-info.tsx:70 | what the pattern matches is a link: a non-empty label free of `]` and a non-empty destination free of `)`, in their delimiters |
| Credits.LinkAtComplete | src/components/credits-info.tsx:70 | every link starting at a position is what the pattern matches there |
| Credits.FindLink | src/components/credits-info.tsx:70-76 | the search from `lastIndex` returns the pattern's match at a position at or after it |
| Credits.FindLinkSound | src/components/credits-info.tsx:70-76 | what the search returns is the pattern's match at its own position, and so a link |
| Credits.FindLinkLeftmost | src/components/credits-info.tsx:76 | the search finds a link whenever one starts at or after `lastIndex`, and none later than it |
| Credits.LinkMarkup | src/components/credits-info.tsx:81 | a link part written back as `[label](href)` is exactly the text the match covers |
| Credits.TokenizeStep | src/components/credits-info.tsx:76-83 | one pass of the loop: a plain part for the text before the match if any, the link part, then the parts after the match |
| Credits.TokenizeRest | src/components/credits-info.tsx:85-87 | once no link follows, the rest of the entry, if any, is one plain part |
| Credits.TokenizeRenders | src/components/credits-info.tsx:76-87 | writing out plain parts verbatim and link parts as `[label](href)`, in order, reproduces the entry exactly |
| Credits.RendersLinkCase | src/components/credits-info.tsx:76-83 | across one match, the text before it, the link's markup and the rest written out give back the entry from `lastIndex` on |
| Credits.GoodLinkCase | src/components/credits-info.tsx:77-81 | one pass of the loop adds only well-formed parts |
| Credits.TokenizeGoodParts | src/components/credits-info.tsx:70-87 | plain parts are never empty, and every label and destination is non-empty and free of its closing character |
| Credits.TokenizeAlternates | src/components/credits-info.tsx:77-81 | no two plain parts are adjacent: the text between two links is one part |
| Credits.NoLinkIsPlain | src/components/credits-info.tsx:85-87 | an entry with no link is one plain part equal to the entry, or no parts when the entry is empty |
| Credits.ScanParts | src/components/credits-info.tsx:77-82 | the plain part (when `match.index > lastIndex`) and the link part one pass pushes are exactly what `Tokenize` puts before the parts after the match, and the match ends inside the entry |
| Credits.ScanStep | src/components/credits-info.tsx:77-83 | one pass keeps the loop invariant: the parts pushed so far followed by the parts of the text after the new `lastIndex` are the parts of the whole entry |
| Credits.ScanEnd | src/components/credits-info.tsx:85-87 | the part pushed after the loop, if any, completes the parts of the whole entry |
| Credits.RenderEntry | src/components/credits-info.tsx:69-90 | the loop over `regex.exec` returns exactly the parts `Tokenize` defines, so all the properties above hold of it |
| Credits.TrimIsPiece | src/components/credits-info.tsx:93 | trimming cannot introduce a character the string lacks |
| Credits.NonBlankClean | src/components/credits-info.tsx:93 | `map(trim)` and `filter(Boolean)` keep only non-empty, trimmed, single-line strings, and never more than there were lines |
| Credits.CreditEntriesClean | src/components/credits-info.tsx:93 | every entry is non-empty, has no surrounding whitespace and is one line, and there is at most one per line of the text |

## Left out

- The GLSL pattern programs and the overlay's blur and noise shader are GPU floating-point code. A program is only its `Pattern` name here.
- The three.js renderer, scenes, cameras, geometry and render target are handles. Disposing of the renderer, target, canvas texture, geometry and overlay is one `released` flag. `needsUpdate`, texture filters and the canvas's `imageSmoothingEnabled`, fill style and alignment are not modelled.
- Canvas 2D rasterisation is not modelled: `fillText` becomes a recorded draw (`Draw(line, x, y)`), and fonts may or may not be available.
- TextMask.TextCanvas.UpdateTextTexture: the browser truncates a canvas width and height to whole pixels; the model keeps the exact real product.
- `window.devicePixelRatio`, `clientWidth`, `clientHeight` and the frame timestamp are inputs. The mount and the frame loop read the raw pixel ratio (a ratio of 0 is not defaulted there); `updateTextTexture` applies `|| 1`. The frame loop reads the ratio once, when its effect starts (`loopDpr`), while `updateTextTexture` reads the window's ratio at every draw (the `windowDpr` parameter of `Frame`). NaN ratios are not modelled.
- `requestAnimationFrame` scheduling and React lifecycle are left out. `useEffect` ordering is reduced to one assumption, `Preview.ShaderPreview.Frame` requires `s.activeShader == activeShaderRef`, because the swap effect runs in the same commit before the next frame reads the settings ref. The text re-draw effect on setting changes is the same `UpdateTextTexture` call.
- The effect of `materialRef.current.uniforms.u_mask` being re-assigned after each text draw is not modelled. The mask is the same texture handle throughout.
- `JSON.parse` and `JSON.stringify` are parameters, the `alert` on a failed import is dropped, and `hsvaToRgba`/`rgbaToHsva` of the colour library are not part of this model: pickers deliver an `Rgb` in 0..255.
- Editor.SliderChange: requires a non-empty value array, as every slider delivers one; `value[0]` of an empty array (`undefined`) is not modelled.
- Editor.UpdateNested: requires the key to be a declared field of the record with a value of the same kind, as every call site in the panel passes; JavaScript would also accept a new key.
- Editor.SetNum: the slider handlers are modelled for the numeric top-level fields only. The TypeScript signature would also accept a string or object key, which no slider passes.
- `String.prototype.replace` special `$` patterns in the replacement text do not occur in the two inserted texts and are not modelled.
- The `key` counter and the `CreditHighlightHover` elements of `renderEntry` are left out; a part is its text, or its label and destination.
- The concrete credits text (`creditsMarkdown`) is not modelled; `CreditEntries` is proved for every text.
- Number formatting in the font string is a parameter `show`, so the font string is exact only up to that function.
- TextMask.GetCanvasFont: family names that `Object.prototype` defines (`constructor`, `toString`, `valueOf`, `hasOwnProperty`, `__proto__` and the like) are not modelled. The source's `fontMap` lookup finds those inherited members and returns a non-string, which `ctx.font` ignores. The model treats them as unlisted families and gives them the `", sans-serif"` fallback. Such names can reach the font code only through an import.
- Editor.Import: the parser yields a `Settings` value, so "no shape validation" holds only among well-typed records. The source also hands a JSON object with missing or mistyped fields to `setSettings`, and the model cannot represent such an object.
- Preview.ShaderPreview.Frame runs the resize check as written, so with a ratio other than 1 the model, like the source, resizes and redraws the mask on every frame. `ResizeCorrected` is the corrected step and is not called by `Frame`.
- `src/hooks/use-persistent-state.ts`, `src/components/KerachBadges.tsx` and `src/app/page.tsx` (storage, badges, layout) are not part of this model.

## Findings

| source | as written | input that shows it | evidently intended | confidence | as-written member | corrected member |
|---|---|---|---|---|---|---|
| src/components/shader-preview.tsx:485-486 | the resize check compares `renderer.getSize()`, which reports the CSS size that `setSize(clientWidth, clientHeight, false)` stored, with `clientWidth * dpr` | pixel ratio 2, container 400 × 300: after `setSize(400, 300)` the size 400 differs from 800 on every frame, so the renderer, render target and text mask are resized and redrawn on every frame | compare the stored size with the container's CSS size, so the check fires only when the container changes | not executed | Preview.ResizeNeverSettles | Preview.ShaderPreview.ResizeCorrected |
| src/components/shader-preview.tsx:421 | the cleanup disposes `material`, the material the mount created | mount with `melt`, switch to `flow` (the swap disposes the melt material), unmount: melt is disposed twice and the flow material on the mesh is never disposed | dispose the material currently on the mesh (`materialRef.current`) | not executed | Preview.ShaderPreview.UnmountAsWritten | Preview.ShaderPreview.Unmount |
