/**
  The text mask: the settings' text is drawn white on a canvas the size of
  the preview (in device pixels), one line per `\n`-separated piece, centred
  horizontally and as a block vertically, then shifted by the text offsets.
  The canvas becomes the `u_mask` texture of the pattern material.

  Rasterisation (`fillText`) is not modelled: the canvas records the lines it
  was asked to draw and where. Turning a number into text for the CSS font
  string is passed in as `show`.
 */
module TextMask {
  import opened Wrappers
  import opened JsStrings
  import opened Config

  // ---- the CSS font string ----

  /** The font stack each family of the editor's list is drawn with (what follows `<size>px `). */
  function FontStack(family: string): Option<string>
  {
    if family == "Inter" then Some("Inter, -apple-system, BlinkMacSystemFont, sans-serif")
    else if family == "Roboto" then Some("Roboto, sans-serif")
    else if family == "Open Sans" then Some("\"Open Sans\", sans-serif")
    else if family == "Lato" then Some("Lato, sans-serif")
    else if family == "Montserrat" then Some("Montserrat, sans-serif")
    else if family == "Oswald" then Some("Oswald, sans-serif")
    else if family == "Raleway" then Some("Raleway, sans-serif")
    else if family == "Nunito" then Some("Nunito, sans-serif")
    else if family == "Merriweather" then Some("Merriweather, serif")
    else if family == "Poppins" then Some("Poppins, sans-serif")
    else if family == "Playfair Display" then Some("\"Playfair Display\", serif")
    else if family == "Ubuntu" then Some("Ubuntu, sans-serif")
    else if family == "Roboto Mono" then Some("\"Roboto Mono\", monospace")
    else if family == "Rubik" then Some("Rubik, sans-serif")
    else if family == "Mukta" then Some("Mukta, sans-serif")
    else if family == "Kanit" then Some("Kanit, sans-serif")
    else if family == "PT Sans" then Some("\"PT Sans\", sans-serif")
    else if family == "Work Sans" then Some("\"Work Sans\", sans-serif")
    else if family == "Quicksand" then Some("Quicksand, sans-serif")
    else if family == "Fira Sans" then Some("\"Fira Sans\", sans-serif")
    else if family == "Alef" then Some("Alef, Arial Hebrew, sans-serif")
    else None
  }

  /** `"<weight> <size>px "`, the start of every font string. */
  function FontPrefix(weight: real, size: real, show: real -> string): string
  {
    show(weight) + " " + show(size) + "px "
  }

  /** `getCanvasFont`: the listed family's stack, or the family itself with a sans-serif fallback. */
  function GetCanvasFont(family: string, weight: real, size: real, show: real -> string): (r: string)
    ensures var p := FontPrefix(weight, size, show);
      |p| <= |r| && r[..|p|] == p
    ensures FontStack(family).None? ==> r == FontPrefix(weight, size, show) + family + ", sans-serif"
    ensures FontStack(family).Some? ==> r == FontPrefix(weight, size, show) + FontStack(family).value
  {
    var p := FontPrefix(weight, size, show);
    match FontStack(family)
    case Some(stack) =>
      assert (p + stack)[..|p|] == p;
      p + stack
    case None =>
      assert (p + family + ", sans-serif")[..|p|] == p;
      p + family + ", sans-serif"
  }

  /** The families the editor offers. */
  const FontOptions: seq<string> := [
    "Inter", "Roboto", "Open Sans", "Lato", "Montserrat", "Oswald",
    "Raleway", "Nunito", "Merriweather", "Poppins", "Playfair Display",
    "Ubuntu", "Roboto Mono", "Rubik", "Mukta", "Kanit", "PT Sans",
    "Work Sans", "Quicksand", "Fira Sans", "Alef"]

  /** Every family the editor offers has its own stack, so the fallback serves only imported names. */
  lemma FontOptionsHaveStacks(family: string)
    requires family in FontOptions
    ensures FontStack(family).Some?
  {
  }

  /** The family a missing (empty) `fontFamily` is drawn with. */
  function EffectiveFamily(family: string): (f: string)
    ensures f != ""
    ensures family != "" ==> f == family
  {
    if family == "" then "Inter" else family
  }

  /** `window.devicePixelRatio || 1`: a ratio reported as 0 counts as 1. */
  function EffectiveDpr(dpr: real): (d: real)
    ensures d != 0.0
    ensures dpr != 0.0 ==> d == dpr
  {
    if dpr == 0.0 then 1.0 else dpr
  }

  /** A length in CSS pixels measured in device pixels. */
  function DevicePixels(x: real, dpr: real): real
  {
    x * EffectiveDpr(dpr)
  }

  // ---- line layout ----

  /** The line spacing, as a multiple of the font size. */
  const LineSpacing: real := 1.2

  /** One `fillText(line, x, y)` call. */
  datatype Draw = Draw(line: string, x: real, y: real)

  /** Where the first line's centre goes: the block of `n` lines is centred in the height. */
  function StartY(height: real, n: nat, fontSize: real): real
  {
    (height - fontSize * (n as real) * LineSpacing) / 2.0 + fontSize * LineSpacing / 2.0
  }

  /** The centre of line `i` of `n`. */
  function LineY(height: real, n: nat, fontSize: real, ty: real, i: nat): real
  {
    StartY(height, n, fontSize) + (i as real) * fontSize * LineSpacing + ty
  }

  /** The draw calls for `lines`, in order: every line at the same x, line `i` at `LineY(.., i)`. */
  function Layout(lines: seq<string>, width: real, height: real, fontSize: real, tx: real, ty: real): (r: seq<Draw>)
    ensures |r| == |lines|
    ensures forall i :: 0 <= i < |r| ==> r[i].line == lines[i]
  {
    seq(|lines|, i requires 0 <= i < |lines| =>
      Draw(lines[i], width / 2.0 + tx, LineY(height, |lines|, fontSize, ty, i)))
  }

  /** Consecutive lines are exactly `1.2 * fontSize` apart. */
  lemma LineSpacingExact(height: real, n: nat, fontSize: real, ty: real, i: nat)
    ensures LineY(height, n, fontSize, ty, i + 1) - LineY(height, n, fontSize, ty, i) == fontSize * LineSpacing
  {
    assert ((i + 1) as real) * fontSize * LineSpacing == (i as real) * fontSize * LineSpacing + fontSize * LineSpacing;
  }

  /** With no vertical offset the first and last line centres are symmetric about the middle. */
  lemma LayoutCentred(height: real, n: nat, fontSize: real)
    requires n >= 1
    ensures LineY(height, n, fontSize, 0.0, 0) + LineY(height, n, fontSize, 0.0, n - 1) == height
  {
    var f := fontSize * LineSpacing;
    assert fontSize * (n as real) * LineSpacing == (n as real) * f;
    assert ((n - 1) as real) * fontSize * LineSpacing == (n as real) * f - f;
  }

  /** The vertical offset moves every line by the same amount; the horizontal one moves x alike. */
  lemma LayoutOffsets(lines: seq<string>, width: real, height: real, fontSize: real, tx: real, ty: real, i: nat)
    requires i < |lines|
    ensures Layout(lines, width, height, fontSize, tx, ty)[i].y == Layout(lines, width, height, fontSize, 0.0, 0.0)[i].y + ty
    ensures Layout(lines, width, height, fontSize, tx, ty)[i].x == width / 2.0 + tx
  {
  }

  /** The lines are the text's `\n`-separated pieces: one more than there are line breaks, and they join back to the text. */
  lemma LinesOfText(text: string)
    ensures |Split(text, '\n')| == Count(text, '\n') + 1
    ensures Join(Split(text, '\n'), '\n') == text
  {
    SplitLength(text, '\n');
    JoinSplit(text, '\n');
  }

  // ---- the canvas ----

  /** What the last update did to the canvas before drawing. */
  datatype Prepare = Reallocated | Cleared

  /** The offscreen canvas the mask is drawn on. */
  class TextCanvas {
    var width: real
    var height: real
    var lastPrepare: Prepare
    var font: string
    var draws: seq<Draw>

    constructor ()
      ensures width == 300.0 && height == 150.0 && draws == []
    {
      width := 300.0;
      height := 150.0;
      lastPrepare := Reallocated;
      font := "10px sans-serif";
      draws := [];
    }

    /**
      `updateTextTexture`: resizes the canvas to the container in device
      pixels (assigning the size only when it differs, which also wipes it,
      and otherwise clearing it), sets the font with the size scaled by the
      pixel ratio, and draws every line with the scaled offsets.
     */
    method UpdateTextTexture(s: Settings, clientWidth: real, clientHeight: real, dpr: real, show: real -> string)
      modifies this
      ensures width == DevicePixels(clientWidth, dpr) && height == DevicePixels(clientHeight, dpr)
      ensures lastPrepare == (if old(width) != width || old(height) != height then Reallocated else Cleared)
      ensures font == GetCanvasFont(EffectiveFamily(s.fontFamily), s.fontWeight, DevicePixels(s.fontSize, dpr), show)
      ensures draws == Layout(Split(s.text, '\n'), width, height, DevicePixels(s.fontSize, dpr),
        DevicePixels(s.textTranslateX, dpr), DevicePixels(s.textTranslateY, dpr))
    {
      var w := DevicePixels(clientWidth, dpr);
      var h := DevicePixels(clientHeight, dpr);
      if width != w || height != h {
        width := w;
        height := h;
        lastPrepare := Reallocated;
      } else {
        lastPrepare := Cleared;
      }
      draws := [];

      var fontSize := DevicePixels(s.fontSize, dpr);
      font := GetCanvasFont(EffectiveFamily(s.fontFamily), s.fontWeight, fontSize, show);

      var lines := Split(s.text, '\n');
      var tx := DevicePixels(s.textTranslateX, dpr);
      var ty := DevicePixels(s.textTranslateY, dpr);
      var centerX := w / 2.0;
      var prepared := lastPrepare;
      var chosenFont := font;
      for i := 0 to |lines|
        invariant width == w && height == h && lastPrepare == prepared && font == chosenFont
        invariant |draws| == i
        invariant forall k :: 0 <= k < i ==> draws[k] == Draw(lines[k], centerX + tx, LineY(h, |lines|, fontSize, ty, k))
      {
        var y := LineY(h, |lines|, fontSize, ty, i);
        var x := centerX + tx;
        draws := draws + [Draw(lines[i], x, y)];
      }
      assert draws == Layout(lines, w, h, fontSize, tx, ty);
    }
  }
}
