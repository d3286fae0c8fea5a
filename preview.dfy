/**
  The preview component's lifetime: the mount builds the first material and
  the overlay and draws the text mask; a change of pattern swaps the mesh's
  material; every animation frame resizes when the container changed, then
  pushes the clock and the settings into both materials; the unmount
  releases the GPU objects.

  Materials are handles into `materials` (every material ever created, in
  creation order); `disposed` is the set of handles released so far.
 */
module Preview {
  import opened Wrappers
  import opened Config
  import opened Materials
  import opened TextMask

  /** A CSS length in device pixels, with the frame loop's raw pixel ratio. */
  function Scaled(x: real, dpr: real): real
  {
    x * dpr
  }

  // ---- the resize check ----

  /**
    The resize check as written: the renderer's size (which `setSize`
    records in CSS pixels) is compared with the container's size in device
    pixels.
   */
  predicate ResizeNeededAsWritten(rendererSize: (real, real), clientWidth: real, clientHeight: real, dpr: real)
  {
    rendererSize.0 != Scaled(clientWidth, dpr) || rendererSize.1 != Scaled(clientHeight, dpr)
  }

  /** As written, with a pixel ratio other than 1 the check fires again on the very next frame after a resize, for ever. */
  lemma ResizeNeverSettles(clientWidth: real, clientHeight: real, dpr: real)
    requires dpr != 1.0 && clientWidth != 0.0
    ensures ResizeNeededAsWritten((clientWidth, clientHeight), clientWidth, clientHeight, dpr)
  {
    assert Scaled(clientWidth, dpr) - clientWidth == clientWidth * (dpr - 1.0);
    assert clientWidth * (dpr - 1.0) != 0.0;
  }

  /** The resize check compared in the unit `setSize` records: CSS pixels. */
  predicate ResizeNeeded(rendererSize: (real, real), clientWidth: real, clientHeight: real)
  {
    rendererSize != (clientWidth, clientHeight)
  }

  /** The rendering side of the component. */
  class ShaderPreview {
    var activeShaderRef: string
    var materials: seq<Material>
    var materialRef: nat
    var meshMaterial: nat
    var disposed: set<nat>
    var overlay: Overlay
    var rendererSize: (real, real)
    var targetSize: (real, real)
    var released: bool
    /** The material the mount created, which the cleanup captured. */
    const mountMaterial: nat
    /** The pixel ratio the animation loop read once, when its effect started. */
    const loopDpr: real
    /** The text mask's canvas texture and the render target's texture. */
    const mask: nat
    const renderTarget: nat
    const canvas: TextCanvas

    /**
      The live state: the mesh shows the current material, it runs the
      program the remembered pattern id selects and has all its uniforms, and
      every other material ever created has been disposed.
     */
    predicate Valid()
      reads this
    {
      materialRef < |materials| && meshMaterial == materialRef && mountMaterial < |materials| &&
      materials[materialRef].program == ProgramFor(activeShaderRef) &&
      MaterialKeys(ProgramFor(activeShaderRef)) <= materials[materialRef].uniforms.Keys &&
      (forall h :: h in disposed ==> h < |materials|) &&
      (forall h :: 0 <= h < |materials| ==> (h in disposed <==> h != materialRef))
    }

    /** The mount: the first material, the initial overlay and the first draw of the text mask. */
    constructor (s: Settings, clientWidth: real, clientHeight: real, dpr: real, show: real -> string,
                 canvasSize: (real, real), mask: nat, renderTarget: nat)
      ensures Valid() && fresh(canvas)
      ensures materials == [CreateMaterialForType(s.activeShader, mask)] && materialRef == 0
      ensures mountMaterial == 0 && disposed == {} && activeShaderRef == s.activeShader
      ensures overlay == OverlayInitial() && rendererSize == canvasSize && targetSize == (0.0, 0.0)
      ensures !released && loopDpr == dpr
      ensures canvas.width == DevicePixels(clientWidth, dpr) && canvas.height == DevicePixels(clientHeight, dpr)
      ensures canvas.font == GetCanvasFont(EffectiveFamily(s.fontFamily), s.fontWeight, DevicePixels(s.fontSize, dpr), show)
      ensures canvas.draws == Layout(JsStrings.Split(s.text, '\n'), canvas.width, canvas.height,
        DevicePixels(s.fontSize, dpr), DevicePixels(s.textTranslateX, dpr), DevicePixels(s.textTranslateY, dpr))
    {
      var c := new TextCanvas();
      c.UpdateTextTexture(s, clientWidth, clientHeight, dpr, show);
      canvas := c;
      this.mask := mask;
      this.renderTarget := renderTarget;
      loopDpr := dpr;
      activeShaderRef := s.activeShader;
      materials := [CreateMaterialForType(s.activeShader, mask)];
      materialRef := 0;
      meshMaterial := 0;
      mountMaterial := 0;
      disposed := {};
      overlay := OverlayInitial();
      rendererSize := canvasSize;
      targetSize := (0.0, 0.0);
      released := false;
      MaterialAcceptsFrames(s, mask);
    }

    /**
      The pattern-change effect: for a new id, build its material, put it on
      the mesh, make it current and only then dispose of the old one; the
      same id changes nothing.
     */
    method SwapMaterial(activeShader: string)
      requires Valid()
      modifies this
      ensures Valid()
      ensures activeShader == old(activeShaderRef) ==>
        materials == old(materials) && materialRef == old(materialRef) && disposed == old(disposed) &&
        activeShaderRef == old(activeShaderRef)
      ensures activeShader != old(activeShaderRef) ==>
        activeShaderRef == activeShader &&
        materials == old(materials) + [CreateMaterialForType(activeShader, mask)] &&
        materialRef == |old(materials)| && disposed == old(disposed) + {old(materialRef)}
      ensures materials[materialRef] == CreateMaterialForType(activeShader, mask) || activeShader == old(activeShaderRef)
      ensures overlay == old(overlay) && rendererSize == old(rendererSize) && targetSize == old(targetSize)
      ensures released == old(released)
    {
      if activeShaderRef != activeShader {
        activeShaderRef := activeShader;
        var oldMat := materialRef;
        var newMat := CreateMaterialForType(activeShader, mask);
        materials := materials + [newMat];
        meshMaterial := |materials| - 1;
        materialRef := meshMaterial;
        disposed := disposed + {oldMat};
        MaterialKeysOfCreated(activeShader, mask);
      }
    }

    /**
      One animation frame: resize the renderer, the render target and the
      text mask when the check as written fires, then write the clock, the
      size and the active pattern's settings into the current material and
      the same clock, size and the global effects into the overlay. The loop
      scales by the ratio it read when it started; the text mask reads the
      window's current ratio.
     */
    method Frame(s: Settings, timeMs: real, clientWidth: real, clientHeight: real, windowDpr: real, show: real -> string)
      requires Valid() && s.activeShader == activeShaderRef
      modifies this, canvas
      ensures Valid()
      ensures activeShaderRef == old(activeShaderRef) && materialRef == old(materialRef) && disposed == old(disposed)
      ensures |materials| == |old(materials)|
      ensures forall h :: 0 <= h < |materials| && h != materialRef ==> materials[h] == old(materials)[h]
      ensures materials[materialRef] == SyncFrame(old(materials)[materialRef], s, Elapsed(s, timeMs),
        Scaled(clientWidth, loopDpr), Scaled(clientHeight, loopDpr))
      ensures overlay == SyncOverlay(s, Elapsed(s, timeMs), Scaled(clientWidth, loopDpr), Scaled(clientHeight, loopDpr), renderTarget)
      // both passes of a frame see the same clock
      ensures materials[materialRef].uniforms[UTime] == Scalar(overlay.time)
      // the current material encodes the active pattern's whole record
      ensures PatternOf(s.activeShader).Some? ==>
        ReadConfig(materials[materialRef].uniforms, materials[materialRef].program) == ConfigOf(s, materials[materialRef].program)
      ensures ResizeNeededAsWritten(old(rendererSize), clientWidth, clientHeight, loopDpr) ==>
        rendererSize == (clientWidth, clientHeight) &&
        targetSize == (Scaled(clientWidth, loopDpr), Scaled(clientHeight, loopDpr)) &&
        canvas.width == DevicePixels(clientWidth, windowDpr) && canvas.height == DevicePixels(clientHeight, windowDpr) &&
        canvas.font == GetCanvasFont(EffectiveFamily(s.fontFamily), s.fontWeight, DevicePixels(s.fontSize, windowDpr), show) &&
        canvas.draws == Layout(JsStrings.Split(s.text, '\n'), canvas.width, canvas.height,
          DevicePixels(s.fontSize, windowDpr), DevicePixels(s.textTranslateX, windowDpr), DevicePixels(s.textTranslateY, windowDpr))
      ensures !ResizeNeededAsWritten(old(rendererSize), clientWidth, clientHeight, loopDpr) ==>
        rendererSize == old(rendererSize) && targetSize == old(targetSize) && unchanged(canvas)
      // once it has fired, the check fires again on the next frame with the same container
      ensures (ResizeNeededAsWritten(old(rendererSize), clientWidth, clientHeight, loopDpr) &&
               loopDpr != 1.0 && clientWidth != 0.0) ==>
        ResizeNeededAsWritten(rendererSize, clientWidth, clientHeight, loopDpr)
      ensures released == old(released)
    {
      Resize(s, clientWidth, clientHeight, windowDpr, show);
      SyncUniforms(s, timeMs, Scaled(clientWidth, loopDpr), Scaled(clientHeight, loopDpr));
    }

    /**
      The resize step of a frame as written: when the renderer's recorded
      size differs from the container's size in device pixels, the renderer
      takes the CSS size, the render target the device-pixel size and the
      text mask is drawn again; the materials are not touched.
     */
    method Resize(s: Settings, clientWidth: real, clientHeight: real, windowDpr: real, show: real -> string)
      modifies this, canvas
      ensures activeShaderRef == old(activeShaderRef) && materials == old(materials) && materialRef == old(materialRef)
      ensures meshMaterial == old(meshMaterial) && disposed == old(disposed) && overlay == old(overlay)
      ensures released == old(released)
      ensures ResizeNeededAsWritten(old(rendererSize), clientWidth, clientHeight, loopDpr) ==>
        rendererSize == (clientWidth, clientHeight) &&
        targetSize == (Scaled(clientWidth, loopDpr), Scaled(clientHeight, loopDpr)) &&
        canvas.width == DevicePixels(clientWidth, windowDpr) && canvas.height == DevicePixels(clientHeight, windowDpr) &&
        canvas.font == GetCanvasFont(EffectiveFamily(s.fontFamily), s.fontWeight, DevicePixels(s.fontSize, windowDpr), show) &&
        canvas.draws == Layout(JsStrings.Split(s.text, '\n'), canvas.width, canvas.height,
          DevicePixels(s.fontSize, windowDpr), DevicePixels(s.textTranslateX, windowDpr), DevicePixels(s.textTranslateY, windowDpr))
      ensures !ResizeNeededAsWritten(old(rendererSize), clientWidth, clientHeight, loopDpr) ==>
        rendererSize == old(rendererSize) && targetSize == old(targetSize) && unchanged(canvas)
      ensures (ResizeNeededAsWritten(old(rendererSize), clientWidth, clientHeight, loopDpr) &&
               loopDpr != 1.0 && clientWidth != 0.0) ==>
        ResizeNeededAsWritten(rendererSize, clientWidth, clientHeight, loopDpr)
    {
      if ResizeNeededAsWritten(rendererSize, clientWidth, clientHeight, loopDpr) {
        rendererSize := (clientWidth, clientHeight);
        targetSize := (Scaled(clientWidth, loopDpr), Scaled(clientHeight, loopDpr));
        canvas.UpdateTextTexture(s, clientWidth, clientHeight, windowDpr, show);
        if loopDpr != 1.0 && clientWidth != 0.0 {
          ResizeNeverSettles(clientWidth, clientHeight, loopDpr);
        }
      }
    }

    /**
      The resize step with the corrected check, comparing CSS size with CSS
      size: it fires only when the container changed, and after it the same
      container does not fire it again.
     */
    method ResizeCorrected(s: Settings, clientWidth: real, clientHeight: real, windowDpr: real, show: real -> string)
      modifies this, canvas
      ensures activeShaderRef == old(activeShaderRef) && materials == old(materials) && materialRef == old(materialRef)
      ensures meshMaterial == old(meshMaterial) && disposed == old(disposed) && overlay == old(overlay)
      ensures released == old(released)
      ensures rendererSize == (clientWidth, clientHeight)
      ensures !ResizeNeeded(rendererSize, clientWidth, clientHeight)
      ensures ResizeNeeded(old(rendererSize), clientWidth, clientHeight) ==>
        targetSize == (Scaled(clientWidth, loopDpr), Scaled(clientHeight, loopDpr)) &&
        canvas.width == DevicePixels(clientWidth, windowDpr) && canvas.height == DevicePixels(clientHeight, windowDpr) &&
        canvas.font == GetCanvasFont(EffectiveFamily(s.fontFamily), s.fontWeight, DevicePixels(s.fontSize, windowDpr), show) &&
        canvas.draws == Layout(JsStrings.Split(s.text, '\n'), canvas.width, canvas.height,
          DevicePixels(s.fontSize, windowDpr), DevicePixels(s.textTranslateX, windowDpr), DevicePixels(s.textTranslateY, windowDpr))
      ensures !ResizeNeeded(old(rendererSize), clientWidth, clientHeight) ==>
        targetSize == old(targetSize) && unchanged(canvas)
    {
      if ResizeNeeded(rendererSize, clientWidth, clientHeight) {
        rendererSize := (clientWidth, clientHeight);
        targetSize := (Scaled(clientWidth, loopDpr), Scaled(clientHeight, loopDpr));
        canvas.UpdateTextTexture(s, clientWidth, clientHeight, windowDpr, show);
      }
    }

    /**
      The uniform step of a frame: one elapsed time, computed once, goes to
      the current material together with the size and the active pattern's
      settings, and to the overlay together with the global effects.
     */
    method SyncUniforms(s: Settings, timeMs: real, width: real, height: real)
      requires Valid() && s.activeShader == activeShaderRef
      modifies this
      ensures Valid()
      ensures activeShaderRef == old(activeShaderRef) && materialRef == old(materialRef) && disposed == old(disposed)
      ensures rendererSize == old(rendererSize) && targetSize == old(targetSize) && released == old(released)
      ensures |materials| == |old(materials)|
      ensures forall h :: 0 <= h < |materials| && h != materialRef ==> materials[h] == old(materials)[h]
      ensures materials[materialRef] == SyncFrame(old(materials)[materialRef], s, Elapsed(s, timeMs), width, height)
      ensures overlay == SyncOverlay(s, Elapsed(s, timeMs), width, height, renderTarget)
    {
      var elapsed := Elapsed(s, timeMs);
      materials := materials[materialRef := SyncFrame(materials[materialRef], s, elapsed, width, height)];
      overlay := SyncOverlay(s, elapsed, width, height, renderTarget);
    }

    /**
      The cleanup as written: it disposes of the material the mount created,
      so after any pattern change the current material is never released.
     */
    method UnmountAsWritten()
      requires Valid()
      modifies this
      ensures materials == old(materials) && materialRef == old(materialRef) && meshMaterial == old(meshMaterial)
      ensures released && disposed == old(disposed) + {mountMaterial}
      ensures mountMaterial != materialRef ==> materialRef !in disposed
    {
      released := true;
      disposed := disposed + {mountMaterial};
    }

    /** The cleanup disposing of the current material: afterwards every material ever created is released. */
    method Unmount()
      requires Valid()
      modifies this
      ensures materials == old(materials) && materialRef == old(materialRef) && meshMaterial == old(meshMaterial)
      ensures released && disposed == old(disposed) + {materialRef}
      ensures forall h :: 0 <= h < |materials| ==> h in disposed
    {
      released := true;
      disposed := disposed + {materialRef};
    }
  }

  /** A created material has every name its program needs. */
  lemma MaterialKeysOfCreated(id: string, mask: nat)
    ensures MaterialKeys(ProgramFor(id)) <= CreateMaterialForType(id, mask).uniforms.Keys
  {
  }
}
