/** `FigureCanvasDxf` (mpldxf/backend_dxf.py): the canvas that hands out a renderer and keeps
    it while the figure's size and resolution stay the same. */
module Canvas {
  import opened Geometry
  import opened Colors
  import opened Renderer

  /** `FigureCanvasDxf.DXFVERSION`. */
  const DxfVersion: string := "AC1032"

  /** The key a renderer is cached under: figure width, height and dpi. */
  datatype RendererKey = RendererKey(width: real, height: real, dpi: Dpi)

  /** A new renderer is needed when there is none yet or the key has changed. */
  predicate NeedsNewRenderer(hasRenderer: bool, lastKey: RendererKey, key: RendererKey) {
    !hasRenderer || lastKey != key
  }

  /** Asking again with the key just stored keeps the renderer. */
  lemma SameKeyKeepsRenderer(key: RendererKey)
    ensures !NeedsNewRenderer(true, key, key)
    ensures forall other :: NeedsNewRenderer(true, key, other) <==> other != key
  {
  }

  class FigureCanvasDxf {
    const palette: Palette
    const kernel: Kernel

    /** `dxf_renderer`; null until the first request. */
    var renderer: RendererDxf?

    /** `_lastKey`; meaningful once `renderer` is set, since both are assigned together. */
    var lastKey: RendererKey

    constructor (palette: Palette, kernel: Kernel)
      ensures this.palette == palette && this.kernel == kernel
      ensures renderer == null
    {
      this.palette := palette;
      this.kernel := kernel;
      renderer := null;
      lastKey := RendererKey(0.0, 0.0, 72);
    }

    /** `get_dxf_renderer`: a new, empty renderer for a new key; otherwise the same renderer,
      cleared when asked. */
    method GetDxfRenderer(width: real, height: real, dpi: Dpi, cleared: bool) returns (r: RendererDxf)
      modifies this, renderer
      ensures renderer == r
      ensures lastKey == RendererKey(width, height, dpi)
      ensures NeedsNewRenderer(old(renderer) != null, old(lastKey), RendererKey(width, height, dpi)) ==>
        fresh(r)
        && r.width == width && r.height == height && r.dxfversion == DxfVersion
        && r.env == Env(palette, kernel, dpi)
        && r.header == InitialHeader(width, height)
        && r.modelspace == [] && r.groupd == []
      ensures !NeedsNewRenderer(old(renderer) != null, old(lastKey), RendererKey(width, height, dpi)) ==>
        r == old(renderer)
        && r.header == (if cleared then InitialHeader(r.width, r.height) else old(r.header))
        && r.modelspace == (if cleared then [] else old(r.modelspace))
        && r.groupd == old(r.groupd)
    {
      var key := RendererKey(width, height, dpi);
      if renderer == null || lastKey != key {
        r := new RendererDxf(width, height, dpi, DxfVersion, palette, kernel);
        renderer := r;
        lastKey := key;
      } else {
        r := renderer;
        if cleared {
          r.Clear();
        }
      }
    }
  }
}
