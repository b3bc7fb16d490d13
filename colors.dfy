/** Colour quantisation: `rgb_to_dxf` in mpldxf/backend_dxf.py. */
module Colors {
  import opened Results

  /** An RGB colour with an optional alpha channel; channels are nominally in 0.0 .. 1.0. */
  datatype Rgba = Rgba(r: real, g: real, b: real, alpha: Option<real>)

  /** An index into the DXF colour palette (the AutoCAD Color Index). */
  type ColorIndex = nat

  /** The palette module the renderer imports: its index for white and its nearest-colour
      lookup on a 0..255 RGB triple. The palette table itself is not part of this model, so
      the lookup is a parameter. */
  datatype Palette = Palette(white: ColorIndex, nearest: (real, real, real) -> ColorIndex)

  /** The absolute tolerance of numpy's `allclose` (1e-08); its relative term vanishes
      because the colour is compared against zeros. */
  const AllcloseAtol: real := 0.00000001

  predicate NearZero(x: real) {
    -AllcloseAtol <= x <= AllcloseAtol
  }

  /** `np.allclose(rgb[:3], np.zeros(3))`: the alpha channel does not take part. */
  predicate IsBlack(c: Rgba) {
    NearZero(c.r) && NearZero(c.g) && NearZero(c.b)
  }

  /** The 0..255 triple looked up in the palette: white in place of black, otherwise
      the first three channels scaled by 255. */
  function Shown(c: Rgba): (real, real, real) {
    if IsBlack(c) then (255.0, 255.0, 255.0) else (255.0 * c.r, 255.0 * c.g, 255.0 * c.b)
  }

  /** The DXF colour index of an optional RGB[A] colour. */
  function RgbToDxf(pal: Palette, rgb: Option<Rgba>): ColorIndex {
    match rgb
    case None => pal.white
    case Some(c) => var (r, g, b) := Shown(c); pal.nearest(r, g, b)
  }

  /** No colour gives the palette's white. */
  lemma NoColorIsWhite(pal: Palette)
    ensures RgbToDxf(pal, None) == pal.white
  {
  }

  /** Black is drawn as the palette entry nearest to white, the same index as (1, 1, 1). */
  lemma BlackIsDrawnAsWhite(pal: Palette, c: Rgba)
    requires IsBlack(c)
    ensures RgbToDxf(pal, Some(c)) == pal.nearest(255.0, 255.0, 255.0)
    ensures RgbToDxf(pal, Some(c)) == RgbToDxf(pal, Some(Rgba(1.0, 1.0, 1.0, None)))
  {
  }

  /** Any colour that is not black is looked up by its first three channels times 255. */
  lemma OtherColorsAreScaled(pal: Palette, c: Rgba)
    requires !IsBlack(c)
    ensures RgbToDxf(pal, Some(c)) == pal.nearest(255.0 * c.r, 255.0 * c.g, 255.0 * c.b)
  {
  }

  /** The alpha channel never affects the index. */
  lemma AlphaIsIgnored(pal: Palette, c: Rgba, alpha: Option<real>)
    ensures RgbToDxf(pal, Some(c)) == RgbToDxf(pal, Some(c.(alpha := alpha)))
  {
  }
}
