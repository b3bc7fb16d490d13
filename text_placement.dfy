/** What `RendererDxf.draw_text` (mpldxf/backend_dxf.py) appends and raises. */
module TextPlacement {
  import opened Results
  import opened Geometry
  import opened Entities
  import opened TextCleanup
  import opened Alignment
  import Colors

  /** The exceptions `draw_text` lets escape: `IndexError` from `s[0]` on an empty string, and
      `NotImplementedError` from `_map_align`. */
  datatype DrawError = EmptyString | UnsupportedAlignment

  /** The parts of matplotlib's `Text` object (`mtext`) that `draw_text` reads: horizontal and
      vertical alignment, rotation mode, and the anchor point already in device space. */
  datatype TextInfo = TextInfo(ha: string, va: string, rotationMode: string, position: (real, real))

  /** The entities appended by one call and the exception it raised, if any. */
  datatype TextDraw = TextDraw(added: seq<Entity>, raised: Option<DrawError>)

  /** `points_to_pixels(size) / 2`: points to pixels at `dpi` (a point is 1/72 inch), halved;
      so 144 heights make `sizePts` inches' worth of pixels. */
  function FontHeight(sizePts: real, dpi: Dpi): (h: real)
    ensures h * 144.0 == sizePts * dpi as real
    ensures sizePts >= 0.0 ==> h >= 0.0
  {
    sizePts / 72.0 * dpi as real / 2.0
  }

  /** One `draw_text` call. Without `mtext` nothing happens. An empty string raises before
      anything is added. Otherwise one TEXT entity is added with the cleaned string; if the
      alignment keywords are not understood the exception comes after the entity was added, so
      it stays with no placement and ezdxf's default LEFT alignment. */
  function DrawTextOutcome(pal: Colors.Palette, dpi: Dpi, gc: GraphicsContext, s: string, sizePts: real, angle: real, mtext: Option<TextInfo>): (out: TextDraw)
    ensures |out.added| <= 1
    ensures mtext.None? ==> out == TextDraw([], None)
    ensures out.raised == Some(EmptyString) <==> mtext.Some? && s == []
    ensures out.raised == Some(UnsupportedAlignment) <==>
      mtext.Some? && s != [] && ResolveAlignment(mtext.value.ha, mtext.value.va, angle, mtext.value.rotationMode).Failure?
    ensures mtext.Some? && s != [] ==> |out.added| == 1
    ensures forall e :: e in out.added ==>
      && e.Text?
      && e.text.rotation == angle
      && e.text.height == FontHeight(sizePts, dpi)
      && e.text.color == Colors.RgbToDxf(pal, gc.rgb)
      && UnicodeMinus !in e.text.content
      && Success(e.text.content) == CleanText(s)
    ensures s != [] && s[0] == '$' ==> forall e :: e in out.added ==> '$' !in e.text.content
    ensures out.raised.None? && mtext.Some? ==>
      out.added[0].text.placement == Some(mtext.value.position)
      && Success(out.added[0].text.align) == ResolveAlignment(mtext.value.ha, mtext.value.va, angle, mtext.value.rotationMode)
  {
    match mtext
    case None => TextDraw([], None)
    case Some(info) =>
      match CleanText(s)
      case Failure(_) => TextDraw([], Some(EmptyString))
      case Success(content) =>
        var text := TextLabel(content, FontHeight(sizePts, dpi), angle, Colors.RgbToDxf(pal, gc.rgb), None, Left);
        match ResolveAlignment(info.ha, info.va, angle, info.rotationMode)
        case Failure(_) => TextDraw([Text(text)], Some(UnsupportedAlignment))
        case Success(a) => TextDraw([Text(text.(placement := Some(info.position), align := a))], None)
  }

  /** A tick label `$\mathbf{5}$` centred under its tick is written as "5", TOP_CENTER. */
  lemma TickLabelExample(pal: Colors.Palette, dpi: Dpi, gc: GraphicsContext, sizePts: real, pos: (real, real))
    ensures DrawTextOutcome(pal, dpi, gc, "$\\mathbf{5}$", sizePts, 0.0, Some(TextInfo("center", "top", "default", pos)))
         == TextDraw([Text(TextLabel("5", FontHeight(sizePts, dpi), 0.0, Colors.RgbToDxf(pal, gc.rgb), Some(pos), TopCenter))], None)
  {
    BoldFiveExample();
    TopCenterExample();
  }
}
