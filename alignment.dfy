/** Text alignment: `RendererDxf._map_align` and the alignment key built and looked up in
    `RendererDxf.draw_text` (mpldxf/backend_dxf.py). */
module Alignment {
  import opened Results

  /** `_map_align` raises `NotImplementedError` for a keyword outside its vocabulary. */
  datatype AlignError = NotImplemented

  /** The keywords that are simply upper-cased. */
  const PlainKeywords: set<string> := {"right", "center", "left", "top", "bottom", "middle"}

  /** Every keyword `_map_align` accepts. */
  const Keywords: set<string> := PlainKeywords + {"baseline", "center_baseline"}

  /** Every value `_map_align` can return. */
  const MappedValues: set<string> := {"", "RIGHT", "CENTER", "LEFT", "TOP", "BOTTOM", "MIDDLE"}

  /** ASCII upper-casing, which is what `str.upper` does on the keywords above. */
  function UpperChar(c: char): char {
    if 'a' <= c <= 'z' then (c as int - 32) as char else c
  }

  function Upper(s: string): (u: string)
    ensures |u| == |s|
    ensures forall i :: 0 <= i < |s| ==> u[i] == UpperChar(s[i])
  {
    seq(|s|, i requires 0 <= i < |s| => UpperChar(s[i]))
  }

  /** The upper-case spelling of each plain keyword. */
  lemma UpperPlainKeywords()
    ensures Upper("right") == "RIGHT" && Upper("center") == "CENTER" && Upper("left") == "LEFT"
    ensures Upper("top") == "TOP" && Upper("bottom") == "BOTTOM" && Upper("middle") == "MIDDLE"
  {
  }

  /** Translate a matplotlib alignment keyword to the ezdxf spelling; `vert` is set for the
      vertical alignment, where CENTER is called MIDDLE. */
  function MapAlign(align: string, vert: bool): (r: Result<string, AlignError>)
    ensures r.Success? <==> align in Keywords
    ensures r.Success? ==> r.value in MappedValues
    ensures r.Success? && vert ==> r.value != "CENTER"
    ensures r.Success? && r.value == "" <==> align == "baseline"
  {
    UpperPlainKeywords();
    var mapped :=
      if align in PlainKeywords then Success(Upper(align))
      else if align == "baseline" then Success("")
      else if align == "center_baseline" then Success("MIDDLE")
      else Failure(NotImplemented);
    if vert && mapped == Success("CENTER") then Success("MIDDLE") else mapped
  }

  /** The whole of `_map_align`, keyword by keyword. */
  const MapAlignTable: map<(string, bool), string> := map[
    ("right", false) := "RIGHT", ("right", true) := "RIGHT",
    ("center", false) := "CENTER", ("center", true) := "MIDDLE",
    ("left", false) := "LEFT", ("left", true) := "LEFT",
    ("top", false) := "TOP", ("top", true) := "TOP",
    ("bottom", false) := "BOTTOM", ("bottom", true) := "BOTTOM",
    ("middle", false) := "MIDDLE", ("middle", true) := "MIDDLE",
    ("baseline", false) := "", ("baseline", true) := "",
    ("center_baseline", false) := "MIDDLE", ("center_baseline", true) := "MIDDLE"
  ]

  /** `MapAlign` agrees with the table on every keyword and raises outside it. */
  lemma MapAlignMatchesTable(align: string, vert: bool)
    ensures (align, vert) in MapAlignTable ==> MapAlign(align, vert) == Success(MapAlignTable[(align, vert)])
    ensures (align, vert) !in MapAlignTable ==> MapAlign(align, vert) == Failure(NotImplemented)
  {
    UpperPlainKeywords();
  }

  /** The alignment key: the vertical part, an underscore only when that part is not empty,
      then the horizontal part. */
  function AlignKey(valign: string, halign: string): string {
    (if valign != "" then valign + "_" else "") + halign
  }

  /** The position of the first occurrence of `c` in `s`. */
  function IndexOf(s: string, c: char): (i: nat)
    requires c in s
    ensures i < |s| && s[i] == c
    ensures forall k :: 0 <= k < i ==> s[k] != c
  {
    if s[0] == c then 0 else 1 + IndexOf(s[1..], c)
  }

  /** A position holding `c` with no `c` before it is the first occurrence. */
  lemma {:induction false} IndexOfAt(s: string, c: char, j: nat)
    requires j < |s| && s[j] == c
    requires forall k :: 0 <= k < j ==> s[k] != c
    ensures IndexOf(s, c) == j
  {
    if j > 0 {
      IndexOfAt(s[1..], c, j - 1);
    }
  }

  /** Reads an alignment key back into its vertical and horizontal parts. */
  function SplitKey(key: string): (string, string) {
    if '_' in key then var i := IndexOf(key, '_'); (key[..i], key[i + 1..]) else ("", key)
  }

  /** The key loses nothing: when neither part holds an underscore (no mapped value does),
      the two parts can be read back from it. */
  lemma {:induction false} AlignKeyRoundTrip(valign: string, halign: string)
    requires '_' !in valign && '_' !in halign
    ensures SplitKey(AlignKey(valign, halign)) == (valign, halign)
  {
    var key := AlignKey(valign, halign);
    if valign != "" {
      assert key == valign + "_" + halign;
      assert key[|valign|] == '_';
      assert forall k :: 0 <= k < |valign| ==> key[k] == valign[k];
      assert '_' in key;
      IndexOfAt(key, '_', |valign|);
      assert key[..|valign|] == valign;
      assert key[|valign| + 1..] == halign;
    } else {
      assert key == halign;
    }
  }

  /** The values of `_map_align` carry no underscore, so every key is read back exactly. */
  lemma MappedKeyRoundTrip(valign: string, halign: string)
    requires valign in MappedValues && halign in MappedValues
    ensures SplitKey(AlignKey(valign, halign)) == (valign, halign)
  {
    AlignKeyRoundTrip(valign, halign);
  }

  /** ezdxf's `TextEntityAlignment` members that the renderer's table names. */
  datatype TextAlignment =
    | TopLeft | TopCenter | TopRight
    | MiddleLeft | MiddleCenter | MiddleRight
    | BottomLeft | BottomCenter | BottomRight
    | Left | Center | Right

  /** The enumeration member's name, which is also its key in the renderer's table. */
  function Name(a: TextAlignment): string {
    match a
    case TopLeft => "TOP_LEFT"
    case TopCenter => "TOP_CENTER"
    case TopRight => "TOP_RIGHT"
    case MiddleLeft => "MIDDLE_LEFT"
    case MiddleCenter => "MIDDLE_CENTER"
    case MiddleRight => "MIDDLE_RIGHT"
    case BottomLeft => "BOTTOM_LEFT"
    case BottomCenter => "BOTTOM_CENTER"
    case BottomRight => "BOTTOM_RIGHT"
    case Left => "LEFT"
    case Center => "CENTER"
    case Right => "RIGHT"
  }

  /** The renderer's `alignment_map`. */
  const AlignmentMap: map<string, TextAlignment> := map[
    "TOP_LEFT" := TopLeft, "TOP_CENTER" := TopCenter, "TOP_RIGHT" := TopRight,
    "MIDDLE_LEFT" := MiddleLeft, "MIDDLE_CENTER" := MiddleCenter, "MIDDLE_RIGHT" := MiddleRight,
    "BOTTOM_LEFT" := BottomLeft, "BOTTOM_CENTER" := BottomCenter, "BOTTOM_RIGHT" := BottomRight,
    "LEFT" := Left, "CENTER" := Center, "RIGHT" := Right
  ]

  /** `alignment_map.get(key, BOTTOM_LEFT)`: a key in the table gives the member of that name,
      any other key falls back to BOTTOM_LEFT. */
  function LookupAlignment(key: string): (a: TextAlignment)
    ensures key in AlignmentMap ==> Name(a) == key
    ensures key !in AlignmentMap ==> a == BottomLeft
  {
    if key in AlignmentMap then AlignmentMap[key] else BottomLeft
  }

  /** Every member is reached by its own name, so the table covers the twelve members. */
  lemma LookupName(a: TextAlignment)
    ensures Name(a) in AlignmentMap && LookupAlignment(Name(a)) == a
  {
  }

  /** The alignment `draw_text` passes to `set_placement`, from the text's horizontal and
      vertical alignment, its angle and its rotation mode. At exactly 90 degrees with a
      rotation mode other than "anchor" the horizontal part is RIGHT and `ha` is not read. */
  function ResolveAlignment(ha: string, va: string, angle: real, rotationMode: string): Result<TextAlignment, AlignError> {
    var halign := if angle == 90.0 && rotationMode != "anchor" then Success("RIGHT") else MapAlign(ha, false);
    if halign.Failure? then Failure(halign.error)
    else
      var valign := MapAlign(va, true);
      if valign.Failure? then Failure(valign.error)
      else Success(LookupAlignment(AlignKey(valign.value, halign.value)))
  }

  /** The alignment is resolved exactly when `va` is a keyword and `ha` is one or is not read. */
  lemma ResolveSucceeds(ha: string, va: string, angle: real, rotationMode: string)
    ensures ResolveAlignment(ha, va, angle, rotationMode).Success?
        <==> va in Keywords && (ha in Keywords || (angle == 90.0 && rotationMode != "anchor"))
  {
  }

  /** At 90 degrees outside the "anchor" rotation mode the result does not depend on `ha`,
      and it is the key of `va` with RIGHT. */
  lemma RotatedTextIgnoresHa(ha1: string, ha2: string, va: string, rotationMode: string)
    requires rotationMode != "anchor"
    ensures ResolveAlignment(ha1, va, 90.0, rotationMode) == ResolveAlignment(ha2, va, 90.0, rotationMode)
    ensures va in Keywords ==>
      ResolveAlignment(ha1, va, 90.0, rotationMode) == Success(LookupAlignment(AlignKey(MapAlign(va, true).value, "RIGHT")))
  {
  }

  /** Outside the 90-degree override both keywords are mapped and the key is looked up. */
  lemma ResolveUsesBothKeywords(ha: string, va: string, angle: real, rotationMode: string)
    requires angle != 90.0 || rotationMode == "anchor"
    requires ha in Keywords && va in Keywords
    ensures ResolveAlignment(ha, va, angle, rotationMode)
         == Success(LookupAlignment(AlignKey(MapAlign(va, true).value, MapAlign(ha, false).value)))
  {
  }

  /** Top over center is TOP_CENTER. */
  lemma TopCenterExample()
    ensures ResolveAlignment("center", "top", 0.0, "default") == Success(TopCenter)
  {
    MapAlignMatchesTable("center", false);
    MapAlignMatchesTable("top", true);
    assert AlignKey("TOP", "CENTER") == "TOP_CENTER";
  }

  /** "center_baseline" over "baseline" makes the key "MIDDLE_", which is not in the table. */
  lemma MiddleUnderscoreFallsBack()
    ensures AlignKey(MapAlign("center_baseline", true).value, MapAlign("baseline", false).value) == "MIDDLE_"
    ensures ResolveAlignment("baseline", "center_baseline", 0.0, "default") == Success(BottomLeft)
  {
    MapAlignMatchesTable("center_baseline", true);
    MapAlignMatchesTable("baseline", false);
    assert AlignKey("MIDDLE", "") == "MIDDLE_";
  }

  /** "baseline" over "center_baseline" makes the key "MIDDLE" with no separator; it is not in
      the table either. */
  lemma BareMiddleFallsBack()
    ensures AlignKey(MapAlign("baseline", true).value, MapAlign("center_baseline", false).value) == "MIDDLE"
    ensures ResolveAlignment("center_baseline", "baseline", 0.0, "default") == Success(BottomLeft)
  {
    MapAlignMatchesTable("baseline", true);
    MapAlignMatchesTable("center_baseline", false);
  }

  /** A rotated label outside the "anchor" mode is RIGHT even when `ha` is no keyword at all. */
  lemma RotatedExample()
    ensures ResolveAlignment("bogus", "top", 90.0, "default") == Success(TopRight)
  {
    MapAlignMatchesTable("top", true);
    assert AlignKey("TOP", "RIGHT") == "TOP_RIGHT";
  }
}
