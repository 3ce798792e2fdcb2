/**
 * The pattern tables of the two collage tools. A pattern names, for the four
 * slots top-left, top-right, bottom-left and bottom-right in that order, the
 * variant of the source drawn there.
 */
module Patterns {
  import opened Images
  import opened Wrappers

  type Pattern = p: seq<Variant> | |p| == 4 witness [N, N, N, N]

  /** `patterns` in the command-line tool's `build_collage`. */
  const CliPatterns: seq<Pattern> := [
    [N, H, V, HV],
    [H, N, HV, V],
    [HV, V, H, N],
    [V, HV, N, H],
    [N, N, N, N],
    [N, N, V, V],
    [H, H, N, N],
    [HV, HV, N, N]
  ]

  /** `patterns` in the window's `build_collages`. */
  const GuiPatterns: seq<Pattern> := [
    [N, H, V, HV],
    [H, N, HV, V],
    [HV, V, H, N],
    [V, HV, N, H]
  ]


  /**
   * The usage text's list of pattern indices: for row i, the four variables
   * it names between the brackets of "i = [...]".
   */
  const HelpRows: seq<seq<string>> := [
    ["src_image", "src_imageH", "src_imageV", "src_imageHV"],
    ["src_imageH", "src_image", "src_imageHV", "src_imageV"],
    ["src_imageHV", "src_imageV", "src_imageH", "src_image"],
    ["src_imageV", "src_imageHV", "src_image", "src_imageH"],
    ["src_image", "src_image", "src_image", "src_image"],
    ["src_image", "src_image", "src_imageV", "src_imageV"],
    ["src_imageH", "src_imageH", "src_image", "src_image"],
    ["src_imageHV", "src_imageHV", "src_image", "src_image"]
  ]

  /** The variable of `build_collage` that holds the variant's image. */
  function VariableName(v: Variant): string
  {
    match v
    case N => "src_image"
    case H => "src_imageH"
    case V => "src_imageV"
    case HV => "src_imageHV"
  }

  /** Different variants are held by different variables. */
  lemma VariableNameInjective(v: Variant, w: Variant)
    ensures VariableName(v) == VariableName(w) ==> v == w
  {
    if VariableName(v) == VariableName(w) {
      assert |VariableName(v)| == |VariableName(w)|;
      if |VariableName(v)| == 10 {
        assert VariableName(v)[9] == VariableName(w)[9];
      }
    }
  }

  /** The usage text documents the table row for row and slot for slot. */
  lemma HelpMatchesTable()
    ensures |HelpRows| == |CliPatterns| == 8
    ensures forall i, k :: 0 <= i < 8 && 0 <= k < 4 ==>
      |HelpRows[i]| == 4 && VariableName(CliPatterns[i][k]) == HelpRows[i][k]
  {
  }

  /** Slot k of `p` holds exactly the variant whose variable `row` names in column k. */
  predicate ListedAs(p: Pattern, row: seq<string>)
  {
    |row| == 4 && forall k, v :: 0 <= k < 4 ==> (p[k] == v <==> VariableName(v) == row[k])
  }

  /**
   * `patterns[i]` in the command-line tool: present exactly for the indices
   * the usage text lists, and then the pattern whose slots hold the variants
   * of the variables that text names for row i, and only those.
   */
  function PatternAt(i: nat): (r: Option<Pattern>)
    ensures r.Some? <==> i < |HelpRows|
    ensures r.Some? ==> ListedAs(r.value, HelpRows[i])
  {
    if i < |CliPatterns| then
      HelpMatchesTable();
      assert forall k, v :: 0 <= k < 4 && VariableName(v) == HelpRows[i][k] ==> CliPatterns[i][k] == v by {
        forall k, v | 0 <= k < 4 && VariableName(v) == HelpRows[i][k]
          ensures CliPatterns[i][k] == v
        {
          VariableNameInjective(CliPatterns[i][k], v);
        }
      }
      Some(CliPatterns[i])
    else None
  }

  /** Row 4 draws the source itself in every slot. */
  lemma Row4IsIdentity()
    ensures forall k :: 0 <= k < 4 ==> CliPatterns[4][k] == N
  {
  }

  /** The window's four rows are the command-line tool's first four, in the same order. */
  lemma GuiRowsAreCliRows()
    ensures GuiPatterns == CliPatterns[..4]
  {
  }

  /**
   * A pattern whose right column mirrors its left column left-right and whose
   * bottom row mirrors its top row top-bottom.
   */
  predicate MirrorPattern(p: Pattern)
  {
    p[1] == FlipH(p[0]) && p[2] == FlipV(p[0]) && p[3] == FlipV(p[1])
  }

  /** Exactly the first four rows of the table are mirror patterns. */
  lemma MirrorRows()
    ensures forall i :: 0 <= i < 8 ==> (MirrorPattern(CliPatterns[i]) <==> i < 4)
  {
  }

  /** The four images a pattern draws, in slot order. */
  function Tiles(p: Pattern, src: Image): (tiles: seq<Image>)
    requires IsImage(src)
    ensures |tiles| == 4
    ensures forall k :: 0 <= k < 4 ==> tiles[k] == Apply(p[k], src)
  {
    [Apply(p[0], src), Apply(p[1], src), Apply(p[2], src), Apply(p[3], src)]
  }
}
