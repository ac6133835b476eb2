/**
 * The configuration enums shared by the samplers and the exporters, and the
 * way the command line composes them.
 */
module Options {

  /** The kind of face a sampler emits per grid cell.  The C++ enum can hold
      any int (a cast), so values other than the two named ones are possible. */
  type MeshType = int

  const TRIANGLE_MESH: MeshType := 0
  const SQUARE_MESH: MeshType := 1

  /** A set of option bits, as the C++ enum `OptionFlag` holds them. */
  type OptionFlag = bv32

  const NO_OPTIONS: OptionFlag := 0
  const INVERT_NORMAL: OptionFlag := 1  // 1 << 0
  const WITH_COLOR: OptionFlag := 2     // 1 << 1

  /** The bit test `flags & bit` used in a condition. */
  predicate Has(flags: OptionFlag, bit: OptionFlag)
  {
    flags & bit != 0
  }

  /** The two option bits are distinct single bits: setting one never changes
      whether the other is set. */
  lemma OptionBitsDistinct()
    ensures INVERT_NORMAL & WITH_COLOR == 0
    ensures Has(INVERT_NORMAL, INVERT_NORMAL) && Has(WITH_COLOR, WITH_COLOR)
  {
  }

  lemma SettingColorKeepsInvert(flags: OptionFlag)
    ensures Has(flags | WITH_COLOR, WITH_COLOR)
    ensures Has(flags | WITH_COLOR, INVERT_NORMAL) == Has(flags, INVERT_NORMAL)
  {
  }

  lemma SettingInvertKeepsColor(flags: OptionFlag)
    ensures Has(flags | INVERT_NORMAL, INVERT_NORMAL)
    ensures Has(flags | INVERT_NORMAL, WITH_COLOR) == Has(flags, WITH_COLOR)
  {
  }

  /** The command line's flag composition: start from no options, or in
      WITH_COLOR for `--color`, then INVERT_NORMAL for `--invert`. */
  function ComposeFlags(withColor: bool, invertNormal: bool): (flags: OptionFlag)
    ensures Has(flags, WITH_COLOR) == withColor
    ensures Has(flags, INVERT_NORMAL) == invertNormal
    ensures flags & !(WITH_COLOR | INVERT_NORMAL) == 0
  {
    var flags := NO_OPTIONS;
    var flags := if withColor then flags | WITH_COLOR else flags;
    if invertNormal then flags | INVERT_NORMAL else flags
  }

  /** The command line's mesh type: `--square` selects quads, otherwise triangles. */
  function MeshTypeFor(square: bool): (t: MeshType)
    ensures t == SQUARE_MESH <==> square
    ensures t == TRIANGLE_MESH <==> !square
  {
    if square then SQUARE_MESH else TRIANGLE_MESH
  }
}
