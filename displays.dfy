/** Display helpers (src/displays.rs). */
module Displays {

  /** `\frac{top}{bottom}`: both arguments copied verbatim into their groups. */
  function Frac(top: string, bottom: string): (r: string)
    ensures |r| == |top| + |bottom| + 9
    ensures r[..6] == "\\frac{" && r[|r| - 1] == '}'
    ensures r[6..6 + |top|] == top
    ensures r[6 + |top|..8 + |top|] == "}{"
    ensures r[8 + |top|..|r| - 1] == bottom
  {
    "\\frac{" + top + "}{" + bottom + "}"
  }
}
