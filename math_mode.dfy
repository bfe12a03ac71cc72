/** Inline mathematics (src/math_mode.rs). */
module MathMode {

  datatype MathContent = MathContent(content: string)

  function New(content: string): (m: MathContent)
    ensures m.content == content
  {
    MathContent(content)
  }

  /** `$content$`: two dollar signs around the untouched content. */
  function Render(m: MathContent): (r: string)
    ensures |r| == |m.content| + 2
    ensures r[0] == '$' && r[|r| - 1] == '$'
    ensures r[1..|r| - 1] == m.content
  {
    "$" + m.content + "$"
  }
}
