/** Source listings included from a file (src/content_from_file.rs). The
    renderer only names the file; it never opens it. */
module ContentFromFile {

  datatype Code = Code(filename: string, language: string)

  function New(filename: string, language: string): (c: Code)
    ensures c.filename == filename && c.language == language
  {
    Code(filename, language)
  }

  /** `\lstinputlisting[language=L]{F}` and one newline. */
  function Render(c: Code): (r: string)
    ensures |r| == 30 + |c.language| + |c.filename|
    ensures r[..26] == "\\lstinputlisting[language="
    ensures r[26..26 + |c.language|] == c.language
    ensures r[26 + |c.language|..28 + |c.language|] == "]{"
    ensures r[28 + |c.language|..|r| - 2] == c.filename
    ensures r[|r| - 2..] == "}\n"
  {
    "\\lstinputlisting[language=" + c.language + "]{" + c.filename + "}\n"
  }
}
