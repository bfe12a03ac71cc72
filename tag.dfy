/** One-argument commands (src/tag.rs). Rendering is in `Render`. */
module Tags {
  import opened Tree

  /** `SingleTag::new`: name and the single child stored as given. */
  function New(name: string, content: Core): (t: SingleTag)
    ensures t.name == name && t.content == content
  {
    SingleTag(name, content)
  }

  /** `\item` around one child. */
  function Item(content: Core): (t: SingleTag)
    ensures t.name == "item" && t.content == content
  {
    New("item", content)
  }
}
