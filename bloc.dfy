/** Construction of environments (src/bloc.rs). Rendering is in `Render`. */
module Blocs {
  import opened Tree
  import StrOrString

  /** `Bloc::new`: the type and the children are stored as given. */
  function New(blocType: string, content: seq<Core>): (b: Bloc)
    ensures b.blocType == blocType && b.content == content
  {
    Bloc.Bloc(StrOrString.Convert(blocType), content)
  }

  /** `Bloc::new_empty`: no children. */
  function NewEmpty(blocType: string): (b: Bloc)
    ensures b.blocType == blocType && b.content == []
  {
    Bloc.Bloc(StrOrString.Convert(blocType), [])
  }

  /** `add`: one child more, at the end; the type is kept. */
  function Add(b: Bloc, element: Core): (r: Bloc)
    ensures |r.content| == |b.content| + 1
    ensures r.content[..|b.content|] == b.content && r.content[|b.content|] == element
    ensures r.blocType == b.blocType
  {
    b.(content := b.content + [element])
  }

  /** The test: adding to an empty environment gives one child. */
  lemma AddScenario()
    ensures |NewEmpty("center").content| == 0
    ensures |Add(NewEmpty("center"), Core.Bloc(NewEmpty("verbatim"))).content| == 1
  {
  }
}
