/** The operations of the `Core` sum type (src/core.rs): its constructors and
    the append that only sections and environments accept. */
module Content {
  import opened Tree
  import Sections
  import Blocs
  import Equations

  /** `Unsupported` is the panic of `Core::add` on a variant without children. */
  datatype Result<T> = Ok(value: T) | Unsupported

  /** The variants that accept further children. */
  predicate HasChildren(c: Core) {
    c.Sec? || c.Bloc?
  }

  function Children(c: Core): seq<Core>
    requires HasChildren(c)
  {
    if c.Sec? then c.section.content else c.bloc.content
  }

  function NewSection(title: string): (c: Core)
    ensures c.Sec? && Sections.Valid(c.section) && c.section.rank == 0
    ensures c.section.title == title && Children(c) == []
  {
    Sec(Sections.NewSection(title))
  }

  function NewSubsection(title: string): (c: Core)
    ensures c.Sec? && Sections.Valid(c.section) && c.section.rank == 1
    ensures c.section.title == title && Children(c) == []
  {
    Sec(Sections.NewSubsection(title))
  }

  function NewSubsubsection(title: string): (c: Core)
    ensures c.Sec? && Sections.Valid(c.section) && c.section.rank == 2
    ensures c.section.title == title && Children(c) == []
  {
    Sec(Sections.NewSubsubsection(title))
  }

  function NewRawText(rawText: string): (c: Core)
    ensures c.RawText? && c.text == rawText
  {
    RawText(rawText)
  }

  function NewEquation(eq: Equations.Equation): (c: Core)
    ensures c.Equa? && c.equation == eq
  {
    Equa(eq)
  }

  /** An empty environment of the given type. */
  function NewBloc(title: string): (c: Core)
    ensures c.Bloc? && c.bloc.blocType == title && Children(c) == []
  {
    Core.Bloc(Blocs.NewEmpty(title))
  }

  /** `Core::add`: a section or an environment gets the element as its last
      child and keeps its variant, title, rank and type; every other variant
      refuses. */
  function Add(c: Core, element: Core): (r: Result<Core>)
    ensures r.Ok? <==> HasChildren(c)
    ensures r.Ok? ==> HasChildren(r.value) && r.value.Sec? == c.Sec?
    ensures r.Ok? ==> Children(r.value) == Children(c) + [element]
    ensures r.Ok? && c.Sec? ==> r.value.section.title == c.section.title && r.value.section.rank == c.section.rank
    ensures r.Ok? && c.Bloc? ==> r.value.bloc.blocType == c.bloc.blocType
  {
    match c
    case Sec(s) => Ok(Sec(Sections.AddContent(s, element)))
    case Bloc(b) => Ok(Core.Bloc(Blocs.Add(b, element)))
    case _ => Unsupported
  }
}
