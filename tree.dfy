/** The content tree: the `Core` sum type of src/core.rs and the containers
    that hold `Core` children (src/bloc.rs, src/tag.rs, src/tabular.rs).
    They refer to each other, so they are declared together. */
module Tree {
  import Sections
  import Equations
  import MathMode

  datatype Core =
    | Sec(section: Sections.Section<Core>)
    | RawText(text: string)
    | Equa(equation: Equations.Equation)
    | Bloc(bloc: Bloc)
    | Tag(tag: SingleTag)
    | Tab(tabular: Tabular)
    | Math(math: MathMode.MathContent)

  /** A named environment, `\begin{blocType} ... \end{blocType}`. */
  datatype Bloc = Bloc(blocType: string, content: seq<Core>)

  /** A one-argument command such as `\item`, owning exactly one child. */
  datatype SingleTag = SingleTag(name: string, content: Core)

  /** A grid of cells, row by row. */
  datatype Tabular = Tabular(rows: seq<Row>)

  /** One row of a grid. */
  datatype Row = Row(cells: seq<Core>)
}
