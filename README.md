# tex-rs content tree, in Dafny

A model of the core of `tex-rs` (crate `RusTex`), a Rust library that builds
a LaTeX document as a tree of content nodes in memory and writes each node
out as LaTeX text. The model covers:

- the node types:
  - `Core` is a section, raw text, an equation, an environment (`Bloc`), a
    one-argument command (`SingleTag`, such as `\item`), a table
    (`Tabular`) or inline math;
- the constructors of the nodes;
- `Core::add`, which appends a child to a section or an environment and
  refuses any other node;
- the text that every node's `write_to_buffer` appends to the output;
- the small formatters around the tree: the symbol table, equation tokens,
  `\sum`/`\prod` operators with integer bounds, `\frac`, `$…$`,
  `\lstinputlisting`, the `&str`/`String` copy and the promotion of a row
  to a grid.

The Rust writers append to a `BufWriter`. Here a writer is
`Write…(x, buf) returns (out)`, and every writer is proved to append exactly
`Render…(x)` to its input buffer. The loops of the source (the children of
an environment, the elements of an equation, the rows and cells of a table,
the column specification, the character copy of `String`) stay loops with
invariants. The `Render…` functions are the specification: the lemmas state
the layout, the lengths and the round trips on them.

Mutators such as `add`, `add_content` and `change_title` take `&mut self`
in the source. Here they are functions from the old value to the new one.
Rust's ownership rules out aliasing of a tree, so nothing observable is lost.

The panics of the source become preconditions or an error value:

| source panic | in the model |
|---|---|
| `get_symbol` on an unknown string | `requires IsOp(s)` |
| a section rank above 2 | `requires rank <= 2` |
| `type_of_section` on an invalid rank | `requires Valid(s)` |
| `add` on a node without children | the result `Unsupported` |
| indexing an empty table or an empty row | the `Renderable` precondition of the writers |

| file | module | what it holds |
|---|---|---|
| `symbols.dfy` | `Symbols` | the symbol table of `src/symbols.rs` |
| `equations.dfy` | `Equations` | the copy of that table in `src/equations.rs`, token classification, equation rendering |
| `operators.dfy` | `Operators` | `VarOrImm`, `i32` printing, operator codes |
| `sections.dfy` | `Sections` | sections, generic in the child type |
| `tree.dfy` | `Tree` | the `Core` datatype and its containers |
| `bloc.dfy`, `tag.dfy`, `tabular.dfy` | `Blocs`, `Tags`, `Tabulars` | constructors and `align` |
| `content.dfy` | `Content` | the `Core` constructors and `Core::add` |
| `render.dfy` | `Rendering` | the `Render…` functions and the writer methods |
| `render_lemmas.dfy` | `RenderLemmas` | layout, append, length and scenario lemmas |
| `into_tab.dfy`, `str_or_string.dfy`, `displays.dfy`, `math_mode.dfy`, `content_from_file.dfy` | | the small formatters |
| `strings.dfy` | `Strings` | associativity of concatenation, for the writer proofs |

## Model

| member | source | states |
|---|---|---|
| Symbols.GetSymbol | src/symbols.rs:22-33 | defined exactly on the eight operator strings; the symbol's string is the input, with `==` read as `=` and `<>` as `!=` |
| Symbols.GetString | src/symbols.rs:37-46 | every symbol's string is one of the accepted operator strings and never one of the two aliases |
| Symbols.LatexCode | src/symbols.rs:49-58 | each symbol gets its own code, each if and only if: ` = `, ` \leq `, ` < `, ` \geq `, ` > `, ` \neq `; every code has at least three characters and begins and ends with a space |
| Symbols.GetStringLeftInverse | src/symbols.rs:37-46 | `get_symbol(get_string(x)) == x` for every symbol |
| Symbols.GetSymbolRoundTrip | src/symbols.rs:24-31 | `get_string(get_symbol(s)) == s` holds if and only if `s` is not one of the aliases `==` and `<>` |
| Symbols.SymbolTable | src/symbols.rs:72-81 | the eight strings map to the symbols the tests expect |
| Symbols.IsOpExactlyEight | src/symbols.rs:37-65 | `is_op` accepts exactly the strings `get_string` can return and the two aliases `==` and `<>`, and nothing else |
| Symbols.LatexCodeInjective | src/symbols.rs:49-58 | distinct symbols have distinct codes |
| Equations.GetSymbol | src/equations.rs:26-38 | the copy of the table returns the symbol whose string is the input, aliases aside |
| Equations.TableAgreesWithSymbols | src/equations.rs:26-68 | the copy in `equations.rs` agrees with `symbols.rs` on `is_op`, `get_symbol`, `get_string` and `latex_code` |
| Equations.GetEnum | src/equations.rs:77-83 | a token gives a text element, holding the token, if and only if it is not an operator; otherwise it gives the symbol of its canonical spelling; never panics |
| Equations.NewEquation | src/equations.rs:89-91 | one element per token, in order: element `i` is `get_enum(tokens[i])` |
| Equations.WriteElement | src/equations.rs:99-106 | appends the element's text: text verbatim, symbol as its code, operator as its code |
| Equations.TokenRender | src/equations.rs:99-106 | a non-operator token renders verbatim; an operator token renders as the code of its symbol |
| Equations.RenderElementsSnoc | src/equations.rs:117-119 | appending an element appends its text to the elements' text |
| Equations.WriteEquation | src/equations.rs:115-121 | the loop appends the opening line, the elements' texts in order and the closing line |
| Equations.RenderElementsLength | src/equations.rs:117-119 | the elements' text is as long as the sum of the element texts |
| Equations.RenderEquationLength | src/equations.rs:115-121 | an equation's text is 33 characters of delimiters plus the element texts |
| Equations.EquationScenario | src/equations.rs:157-169 | three tokens give three elements; `a = b` renders as `\begin{equation}`, newline, `a = b`, newline, `\end{equation}`, newline |
| Equations.SumInEquationScenario | src/operators.rs:133-141 | `x =` followed by a sum renders the two tokens and then the sum's code inside the equation delimiters |
| Equations.OperatorAfterEquals | src/operators.rs:133-141 | any operator after the tokens `x =` renders as `x = ` followed by its code inside the equation delimiters |
| Equations.XEqualsTokens | src/equations.rs:89-91 | the tokens `x` and `=` become a text element and the equality symbol |
| Equations.RenderThreeElements | src/equations.rs:117-119 | three elements render as their three texts in order |
| Operators.NatToDecimal | src/operators.rs:36-41 | the decimal form of a natural number is a non-empty string of digits with no leading zero, unless it is the single digit `0` |
| Operators.IntToDecimal | src/operators.rs:36-41 | the decimal form of an integer is a numeral that starts with `-` if and only if the integer is negative, and whose digits have no leading zero unless they are the single digit `0` |
| Operators.NatToDecimalRoundTrip | src/operators.rs:36-41 | reading back the digits of a natural number gives the number |
| Operators.IntToDecimalRoundTrip | src/operators.rs:36-41 | reading back the decimal form of any integer gives the integer |
| Operators.NewVar | src/operators.rs:19-23 | a string becomes a variable whose value prints as the string itself |
| Operators.NewImm | src/operators.rs:25-29 | an `i32` becomes an immediate whose value prints as a numeral that reads back as the integer |
| Operators.GetVal | src/operators.rs:36-41 | a variable prints verbatim; an immediate prints as a numeral that reads back as its value, with `-` if and only if it is negative and no leading zero in its digits |
| Operators.LatexCodeOp | src/operators.rs:54-60 | the command is `\sum` if and only if the operator is a sum, and `\prod` if and only if it is a product |
| Operators.ProjectionsRebuild | src/operators.rs:63-84 | `variable`, `begin` and `end` return the first, second and third fields, whatever the kind of operator |
| Operators.LatexCode | src/operators.rs:87-95 | the code is, in this order and each at its own position, the command, ` _{`, the printed variable, ` = `, the printed lower bound, `} ^{`, the printed upper bound and `}`; it is 11 characters longer than the command and the three printed fields |
| Operators.Layout | src/operators.rs:88-94 | the same placement of the command, the variable, the lower bound and the upper bound, for any four strings filling the format |
| Operators.Write | src/operators.rs:104-106 | appends exactly the operator's code |
| Operators.KindOnlyChangesCommand | src/operators.rs:87-95 | a sum and a product over the same fields differ only in the command |
| Operators.SumAndProductScenario | src/operators.rs:114-130 | `Sum("i", 0, "n")` prints `\sum _{i = 0} ^{n}` and the product prints `\prod _{i = 0} ^{n}` |
| Sections.New | src/sections.rs:23-30 | demands a rank of at most 2; stores the title and the rank with no children |
| Sections.NewSection | src/sections.rs:33-35 | rank 0, the given title, no children, command `\section` |
| Sections.NewSubsection | src/sections.rs:38-40 | rank 1, the given title, no children, command `\subsection` |
| Sections.NewSubsubsection | src/sections.rs:43-45 | rank 2, the given title, no children, command `\subsubsection` |
| Sections.AddContent | src/sections.rs:48-50 | the children gain exactly the new child, at the end; the title and the rank stay |
| Sections.GetTitle | src/sections.rs:58-60 | returns the title the section holds now |
| Sections.ChangeTitle | src/sections.rs:53-60 | `get_title` returns the new title; the rank and the children stay |
| Sections.TypeOfSection | src/sections.rs:63-70 | ranks 0, 1 and 2 give `\section`, `\subsection` and `\subsubsection`, each if and only if; other ranks are excluded |
| Sections.Header | src/sections.rs:78-86 | the text of `type_of_section` for the rank, then `{`, the title, `}` and a newline, three characters besides the command and the title |
| Sections.RankIsFixed | src/sections.rs:16-55 | after any sequence of title changes and appends, in any interleaving, the rank is the one the section was built with (so still at most 2), the children are the old ones followed by the appended ones in order, and the title is the last one given, or the old one if none was |
| Sections.SectionScenario | src/sections.rs:108-122 | renaming `Section` to `NewSection` is seen by `get_title`; a new section titled `Intro` writes `\section{Intro}` and a newline |
| Blocs.New | src/bloc.rs:23-28 | stores the type and the children unchanged |
| Blocs.NewEmpty | src/bloc.rs:31-36 | stores the type with no children |
| Blocs.Add | src/bloc.rs:39-41 | the children gain exactly the new child, at the end; the type stays |
| Blocs.AddScenario | src/bloc.rs:75-80 | an empty `center` environment has no child, and one after an append |
| Tags.New | src/tag.rs:17-22 | stores the name and the single child unchanged |
| Tags.Item | src/tag.rs:25-27 | the name is `item` and the child is the argument |
| Tabulars.Grid | src/tabular.rs:12-15 | the rows of a table, as the grid the source stores |
| Tabulars.NewFromRow | src/tabular.rs:18-22 | a row becomes a table of exactly that one row |
| Tabulars.NewFromGrid | src/tabular.rs:18-22 | a grid becomes a table of exactly that grid |
| Tabulars.ColumnSpecShape | src/tabular.rs:26-29 | the specification is a bar, then a space, `c`, a space and a bar once per column, so it has 1 + 4 × columns characters |
| Tabulars.Align | src/tabular.rs:24-31 | the loop yields the column specification for the number of cells of the first row, whatever the other rows hold |
| IntoTab.FromRow | src/into_tab.rs:9-15 | a row becomes a grid with exactly one row, equal to it |
| IntoTab.FromGrid | src/into_tab.rs:17-21 | a grid is returned unchanged |
| IntoTab.FromGridIdempotent | src/into_tab.rs:17-21 | converting a converted grid again changes nothing |
| StrOrString.Convert | src/str_or_string.rs:7-11 | the copy has the same length and the same characters |
| StrOrString.ConvertString | src/str_or_string.rs:14-20 | the character loop rebuilds the input string exactly |
| Displays.Frac | src/displays.rs:6-8 | `\frac{`, the top verbatim, `}{`, the bottom verbatim, `}`: nine characters around the arguments |
| MathMode.New | src/math_mode.rs:13-15 | stores the content unchanged |
| MathMode.Render | src/math_mode.rs:24-26 | the content verbatim between two `$`, two characters longer |
| ContentFromFile.New | src/content_from_file.rs:22-24 | stores the file name and the language unchanged |
| ContentFromFile.Render | src/content_from_file.rs:33-40 | `\lstinputlisting[language=`, the language, `]{`, the file name, `}` and one newline; the file name appears only as text |
| Content.NewSection | src/core.rs:57-59 | a section node of rank 0 with the title and no children |
| Content.NewSubsection | src/core.rs:62-64 | a section node of rank 1 with the title and no children |
| Content.NewSubsubsection | src/core.rs:67-69 | a section node of rank 2 with the title and no children |
| Content.NewRawText | src/core.rs:72-74 | a text node holding the string unchanged |
| Content.NewEquation | src/core.rs:77-79 | an equation node holding the equation unchanged |
| Content.NewBloc | src/core.rs:82-84 | an environment node of the type with no children |
| Content.Add | src/core.rs:87-93 | succeeds if and only if the node is a section or an environment; then the node keeps its variant, title, rank and type, and gains the element as its last child; every other node gives `Unsupported` |
| Rendering.WriteCore | src/core.rs:45-52 | appends exactly the text of the wrapped value's own writer |
| Rendering.WriteBloc | src/bloc.rs:50-56 | the loop appends the opening line, each child's text in order and the closing line |
| Rendering.WriteTag | src/tag.rs:36-40 | appends a backslash, the name and a space, the child's text, then a newline |
| Rendering.WriteTabular | src/tabular.rs:40-53 | appends the opening line with the column specification, then each row after a rule, then a last rule and the closing line |
| Rendering.WriteRow | src/tabular.rs:43-49 | the inner loop appends a rule, the first cell, each further cell after ` & `, then the row terminator |
| Rendering.RenderSeqAppend | src/bloc.rs:52-54 | the text of two child lists in a row is the two texts in a row |
| Rendering.RenderSeqSnoc | src/bloc.rs:52-54 | appending a child appends its text |
| Rendering.RenderCellsSnoc | src/tabular.rs:45-48 | appending a cell appends ` & ` and its text |
| Rendering.RenderRowsSnoc | src/tabular.rs:42-50 | appending a row appends a rule, the row's text and the terminator |
| RenderLemmas.ChildInPlace | src/bloc.rs:52-54 | the text of a child list is the text of the children before child `k`, then child `k`'s text, then the rest, so children appear in append order |
| RenderLemmas.BlocLayout | src/bloc.rs:50-56 | an environment's text opens with `\begin{t}` and closes with `\end{t}` for the same `t`, and a child's whole text sits contiguously between the texts of its neighbours |
| RenderLemmas.EmptyBloc | src/bloc.rs:89-95 | an empty environment renders as its two delimiter lines, an empty line between them |
| RenderLemmas.BlocAddRender | src/bloc.rs:39-56 | after an append, the environment's text has the new child's text just before the closing line and is otherwise unchanged |
| RenderLemmas.SectionIgnoresChildren | src/sections.rs:78-86 | appending to a section does not change its text |
| RenderLemmas.CoreAddRender | src/core.rs:87-93 | `Core::add` on a renderable section keeps its text; on a renderable environment it inserts the element's text before the closing line |
| RenderLemmas.SectionScenario | src/sections.rs:78-86 | the section `Intro` with the text `hello` appended renders as `\section{Intro}` and a newline |
| RenderLemmas.ItemRender | src/tag.rs:36-40 | an item of a text renders as `\item`, a space, the text and a newline |
| RenderLemmas.ItemScenario | src/tag.rs:36-40 | the item of `France` renders as `\item France` and a newline |
| RenderLemmas.ListOfTwo | src/core.rs:87-93 | an `itemize` environment with two items appended renders the two items in append order between its delimiters |
| RenderLemmas.ListScenario | src/bloc.rs:50-56 | the list of `France` and `UK` renders both items in order between `\begin{itemize}` and `\end{itemize}` |
| RenderLemmas.SingleChild | src/bloc.rs:52-54 | a single child contributes exactly its own text |
| RenderLemmas.NestedBlocScenario | src/bloc.rs:107-117 | `center` holding `verbatim` holding a text: the inner environment's whole text sits between the outer delimiters |
| RenderLemmas.TwoCellRow | src/tabular.rs:44-48 | a row of two cells is the first cell, ` & `, the second cell |
| RenderLemmas.TwoRows | src/tabular.rs:42-50 | two rows are each a rule, the row's text and the terminator, in order |
| RenderLemmas.TwoByTwo | src/tabular.rs:40-53 | a two-by-two table of texts has the two-column specification, two ruled rows and a last rule |
| RenderLemmas.TableScenario | src/tabular.rs:40-53 | the table `0 & 1` / `2 & 3` has the two-column specification (bar, ` c `, bar, ` c `, bar), a rule before each row and after the last one |
| RenderLemmas.RenderCellsLength | src/tabular.rs:45-48 | the cells after the first add one ` & ` each to their own texts |
| RenderLemmas.RenderRowLength | src/tabular.rs:44-48 | a row of `n` cells holds `n - 1` separators besides the cells' texts |
| RenderLemmas.RenderRowsLength | src/tabular.rs:42-50 | every row adds one rule and one terminator to its own text |
| RenderLemmas.RenderTabularLength | src/tabular.rs:40-53 | a table of `r` rows has `r + 1` rules and `r` terminators, besides the delimiter lines and the rows' texts |

## Output format notes

- A section writes only its header line, `\section{title}` and a newline
  (`src/sections.rs:78-86`). Its children are kept but not written, and
  nothing follows the newline. Only ranks 0 to 2 exist.
- An equation writes its elements back to back between the delimiter lines
  (`src/equations.rs:115-121`), with nothing between two elements; the
  spaces around `=` in `a = b` come from the symbol's code ` = `.
- An operator writes its command, a space, `_{`, the variable, ` = `, the
  lower bound, `} ^{`, the upper bound and `}`, as in `\sum _{i = 0} ^{n}`
  (`src/operators.rs:87-95`).
- `src/core.rs:17-22` declares only four `Core` variants. `src/tag.rs`,
  `src/tabular.rs` and `src/math_mode.rs` render `Core` children too. The
  model has one `Core` with all seven variants, each written by its own
  file's writer.
- `src/operators.rs:138` uses an `Operator` equation element that
  `src/equations.rs:71-74` does not declare. The model adds it; it renders
  as the operator's code.
- `src/sections.rs:9` stubs the child type as `usize`. `Sections.Section`
  is generic, and the tree instantiates it with `Core`.

## Left out

- Output sinks: `LatexFile`, `BufWriter`, `write_latex` and the `unwrap` of
  I/O results. The sink is an append-only string. I/O errors are not
  modelled.
- `src/latex_file.rs` and `src/writable.rs`: the file wrapper is file-system
  I/O. The `String` writer of `src/writable.rs` repeats the one in
  `src/core.rs:24-33`, which is the `RawText` case here.
- `src/graphics.rs` is not part of this model. It only formats an `f64`
  scale, and floating-point output is out of scope.
- `src/expressions.rs` is not part of this model. It is not a module of the
  crate and duplicates `get_val`.
- `src/lib.rs` and the examples: a module list and programs that read
  standard input and write files.
- In-place mutation: `add`, `add_content`, `change_title` and `Core::add`
  return the updated value. Ownership in the source rules out aliases, so
  only the update in place itself is not captured.
- `Tabular` stores its rows as `Row` values wrapping `seq<Core>`, rather
  than as `seq<seq<Core>>`. `Tabulars.Grid` gives the grid back. The
  wrapper is needed for the termination of the recursive rendering.
- Operators.NewImm: `i32` is a bounded newtype, so no wrap-around arises.
  Decimal printing is proved for every integer, which covers the `i32`
  range.
- Rendering.WriteTabular and RenderLemmas.RenderTabularLength count rules,
  terminators and separators as writes and as lengths. They do not count
  occurrences in the output, because a cell's own text may contain ` & ` or
  `\hline`.
- Rendering.WriteCore: a renderable tree is required (sections of rank at
  most 2, tables with a first row and no empty row). The source panics on
  the others while writing, which the model does not reproduce.
