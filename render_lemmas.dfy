/** What the rendering promises about documents built with the constructors
    and the append of `Core`: where a child's text lands, what an append
    changes in the text, and the texts of the scenarios of the crate. */
module RenderLemmas {
  import opened Tree
  import opened Rendering
  import Sections
  import Blocs
  import Tags
  import Tabulars
  import Content
  import Strings

  /** The opening and closing lines of an environment. */
  function Open(blocType: string): string {
    "\\begin{" + blocType + "}\n"
  }

  function Close(blocType: string): string {
    "\n\\end{" + blocType + "}\n"
  }

  /** The text of a child sequence splits at any child: the children before
      it, the child itself, the children after it. */
  lemma ChildInPlace(cs: seq<Core>, k: int)
    requires AllRenderable(cs) && 0 <= k < |cs|
    ensures AllRenderable(cs[..k]) && Renderable(cs[k]) && AllRenderable(cs[k + 1..])
    ensures RenderSeq(cs) == RenderSeq(cs[..k]) + (Render(cs[k]) + RenderSeq(cs[k + 1..]))
  {
    var before, rest := cs[..k], cs[k..];
    assert cs == before + rest;
    assert AllRenderable(rest) by {
      assert forall i | 0 <= i < |rest| :: rest[i] == cs[k + i];
    }
    assert rest[1..] == cs[k + 1..];
    RenderSeqAppend(before, rest);
  }

  /** An environment's text is its opening line, then its children's texts,
      then its closing line; the text of child `k` sits right after the
      opening line and the texts of the children before it, and right before
      the texts of the children after it and the closing line. */
  lemma BlocLayout(b: Bloc, k: int)
    requires AllRenderable(b.content) && 0 <= k < |b.content|
    ensures AllRenderable(b.content[..k]) && Renderable(b.content[k]) && AllRenderable(b.content[k + 1..])
    ensures RenderBloc(b) == (Open(b.blocType) + RenderSeq(b.content[..k]))
      + Render(b.content[k]) + (RenderSeq(b.content[k + 1..]) + Close(b.blocType))
  {
    ChildInPlace(b.content, k);
    var open, before, child, after, close :=
      Open(b.blocType), RenderSeq(b.content[..k]), Render(b.content[k]), RenderSeq(b.content[k + 1..]), Close(b.blocType);
    assert RenderBloc(b) == open + (before + (child + after)) + close;
    Strings.ConcatAssoc(open, before, child + after);
    Strings.ConcatAssoc(open + before, child, after);
    Strings.ConcatAssoc(open + before + child, after, close);
  }

  /** An environment with no children renders as its two delimiter lines,
      hence with an empty line between them. */
  lemma EmptyBloc(blocType: string)
    ensures RenderBloc(Blocs.NewEmpty(blocType)) == Open(blocType) + Close(blocType)
  {
  }

  /** Appending a child to an environment inserts the child's text just
      before the closing line and changes nothing else. */
  lemma BlocAddRender(b: Bloc, c: Core)
    requires AllRenderable(b.content) && Renderable(c)
    ensures AllRenderable(Blocs.Add(b, c).content)
    ensures RenderBloc(Blocs.Add(b, c))
      == Open(b.blocType) + (RenderSeq(b.content) + Render(c)) + Close(b.blocType)
  {
    RenderSeqSnoc(b.content, c);
  }

  /** A section writes its header only: adding children to it leaves its
      text unchanged. */
  lemma SectionIgnoresChildren(s: Sections.Section<Core>, c: Core)
    requires Sections.Valid(s)
    ensures Renderable(Sec(Sections.AddContent(s, c)))
    ensures Render(Sec(Sections.AddContent(s, c))) == Render(Sec(s))
  {
  }

  /** `Core::add` on a renderable tree: a section's text is unchanged, an
      environment's text gains the element's text before its closing line. */
  lemma CoreAddRender(c: Core, element: Core)
    requires HasChildrenRenderable(c) && Renderable(element)
    ensures Content.Add(c, element).Ok?
    ensures Renderable(Content.Add(c, element).value)
    ensures c.Sec? ==> Render(Content.Add(c, element).value) == Render(c)
    ensures c.Bloc? ==>
      Render(Content.Add(c, element).value)
      == Open(c.bloc.blocType) + (RenderSeq(c.bloc.content) + Render(element)) + Close(c.bloc.blocType)
  {
    if c.Bloc? {
      BlocAddRender(c.bloc, element);
    }
  }

  predicate HasChildrenRenderable(c: Core) {
    Content.HasChildren(c) && Renderable(c)
  }

  /** The section of the crate's example: the header, nothing of the child. */
  lemma SectionScenario()
    ensures var intro := Content.Add(Content.NewSection("Intro"), Content.NewRawText("hello"));
      intro.Ok? && Renderable(intro.value) && Render(intro.value) == "\\section{Intro}\n"
  {
    Sections.SectionScenario<Core>();
  }

  /** An item of a list: backslash, `item`, a space, the text, a newline. */
  lemma ItemRender(text: string)
    ensures Render(Tag(Tags.Item(Content.NewRawText(text)))) == ("\\" + "item" + " ") + text + "\n"
  {
    var t := Tags.Item(Content.NewRawText(text));
    assert Renderable(t.content) && Render(t.content) == text;
    assert Render(Tag(t)) == RenderTag(t);
  }

  lemma ItemScenario()
    ensures Render(Tag(Tags.Item(Content.NewRawText("France")))) == "\\item France\n"
  {
    ItemRender("France");
  }

  /** A list of two items, built as the crate's example builds one: the
      items' texts one after the other between the delimiter lines. */
  lemma ListOfTwo(first: string, second: string)
    ensures var list := Content.Add(Content.NewBloc("itemize"), Tag(Tags.Item(Content.NewRawText(first))));
      && list.Ok?
      && var list2 := Content.Add(list.value, Tag(Tags.Item(Content.NewRawText(second))));
      && list2.Ok? && Renderable(list2.value)
      && Render(list2.value) == Open("itemize")
        + (Render(Tag(Tags.Item(Content.NewRawText(first)))) + Render(Tag(Tags.Item(Content.NewRawText(second)))))
        + Close("itemize")
  {
    var x, y := Tag(Tags.Item(Content.NewRawText(first))), Tag(Tags.Item(Content.NewRawText(second)));
    assert Renderable(x) && Renderable(y);
    var empty := Content.NewBloc("itemize");
    CoreAddRender(empty, x);
    var list := Content.Add(empty, x).value;
    CoreAddRender(list, y);
    assert list.bloc.content == [x];
    assert RenderSeq([x]) == Render(x) + RenderSeq([x][1..]);
    assert [x][1..] == [];
  }

  /** The list `France`, `UK`. */
  lemma ListScenario()
    ensures var list := Content.Add(Content.NewBloc("itemize"), Tag(Tags.Item(Content.NewRawText("France"))));
      && list.Ok?
      && var list2 := Content.Add(list.value, Tag(Tags.Item(Content.NewRawText("UK"))));
      && list2.Ok? && Renderable(list2.value)
      && Render(list2.value) == Open("itemize") + ("\\item France\n" + "\\item UK\n") + Close("itemize")
  {
    ListOfTwo("France", "UK");
    ItemScenario();
    ItemRender("UK");
  }

  /** The row `0 & 1`: the first cell, then the second after a separator. */
  lemma TwoCellRow(a: string, b: string)
    ensures RenderRow([RawText(a), RawText(b)]) == a + (" & " + b)
  {
    var cells := [RawText(a), RawText(b)];
    assert cells[1..] == [RawText(b)] && cells[1..][1..] == [];
    assert RenderCells(cells[1..]) == (" & " + b) + "";
  }

  /** A two-by-two table of texts: two columns in the specification, a rule
      before every row and after the last one, the cells of a row joined by
      separators. */
  lemma TwoByTwo(a: string, b: string, c: string, d: string)
    ensures var t := Tabulars.NewFromGrid([[RawText(a), RawText(b)], [RawText(c), RawText(d)]]);
      && TabularRenderable(t)
      && RenderTabular(t) == ("\\begin{tabular}{" + Tabulars.ColumnSpec(2) + "}\n")
        + (("" + (" \\hline\n" + (a + (" & " + b)) + " \\\\\n")) + (" \\hline\n" + (c + (" & " + d)) + " \\\\\n"))
        + (" \\hline\n" + "\\end{tabular}\n")
  {
    var g := [[RawText(a), RawText(b)], [RawText(c), RawText(d)]];
    var t := Tabulars.NewFromGrid(g);
    assert Tabulars.Grid(t) == g;
    assert t.rows == [Row(g[0]), Row(g[1])];
    TwoCellRow(a, b);
    TwoCellRow(c, d);
    TwoRows(g[0], g[1]);
  }

  /** The table `0 & 1 / 2 & 3`, whose column specification is `| c | c |`. */
  lemma TableScenario()
    ensures Tabulars.ColumnSpec(2) == "| c | c |"
    ensures var t := Tabulars.NewFromGrid([[RawText("0"), RawText("1")], [RawText("2"), RawText("3")]]);
      && TabularRenderable(t)
      && RenderTabular(t) == ("\\begin{tabular}{" + "| c | c |" + "}\n")
        + (("" + (" \\hline\n" + ("0" + (" & " + "1")) + " \\\\\n")) + (" \\hline\n" + ("2" + (" & " + "3")) + " \\\\\n"))
        + (" \\hline\n" + "\\end{tabular}\n")
  {
    TwoByTwo("0", "1", "2", "3");
    assert Tabulars.ColumnSpec(2) == "| c | c |";
  }

  lemma TwoRows(first: seq<Core>, second: seq<Core>)
    requires |first| > 0 && AllRenderable(first) && |second| > 0 && AllRenderable(second)
    ensures RowsRenderable([Row(first), Row(second)])
    ensures RenderRows([Row(first), Row(second)])
      == ("" + (" \\hline\n" + RenderRow(first) + " \\\\\n")) + (" \\hline\n" + RenderRow(second) + " \\\\\n")
  {
    var r0, r1 := Row(first), Row(second);
    RenderRowsSnoc([], r0);
    assert [] + [r0] == [r0];
    RenderRowsSnoc([r0], r1);
    assert [r0] + [r1] == [r0, r1];
  }

  /** A single child contributes exactly its own text. */
  lemma SingleChild(c: Core)
    requires Renderable(c)
    ensures AllRenderable([c]) && RenderSeq([c]) == Render(c)
  {
    assert [c][1..] == [];
  }

  /** The nested environments of the crate's test: `center` holding
      `verbatim` holding a line of text. The inner environment's whole text
      sits between the outer delimiters. */
  lemma NestedBlocScenario(text: string)
    ensures var inner := Blocs.Add(Blocs.NewEmpty("verbatim"), RawText(text));
      var outer := Blocs.Add(Blocs.NewEmpty("center"), Core.Bloc(inner));
      && AllRenderable(outer.content)
      && RenderBloc(outer) == Open("center") + (Open("verbatim") + text + Close("verbatim")) + Close("center")
  {
    var inner := Blocs.Add(Blocs.NewEmpty("verbatim"), RawText(text));
    assert inner.content == [RawText(text)];
    SingleChild(RawText(text));
    var outer := Blocs.Add(Blocs.NewEmpty("center"), Core.Bloc(inner));
    assert outer.content == [Core.Bloc(inner)];
    SingleChild(Core.Bloc(inner));
  }

  // Sizes of a table's text: a rule before every row and after the last,
  // a terminator after every row, a separator between neighbouring cells.

  /** Total length of the cells' own texts. */
  function CellsLength(cells: seq<Core>): nat
    requires AllRenderable(cells)
  {
    if cells == [] then 0 else |Render(cells[0])| + CellsLength(cells[1..])
  }

  /** Total length of the rows' texts, separators included. */
  function RowsLength(rs: seq<Row>): nat
    requires RowsRenderable(rs)
  {
    if rs == [] then 0
    else CellsLength(rs[0].cells) + (|rs[0].cells| - 1) * |" & "| + RowsLength(rs[1..])
  }

  lemma {:induction false} RenderCellsLength(cells: seq<Core>)
    requires AllRenderable(cells)
    ensures |RenderCells(cells)| == CellsLength(cells) + |cells| * |" & "|
  {
    if cells != [] {
      RenderCellsLength(cells[1..]);
    }
  }

  /** A row of `n` cells holds `n - 1` separators. */
  lemma RenderRowLength(cells: seq<Core>)
    requires |cells| > 0 && AllRenderable(cells)
    ensures |RenderRow(cells)| == CellsLength(cells) + (|cells| - 1) * |" & "|
  {
    RenderCellsLength(cells[1..]);
  }

  lemma {:induction false} RenderRowsLength(rs: seq<Row>)
    requires RowsRenderable(rs)
    ensures |RenderRows(rs)| == |rs| * (|" \\hline\n"| + |" \\\\\n"|) + RowsLength(rs)
  {
    if rs != [] {
      RenderRowLength(rs[0].cells);
      RenderRowsLength(rs[1..]);
    }
  }

  /** A table of `r` rows holds `r + 1` rules and `r` terminators, around
      the rows' texts and between the two delimiter lines. */
  lemma RenderTabularLength(t: Tabular)
    requires TabularRenderable(t)
    ensures |RenderTabular(t)| == |"\\begin{tabular}{"| + (1 + 4 * |t.rows[0].cells|) + |"}\n"|
      + (|t.rows| + 1) * |" \\hline\n"| + |t.rows| * |" \\\\\n"| + RowsLength(t.rows)
      + |"\\end{tabular}\n"|
  {
    RenderRowsLength(t.rows);
    Tabulars.ColumnSpecShape(|t.rows[0].cells|);
  }
}
