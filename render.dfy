/** Rendering of the content tree to LaTeX text: the `write_to_buffer` of
    `Core` (src/core.rs) and of the containers (src/bloc.rs, src/tag.rs,
    src/tabular.rs). The output sink is an append-only string: each writer
    method returns its input buffer followed by the text of the node, and the
    `Render` functions say what that text is. */
module Rendering {
  import opened Tree
  import Sections
  import Equations
  import MathMode
  import Tabulars
  import opened Strings

  /** The trees that render without a panic: sections of a valid rank, and
      tables with a first row and no empty row, at any depth. A section's
      children are never written, so they are not constrained. */
  predicate Renderable(c: Core)
    decreases c
  {
    match c
    case Sec(s) => Sections.Valid(s)
    case RawText(_) => true
    case Equa(_) => true
    case Bloc(b) => AllRenderable(b.content)
    case Tag(t) => Renderable(t.content)
    case Tab(t) => TabularRenderable(t)
    case Math(_) => true
  }

  predicate AllRenderable(cs: seq<Core>)
    decreases cs
  {
    forall i | 0 <= i < |cs| :: Renderable(cs[i])
  }

  predicate TabularRenderable(t: Tabular)
    decreases t
  {
    |t.rows| > 0 && RowsRenderable(t.rows)
  }

  predicate RowsRenderable(rs: seq<Row>)
    decreases rs
  {
    forall i | 0 <= i < |rs| :: |rs[i].cells| > 0 && AllRenderable(rs[i].cells)
  }

  function Render(c: Core): string
    requires Renderable(c)
    decreases c
  {
    match c
    case Sec(s) => Sections.Header(s)
    case RawText(t) => t
    case Equa(eq) => Equations.RenderEquation(eq)
    case Bloc(b) => RenderBloc(b)
    case Tag(t) => RenderTag(t)
    case Tab(t) => RenderTabular(t)
    case Math(m) => MathMode.Render(m)
  }

  /** The children's texts in order, nothing between them. */
  function RenderSeq(cs: seq<Core>): string
    requires AllRenderable(cs)
    decreases cs
  {
    if cs == [] then "" else Render(cs[0]) + RenderSeq(cs[1..])
  }

  function RenderBloc(b: Bloc): string
    requires AllRenderable(b.content)
    decreases b
  {
    ("\\begin{" + b.blocType + "}\n") + RenderSeq(b.content) + ("\n\\end{" + b.blocType + "}\n")
  }

  function RenderTag(t: SingleTag): string
    requires Renderable(t.content)
    decreases t
  {
    ("\\" + t.name + " ") + Render(t.content) + "\n"
  }

  function RenderTabular(t: Tabular): string
    requires TabularRenderable(t)
    decreases t
  {
    ("\\begin{tabular}{" + Tabulars.ColumnSpec(|t.rows[0].cells|) + "}\n") + RenderRows(t.rows)
    + (" \\hline\n" + "\\end{tabular}\n")
  }

  /** Each row after a rule, ended by the row terminator. */
  function RenderRows(rs: seq<Row>): string
    requires RowsRenderable(rs)
    decreases rs
  {
    if rs == [] then "" else (" \\hline\n" + RenderRow(rs[0].cells) + " \\\\\n") + RenderRows(rs[1..])
  }

  /** The first cell, then every other cell after a column separator. */
  function RenderRow(cells: seq<Core>): string
    requires |cells| > 0 && AllRenderable(cells)
    decreases cells
  {
    Render(cells[0]) + RenderCells(cells[1..])
  }

  function RenderCells(cells: seq<Core>): string
    requires AllRenderable(cells)
    decreases cells
  {
    if cells == [] then "" else (" & " + Render(cells[0])) + RenderCells(cells[1..])
  }

  // Writers: the loops of the source, proved to append exactly the text above.

  /** `Core::write_to_buffer`: delegates to the renderer of the wrapped value. */
  method WriteCore(c: Core, buf: string) returns (out: string)
    requires Renderable(c)
    ensures out == buf + Render(c)
    decreases c
  {
    match c
    case Sec(s) => out := buf + Sections.Header(s);
    case RawText(t) => out := buf + t;
    case Equa(eq) => out := Equations.WriteEquation(eq, buf);
    case Bloc(b) => out := WriteBloc(b, buf);
    case Tag(t) => out := WriteTag(t, buf);
    case Tab(t) => out := WriteTabular(t, buf);
    case Math(m) => out := buf + MathMode.Render(m);
  }

  /** `Bloc::write_to_buffer`: opening line, children in order, closing line. */
  method WriteBloc(b: Bloc, buf: string) returns (out: string)
    requires AllRenderable(b.content)
    ensures out == buf + RenderBloc(b)
    decreases b
  {
    var open := buf + ("\\begin{" + b.blocType + "}\n");
    out := open;
    var i := 0;
    while i < |b.content|
      invariant 0 <= i <= |b.content|
      invariant AllRenderable(b.content[..i])
      invariant out == open + RenderSeq(b.content[..i])
    {
      out := WriteCore(b.content[i], out);
      RenderSeqSnoc(b.content[..i], b.content[i]);
      ConcatAssoc(open, RenderSeq(b.content[..i]), Render(b.content[i]));
      assert b.content[..i + 1] == b.content[..i] + [b.content[i]];
      i := i + 1;
    }
    assert b.content[..i] == b.content;
    out := out + ("\n\\end{" + b.blocType + "}\n");
    ConcatAssoc(buf, "\\begin{" + b.blocType + "}\n", RenderSeq(b.content));
  }

  /** `SingleTag::write_to_buffer`: backslash, name and a space, the child,
      then a newline. */
  method WriteTag(t: SingleTag, buf: string) returns (out: string)
    requires Renderable(t.content)
    ensures out == buf + RenderTag(t)
    decreases t
  {
    out := buf + ("\\" + t.name + " ");
    out := WriteCore(t.content, out);
    out := out + "\n";
  }

  /** `Tabular::write_to_buffer`: the opening line with the column
      specification, every row after a rule, the last rule and the closing
      line. */
  method WriteTabular(t: Tabular, buf: string) returns (out: string)
    requires TabularRenderable(t)
    ensures out == buf + RenderTabular(t)
    decreases t
  {
    var cols := Tabulars.Align(t);
    var open := buf + ("\\begin{tabular}{" + cols + "}\n");
    out := open;
    var i := 0;
    while i < |t.rows|
      invariant 0 <= i <= |t.rows|
      invariant RowsRenderable(t.rows[..i])
      invariant out == open + RenderRows(t.rows[..i])
    {
      assert |t.rows[i].cells| > 0 && AllRenderable(t.rows[i].cells);
      out := WriteRow(t.rows[i].cells, out);
      RowStep(open, t.rows, i);
      i := i + 1;
    }
    assert t.rows[..i] == t.rows;
    out := out + " \\hline\n";
    out := out + "\\end{tabular}\n";
    TabularClose(buf, "\\begin{tabular}{" + cols + "}\n", RenderRows(t.rows));
  }

  /** The body of the row loop of `Tabular::write_to_buffer`: a rule, the
      first cell, each further cell after a separator, the row terminator. */
  method WriteRow(line: seq<Core>, buf: string) returns (out: string)
    requires |line| > 0 && AllRenderable(line)
    ensures out == buf + (" \\hline\n" + RenderRow(line) + " \\\\\n")
    decreases line
  {
    var rule := buf + " \\hline\n";
    out := WriteCore(line[0], rule);
    var j := 1;
    while j < |line|
      invariant 1 <= j <= |line|
      invariant AllRenderable(line[1..j])
      invariant out == rule + (Render(line[0]) + RenderCells(line[1..j]))
    {
      var before := out;
      out := out + " & ";
      out := WriteCore(line[j], out);
      ConcatAssoc(before, " & ", Render(line[j]));
      CellStep(rule, line, j);
      j := j + 1;
    }
    assert line[1..j] == line[1..];
    out := out + " \\\\\n";
    RowClose(buf, RenderRow(line));
  }

  /** One pass of the row loop of `WriteTabular`: the written row extends
      the rendered prefix of rows by one. */
  lemma RowStep(open: string, rows: seq<Row>, i: nat)
    requires i < |rows| && RowsRenderable(rows[..i])
    requires |rows[i].cells| > 0 && AllRenderable(rows[i].cells)
    ensures RowsRenderable(rows[..i + 1])
    ensures open + RenderRows(rows[..i]) + (" \\hline\n" + RenderRow(rows[i].cells) + " \\\\\n")
         == open + RenderRows(rows[..i + 1])
  {
    var pre, r := rows[..i], rows[i];
    assert rows[..i + 1] == pre + [r];
    RenderRowsSnoc(pre, r);
    ConcatAssoc(open, RenderRows(pre), " \\hline\n" + RenderRow(r.cells) + " \\\\\n");
  }

  /** The closing rule and line of `WriteTabular`, regrouped. */
  lemma TabularClose(buf: string, open: string, rows: string)
    ensures buf + open + rows + " \\hline\n" + "\\end{tabular}\n"
         == buf + ((open + rows) + (" \\hline\n" + "\\end{tabular}\n"))
  {
    ConcatAssoc(buf + open + rows, " \\hline\n", "\\end{tabular}\n");
    ConcatAssoc(buf + open, rows, " \\hline\n" + "\\end{tabular}\n");
    ConcatAssoc(buf, open, rows + (" \\hline\n" + "\\end{tabular}\n"));
    ConcatAssoc(open, rows, " \\hline\n" + "\\end{tabular}\n");
  }

  /** One pass of the cell loop of `WriteRow`: the written cell extends the
      rendered prefix of cells by one. */
  lemma CellStep(rule: string, line: seq<Core>, j: nat)
    requires 1 <= j < |line| && Renderable(line[0])
    requires AllRenderable(line[1..j]) && Renderable(line[j])
    ensures AllRenderable(line[1..j + 1])
    ensures rule + (Render(line[0]) + RenderCells(line[1..j])) + (" & " + Render(line[j]))
         == rule + (Render(line[0]) + RenderCells(line[1..j + 1]))
  {
    var first, pre, c := Render(line[0]), line[1..j], line[j];
    assert line[1..j + 1] == pre + [c];
    RenderCellsSnoc(pre, c);
    ConcatAssoc(rule, first + RenderCells(pre), " & " + Render(c));
    ConcatAssoc(first, RenderCells(pre), " & " + Render(c));
  }

  /** The row terminator of `WriteRow`, regrouped. */
  lemma RowClose(buf: string, row: string)
    ensures buf + " \\hline\n" + row + " \\\\\n" == buf + (" \\hline\n" + row + " \\\\\n")
  {
    ConcatAssoc(buf + " \\hline\n", row, " \\\\\n");
    ConcatAssoc(buf, " \\hline\n", row + " \\\\\n");
    ConcatAssoc(" \\hline\n", row, " \\\\\n");
  }

  // Lemmas.

  lemma {:induction false} RenderSeqAppend(xs: seq<Core>, ys: seq<Core>)
    requires AllRenderable(xs) && AllRenderable(ys)
    ensures AllRenderable(xs + ys)
    ensures RenderSeq(xs + ys) == RenderSeq(xs) + RenderSeq(ys)
  {
    assert forall i | 0 <= i < |xs + ys| :: (xs + ys)[i] == if i < |xs| then xs[i] else ys[i - |xs|];
    if xs != [] {
      assert (xs + ys)[1..] == xs[1..] + ys;
      RenderSeqAppend(xs[1..], ys);
    } else {
      assert xs + ys == ys;
    }
  }

  lemma RenderSeqSnoc(cs: seq<Core>, c: Core)
    requires AllRenderable(cs) && Renderable(c)
    ensures AllRenderable(cs + [c])
    ensures RenderSeq(cs + [c]) == RenderSeq(cs) + Render(c)
  {
    RenderSeqAppend(cs, [c]);
    assert [c][1..] == [];
  }

  lemma {:induction false} RenderCellsSnoc(cs: seq<Core>, c: Core)
    requires AllRenderable(cs) && Renderable(c)
    ensures AllRenderable(cs + [c])
    ensures RenderCells(cs + [c]) == RenderCells(cs) + (" & " + Render(c))
  {
    var d := cs + [c];
    assert forall i | 0 <= i < |d| :: d[i] == if i < |cs| then cs[i] else c;
    if cs == [] {
      assert [c][1..] == [];
      assert d == [c];
    } else {
      assert d[0] == cs[0] && d[1..] == cs[1..] + [c];
      RenderCellsSnoc(cs[1..], c);
      ConcatAssoc(" & " + Render(cs[0]), RenderCells(cs[1..]), " & " + Render(c));
    }
  }

  lemma {:induction false} RenderRowsSnoc(rs: seq<Row>, r: Row)
    requires RowsRenderable(rs) && |r.cells| > 0 && AllRenderable(r.cells)
    ensures RowsRenderable(rs + [r])
    ensures RenderRows(rs + [r]) == RenderRows(rs) + (" \\hline\n" + RenderRow(r.cells) + " \\\\\n")
  {
    var d := rs + [r];
    assert forall i | 0 <= i < |d| :: d[i] == if i < |rs| then rs[i] else r;
    if rs == [] {
      assert [r][1..] == [];
      assert d == [r];
    } else {
      assert d[0] == rs[0] && d[1..] == rs[1..] + [r];
      RenderRowsSnoc(rs[1..], r);
      ConcatAssoc(" \\hline\n" + RenderRow(rs[0].cells) + " \\\\\n", RenderRows(rs[1..]),
        " \\hline\n" + RenderRow(r.cells) + " \\\\\n");
    }
  }
}
