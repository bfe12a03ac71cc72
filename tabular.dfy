/** Tables (src/tabular.rs): construction and the column specification.
    Rendering is in `Render`. */
module Tabulars {
  import opened Tree
  import IntoTab

  /** The grid as rows of cells. */
  function Grid(t: Tabular): (g: seq<seq<Core>>)
    ensures |g| == |t.rows| && forall i | 0 <= i < |g| :: g[i] == t.rows[i].cells
  {
    seq(|t.rows|, i requires 0 <= i < |t.rows| => t.rows[i].cells)
  }

  function FromGridValue(g: seq<seq<Core>>): (t: Tabular)
    ensures Grid(t) == g
  {
    Tabular(seq(|g|, i requires 0 <= i < |g| => Row(g[i])))
  }

  /** `Tabular::new` on a flat list: a table of exactly that one row. */
  function NewFromRow(content: seq<Core>): (t: Tabular)
    ensures Grid(t) == [content]
    ensures |t.rows| == 1 && |t.rows[0].cells| == |content|
  {
    FromGridValue(IntoTab.FromRow(content))
  }

  /** `Tabular::new` on a grid: the grid unchanged. */
  function NewFromGrid(content: seq<seq<Core>>): (t: Tabular)
    ensures Grid(t) == content
  {
    FromGridValue(IntoTab.FromGrid(content))
  }

  /** `|` followed by ` c |` once per column. */
  function ColumnSpec(columns: nat): string {
    if columns == 0 then "|" else ColumnSpec(columns - 1) + " c |"
  }

  lemma {:induction false} ColumnSpecShape(columns: nat)
    ensures |ColumnSpec(columns)| == 1 + 4 * columns
    ensures ColumnSpec(columns)[0] == '|'
    ensures forall k | 0 <= k < columns :: ColumnSpec(columns)[1 + 4 * k..5 + 4 * k] == " c |"
  {
    if columns > 0 {
      ColumnSpecShape(columns - 1);
      var prev := ColumnSpec(columns - 1);
      assert ColumnSpec(columns) == prev + " c |";
      forall k | 0 <= k < columns
        ensures ColumnSpec(columns)[1 + 4 * k..5 + 4 * k] == " c |"
      {
        if k < columns - 1 {
          assert ColumnSpec(columns)[1 + 4 * k..5 + 4 * k] == prev[1 + 4 * k..5 + 4 * k];
        }
      }
    }
  }

  /** `align`: the column specification, sized by the first row alone. */
  method Align(t: Tabular) returns (cols: string)
    requires |t.rows| > 0
    ensures cols == ColumnSpec(|t.rows[0].cells|)
  {
    var size := |t.rows[0].cells|;
    cols := "|";
    var i := 0;
    while i < size
      invariant 0 <= i <= size
      invariant cols == ColumnSpec(i)
    {
      cols := cols + " c |";
      i := i + 1;
    }
  }
}
