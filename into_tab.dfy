/** Conversion of table content into a grid of rows (src/into_tab.rs),
    generic in the cell type. */
module IntoTab {

  /** A flat list becomes a grid with that list as its only row. */
  function FromRow<C>(v: seq<C>): (g: seq<seq<C>>)
    ensures |g| == 1 && g[0] == v
  {
    [v]
  }

  /** A grid is taken as it is. */
  function FromGrid<C>(g: seq<seq<C>>): (r: seq<seq<C>>)
    ensures |r| == |g| && forall i | 0 <= i < |g| :: r[i] == g[i]
  {
    g
  }

  /** Converting a converted grid again changes nothing. */
  lemma FromGridIdempotent<C>(v: seq<C>, g: seq<seq<C>>)
    ensures FromGrid(FromRow(v)) == FromRow(v)
    ensures FromGrid(FromGrid(g)) == FromGrid(g)
  {
  }
}
