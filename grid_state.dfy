/**
 * The measurement grid's state hook: a fixed number of rows, a growing number of
 * emitters, the grid itself, and the grids reported to the `onGridChange` callback.
 */
module GridState {
  import opened GridModel

  /** Rows are fixed at 4. */
  const NumLinhas: nat := 4
  /** The grid starts with 4 emitters and never has fewer. */
  const MinEmissores: int := 4

  /** `Math.max(...g.map(p => p.emissor))` for a non-empty grid. */
  function MaxEmissor(g: seq<GridPoint>): (m: int)
    requires g != []
    ensures forall p :: p in g ==> p.emissor <= m
    ensures exists k :: 0 <= k < |g| && g[k].emissor == m
  {
    if |g| == 1 then g[0].emissor
    else
      var init := g[..|g| - 1];
      assert g == init + [g[|g| - 1]];
      var m := MaxEmissor(init);
      if g[|g| - 1].emissor > m then g[|g| - 1].emissor else m
  }

  function Max(a: int, b: int): int {
    if a >= b then a else b
  }

  class GridStateHook {
    const numLinhas: nat
    var numEmissores: int
    var grid: seq<GridPoint>
    /** Every grid passed to `onGridChange`, oldest first. */
    var reported: seq<seq<GridPoint>>

    /** At least four emitters, and no point lies beyond the last emitter. */
    ghost predicate Valid()
      reads this
    {
      && numLinhas == NumLinhas
      && numEmissores >= MinEmissores
      && forall p :: p in grid ==> p.emissor <= numEmissores
    }

    /** The state before the mount effect runs: 4 x 4 and an empty grid. */
    constructor()
      ensures Valid()
      ensures numEmissores == MinEmissores && grid == [] && reported == []
    {
      numLinhas := NumLinhas;
      numEmissores := MinEmissores;
      grid := [];
      reported := [];
    }

    /**
     * The mount effect: a non-empty initial grid is taken as it is (without a report)
     * and widens the emitter count to its largest emitter; otherwise the default grid
     * is laid out and reported.
     */
    method Mount(initialGrid: seq<GridPoint>)
      requires Valid()
      modifies this
      ensures Valid()
      ensures initialGrid != [] ==>
                && grid == initialGrid
                && numEmissores == Max(MinEmissores, MaxEmissor(initialGrid))
                && reported == old(reported)
      ensures initialGrid == [] ==>
                && grid == InitialGrid(numLinhas, old(numEmissores))
                && numEmissores == old(numEmissores)
                && reported == old(reported) + [grid]
    {
      if |initialGrid| > 0 {
        grid := initialGrid;
        var maxEmissor := MaxEmissor(initialGrid);
        numEmissores := Max(MinEmissores, maxEmissor);
      } else {
        InitializeGrid(numLinhas, numEmissores as nat);
        InitialGridShape(numLinhas, old(numEmissores) as nat);
      }
    }

    /** `initializeGrid`: lay out `linhas` x `emissores` unmeasured points and report them. */
    method InitializeGrid(linhas: nat, emissores: nat)
      modifies this
      ensures grid == InitialGrid(linhas, emissores)
      ensures reported == old(reported) + [grid]
      ensures numEmissores == old(numEmissores)
    {
      var newGrid := BuildRowMajor(linhas, emissores, Unmeasured);
      UpdateGrid(newGrid);
    }

    /** `updateGrid`: replace the grid wholesale and report exactly that grid. */
    method UpdateGrid(newGrid: seq<GridPoint>)
      modifies this
      ensures grid == newGrid
      ensures reported == old(reported) + [newGrid]
      ensures numEmissores == old(numEmissores)
    {
      grid := newGrid;
      reported := reported + [newGrid];
    }

    /** `getMedidosCount`: the measured points, never more than the total. */
    function GetMedidosCount(): (n: nat)
      reads this
      ensures n <= GetTotalPoints()
    {
      MedidosCount(grid)
    }

    /** `getTotalPoints`: the number of points. */
    function GetTotalPoints(): nat
      reads this
    {
      |grid|
    }

    /** `getVazoes`: the non-zero means of measured points, in grid order. */
    function GetVazoes(): (vs: seq<real>)
      reads this
      ensures vs == GridModel.GetVazoes(grid)
      ensures |vs| <= GetMedidosCount()
    {
      GridModel.GetVazoes(grid)
    }
  }
}
