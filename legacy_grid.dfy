/**
 * The older stand-alone measurement grid: a rectangle of cells that are only marked
 * measured or not, toggled one at a time, with its own labels and a completeness notice.
 */
module LegacyGrid {
  import opened Seqs
  import opened Decimal
  import GridModel
  import Labels

  /** A cell of the legacy grid: its coordinate and whether it was measured. */
  datatype Cell = Cell(linha: int, emissor: int, medido: bool)

  function UnmeasuredCell(linha: int, emissor: int): Cell {
    Cell(linha, emissor, false)
  }

  function CellLinha(c: Cell): int { c.linha }
  function CellEmissor(c: Cell): int { c.emissor }

  predicate CellAt(c: Cell, linha: int, emissor: int) {
    c.linha == linha && c.emissor == emissor
  }

  /** No two cells share a coordinate. */
  ghost predicate UniqueCells(g: seq<Cell>) {
    forall i, j :: 0 <= i < j < |g| ==> !CellAt(g[j], g[i].linha, g[i].emissor)
  }

  /** A loop bound `1 <= k <= n` runs zero times when `n` is not positive. */
  function LoopCount(n: int): nat {
    if n < 0 then 0 else n
  }

  /** The freshly laid-out rectangle: rows outside, emitters inside, nothing measured. */
  function FreshCells(numLinhas: int, numEmissores: int): seq<Cell> {
    GridModel.RowMajor(LoopCount(numLinhas), LoopCount(numEmissores), UnmeasuredCell)
  }

  /**
   * The fresh rectangle has one unmeasured cell per in-range coordinate, in row-major
   * order, no coordinate twice and nothing measured.
   */
  lemma FreshCellsShape(numLinhas: int, numEmissores: int)
    ensures var g := FreshCells(numLinhas, numEmissores);
            && |g| == LoopCount(numLinhas) * LoopCount(numEmissores)
            && (forall i, j :: 1 <= i <= numLinhas && 1 <= j <= numEmissores ==> UnmeasuredCell(i, j) in g)
            && (forall k :: 0 <= k < |g| ==>
                  !g[k].medido && 1 <= g[k].linha <= numLinhas && 1 <= g[k].emissor <= numEmissores)
            && (forall k1, k2 :: 0 <= k1 < k2 < |g| ==>
                  GridModel.Before(g[k1].linha, g[k1].emissor, g[k2].linha, g[k2].emissor))
            && UniqueCells(g)
            && MedidosCount(g) == 0
  {
    GridModel.RowMajorShape(LoopCount(numLinhas), LoopCount(numEmissores), UnmeasuredCell, CellLinha, CellEmissor);
    var g := FreshCells(numLinhas, numEmissores);
    assert forall k :: 0 <= k < |g| ==> g[k] in g;
  }

  /** `togglePoint` on the cell list: flip `medido` at (linha, emissor), keep everything else. */
  function ToggleAt(g: seq<Cell>, linha: int, emissor: int): (r: seq<Cell>)
    ensures |r| == |g|
    ensures forall i :: 0 <= i < |g| ==>
              r[i].linha == g[i].linha && r[i].emissor == g[i].emissor &&
              r[i].medido == (if CellAt(g[i], linha, emissor) then !g[i].medido else g[i].medido)
  {
    seq(|g|, i requires 0 <= i < |g| =>
      if CellAt(g[i], linha, emissor) then g[i].(medido := !g[i].medido) else g[i])
  }

  /** Toggling the same cell twice gives back the grid. */
  lemma ToggleTwice(g: seq<Cell>, linha: int, emissor: int)
    ensures ToggleAt(ToggleAt(g, linha, emissor), linha, emissor) == g
  {
    var r := ToggleAt(ToggleAt(g, linha, emissor), linha, emissor);
    assert forall i :: 0 <= i < |g| ==> r[i] == g[i];
  }

  /** Toggling a coordinate that no cell has changes nothing. */
  lemma ToggleAbsent(g: seq<Cell>, linha: int, emissor: int)
    requires forall c :: c in g ==> !CellAt(c, linha, emissor)
    ensures ToggleAt(g, linha, emissor) == g
  {
    var r := ToggleAt(g, linha, emissor);
    forall i | 0 <= i < |g|
      ensures r[i] == g[i]
    {
      assert g[i] in g;
    }
  }

  predicate IsMedido(c: Cell) { c.medido }

  /** `getMedidosCount`: how many cells are measured. */
  function MedidosCount(g: seq<Cell>): (n: nat)
    ensures n <= |g|
  {
    Count(g, IsMedido)
  }

  /**
   * With unique coordinates, toggling the cell at index `k` changes the measured count by
   * exactly one: up if it was unmeasured, down if it was measured.
   */
  lemma ToggleCount(g: seq<Cell>, k: nat)
    requires UniqueCells(g) && k < |g|
    ensures MedidosCount(ToggleAt(g, g[k].linha, g[k].emissor))
            == if g[k].medido then MedidosCount(g) - 1 else MedidosCount(g) + 1
  {
    var flipped := g[k].(medido := !g[k].medido);
    assert ToggleAt(g, g[k].linha, g[k].emissor) == g[k := flipped];
    CountUpdate(g, k, flipped, IsMedido);
  }

  /** The local row label: 1ª, 1/3, 2/3, "Última" for the last row, then the ordinal. */
  function LinhaLabel(linha: int, numLinhas: int): string {
    if linha == 1 then "1ª"
    else if linha == 2 then "1/3"
    else if linha == 3 then "2/3"
    else if linha == numLinhas then "Última"
    else IntToString(linha) + "ª"
  }

  /**
   * The local row label differs from the shared one only on the last row beyond the
   * third, which it spells out in full.
   */
  lemma LinhaLabelAgainstShared(linha: int, numLinhas: int)
    ensures LinhaLabel(linha, numLinhas)
            == if linha !in {1, 2, 3} && linha == numLinhas then "Última" else Labels.LinhaLabel(linha, numLinhas)
    ensures Labels.LinhaLabel(linha, numLinhas) == "Últ." <==> linha !in {1, 2, 3} && linha == numLinhas
  {
    if linha !in {1, 2, 3} && linha != numLinhas {
      SignShown(linha);
      var digits := IntToString(linha);
      assert (digits + "ª")[0] == digits[0];
      if linha >= 0 {
        assert IsDigit(digits[0]);
      }
    }
  }

  /** The local emitter label: the first four are spelt out, the rest use the numeral. */
  function EmissorLabel(emissor: int): string {
    if emissor == 1 then "1º"
    else if emissor == 2 then "2º"
    else if emissor == 3 then "3º"
    else if emissor == 4 then "4º"
    else IntToString(emissor) + "º"
  }

  /** The special cases of the emitter label agree with the general rule: every label is the ordinal. */
  lemma EmissorLabelIsOrdinal(emissor: int)
    ensures EmissorLabel(emissor) == IntToString(emissor) + "º"
  {
    SmallNumerals();
  }

  /** The notice under the grid. */
  datatype Notice = Faltam(missing: int) | Completo | NoNotice

  /**
   * The two independent conditions: "Faltam k ponto(s)" when some points are missing,
   * "Completo!" when all are measured.
   */
  function CompletenessNotice(medidos: int, total: int): (n: Notice)
    ensures n.Faltam? <==> medidos < total
    ensures n.Faltam? ==> n.missing == total - medidos && n.missing >= 1
    ensures n.Completo? <==> medidos == total
  {
    if medidos < total then Faltam(total - medidos)
    else if medidos == total then Completo
    else NoNotice
  }

  /** For any grid the notice is shown: either the number still missing or the completion. */
  lemma NoticeAlwaysShown(g: seq<Cell>)
    ensures CompletenessNotice(MedidosCount(g), |g|) != NoNotice
    ensures CompletenessNotice(MedidosCount(g), |g|) == Completo <==> forall c :: c in g ==> c.medido
  {
    CountAllPass(g, IsMedido);
  }

  /** The legacy grid component: its size props, its cells and what it reported. */
  class MeasurementGrid {
    const numLinhas: int
    const numEmissores: int
    var grid: seq<Cell>
    /** Every grid passed to `onGridChange`, oldest first. */
    var reported: seq<seq<Cell>>

    /** Mounting: the props are fixed and the state starts empty. */
    constructor(numLinhas: int, numEmissores: int)
      ensures this.numLinhas == numLinhas && this.numEmissores == numEmissores
      ensures grid == [] && reported == []
    {
      this.numLinhas := numLinhas;
      this.numEmissores := numEmissores;
      grid := [];
      reported := [];
    }

    /**
     * The initialisation effect: a non-empty `initialGrid` is taken as it is; otherwise
     * the rectangle is laid out by the nested loops. Nothing is reported.
     */
    method Initialize(initialGrid: seq<Cell>)
      modifies this
      ensures |initialGrid| > 0 ==> grid == initialGrid
      ensures |initialGrid| == 0 ==> grid == FreshCells(numLinhas, numEmissores)
      ensures reported == old(reported)
    {
      if |initialGrid| > 0 {
        grid := initialGrid;
      } else {
        grid := GridModel.BuildRowMajor(LoopCount(numLinhas), LoopCount(numEmissores), UnmeasuredCell);
      }
    }

    /** `togglePoint`: flip one cell and report the new grid. */
    method TogglePoint(linha: int, emissor: int)
      modifies this
      ensures grid == ToggleAt(old(grid), linha, emissor)
      ensures reported == old(reported) + [grid]
    {
      grid := ToggleAt(grid, linha, emissor);
      reported := reported + [grid];
    }

    function GetMedidosCount(): (n: nat)
      reads this
      ensures n <= GetTotalPoints()
    {
      MedidosCount(grid)
    }

    function GetTotalPoints(): nat
      reads this
    {
      |grid|
    }

    /** The notice currently displayed. */
    function Notice(): (n: Notice)
      reads this
      ensures n != NoNotice
      ensures n.Faltam? ==> n.missing == GetTotalPoints() - GetMedidosCount()
    {
      NoticeAlwaysShown(grid);
      CompletenessNotice(GetMedidosCount(), GetTotalPoints())
    }
  }
}
