/**
 * The grid actions: add or remove the last emitter column, and save or clear the
 * measurement of one point. Each acts on the state hook and reports the new grid.
 */
module GridActions {
  import opened Wrappers
  import opened Calculations
  import opened GridModel
  import opened GridState

  /** `addColumn`: append one unmeasured point per row for a new last emitter. */
  method AddColumn(s: GridStateHook)
    requires s.Valid()
    modifies s
    ensures s.Valid()
    ensures s.numEmissores == old(s.numEmissores) + 1
    ensures s.grid == old(s.grid) + Column(s.numLinhas, s.numEmissores)
    ensures s.reported == old(s.reported) + [s.grid]
  {
    var newNumEmissores := s.numEmissores + 1;
    var newGrid := s.grid;
    for linha := 1 to s.numLinhas + 1
      invariant newGrid == s.grid + Column(linha - 1, newNumEmissores)
    {
      assert Column(linha, newNumEmissores) == Column(linha - 1, newNumEmissores) + [Unmeasured(linha, newNumEmissores)];
      newGrid := newGrid + [Unmeasured(linha, newNumEmissores)];
    }
    s.numEmissores := newNumEmissores;
    s.UpdateGrid(newGrid);
  }

  /** `removeLastColumn`: drop the points of the last emitter, unless only four emitters remain. */
  method RemoveLastColumn(s: GridStateHook)
    requires s.Valid()
    modifies s
    ensures s.Valid()
    ensures old(s.numEmissores) <= MinEmissores ==>
              s.grid == old(s.grid) && s.numEmissores == old(s.numEmissores) && s.reported == old(s.reported)
    ensures old(s.numEmissores) > MinEmissores ==>
              && s.grid == WithoutColumn(old(s.grid), old(s.numEmissores))
              && s.numEmissores == old(s.numEmissores) - 1
              && s.reported == old(s.reported) + [s.grid]
  {
    if s.numEmissores <= MinEmissores {
      return;
    }
    var newGrid := WithoutColumn(s.grid, s.numEmissores);
    s.numEmissores := s.numEmissores - 1;
    s.UpdateGrid(newGrid);
  }

  /**
   * `saveMeasurement`: mark the point measured with the given repetitions and their
   * mean rate; an empty list changes nothing.
   */
  method SaveMeasurement(s: GridStateHook, linha: int, emissor: int, repeticoes: seq<Repeticao>)
    requires s.Valid()
    modifies s
    ensures s.Valid()
    ensures s.numEmissores == old(s.numEmissores)
    ensures repeticoes == [] ==> s.grid == old(s.grid) && s.reported == old(s.reported)
    ensures repeticoes != [] ==>
              && s.grid == SaveAt(old(s.grid), linha, emissor, repeticoes, CalculateMediaVazao(VazoesOf(repeticoes)))
              && s.reported == old(s.reported) + [s.grid]
  {
    if |repeticoes| == 0 {
      return;
    }
    var mediaVazao := Sum(VazoesOf(repeticoes)) / (|repeticoes| as real);
    var newGrid := SaveAt(s.grid, linha, emissor, repeticoes, mediaVazao);
    assert forall p :: p in newGrid ==> exists q :: q in s.grid && q.emissor == p.emissor;
    s.UpdateGrid(newGrid);
  }

  /** `removeMeasurement`: mark the point unmeasured, with no repetitions and no mean. */
  method RemoveMeasurement(s: GridStateHook, linha: int, emissor: int)
    requires s.Valid()
    modifies s
    ensures s.Valid()
    ensures s.numEmissores == old(s.numEmissores)
    ensures s.grid == ClearAt(old(s.grid), linha, emissor)
    ensures s.reported == old(s.reported) + [s.grid]
  {
    var newGrid := ClearAt(s.grid, linha, emissor);
    assert forall p :: p in newGrid ==> exists q :: q in s.grid && q.emissor == p.emissor;
    s.UpdateGrid(newGrid);
  }

  /**
   * Adding a column and then removing the last one restores the grid and the emitter
   * count; only the two reports remain.
   */
  method AddColumnThenRemoveLastColumn(s: GridStateHook)
    requires s.Valid()
    modifies s
    ensures s.Valid()
    ensures s.grid == old(s.grid) && s.numEmissores == old(s.numEmissores)
    ensures |s.reported| == |old(s.reported)| + 2
  {
    ghost var g0, n0 := s.grid, s.numEmissores;
    AddColumn(s);
    RemoveLastColumn(s);
    AppendThenDropColumn(g0, s.numLinhas, n0 + 1);
  }
}
