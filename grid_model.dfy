/**
 * The measurement grid's records (a repetition and a grid point) and the pure
 * operations on a grid: the row-major layout, the per-point updates, the queries.
 */
module GridModel {
  import opened Wrappers
  import opened Seqs
  import Calculations

  /** A repetition's identifier; fresh identifiers come from outside the model. */
  type Id = nat

  /** One volume/time trial at a point: mL, seconds and the derived L/h. */
  datatype Repeticao = Repeticao(id: Id, volume: real, tempo: real, vazao: real)

  /** A point of the grid, addressed by row (`linha`) and emitter (`emissor`). */
  datatype GridPoint = GridPoint(
    linha: int,
    emissor: int,
    medido: bool,
    repeticoes: seq<Repeticao>,
    mediaVazao: Option<real>)

  /** A freshly laid-out point: not measured, no repetitions, no mean. */
  function Unmeasured(linha: int, emissor: int): GridPoint {
    GridPoint(linha, emissor, false, [], None)
  }

  function LinhaOf(p: GridPoint): int { p.linha }
  function EmissorOf(p: GridPoint): int { p.emissor }

  predicate At(p: GridPoint, linha: int, emissor: int) {
    p.linha == linha && p.emissor == emissor
  }

  /** No two points of `g` share a coordinate. */
  ghost predicate UniqueCoords(g: seq<GridPoint>) {
    forall i, j :: 0 <= i < j < |g| ==> !At(g[j], g[i].linha, g[i].emissor)
  }

  // ---------------------------------------------------------------- row-major layout

  /** Row `linha` with emitters 1..n. */
  function Row<P>(linha: int, n: nat, mk: (int, int) -> P): seq<P> {
    seq(n, j => mk(linha, j + 1))
  }

  /** Rows 1..linhas, each with emitters 1..emissores: row by row, emitter by emitter. */
  function RowMajor<P>(linhas: nat, emissores: nat, mk: (int, int) -> P): seq<P> {
    if linhas == 0 then [] else RowMajor(linhas - 1, emissores, mk) + Row(linhas, emissores, mk)
  }

  /** Coordinate (i1, j1) precedes (i2, j2) in row-major order. */
  predicate Before(i1: int, j1: int, i2: int, j2: int) {
    i1 < i2 || (i1 == i2 && j1 < j2)
  }

  /**
   * The nested `for` loops that push one point per coordinate, rows outside and
   * emitters inside.
   */
  method BuildRowMajor<P>(linhas: nat, emissores: nat, mk: (int, int) -> P) returns (g: seq<P>)
    ensures g == RowMajor(linhas, emissores, mk)
  {
    g := [];
    for linha := 1 to linhas + 1
      invariant g == RowMajor(linha - 1, emissores, mk)
    {
      for emissor := 1 to emissores + 1
        invariant g == RowMajor(linha - 1, emissores, mk) + Row(linha, emissor - 1, mk)
      {
        assert Row(linha, emissor, mk) == Row(linha, emissor - 1, mk) + [mk(linha, emissor)];
        g := g + [mk(linha, emissor)];
      }
    }
  }

  /**
   * A row-major layout holds linhas * emissores points, each built from an in-range
   * coordinate, every in-range coordinate once, in strictly increasing row-major order.
   */
  lemma {:induction false} RowMajorShape<P>(
    linhas: nat, emissores: nat, mk: (int, int) -> P, linhaOf: P -> int, emissorOf: P -> int)
    requires forall i, j :: linhaOf(mk(i, j)) == i && emissorOf(mk(i, j)) == j
    ensures |RowMajor(linhas, emissores, mk)| == linhas * emissores
    ensures forall p :: p in RowMajor(linhas, emissores, mk) ==>
              p == mk(linhaOf(p), emissorOf(p)) &&
              1 <= linhaOf(p) <= linhas && 1 <= emissorOf(p) <= emissores
    ensures forall i, j :: 1 <= i <= linhas && 1 <= j <= emissores ==>
              mk(i, j) in RowMajor(linhas, emissores, mk)
    ensures var g := RowMajor(linhas, emissores, mk);
            forall k1, k2 :: 0 <= k1 < k2 < |g| ==>
              Before(linhaOf(g[k1]), emissorOf(g[k1]), linhaOf(g[k2]), emissorOf(g[k2]))
  {
    RowMajorLength(linhas, emissores, mk);
    RowMajorMembers(linhas, emissores, mk, linhaOf, emissorOf);
    RowMajorCovers(linhas, emissores, mk);
    RowMajorOrdered(linhas, emissores, mk, linhaOf, emissorOf);
  }

  lemma {:induction false} RowMajorLength<P>(linhas: nat, emissores: nat, mk: (int, int) -> P)
    ensures |RowMajor(linhas, emissores, mk)| == linhas * emissores
  {
    if linhas > 0 {
      RowMajorLength(linhas - 1, emissores, mk);
      assert (linhas - 1) * emissores + emissores == linhas * emissores;
    }
  }

  lemma {:induction false} RowMajorMembers<P>(
    linhas: nat, emissores: nat, mk: (int, int) -> P, linhaOf: P -> int, emissorOf: P -> int)
    requires forall i, j :: linhaOf(mk(i, j)) == i && emissorOf(mk(i, j)) == j
    ensures forall p :: p in RowMajor(linhas, emissores, mk) ==>
              p == mk(linhaOf(p), emissorOf(p)) &&
              1 <= linhaOf(p) <= linhas && 1 <= emissorOf(p) <= emissores
  {
    if linhas > 0 {
      var prev := RowMajor(linhas - 1, emissores, mk);
      var row := Row(linhas, emissores, mk);
      RowMajorMembers(linhas - 1, emissores, mk, linhaOf, emissorOf);
      forall p | p in prev + row
        ensures p == mk(linhaOf(p), emissorOf(p))
        ensures 1 <= linhaOf(p) <= linhas && 1 <= emissorOf(p) <= emissores
      {
        if p !in prev {
          var j :| 0 <= j < |row| && row[j] == p;
        }
      }
    }
  }

  lemma {:induction false} RowMajorCovers<P>(linhas: nat, emissores: nat, mk: (int, int) -> P)
    ensures forall i, j :: 1 <= i <= linhas && 1 <= j <= emissores ==>
              mk(i, j) in RowMajor(linhas, emissores, mk)
  {
    if linhas > 0 {
      var prev := RowMajor(linhas - 1, emissores, mk);
      var row := Row(linhas, emissores, mk);
      RowMajorCovers(linhas - 1, emissores, mk);
      forall i, j | 1 <= i <= linhas && 1 <= j <= emissores
        ensures mk(i, j) in prev + row
      {
        if i == linhas {
          assert row[j - 1] == mk(i, j);
        } else {
          assert mk(i, j) in prev;
        }
      }
    }
  }

  /** The points of `g` are in strictly increasing row-major order of their coordinates. */
  predicate Ordered<P>(g: seq<P>, linhaOf: P -> int, emissorOf: P -> int) {
    forall k1, k2 :: 0 <= k1 < k2 < |g| ==>
      Before(linhaOf(g[k1]), emissorOf(g[k1]), linhaOf(g[k2]), emissorOf(g[k2]))
  }

  lemma {:induction false} RowMajorOrdered<P>(
    linhas: nat, emissores: nat, mk: (int, int) -> P, linhaOf: P -> int, emissorOf: P -> int)
    requires forall i, j :: linhaOf(mk(i, j)) == i && emissorOf(mk(i, j)) == j
    ensures Ordered(RowMajor(linhas, emissores, mk), linhaOf, emissorOf)
  {
    if linhas > 0 {
      var prev := RowMajor(linhas - 1, emissores, mk);
      var row := Row(linhas, emissores, mk);
      var g := prev + row;
      RowMajorOrdered(linhas - 1, emissores, mk, linhaOf, emissorOf);
      RowMajorMembers(linhas - 1, emissores, mk, linhaOf, emissorOf);
      forall k1, k2 | 0 <= k1 < k2 < |g|
        ensures Before(linhaOf(g[k1]), emissorOf(g[k1]), linhaOf(g[k2]), emissorOf(g[k2]))
      {
        if k1 < |prev| {
          assert g[k1] == prev[k1] && prev[k1] in prev;
          if k2 >= |prev| {
            assert g[k2] == row[k2 - |prev|] == mk(linhas, k2 - |prev| + 1);
            assert linhaOf(g[k1]) < linhas == linhaOf(g[k2]);
          } else {
            assert g[k2] == prev[k2];
          }
        } else {
          assert g[k1] == row[k1 - |prev|] == mk(linhas, k1 - |prev| + 1);
          assert g[k2] == row[k2 - |prev|] == mk(linhas, k2 - |prev| + 1);
          assert emissorOf(g[k1]) < emissorOf(g[k2]);
        }
      }
    }
  }

  /** The initial grid of `linhas` x `emissores` unmeasured points. */
  function InitialGrid(linhas: nat, emissores: nat): seq<GridPoint> {
    RowMajor(linhas, emissores, Unmeasured)
  }

  /**
   * The initial grid has every coordinate of the rectangle exactly once, in row-major
   * order, and nothing in it is measured.
   */
  lemma InitialGridShape(linhas: nat, emissores: nat)
    ensures var g := InitialGrid(linhas, emissores);
            && |g| == linhas * emissores
            && (forall i, j :: 1 <= i <= linhas && 1 <= j <= emissores ==> Unmeasured(i, j) in g)
            && (forall k :: 0 <= k < |g| ==>
                  g[k] == Unmeasured(g[k].linha, g[k].emissor) &&
                  1 <= g[k].linha <= linhas && 1 <= g[k].emissor <= emissores)
            && (forall k1, k2 :: 0 <= k1 < k2 < |g| ==>
                  Before(g[k1].linha, g[k1].emissor, g[k2].linha, g[k2].emissor))
            && UniqueCoords(g)
            && MedidosCount(g) == 0
  {
    RowMajorShape(linhas, emissores, Unmeasured, LinhaOf, EmissorOf);
    var g := InitialGrid(linhas, emissores);
    assert forall k :: 0 <= k < |g| ==> g[k] in g;
  }

  // ---------------------------------------------------------------- column edits

  /** The points `addColumn` appends: rows 1..n of emitter `emissor`, unmeasured. */
  function Column(n: nat, emissor: int): seq<GridPoint> {
    seq(n, i => Unmeasured(i + 1, emissor))
  }

  function OutsideColumn(emissor: int): GridPoint -> bool {
    (p: GridPoint) => p.emissor != emissor
  }

  /** The grid without the points of emitter `emissor`, the rest in order. */
  function WithoutColumn(g: seq<GridPoint>, emissor: int): seq<GridPoint> {
    Filter(g, OutsideColumn(emissor))
  }

  /**
   * Appending a column past every existing emitter and then dropping that column gives
   * back the grid unchanged.
   */
  lemma AppendThenDropColumn(g: seq<GridPoint>, n: nat, emissor: int)
    requires forall p :: p in g ==> p.emissor < emissor
    ensures WithoutColumn(g + Column(n, emissor), emissor) == g
  {
    var keep := OutsideColumn(emissor);
    var col := Column(n, emissor);
    forall p | p in g
      ensures keep(p)
    {
    }
    forall p | p in col
      ensures !keep(p)
    {
      var i :| 0 <= i < |col| && col[i] == p;
    }
    FilterAll(g, keep);
    FilterNone(col, keep);
    calc {
      Filter(g + col, keep);
    ==  { FilterConcat(g, col, keep); }
      Filter(g, keep) + Filter(col, keep);
    ==
      g + [];
    }
    assert g + [] == g;
  }

  // ---------------------------------------------------------------- point edits

  /** The grid with the points at (linha, emissor) measured by `repeticoes`, mean `media`. */
  function SaveAt(g: seq<GridPoint>, linha: int, emissor: int, repeticoes: seq<Repeticao>, media: real)
    : seq<GridPoint>
  {
    seq(|g|, i requires 0 <= i < |g| =>
      if At(g[i], linha, emissor)
      then g[i].(medido := true, repeticoes := repeticoes, mediaVazao := Some(media))
      else g[i])
  }

  /** The grid with the points at (linha, emissor) back to unmeasured, without repetitions or mean. */
  function ClearAt(g: seq<GridPoint>, linha: int, emissor: int): seq<GridPoint> {
    seq(|g|, i requires 0 <= i < |g| =>
      if At(g[i], linha, emissor)
      then g[i].(medido := false, repeticoes := [], mediaVazao := None)
      else g[i])
  }

  /** Clearing a point erases whatever a previous save wrote there. */
  lemma ClearUndoesSave(g: seq<GridPoint>, linha: int, emissor: int, repeticoes: seq<Repeticao>, media: real)
    ensures ClearAt(SaveAt(g, linha, emissor, repeticoes, media), linha, emissor) == ClearAt(g, linha, emissor)
  {
  }

  /** On a grid whose coordinates are unique, an edit at one coordinate is an update of one index. */
  lemma EditIsSingleUpdate(g: seq<GridPoint>, k: nat, repeticoes: seq<Repeticao>, media: real)
    requires UniqueCoords(g) && k < |g|
    ensures SaveAt(g, g[k].linha, g[k].emissor, repeticoes, media)
            == g[k := g[k].(medido := true, repeticoes := repeticoes, mediaVazao := Some(media))]
    ensures ClearAt(g, g[k].linha, g[k].emissor)
            == g[k := g[k].(medido := false, repeticoes := [], mediaVazao := None)]
  {
  }

  /**
   * Saving a measurement at an existing point of a grid with unique coordinates adds one
   * to the measured count if the point was unmeasured, and clearing it removes one if
   * it was measured.
   */
  lemma {:induction false} EditCounts(g: seq<GridPoint>, k: nat, repeticoes: seq<Repeticao>, media: real)
    requires UniqueCoords(g) && k < |g|
    ensures MedidosCount(SaveAt(g, g[k].linha, g[k].emissor, repeticoes, media))
            == MedidosCount(g) + (if g[k].medido then 0 else 1)
    ensures MedidosCount(ClearAt(g, g[k].linha, g[k].emissor))
            == MedidosCount(g) - (if g[k].medido then 1 else 0)
  {
    EditIsSingleUpdate(g, k, repeticoes, media);
    CountUpdate(g, k, g[k].(medido := true, repeticoes := repeticoes, mediaVazao := Some(media)), IsMedido);
    CountUpdate(g, k, g[k].(medido := false, repeticoes := [], mediaVazao := None), IsMedido);
  }

  // ---------------------------------------------------------------- queries

  /** The rates of a list of repetitions, in order. */
  function VazoesOf(repeticoes: seq<Repeticao>): (vs: seq<real>)
    ensures |vs| == |repeticoes|
    ensures forall i :: 0 <= i < |vs| ==> vs[i] == repeticoes[i].vazao
  {
    seq(|repeticoes|, i requires 0 <= i < |repeticoes| => repeticoes[i].vazao)
  }

  lemma VazoesOfConcat(a: seq<Repeticao>, b: seq<Repeticao>)
    ensures VazoesOf(a + b) == VazoesOf(a) + VazoesOf(b)
  {
  }

  /** `grid.find`: the first point at (linha, emissor), if any. */
  function Find(g: seq<GridPoint>, linha: int, emissor: int): (r: Option<GridPoint>)
    ensures r.None? <==> forall p :: p in g ==> !At(p, linha, emissor)
    ensures r.Some? ==> exists k :: 0 <= k < |g| && g[k] == r.value && At(r.value, linha, emissor) &&
                          forall i :: 0 <= i < k ==> !At(g[i], linha, emissor)
  {
    if g == [] then None
    else if At(g[0], linha, emissor) then Some(g[0])
    else
      var r := Find(g[1..], linha, emissor);
      assert forall p :: p in g ==> p == g[0] || p in g[1..];
      if r.Some? then
        var k :| 0 <= k < |g[1..]| && g[1..][k] == r.value && At(r.value, linha, emissor) &&
                 forall i :: 0 <= i < k ==> !At(g[1..][i], linha, emissor);
        assert g[k + 1] == r.value;
        r
      else r
  }


  predicate IsMedido(p: GridPoint) { p.medido }

  /** `getMedidosCount`: how many points are measured. */
  function MedidosCount(g: seq<GridPoint>): (n: nat)
    ensures n <= |g|
  {
    Count(g, IsMedido)
  }

  /** A point whose mean enters the statistics: measured, with a defined non-zero mean. */
  predicate HasRate(p: GridPoint) {
    p.medido && p.mediaVazao.Some? && p.mediaVazao.value != 0.0
  }

  /** The means of points that all have one, in order. */
  function Means(ps: seq<GridPoint>): (vs: seq<real>)
    requires forall p :: p in ps ==> p.mediaVazao.Some?
    ensures |vs| == |ps|
    ensures forall i :: 0 <= i < |ps| ==> Some(vs[i]) == ps[i].mediaVazao
  {
    assert forall i :: 0 <= i < |ps| ==> ps[i] in ps;
    seq(|ps|, i requires 0 <= i < |ps| => ps[i].mediaVazao.value)
  }

  /** `getVazoes`: the means of the points with a rate, in grid order. */
  function GetVazoes(g: seq<GridPoint>): (vs: seq<real>)
    ensures |vs| == Count(g, HasRate) <= MedidosCount(g)
    ensures forall v :: v in vs ==> v != 0.0
    ensures forall v :: v in vs <==> exists p :: p in g && HasRate(p) && p.mediaVazao == Some(v)
  {
    var rated := Filter(g, HasRate);
    FilterLength(g, HasRate);
    CountMonotone(g, HasRate, IsMedido);
    MeansMembers(rated);
    Means(rated)
  }

  lemma MeansMembers(ps: seq<GridPoint>)
    requires forall p :: p in ps ==> p.mediaVazao.Some?
    ensures forall v :: v in Means(ps) <==> exists p :: p in ps && p.mediaVazao == Some(v)
  {
    var vs := Means(ps);
    forall v | exists p :: p in ps && p.mediaVazao == Some(v)
      ensures v in vs
    {
      var p :| p in ps && p.mediaVazao == Some(v);
      var i :| 0 <= i < |ps| && ps[i] == p;
      assert vs[i] == v;
    }
  }

  /** The rates of a concatenation are the rates of each part, in order. */
  lemma GetVazoesConcat(a: seq<GridPoint>, b: seq<GridPoint>)
    ensures GetVazoes(a + b) == GetVazoes(a) + GetVazoes(b)
  {
    var ra, rb := Filter(a, HasRate), Filter(b, HasRate);
    calc {
      GetVazoes(a + b);
    ==
      Means(Filter(a + b, HasRate));
    ==  { FilterConcat(a, b, HasRate); }
      Means(ra + rb);
    ==  { MeansConcat(ra, rb); }
      Means(ra) + Means(rb);
    ==
      GetVazoes(a) + GetVazoes(b);
    }
  }

  lemma MeansConcat(a: seq<GridPoint>, b: seq<GridPoint>)
    requires forall p :: p in a ==> p.mediaVazao.Some?
    requires forall p :: p in b ==> p.mediaVazao.Some?
    ensures forall p :: p in a + b ==> p.mediaVazao.Some?
    ensures Means(a + b) == Means(a) + Means(b)
  {
    assert forall p :: p in a + b ==> p in a || p in b;
  }

  /** A single point contributes its mean exactly when it is measured with a non-zero mean. */
  lemma GetVazoesSingle(p: GridPoint)
    ensures GetVazoes([p]) == if HasRate(p) then [p.mediaVazao.value] else []
  {
    assert [p][..0] == [];
  }
}
