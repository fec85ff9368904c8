/**
 * The measurement modal's repetition editor: the list of repetitions (labelled A to H)
 * for the selected point, edited field by field, then filtered on save.
 */
module MeasurementModal {
  import opened Wrappers
  import opened Seqs
  import opened Calculations
  import opened GridModel

  /** One label per repetition slot; their number bounds the list. */
  const RepeticaoLabels: seq<string> := ["A", "B", "C", "D", "E", "F", "G", "H"]

  /** A repetition with nothing entered yet. */
  function EmptyRepeticao(id: Id): Repeticao {
    Repeticao(id, 0.0, 0.0, 0.0)
  }

  function IdsOf(reps: seq<Repeticao>): set<Id> {
    set r | r in reps :: r.id
  }

  /** No two repetitions share an identifier. */
  ghost predicate DistinctIds(reps: seq<Repeticao>) {
    forall i, j :: 0 <= i < j < |reps| ==> reps[i].id != reps[j].id
  }

  /** `parseFloat(value) || 0`: NaN and zero both give 0. */
  function NumberOrZero(value: Option<real>): real {
    if value.Some? then value.value else 0.0
  }

  /** The stored rate is what `calculateVazao` gives for the stored volume and time. */
  predicate Consistent(r: Repeticao) {
    r.vazao == CalculateVazao(Some(r.volume), Some(r.tempo))
  }

  /** `handleVolumeChange` on one repetition: new volume, rate recomputed only when a time is set. */
  function WithVolume(r: Repeticao, value: Option<real>): (u: Repeticao)
    ensures u.id == r.id && u.tempo == r.tempo && u.volume == NumberOrZero(value)
    ensures Consistent(u)
  {
    var volume := NumberOrZero(value);
    var vazao := if r.tempo > 0.0 then CalculateVazao(value, Some(r.tempo)) else 0.0;
    r.(volume := volume, vazao := vazao)
  }

  /** `handleTempoChange` on one repetition: new time, rate recomputed only when a volume is set. */
  function WithTempo(r: Repeticao, value: Option<real>): (u: Repeticao)
    ensures u.id == r.id && u.volume == r.volume && u.tempo == NumberOrZero(value)
    ensures Consistent(u)
  {
    var tempo := NumberOrZero(value);
    var vazao := if r.volume > 0.0 then CalculateVazao(Some(r.volume), value) else 0.0;
    r.(tempo := tempo, vazao := vazao)
  }

  function OtherThan(id: Id): Repeticao -> bool {
    (r: Repeticao) => r.id != id
  }

  /** Dropping one identifier from a list with distinct identifiers removes at most one entry. */
  lemma {:induction false} RemoveOne(reps: seq<Repeticao>, id: Id)
    requires DistinctIds(reps)
    ensures |Filter(reps, OtherThan(id))| >= |reps| - 1
  {
    if reps != [] {
      var init, last := reps[..|reps| - 1], reps[|reps| - 1];
      assert reps == init + [last];
      if last.id == id {
        forall r | r in init
          ensures OtherThan(id)(r)
        {
          var j :| 0 <= j < |init| && init[j] == r;
          assert reps[j] == r;
        }
        FilterAll(init, OtherThan(id));
      } else {
        RemoveOne(init, id);
      }
    }
  }

  /** A repetition worth saving: positive volume and positive time. */
  predicate Usable(r: Repeticao) {
    r.volume > 0.0 && r.tempo > 0.0
  }

  /** What `handleSave` does: alert and stay open, or save the usable repetitions and close. */
  datatype SaveOutcome = KeepOpen | SaveAndClose(valid: seq<Repeticao>)

  /**
   * `handleSave`: the usable repetitions, in their order, are passed on when there is
   * at least one; otherwise nothing is saved and the modal stays open.
   */
  function HandleSave(reps: seq<Repeticao>): (o: SaveOutcome)
    ensures o.KeepOpen? <==> forall r :: r in reps ==> !Usable(r)
    ensures o.SaveAndClose? ==>
              && o.valid != []
              && (forall r :: r in o.valid <==> r in reps && Usable(r))
              && o.valid == Filter(reps, Usable)
  {
    var valid := Filter(reps, Usable);
    if |valid| == 0 then KeepOpen
    else
      assert valid[0] in valid;
      SaveAndClose(valid)
  }

  /** Saving keeps distinct identifiers distinct. */
  lemma {:induction false} FilterKeepsDistinctIds(reps: seq<Repeticao>, keep: Repeticao -> bool)
    requires DistinctIds(reps)
    ensures DistinctIds(Filter(reps, keep))
  {
    if reps != [] {
      var init, last := reps[..|reps| - 1], reps[|reps| - 1];
      assert reps == init + [last];
      FilterKeepsDistinctIds(init, keep);
      var f := Filter(init, keep);
      forall i | 0 <= i < |f|
        ensures f[i].id != last.id
      {
        assert f[i] in init;
        var j :| 0 <= j < |init| && init[j] == f[i];
        assert reps[j] == f[i];
      }
    }
  }

  predicate PositiveVazao(r: Repeticao) {
    r.vazao > 0.0
  }

  /** The rates of the repetitions whose rate is positive, in order. */
  function PositiveVazoes(reps: seq<Repeticao>): (vs: seq<real>)
    ensures |vs| == Count(reps, PositiveVazao)
    ensures forall i :: 0 <= i < |vs| ==> vs[i] > 0.0
    ensures forall v :: v in vs <==> exists r :: r in reps && r.vazao == v && v > 0.0
    ensures vs == [] <==> forall r :: r in reps ==> r.vazao <= 0.0
  {
    var positive := Filter(reps, PositiveVazao);
    FilterLength(reps, PositiveVazao);
    assert forall i :: 0 <= i < |positive| ==> positive[i] in positive;
    assert positive != [] ==> positive[0] in positive;
    var vs := VazoesOf(positive);
    forall v | exists r :: r in reps && r.vazao == v && v > 0.0
      ensures v in vs
    {
      var r :| r in reps && r.vazao == v && v > 0.0;
      assert r in positive;
      var i :| 0 <= i < |positive| && positive[i] == r;
      assert vs[i] == v;
    }
    vs
  }

  /** The positive rates of a concatenation are those of each part, in order. */
  lemma PositiveVazoesConcat(a: seq<Repeticao>, b: seq<Repeticao>)
    ensures PositiveVazoes(a + b) == PositiveVazoes(a) + PositiveVazoes(b)
  {
    var pa, pb := Filter(a, PositiveVazao), Filter(b, PositiveVazao);
    calc {
      PositiveVazoes(a + b);
    ==
      VazoesOf(Filter(a + b, PositiveVazao));
    ==  { FilterConcat(a, b, PositiveVazao); }
      VazoesOf(pa + pb);
    ==  { VazoesOfConcat(pa, pb); }
      VazoesOf(pa) + VazoesOf(pb);
    ==
      PositiveVazoes(a) + PositiveVazoes(b);
    }
  }

  /** A single repetition contributes its rate exactly when that rate is positive. */
  lemma PositiveVazoesSingle(r: Repeticao)
    ensures PositiveVazoes([r]) == if r.vazao > 0.0 then [r.vazao] else []
  {
    assert [r][..0] == [];
  }

  /**
   * `calculateMedia`: the mean rate over the repetitions with a positive rate, shown to
   * two decimals; 0 when there is none.
   */
  function CalculateMedia(reps: seq<Repeticao>): (m: real)
    ensures m >= 0.0 && IsHundredths(m)
    ensures (forall r :: r in reps ==> r.vazao <= 0.0) ==> m == 0.0
    ensures PositiveVazoes(reps) != [] ==>
              Mean(PositiveVazoes(reps)) - 0.005 < m <= Mean(PositiveVazoes(reps)) + 0.005
  {
    var positive := PositiveVazoes(reps);
    if |positive| == 0 then 0.0
    else
      MeanBounds(positive, 0.0, positive[MaxIndex(positive)]);
      Round2(Mean(positive))
  }

  /** A repetition without a positive rate does not move the displayed mean, wherever it sits. */
  lemma MediaIgnoresNonPositive(before: seq<Repeticao>, r: Repeticao, after: seq<Repeticao>)
    requires r.vazao <= 0.0
    ensures CalculateMedia(before + [r] + after) == CalculateMedia(before + after)
  {
    FilterSkip(before, r, after, PositiveVazao);
    assert PositiveVazoes(before + [r] + after) == PositiveVazoes(before + after);
  }

  class RepetitionEditor {
    /** The repetitions shown in the modal. */
    var repeticoes: seq<Repeticao>

    /** Never empty, and the identifiers are distinct. */
    ghost predicate Valid()
      reads this
    {
      |repeticoes| >= 1 && DistinctIds(repeticoes)
    }

    /** The initial state: one empty repetition. */
    constructor(id: Id)
      ensures Valid() && repeticoes == [EmptyRepeticao(id)]
    {
      repeticoes := [EmptyRepeticao(id)];
    }

    /**
     * The effect that runs when the modal opens on a point: the point's stored
     * repetitions if it has any, else three empty ones.
     */
    method LoadOnOpen(open: bool, selected: Option<(int, int)>, grid: seq<GridPoint>, a: Id, b: Id, c: Id)
      requires Valid()
      requires a != b && b != c && a != c
      requires forall p :: p in grid ==> DistinctIds(p.repeticoes)
      modifies this
      ensures Valid()
      ensures !(open && selected.Some?) ==> repeticoes == old(repeticoes)
      ensures open && selected.Some? ==>
                var found := Find(grid, selected.value.0, selected.value.1);
                if found.Some? && found.value.repeticoes != []
                then repeticoes == found.value.repeticoes
                else repeticoes == [EmptyRepeticao(a), EmptyRepeticao(b), EmptyRepeticao(c)]
    {
      if open && selected.Some? {
        var point := Find(grid, selected.value.0, selected.value.1);
        if point.Some? && |point.value.repeticoes| > 0 {
          repeticoes := point.value.repeticoes;
        } else {
          repeticoes := [EmptyRepeticao(a), EmptyRepeticao(b), EmptyRepeticao(c)];
        }
      }
    }

    /** `handleVolumeChange`: only the repetition with identifier `id` changes. */
    method HandleVolumeChange(id: Id, value: Option<real>)
      requires Valid()
      modifies this
      ensures Valid()
      ensures |repeticoes| == |old(repeticoes)|
      ensures forall i :: 0 <= i < |repeticoes| ==>
                repeticoes[i] == if old(repeticoes)[i].id == id
                                 then WithVolume(old(repeticoes)[i], value)
                                 else old(repeticoes)[i]
    {
      var prev := repeticoes;
      repeticoes := seq(|prev|, i requires 0 <= i < |prev| =>
        if prev[i].id == id then WithVolume(prev[i], value) else prev[i]);
    }

    /** `handleTempoChange`: only the repetition with identifier `id` changes. */
    method HandleTempoChange(id: Id, value: Option<real>)
      requires Valid()
      modifies this
      ensures Valid()
      ensures |repeticoes| == |old(repeticoes)|
      ensures forall i :: 0 <= i < |repeticoes| ==>
                repeticoes[i] == if old(repeticoes)[i].id == id
                                 then WithTempo(old(repeticoes)[i], value)
                                 else old(repeticoes)[i]
    {
      var prev := repeticoes;
      repeticoes := seq(|prev|, i requires 0 <= i < |prev| =>
        if prev[i].id == id then WithTempo(prev[i], value) else prev[i]);
    }

    /** `addRepeticao`: one more empty repetition, only while there are fewer than eight. */
    method AddRepeticao(id: Id)
      requires Valid()
      requires id !in IdsOf(repeticoes)
      modifies this
      ensures Valid()
      ensures old(|repeticoes|) < |RepeticaoLabels| ==> repeticoes == old(repeticoes) + [EmptyRepeticao(id)]
      ensures old(|repeticoes|) >= |RepeticaoLabels| ==> repeticoes == old(repeticoes)
      ensures old(|repeticoes|) <= |RepeticaoLabels| ==> |repeticoes| <= |RepeticaoLabels|
    {
      if |repeticoes| < |RepeticaoLabels| {
        assert forall r :: r in repeticoes ==> r.id in IdsOf(repeticoes);
        repeticoes := repeticoes + [EmptyRepeticao(id)];
      }
    }

    /** `removeRepeticao`: drop the repetition with identifier `id`, only while more than one remains. */
    method RemoveRepeticao(id: Id)
      requires Valid()
      modifies this
      ensures Valid()
      ensures old(|repeticoes|) > 1 ==> repeticoes == Filter(old(repeticoes), OtherThan(id))
      ensures old(|repeticoes|) <= 1 ==> repeticoes == old(repeticoes)
      ensures |repeticoes| >= old(|repeticoes|) - 1
    {
      if |repeticoes| > 1 {
        RemoveOne(repeticoes, id);
        FilterKeepsDistinctIds(repeticoes, OtherThan(id));
        repeticoes := Filter(repeticoes, OtherThan(id));
      }
    }
  }
}
