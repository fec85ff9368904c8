/**
 * Row and emitter labels of the measurement grid: 1st, the one-third and two-thirds
 * positions, the last, and an ordinal numeral for anything else. The first rule that
 * matches wins.
 */
module Labels {
  import opened Decimal

  /** The label of row `linha` in a grid of `totalLinhas` rows. */
  function LinhaLabel(linha: int, totalLinhas: int): string {
    if linha == 1 then "1ª"
    else if linha == 2 then "1/3"
    else if linha == 3 then "2/3"
    else if linha == totalLinhas then "Últ."
    else IntToString(linha) + "ª"
  }

  /** The label of emitter `emissor` in a grid of `totalEmissores` emitters. */
  function EmissorLabel(emissor: int, totalEmissores: int): string {
    if emissor == 1 then "1º"
    else if emissor == 2 then "1/3"
    else if emissor == 3 then "2/3"
    else if emissor == totalEmissores then "Últ."
    else IntToString(emissor) + "º"
  }

  /** Every row label follows the ordered rules; in particular row 2 of a 2-row grid is "1/3", not "Últ.". */
  lemma LinhaLabelRules(linha: int, totalLinhas: int)
    ensures linha == 1 ==> LinhaLabel(linha, totalLinhas) == "1ª"
    ensures linha == 2 ==> LinhaLabel(linha, totalLinhas) == "1/3"
    ensures linha == 3 ==> LinhaLabel(linha, totalLinhas) == "2/3"
    ensures linha !in {1, 2, 3} && linha == totalLinhas ==> LinhaLabel(linha, totalLinhas) == "Últ."
    ensures linha !in {1, 2, 3} && linha != totalLinhas ==>
              LinhaLabel(linha, totalLinhas) == IntToString(linha) + "ª"
  {
  }

  /** Adding a suffix keeps distinct prefixes distinct. */
  lemma SuffixCancel(a: string, b: string, suffix: string)
    requires a + suffix == b + suffix
    ensures a == b
  {
    assert a == (a + suffix)[..|a|];
    assert |a| == |b|;
    assert b == (b + suffix)[..|b|];
  }

  /** Within one grid, different rows always get different labels. */
  lemma LinhaLabelsDistinct(a: int, b: int, totalLinhas: int)
    requires 1 <= a < b <= totalLinhas
    ensures LinhaLabel(a, totalLinhas) != LinhaLabel(b, totalLinhas)
  {
    SmallNumerals();
    var la, lb := LinhaLabel(a, totalLinhas), LinhaLabel(b, totalLinhas);
    if b > 3 && b != totalLinhas {
      if a > 3 {
        if la == lb {
          SuffixCancel(IntToString(a), IntToString(b), "ª");
          IntToStringInjective(a, b);
        }
      } else if a == 1 {
        if la == lb {
          SuffixCancel("1", IntToString(b), "ª");
          IntToStringInjective(1, b);
        }
      } else {
        assert la[|la| - 1] != lb[|lb| - 1];
      }
    } else if b == totalLinhas && b > 3 {
      assert la[|la| - 1] != lb[|lb| - 1];
    }
  }

  /** Within one grid, different emitters always get different labels. */
  lemma EmissorLabelsDistinct(a: int, b: int, totalEmissores: int)
    requires 1 <= a < b <= totalEmissores
    ensures EmissorLabel(a, totalEmissores) != EmissorLabel(b, totalEmissores)
  {
    SmallNumerals();
    var la, lb := EmissorLabel(a, totalEmissores), EmissorLabel(b, totalEmissores);
    if b > 3 && b != totalEmissores {
      if a > 3 {
        if la == lb {
          SuffixCancel(IntToString(a), IntToString(b), "º");
          IntToStringInjective(a, b);
        }
      } else if a == 1 {
        if la == lb {
          SuffixCancel("1", IntToString(b), "º");
          IntToStringInjective(1, b);
        }
      } else {
        assert la[|la| - 1] != lb[|lb| - 1];
      }
    } else if b == totalEmissores && b > 3 {
      assert la[|la| - 1] != lb[|lb| - 1];
    }
  }
}
