/** The two factor tables of the Orca Whirlpool price map, one for each sign of the tick, and
    the numeric facts about them. */
module WhirlpoolTable {
  import opened Arith
  import opened Ladder

  const Q96: nat := 0x1_0000_0000_0000_0000_0000_0000

  function Positive(b: nat): nat {
    if b == 0 then 79232123823359799118286999567 else if b == 1 then 79236085330515764027303304731 else
    if b == 2 then 79244008939048815603706035061 else if b == 3 then 79259858533276714757314932305 else
    if b == 4 then 79291567232598584799939703904 else if b == 5 then 79355022692464371645785046466 else
    if b == 6 then 79482085999252804386437311141 else if b == 7 then 79736823300114093921829183326 else
    if b == 8 then 80248749790819932309965073892 else if b == 9 then 81282483887344747381513967011 else
    if b == 10 then 83390072131320151908154831281 else if b == 11 then 87770609709833776024991924138 else
    if b == 12 then 97234110755111693312479820773 else if b == 13 then 119332217159966728226237229890 else
    if b == 14 then 179736315981702064433883588727 else if b == 15 then 407748233172238350107850275304 else
    if b == 16 then 2098478828474011932436660412517 else if b == 17 then 55581415166113811149459800483533 else
    38992368544603139932233054999993551
  }

  function Negative(b: nat): nat {
    if b == 0 then 18445821805675392311 else if b == 1 then 18444899583751176498 else
    if b == 2 then 18443055278223354162 else if b == 3 then 18439367220385604838 else
    if b == 4 then 18431993317065449817 else if b == 5 then 18417254355718160513 else
    if b == 6 then 18387811781193591352 else if b == 7 then 18329067761203520168 else
    if b == 8 then 18212142134806087854 else if b == 9 then 17980523815641551639 else
    if b == 10 then 17526086738831147013 else if b == 11 then 16651378430235024244 else
    if b == 12 then 15030750278693429944 else if b == 13 then 12247334978882834399 else
    if b == 14 then 8131365268884726200 else if b == 15 then 3584323654723342297 else
    if b == 16 then 696457651847595233 else if b == 17 then 26294789957452057 else 37481735321082
  }

  ghost function Halves(b: nat): nat {
    if b == 0 then 443636 else if b == 1 then 221818 else if b == 2 then 110909 else if b == 3 then 55454 else
    if b == 4 then 27727 else if b == 5 then 13863 else if b == 6 then 6931 else if b == 7 then 3465 else
    if b == 8 then 1732 else if b == 9 then 866 else if b == 10 then 433 else if b == 11 then 216 else
    if b == 12 then 108 else if b == 13 then 54 else if b == 14 then 27 else if b == 15 then 13 else
    if b == 16 then 6 else if b == 17 then 3 else if b == 18 then 1 else 0
  }

  ghost function PositiveLow(b: nat): nat {
    if b == 0 then 79228162514264337593543950336 else if b == 1 then 79232123823359799118286999567 else
    if b == 2 then 79240047035742135098198828266 else if b == 3 then 79255895837549753882639819013 else
    if b == 4 then 79287602951555555546117890668 else if b == 5 then 79351055238886287249021387662 else
    if b == 6 then 79478112192985828264683945743 else if b == 7 then 79732836757937260015387211174 else
    if b == 8 then 80244737654238127488718973602 else if b == 9 then 81278420067934296167840804769 else
    if b == 10 then 83385902940400299275461041535 else if b == 11 then 87766221508460644832294642638 else
    if b == 12 then 97229249414171470058378025113 else if b == 13 then 119326250996567256184535330018 else
    if b == 14 then 179727329839858001577522965083 else if b == 15 then 407727847289508202411734771016 else
    if b == 16 then 2098373912401228121358801911315 else if b == 17 then 55578636303768444659257259827406 else
    if b == 18 then 38990419072385107768429658011568861 else 19189247130466284822469633860112541934403
  }

  /** Factors above one never shrink a difference. */
  ghost function PositiveGap(b: nat): nat { 0x1_0000_0000 }

  ghost function PositiveRatios(b: nat): nat {
    if b == 0 then 79228162514264337593543950336 else if b == 1 then 79228162514264337593543950336 else
    if b == 2 then 79228162514264337593543950336 else if b == 3 then 79244008939048815603706035061 else
    if b == 4 then 79244008939048815603706035061 else if b == 5 then 79307426338960776842885539843 else
    if b == 6 then 79434413434441317004961661155 else if b == 7 then 79688997946402660867703038957 else
    if b == 8 then 80200617388689977366536547152 else if b == 9 then 80200617388689977366536547152 else
    if b == 10 then 80200617388689977366536547152 else if b == 11 then 84413610726049114366347414816 else
    if b == 12 then 84413610726049114366347414816 else if b == 13 then 84413610726049114366347414816 else
    if b == 14 then 84413610726049114366347414816 else if b == 15 then 191499978405809145203445059952 else
    if b == 16 then 985555834813563612221638545219 else if b == 17 then 985555834813563612221638545219 else
    if b == 18 then 691402984567465602855604295835822 else 340275971719517849884101479037289023427
  }

  ghost function NegativeLow(b: nat): nat {
    if b == 0 then 18446744073709551616 else if b == 1 then 18445821805675392311 else
    if b == 2 then 18443977407934598850 else if b == 3 then 18440289165698567478 else
    if b == 4 then 18432914893692463368 else if b == 5 then 18418175195415529478 else
    if b == 6 then 18388731148799035466 else if b == 7 then 18329984191681391131 else
    if b == 8 then 18213052719148788671 else if b == 9 then 17981422819357802651 else
    if b == 10 then 17526963021261575450 else if b == 11 then 16652210978343353594 else
    if b == 12 then 15031501797419866121 else if b == 13 then 12247947330323375219 else
    if b == 14 then 8131771826984472022 else if b == 15 then 3584502866425897898 else
    if b == 16 then 696492473859659073 else if b == 17 then 26296104664083085 else
    if b == 18 then 37483609360998 else 76162531
  }

  ghost function NegativeGap(b: nat): nat {
    if b == 0 then 242202408303 else if b == 1 then 242190299090 else if b == 2 then 242166082481 else
    if b == 3 then 242117656528 else if b == 4 then 242020833672 else if b == 5 then 241827304103 else
    if b == 6 then 241440709104 else if b == 7 then 240669372198 else if b == 8 then 239134083144 else
    if b == 9 then 236092824516 else if b == 10 then 230125849686 else if b == 11 then 218640513812 else
    if b == 12 then 197360895837 else if b == 13 then 160813329889 else if b == 14 then 106768691122 else
    if b == 15 then 47063873349 else if b == 16 then 9144820021 else if b == 17 then 345263091 else
    if b == 18 then 492153 else 1
  }

  ghost function NegativeRatios(b: nat): nat {
    if b == 0 then 18446744073709551616 else if b == 1 then 18446744073709551616 else
    if b == 2 then 18446744073709551616 else if b == 3 then 18443055278223354162 else
    if b == 4 then 18443055278223354162 else if b == 5 then 18428307471288117479 else
    if b == 6 then 18398847226801858501 else if b == 7 then 18340067951587015306 else
    if b == 8 then 18223072152272561885 else if b == 9 then 18223072152272561885 else
    if b == 10 then 18223072152272561885 else if b == 11 then 17313578044587773368 else
    if b == 12 then 17313578044587773368 else if b == 13 then 17313578044587773368 else
    if b == 14 then 17313578044587773368 else if b == 15 then 7631863196526440527 else
    if b == 16 then 1482921196045045371 else if b == 17 then 1482921196045045371 else
    if b == 18 then 2113820261052536 else 4295048016
  }

  lemma NegativeRow(b: nat)
    requires b < 19
    ensures NegativeLow(b + 1) == NegativeLow(b) * Negative(b) / Q64
    ensures Negative(b) + NegativeGap(b + 1) <= NegativeLow(b)
    ensures NegativeGap(b + 1) <= NegativeGap(b) && NegativeGap(b + 1) <= NegativeGap(b) * Negative(b) / Q64
  {
    if b == 0 { } else if b == 1 { } else if b == 2 { } else if b == 3 { } else if b == 4 { } else
    if b == 5 { } else if b == 6 { } else if b == 7 { } else if b == 8 { } else if b == 9 { } else
    if b == 10 { } else if b == 11 { } else if b == 12 { } else if b == 13 { } else if b == 14 { } else
    if b == 15 { } else if b == 16 { } else if b == 17 { } else { }
  }

  lemma NegativeTable()
    ensures Falling(Negative, 19, Q64, NegativeLow, NegativeGap)
  {
    assert NegativeLow(0) == Q64;
    hide Negative, NegativeLow, NegativeGap;
    forall b: nat | b < 19
      ensures NegativeLow(b + 1) == NegativeLow(b) * Negative(b) / Q64
      ensures Negative(b) + NegativeGap(b + 1) <= NegativeLow(b)
      ensures NegativeGap(b + 1) <= NegativeGap(b) && NegativeGap(b + 1) <= NegativeGap(b) * Negative(b) / Q64
    {
      NegativeRow(b);
    }
  }

  lemma NegativeTraceRow(b: nat)
    requires b < 19
    ensures Halves(b + 1) == Halves(b) / 2
    ensures NegativeRatios(b + 1) == if Halves(b) % 2 == 1
        then NegativeRatios(b) * Negative(b) / Q64 else NegativeRatios(b)
  {
    if b == 0 { } else if b == 1 { } else if b == 2 { } else if b == 3 { } else if b == 4 { } else
    if b == 5 { } else if b == 6 { } else if b == 7 { } else if b == 8 { } else if b == 9 { } else
    if b == 10 { } else if b == 11 { } else if b == 12 { } else if b == 13 { } else if b == 14 { } else
    if b == 15 { } else if b == 16 { } else if b == 17 { } else { }
  }

  lemma NegativeTrace()
    ensures Trace(Negative, 19, Q64, Halves, NegativeRatios)
  {
    hide Negative, Halves, NegativeRatios;
    forall b: nat | b < 19
      ensures Halves(b + 1) == Halves(b) / 2
      ensures NegativeRatios(b + 1) == if Halves(b) % 2 == 1
          then NegativeRatios(b) * Negative(b) / Q64 else NegativeRatios(b)
    {
      NegativeTraceRow(b);
    }
  }

  /** The product at the magnitude `n` of the outermost ticks. */
  lemma NegativeAtLimit(n: nat)
    requires n == Halves(0)
    ensures Product(Negative, 19, Q64, 0, n, Q64) == NegativeRatios(19)
  {
    NegativeTrace();
    hide Negative;
    TraceProduct(Negative, 19, Q64, Halves, NegativeRatios, 0);
  }

  lemma PositiveRow(b: nat)
    requires b < 19
    ensures PositiveLow(b + 1) == PositiveLow(b) * Positive(b) / Q96
    ensures PositiveLow(b) + PositiveGap(b + 1) <= Positive(b)
    ensures PositiveGap(b + 1) <= PositiveGap(b) && PositiveGap(b + 1) <= PositiveGap(b) * Positive(b) / Q96
  {
    if b == 0 { } else if b == 1 { } else if b == 2 { } else if b == 3 { } else if b == 4 { } else
    if b == 5 { } else if b == 6 { } else if b == 7 { } else if b == 8 { } else if b == 9 { } else
    if b == 10 { } else if b == 11 { } else if b == 12 { } else if b == 13 { } else if b == 14 { } else
    if b == 15 { } else if b == 16 { } else if b == 17 { } else { }
  }

  lemma PositiveTable()
    ensures Rising(Positive, 19, Q96, PositiveLow, PositiveGap)
  {
    assert PositiveLow(0) == Q96;
    hide Positive, PositiveLow, PositiveGap;
    forall b: nat | b < 19
      ensures PositiveLow(b + 1) == PositiveLow(b) * Positive(b) / Q96
      ensures PositiveLow(b) + PositiveGap(b + 1) <= Positive(b)
      ensures PositiveGap(b + 1) <= PositiveGap(b) && PositiveGap(b + 1) <= PositiveGap(b) * Positive(b) / Q96
    {
      PositiveRow(b);
    }
  }

  lemma PositiveTraceRow(b: nat)
    requires b < 19
    ensures Halves(b + 1) == Halves(b) / 2
    ensures PositiveRatios(b + 1) == if Halves(b) % 2 == 1
        then PositiveRatios(b) * Positive(b) / Q96 else PositiveRatios(b)
  {
    if b == 0 { } else if b == 1 { } else if b == 2 { } else if b == 3 { } else if b == 4 { } else
    if b == 5 { } else if b == 6 { } else if b == 7 { } else if b == 8 { } else if b == 9 { } else
    if b == 10 { } else if b == 11 { } else if b == 12 { } else if b == 13 { } else if b == 14 { } else
    if b == 15 { } else if b == 16 { } else if b == 17 { } else { }
  }

  lemma PositiveTrace()
    ensures Trace(Positive, 19, Q96, Halves, PositiveRatios)
  {
    hide Positive, Halves, PositiveRatios;
    forall b: nat | b < 19
      ensures Halves(b + 1) == Halves(b) / 2
      ensures PositiveRatios(b + 1) == if Halves(b) % 2 == 1
          then PositiveRatios(b) * Positive(b) / Q96 else PositiveRatios(b)
    {
      PositiveTraceRow(b);
    }
  }

  /** The product at the magnitude `n` of the outermost ticks. */
  lemma PositiveAtLimit(n: nat)
    requires n == Halves(0)
    ensures Product(Positive, 19, Q96, 0, n, Q96) == PositiveRatios(19)
  {
    PositiveTrace();
    hide Positive;
    TraceProduct(Positive, 19, Q96, Halves, PositiveRatios, 0);
  }
}
