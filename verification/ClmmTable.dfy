/** The factor table of the Raydium CLMM price map and the numeric facts about it.  `Low` and
    `Gap` witness that the table is falling, `Halves` and `Ratios` evaluate it at the last tick. */
module ClmmTable {
  import opened Arith
  import opened Ladder

  function Factor(b: nat): nat {
    if b == 0 then 0xfffcb933bd6fb800 else if b == 1 then 0xfff97272373d4000 else
    if b == 2 then 0xfff2e50f5f657000 else if b == 3 then 0xffe5caca7e10f000 else
    if b == 4 then 0xffcb9843d60f7000 else if b == 5 then 0xff973b41fa98e800 else
    if b == 6 then 0xff2ea16466c9b000 else if b == 7 then 0xfe5dee046a9a3800 else
    if b == 8 then 0xfcbe86c7900bb000 else if b == 9 then 0xf987a7253ac65800 else
    if b == 10 then 0xf3392b0822bb6000 else if b == 11 then 0xe7159475a2caf000 else
    if b == 12 then 0xd097f3bdfd2f2000 else if b == 13 then 0xa9f746462d9f8000 else
    if b == 14 then 0x70d869a156f31c00 else if b == 15 then 0x31be135f97ed3200 else
    if b == 16 then 0x9aa508b5b85a500 else if b == 17 then 0x5d6af8dedc582c else 0x2216e584f5fa
  }

  ghost function Low(b: nat): nat {
    if b == 0 then 18446744073709551616 else if b == 1 then 18445821805675395072 else
    if b == 2 then 18443977407934601305 else if b == 3 then 18440289165698571674 else
    if b == 4 then 18432914893692470403 else if b == 5 then 18418175195415540256 else
    if b == 6 then 18388731148799056322 else if b == 7 then 18329984191681429728 else
    if b == 8 then 18213052719148865012 else if b == 9 then 17981422819357952666 else
    if b == 10 then 17526963021261866635 else if b == 11 then 16652210978343902665 else
    if b == 12 then 15031501797420854576 else if b == 13 then 12247947330324981103 else
    if b == 14 then 8131771826986601598 else if b == 15 then 3584502866427774895 else
    if b == 16 then 696492473860388424 else if b == 17 then 26296104664138151 else
    if b == 18 then 37483609361155 else 76162531
  }

  ghost function Gap(b: nat): nat {
    if b == 0 then 242202408303 else if b == 1 then 242190299090 else if b == 2 then 242166082481 else
    if b == 3 then 242117656528 else if b == 4 then 242020833672 else if b == 5 then 241827304103 else
    if b == 6 then 241440709104 else if b == 7 then 240669372198 else if b == 8 then 239134083144 else
    if b == 9 then 236092824516 else if b == 10 then 230125849686 else if b == 11 then 218640513812 else
    if b == 12 then 197360895837 else if b == 13 then 160813329889 else if b == 14 then 106768691122 else
    if b == 15 then 47063873349 else if b == 16 then 9144820021 else if b == 17 then 345263091 else
    if b == 18 then 492153 else 1
  }

  ghost function Halves(b: nat): nat {
    if b == 0 then 443636 else if b == 1 then 221818 else if b == 2 then 110909 else if b == 3 then 55454 else
    if b == 4 then 27727 else if b == 5 then 13863 else if b == 6 then 6931 else if b == 7 then 3465 else
    if b == 8 then 1732 else if b == 9 then 866 else if b == 10 then 433 else if b == 11 then 216 else
    if b == 12 then 108 else if b == 13 then 54 else if b == 14 then 27 else if b == 15 then 13 else
    if b == 16 then 6 else if b == 17 then 3 else if b == 18 then 1 else 0
  }

  ghost function Ratios(b: nat): nat {
    if b == 0 then 18446744073709551616 else if b == 1 then 18446744073709551616 else
    if b == 2 then 18446744073709551616 else if b == 3 then 18443055278223355904 else
    if b == 4 then 18443055278223355904 else if b == 5 then 18428307471288122970 else
    if b == 6 then 18398847226801874084 else if b == 7 then 18340067951587048657 else
    if b == 8 then 18223072152272633034 else if b == 9 then 18223072152272633034 else
    if b == 10 then 18223072152272633034 else if b == 11 then 17313578044588124205 else
    if b == 12 then 17313578044588124205 else if b == 13 then 17313578044588124205 else
    if b == 14 then 17313578044588124205 else if b == 15 then 7631863196528592884 else
    if b == 16 then 1482921196046239949 else if b == 17 then 1482921196046239949 else
    if b == 18 then 2113820261058665 else 4295048016
  }

  lemma FactorRow(b: nat)
    requires b < 19
    ensures Low(b + 1) == Low(b) * Factor(b) / Q64 && Factor(b) + Gap(b + 1) <= Low(b)
    ensures Gap(b + 1) <= Gap(b) && Gap(b + 1) <= Gap(b) * Factor(b) / Q64
  {
    if b == 0 { } else if b == 1 { } else if b == 2 { } else if b == 3 { } else if b == 4 { } else
    if b == 5 { } else if b == 6 { } else if b == 7 { } else if b == 8 { } else if b == 9 { } else
    if b == 10 { } else if b == 11 { } else if b == 12 { } else if b == 13 { } else if b == 14 { } else
    if b == 15 { } else if b == 16 { } else if b == 17 { } else { }
  }

  lemma FactorTable()
    ensures Falling(Factor, 19, Q64, Low, Gap)
  {
    assert Low(0) == Q64;
    hide Factor, Low, Gap;
    forall b: nat | b < 19
      ensures Low(b + 1) == Low(b) * Factor(b) / Q64 && Factor(b) + Gap(b + 1) <= Low(b)
      ensures Gap(b + 1) <= Gap(b) && Gap(b + 1) <= Gap(b) * Factor(b) / Q64
    {
      FactorRow(b);
    }
  }

  lemma FactorTraceRow(b: nat)
    requires b < 19
    ensures Halves(b + 1) == Halves(b) / 2
    ensures Ratios(b + 1) == if Halves(b) % 2 == 1 then Ratios(b) * Factor(b) / Q64 else Ratios(b)
  {
    if b == 0 { } else if b == 1 { } else if b == 2 { } else if b == 3 { } else if b == 4 { } else
    if b == 5 { } else if b == 6 { } else if b == 7 { } else if b == 8 { } else if b == 9 { } else
    if b == 10 { } else if b == 11 { } else if b == 12 { } else if b == 13 { } else if b == 14 { } else
    if b == 15 { } else if b == 16 { } else if b == 17 { } else { }
  }

  lemma FactorTrace()
    ensures Trace(Factor, 19, Q64, Halves, Ratios)
  {
    hide Factor, Halves, Ratios;
    forall b: nat | b < 19
      ensures Halves(b + 1) == Halves(b) / 2
      ensures Ratios(b + 1) == if Halves(b) % 2 == 1 then Ratios(b) * Factor(b) / Q64 else Ratios(b)
    {
      FactorTraceRow(b);
    }
  }

  /** The product at the magnitude `n` of the outermost ticks. */
  lemma FactorAtLimit(n: nat)
    requires n == Halves(0)
    ensures Product(Factor, 19, Q64, 0, n, Q64) == Ratios(19)
  {
    FactorTrace();
    hide Factor;
    TraceProduct(Factor, 19, Q64, Halves, Ratios, 0);
  }
}
