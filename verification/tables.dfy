/**
 The three bin tables compiled into the firmware (HiVoPuCounter/hivopucounter.c:88-102):
 per bin, the display voltage `bins_V`, the ADC threshold `bins_adc` and the FRAM
 address `addr` of its 32-bit counter.

 Each table is written as one constant per line of the C initialiser, named
 after the line's first value (for `addr`, after the bins it covers), and the
 lines are concatenated, so that the values can be compared with the source
 line by line.
 */
module Tables {
  import opened CTypes

  /** Number of bins: the common length of the three tables. */
  const BinCount: int := 100

  // bins_V: canonical display voltage of each bin, in volts.
  const BinsVFrom420: seq<U16> := [420, 448, 476, 504, 532, 560, 588, 616, 644, 672, 700, 728, 756, 785, 813, 841,
    869, 897, 925, 953, 981, 1009]
  const BinsVFrom1037: seq<U16> := [1037, 1065, 1093, 1122, 1150, 1178, 1206, 1234, 1262, 1290, 1318, 1346, 1374,
    1402, 1430, 1458, 1487, 1515, 1543, 1571, 1599, 1627, 1655, 1683]
  const BinsVFrom1711: seq<U16> := [1711, 1739, 1767, 1795, 1824, 1852, 1880, 1908, 1936, 1964, 1992, 2020, 2048,
    2076, 2104, 2132, 2161, 2189, 2217, 2245, 2273, 2301, 2329, 2357]
  const BinsVFrom2385: seq<U16> := [2385, 2413, 2441, 2469, 2497, 2526, 2554, 2582, 2610, 2638, 2666, 2694, 2722,
    2750, 2778, 2806, 2834, 2863, 2891, 2919, 2947, 2975, 3003, 3031]
  const BinsVFrom3059: seq<U16> := [3059, 3087, 3115, 3143, 3171, 3200]
  const BinsV: seq<U16> := BinsVFrom420 + BinsVFrom1037 + BinsVFrom1711 + BinsVFrom2385 + BinsVFrom3059

  // bins_adc: a level strictly above bins_adc[i] belongs to bin i or a higher one.
  const BinsAdcFrom134: seq<U16> := [134, 143, 152, 161, 170, 179, 188, 197, 206, 215, 224, 233, 241, 250, 259,
    268, 277, 286, 295, 304, 313, 322]
  const BinsAdcFrom331: seq<U16> := [331, 340, 349, 358, 367, 376, 385, 394, 403, 412, 421, 430, 439, 448, 457,
    466, 475, 484, 493, 502, 511, 520, 529, 538, 547, 556, 565, 574, 583, 592]
  const BinsAdcFrom601: seq<U16> := [601, 610, 619, 628, 636, 645, 654, 663, 672, 681, 690, 699, 708, 717, 726,
    735, 744, 753, 762, 771, 780, 789, 798, 807, 816, 825, 834, 843, 852, 861]
  const BinsAdcFrom870: seq<U16> := [870, 879, 888, 897, 906, 915, 924, 933, 942, 951, 960, 969, 978, 987, 996,
    1005, 1014, 1023]
  const BinsAdc: seq<U16> := BinsAdcFrom134 + BinsAdcFrom331 + BinsAdcFrom601 + BinsAdcFrom870

  // addr: FRAM address of the first (most significant) byte of each bin's counter.
  const AddrBins0To29: seq<U16> := [0, 4, 8, 12, 16, 20, 24, 28, 32, 36, 40, 44, 48, 52, 56, 60, 64, 68, 72, 76,
    80, 84, 88, 92, 96, 100, 104, 108, 112, 116]
  const AddrBins30To59: seq<U16> := [120, 124, 128, 132, 136, 140, 144, 148, 152, 156, 160, 164, 168, 172, 176,
    180, 184, 188, 192, 196, 200, 204, 208, 212, 216, 220, 224, 228, 232, 236]
  const AddrBins60To89: seq<U16> := [240, 244, 248, 252, 256, 260, 264, 268, 272, 276, 280, 284, 288, 292, 296,
    300, 304, 308, 312, 316, 320, 324, 328, 332, 336, 340, 344, 348, 352, 356]
  const AddrBins90To99: seq<U16> := [360, 364, 368, 372, 376, 380, 384, 388, 392, 396]
  const Addr: seq<U16> := AddrBins0To29 + AddrBins30To59 + AddrBins60To89 + AddrBins90To99

  /** Every element is smaller than the next one. */
  ghost predicate StepsUp(s: seq<int>) {
    forall i :: 0 <= i && i + 1 < |s| ==> s[i] < s[i + 1]
  }

  /** Every element is smaller than every later one. */
  ghost predicate StrictlyAscending(s: seq<int>) {
    forall i, j :: 0 <= i < j < |s| ==> s[i] < s[j]
  }

  /** Element i equals 4 * (first + i). */
  ghost predicate CountsByFour(s: seq<int>, first: int) {
    forall i :: 0 <= i < |s| ==> s[i] == 4 * (first + i)
  }

  lemma StepsUpJoin(a: seq<int>, b: seq<int>)
    requires StepsUp(a) && StepsUp(b)
    requires |a| > 0 && |b| > 0 ==> a[|a| - 1] < b[0]
    ensures StepsUp(a + b)
  {
    forall i | 0 <= i && i + 1 < |a + b|
      ensures (a + b)[i] < (a + b)[i + 1]
    {
      if i + 1 < |a| {
        assert (a + b)[i] == a[i] && (a + b)[i + 1] == a[i + 1];
      } else if i + 1 == |a| {
        assert (a + b)[i] == a[|a| - 1] && (a + b)[i + 1] == b[0];
      } else {
        assert (a + b)[i] == b[i - |a|] && (a + b)[i + 1] == b[i - |a| + 1];
      }
    }
  }

  lemma {:induction false} StepsUpChain(s: seq<int>, i: int, j: int)
    requires StepsUp(s)
    requires 0 <= i < j < |s|
    ensures s[i] < s[j]
    decreases j - i
  {
    if i + 1 < j {
      StepsUpChain(s, i + 1, j);
    }
  }

  lemma StepsUpIsStrictlyAscending(s: seq<int>)
    requires StepsUp(s)
    ensures StrictlyAscending(s)
  {
    forall i, j | 0 <= i < j < |s|
      ensures s[i] < s[j]
    {
      StepsUpChain(s, i, j);
    }
  }

  lemma CountsByFourJoin(a: seq<int>, b: seq<int>, first: int)
    requires CountsByFour(a, first) && CountsByFour(b, first + |a|)
    ensures CountsByFour(a + b, first)
  {
    forall i | 0 <= i < |a + b|
      ensures (a + b)[i] == 4 * (first + i)
    {
      if i < |a| {
        assert (a + b)[i] == a[i];
      } else {
        assert (a + b)[i] == b[i - |a|];
      }
    }
  }

  lemma BinsAdcLinesStepUp()
    ensures StepsUp(BinsAdcFrom134) && StepsUp(BinsAdcFrom331)
    ensures StepsUp(BinsAdcFrom601) && StepsUp(BinsAdcFrom870)
  {
  }

  lemma BinsVLinesStepUp()
    ensures StepsUp(BinsVFrom420) && StepsUp(BinsVFrom1037) && StepsUp(BinsVFrom1711)
    ensures StepsUp(BinsVFrom2385) && StepsUp(BinsVFrom3059)
  {
  }

  lemma AddrLinesCountByFour()
    ensures CountsByFour(AddrBins0To29, 0) && CountsByFour(AddrBins30To59, 30)
    ensures CountsByFour(AddrBins60To89, 60) && CountsByFour(AddrBins90To99, 90)
  {
  }

  /** The ADC thresholds are sorted, as the reverse scan of get_index_bin assumes. */
  lemma BinsAdcStrictlyAscending()
    ensures |BinsAdc| == BinCount
    ensures StrictlyAscending(BinsAdc)
    ensures BinsAdc[0] == 134 && BinsAdc[1] == 143 && BinsAdc[BinCount - 1] == 1023
  {
    BinsAdcLinesStepUp();
    StepsUpJoin(BinsAdcFrom134, BinsAdcFrom331);
    StepsUpJoin(BinsAdcFrom134 + BinsAdcFrom331, BinsAdcFrom601);
    StepsUpJoin(BinsAdcFrom134 + BinsAdcFrom331 + BinsAdcFrom601, BinsAdcFrom870);
    StepsUpIsStrictlyAscending(BinsAdc);
  }

  /** The display voltages are sorted as well. */
  lemma BinsVStrictlyAscending()
    ensures |BinsV| == BinCount
    ensures StrictlyAscending(BinsV)
    ensures BinsV[0] == 420 && BinsV[BinCount - 1] == 3200
  {
    BinsVLinesStepUp();
    StepsUpJoin(BinsVFrom420, BinsVFrom1037);
    StepsUpJoin(BinsVFrom420 + BinsVFrom1037, BinsVFrom1711);
    StepsUpJoin(BinsVFrom420 + BinsVFrom1037 + BinsVFrom1711, BinsVFrom2385);
    StepsUpJoin(BinsVFrom420 + BinsVFrom1037 + BinsVFrom1711 + BinsVFrom2385, BinsVFrom3059);
    StepsUpIsStrictlyAscending(BinsV);
  }

  /** Bin i keeps its counter at FRAM address 4 * i. */
  lemma AddrIsFourTimesIndex()
    ensures |Addr| == BinCount
    ensures forall i :: 0 <= i < BinCount ==> Addr[i] == 4 * i
  {
    AddrLinesCountByFour();
    CountsByFourJoin(AddrBins0To29, AddrBins30To59, 0);
    CountsByFourJoin(AddrBins0To29 + AddrBins30To59, AddrBins60To89, 0);
    CountsByFourJoin(AddrBins0To29 + AddrBins30To59 + AddrBins60To89, AddrBins90To99, 0);
  }
}
