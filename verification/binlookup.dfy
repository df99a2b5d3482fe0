/**
 `get_index_bin` (HiVoPuCounter/hivopucounter.c:226-234): the reverse linear
 scan from the top bin down that maps an ADC level to its histogram bin.
 */
module BinLookup {
  import opened CTypes
  import opened Tables

  /** The value get_index_bin returns when no bin matches. */
  const NotFound: int := -1

  /**
   The loop of get_index_bin over a threshold table, from index i
   downwards: the first (highest) index j with 1 <= j <= i and
   level > thresholds[j], or NotFound. The loop condition `i > 0` stops
   before index 0 is ever compared.
   */
  function ScanDown(thresholds: seq<U16>, level: U16, i: int): (r: int)
    requires 0 <= i < |thresholds|
    ensures r == NotFound || 1 <= r <= i
    ensures r == NotFound <==> forall j :: 1 <= j <= i ==> level <= thresholds[j]
    ensures r != NotFound ==> thresholds[r] < level && forall j :: r < j <= i ==> level <= thresholds[j]
    decreases i
  {
    if i <= 0 then NotFound
    else if level > thresholds[i] then i
    else ScanDown(thresholds, level, i - 1)
  }

  /**
   get_index_bin(level): the largest bin index i in 1..99 with
   level > bins_adc[i], and NotFound when there is none. Bin 0 is never
   returned.
   */
  function GetIndexBin(level: U16): (r: int)
    ensures r == NotFound || 1 <= r < BinCount
    ensures r == NotFound <==> forall j :: 1 <= j < BinCount ==> level <= BinsAdc[j]
    ensures r != NotFound ==> BinsAdc[r] < level && forall j :: r < j < BinCount ==> level <= BinsAdc[j]
  {
    BinsAdcStrictlyAscending();
    ScanDown(BinsAdc, level, BinCount - 1)
  }

  /**
   Because the thresholds ascend, a found bin brackets the level: it lies
   above the bin's threshold and at or below the next one.
   */
  lemma FoundBinBracketsLevel(level: U16)
    requires GetIndexBin(level) != NotFound
    ensures var r := GetIndexBin(level);
      BinsAdc[r] < level && (r + 1 < BinCount ==> level <= BinsAdc[r + 1])
  {
  }

  /**
   Every level up to bins_adc[1] = 143 maps to NotFound, including the
   levels 135..143 above the threshold of bin 0: bin 0 (420 V) never counts.
   */
  lemma NothingAtOrBelowBin1Threshold(level: U16)
    requires level <= BinsAdc[1]
    ensures GetIndexBin(level) == NotFound
  {
    BinsAdcStrictlyAscending();
  }

  /** A level of 140 lies above bins_adc[0] = 134 and still finds no bin. */
  lemma Bin0IsNeverSelected()
    ensures BinsAdc[0] < 140 && GetIndexBin(140) == NotFound
  {
    NothingAtOrBelowBin1Threshold(140);
  }

  /** A 10-bit ADC level never exceeds bins_adc[99] = 1023, so the top bin is unreachable. */
  lemma TenBitLevelNeverReachesTopBin(level: U16)
    requires level <= 1023
    ensures GetIndexBin(level) != BinCount - 1
  {
  }

  lemma ScanDownBoundaries(t: seq<U16>, i: int, above: U16)
    requires StrictlyAscending(t)
    requires 1 <= i < |t| && above as int == t[i] as int + 1
    ensures ScanDown(t, above, |t| - 1) == i
    ensures ScanDown(t, t[i], |t| - 1) == (if i == 1 then NotFound else i - 1)
  {
    if i > 1 {
      assert t[i - 1] < t[i];
    }
  }

  /**
   Boundary behaviour at every threshold: one above bins_adc[i] selects bin
   i, exactly bins_adc[i] selects bin i-1 (NotFound for i = 1).
   */
  lemma ThresholdBoundaries(i: int)
    requires 1 <= i < BinCount
    ensures BinsAdc[i] + 1 < U16Modulus
    ensures GetIndexBin(BinsAdc[i] + 1) == i
    ensures GetIndexBin(BinsAdc[i]) == (if i == 1 then NotFound else i - 1)
  {
    BinsAdcStrictlyAscending();
    assert BinsAdc[i] <= BinsAdc[BinCount - 1];
    ScanDownBoundaries(BinsAdc, i, BinsAdc[i] + 1);
  }

  /** A higher level never selects a lower bin. */
  lemma GetIndexBinMonotonic(lo: U16, hi: U16)
    requires lo <= hi
    ensures GetIndexBin(lo) <= GetIndexBin(hi)
  {
  }
}
