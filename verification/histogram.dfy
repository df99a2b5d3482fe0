/**
 The discharge histogram kept in the FRAM: one big-endian 32-bit counter per
 bin at the address the `addr` table gives, incremented by a read-modify-write
 (HiVoPuCounter/hivopucounter.c:205) and zeroed by `clear_FRAM`
 (HiVoPuCounter/hivopucounter.c:300-304).
 */
module Histogram {
  import opened CTypes
  import opened Tables
  import opened FramStore

  /** The count of a bin: the word stored at addr[bin]. */
  function Counter(f: Fram, bin: int): U32
    requires 0 <= bin < BinCount
  {
    Read4(f, Addr[bin])
  }

  /** A bin's count is the word whose big-endian bytes are cells addr[bin]..addr[bin]+3. */
  lemma CounterBytes(f: Fram, bin: int)
    requires 0 <= bin < BinCount
    ensures Addr[bin] + 4 <= WriteGuard && BigEndian(Counter(f, bin)) == f[Addr[bin]..Addr[bin] + 4]
  {
    CountersInsideRegion();
    var a := Addr[bin];
    ReadBytes(f, a);
    assert Cell(a, 0) == a && Cell(a, 1) == a + 1 && Cell(a, 2) == a + 2 && Cell(a, 3) == a + 3;
    assert [f[a], f[a + 1], f[a + 2], f[a + 3]] == f[a..a + 4];
  }

  /** All bin counters, bin 0 first. */
  function Counts(f: Fram): (c: seq<U32>)
    ensures |c| == BinCount
    ensures forall bin :: 0 <= bin < BinCount ==> c[bin] == Counter(f, bin)
  {
    seq(BinCount, bin requires 0 <= bin < BinCount => Counter(f, bin))
  }

  /**
   The counters occupy the reserved region: each lies wholly below the write
   guard and no two overlap.
   */
  lemma CountersInsideRegion()
    ensures |Addr| == BinCount
    ensures forall i :: 0 <= i < BinCount ==> Addr[i] + 4 <= WriteGuard
    ensures forall i, j :: 0 <= i < BinCount && 0 <= j < BinCount && i != j ==>
      Addr[i] + 4 <= Addr[j] || Addr[j] + 4 <= Addr[i]
  {
    AddrIsFourTimesIndex();
  }

  /**
   write_4bytes(addr, read_4bytes(addr) + 1): the word at addr grows by one,
   modulo 2^32, when addr is below the guard; from the guard on nothing
   changes. No cell outside addr..addr+3 changes in either case.
   */
  function Increment(f: Fram, addr: U16): (g: Fram)
    ensures addr < WriteGuard ==> Read4(g, addr) == Wrap32(Read4(f, addr) + 1)
    ensures addr >= WriteGuard ==> g == f
    ensures forall j :: 0 <= j < FramSize && !(addr <= j < addr + 4) ==> g[j] == f[j]
  {
    var g := Write4(f, addr, Wrap32(Read4(f, addr) + 1));
    if addr < WriteGuard then ReadAfterWrite(f, addr, Wrap32(Read4(f, addr) + 1)); g else g
  }

  /** Incrementing a bin advances its own counter by one and no other counter. */
  lemma IncrementChangesOneCounter(f: Fram, bin: int)
    requires 0 <= bin < BinCount
    ensures Counter(Increment(f, Addr[bin]), bin) == Wrap32(Counter(f, bin) + 1)
    ensures forall other :: 0 <= other < BinCount && other != bin ==>
      Counter(Increment(f, Addr[bin]), other) == Counter(f, other)
  {
    CountersInsideRegion();
    var g := Increment(f, Addr[bin]);
    forall other | 0 <= other < BinCount && other != bin
      ensures Counter(g, other) == Counter(f, other)
    {
      ReadAfterDisjointWrite(f, Addr[bin], Addr[other], Wrap32(Read4(f, Addr[bin]) + 1));
    }
  }

  /** One count for a bin: its counter advances by one, modulo 2^32, the others stay. */
  function Credit(counts: seq<U32>, bin: int): (r: seq<U32>)
    ensures |r| == |counts|
  {
    if 0 <= bin < |counts| then counts[bin := Wrap32(counts[bin] as int + 1)] else counts
  }

  /** The same fact for the whole histogram: incrementing a bin credits it. */
  lemma IncrementCounts(f: Fram, bin: int)
    requires 0 <= bin < BinCount
    ensures Counts(Increment(f, Addr[bin])) == Credit(Counts(f), bin)
  {
    IncrementChangesOneCounter(f, bin);
    var before := Counts(f);
    var after := Counts(Increment(f, Addr[bin]));
    assert after[bin] == Wrap32(before[bin] as int + 1);
    assert forall k :: 0 <= k < BinCount && k != bin ==> after[k] == before[k];
    CreditOnlyChangesBin(before, after, bin);
  }

  /** Credit pins down every entry: the bin's advances by one, the others stay. */
  lemma CreditOnlyChangesBin(before: seq<U32>, after: seq<U32>, bin: int)
    requires |after| == |before| && 0 <= bin < |before|
    requires after[bin] == Wrap32(before[bin] as int + 1)
    requires forall k :: 0 <= k < |before| && k != bin ==> after[k] == before[k]
    ensures after == Credit(before, bin)
  {
  }

  /** Two increments of a bin that reads 0 leave it reading 2. */
  lemma IncrementTwiceFromZero(f: Fram, bin: int)
    requires 0 <= bin < BinCount
    requires Counter(f, bin) == 0
    ensures Counter(Increment(Increment(f, Addr[bin]), Addr[bin]), bin) == 2
  {
    CountersInsideRegion();
    IncrementChangesOneCounter(f, bin);
    IncrementChangesOneCounter(Increment(f, Addr[bin]), bin);
  }

  /**
   clear_FRAM: writes 0 at every fourth address from 0 to 1020. The guard in
   write_4bytes drops the writes from 0x1FC on, so exactly the cells below
   the guard become 0, the top four cells keep their contents, and every
   bin counter reads 0.
   */
  method ClearFram(f: Fram) returns (g: Fram)
    ensures forall j :: 0 <= j < WriteGuard ==> g[j] == 0
    ensures forall j :: WriteGuard <= j < FramSize ==> g[j] == f[j]
    ensures forall bin :: 0 <= bin < BinCount ==> Counter(g, bin) == 0
  {
    g := f;
    var i: U16 := 0;
    while i <= 1023
      invariant i <= 1024 && i % 4 == 0
      invariant forall j :: 0 <= j < i && j < WriteGuard ==> g[j] == 0
      invariant forall j :: i <= j < FramSize || WriteGuard <= j < FramSize ==> g[j] == f[j]
    {
      g := Write4(g, i, 0);
      i := i + 4;
    }
    CountersInsideRegion();
  }

}
