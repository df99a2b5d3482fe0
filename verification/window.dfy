/**
 The sample window: `buffer_samples[BUFFER_DEPTH]`, its average `calc_avg`
 (HiVoPuCounter/hivopucounter.c:282-291) and the shift-and-insert the main loop
 performs every tick (HiVoPuCounter/hivopucounter.c:469-476).
 */
module Window {
  import opened CTypes

  /** BUFFER_DEPTH */
  const BufferDepth: int := 5

  /** The five slots of buffer_samples; slot 0 holds the newest sample. */
  type Buffer = s: seq<U16> | |s| == BufferDepth witness [0, 0, 0, 0, 0]

  function Sum(s: seq<U16>): (r: nat)
    ensures r <= |s| * 0xFFFF
  {
    if s == [] then 0 else Sum(s[..|s| - 1]) + s[|s| - 1]
  }

  /**
   calc_avg: the integer mean of the five slots, rounded down. The 32-bit
   accumulator of the source cannot wrap (five uint16_t values sum to less
   than 2^19), so the exact sum is used. The mean lies between the smallest
   and the largest slot.
   */
  function CalcAvg(buf: Buffer): (avg: U32)
    ensures avg * BufferDepth <= Sum(buf) < (avg + 1) * BufferDepth
    ensures exists k :: 0 <= k < BufferDepth && avg <= buf[k]
    ensures exists k :: 0 <= k < BufferDepth && buf[k] <= avg
    ensures avg < U16Modulus
  {
    var avg := Sum(buf) / BufferDepth;
    SumBetweenExtremes(buf, avg);
    avg
  }

  /** The sum of a window, slot by slot. */
  lemma SumOfSlots(buf: Buffer)
    ensures Sum(buf) == buf[0] as int + buf[1] + buf[2] + buf[3] + buf[4]
  {
    assert Sum(buf[..1]) == buf[0] by { assert buf[..1][..0] == []; }
    assert Sum(buf[..2]) == Sum(buf[..1]) + buf[1] by { assert buf[..2][..1] == buf[..1]; }
    assert Sum(buf[..3]) == Sum(buf[..2]) + buf[2] by { assert buf[..3][..2] == buf[..2]; }
    assert Sum(buf[..4]) == Sum(buf[..3]) + buf[3] by { assert buf[..4][..3] == buf[..3]; }
    assert Sum(buf) == Sum(buf[..4]) + buf[4];
  }

  /** If every slot were above (below) avg, so would be the mean. */
  lemma SumBetweenExtremes(buf: Buffer, avg: nat)
    requires avg * BufferDepth <= Sum(buf) < (avg + 1) * BufferDepth
    ensures exists k :: 0 <= k < BufferDepth && avg <= buf[k]
    ensures exists k :: 0 <= k < BufferDepth && buf[k] <= avg
  {
    SumOfSlots(buf);
  }

  /**
   The shift-and-insert as it is meant to work: the new sample goes to slot
   0, slot k receives the old slot k-1, and the old slot 4 is discarded.
   */
  function Push(buf: Buffer, sample: U16): (r: Buffer)
    ensures r[0] == sample
    ensures forall k :: 1 <= k < BufferDepth ==> r[k] == buf[k - 1]
  {
    [sample] + buf[..BufferDepth - 1]
  }

  /**
   The window after a stream of samples has been pushed, oldest first: it
   holds exactly the last five samples, newest in slot 0; while fewer than
   five have been pushed, the remaining slots hold the initial contents,
   shifted down.
   */
  function PushAll(buf: Buffer, samples: seq<U16>): (r: Buffer)
    ensures forall k :: 0 <= k < BufferDepth ==>
      r[k] == (if k < |samples| then samples[|samples| - 1 - k] else buf[k - |samples|])
    decreases |samples|
  {
    if samples == [] then buf
    else
      var next := Push(buf, samples[0]);
      var rest := samples[1..];
      var r := PushAll(next, rest);
      assert forall k :: 0 <= k < BufferDepth ==>
        r[k] == (if k < |samples| then samples[|samples| - 1 - k] else buf[k - |samples|]) by {
        forall k | 0 <= k < BufferDepth
          ensures r[k] == (if k < |samples| then samples[|samples| - 1 - k] else buf[k - |samples|])
        {
          if k < |rest| {
            assert rest[|rest| - 1 - k] == samples[|samples| - 1 - k];
          } else if k - |rest| == 0 {
            assert next[0] == samples[0];
          } else {
            assert next[k - |rest|] == buf[k - |rest| - 1];
          }
        }
      }
      r
  }

  /**
   The shift loop of the main loop, as written: `i` runs from BUFFER_DEPTH-1
   down to 0 and each pass copies slot i into slot i+1. `mem` is the five
   slots followed by the word stored right after the array, because the first
   pass (i = 4) writes `buffer_samples[5]`, one element past the end.
   */
  function ShiftLoopAsWritten(mem: seq<U16>, i: int): (m: seq<U16>)
    requires |mem| == BufferDepth + 1
    requires -1 <= i < BufferDepth
    ensures |m| == |mem|
    decreases i + 1
  {
    if i < 0 then mem else ShiftLoopAsWritten(mem[i + 1 := mem[i]], i - 1)
  }

  /**
   What the loop leaves in each word: running from i down to 0, word k
   receives the old word k-1 for 1 <= k <= i+1; every other word keeps its
   value.
   */
  lemma {:induction false} ShiftAt(mem: seq<U16>, i: int, k: int)
    requires |mem| == BufferDepth + 1
    requires -1 <= i < BufferDepth && 0 <= k < |mem|
    ensures ShiftLoopAsWritten(mem, i)[k] == (if 1 <= k <= i + 1 then mem[k - 1] else mem[k])
    decreases i + 1
  {
    if i >= 0 {
      ShiftAt(mem[i + 1 := mem[i]], i - 1, k);
    }
  }

  /**
   The first pass of the loop overwrites the word after the array with the
   oldest sample: for a window 1..5 followed by a 0, that word becomes 5.
   */
  lemma ShiftLoopWritesPastBuffer()
    ensures ShiftLoopAsWritten([1, 2, 3, 4, 5, 0], BufferDepth - 1)[BufferDepth] == 5
  {
    ShiftAt([1, 2, 3, 4, 5, 0], BufferDepth - 1, BufferDepth);
  }

  /**
   Inside the array the loop does what Push describes: once slot 0 is
   overwritten with the new sample, the five slots equal Push's result.
   */
  lemma ShiftLoopAgreesWithPush(buf: Buffer, beyond: U16, sample: U16)
    ensures ShiftLoopAsWritten(buf + [beyond], BufferDepth - 1)[..BufferDepth][0 := sample] == Push(buf, sample)
  {
    var mem := buf + [beyond];
    var m := ShiftLoopAsWritten(mem, BufferDepth - 1);
    forall k | 0 <= k < BufferDepth
      ensures m[k] == if k == 0 then buf[0] else buf[k - 1]
    {
      ShiftAt(mem, BufferDepth - 1, k);
      assert mem[k] == buf[k];
      if k > 0 {
        assert mem[k - 1] == buf[k - 1];
      }
    }
  }
}
