/**
 The per-tick pipeline of the main loop (HiVoPuCounter/hivopucounter.c:467-480):
 average the window, shift in the new sample, `detect_discharge`
 (HiVoPuCounter/hivopucounter.c:199-223), then `unblock_detect_discharge`
 (HiVoPuCounter/hivopucounter.c:307-315). The firmware's globals become one
 State record and a tick becomes a pure function from State and sample to
 the next State and the discharge it logged, if any.
 */
module Detector {
  import opened CTypes
  import opened Wrappers
  import opened Tables
  import opened Window
  import opened FramStore
  import opened Histogram
  import opened BinLookup
  import opened Display

  /** DELTAV_TH: the dip below the average, in ADC steps, that counts as a discharge. */
  const DeltaVTh: int := 10
  /** UNBLOCK_DELTA: the half-width of the band around the average that re-arms detection. */
  const UnblockDelta: int := 2
  /** DETECTION_BLOCK_COUNTER_MAX */
  const DetectionBlockCounterMax: int := 100
  /** Largest level of the 10-bit ADC. */
  const AdcMax: int := 1023

  /**
   The globals a tick reads and writes: buffer_samples, avg,
   discharge_detection_blocked, detection_block_counter, current_row, and
   the FRAM contents.
   */
  datatype State = State(buffer: Buffer, avg: U32, blocked: bool, blockCounter: U32, currentRow: U8, fram: Fram)

  /**
   What a logged discharge puts out: the bin, its voltage from bins_V, the
   count re-read from the FRAM after the increment, the OLED row the line
   goes to, and whether the display buffer is cleared first.
   */
  datatype Report = Report(bin: int, volts: U16, count: U32, row: U8, clearsScreen: bool)

  datatype Outcome = Outcome(state: State, report: Option<Report>)

  /** The state after reset: zeroed globals, the FRAM as it was left. */
  function Init(fram: Fram): (s: State)
    ensures !s.blocked && s.blockCounter == 0 && s.currentRow == 0 && s.fram == fram
    ensures forall k :: 0 <= k < BufferDepth ==> s.buffer[k] == 0
  {
    State([0, 0, 0, 0, 0], 0, false, 0, 0, fram)
  }

  /**
   The dip test `avg - DELTAV_TH > buffer_samples[0]`, evaluated in uint32_t.
   Below an average of DELTAV_TH the subtraction wraps to a value above
   every sample, so every sample reads as a dip.
   */
  predicate DipSeen(sample: U16, avg: U32)
    ensures DipSeen(sample, avg) <==> avg < DeltaVTh || sample < avg - DeltaVTh
  {
    Wrap32(avg - DeltaVTh) > sample
  }

  /**
   The band test of unblock_detect_discharge, both sides evaluated in
   uint32_t: the sample lies strictly within UNBLOCK_DELTA of the average.
   Below an average of UNBLOCK_DELTA the lower bound wraps and no sample
   passes; near 2^32 the upper bound wraps and none passes either.
   */
  predicate InBand(sample: U16, avg: U32)
    ensures InBand(sample, avg) <==> UnblockDelta <= avg && avg - UnblockDelta < sample < avg + UnblockDelta
  {
    sample < Wrap32(avg + UnblockDelta) && sample > Wrap32(avg - UnblockDelta)
  }

  /** The reachable ranges: the block counter never passes its limit, the row stays on the display. */
  predicate Valid(s: State) {
    s.blockCounter <= DetectionBlockCounterMax && s.currentRow <= 7
  }

  /**
   The logging branch of detect_discharge, once a dip has selected `bin`:
   the bin's FRAM counter grows by one (modulo 2^32) and no other cell
   changes, the row advances (wrapping to 0 and clearing the screen after
   row 7), and the report carries the bin voltage and the count re-read
   from the FRAM.
   */
  function LogDischarge(s: State, bin: int): (o: Outcome)
    requires 1 <= bin < BinCount
    ensures o.report.Some? && o.report.value.bin == bin
    ensures o.state == s.(fram := o.state.fram, currentRow := o.state.currentRow)
    ensures Counts(o.state.fram) == Credit(Counts(s.fram), bin)
    ensures forall j :: 0 <= j < FramSize && !(Addr[bin] <= j < Addr[bin] + 4) ==> o.state.fram[j] == s.fram[j]
    ensures var r := o.report.value;
      && r.count == Counter(o.state.fram, bin) == Wrap32(Counter(s.fram, bin) as int + 1)
      && r.volts == BinsV[bin]
      && r.row == o.state.currentRow == NextRow(s.currentRow)
      && (r.clearsScreen <==> r.row == 0)
  {
    IncrementCounts(s.fram, bin);
    var fram := Increment(s.fram, Addr[bin]);
    var row := NextRow(s.currentRow);
    Outcome(s.(fram := fram, currentRow := row), Some(Report(bin, BinsV[bin], Counter(fram, bin), row, s.currentRow > 6)))
  }

  /**
   detect_discharge. A blocked detector does nothing. Otherwise a dip blocks
   detection, and if the average also selects a bin the discharge is logged
   there. The bin is looked up with the average narrowed to uint16_t, the
   parameter type of get_index_bin.
   */
  function DetectDischarge(s: State): (o: Outcome)
    ensures s.blocked ==> o == Outcome(s, None)
    ensures o.state.blocked <==> s.blocked || DipSeen(s.buffer[0], s.avg)
    ensures o.state.buffer == s.buffer && o.state.avg == s.avg && o.state.blockCounter == s.blockCounter
    ensures o.report.Some? <==> !s.blocked && DipSeen(s.buffer[0], s.avg) && GetIndexBin(Trunc16(s.avg)) != NotFound
    ensures o.report.None? ==> o.state.fram == s.fram && o.state.currentRow == s.currentRow
    ensures o.report.Some? ==> o == LogDischarge(s.(blocked := true), GetIndexBin(Trunc16(s.avg)))
  {
    if s.blocked || !DipSeen(s.buffer[0], s.avg) then
      Outcome(s, None)
    else
      var armed := s.(blocked := true);
      var bin := GetIndexBin(Trunc16(s.avg));
      if bin == NotFound then Outcome(armed, None) else LogDischarge(armed, bin)
  }

  /**
   unblock_detect_discharge. A sample inside the band around the average
   advances the block counter, blocked or not; once the counter passes
   DETECTION_BLOCK_COUNTER_MAX it restarts at 0 and detection is re-armed.
   Nothing else is touched, and detection is never blocked here.
   */
  function UnblockDetectDischarge(s: State): (t: State)
    ensures t.buffer == s.buffer && t.avg == s.avg && t.fram == s.fram && t.currentRow == s.currentRow
    ensures !InBand(s.buffer[0], s.avg) ==> t == s
    ensures InBand(s.buffer[0], s.avg) && s.blockCounter < DetectionBlockCounterMax ==>
      t.blockCounter == s.blockCounter + 1 && t.blocked == s.blocked
    ensures InBand(s.buffer[0], s.avg) && s.blockCounter == DetectionBlockCounterMax ==>
      t.blockCounter == 0 && !t.blocked
    ensures t.blocked ==> s.blocked
    ensures s.blocked && !t.blocked ==> InBand(s.buffer[0], s.avg) && t.blockCounter == 0
    ensures s.blockCounter <= DetectionBlockCounterMax ==> t.blockCounter <= DetectionBlockCounterMax
  {
    if InBand(s.buffer[0], s.avg) then
      var counter := Wrap32(s.blockCounter + 1);
      if counter > DetectionBlockCounterMax then s.(blockCounter := 0, blocked := false)
      else s.(blockCounter := counter)
    else
      s
  }

  /**
   One pass of the main loop: avg is computed from the window BEFORE the new
   sample enters it, the sample is shifted in, then detection and unblocking
   run. At most one counter changes, by one; the cells from the write guard
   on never change; the reachable ranges are kept.
   */
  function Step(s: State, sample: U16): (o: Outcome)
    ensures o.state.avg == CalcAvg(s.buffer) && o.state.buffer == Push(s.buffer, sample)
    ensures Valid(s) ==> Valid(o.state)
    ensures o.report.Some? <==>
      !s.blocked && DipSeen(sample, CalcAvg(s.buffer)) && GetIndexBin(Trunc16(CalcAvg(s.buffer))) != NotFound
    ensures o.report.Some? ==> 1 <= o.report.value.bin < BinCount && o.report.value.count == Counter(o.state.fram, o.report.value.bin)
    ensures Counts(o.state.fram) == Credited(Counts(s.fram), Logged(o.report))
    ensures forall j :: WriteGuard <= j < FramSize ==> o.state.fram[j] == s.fram[j]
    ensures o.report.None? ==> o.state.fram == s.fram
    ensures o.report.Some? ==>
      forall j :: 0 <= j < FramSize && !(Addr[o.report.value.bin] <= j < Addr[o.report.value.bin] + 4) ==>
        o.state.fram[j] == s.fram[j]
    ensures s.blocked && !o.state.blocked ==> InBand(sample, CalcAvg(s.buffer)) && o.state.blockCounter == 0
  {
    var pushed := s.(avg := CalcAvg(s.buffer), buffer := Push(s.buffer, sample));
    var detected := DetectDischarge(pushed);
    CountersInsideRegion();
    CreditedLogged(Counts(s.fram), detected.report);
    Outcome(UnblockDetectDischarge(detected.state), detected.report)
  }

  /** The discharges of a run, oldest first, and the state it ends in. */
  datatype Trace = Trace(state: State, reports: seq<Report>)

  function Logged(report: Option<Report>): seq<Report> {
    if report.Some? then [report.value] else []
  }

  /** The main loop fed a sequence of samples, one per tick. */
  function Run(s: State, samples: seq<U16>): (t: Trace)
    ensures Valid(s) ==> Valid(t.state)
    ensures t.state.buffer == PushAll(s.buffer, samples)
    ensures |t.reports| <= |samples|
    ensures forall r :: r in t.reports ==> 1 <= r.bin < BinCount
    ensures forall j :: WriteGuard <= j < FramSize ==> t.state.fram[j] == s.fram[j]
    ensures forall j :: BinCount * 4 <= j < FramSize ==> t.state.fram[j] == s.fram[j]
    ensures Counts(t.state.fram) == Credited(Counts(s.fram), t.reports)
    decreases |samples|
  {
    if samples == [] then
      Trace(s, [])
    else
      var o := Step(s, samples[0]);
      var rest := Run(o.state, samples[1..]);
      AddrIsFourTimesIndex();
      CreditedAppend(Counts(s.fram), Logged(o.report), rest.reports);
      Trace(rest.state, Logged(o.report) + rest.reports)
  }

  /** The counters after crediting each report in turn, oldest first. */
  function Credited(counts: seq<U32>, reports: seq<Report>): (r: seq<U32>)
    ensures |r| == |counts|
    decreases |reports|
  {
    if reports == [] then counts else Credited(Credit(counts, reports[0].bin), reports[1..])
  }

  lemma CreditedLogged(counts: seq<U32>, report: Option<Report>)
    ensures Credited(counts, Logged(report)) == if report.Some? then Credit(counts, report.value.bin) else counts
  {
    if report.Some? {
      assert Logged(report)[1..] == [];
    }
  }

  /** Crediting the reports of two runs in turn credits the reports of both. */
  lemma {:induction false} CreditedAppend(counts: seq<U32>, first: seq<Report>, rest: seq<Report>)
    ensures Credited(Credited(counts, first), rest) == Credited(counts, first + rest)
    decreases |first|
  {
    if first == [] {
      assert first + rest == rest;
    } else {
      assert (first + rest)[0] == first[0];
      assert (first + rest)[1..] == first[1..] + rest;
      CreditedAppend(Credit(counts, first[0].bin), first[1..], rest);
    }
  }

  /** How many reports of a run name the given bin. */
  function Tally(reports: seq<Report>, bin: int): nat {
    if reports == [] then 0
    else (if reports[0].bin == bin then 1 else 0) + Tally(reports[1..], bin)
  }

  /**
   Replaying the reports leaves each counter at its start value plus the
   number of reports naming its bin, modulo 2^32.
   */
  lemma {:induction false} CreditedCountsReports(counts: seq<U32>, reports: seq<Report>, bin: int)
    requires 0 <= bin < |counts|
    ensures Credited(counts, reports)[bin] == Wrap32(counts[bin] as int + Tally(reports, bin))
    decreases |reports|
  {
    if reports != [] {
      var d := if reports[0].bin == bin then 1 else 0;
      var first := Credit(counts, reports[0].bin);
      assert first[bin] == Wrap32(counts[bin] as int + d);
      CreditedCountsReports(first, reports[1..], bin);
      Wrap32Add(counts[bin] as int + d, Tally(reports[1..], bin));
    }
  }

  /**
   Dead time: once blocked with counter c, the detector logs nothing and
   leaves the FRAM alone for at least the next 100 - c ticks, whatever the
   samples, and is still blocked after them.
   */
  lemma {:induction false} BlockedStaysQuiet(s: State, samples: seq<U16>)
    requires s.blocked && s.blockCounter + |samples| <= DetectionBlockCounterMax
    ensures Run(s, samples).reports == []
    ensures Run(s, samples).state.fram == s.fram
    ensures Run(s, samples).state.blocked
    ensures Run(s, samples).state.blockCounter <= s.blockCounter + |samples|
    decreases |samples|
  {
    if samples != [] {
      var o := Step(s, samples[0]);
      assert o.state.fram == s.fram;
      BlockedStaysQuiet(o.state, samples[1..]);
    }
  }

  /** A window whose five slots all hold v. */
  function Level(v: U16): (b: Buffer)
    ensures forall k :: 0 <= k < BufferDepth ==> b[k] == v
  {
    [v, v, v, v, v]
  }

  /** A level window averages to that level and is unchanged by pushing that level again. */
  lemma LevelIsSteady(v: U16)
    ensures CalcAvg(Level(v)) == v
    ensures Push(Level(v), v) == Level(v)
  {
    var a := CalcAvg(Level(v));
    assert a <= v && v <= a;
  }

  /**
   A steady input re-arms a blocked detector after exactly 101 - c ticks
   (c the block counter), provided the level is at least 2: the samples all
   sit on the average, inside the band.
   */
  lemma {:induction false} SteadyLevelRearms(s: State, v: U16, n: nat)
    requires s.blocked && s.buffer == Level(v) && 2 <= v
    requires s.blockCounter <= DetectionBlockCounterMax && n == DetectionBlockCounterMax + 1 - s.blockCounter
    ensures Run(s, seq(n, _ => v)).reports == []
    ensures !Run(s, seq(n, _ => v)).state.blocked && Run(s, seq(n, _ => v)).state.blockCounter == 0
    decreases n
  {
    var samples := seq(n, _ => v);
    var o := Step(s, v);
    SteadyTick(s, v);
    assert samples[0] == v;
    if n > 1 {
      assert samples[1..] == seq(n - 1, _ => v);
      SteadyLevelRearms(o.state, v, n - 1);
    } else {
      assert samples[1..] == [];
    }
  }

  /** One tick of a steady level while blocked: no report, the window stays level, the counter advances. */
  lemma SteadyTick(s: State, v: U16)
    requires s.blocked && s.buffer == Level(v) && 2 <= v && s.blockCounter <= DetectionBlockCounterMax
    ensures Step(s, v).report.None? && Step(s, v).state.buffer == Level(v)
    ensures s.blockCounter < DetectionBlockCounterMax ==>
      Step(s, v).state.blocked && Step(s, v).state.blockCounter == s.blockCounter + 1
    ensures s.blockCounter == DetectionBlockCounterMax ==>
      !Step(s, v).state.blocked && Step(s, v).state.blockCounter == 0
  {
    LevelIsSteady(v);
    assert InBand(v, v);
  }

  /**
   Cold start: the first tick after reset averages the zeroed window to 0,
   so `avg - DELTAV_TH` wraps to 2^32 - 10 and reads as a dip whatever the
   sample. Detection blocks at once; get_index_bin(0) finds no bin, so
   nothing is counted.
   */
  lemma ColdStartBlocks(fram: Fram, sample: U16)
    ensures var o := Step(Init(fram), sample);
      o.state.blocked && o.report.None? && o.state.fram == fram && o.state.blockCounter == 0
  {
    var s := Init(fram);
    assert CalcAvg(s.buffer) == 0 by {
      assert s.buffer == Level(0);
      LevelIsSteady(0);
    }
    assert DipSeen(sample, 0);
    NothingAtOrBelowBin1Threshold(0);
  }

  /**
   The cold-start wrap is not limited to the first tick: an armed detector
   whose window averages below DELTAV_TH takes every sample for a dip and
   blocks, and since get_index_bin finds no bin for such a level, nothing
   is counted and the FRAM is left alone.
   */
  lemma LowAverageBlocksWithoutCounting(s: State, sample: U16)
    requires !s.blocked && CalcAvg(s.buffer) < DeltaVTh
    ensures DipSeen(sample, CalcAvg(s.buffer))
    ensures Step(s, sample).report.None? && Step(s, sample).state.fram == s.fram
    ensures Step(s, sample).state.blocked || Step(s, sample).state.blockCounter == 0
  {
    var avg := CalcAvg(s.buffer);
    var pushed := s.(avg := avg, buffer := Push(s.buffer, sample));
    assert Trunc16(avg) == avg;
    NothingAtOrBelowBin1Threshold(avg);
    var detected := DetectDischarge(pushed);
    assert detected == Outcome(pushed.(blocked := true), None);
    assert Step(s, sample) == Outcome(UnblockDetectDischarge(detected.state), None);
  }

  /**
   With an average from 2 to 9 and the block counter at its limit, one tick
   can both block and re-arm: the wrapped dip test blocks detection, then
   the in-band sample pushes the counter past DETECTION_BLOCK_COUNTER_MAX
   and unblocks it again. The tick ends armed, with nothing counted.
   */
  lemma BlockAndRearmInOneTick(s: State, sample: U16)
    requires !s.blocked && s.blockCounter == DetectionBlockCounterMax
    requires UnblockDelta <= CalcAvg(s.buffer) < DeltaVTh && InBand(sample, CalcAvg(s.buffer))
    ensures DetectDischarge(s.(avg := CalcAvg(s.buffer), buffer := Push(s.buffer, sample))).state.blocked
    ensures Step(s, sample).report.None? && Step(s, sample).state.fram == s.fram
    ensures !Step(s, sample).state.blocked && Step(s, sample).state.blockCounter == 0
  {
    LowAverageBlocksWithoutCounting(s, sample);
  }

  /** A concrete case: a window level at 5 with the counter at 100 and a sample of 5. */
  lemma LevelFiveBlocksAndRearms(fram: Fram)
    ensures var o := Step(State(Level(5), 5, false, DetectionBlockCounterMax, 0, fram), 5);
      o.report.None? && !o.state.blocked && o.state.blockCounter == 0
  {
    LevelIsSteady(5);
    BlockAndRearmInOneTick(State(Level(5), 5, false, DetectionBlockCounterMax, 0, fram), 5);
  }

  /**
   With an average below 2, `avg - UNBLOCK_DELTA` wraps to a value above
   every sample: the band test fails and the block counter cannot advance.
   */
  lemma NoRearmBelowLevelTwo(sample: U16, avg: U32)
    requires avg < UnblockDelta
    ensures !InBand(sample, avg)
  {
  }

  /**
   The block counter is not reset when a discharge is logged and advances on
   every in-band tick while armed, so the dead time after a discharge can be
   one tick instead of about a hundred: from a steady 500 with the counter
   at 100, a dip to 400 is logged, and the next sample 480 already re-arms
   detection.
   */
  lemma ShortDeadTime(fram: Fram)
    ensures var s := State(Level(500), 500, false, DetectionBlockCounterMax, 0, fram);
      var first := Step(s, 400);
      var second := Step(first.state, 480);
      && first.report.Some? && first.state.blocked
      && second.report.None? && !second.state.blocked && second.state.blockCounter == 0
  {
    var s := State(Level(500), 500, false, DetectionBlockCounterMax, 0, fram);
    LevelIsSteady(500);
    DipAt500IsLogged(s);
    var first := Step(s, 400);
    AverageAfterDip();
    InBandRearms(first.state, 480);
  }

  lemma DipAt500IsLogged(s: State)
    requires !s.blocked && s.buffer == Level(500) && s.blockCounter == DetectionBlockCounterMax
    ensures Step(s, 400).report.Some? && Step(s, 400).state.blocked
    ensures Step(s, 400).state.buffer == [400, 500, 500, 500, 500]
    ensures Step(s, 400).state.blockCounter == DetectionBlockCounterMax
  {
    LevelIsSteady(500);
    assert BinsAdc[1] < 500;
  }

  lemma AverageAfterDip()
    ensures CalcAvg([400, 500, 500, 500, 500]) == 480
  {
    SumOfSlots([400, 500, 500, 500, 500]);
  }

  lemma InBandRearms(s: State, sample: U16)
    requires s.blocked && s.blockCounter == DetectionBlockCounterMax
    requires InBand(sample, CalcAvg(s.buffer))
    ensures Step(s, sample).report.None?
    ensures !Step(s, sample).state.blocked && Step(s, sample).state.blockCounter == 0
  {
  }

  /**
   With 10-bit samples the top bin is never logged: the average cannot pass
   the largest slot, and no level up to 1023 selects bin 99.
   */
  lemma TenBitSamplesNeverLogTopBin(s: State, sample: U16)
    requires forall k :: 0 <= k < BufferDepth ==> s.buffer[k] <= AdcMax
    ensures Step(s, sample).report.Some? ==> Step(s, sample).report.value.bin < BinCount - 1
  {
    var a := CalcAvg(s.buffer);
    assert a <= AdcMax;
    TenBitLevelNeverReachesTopBin(Trunc16(a));
  }
}
