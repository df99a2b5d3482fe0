# HiVoPuCounter discharge counter: a Dafny model

HiVoPuCounter is CH32V003 firmware that watches a high-voltage supply
through the ADC and counts discharges. Each SysTick tick the main loop
does four things:

1. It averages a five-sample window.
2. It shifts the new sample into the window.
3. It runs `detect_discharge`. A dip of more than ten ADC steps below the
   average counts as a discharge. The average picks a voltage bin through
   `get_index_bin`. That bin's 32-bit counter in the FM25040B FRAM gets a
   read-modify-write increment. A log line goes to the next OLED row.
4. It runs `unblock_detect_discharge`. Every sample strictly inside
   UNBLOCK_DELTA = 2 steps of the average (that is, within one step of it)
   advances a block counter; when the counter passes 100 it restarts at 0
   and detection is re-armed.

The model turns the firmware's globals into one immutable record,
`Detector.State`. The record holds:

- the window;
- `avg`;
- the blocked flag;
- `detection_block_counter`;
- `current_row`;
- the 512 FRAM cells.

A tick is the pure function `Detector.Step`, and `Detector.Run` folds it over a sample
sequence. C's fixed-width arithmetic is written out:

- `Wrap32` stands for uint32_t wrap-around.
- `Trunc16` stands for the narrowing of `avg` when it is passed to
  `get_index_bin(uint16_t)`.
- `AsI32` stands for the uint32_t-to-int32_t conversion when the count
  reaches `int2str`.

The model follows the code as written, with one exception: the shift
loop's store one element past `buffer_samples` (see "## Findings") is not
part of the state, and each tick shifts the window as `Window.Push`
describes. The quirks below are modelled as written, each shown by a
lemma:

- **Low average.** Below an average of DELTAV_TH = 10, `avg - DELTAV_TH`
  wraps to a value above every sample, so every sample reads as a dip
  (`Detector.DipSeen`). Such a level selects no bin, so an armed tick with
  a low average blocks detection without counting anything
  (`Detector.LowAverageBlocksWithoutCounting`). The first tick after reset
  averages the zeroed window to 0 and always falls into this case
  (`Detector.ColdStartBlocks`). With an average from 2 to 9 and the block
  counter at 100, a single tick can block and re-arm again
  (`Detector.BlockAndRearmInOneTick`).
- **Bin 0.** Bin 0 (420 V) is never selected, because the scan stops at index 1
  (`BinLookup.Bin0IsNeverSelected`).
- **Top bin.** No 10-bit level reaches bin 99 (`BinLookup.TenBitLevelNeverReachesTopBin`).
- **Block counter.** The firmware's comments describe the counter as a
  dead time after a detection:
  - "the detection is suspended for 100ms" (HiVoPuCounter/hivopucounter.c:82);
  - "for n iterations after a discharge event was detected" (:117);
  - "within avg+-UNBLOCK_DELTA for consecutive samples" (:306).

  The code (HiVoPuCounter/hivopucounter.c:307-315) does not do this. It
  does not restart the counter when a discharge is detected. It counts
  in-band samples while detection is armed as well as while it is blocked.
  An out-of-band sample does not restart the count. So the dead time after
  a discharge can be a single tick (`Detector.ShortDeadTime`). The model
  follows the code.

Modules, one per file:

| module | file | content |
|---|---|---|
| `CTypes` | `ctypes.dfy` | the C integer widths |
| `Wrappers` | `wrappers.dfy` | `Option` |
| `Tables` | `tables.dfy` | `bins_V`, `bins_adc`, `addr` |
| `Window` | `window.dfy` | `calc_avg` and the shift |
| `FramStore` | `fram.dfy` | `write_4bytes` / `read_4bytes` |
| `Histogram` | `histogram.dfy` | the counters, the increment and `clear_FRAM` |
| `BinLookup` | `binlookup.dfy` | `get_index_bin` |
| `Display` | `display.dfy` | `int2str`, `concatenateStrings` and `current_row` |
| `Detector` | `detector.dfy` | `detect_discharge`, `unblock_detect_discharge` and the main loop |

## Model

| member | source | states |
|---|---|---|
| CTypes.Wrap32 | HiVoPuCounter/hivopucounter.c:201 | uint32_t arithmetic: an in-range value is kept, and one just below 0 or just past 2^32 moves by exactly 2^32 |
| CTypes.Trunc16 | HiVoPuCounter/hivopucounter.c:226 | passing the uint32_t avg as uint16_t keeps values below 2^16 and otherwise differs by a multiple of 2^16 |
| CTypes.AsI32 | HiVoPuCounter/hivopucounter.c:216 | a uint32_t count passed as int32_t reads as negative exactly from 2^31 on, and wrapping it back gives the count |
| Tables.BinsAdcStrictlyAscending | HiVoPuCounter/hivopucounter.c:94-97 | bins_adc has 100 strictly ascending entries, from 134 and 143 up to 1023 |
| Tables.BinsVStrictlyAscending | HiVoPuCounter/hivopucounter.c:88-92 | bins_V has 100 strictly ascending voltages, from 420 up to 3200 |
| Tables.AddrIsFourTimesIndex | HiVoPuCounter/hivopucounter.c:99-102 | addr has 100 entries and bin i's counter sits at FRAM address 4*i |
| Window.CalcAvg | HiVoPuCounter/hivopucounter.c:282-291 | the average is the floor of sum/5, lies between the smallest and the largest slot, and fits in 16 bits |
| Window.SumOfSlots | HiVoPuCounter/hivopucounter.c:286-288 | the accumulated sum is the sum of the five slots |
| Window.Push | HiVoPuCounter/hivopucounter.c:471-476 | the new sample goes to slot 0, slot k gets the old slot k-1, and the old slot 4 drops out |
| Window.PushAll | HiVoPuCounter/hivopucounter.c:467-476 | after any stream of samples the window holds the last five, newest first, padded with the shifted initial contents |
| Window.ShiftAt | HiVoPuCounter/hivopucounter.c:471-474 | the shift loop as written moves slots 0..4 one place up, into slots 1..5, where index 5 is the word after the array; other words keep their values |
| Window.ShiftLoopWritesPastBuffer | HiVoPuCounter/hivopucounter.c:471-474 | the loop overwrites the word after the array with the oldest sample |
| Window.ShiftLoopAgreesWithPush | HiVoPuCounter/hivopucounter.c:471-476 | inside the array, the loop followed by the store to slot 0 gives Push's window |
| FramStore.DeviceAddress | HiVoPuCounter/hivopucounter.c:152-158 | the chip address keeps the low address byte and has bit 8 set exactly when the H opcode is chosen (addr > 255), so chip addresses pass through unchanged |
| FramStore.Cell | HiVoPuCounter/hivopucounter.c:178-185 | the k-th byte of a transfer lands k cells after the start, and a transfer that runs past cell 0x1FF continues at cell 0 |
| FramStore.WordOfBigEndian | HiVoPuCounter/hivopucounter.c:160-163 | the four bytes write_4bytes sends, reassembled as read_4bytes does, give back the word |
| FramStore.BigEndianOfWord | HiVoPuCounter/hivopucounter.c:178-184 | a word read from four bytes, sent back out, gives the same four bytes, most significant first |
| FramStore.ReadBytes | HiVoPuCounter/hivopucounter.c:168-187 | read_4bytes returns the word whose big-endian bytes are the four cells the transfer walks from addr on |
| FramStore.Write4 | HiVoPuCounter/hivopucounter.c:147-166 | below 0x1FC the four big-endian bytes replace cells addr..addr+3, from 0x1FC on nothing changes, and no other cell is touched |
| FramStore.ReadAfterWrite | HiVoPuCounter/hivopucounter.c:147-187 | a word written below the guard reads back unchanged |
| FramStore.ReadAfterDisjointWrite | HiVoPuCounter/hivopucounter.c:147-187 | a write leaves the word at any address unchanged when none of the four cells it reads, after roll-over past 0x1FF and aliasing above it, is one the write touched |
| FramStore.ReadRollsOver | HiVoPuCounter/hivopucounter.c:168-187 | a read from 0x1FE continues at cell 0 |
| FramStore.ReadAliases | HiVoPuCounter/hivopucounter.c:168-187 | an address above the chip reads the cells that the H opcode's bit 8 and the low address byte select: 0x258 reads 0x158 |
| Histogram.CounterBytes | HiVoPuCounter/hivopucounter.c:205 | a bin's count is the word whose big-endian bytes are cells addr[bin]..addr[bin]+3 |
| Histogram.Counts | HiVoPuCounter/hivopucounter.c:99-102 | the histogram has one entry per bin: the word at that bin's address |
| Histogram.CountersInsideRegion | HiVoPuCounter/hivopucounter.c:99-102 | every counter lies wholly below the write guard and no two counters overlap |
| Histogram.Increment | HiVoPuCounter/hivopucounter.c:205 | the read-modify-write raises the word by one modulo 2^32 below the guard, changes nothing from the guard on, and touches no other cell |
| Histogram.IncrementChangesOneCounter | HiVoPuCounter/hivopucounter.c:205 | incrementing a bin advances its own counter by one and leaves every other counter alone |
| Histogram.IncrementCounts | HiVoPuCounter/hivopucounter.c:205 | the whole histogram after the increment is the old one with that bin credited once |
| Histogram.IncrementTwiceFromZero | HiVoPuCounter/hivopucounter.c:205 | two increments of a zero counter leave it reading 2 |
| Histogram.ClearFram | HiVoPuCounter/hivopucounter.c:300-304 | every cell below 0x1FC becomes 0, the top four cells keep their contents, and every bin counter reads 0 |
| BinLookup.ScanDown | HiVoPuCounter/hivopucounter.c:228-233 | the reverse scan returns the highest index j >= 1 whose threshold lies below the level, and -1 exactly when there is none |
| BinLookup.GetIndexBin | HiVoPuCounter/hivopucounter.c:226-234 | the result is -1 or a bin in 1..99; it is -1 exactly when no threshold from bin 1 up lies below the level; otherwise it is the highest such bin |
| BinLookup.FoundBinBracketsLevel | HiVoPuCounter/hivopucounter.c:226-234 | a found bin's threshold lies below the level and the next bin's threshold at or above it |
| BinLookup.NothingAtOrBelowBin1Threshold | HiVoPuCounter/hivopucounter.c:228 | every level up to 143 gives -1, including the levels above bin 0's threshold |
| BinLookup.Bin0IsNeverSelected | HiVoPuCounter/hivopucounter.c:228 | level 140 lies above bins_adc[0] and still selects no bin |
| BinLookup.TenBitLevelNeverReachesTopBin | HiVoPuCounter/hivopucounter.c:97 | no level up to 1023 selects bin 99 |
| BinLookup.ScanDownBoundaries | HiVoPuCounter/hivopucounter.c:228-233 | on an ascending table, threshold+1 selects that index and the threshold itself selects the index below |
| BinLookup.ThresholdBoundaries | HiVoPuCounter/hivopucounter.c:226-234 | one above bins_adc[i] selects bin i, and exactly bins_adc[i] selects bin i-1 (-1 for bin 1) |
| BinLookup.GetIndexBinMonotonic | HiVoPuCounter/hivopucounter.c:226-234 | a higher level never selects a lower bin |
| Display.CStr | HiVoPuCounter/hivopucounter.c:418-421 | the string concatenateStrings scans is the buffer's NUL-free prefix, ended by the first NUL |
| Display.CStrOf | HiVoPuCounter/hivopucounter.c:398 | a NUL-free text followed by the stored terminator is the buffer's C string |
| Display.DigitChar | HiVoPuCounter/hivopucounter.c:388 | the character written for a digit reads back as that digit |
| Display.NatTextDigits | HiVoPuCounter/hivopucounter.c:386-390 | every character of the rendered digits is a digit of the base |
| Display.NatTextRoundTrip | HiVoPuCounter/hivopucounter.c:386-390 | reading the rendered digits back gives the number |
| Display.IntTextRoundTrip | HiVoPuCounter/hivopucounter.c:373-412 | reading int2str's text back, with its sign, gives the number |
| Display.NatTextLength | HiVoPuCounter/hivopucounter.c:386-390 | a number below base^k has at most k digits |
| Display.IntTextHasNoNul | HiVoPuCounter/hivopucounter.c:373-412 | int2str's text contains no NUL |
| Display.WriteDigitsReversed | HiVoPuCounter/hivopucounter.c:386-390 | the do-while writes the digits of the magnitude from index 0 on, least significant first, and touches nothing after them |
| Display.WriteTextReversed | HiVoPuCounter/hivopucounter.c:379-395 | the first half of int2str leaves the full signed text written backwards |
| Display.SignAfterDigits | HiVoPuCounter/hivopucounter.c:393-395 | the '-' written after the reversed digits is the text's first character, read backwards |
| Display.ReverseInPlace | HiVoPuCounter/hivopucounter.c:401-411 | the swap loop reverses the first n characters and leaves the rest of the buffer alone |
| Display.Int2Str | HiVoPuCounter/hivopucounter.c:373-412 | the buffer's C string becomes the signed base-b text of num, and the bytes after its NUL keep their contents |
| Display.Concatenate | HiVoPuCounter/hivopucounter.c:416-433 | the result's C string is dest's C string followed by src's, and the bytes after the new NUL keep their contents |
| Display.BuildLine | HiVoPuCounter/hivopucounter.c:214-217 | the log line reads voltage, "V:", count, and fits the 20-byte buffers whatever they held |
| Display.NextRow | HiVoPuCounter/hivopucounter.c:207-212 | the next row is always one of the eight display rows |
| Display.NextRowCycles | HiVoPuCounter/hivopucounter.c:207-212 | on rows 0..7 the update adds one modulo 8, and eight logged discharges bring the row back |
| Detector.Init | HiVoPuCounter/hivopucounter.c:109-118 | after reset detection is armed, the block counter and row are 0, the window is zero, and the FRAM keeps its contents |
| Detector.DipSeen | HiVoPuCounter/hivopucounter.c:201 | the wrapped dip test holds exactly when the average is below 10 or the sample lies more than 10 below it |
| Detector.InBand | HiVoPuCounter/hivopucounter.c:308 | the wrapped band test holds exactly when the average is at least 2 and the sample lies strictly within 2 of it |
| Detector.LogDischarge | HiVoPuCounter/hivopucounter.c:205-219 | logging credits exactly the selected bin's counter, touches no FRAM cell outside it, advances the row (clearing on wrap), and reports the bin voltage and the re-read count |
| Detector.DetectDischarge | HiVoPuCounter/hivopucounter.c:199-223 | a blocked detector does nothing; a dip blocks detection; a report comes exactly when a dip occurs while armed and the narrowed average selects a bin; without a report the FRAM and row are untouched |
| Detector.UnblockDetectDischarge | HiVoPuCounter/hivopucounter.c:307-315 | an in-band sample advances the block counter whether or not detection is blocked; past 100 it restarts at 0 and re-arms; detection is never blocked here and the counter stays within 0..100 |
| Detector.Step | HiVoPuCounter/hivopucounter.c:467-479 | a tick averages the window from before the sample, then shifts the sample in; it keeps the reachable ranges; it reports exactly on a dip while armed with a bin found; it credits exactly the reported bin; a tick without a report leaves the FRAM unchanged, and one with a report changes only the four cells of the reported counter; the top FRAM cells never change |
| Detector.Run | HiVoPuCounter/hivopucounter.c:467-481 | over any sample stream, the window holds the last samples, there is at most one report per tick, every reported bin is in 1..99, the histogram is the start histogram with each report credited, and the cells from 400 on, past the last counter, never change |
| Detector.CreditedLogged | HiVoPuCounter/hivopucounter.c:205 | replaying a tick's optional report credits its bin, or nothing |
| Detector.CreditedAppend | HiVoPuCounter/hivopucounter.c:467-481 | crediting the reports of two consecutive runs credits the reports of the whole run |
| Detector.CreditedCountsReports | HiVoPuCounter/hivopucounter.c:205 | after a run each counter equals its start value plus the number of reports naming its bin, modulo 2^32 |
| Detector.BlockedStaysQuiet | HiVoPuCounter/hivopucounter.c:200 | once blocked at counter c, the detector logs nothing, leaves the FRAM alone and stays blocked for the next 100-c ticks, whatever the samples |
| Detector.LevelIsSteady | HiVoPuCounter/hivopucounter.c:282-291 | a level window averages to its level and is unchanged by pushing that level again |
| Detector.SteadyLevelRearms | HiVoPuCounter/hivopucounter.c:307-315 | a steady level of at least 2 re-arms a blocked detector after exactly 101-c ticks, without a report |
| Detector.LowAverageBlocksWithoutCounting | HiVoPuCounter/hivopucounter.c:199-205 | an armed tick whose window averages below 10 sees a dip whatever the sample, counts nothing, leaves the FRAM alone, and ends blocked unless the counter restarted |
| Detector.BlockAndRearmInOneTick | HiVoPuCounter/hivopucounter.c:476-478 | with an average from 2 to 9, the counter at 100 and an in-band sample, one tick blocks detection and re-arms it again, counting nothing |
| Detector.LevelFiveBlocksAndRearms | HiVoPuCounter/hivopucounter.c:307-315 | a steady window at 5 with the counter at 100 ends the tick armed, with the counter at 0 and nothing counted |
| Detector.ColdStartBlocks | HiVoPuCounter/hivopucounter.c:201 | the first tick after reset blocks detection whatever the sample, and logs nothing |
| Detector.NoRearmBelowLevelTwo | HiVoPuCounter/hivopucounter.c:308 | with an average below 2 the band test always fails |
| Detector.ShortDeadTime | HiVoPuCounter/hivopucounter.c:307-315 | from a steady 500 with the counter at 100, a dip to 400 is logged and the very next sample, 480, re-arms detection |
| Detector.DipAt500IsLogged | HiVoPuCounter/hivopucounter.c:199-223 | from a steady 500, a sample of 400 is logged and blocks detection, and the counter keeps its value |
| Detector.AverageAfterDip | HiVoPuCounter/hivopucounter.c:282-291 | the window 400, 500, 500, 500, 500 averages to 480 |
| Detector.InBandRearms | HiVoPuCounter/hivopucounter.c:307-315 | with the counter at 100, one in-band sample re-arms detection and logs nothing |
| Detector.TenBitSamplesNeverLogTopBin | HiVoPuCounter/hivopucounter.c:201-205 | with 10-bit samples in the window, no tick logs bin 99 |

## Left out

- ADC sampling (`adc_get`): samples are parameters of `Step` and `Run`.
- The SPI traffic of `write_4bytes` / `read_4bytes`:
  - the WREN opcode;
  - chip select;
  - the transfer functions.

  The FRAM is modelled as the 512 cells those transfers read and write.
- The status read `get_status_byte`, because nothing in the pipeline uses it.
- The SysTick wait at the end of each loop pass and its interrupt: `Step` is one loop pass.
- GPIO, jumper reads and peripheral setup in `main`.
- The UART `output_log` and the OLED drawing (`ssd1306_setbuf`, `ssd1306_drawstr`, `ssd1306_refresh`). A report carries the row, the screen-clear flag, the bin voltage and the re-read count. `Display.BuildLine` states the text those two values produce, but no member links a report to a drawn line.
- `dump_FRAM`, because it is output only.
- Dead state: `stat_data`, `adc_value_tolerance`, `adc_value_delta`.
- Display.Int2Str: excludes `num == INT32_MIN`, where negating it overflows. It excludes base 0, where the C code divides by zero, and base 1, where its digit loop never ends for a nonzero number. It excludes bases above 36, where the C code writes characters past 'Z'. It also excludes buffers too small for the text, where the C code writes out of bounds.
- Display.BuildLine: does not model a counter that reads exactly 0x80000000, which would reach `int2str` as INT32_MIN.
- Display.Concatenate: requires the joined text and its NUL to fit the destination buffer, because the C code writes out of bounds otherwise.
- Detector.Step: the shift loop's store into the word after `buffer_samples` (see "## Findings") is not part of `State`; each tick shifts the window as `Window.Push` describes. `Window.ShiftAt` states what the loop as written does to that word.
- `clear_FRAM` is modelled (`Histogram.ClearFram`) but the firmware does not call it, because its call in `main` is commented out.

## Findings

| source | as written | input that shows it | evidently intended | confidence | as-written member | corrected member |
|---|---|---|---|---|---|---|
| HiVoPuCounter/hivopucounter.c:471-474 | the shift loop starts at `i = BUFFER_DEPTH-1` and writes `buffer_samples[i+1]`, so its first pass stores into `buffer_samples[5]`, one past the 5-element array | any tick: with window 1,2,3,4,5 the word after the array becomes 5 | shift slots 0..3 into 1..4 and drop the oldest sample (loop from `BUFFER_DEPTH-2`) | high, not executed | Window.ShiftAt, Window.ShiftLoopWritesPastBuffer | Window.Push, Window.PushAll |
