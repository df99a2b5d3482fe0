/**
 The FM25040B FRAM as seen through `write_4bytes` and `read_4bytes`
 (HiVoPuCounter/hivopucounter.c:147-187): a 512-byte array addressed with
 nine bits. The SPI transfers are not modelled; what remains is which cells a
 transfer touches and how a 32-bit word is laid out in them.

 The ninth address bit travels in the opcode (WRITE_H / READ_H when the
 address is above 255) and the low eight bits follow as one byte; a 4-byte
 transfer walks forward from there, rolling over from 0x1FF to 0x000.
 */
module FramStore {
  import opened CTypes

  /** Size of the FM25040B in bytes. */
  const FramSize: int := 512
  /** write_4bytes only transfers data for addresses below 0x1FC. */
  const WriteGuard: int := 0x1FC

  type Fram = s: seq<U8> | |s| == 512 witness seq(512, _ => 0)

  /**
   The cell address the chip receives for `addr`: bit 8 from the choice of
   opcode (addr > 255), bits 0-7 from the address byte. Addresses of the
   512-byte chip pass through unchanged; larger ones alias into it.
   */
  function DeviceAddress(addr: U16): (d: nat)
    ensures d < FramSize
    ensures d % 256 == addr % 256
    ensures d >= 256 <==> addr > 255
    ensures addr < FramSize ==> d == addr
  {
    (if addr > 255 then 256 else 0) + addr % 256
  }

  /** Cell touched by the k-th byte of a transfer that starts at addr. */
  function Cell(addr: U16, k: nat): (c: nat)
    ensures c < FramSize
    ensures addr + k < FramSize ==> c == addr + k
    ensures addr < FramSize && FramSize <= addr + k < 2 * FramSize ==> c == addr + k - FramSize
  {
    (DeviceAddress(addr) + k) % FramSize
  }

  /** The four bytes write_4bytes sends for `data`, most significant first. */
  function BigEndian(data: U32): (b: seq<U8>)
    ensures |b| == 4
  {
    [data / 0x100_0000, data / 0x1_0000 % 0x100, data / 0x100 % 0x100, data % 0x100]
  }

  /** The word read_4bytes assembles from four bytes, shifting left by eight before each addition. */
  function Word(b0: U8, b1: U8, b2: U8, b3: U8): (d: U32)
  {
    WordFits(b0, b1, b2, b3);
    ((b0 * 0x100 + b1) * 0x100 + b2) * 0x100 + b3
  }

  lemma WordFits(b0: U8, b1: U8, b2: U8, b3: U8)
    ensures 0 <= ((b0 * 0x100 + b1) * 0x100 + b2) * 0x100 + b3 < U32Modulus
  {
    assert b0 * 0x100 + b1 < 0x1_0000;
    assert (b0 * 0x100 + b1) * 0x100 + b2 < 0x100_0000;
  }

  /** Encoding a word and reading it back gives the word. */
  lemma WordOfBigEndian(data: U32)
    ensures var b := BigEndian(data); Word(b[0], b[1], b[2], b[3]) == data
  {
    var q1 := data / 0x100;
    var q2 := q1 / 0x100;
    assert data == q1 * 0x100 + data % 0x100;
    assert q1 == q2 * 0x100 + q1 % 0x100;
    assert q2 == (q2 / 0x100) * 0x100 + q2 % 0x100;
    assert q2 == data / 0x1_0000;
    assert q2 / 0x100 == data / 0x100_0000;
  }

  /** Reading four bytes as a word and encoding it gives the four bytes. */
  lemma BigEndianOfWord(b0: U8, b1: U8, b2: U8, b3: U8)
    ensures BigEndian(Word(b0, b1, b2, b3)) == [b0, b1, b2, b3]
  {
    var d := Word(b0, b1, b2, b3);
    var hi2 := b0 * 0x100 + b1;
    var hi3 := hi2 * 0x100 + b2;
    assert d == hi3 * 0x100 + b3;
    assert d / 0x100 == hi3 && d % 0x100 == b3;
    assert hi3 / 0x100 == hi2 && hi3 % 0x100 == b2;
    assert hi2 / 0x100 == b0 && hi2 % 0x100 == b1;
    assert d / 0x1_0000 == hi3 / 0x100;
    assert d / 0x100_0000 == hi2 / 0x100;
  }

  /** read_4bytes(addr): the word in the four cells from addr on. */
  function Read4(f: Fram, addr: U16): U32 {
    Word(f[Cell(addr, 0)], f[Cell(addr, 1)], f[Cell(addr, 2)], f[Cell(addr, 3)])
  }

  /** read_4bytes returns the word whose big-endian bytes are the four cells the transfer walks. */
  lemma ReadBytes(f: Fram, addr: U16)
    ensures BigEndian(Read4(f, addr)) == [f[Cell(addr, 0)], f[Cell(addr, 1)], f[Cell(addr, 2)], f[Cell(addr, 3)]]
  {
    BigEndianOfWord(f[Cell(addr, 0)], f[Cell(addr, 1)], f[Cell(addr, 2)], f[Cell(addr, 3)]);
  }

  /**
   write_4bytes(addr, data): below the guard the four bytes of data replace
   cells addr..addr+3; from the guard on nothing is written (only the
   write-enable opcode goes out).
   */
  function Write4(f: Fram, addr: U16, data: U32): (g: Fram)
    ensures addr >= WriteGuard ==> g == f
    ensures addr < WriteGuard ==> g[addr..addr + 4] == BigEndian(data)
    ensures forall j :: 0 <= j < FramSize && !(addr <= j < addr + 4) ==> g[j] == f[j]
  {
    if addr < WriteGuard then
      var b := BigEndian(data);
      f[addr := b[0]][addr + 1 := b[1]][addr + 2 := b[2]][addr + 3 := b[3]]
    else
      f
  }

  /** A word written below the guard reads back unchanged. */
  lemma ReadAfterWrite(f: Fram, addr: U16, data: U32)
    requires addr < WriteGuard
    ensures Read4(Write4(f, addr, data), addr) == data
  {
    var g := Write4(f, addr, data);
    var b := BigEndian(data);
    assert g[addr] == b[0] && g[addr + 1] == b[1] && g[addr + 2] == b[2] && g[addr + 3] == b[3] by {
      assert g[addr..addr + 4] == b;
    }
    WordOfBigEndian(data);
  }

  /**
   * A write leaves the word at any other address unchanged when none of
   * the four cells that address reads, after roll-over and aliasing, is
   * one the write touched.
   */
  lemma ReadAfterDisjointWrite(f: Fram, addr: U16, other: U16, data: U32)
    requires forall k :: 0 <= k < 4 ==> !(addr <= Cell(other, k) < addr + 4)
    ensures Read4(Write4(f, addr, data), other) == Read4(f, other)
  {
  }

  /** A read that starts near the top of the chip continues at cell 0. */
  lemma ReadRollsOver(f: Fram)
    ensures Read4(f, 0x1FE) == Word(f[0x1FE], f[0x1FF], f[0], f[1])
  {
  }

  /**
   An address above the chip reads from the cell that the H opcode's bit 8
   and the low address byte select: 0x258 reads 0x158.
   */
  lemma ReadAliases(f: Fram)
    ensures Read4(f, 0x258) == Read4(f, 0x158)
  {
  }
}
