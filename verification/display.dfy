/**
 Building the OLED log line after a counted discharge
 (HiVoPuCounter/hivopucounter.c:207-217): `int2str` renders an integer into a
 byte buffer, `concatenateStrings` appends one NUL-terminated string to
 another, and `current_row` selects one of the eight display rows.

 Buffers are modelled as `seq<char>`; a C string is the part of a buffer
 before its first NUL.
 */
module Display {
  import opened CTypes

  const Nul: char := '\0'

  /** Size of text_string and string_buffer. */
  const LineBufferSize: int := 20

  /** vstring: "V:" and its terminator. */
  const VString: seq<char> := ['V', ':', Nul]

  /** The C string held in a buffer: everything before the first NUL. */
  function CStr(buf: seq<char>): (s: string)
    requires Nul in buf
    ensures |s| < |buf| && buf[..|s|] == s && buf[|s|] == Nul
    ensures Nul !in s
  {
    if buf[0] == Nul then [] else [buf[0]] + CStr(buf[1..])
  }

  /** A NUL-free prefix followed by a NUL is the buffer's C string. */
  lemma CStrOf(buf: seq<char>, s: string)
    requires Nul !in s && |s| < |buf| && buf[..|s|] == s && buf[|s|] == Nul
    ensures Nul in buf && CStr(buf) == s
  {
  }

  /** The character int2str writes for a digit: '0'..'9', then 'A'..'Z'; it reads back as d. */
  function DigitChar(d: nat): (c: char)
    requires d < 36
    ensures DigitValue(c) == d
  {
    if d < 10 then ('0' as int + d) as char else ('A' as int + d - 10) as char
  }

  /** Value of a digit character, -1 for anything else. */
  function DigitValue(c: char): (v: int)
    ensures -1 <= v < 36
  {
    if '0' <= c <= '9' then c as int - '0' as int
    else if 'A' <= c <= 'Z' then c as int - 'A' as int + 10
    else -1
  }

  lemma DivShrinks(n: nat, base: nat)
    requires 2 <= base <= n
    ensures 1 <= n / base < n && n % base < base
  {
  }

  /** The digits of n in the given base, most significant first, without leading zeros. */
  function NatText(n: nat, base: nat): (s: string)
    requires 2 <= base <= 36
    ensures |s| >= 1
    decreases n
  {
    if n < base then
      [DigitChar(n)]
    else
      DivShrinks(n, base);
      NatText(n / base, base) + [DigitChar(n % base)]
  }

  /** Every character of NatText is a digit of the base. */
  lemma {:induction false} NatTextDigits(n: nat, base: nat)
    requires 2 <= base <= 36
    ensures forall k :: 0 <= k < |NatText(n, base)| ==> 0 <= DigitValue(NatText(n, base)[k]) < base
    decreases n
  {
    var s := NatText(n, base);
    if n >= base {
      DivShrinks(n, base);
      NatTextDigits(n / base, base);
      assert forall k :: 0 <= k < |s| - 1 ==> s[k] == NatText(n / base, base)[k];
    }
  }

  /** What int2str renders: '-' before the digits of |num| when num is negative. */
  function IntText(num: int, base: nat): (s: string)
    requires 2 <= base <= 36
  {
    if num < 0 then ['-'] + NatText(-num, base) else NatText(num, base)
  }

  /** Reads a digit string back, most significant digit first. */
  function ParseNat(s: string, base: nat): int
  {
    if s == [] then 0 else ParseNat(s[..|s| - 1], base) * base + DigitValue(s[|s| - 1])
  }

  /** Reads int2str's output back, honouring a leading '-'. */
  function ParseInt(s: string, base: nat): int
  {
    if |s| > 0 && s[0] == '-' then -ParseNat(s[1..], base) else ParseNat(s, base)
  }

  function Pow(base: nat, k: nat): nat
  {
    if k == 0 then 1 else base * Pow(base, k - 1)
  }

  lemma {:induction false} NatTextRoundTrip(n: nat, base: nat)
    requires 2 <= base <= 36
    ensures ParseNat(NatText(n, base), base) == n
    decreases n
  {
    if n < base {
      ParseNatSnoc([], DigitChar(n), base);
    } else {
      DivShrinks(n, base);
      var q := NatText(n / base, base);
      NatTextRoundTrip(n / base, base);
      ParseNatSnoc(q, DigitChar(n % base), base);
      Recombine(ParseNat(q, base), n, base);
    }
  }

  lemma ParseNatSnoc(q: string, c: char, base: nat)
    ensures ParseNat(q + [c], base) == ParseNat(q, base) * base + DigitValue(c)
  {
    assert (q + [c])[..|q|] == q;
  }

  lemma Recombine(p: int, n: nat, base: nat)
    requires 2 <= base && p == n / base
    ensures p * base + n % base == n
  {
  }

  /** Reading the rendered text back gives the number. */
  lemma IntTextRoundTrip(num: int, base: nat)
    requires 2 <= base <= 36
    ensures ParseInt(IntText(num, base), base) == num
  {
    var s := IntText(num, base);
    if num < 0 {
      NatTextRoundTrip(-num, base);
      assert s[1..] == NatText(-num, base);
    } else {
      NatTextRoundTrip(num, base);
      NatTextDigits(num, base);
      assert DigitValue(s[0]) >= 0;
    }
  }

  /** A number below base^k has at most k digits. */
  lemma {:induction false} NatTextLength(n: nat, base: nat, k: nat)
    requires 2 <= base <= 36
    requires 1 <= k && n < Pow(base, k)
    ensures |NatText(n, base)| <= k
    decreases k
  {
    if n >= base {
      assert n / base < Pow(base, k - 1);
      NatTextLength(n / base, base, k - 1);
    }
  }

  /** The digits int2str's loop has still to write while t remains: none once t reaches 0. */
  function Lead(t: nat, base: nat): (s: string)
    requires 2 <= base <= 36
  {
    if t == 0 then [] else NatText(t, base)
  }

  /**
   One pass of int2str's digit loop peels the last digit off the text still
   to be written.
   */
  lemma PeelDigit(t: nat, base: nat, pending: string)
    requires 2 <= base <= 36
    requires pending == (if t == 0 then NatText(0, base) else Lead(t, base))
    ensures |pending| >= 1
    ensures 0 <= t % base < base && 0 <= t / base
    ensures Lead(t / base, base) == pending[..|pending| - 1]
    ensures DigitChar(t % base) == pending[|pending| - 1]
    ensures t > 0 ==> t / base < t
  {
    if t < base {
      SmallQuotient(t, base);
      if t == 0 {
        assert pending == [DigitChar(0)];
      } else {
        assert pending == [DigitChar(t)];
      }
    } else {
      DivShrinks(t, base);
      assert pending == NatText(t / base, base) + [DigitChar(t % base)];
    }
  }

  lemma SmallQuotient(t: nat, base: nat)
    requires t < base
    ensures t / base == 0 && t % base == t
  {
  }

  /**
   The digit loop of int2str (a do-while: its body runs once before the
   test): writes the digits of t from index 0 on, least significant first.
   */
  method WriteDigitsReversed(t0: nat, buf: seq<char>, base: nat) returns (out: seq<char>, i: nat)
    requires 2 <= base <= 36
    requires |NatText(t0, base)| <= |buf|
    ensures i == |NatText(t0, base)|
    ensures |out| == |buf| && out[i..] == buf[i..]
    ensures forall k :: 0 <= k < i ==> out[k] == NatText(t0, base)[i - 1 - k]
  {
    ghost var digits := NatText(t0, base);
    var t: nat := t0;
    PeelDigit(t, base, digits);
    out := buf[0 := DigitChar(t % base)];
    i := 1;
    t := t / base;
    while t > 0
      invariant 1 <= i <= |digits|
      invariant |out| == |buf|
      invariant forall k :: i <= k < |buf| ==> out[k] == buf[k]
      invariant Lead(t, base) == digits[..|digits| - i]
      invariant forall k :: 0 <= k < i ==> out[k] == digits[|digits| - 1 - k]
      decreases t
    {
      PeelNextDigit(t, base, digits, i);
      out := out[i := DigitChar(t % base)];
      i := i + 1;
      t := t / base;
    }
  }

  /** PeelDigit for the loop of int2str, where i digits are already written. */
  lemma PeelNextDigit(t: nat, base: nat, digits: string, i: nat)
    requires 2 <= base <= 36 && 0 < t
    requires 1 <= i <= |digits| && Lead(t, base) == digits[..|digits| - i]
    ensures i < |digits|
    ensures Lead(t / base, base) == digits[..|digits| - (i + 1)]
    ensures DigitChar(t % base) == digits[|digits| - 1 - i]
    ensures 0 <= t / base < t
  {
    var pending := digits[..|digits| - i];
    PeelDigit(t, base, pending);
    assert pending[..|pending| - 1] == digits[..|digits| - (i + 1)];
  }

  /** The swap loop of int2str: reverses the first n characters in place. */
  method ReverseInPlace(buf: seq<char>, n: nat) returns (out: seq<char>)
    requires 1 <= n <= |buf|
    ensures |out| == |buf| && out[n..] == buf[n..]
    ensures forall k :: 0 <= k < n ==> out[k] == buf[n - 1 - k]
  {
    out := buf;
    var start := 0;
    var end := n - 1;
    while start < end
      invariant 0 <= start && end == n - 1 - start && start <= end + 1
      invariant |out| == |buf|
      invariant forall k :: 0 <= k < start ==> out[k] == buf[n - 1 - k] && out[n - 1 - k] == buf[k]
      invariant forall k :: start <= k <= end ==> out[k] == buf[k]
      invariant out[n..] == buf[n..]
    {
      var temp := out[start];
      out := out[start := out[end]];
      out := out[end := temp];
      start := start + 1;
      end := end - 1;
    }
  }

  /**
   The first half of int2str: the digits of |num| least significant first,
   then '-' when num is negative; that is IntText(num, base) backwards.
   */
  method WriteTextReversed(num: I32, buf: seq<char>, base: nat) returns (out: seq<char>, i: nat)
    requires 2 <= base <= 36
    requires |IntText(num, base)| <= |buf|
    ensures i == |IntText(num, base)|
    ensures |out| == |buf| && out[i..] == buf[i..]
    ensures forall k :: 0 <= k < i ==> out[k] == IntText(num, base)[i - 1 - k]
  {
    var negative := num < 0;
    var magnitude: nat := if negative then -(num as int) else num;
    ghost var digits := NatText(magnitude, base);
    ghost var text := IntText(num, base);
    assert text == if negative then ['-'] + digits else digits;
    out, i := WriteDigitsReversed(magnitude, buf, base);
    if negative {
      out := out[i := '-'];
      SignAfterDigits(out, i, digits);
      i := i + 1;
    }
  }

  /** The '-' written after the reversed digits is the text's first character read backwards. */
  lemma SignAfterDigits(out: seq<char>, n: nat, digits: string)
    requires |digits| == n < |out| && out[n] == '-'
    requires forall k :: 0 <= k < n ==> out[k] == digits[n - 1 - k]
    ensures forall k :: 0 <= k <= n ==> out[k] == (['-'] + digits)[n - k]
  {
  }

  /**
   int2str(num, str, base): writes the digits of |num| least significant
   first, then '-' for a negative num, then the NUL, and reverses the text
   in place. The buffer then holds IntText(num, base) as a C string; the
   bytes past the NUL keep their old contents.
   */
  method Int2Str(num: I32, buf: seq<char>, base: U8) returns (out: seq<char>)
    requires num != I32Min
    requires 2 <= base <= 36
    requires |IntText(num, base)| < |buf|
    ensures |out| == |buf|
    ensures Nul in out && CStr(out) == IntText(num, base)
    ensures out[|IntText(num, base)| + 1..] == buf[|IntText(num, base)| + 1..]
  {
    ghost var text := IntText(num, base);
    var i;
    out, i := WriteTextReversed(num, buf, base);
    out := out[i := Nul];
    out := ReverseInPlace(out, i);
    assert out[..i] == text;
    IntTextHasNoNul(num, base);
    CStrOf(out, text);
  }

  lemma IntTextHasNoNul(num: int, base: nat)
    requires 2 <= base <= 36
    ensures Nul !in IntText(num, base)
  {
    var text := IntText(num, base);
    var digits := NatText(if num < 0 then -num else num, base);
    NatTextDigits(if num < 0 then -num else num, base);
    forall k | 0 <= k < |text|
      ensures text[k] != Nul
    {
      if num >= 0 {
        assert DigitValue(digits[k]) >= 0;
      } else if k > 0 {
        assert DigitValue(digits[k - 1]) >= 0;
      }
    }
  }

  /**
   concatenateStrings(dest, src): finds the NUL of dest, copies src there
   and terminates the result. The C string of the result is the two C
   strings joined; the bytes past the new NUL keep their old contents.
   */
  method Concatenate(dest: seq<char>, src: seq<char>) returns (out: seq<char>)
    requires Nul in dest && Nul in src
    requires |CStr(dest)| + |CStr(src)| < |dest|
    ensures |out| == |dest|
    ensures Nul in out && CStr(out) == CStr(dest) + CStr(src)
    ensures out[|CStr(dest)| + |CStr(src)| + 1..] == dest[|CStr(dest)| + |CStr(src)| + 1..]
  {
    ghost var head := CStr(dest);
    ghost var tail := CStr(src);
    var d := 0;
    while dest[d] != Nul
      invariant 0 <= d <= |head|
      decreases |head| - d
    {
      d := d + 1;
    }
    assert d == |head|;
    out := dest;
    var s := 0;
    while src[s] != Nul
      invariant 0 <= s <= |tail|
      invariant |out| == |dest|
      invariant forall k :: 0 <= k < s ==> out[d + k] == tail[k]
      invariant forall k :: 0 <= k < |dest| && !(d <= k < d + s) ==> out[k] == dest[k]
      decreases |tail| - s
    {
      out := out[d + s := src[s]];
      s := s + 1;
    }
    assert s == |tail|;
    out := out[d + s := Nul];
    assert out[..d + s] == head + tail by {
      forall k | 0 <= k < d + s
        ensures out[k] == (head + tail)[k]
      {
        if k < d {
          assert out[k] == dest[k] == head[k];
        } else {
          assert out[k] == tail[k - d];
        }
      }
    }
    assert out[d + s + 1..] == dest[d + s + 1..];
    CStrOf(out, head + tail);
  }

  /**
   The text detect_discharge draws: int2str of the bin voltage into
   text_string, "V:" appended, int2str of the re-read count (passed as an
   int32_t) into string_buffer, and that appended. The line fits the
   20-byte buffer with its terminator whatever both buffers held before.
   */
  method BuildLine(text: seq<char>, scratch: seq<char>, volts: U16, count: U32)
    returns (line: seq<char>, digits: seq<char>)
    requires |text| == LineBufferSize && |scratch| == LineBufferSize
    requires AsI32(count) != I32Min
    ensures |line| == LineBufferSize
    ensures Nul in line && CStr(line) == IntText(volts, 10) + "V:" + IntText(AsI32(count), 10)
  {
    assert Pow(10, 5) == 100000;
    NatTextLength(volts, 10, 5);
    var n := AsI32(count);
    assert Pow(10, 10) == 10000000000;
    NatTextLength(if n < 0 then -n else n, 10, 10);
    line := Int2Str(volts, text, 10);
    assert CStr(VString) == "V:" by {
      CStrOf(VString, "V:");
    }
    line := Concatenate(line, VString);
    digits := Int2Str(n, scratch, 10);
    line := Concatenate(line, digits);
  }

  /**
   current_row after a logged discharge: rows 0..6 advance by one, any
   other value restarts at row 0 (where the display buffer is also
   cleared). The result is always one of the eight rows of the display.
   */
  function NextRow(row: U8): (r: U8)
    ensures r <= 7
  {
    if row <= 6 then row + 1 else 0
  }

  /** On the eight rows the update is a cycle of length eight. */
  lemma NextRowCycles(row: U8)
    requires row <= 7
    ensures NextRow(row) == (row + 1) % 8
    ensures NextRow(NextRow(NextRow(NextRow(NextRow(NextRow(NextRow(NextRow(row)))))))) == row
  {
  }
}
