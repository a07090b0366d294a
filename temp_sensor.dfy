/** The DS18B20 temperature sensor: `_measure` reads the two lines of the
    kernel's 1-Wire `w1_slave` file. The first line carries the nine raw
    scratchpad bytes, the CRC byte and the verdict `YES`/`NO`; the second
    the same nine bytes and `t=` followed by the temperature in
    thousandths of a degree. Any mismatch, or a failed read, yields the
    default 100. Both patterns are matched at the start of the line only. */
module TempSensor {
  import opened Wrappers
  import opened Bytes

  /** What reading `w1_slave` gave: its first two lines (the second is ""
      when the file has one line only), or an I/O error. */
  datatype W1Read = Lines(first: string, second: string) | ReadFailure

  /** The value `_measure` returns when a read fails or a line does not match. */
  const Default: real := 100.0

  predicate IsHexDigit(c: char) {
    ('0' <= c <= '9') || ('a' <= c <= 'f')
  }

  predicate IsDigit(c: char) {
    '0' <= c <= '9'
  }

  /** `s` starts with `n` groups of two lowercase hex digits, each followed
      by a space: the pattern `([0-9a-f]{2} ){n}`. */
  predicate HexGroups(s: string, n: nat) {
    n == 0 || (|s| >= 3 && IsHexDigit(s[0]) && IsHexDigit(s[1]) && s[2] == ' ' && HexGroups(s[3..], n - 1))
  }

  /** The first line matches `([0-9a-f]{2} ){9}: crc=[0-9a-f]{2} YES` at its start. */
  predicate CrcLineMatches(l: string) {
    && |l| >= 39
    && HexGroups(l, 9)
    && l[27..33] == ": crc="
    && IsHexDigit(l[33]) && IsHexDigit(l[34])
    && l[35..39] == " YES"
  }

  /** The length of the run of decimal digits at the start of `s`. */
  function DigitRun(s: string): (r: nat)
    ensures r <= |s|
    ensures forall i :: 0 <= i < r ==> IsDigit(s[i])
    ensures r < |s| ==> !IsDigit(s[r])
  {
    if s == [] || !IsDigit(s[0]) then 0 else 1 + DigitRun(s[1..])
  }

  /** The number a string of decimal digits denotes. */
  function DigitsValue(d: string): nat
    requires forall i :: 0 <= i < |d| ==> IsDigit(d[i])
  {
    if d == [] then 0 else 10 * DigitsValue(d[..|d| - 1]) + DigitValue(d[|d| - 1])
  }

  function DigitValue(c: char): nat
    requires IsDigit(c)
  {
    c as int - '0' as int
  }

  /** The signed integer of pattern `[+-]?[0-9]+` at the start of `s`, with
      the digit run taken as long as it goes. */
  function SignedInt(s: string): (r: Option<int>)
    ensures r.Some? <==> (|s| > 0 && IsDigit(s[0])) || (|s| > 1 && (s[0] == '+' || s[0] == '-') && IsDigit(s[1]))
  {
    if |s| > 0 && (s[0] == '+' || s[0] == '-') && DigitRun(s[1..]) > 0 then
      var n: int := DigitsValue(s[1..][..DigitRun(s[1..])]);
      Some(if s[0] == '-' then -n else n)
    else if DigitRun(s) > 0 then
      Some(DigitsValue(s[..DigitRun(s)]))
    else None
  }

  /** The second line matches `([0-9a-f]{2} ){9}t=([+-]?[0-9]+)` at its
      start; the result is the integer of the second group. */
  function TLineValue(l: string): (r: Option<int>)
    ensures r.Some? ==> |l| > 29 && HexGroups(l, 9) && l[27..29] == "t="
  {
    if |l| >= 29 && HexGroups(l, 9) && l[27..29] == "t=" then SignedInt(l[29..]) else None
  }

  /** `TempSensor._measure`: the temperature in degrees, or the default. A
      result other than the default can only come from two matching lines,
      and is then the integer after `t=` divided by 1000. */
  function Temperature(read: W1Read): (t: real)
    ensures t != Default ==>
              && read.Lines?
              && CrcLineMatches(read.first)
              && TLineValue(read.second).Some?
              && t == TLineValue(read.second).value as real / 1000.0
  {
    match read
    case ReadFailure => Default
    case Lines(first, second) =>
      if CrcLineMatches(first) then
        match TLineValue(second)
        case Some(v) => v as real / 1000.0
        case None => Default
      else Default
  }

  /** A failed read gives the default. */
  lemma ReadFailureGivesDefault()
    ensures Temperature(ReadFailure) == Default
  {
  }

  /** A first line that does not match gives the default, whatever the second line. */
  lemma BadCrcLineGivesDefault(first: string, second: string)
    requires !CrcLineMatches(first)
    ensures Temperature(Lines(first, second)) == Default
  {
  }

  /** A matching first line and a second line without a temperature give the default. */
  lemma BadTLineGivesDefault(first: string, second: string)
    requires CrcLineMatches(first) && TLineValue(second).None?
    ensures Temperature(Lines(first, second)) == Default
  {
  }

  /** Two matching lines give the integer after `t=`, in thousandths of a
      degree, whatever else the lines carry. */
  lemma MatchingLinesGiveValue(first: string, second: string)
    requires CrcLineMatches(first) && TLineValue(second).Some?
    ensures Temperature(Lines(first, second)) == TLineValue(second).value as real / 1000.0
  {
  }

  /** One hex group of the pattern, the `k`-th, at offset `3 * k`. */
  predicate HexGroupAt(s: string, k: nat)
    requires 3 * k + 3 <= |s|
  {
    IsHexDigit(s[3 * k]) && IsHexDigit(s[3 * k + 1]) && s[3 * k + 2] == ' '
  }

  /** The recursive pattern is the same as "long enough, and every one of the
      `n` groups is two hex digits and a space". */
  lemma {:induction false} HexGroupsIff(s: string, n: nat)
    ensures HexGroups(s, n) <==> 3 * n <= |s| && forall k :: 0 <= k < n ==> HexGroupAt(s, k)
  {
    if n > 0 && |s| >= 3 {
      var t := s[3..];
      HexGroupsIff(t, n - 1);
      forall k | 0 <= k < n - 1 && 3 * n <= |s|
        ensures HexGroupAt(t, k) <==> HexGroupAt(s, k + 1)
      {
        assert t[3 * k] == s[3 * (k + 1)];
        assert t[3 * k + 1] == s[3 * (k + 1) + 1];
        assert t[3 * k + 2] == s[3 * (k + 1) + 2];
      }
      if 3 * n <= |s| && (forall k :: 0 <= k < n ==> HexGroupAt(s, k)) {
        assert HexGroupAt(s, 0);
        forall k | 0 <= k < n - 1 ensures HexGroupAt(t, k) {
          assert HexGroupAt(s, k + 1);
        }
      }
      if HexGroups(s, n) {
        forall k | 0 <= k < n ensures HexGroupAt(s, k) {
          if k > 0 {
            assert HexGroupAt(t, k - 1);
          }
        }
      }
    }
  }

  // ---------------------------------------------------------------------
  // What the kernel writes, rendered, and the parse of it.

  function HexChar(n: int): (c: char)
    requires 0 <= n < 16
    ensures IsHexDigit(c)
  {
    if n < 10 then ('0' as int + n) as char else ('a' as int + n - 10) as char
  }

  /** The nine-byte prefix `xx xx ... xx ` both lines start with. */
  function BytesPrefix(bytes: seq<Byte>): (s: string)
    ensures |s| == 3 * |bytes|
  {
    if bytes == [] then [] else [HexChar(bytes[0] / 16), HexChar(bytes[0] % 16), ' '] + BytesPrefix(bytes[1..])
  }

  /** A first line as the kernel writes it, with the verdict `YES` or `NO`. */
  function CrcLine(bytes: seq<Byte>, crc: Byte, verdict: string): string {
    BytesPrefix(bytes) + ": crc=" + [HexChar(crc / 16), HexChar(crc % 16)] + " " + verdict
  }

  function DigitChar(n: int): (c: char)
    requires 0 <= n < 10
    ensures IsDigit(c) && DigitValue(c) == n
  {
    ('0' as int + n) as char
  }

  /** The decimal spelling of `n`, without leading zeros. */
  function NatToString(n: nat): (s: string)
    ensures |s| > 0
    ensures forall i :: 0 <= i < |s| ==> IsDigit(s[i])
  {
    if n < 10 then [DigitChar(n)] else NatToString(n / 10) + [DigitChar(n % 10)]
  }

  /** The decimal spelling of `t`, with a minus sign when negative. */
  function IntToString(t: int): string {
    if t < 0 then "-" + NatToString(-t) else NatToString(t)
  }

  /** A second line as the kernel writes it. */
  function TLine(bytes: seq<Byte>, t: int): string {
    BytesPrefix(bytes) + "t=" + IntToString(t)
  }

  lemma {:induction false} BytesPrefixMatches(bytes: seq<Byte>, tail: string)
    ensures HexGroups(BytesPrefix(bytes) + tail, |bytes|)
  {
    if bytes != [] {
      var group := [HexChar(bytes[0] / 16), HexChar(bytes[0] % 16), ' '];
      var rest := BytesPrefix(bytes[1..]) + tail;
      var s := BytesPrefix(bytes) + tail;
      assert s == group + rest;
      assert s[..3] == group && s[3..] == rest;
      BytesPrefixMatches(bytes[1..], tail);
    }
  }

  lemma {:induction false} DigitsOfNatToString(n: nat)
    ensures DigitsValue(NatToString(n)) == n
  {
    if n >= 10 {
      var s := NatToString(n);
      assert s[..|s| - 1] == NatToString(n / 10);
      DigitsOfNatToString(n / 10);
    }
  }

  /** A run of digits followed by something that is not a digit is read whole. */
  lemma {:induction false} DigitRunOfDigits(d: string, tail: string)
    requires forall i :: 0 <= i < |d| ==> IsDigit(d[i])
    requires tail == [] || !IsDigit(tail[0])
    ensures DigitRun(d + tail) == |d|
  {
    if d != [] {
      assert (d + tail)[1..] == d[1..] + tail;
      DigitRunOfDigits(d[1..], tail);
    }
  }

  /** An unsigned run of digits, followed by a non-digit, is read whole. */
  lemma UnsignedOfDigits(d: string, tail: string)
    requires |d| > 0 && forall i :: 0 <= i < |d| ==> IsDigit(d[i])
    requires tail == [] || !IsDigit(tail[0])
    ensures SignedInt(d + tail) == Some(DigitsValue(d))
  {
    var s := d + tail;
    DigitRunOfDigits(d, tail);
    assert s[0] == d[0];
    assert s[..|d|] == d;
  }

  /** Leading zeros do not change the value of a run of digits. */
  lemma {:induction false} LeadingZeroIgnored(d: string)
    requires forall i :: 0 <= i < |d| ==> IsDigit(d[i])
    ensures DigitsValue(['0'] + d) == DigitsValue(d)
  {
    if d != [] {
      var z := ['0'] + d;
      assert z[..|z| - 1] == ['0'] + d[..|d| - 1];
      assert z[|z| - 1] == d[|d| - 1];
      LeadingZeroIgnored(d[..|d| - 1]);
    }
  }

  /** A plus sign and a run of digits, followed by a non-digit, is read
      whole, as the run's value. */
  lemma PositiveOfDigits(d: string, tail: string)
    requires |d| > 0 && forall i :: 0 <= i < |d| ==> IsDigit(d[i])
    requires tail == [] || !IsDigit(tail[0])
    ensures SignedInt("+" + (d + tail)) == Some(DigitsValue(d))
  {
    var rest := d + tail;
    var s := "+" + rest;
    assert s[0] == '+';
    assert s[1..] == rest;
    DigitRunOfDigits(d, tail);
    assert rest[..DigitRun(rest)] == d;
  }

  /** A minus sign followed by a digit run reads as the negated run. */
  lemma SignedIntOfMinus(s: string, d: string)
    requires |s| > 0 && s[0] == '-' && DigitRun(s[1..]) > 0
    requires s[1..][..DigitRun(s[1..])] == d
    ensures SignedInt(s) == Some(-(DigitsValue(d) as int))
  {
  }

  /** A minus sign and a run of digits, followed by a non-digit, is read whole. */
  lemma NegativeOfDigits(d: string, tail: string)
    requires |d| > 0 && forall i :: 0 <= i < |d| ==> IsDigit(d[i])
    requires tail == [] || !IsDigit(tail[0])
    ensures SignedInt("-" + (d + tail)) == Some(-(DigitsValue(d) as int))
  {
    var rest := d + tail;
    var s := "-" + rest;
    assert s[0] == '-';
    assert s[1..] == rest;
    DigitRunOfDigits(d, tail);
    assert rest[..DigitRun(rest)] == d;
    SignedIntOfMinus(s, d);
  }

  /** A negative `t` is spelled as a minus sign and the digits of `-t`. */
  lemma NegativeOfIntToString(t: int, tail: string)
    requires t < 0
    requires tail == [] || !IsDigit(tail[0])
    ensures SignedInt(IntToString(t) + tail) == Some(t)
  {
    var d := NatToString(-t);
    assert IntToString(t) == "-" + d;
    var s := IntToString(t) + tail;
    assert s == "-" + (d + tail);
    DigitsOfNatToString(-t);
    NegativeOfDigits(d, tail);
  }

  /** Parsing undoes rendering: the signed integer at the start of the
      spelling of `t`, followed by anything that is not a digit, is `t`. */
  lemma SignedIntOfIntToString(t: int, tail: string)
    requires tail == [] || !IsDigit(tail[0])
    ensures SignedInt(IntToString(t) + tail) == Some(t)
  {
    if t < 0 {
      NegativeOfIntToString(t, tail);
    } else {
      DigitsOfNatToString(t);
      UnsignedOfDigits(NatToString(t), tail);
    }
  }

  /** A first line as the kernel writes it, with `YES`, matches whatever follows it. */
  lemma CrcLineOfRendered(bytes: seq<Byte>, crc: Byte, tail: string)
    requires |bytes| == 9
    ensures CrcLineMatches(CrcLine(bytes, crc, "YES") + tail)
  {
    var p := BytesPrefix(bytes);
    var rest := ": crc=" + [HexChar(crc / 16), HexChar(crc % 16)] + " YES" + tail;
    var first := CrcLine(bytes, crc, "YES") + tail;
    assert first == p + rest;
    BytesPrefixMatches(bytes, rest);
    assert first[27..33] == rest[..6];
    assert first[35..39] == rest[8..12];
  }

  /** After nine hex groups, the second line's value is the signed integer
      following `t=`. */
  lemma TLineValueAfterPrefix(bytes: seq<Byte>, rest: string)
    requires |bytes| == 9
    requires |rest| >= 2 && rest[..2] == "t="
    ensures TLineValue(BytesPrefix(bytes) + rest) == SignedInt(rest[2..])
  {
    var second := BytesPrefix(bytes) + rest;
    BytesPrefixMatches(bytes, rest);
    assert second[27..29] == rest[..2];
    assert second[29..] == rest[2..];
  }

  /** A second line as the kernel writes it carries its temperature, when
      no digit follows the number. */
  lemma TLineOfRendered(bytes: seq<Byte>, t: int, tail: string)
    requires |bytes| == 9
    requires tail == [] || !IsDigit(tail[0])
    ensures TLineValue(TLine(bytes, t) + tail) == Some(t)
  {
    var digits := IntToString(t) + tail;
    var rest := "t=" + digits;
    assert TLine(bytes, t) + tail == BytesPrefix(bytes) + rest;
    assert rest[2..] == digits;
    TLineValueAfterPrefix(bytes, rest);
    SignedIntOfIntToString(t, tail);
  }

  /** Two lines as the kernel writes them, with `YES`, give the temperature
      they carry, in degrees; anything after the verdict and after the
      digits (such as the newline) is ignored. */
  lemma TemperatureOfRendered(bytes: seq<Byte>, crc: Byte, t: int, tail1: string, tail2: string)
    requires |bytes| == 9
    requires tail2 == [] || !IsDigit(tail2[0])
    ensures Temperature(Lines(CrcLine(bytes, crc, "YES") + tail1, TLine(bytes, t) + tail2)) == t as real / 1000.0
  {
    CrcLineOfRendered(bytes, crc, tail1);
    TLineOfRendered(bytes, t, tail2);
  }

  /** A CRC failure, reported as `NO`, gives the default whatever follows. */
  lemma CrcFailureGivesDefault(bytes: seq<Byte>, crc: Byte, tail1: string, second: string)
    requires |bytes| == 9
    ensures Temperature(Lines(CrcLine(bytes, crc, "NO") + tail1, second)) == Default
  {
    var first := CrcLine(bytes, crc, "NO") + tail1;
    if |first| >= 39 {
      assert first[35..39] != " YES" by {
        assert first[36] == 'N';
      }
    }
  }
}
