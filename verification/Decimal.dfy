/** Integers as printf writes them with %d and scanf reads them back
    (sections 7.21.6.1 and 7.21.6.2 of ISO/IEC 9899:2011), and the bytes they
    are stored in. */
module Decimal {
  import opened Bytes
  import DrvInfo

  predicate IsDigit(c: char) {
    '0' <= c <= '9'
  }

  function DigitChar(d: nat): (c: char)
    requires d < 10
    ensures IsDigit(c) && DigitValue(c) == d
  {
    ('0' as int + d) as char
  }

  function DigitValue(c: char): (d: nat)
    requires IsDigit(c)
    ensures d < 10
  {
    c as int - '0' as int
  }

  function Digits(n: nat): (s: string)
    ensures s != "" && forall i :: 0 <= i < |s| ==> IsDigit(s[i])
  {
    if n < 10 then [DigitChar(n)] else Digits(n / 10) + [DigitChar(n % 10)]
  }

  function Render(v: int): (s: string)
    ensures s != ""
  {
    if v < 0 then "-" + Digits(-v) else Digits(v)
  }

  /** The digits at the front. */
  function DigitRun(s: string): (r: string)
    ensures forall i :: 0 <= i < |r| ==> IsDigit(r[i])
  {
    if s == "" || !IsDigit(s[0]) then "" else [s[0]] + DigitRun(s[1..])
  }

  function Number(digits: string): nat
    requires forall i :: 0 <= i < |digits| ==> IsDigit(digits[i])
  {
    if digits == "" then 0 else 10 * Number(digits[..|digits| - 1]) + DigitValue(digits[|digits| - 1])
  }

  /** What one integer conversion finds: the end of the text, nothing it can convert, or a value. */
  datatype Scan = AtEnd | NoMatch | Value(v: int)

  function ScanInt(text: string): Scan {
    var s := DrvInfo.SkipSpaces(text);
    if s == "" then AtEnd
    else
      var negative := s[0] == '-';
      var digits := DigitRun(if negative || s[0] == '+' then s[1..] else s);
      if digits == "" then NoMatch else Value(if negative then 0 - Number(digits) else Number(digits))
  }

  lemma {:induction false} NumberOfDigits(n: nat)
    ensures Number(Digits(n)) == n
  {
    if n >= 10 {
      NumberOfDigits(n / 10);
      assert Digits(n)[..|Digits(n)| - 1] == Digits(n / 10);
    }
  }

  ghost predicate Stops(rest: string) {
    rest == "" || !IsDigit(rest[0])
  }

  lemma {:induction false} DigitRunStops(digits: string, rest: string)
    requires (forall i :: 0 <= i < |digits| ==> IsDigit(digits[i])) && Stops(rest)
    ensures DigitRun(digits + rest) == digits
    decreases |digits|
  {
    if digits == "" {
      assert digits + rest == rest;
    } else {
      DigitRunStops(digits[1..], rest);
      assert (digits + rest)[1..] == digits[1..] + rest;
      assert digits == [digits[0]] + digits[1..];
    }
  }

  lemma ScanPlain(digits: string, rest: string)
    requires digits != "" && (forall i :: 0 <= i < |digits| ==> IsDigit(digits[i])) && Stops(rest)
    ensures ScanInt(digits + rest) == Value(Number(digits))
  {
    var text := digits + rest;
    assert text[0] == digits[0] && DrvInfo.SkipSpaces(text) == text;
    DigitRunStops(digits, rest);
  }

  lemma ScanNegative(text: string, digits: string, rest: string)
    requires digits != "" && (forall i :: 0 <= i < |digits| ==> IsDigit(digits[i])) && Stops(rest)
    requires text != "" && text[0] == '-' && text[1..] == digits + rest
    ensures ScanInt(text) == Value(0 - Number(digits))
  {
    assert DrvInfo.SkipSpaces(text) == text;
    DigitRunStops(digits, rest);
  }

  lemma BehindSign(s: string, rest: string)
    ensures ("-" + s + rest)[1..] == s + rest
  {
  }

  /** Reading back what was printed, whatever follows it that is not a digit. */
  lemma ScanInvertsRender(v: int, rest: string)
    requires Stops(rest)
    ensures ScanInt(Render(v) + rest) == Value(v)
  {
    var n: nat := if v < 0 then 0 - v else v;
    NumberOfDigits(n);
    if v < 0 {
      BehindSign(Digits(n), rest);
      ScanNegative(Render(v) + rest, Digits(n), rest);
    } else {
      ScanPlain(Digits(n), rest);
    }
  }

  /** A minus sign exactly before negative values, digits behind it, and no zero in front. */
  lemma RenderPlain(v: int)
    ensures var s := Render(v); var from := if v < 0 then 1 else 0;
            && from < |s| && (s[0] == '-' <==> v < 0)
            && (forall i :: from <= i < |s| ==> '0' <= s[i] <= '9')
            && (s[from] == '0' ==> s == "0")
  {
    DigitsLead(if v < 0 then -v else v);
  }

  lemma {:induction false} DigitsLead(n: nat)
    ensures Digits(n)[0] == '0' <==> n == 0
    ensures n == 0 ==> Digits(n) == "0"
  {
    if n >= 10 {
      DigitsLead(n / 10);
    }
  }

  ghost predicate AllDigits(s: string) {
    s != "" && forall i :: 0 <= i < |s| ==> '0' <= s[i] <= '9'
  }

  /** A single digit is read as itself. */
  lemma ScanDigit(digit: char)
    requires '0' <= digit <= '9'
    ensures ScanInt([digit]) == Value(digit as int - 48)
  {
    assert "" + [digit] == [digit];
    UnsignedScan([digit]);
    NumberSnoc("", digit);
  }

  /** The decimal system: one more digit makes ten times the number and the digit, with a sign or without. */
  lemma ScanDecimal(digits: string, front: int, last: char, sign: string)
    requires AllDigits(digits) && ScanInt(digits) == Value(front) && '0' <= last <= '9'
    requires sign == "" || sign == "+" || sign == "-"
    ensures var n := 10 * front + (last as int - 48);
            ScanInt(sign + (digits + [last])) == Value(if sign == "-" then 0 - n else n)
  {
    UnsignedScan(digits);
    NumberSnoc(digits, last);
    ScanSigned(sign, digits + [last]);
  }

  lemma UnsignedScan(digits: string)
    requires AllDigits(digits)
    ensures ScanInt(digits) == Value(Number(digits))
  {
    assert "" + digits == digits;
    ScanSigned("", digits);
  }

  lemma NumberSnoc(digits: string, last: char)
    requires (forall i :: 0 <= i < |digits| ==> IsDigit(digits[i])) && IsDigit(last)
    ensures Number(digits + [last]) == 10 * Number(digits) + DigitValue(last)
  {
    assert (digits + [last])[..|digits|] == digits;
  }

  lemma ScanSigned(sign: string, digits: string)
    requires AllDigits(digits) && (sign == "" || sign == "+" || sign == "-")
    ensures ScanInt(sign + digits) == Value(if sign == "-" then 0 - Number(digits) else Number(digits))
  {
    var text := sign + digits;
    assert digits + "" == digits && text[|sign|..] == digits;
    if sign == "-" {
      ScanNegative(text, digits, "");
    } else if sign == "+" {
      ScanPlus(text, digits);
    } else {
      ScanPlain(digits, "");
    }
  }

  lemma ScanPlus(text: string, digits: string)
    requires digits != "" && (forall i :: 0 <= i < |digits| ==> IsDigit(digits[i]))
    requires text != "" && text[0] == '+' && text[1..] == digits
    ensures ScanInt(text) == Value(Number(digits))
  {
    assert DrvInfo.SkipSpaces(text) == text && digits + "" == digits;
    DigitRunStops(digits, "");
  }

  lemma {:induction false} DigitRunEnds(s: string, rest: string)
    requires Stops(rest)
    ensures DigitRun(s + rest) == DigitRun(s)
    decreases |s|
  {
    if s == "" {
      assert s + rest == rest;
    } else {
      assert (s + rest)[1..] == s[1..] + rest;
      DigitRunEnds(s[1..], rest);
    }
  }

  lemma {:induction false} SpacesBefore(s: string, rest: string)
    requires DrvInfo.SkipSpaces(s) != ""
    ensures DrvInfo.SkipSpaces(s + rest) == DrvInfo.SkipSpaces(s) + rest
    decreases |s|
  {
    assert (s + rest)[1..] == s[1..] + rest;
    if DrvInfo.IsSpace(s[0]) {
      SpacesBefore(s[1..], rest);
    }
  }

  /** A number is read the same whatever follows it that is not a digit. */
  lemma ScanEnds(s: string, rest: string)
    requires ScanInt(s).Value? && Stops(rest)
    ensures ScanInt(s + rest) == ScanInt(s)
  {
    var text := DrvInfo.SkipSpaces(s);
    SpacesBefore(s, rest);
    assert (text + rest)[1..] == text[1..] + rest;
    DigitRunEnds(text[1..], rest);
    DigitRunEnds(text, rest);
  }

  function Pow10(k: nat): nat {
    if k == 0 then 1 else 10 * Pow10(k - 1)
  }

  lemma {:induction false} DigitsLength(n: nat, k: nat)
    requires n < Pow10(k) && k > 0
    ensures |Digits(n)| <= k
  {
    if n >= 10 {
      DigitsLength(n / 10, k - 1);
    }
  }

  /** A 32-bit value takes at most eleven characters. */
  lemma RenderLength(v: int)
    requires -0x8000_0000 <= v < 0x1_0000_0000
    ensures |Render(v)| <= 11
  {
    assert Pow10(10) == 10000000000;
    DigitsLength(if v < 0 then -v else v, 10);
  }

  lemma RenderHasNo(v: int, c: char)
    requires !IsDigit(c) && c != '-'
    ensures c !in Render(v)
  {
  }

  // ----- stored values, low byte first -----

  function Pow256(w: nat): nat {
    if w == 0 then 1 else 256 * Pow256(w - 1)
  }

  function Unsigned(bs: seq<byte>): (n: nat)
    ensures n < Pow256(|bs|)
  {
    if bs == [] then 0 else bs[0] + 256 * Unsigned(bs[1..])
  }

  /** Two's complement. */
  function Signed(bs: seq<byte>): int {
    if 2 * Unsigned(bs) >= Pow256(|bs|) then Unsigned(bs) - Pow256(|bs|) else Unsigned(bs)
  }

  /** The low `w` bytes of a value: storing reduces modulo the width. */
  function Store(v: int, w: nat): (bs: seq<byte>)
    ensures |bs| == w
    decreases w
  {
    if w == 0 then [] else [v % 256] + Store(v / 256, w - 1)
  }

  lemma {:induction false} StoreUnsigned(bs: seq<byte>)
    ensures Store(Unsigned(bs), |bs|) == bs
  {
    if bs != [] {
      StoreUnsigned(bs[1..]);
      assert Unsigned(bs) % 256 == bs[0] && Unsigned(bs) / 256 == Unsigned(bs[1..]);
    }
  }

  lemma ShiftedByte(v: int, p: int)
    ensures (v - 256 * p) % 256 == v % 256 && (v - 256 * p) / 256 == v / 256 - p
  {
  }

  lemma {:induction false} StoreWraps(v: int, w: nat)
    ensures Store(v - Pow256(w), w) == Store(v, w)
    decreases w
  {
    if w > 0 {
      var less: nat := w - 1;
      StoreWraps(v / 256, less);
      ShiftedByte(v, Pow256(less));
    }
  }

  /** Read as signed or as unsigned, storing the value gives the bytes back. */
  lemma StoreInverts(bs: seq<byte>)
    ensures Store(Unsigned(bs), |bs|) == bs && Store(Signed(bs), |bs|) == bs
  {
    StoreUnsigned(bs);
    StoreWraps(Unsigned(bs), |bs|);
  }

  /** Storing reduces modulo the width. */
  lemma {:induction false} StoreReduces(v: int, w: nat)
    ensures exists q: int :: v == Unsigned(Store(v, w)) + q * Pow256(w)
    decreases w
  {
    if w == 0 {
      assert v == Unsigned(Store(v, w)) + v * Pow256(w);
    } else {
      var less: nat := w - 1;
      StoreReduces(v / 256, less);
      var q: int :| v / 256 == Unsigned(Store(v / 256, less)) + q * Pow256(less);
      assert Store(v, w)[1..] == Store(v / 256, less);
      assert q * Pow256(w) == 256 * (q * Pow256(less));
      assert v == Unsigned(Store(v, w)) + q * Pow256(w);
    }
  }
}
