/** The timestamp recogniser of a delivery summary
    (`backend/src/delivery.rs`, `is_rfc3339`), on UTF-8 bytes. */
module Rfc3339 {
  import opened Octets

  type Bytes = seq<Byte>

  // ---- UTF-8 (RFC 3629, section 4) ----

  predicate IsTail(b: Byte) { 0x80 <= b <= 0xBF }

  // How many bytes the character that starts with `b` takes; 0 for none.
  function Width(b: Byte): nat {
    if b <= 0x7F then 1
    else if 0xC2 <= b <= 0xDF then 2
    else if 0xE0 <= b <= 0xEF then 3
    else if 0xF0 <= b <= 0xF4 then 4
    else 0
  }

  // The second byte excludes overlong forms, surrogates and code points past U+10FFFF.
  predicate SecondAllowed(lead: Byte, second: Byte) {
    && (lead == 0xE0 ==> 0xA0 <= second) && (lead == 0xED ==> second <= 0x9F)
    && (lead == 0xF0 ==> 0x90 <= second) && (lead == 0xF4 ==> second <= 0x8F)
  }

  predicate Utf8(s: Bytes) {
    s == [] || (
      var n := Width(s[0]);
      && 0 < n <= |s|
      && (forall i :: 1 <= i < n ==> IsTail(s[i]))
      && (n >= 2 ==> SecondAllowed(s[0], s[1]))
      && Utf8(s[n..]))
  }

  // `str::is_char_boundary`
  predicate IsCharBoundary(s: Bytes, i: nat) {
    i <= |s| && (i == 0 || i == |s| || !IsTail(s[i]))
  }

  // Slicing a `str` panics anywhere else.
  function SliceFrom(s: Bytes, i: nat): Bytes
    requires IsCharBoundary(s, i)
  {
    s[i..]
  }

  // In a `str`, the position after an ASCII byte is a character boundary.
  lemma {:induction false} AsciiEndsACharacter(s: Bytes, i: nat)
    requires Utf8(s) && i < |s| && s[i] <= 0x7F
    ensures IsCharBoundary(s, i + 1) && Utf8(s[i + 1..])
    decreases |s|
  {
    var n := Width(s[0]);
    if i < n {
      assert i == 0 && n == 1;
      if |s| > 1 {
        assert s[1..][0] == s[1];
      }
    } else {
      AsciiEndsACharacter(s[n..], i - n);
      assert s[n..][i - n + 1..] == s[i + 1..];
      assert i + 1 < |s| ==> s[n..][i - n + 1] == s[i + 1];
    }
  }

  // ---- The recogniser ----

  predicate IsDigit(b: Byte) { 0x30 <= b <= 0x39 }

  const DASH: Byte := 0x2D
  const PLUS: Byte := 0x2B
  const COLON: Byte := 0x3A
  const DOT: Byte := 0x2E
  const UPPER_T: Byte := 0x54
  const LOWER_T: Byte := 0x74
  const UPPER_Z: Byte := 0x5A
  const LOWER_Z: Byte := 0x7A

  predicate Digits(s: Bytes) { forall i :: 0 <= i < |s| ==> IsDigit(s[i]) }

  // `YYYY-MM-DDThh:mm:ss`
  predicate DateTimeHead(s: Bytes) {
    && |s| >= 19
    && Digits(s[0..4]) && s[4] == DASH && Digits(s[5..7]) && s[7] == DASH
    && Digits(s[8..10]) && (s[10] == UPPER_T || s[10] == LOWER_T)
    && Digits(s[11..13]) && s[13] == COLON && Digits(s[14..16]) && s[16] == COLON
    && Digits(s[17..19])
  }

  // `offset_is_valid`
  predicate OffsetIsValid(s: Bytes) {
    && |s| == 6 && (s[0] == PLUS || s[0] == DASH)
    && Digits(s[1..3]) && s[3] == COLON && Digits(s[4..6])
  }

  predicate IsOffset(s: Bytes) { s == [UPPER_Z] || s == [LOWER_Z] || OffsetIsValid(s) }

  // `position(|c| !c.is_ascii_digit())`, or the length.
  function FirstNonDigit(s: Bytes): (n: nat)
    ensures n <= |s| && (forall i :: 0 <= i < n ==> IsDigit(s[i])) && (n < |s| ==> !IsDigit(s[n]))
  {
    if s == [] || !IsDigit(s[0]) then 0 else 1 + FirstNonDigit(s[1..])
  }

  lemma {:induction false} AfterDigitsIsABoundary(s: Bytes, n: nat)
    requires Utf8(s) && n <= |s| && forall i :: 0 <= i < n ==> IsDigit(s[i])
    ensures IsCharBoundary(s, n)
  {
    if n > 0 {
      AsciiEndsACharacter(s, n - 1);
    }
  }

  // Every slice is taken at a character boundary, whatever the input: the
  // preconditions of `SliceFrom` hold for every UTF-8 string.
  predicate IsRfc3339(value: Bytes)
    requires Utf8(value)
  {
    && |value| >= 20
    && DateTimeHead(value)
    && (assert IsDigit(value[18]) by { assert value[17..19][1] == value[18]; }
        AsciiEndsACharacter(value, 18);
        var rest := SliceFrom(value, 19);
        var offset :=
          if rest != [] && rest[0] == DOT then
            AsciiEndsACharacter(rest, 0);
            var fraction := SliceFrom(rest, 1);
            AfterDigitsIsABoundary(fraction, FirstNonDigit(fraction));
            SliceFrom(fraction, FirstNonDigit(fraction))
          else rest;
        IsOffset(offset))
  }

  // ---- The language it accepts ----

  // The digit shapes, with a fraction of any length, even empty.
  predicate IsFraction(f: Bytes) { f == [] || (f[0] == DOT && Digits(f[1..])) }

  predicate HasShape(value: Bytes, cut: nat) {
    && 19 <= cut <= |value|
    && DateTimeHead(value)
    && IsFraction(value[19..cut])
    && IsOffset(value[cut..])
  }

  lemma FractionEnds(rest: Bytes, cut: nat)
    requires 0 < cut <= |rest| && IsFraction(rest[..cut]) && IsOffset(rest[cut..])
    ensures rest[0] == DOT && FirstNonDigit(rest[1..]) == cut - 1
  {
    var f := rest[..cut];
    assert forall i :: 0 <= i < cut - 1 ==> rest[1..][i] == f[1..][i];
    assert rest[cut] == rest[cut..][0];
    assert rest[1..][cut - 1] == rest[cut];
  }

  lemma OffsetIsNotAFraction(rest: Bytes)
    requires IsOffset(rest)
    ensures rest != [] && rest[0] != DOT
  {
  }

  // A UTF-8 string is accepted exactly when it has the digit shape, with no
  // check of the calendar.
  lemma AcceptsExactlyTheShape(value: Bytes)
    requires Utf8(value)
    ensures IsRfc3339(value) <==> exists cut :: HasShape(value, cut)
  {
    if IsRfc3339(value) {
      ShapeOfAccepted(value);
    }
    forall cut: nat | HasShape(value, cut) ensures IsRfc3339(value) {
      ShapeIsAccepted(value, cut);
    }
  }

  lemma ShapeOfAccepted(value: Bytes)
    requires Utf8(value) && IsRfc3339(value)
    ensures exists cut :: HasShape(value, cut)
  {
    hide Utf8, DateTimeHead, OffsetIsValid;
    var rest := value[19..];
    if rest != [] && rest[0] == DOT {
      var fraction := rest[1..];
      var n := FirstNonDigit(fraction);
      var cut := 20 + n;
      assert value[19..cut] == [DOT] + fraction[..n];
      assert value[cut..] == fraction[n..];
      assert HasShape(value, cut);
    } else {
      assert value[19..19] == [];
      assert HasShape(value, 19);
    }
  }

  lemma ShapeIsAccepted(value: Bytes, cut: nat)
    requires Utf8(value) && HasShape(value, cut)
    ensures IsRfc3339(value)
  {
    var rest := value[19..];
    assert value[19..cut] == rest[..cut - 19] && value[cut..] == rest[cut - 19..];
    hide Utf8, DateTimeHead;
    OffsetIsNotAFraction(value[cut..]);
    if cut == 19 {
      assert value[cut..] == rest;
    } else {
      FractionEnds(rest, cut - 19);
      assert rest[1..][cut - 20..] == value[cut..];
    }
    hide OffsetIsValid;
  }

  // ---- RFC 3339, section 5.6 ----

  function Digit(b: Byte): int { b as int - 0x30 }

  function Number2(s: Bytes, i: nat): int
    requires i + 2 <= |s|
  {
    10 * Digit(s[i]) + Digit(s[i + 1])
  }

  function Year(s: Bytes): int
    requires |s| >= 4
  {
    100 * Number2(s, 0) + Number2(s, 2)
  }

  predicate IsLeap(year: int) { year % 4 == 0 && (year % 100 != 0 || year % 400 == 0) }

  function DaysIn(year: int, month: int): int {
    if month == 2 then (if IsLeap(year) then 29 else 28)
    else if month == 4 || month == 6 || month == 9 || month == 11 then 30
    else 31
  }

  // The ranges the grammar and section 5.7 put on the fields.
  predicate InRange(value: Bytes)
    requires DateTimeHead(value)
  {
    && 1 <= Number2(value, 5) <= 12
    && 1 <= Number2(value, 8) <= DaysIn(Year(value), Number2(value, 5))
    && Number2(value, 11) <= 23 && Number2(value, 14) <= 59 && Number2(value, 17) <= 60
  }

  // A fraction, where there is one, has at least one digit.
  predicate DateTimeFraction(f: Bytes) { f == [] || (|f| >= 2 && f[0] == DOT && Digits(f[1..])) }

  predicate DateTimeOffset(s: Bytes) {
    IsOffset(s) && (|s| == 6 ==> Number2(s, 1) <= 23 && Number2(s, 4) <= 59)
  }

  predicate IsDateTime(value: Bytes, cut: nat) {
    && 19 <= cut <= |value|
    && DateTimeHead(value) && InRange(value)
    && DateTimeFraction(value[19..cut]) && DateTimeOffset(value[cut..])
  }

  // Every date-time of the standard is accepted.
  lemma AcceptsEveryDateTime(value: Bytes, cut: nat)
    requires Utf8(value) && IsDateTime(value, cut)
    ensures IsRfc3339(value)
  {
    assert HasShape(value, cut);
    ShapeIsAccepted(value, cut);
  }

  // An accepted string is a date-time exactly when its fields are in range and
  // its fraction, if it starts one, is not empty.
  lemma AcceptedIsDateTimeExactly(value: Bytes, cut: nat)
    requires HasShape(value, cut)
    ensures IsDateTime(value, cut) <==> InRange(value) && cut != 20 && DateTimeOffset(value[cut..])
  {
    hide DateTimeHead, InRange, IsOffset;
    assert cut == 20 ==> |value[19..cut]| == 1;
  }

  // `2026-99-01T00:00:00.Z`
  function Month99(): Bytes {
    [0x32, 0x30, 0x32, 0x36, DASH, 0x39, 0x39, DASH, 0x30, 0x31, UPPER_T,
     0x30, 0x30, COLON, 0x30, 0x30, COLON, 0x30, 0x30, DOT, UPPER_Z]
  }

  lemma Month99HasShape()
    ensures HasShape(Month99(), 20) && Number2(Month99(), 5) == 99
    ensures forall i :: 0 <= i < |Month99()| ==> Month99()[i] <= 0x7F
  {
    assert Month99()[19..20] == [DOT] && Month99()[20..] == [UPPER_Z];
    assert DateTimeHead(Month99());
  }

  // Month 99 with an empty fraction is accepted and is no date-time.
  lemma AcceptsMonth99()
    ensures Utf8(Month99()) && IsRfc3339(Month99()) && forall cut :: !IsDateTime(Month99(), cut)
  {
    Month99HasShape();
    hide Month99, DateTimeHead;
    AsciiIsUtf8(Month99());
    ShapeIsAccepted(Month99(), 20);
  }

  lemma {:induction false} AsciiIsUtf8(s: Bytes)
    requires forall i :: 0 <= i < |s| ==> s[i] <= 0x7F
    ensures Utf8(s)
  {
    if s != [] {
      AsciiIsUtf8(s[1..]);
    }
  }
}
