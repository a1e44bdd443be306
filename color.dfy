/** The badge colour validator of lib/color.go. */
module Color {

  /** An upper-case hexadecimal digit: 0-9 or A-F. */
  predicate IsHexDigit(c: char)
  {
    ('0' <= c <= '9') || ('A' <= c <= 'F')
  }

  /** The number of bytes of the UTF-8 encoding of a character. */
  function Utf8Width(c: char): nat
  {
    if c as int < 0x80 then 1 else if c as int < 0x800 then 2 else if c as int < 0x10000 then 3 else 4
  }

  /** Go's len(s): the byte length of the UTF-8 encoding. */
  function Utf8Len(s: string): (n: nat)
    ensures n >= |s|
    decreases |s|
  {
    if |s| == 0 then 0 else Utf8Width(s[0]) + Utf8Len(s[1..])
  }

  lemma {:induction false} Utf8LenOfHex(s: string)
    requires forall i :: 0 <= i < |s| ==> IsHexDigit(s[i])
    ensures Utf8Len(s) == |s|
    decreases |s|
  {
    if |s| > 0 {
      assert forall i :: 0 <= i < |s| - 1 ==> s[1..][i] == s[i + 1];
      Utf8LenOfHex(s[1..]);
    }
  }

  /**
    IsValidColor: the byte length must be 3 or 6 and every character (rune) an
    upper-case hex digit. Since hex digits are one byte each, this is the same as
    asking for 3 or 6 characters: a non-ASCII character is never accepted.
  */
  predicate IsValidColor(value: string)
    ensures IsValidColor(value) <==>
      (|value| == 3 || |value| == 6) && forall i :: 0 <= i < |value| ==> IsHexDigit(value[i])
  {
    var allHex := forall i :: 0 <= i < |value| ==> IsHexDigit(value[i]);
    assert allHex ==> Utf8Len(value) == |value| by {
      if allHex { Utf8LenOfHex(value); }
    }
    if Utf8Len(value) != 3 && Utf8Len(value) != 6 then false
    else allHex
  }

  /** Lower-case hex digits and a leading '#' are rejected. */
  lemma RejectsLowerCaseAndHash(value: string, i: nat)
    requires i < |value| && (value[i] == '#' || 'a' <= value[i] <= 'f')
    ensures !IsValidColor(value)
  {
    assert !IsHexDigit(value[i]);
  }
}
