/**
  String helpers with the semantics of the Go standard library functions the
  report builder uses: strings.Split (single-character separator), strings.Join,
  strings.Repeat, strings.EqualFold (ASCII folding), the `<` ordering of Go
  strings and the decimal rendering of `%d`.
*/
module Strings {

  /** strings.Split(s, string(sep)): always at least one piece, no piece holds `sep`. */
  function Split(s: string, sep: char): (r: seq<string>)
    ensures |r| >= 1
    ensures forall i :: 0 <= i < |r| ==> sep !in r[i]
    decreases |s|
  {
    if |s| == 0 then [""]
    else if s[0] == sep then [""] + Split(s[1..], sep)
    else
      var rest := Split(s[1..], sep);
      [[s[0]] + rest[0]] + rest[1..]
  }

  /** strings.Join(parts, sep). */
  function Join(parts: seq<string>, sep: string): string
    decreases |parts|
  {
    if |parts| == 0 then ""
    else if |parts| == 1 then parts[0]
    else parts[0] + sep + Join(parts[1..], sep)
  }

  /** strings.Repeat(s, n). */
  function Repeat(s: string, n: nat): (r: string)
    ensures |r| == n * |s|
  {
    if n == 0 then "" else s + Repeat(s, n - 1)
  }

  /** Number of occurrences of `c` in `s`. */
  function Count(s: string, c: char): nat
    decreases |s|
  {
    if |s| == 0 then 0 else (if s[0] == c then 1 else 0) + Count(s[1..], c)
  }

  lemma {:induction false} CountAppend(a: string, b: string, c: char)
    ensures Count(a + b, c) == Count(a, c) + Count(b, c)
    decreases |a|
  {
    if |a| == 0 {
      assert a + b == b;
    } else {
      assert (a + b)[1..] == a[1..] + b;
      CountAppend(a[1..], b, c);
    }
  }

  /** The number of pieces strings.Split returns is one more than the separators in `s`. */
  lemma {:induction false} SplitLength(s: string, sep: char)
    ensures |Split(s, sep)| == Count(s, sep) + 1
    decreases |s|
  {
    if |s| > 0 {
      SplitLength(s[1..], sep);
    }
  }

  lemma {:induction false} SplitNoSep(p: string, sep: char)
    requires sep !in p
    ensures Split(p, sep) == [p]
    decreases |p|
  {
    if |p| > 0 {
      assert sep !in p[1..] by {
        forall k | 0 <= k < |p| - 1 ensures p[1..][k] != sep { assert p[1..][k] == p[k + 1]; }
      }
      SplitNoSep(p[1..], sep);
      assert [p[0]] + p[1..] == p;
    }
  }

  /** A piece without the separator followed by the separator splits off as one piece. */
  lemma {:induction false} SplitAfterPiece(p: string, sep: char, t: string)
    requires sep !in p
    ensures Split(p + [sep] + t, sep) == [p] + Split(t, sep)
    decreases |p|
  {
    var s := p + [sep] + t;
    if |p| == 0 {
      assert s == [sep] + t;
      assert s[1..] == t;
    } else {
      assert s[0] == p[0];
      assert s[1..] == p[1..] + [sep] + t;
      assert sep !in p[1..] by {
        forall k | 0 <= k < |p| - 1 ensures p[1..][k] != sep { assert p[1..][k] == p[k + 1]; }
      }
      SplitAfterPiece(p[1..], sep, t);
      assert [p[0]] + p[1..] == p;
    }
  }

  /** Splitting a join on a separator that no part contains gives back the parts. */
  lemma {:induction false} SplitJoin(parts: seq<string>, sep: char)
    requires |parts| >= 1
    requires forall i :: 0 <= i < |parts| ==> sep !in parts[i]
    ensures Split(Join(parts, [sep]), sep) == parts
    decreases |parts|
  {
    if |parts| == 1 {
      SplitNoSep(parts[0], sep);
    } else {
      SplitJoin(parts[1..], sep);
      SplitAfterPiece(parts[0], sep, Join(parts[1..], [sep]));
      assert [parts[0]] + parts[1..] == parts;
    }
  }

  /** Joining the pieces of a split with the same separator gives back the string. */
  lemma {:induction false} JoinSplit(s: string, sep: char)
    ensures Join(Split(s, sep), [sep]) == s
    decreases |s|
  {
    if |s| > 0 {
      var rest := Split(s[1..], sep);
      JoinSplit(s[1..], sep);
      if s[0] == sep {
        assert Split(s, sep) == [""] + rest;
        assert ([""] + rest)[1..] == rest;
        assert s == [sep] + s[1..];
      } else {
        var r := [[s[0]] + rest[0]] + rest[1..];
        assert Split(s, sep) == r;
        if |rest| == 1 {
          assert s == [s[0]] + s[1..];
        } else {
          assert r[1..] == rest[1..];
          assert s == [s[0]] + s[1..];
        }
      }
    }
  }

  /** Join(parts + [last]) puts one separator before the new last part. */
  lemma {:induction false} JoinSnoc(parts: seq<string>, last: string, sep: string)
    requires |parts| >= 1
    ensures Join(parts + [last], sep) == Join(parts, sep) + sep + last
    decreases |parts|
  {
    if |parts| > 1 {
      assert (parts + [last])[1..] == parts[1..] + [last];
      JoinSnoc(parts[1..], last, sep);
    }
  }

  /** Repeat(s, n) can also be peeled from the end. */
  lemma {:induction false} RepeatSnoc(s: string, n: nat)
    requires n >= 1
    ensures Repeat(s, n) == Repeat(s, n - 1) + s
    decreases n
  {
    if n > 1 {
      RepeatSnoc(s, n - 1);
    }
  }

  /** The ASCII lower-case of a character; other characters are left alone. */
  function FoldChar(c: char): char
  {
    if 'A' <= c <= 'Z' then (c as int + 32) as char else c
  }

  /** strings.EqualFold, restricted to ASCII letters. */
  predicate EqualFold(a: string, b: string)
  {
    |a| == |b| && forall i :: 0 <= i < |a| ==> FoldChar(a[i]) == FoldChar(b[i])
  }

  /** Go's `<` on strings: lexicographic by byte, which agrees with code-point order. */
  predicate Less(a: string, b: string)
    decreases |a|
  {
    if |a| == 0 then |b| > 0
    else if |b| == 0 then false
    else if a[0] != b[0] then a[0] < b[0]
    else Less(a[1..], b[1..])
  }

  lemma {:induction false} LessIrreflexive(a: string)
    ensures !Less(a, a)
    decreases |a|
  {
    if |a| > 0 { LessIrreflexive(a[1..]); }
  }

  lemma {:induction false} LessTransitive(a: string, b: string, c: string)
    requires Less(a, b) && Less(b, c)
    ensures Less(a, c)
    decreases |a|
  {
    if |a| > 0 && |b| > 0 && |c| > 0 && a[0] == b[0] && b[0] == c[0] {
      LessTransitive(a[1..], b[1..], c[1..]);
    }
  }

  lemma {:induction false} LessTotal(a: string, b: string)
    requires a != b
    ensures Less(a, b) || Less(b, a)
    decreases |a|
  {
    if |a| > 0 && |b| > 0 && a[0] == b[0] {
      assert a == [a[0]] + a[1..] && b == [b[0]] + b[1..];
      LessTotal(a[1..], b[1..]);
    }
  }

  function DigitChar(d: nat): char
    requires d < 10
  {
    "0123456789"[d]
  }

  function DigitValue(c: char): nat
  {
    if '0' <= c <= '9' then c as int - '0' as int else 0
  }

  /** Decimal digits with no leading zero: "0" itself, or digits starting with 1-9. */
  predicate NatDigits(s: string)
  {
    |s| >= 1 && (forall i :: 0 <= i < |s| ==> '0' <= s[i] <= '9') && (|s| > 1 ==> s[0] != '0')
  }

  /** A `%d` rendering: canonical digits, or a minus sign and canonical digits of a positive number. */
  predicate IntDigits(s: string)
  {
    NatDigits(s) || (|s| >= 2 && s[0] == '-' && NatDigits(s[1..]) && s[1] != '0')
  }

  /** Decimal digits of a natural number, most significant first, no leading zero. */
  function NatToDecimal(n: nat): (r: string)
    ensures NatDigits(r)
    ensures r[0] == '0' <==> n == 0
    decreases n
  {
    if n < 10 then [DigitChar(n)] else NatToDecimal(n / 10) + [DigitChar(n % 10)]
  }

  /** fmt's `%d` rendering of an int. */
  function IntToDecimal(i: int): (r: string)
    ensures IntDigits(r)
  {
    if i < 0 then
      var d := NatToDecimal(-i);
      assert ("-" + d)[1..] == d;
      "-" + d
    else NatToDecimal(i)
  }

  function ParseNat(s: string): nat
    decreases |s|
  {
    if |s| == 0 then 0 else ParseNat(s[..|s| - 1]) * 10 + DigitValue(s[|s| - 1])
  }

  /** Reads back a `%d` rendering: an optional minus sign and decimal digits. */
  function ParseInt(s: string): int
  {
    if |s| > 0 && s[0] == '-' then -(ParseNat(s[1..]) as int) else ParseNat(s)
  }

  lemma DigitRoundTrip(d: nat)
    requires d < 10
    ensures DigitValue(DigitChar(d)) == d
  {
    assert "0123456789"[d] as int == '0' as int + d;
  }

  lemma {:induction false} NatDecimalRoundTrip(n: nat)
    ensures ParseNat(NatToDecimal(n)) == n
    decreases n
  {
    if n < 10 {
      DigitRoundTrip(n);
      assert [DigitChar(n)][..0] == "";
    } else {
      var q, d := n / 10, n % 10;
      NatDecimalRoundTrip(q);
      DigitRoundTrip(d);
      var s := NatToDecimal(n);
      assert s == NatToDecimal(q) + [DigitChar(d)];
      assert s[..|s| - 1] == NatToDecimal(q);
      assert s[|s| - 1] == DigitChar(d);
      assert ParseNat(s) == q * 10 + d;
    }
  }

  /** `%d` is read back exactly by ParseInt. */
  lemma IntDecimalRoundTrip(i: int)
    ensures ParseInt(IntToDecimal(i)) == i
  {
    if i < 0 {
      var s := "-" + NatToDecimal(-i);
      assert IntToDecimal(i) == s;
      NegDecimalRoundTrip(-i);
      assert ParseInt(s) == i;
    } else {
      var s := NatToDecimal(i);
      assert IntToDecimal(i) == s;
      NatDecimalRoundTrip(i);
      assert s[0] != '-';
      assert ParseInt(s) == ParseNat(s);
    }
  }

  lemma NegDecimalRoundTrip(n: nat)
    ensures ParseInt("-" + NatToDecimal(n)) == -(n as int)
  {
    var s := "-" + NatToDecimal(n);
    assert s[1..] == NatToDecimal(n);
    NatDecimalRoundTrip(n);
  }
}
