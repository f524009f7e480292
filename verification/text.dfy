/** The few string operations of Python's `str` and `int` that the model
    needs: `strip()`, `split(sep)`, and decimal conversion as done by `int()`
    and `str()` on non-negative and signed integers. */
module Text {
  import opened Wrappers

  /** The characters Python's `str.strip()` removes from a byte string. */
  predicate IsSpace(c: char) {
    c == ' ' || c == '\t' || c == '\n' || c == '\r' || c == '\U{0B}' || c == '\U{0C}'
  }

  function TrimLeft(s: string): (r: string)
    ensures |r| <= |s|
    ensures |r| > 0 ==> !IsSpace(r[0])
    ensures (|s| == 0 || !IsSpace(s[0])) ==> r == s
  {
    if |s| > 0 && IsSpace(s[0]) then TrimLeft(s[1..]) else s
  }

  function TrimRight(s: string): (r: string)
    ensures |r| <= |s|
    ensures |r| > 0 ==> !IsSpace(r[|r| - 1])
    ensures (|s| == 0 || !IsSpace(s[|s| - 1])) ==> r == s
  {
    if |s| > 0 && IsSpace(s[|s| - 1]) then TrimRight(s[..|s| - 1]) else s
  }

  /** Trimming on the right keeps a prefix. */
  lemma {:induction false} TrimRightPrefix(s: string)
    ensures TrimRight(s) == s[..|TrimRight(s)|]
  {
    if |s| > 0 && IsSpace(s[|s| - 1]) {
      TrimRightPrefix(s[..|s| - 1]);
    }
  }

  /** `s.strip()`: `s` without its leading and trailing white space. */
  function Strip(s: string): (r: string)
    ensures |r| > 0 ==> !IsSpace(r[0]) && !IsSpace(r[|r| - 1])
  {
    var t := TrimLeft(s);
    TrimRightPrefix(t);
    TrimRight(t)
  }

  lemma StripNoSpace(s: string)
    requires forall i :: 0 <= i < |s| ==> !IsSpace(s[i])
    ensures Strip(s) == s
  {
  }

  /** `s.split(sep)`: the pieces of `s` between occurrences of `sep`; there is
      always one piece more than there are separators. */
  function Split(s: string, sep: char): (parts: seq<string>)
    ensures |parts| >= 1
  {
    if |s| == 0 then [""]
    else
      var rest := Split(s[1..], sep);
      if s[0] == sep then [""] + rest else [[s[0]] + rest[0]] + rest[1..]
  }

  lemma {:induction false} SplitNoSep(s: string, sep: char)
    requires sep !in s
    ensures Split(s, sep) == [s]
  {
    if |s| > 0 {
      SplitNoSep(s[1..], sep);
      assert [s[0]] + s[1..] == s;
    }
  }

  lemma {:induction false} SplitAtFirst(x: string, sep: char, y: string)
    requires sep !in x
    ensures Split(x + [sep] + y, sep) == [x] + Split(y, sep)
  {
    if |x| == 0 {
      assert x + [sep] + y == [sep] + y;
      assert ([sep] + y)[1..] == y;
    } else {
      var s := x + [sep] + y;
      assert s[1..] == x[1..] + [sep] + y;
      SplitAtFirst(x[1..], sep, y);
      assert [x[0]] + x[1..] == x;
    }
  }

  predicate IsDigit(c: char) { '0' <= c <= '9' }

  predicate AllDigits(s: string) { forall i :: 0 <= i < |s| ==> IsDigit(s[i]) }

  function DigitChar(d: nat): (c: char)
    requires d < 10
    ensures IsDigit(c)
  {
    ['0', '1', '2', '3', '4', '5', '6', '7', '8', '9'][d]
  }

  function DigitOf(c: char): (d: nat)
    requires IsDigit(c)
    ensures d < 10 && DigitChar(d) == c
  {
    (c as int - '0' as int)
  }

  /** The value of a string of decimal digits (leading zeros allowed). */
  function DigitsValue(s: string): nat
    requires AllDigits(s)
  {
    if |s| == 0 then 0 else DigitsValue(s[..|s| - 1]) * 10 + DigitOf(s[|s| - 1])
  }

  /** `str(n)` for a non-negative integer: the shortest decimal spelling. */
  function NatToString(n: nat): (s: string)
    ensures |s| >= 1 && AllDigits(s)
  {
    if n < 10 then [DigitChar(n)] else NatToString(n / 10) + [DigitChar(n % 10)]
  }

  /** A digit string in the form `str` produces: no leading zero unless it is "0". */
  predicate Canonical(s: string) {
    |s| >= 1 && AllDigits(s) && (|s| > 1 ==> s[0] != '0')
  }

  lemma {:induction false} NatToStringRoundTrip(n: nat)
    ensures Canonical(NatToString(n))
    ensures DigitsValue(NatToString(n)) == n
    ensures |NatToString(n)| == 1 <==> n < 10
  {
    var s := NatToString(n);
    if n >= 10 {
      NatToStringRoundTrip(n / 10);
      var p := NatToString(n / 10);
      assert s[..|s| - 1] == p;
      assert s[0] == p[0];
    }
  }

  lemma {:induction false} CanonicalRoundTrip(s: string)
    requires Canonical(s)
    ensures NatToString(DigitsValue(s)) == s
    ensures |s| > 1 ==> DigitsValue(s) >= 10
  {
    var n := DigitsValue(s);
    if |s| == 1 {
      assert s[..0] == [];
      assert DigitsValue(s[..0]) == 0;
      assert n == DigitsValue(s[..0]) * 10 + DigitOf(s[0]);
    } else {
      var p := s[..|s| - 1];
      assert p[0] == s[0];
      if |p| > 1 {
        CanonicalRoundTrip(p);
      } else {
        assert p[..0] == [];
        assert DigitsValue(p) == DigitOf(p[0]) && p[0] != '0';
      }
      assert DigitsValue(p) >= 1;
      assert n / 10 == DigitsValue(p) && n % 10 == DigitOf(s[|s| - 1]);
      assert p + [s[|s| - 1]] == s;
    }
  }

  /** A number below 1000 has at most three digits. */
  lemma NatToStringShort(n: nat)
    requires n < 1000
    ensures |NatToString(n)| <= 3
  {
    if n >= 10 {
      assert |NatToString(n / 10)| <= 2 by {
        if n / 10 >= 10 { assert |NatToString(n / 100)| == 1; }
      }
    }
  }

  /** The value of a non-empty run of decimal digits, if `d` is one. */
  function UnsignedValue(d: string): (r: Option<nat>)
    ensures r.Some? <==> |d| >= 1 && AllDigits(d)
  {
    if |d| >= 1 && AllDigits(d) then Some(DigitsValue(d)) else None
  }

  /** `int(s)` on a string that has already been stripped: an optional sign
      followed by at least one decimal digit; anything else raises ValueError. */
  function ParseInt(s: string): (r: Option<int>)
    ensures r.Some? ==> |s| >= 1
  {
    if |s| >= 1 && (s[0] == '+' || s[0] == '-') then
      match UnsignedValue(s[1..])
      case Some(v) => Some(if s[0] == '-' then 0 - v else v)
      case None => None
    else
      match UnsignedValue(s)
      case Some(v) => Some(v)
      case None => None
  }

  /** `str(i)` for any integer. */
  function IntToString(i: int): (s: string)
    ensures |s| >= 1
  {
    if i < 0 then "-" + NatToString(-i) else NatToString(i)
  }

  lemma ParseUnsigned(d: string, v: nat)
    requires UnsignedValue(d) == Some(v)
    ensures ParseInt(d) == Some(v)
  {
    assert IsDigit(d[0]);
  }

  lemma ParseNegative(d: string, v: nat)
    requires UnsignedValue(d) == Some(v)
    ensures ParseInt("-" + d) == Some(0 - v)
  {
    var s := "-" + d;
    assert s[1..] == d;
  }

  /** Only a sign and digits make up the text of an integer. */
  lemma IntToStringChars(i: int)
    ensures forall k :: 0 <= k < |IntToString(i)| ==> !IsSpace(IntToString(i)[k]) && IntToString(i)[k] != ':'
  {
    var n: nat := if i < 0 then -i else i;
    var d := NatToString(n);
    var s := IntToString(i);
    forall k | 0 <= k < |s| ensures !IsSpace(s[k]) && s[k] != ':' {
      if i >= 0 {
        assert IsDigit(d[k]);
      } else if k > 0 {
        assert s[k] == d[k - 1];
        assert IsDigit(d[k - 1]);
      }
    }
  }

  lemma IntToStringRoundTrip(i: int)
    ensures ParseInt(IntToString(i)) == Some(i)
    ensures forall k :: 0 <= k < |IntToString(i)| ==> !IsSpace(IntToString(i)[k]) && IntToString(i)[k] != ':'
  {
    var n: nat := if i < 0 then -i else i;
    NatToStringRoundTrip(n);
    assert UnsignedValue(NatToString(n)) == Some(n);
    if i < 0 {
      ParseNegative(NatToString(n), n);
    } else {
      ParseUnsigned(NatToString(n), n);
    }
    IntToStringChars(i);
  }
}
