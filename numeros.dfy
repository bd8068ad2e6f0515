/** The two pieces of .NET integer text handling the front end relies on:
    formatting an `int` in an interpolated string, and `int.TryParse`. */
module Numeros {
  import opened Wrappers

  const Int32Min: int := -0x8000_0000
  const Int32Max: int := 0x7FFF_FFFF

  /** ASCII decimal digit (the model of `char.IsDigit`). */
  predicate IsDigit(c: char) {
    '0' <= c <= '9'
  }

  predicate AllDigits(s: string) {
    forall i :: 0 <= i < |s| ==> IsDigit(s[i])
  }

  function DigitChar(d: nat): (c: char)
    requires d < 10
    ensures IsDigit(c)
  {
    (48 + d) as char
  }

  function DigitValue(c: char): (d: nat)
    requires IsDigit(c)
    ensures d < 10 && DigitChar(d) == c
  {
    c as int - 48
  }

  /** Decimal digits of `n`, most significant first. */
  function NatToString(n: nat): (r: string)
    ensures |r| > 0 && AllDigits(r)
    ensures |r| > 1 ==> r[0] != '0'
  {
    if n < 10 then [DigitChar(n)] else NatToString(n / 10) + [DigitChar(n % 10)]
  }

  /** An `int` as an interpolated string prints it (invariant culture: a leading '-'). */
  function IntToString(n: int): (r: string)
    ensures |r| > 0
    ensures (r[0] == '-') <==> n < 0
    ensures forall k :: 0 <= k < |r| ==> IsDigit(r[k]) || r[k] == '-'
  {
    if n < 0 then "-" + NatToString(-n) else NatToString(n)
  }

  /** The number a non-empty run of digits denotes (leading zeros allowed). */
  function DigitsValue(s: string): nat
    requires AllDigits(s)
  {
    if s == [] then 0 else DigitsValue(s[..|s| - 1]) * 10 + DigitValue(s[|s| - 1])
  }

  /** The white space `int.TryParse` skips around a number: U+0009 to U+000D and the space. */
  predicate IsParseWhite(c: char) {
    c == ' ' || '\t' <= c <= '\r'
  }

  predicate AllParseWhite(s: string) {
    forall i :: 0 <= i < |s| ==> IsParseWhite(s[i])
  }

  /** `s` without its leading white space. */
  function TrimStart(s: string): string {
    if |s| > 0 && IsParseWhite(s[0]) then TrimStart(s[1..]) else s
  }

  /** `s` without its trailing white space. */
  function TrimEnd(s: string): string {
    if |s| > 0 && IsParseWhite(s[|s| - 1]) then TrimEnd(s[..|s| - 1]) else s
  }

  function Trim(s: string): string {
    TrimEnd(TrimStart(s))
  }

  /** `TrimStart` leaves a suffix of `s` after only white space, starting with a non-white character. */
  lemma {:induction false} TrimStartBounds(s: string) returns (i: nat)
    ensures i <= |s| && TrimStart(s) == s[i..] && AllParseWhite(s[..i])
    ensures i == |s| || !IsParseWhite(s[i])
  {
    if |s| > 0 && IsParseWhite(s[0]) {
      var k := TrimStartBounds(s[1..]);
      i := k + 1;
      assert s[1..][k..] == s[i..];
      assert s[..i] == [s[0]] + s[1..][..k];
    } else {
      i := 0;
    }
  }

  /** `TrimEnd` leaves a prefix of `s` before only white space, ending with a non-white character. */
  lemma {:induction false} TrimEndBounds(s: string) returns (j: nat)
    ensures j <= |s| && TrimEnd(s) == s[..j] && AllParseWhite(s[j..])
    ensures j == 0 || !IsParseWhite(s[j - 1])
  {
    if |s| > 0 && IsParseWhite(s[|s| - 1]) {
      j := TrimEndBounds(s[..|s| - 1]);
      assert s[..|s| - 1][..j] == s[..j];
      assert s[j..] == s[..|s| - 1][j..] + [s[|s| - 1]];
    } else {
      j := |s|;
    }
  }

  /** `Trim` cuts off exactly the white space at both ends: `s` is white, then the result,
      then white, and the result neither starts nor ends with white space. */
  lemma TrimBounds(s: string) returns (i: nat, j: nat)
    ensures i <= j <= |s| && Trim(s) == s[i..j]
    ensures AllParseWhite(s[..i]) && AllParseWhite(s[j..])
    ensures i == j || (!IsParseWhite(s[i]) && !IsParseWhite(s[j - 1]))
  {
    i := TrimStartBounds(s);
    var k := TrimEndBounds(s[i..]);
    j := i + k;
    assert s[i..][..k] == s[i..j];
    assert s[i..][k..] == s[j..];
  }

  /** Leading white space followed by a non-white character is exactly what `TrimStart` removes. */
  lemma {:induction false} TrimStartOfSplit(p: string, t: string)
    requires AllParseWhite(p)
    requires |t| == 0 || !IsParseWhite(t[0])
    ensures TrimStart(p + t) == t
  {
    if p == [] {
      assert p + t == t;
    } else {
      assert (p + t)[0] == p[0];
      assert (p + t)[1..] == p[1..] + t;
      TrimStartOfSplit(p[1..], t);
    }
  }

  /** A non-white character followed by trailing white space: `TrimEnd` removes exactly that. */
  lemma {:induction false} TrimEndOfSplit(t: string, q: string)
    requires AllParseWhite(q)
    requires |t| == 0 || !IsParseWhite(t[|t| - 1])
    ensures TrimEnd(t + q) == t
  {
    if q == [] {
      assert t + q == t;
    } else {
      assert (t + q)[|t + q| - 1] == q[|q| - 1];
      assert (t + q)[..|t + q| - 1] == t + q[..|q| - 1];
      TrimEndOfSplit(t, q[..|q| - 1]);
    }
  }

  /** The trimmed text is determined by any split of `s` into white, a core that neither starts
      nor ends with white space, and white. */
  lemma TrimOfSplit(p: string, m: string, q: string)
    requires AllParseWhite(p) && AllParseWhite(q)
    requires |m| == 0 || (!IsParseWhite(m[0]) && !IsParseWhite(m[|m| - 1]))
    ensures Trim(p + m + q) == m
  {
    if m == [] {
      assert p + m + q == p + q;
      assert AllParseWhite(p + q);
      TrimStartOfSplit(p + q, []);
      assert p + q + [] == p + q;
    } else {
      assert p + m + q == p + (m + q);
      TrimStartOfSplit(p, m + q);
      TrimEndOfSplit(m, q);
    }
  }

  /** Text with no white space at either end is its own trimmed form. */
  lemma TrimOfCore(s: string)
    requires |s| == 0 || (!IsParseWhite(s[0]) && !IsParseWhite(s[|s| - 1]))
    ensures Trim(s) == s
  {
    TrimOfSplit([], s, []);
    assert [] + s + [] == s;
  }

  /** An optional sign and one or more digits whose value fits in 32 bits. */
  function ParseSignedDigits(s: string): (r: Option<int>)
    ensures r.Some? ==> Int32Min <= r.value <= Int32Max
    ensures r.Some? ==> |s| > 0 && (IsDigit(s[0]) || s[0] == '-' || s[0] == '+')
    ensures r.Some? ==> IsDigit(s[|s| - 1])
    ensures r.Some? ==> var d := if s[0] == '-' || s[0] == '+' then s[1..] else s;
      |d| > 0 && AllDigits(d) && r.value == (if s[0] == '-' then -(DigitsValue(d) as int) else DigitsValue(d))
  {
    var signed := |s| > 0 && (s[0] == '-' || s[0] == '+');
    var digits := if signed then s[1..] else s;
    if |digits| == 0 || !AllDigits(digits) then None
    else
      var v: int := if |s| > 0 && s[0] == '-' then -(DigitsValue(digits) as int) else DigitsValue(digits);
      if Int32Min <= v <= Int32Max then Some(v) else None
  }

  /** An optional sign and digits between white space at both ends. */
  function ParseRecortado(s: string): (r: Option<int>)
    ensures r.Some? ==> Int32Min <= r.value <= Int32Max
    ensures r.Some? ==> var t := Trim(s);
      |t| > 0 && (IsDigit(t[0]) || t[0] == '-' || t[0] == '+') && IsDigit(t[|t| - 1])
  {
    ParseSignedDigits(Trim(s))
  }

  predicate AllNul(s: string) {
    forall i :: 0 <= i < |s| ==> s[i] == '\0'
  }

  /** `s` without the NUL characters at its end. */
  function TrimEndNul(s: string): string {
    if |s| > 0 && s[|s| - 1] == '\0' then TrimEndNul(s[..|s| - 1]) else s
  }

  /** NULs appended to a text are removed together with the NULs the text itself ends with. */
  lemma {:induction false} TrimEndNulOfSplit(t: string, z: string)
    requires AllNul(z)
    ensures TrimEndNul(t + z) == TrimEndNul(t)
  {
    if z == [] {
      assert t + z == t;
    } else {
      assert (t + z)[|t + z| - 1] == z[|z| - 1];
      assert (t + z)[..|t + z| - 1] == t + z[..|z| - 1];
      TrimEndNulOfSplit(t, z[..|z| - 1]);
    }
  }

  /** `int.TryParse` with its default number style: white space, an optional sign, one or more
      digits whose value fits in 32 bits, white space, and then any number of NUL characters. */
  function TryParseInt32(s: string): (r: Option<int>)
    ensures r.Some? ==> Int32Min <= r.value <= Int32Max
    ensures r.Some? ==> var t := Trim(TrimEndNul(s));
      |t| > 0 && (IsDigit(t[0]) || t[0] == '-' || t[0] == '+') && IsDigit(t[|t| - 1])
  {
    ParseRecortado(TrimEndNul(s))
  }

  /** Text that does not end in NUL is read as white space, sign, digits and white space. */
  lemma TryParseSinNulFinal(s: string)
    requires |s| == 0 || s[|s| - 1] != '\0'
    ensures TryParseInt32(s) == ParseRecortado(s)
  {
  }

  /** NUL characters at the end do not change what `int.TryParse` reads. */
  lemma ParseIgnoresTrailingNul(s: string, z: string)
    requires AllNul(z)
    ensures TryParseInt32(s + z) == TryParseInt32(s)
  {
    TrimEndNulOfSplit(s, z);
  }

  /** White space around the text does not change what is read between it. */
  lemma ParseIgnoresWhite(p: string, s: string, q: string)
    requires AllParseWhite(p) && AllParseWhite(q)
    ensures ParseRecortado(p + s + q) == ParseRecortado(s)
  {
    var i, j := TrimBounds(s);
    assert s == s[..i] + s[i..j] + s[j..];
    assert p + s + q == (p + s[..i]) + s[i..j] + (s[j..] + q);
    TrimOfSplit(p + s[..i], s[i..j], s[j..] + q);
  }

  /** Reading back the digits that `NatToString` writes gives the number again. */
  lemma {:induction false} DigitsValueOfNatToString(n: nat)
    ensures DigitsValue(NatToString(n)) == n
  {
    if n >= 10 {
      var s := NatToString(n);
      assert s[..|s| - 1] == NatToString(n / 10);
      DigitsValueOfNatToString(n / 10);
    }
  }

  /** Distinct integers print differently. */
  lemma IntToStringInjective(a: int, b: int)
    requires IntToString(a) == IntToString(b)
    ensures a == b
  {
    var s := IntToString(a);
    if a < 0 {
      assert s[1..] == NatToString(-a) == NatToString(-b);
      DigitsValueOfNatToString(-a);
      DigitsValueOfNatToString(-b);
    } else {
      DigitsValueOfNatToString(a);
      DigitsValueOfNatToString(b);
    }
  }

  /** Round trip: `int.TryParse` accepts what an `int` prints as, and returns that int. */
  lemma ParseOfFormat(n: int)
    requires Int32Min <= n <= Int32Max
    ensures TryParseInt32(IntToString(n)) == Some(n)
  {
    var s := IntToString(n);
    TrimOfCore(s);
    TryParseSinNulFinal(s);
    assert TryParseInt32(s) == ParseSignedDigits(s);
    if n < 0 {
      assert s[1..] == NatToString(-n);
      DigitsValueOfNatToString(-n);
    } else {
      DigitsValueOfNatToString(n);
    }
  }

  /** An unsigned run of digits parses exactly when its value is at most `Int32Max`. */
  lemma ParseOfDigits(s: string)
    requires |s| > 0 && AllDigits(s)
    ensures TryParseInt32(s) == if DigitsValue(s) <= Int32Max then Some(DigitsValue(s)) else None
  {
    TrimOfCore(s);
    TryParseSinNulFinal(s);
    assert TryParseInt32(s) == ParseSignedDigits(s);
    assert IsDigit(s[0]);
  }
}
