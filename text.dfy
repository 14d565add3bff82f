/** The string operations the parser relies on: `str.split`, `"|".join`,
    `str.replace(c, "")`, and the numeric conversions `int(...)` and
    `float(...)` (the latter read into minor units, hundredths). The
    formatting functions are their inverses on the values they produce. */
module Text {
  import opened Wrappers
  import opened Seqs

  /** Number of occurrences of `c` in `s`. */
  function CountChar(s: string, c: char): nat
  {
    if s == [] then 0 else (if s[0] == c then 1 else 0) + CountChar(s[1..], c)
  }

  /** `s.split(sep)`: the pieces between separators, empty pieces included. */
  function Split(s: string, sep: char): (parts: seq<string>)
    ensures |parts| == CountChar(s, sep) + 1
    ensures forall i :: 0 <= i < |parts| ==> sep !in parts[i]
  {
    if s == [] then [""]
    else
      var rest := Split(s[1..], sep);
      if s[0] == sep then [""] + rest
      else [[s[0]] + rest[0]] + rest[1..]
  }

  /** `sep.join(parts)`. */
  function Join(parts: seq<string>, sep: char): string
  {
    if parts == [] then ""
    else if |parts| == 1 then parts[0]
    else parts[0] + [sep] + Join(parts[1..], sep)
  }

  /** Joining the pieces of a split gives back the line. */
  lemma {:induction false} JoinSplit(s: string, sep: char)
    ensures Join(Split(s, sep), sep) == s
  {
    if s != [] {
      JoinSplit(s[1..], sep);
      var rest := Split(s[1..], sep);
      if s[0] != sep {
        var parts := Split(s, sep);
        assert parts[1..] == rest[1..];
        assert s == [s[0]] + s[1..];
      }
    }
  }

  lemma {:induction false} SplitNoSeparator(w: string, sep: char)
    requires sep !in w
    ensures Split(w, sep) == [w]
  {
    if w != [] {
      SplitNoSeparator(w[1..], sep);
      assert w == [w[0]] + w[1..];
    }
  }

  lemma {:induction false} SplitFirstPiece(w: string, sep: char, rest: string)
    requires sep !in w
    ensures Split(w + [sep] + rest, sep) == [w] + Split(rest, sep)
  {
    var s := w + [sep] + rest;
    if w == [] {
      assert s[1..] == rest;
    } else {
      assert s[1..] == w[1..] + [sep] + rest;
      SplitFirstPiece(w[1..], sep, rest);
      assert w == [w[0]] + w[1..];
    }
  }

  /** Splitting a join of separator-free pieces gives back the pieces. */
  lemma {:induction false} SplitJoin(parts: seq<string>, sep: char)
    requires |parts| >= 1
    requires forall i :: 0 <= i < |parts| ==> sep !in parts[i]
    ensures Split(Join(parts, sep), sep) == parts
  {
    if |parts| == 1 {
      SplitNoSeparator(parts[0], sep);
    } else {
      SplitJoin(parts[1..], sep);
      SplitFirstPiece(parts[0], sep, Join(parts[1..], sep));
      assert parts == [parts[0]] + parts[1..];
    }
  }

  /** `s.replace(c, "")`. */
  function RemoveAll(s: string, c: char): (r: string)
    ensures c !in r
    ensures forall i :: 0 <= i < |r| ==> r[i] in s
    ensures c !in s ==> r == s
  {
    if s == [] then []
    else
      assert s == [s[0]] + s[1..];
      (if s[0] == c then [] else [s[0]]) + RemoveAll(s[1..], c)
  }

  /** Removing `c` from `c` followed by a string without `c` gives that string. */
  lemma RemoveLeading(s: string, c: char, s': string)
    requires c !in s && s' == [c] + s
    ensures RemoveAll(s', c) == s
  {
    assert s'[1..] == s;
  }

  predicate IsDigit(ch: char)
  {
    '0' <= ch <= '9'
  }

  predicate AllDigits(s: string)
  {
    forall i :: 0 <= i < |s| ==> IsDigit(s[i])
  }

  /** The value of a string of decimal digits. */
  function DigitsValue(s: string): nat
    requires AllDigits(s)
  {
    if s == [] then 0 else 10 * DigitsValue(s[..|s| - 1]) + (s[|s| - 1] as int - '0' as int)
  }

  /** `int(s)`: an optional sign followed by one or more decimal digits. */
  function ParseInt(s: string): Option<int>
  {
    var negative := |s| > 0 && s[0] == '-';
    var body := if |s| > 0 && (s[0] == '-' || s[0] == '+') then s[1..] else s;
    if |body| > 0 && AllDigits(body) then
      var magnitude: int := DigitsValue(body);
      Some(if negative then -magnitude else magnitude)
    else None
  }

  /** `float(s)` read in hundredths: an optional sign, then a magnitude as
      `UnsignedPrice` reads it. */
  function ParsePrice(s: string): Option<int>
  {
    var negative := |s| > 0 && s[0] == '-';
    var body := if |s| > 0 && (s[0] == '-' || s[0] == '+') then s[1..] else s;
    match UnsignedPrice(body)
    case Some(v) => Some(if negative then -v else v)
    case None => None
  }

  /** One or more digits, then optionally a point and at most two digits,
      in hundredths. */
  function UnsignedPrice(body: string): Option<int>
  {
    var dot := FirstIndex(body, '.');
    var whole := body[..dot];
    var fraction := if dot < |body| then body[dot + 1..] else "";
    if |whole| > 0 && AllDigits(whole) && AllDigits(fraction) && |fraction| <= 2 then
      Some(100 * DigitsValue(whole) + if |fraction| == 1 then 10 * DigitsValue(fraction) else DigitsValue(fraction))
    else None
  }

  function DigitChar(d: nat): char
    requires d < 10
  {
    ('0' as int + d) as char
  }

  /** Decimal digits of `n`, without leading zeros. */
  function Digits(n: nat): (s: string)
    ensures |s| > 0 && AllDigits(s)
    ensures DigitsValue(s) == n
  {
    if n < 10 then
      assert [DigitChar(n)][..0] == [];
      [DigitChar(n)]
    else
      var s := Digits(n / 10) + [DigitChar(n % 10)];
      assert s[..|s| - 1] == Digits(n / 10);
      s
  }

  /** `str(n)` for an integer. */
  function IntToString(n: int): string
  {
    if n < 0 then "-" + Digits(-n) else Digits(n)
  }

  /** A price in hundredths, written with a point and two decimals. */
  function PriceToString(hundredths: int): string
  {
    var m := if hundredths < 0 then -hundredths else hundredths;
    var cents := m % 100;
    (if hundredths < 0 then "-" else "") + Digits(m / 100) + "." + [DigitChar(cents / 10), DigitChar(cents % 10)]
  }

  lemma DigitsHaveNo(n: nat, ch: char)
    requires !IsDigit(ch)
    ensures ch !in Digits(n)
  {
    var s := Digits(n);
    assert forall i :: 0 <= i < |s| ==> s[i] != ch;
  }

  lemma IntToStringHasNo(n: int, c: char)
    requires !IsDigit(c) && c != '-'
    ensures c !in IntToString(n)
  {
    DigitsHaveNo(if n < 0 then -n else n, c);
  }

  lemma PriceToStringHasNo(hundredths: int, c: char)
    requires !IsDigit(c) && c != '-' && c != '.'
    ensures c !in PriceToString(hundredths)
  {
    var m := if hundredths < 0 then -hundredths else hundredths;
    DigitsHaveNo(m / 100, c);
    PriceToStringShape(hundredths);
  }

  /** `int(str(n)) == n`. */
  lemma ParseIntToString(n: int)
    ensures ParseInt(IntToString(n)) == Some(n)
  {
    var s := IntToString(n);
    if n < 0 {
      assert s[1..] == Digits(-n);
    } else {
      assert s == Digits(n);
    }
  }

  lemma {:induction false} FirstIndexAfter(a: string, b: string, x: char)
    requires x !in a
    ensures FirstIndex(a + b, x) == |a| + FirstIndex(b, x)
  {
    if a == [] {
      assert a + b == b;
    } else {
      assert (a + b)[0] == a[0];
      assert (a + b)[1..] == a[1..] + b;
      FirstIndexAfter(a[1..], b, x);
    }
  }

  lemma TwoDigits(cents: nat)
    requires cents < 100
    ensures AllDigits([DigitChar(cents / 10), DigitChar(cents % 10)])
    ensures DigitsValue([DigitChar(cents / 10), DigitChar(cents % 10)]) == cents
  {
    var fraction := [DigitChar(cents / 10), DigitChar(cents % 10)];
    assert fraction[..1] == [DigitChar(cents / 10)];
    assert fraction[..1][..0] == [];
    assert DigitsValue(fraction[..1]) == cents / 10;
    assert DigitsValue(fraction) == 10 * (cents / 10) + cents % 10;
  }

  lemma UnsignedPriceOfDigits(whole: nat, cents: nat)
    requires cents < 100
    ensures UnsignedPrice(Digits(whole) + "." + [DigitChar(cents / 10), DigitChar(cents % 10)]) == Some(100 * whole + cents)
  {
    var fraction := [DigitChar(cents / 10), DigitChar(cents % 10)];
    TwoDigits(cents);
    DigitsHaveNo(whole, '.');
    UnsignedPriceSplit(Digits(whole), fraction, Digits(whole) + "." + fraction);
  }

  /** A run of digits, a dot and two digits reads as that many hundredths. */
  lemma UnsignedPriceSplit(w: string, fraction: string, body: string)
    requires |w| > 0 && AllDigits(w) && '.' !in w
    requires |fraction| == 2 && AllDigits(fraction)
    requires body == w + "." + fraction
    ensures UnsignedPrice(body) == Some(100 * DigitsValue(w) + DigitsValue(fraction))
  {
    DotParts(w, fraction, body);
    FirstIndexAfter(w, "." + fraction, '.');
    UnsignedPriceAt(body, |w|, w, fraction);
  }

  lemma DotParts(w: string, fraction: string, body: string)
    requires body == w + "." + fraction
    ensures body == w + ("." + fraction)
    ensures body[..|w|] == w && body[|w| + 1..] == fraction
  {
  }

  /** The parse once the dot and the two parts around it are known. */
  lemma UnsignedPriceAt(body: string, dot: nat, w: string, fraction: string)
    requires dot == FirstIndex(body, '.') && dot < |body|
    requires body[..dot] == w && body[dot + 1..] == fraction
    requires |w| > 0 && AllDigits(w) && |fraction| == 2 && AllDigits(fraction)
    ensures UnsignedPrice(body) == Some(100 * DigitsValue(w) + DigitsValue(fraction))
  {
    var whole, rest := body[..dot], body[dot + 1..];
    assert AllDigits(whole) && AllDigits(rest);
    assert DigitsValue(whole) == DigitsValue(w);
    assert DigitsValue(rest) == DigitsValue(fraction);
  }

  lemma ParsePriceUnsigned(body: string)
    requires |body| > 0 && IsDigit(body[0])
    ensures ParsePrice(body) == UnsignedPrice(body)
  {
  }

  lemma ParsePriceNegative(body: string)
    ensures ParsePrice("-" + body) == match UnsignedPrice(body) case Some(v) => Some(-v) case None => None
  {
    var s := "-" + body;
    assert |s| > 0 && s[0] == '-';
    assert s[1..] == body;
  }

  lemma PriceToStringShape(hundredths: int)
    ensures var m := if hundredths < 0 then -hundredths else hundredths;
            var body := Digits(m / 100) + "." + [DigitChar(m % 100 / 10), DigitChar(m % 100 % 10)];
            PriceToString(hundredths) == if hundredths < 0 then "-" + body else body
  {
  }

  lemma DivModHundred(m: nat)
    ensures 100 * (m / 100) + m % 100 == m && m % 100 < 100
  {
  }

  /** Reading back a formatted price gives the same number of hundredths. */
  lemma ParsePriceToString(hundredths: int)
    ensures ParsePrice(PriceToString(hundredths)) == Some(hundredths)
  {
    var m: nat := if hundredths < 0 then -hundredths else hundredths;
    var q, r := m / 100, m % 100;
    DivModHundred(m);
    var w := Digits(q);
    var body := w + "." + [DigitChar(r / 10), DigitChar(r % 10)];
    UnsignedPriceOfDigits(q, r);
    assert UnsignedPrice(body) == Some(m);
    PriceToStringShape(hundredths);
    if hundredths < 0 {
      ParsePriceNegative(body);
      assert ParsePrice("-" + body) == Some(hundredths);
    } else {
      assert body[0] == w[0];
      ParsePriceUnsigned(body);
      assert ParsePrice(body) == Some(m);
    }
  }
}
