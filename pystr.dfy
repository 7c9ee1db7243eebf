/** The parts of Python's `str`, `int()` and `float()` that the scrapers rely
    on, over `string` (a sequence of characters). Only ASCII whitespace and
    ASCII digits are modelled. */
module PyStr {
  import opened Wrappers

  predicate IsDigit(c: char) {
    '0' <= c <= '9'
  }

  /** Python's whitespace in the ASCII range: what `str.strip()`, `int()`,
      `float()` and the regular expression `\s` skip. */
  predicate IsSpace(c: char) {
    c == ' ' || 9 <= c as int <= 13 || 28 <= c as int <= 31
  }

  predicate AllDigits(s: string) {
    forall i :: 0 <= i < |s| ==> IsDigit(s[i])
  }

  function DigitValue(c: char): (d: nat)
    requires IsDigit(c)
    ensures d < 10
  {
    c as int - '0' as int
  }

  function DigitChar(d: nat): (c: char)
    requires d < 10
    ensures IsDigit(c) && DigitValue(c) == d
  {
    (d + '0' as int) as char
  }

  function Pow10(k: nat): (p: nat)
    ensures p >= 1
  {
    if k == 0 then 1 else 10 * Pow10(k - 1)
  }

  /** The number a run of decimal digits denotes (most significant first). */
  function DigitsValue(s: string): (v: nat)
    requires AllDigits(s)
    ensures v < Pow10(|s|)
  {
    if s == [] then 0 else DigitsValue(s[..|s| - 1]) * 10 + DigitValue(s[|s| - 1])
  }

  /** The decimal rendering of a natural number, without leading zeros. */
  function ShowNat(n: nat): (r: string)
    ensures |r| >= 1 && AllDigits(r)
    ensures |r| > 1 ==> r[0] != '0'
  {
    if n < 10 then [DigitChar(n)] else ShowNat(n / 10) + [DigitChar(n % 10)]
  }

  function ShowInt(n: int): (r: string)
  {
    if n < 0 then "-" + ShowNat(-n) else ShowNat(n)
  }

  function Zeros(k: nat): (r: string)
    ensures |r| == k && AllDigits(r)
  {
    if k == 0 then "" else Zeros(k - 1) + "0"
  }

  /** `n` zero-padded on the left to at least `width` digits. */
  function ZeroPad(n: nat, width: nat): (r: string)
    ensures AllDigits(r)
  {
    var s := ShowNat(n);
    if |s| >= width then s else Zeros(width - |s|) + s
  }

  lemma {:induction false} ShowNatValue(n: nat)
    ensures DigitsValue(ShowNat(n)) == n
  {
    if n >= 10 {
      var s := ShowNat(n);
      assert s[..|s| - 1] == ShowNat(n / 10);
      ShowNatValue(n / 10);
    }
  }

  lemma {:induction false} ShowNatLength(n: nat, k: nat)
    requires n < Pow10(k)
    ensures |ShowNat(n)| <= k || (k == 0 && |ShowNat(n)| == 1)
  {
    if n >= 10 {
      ShowNatLength(n / 10, k - 1);
    }
  }

  lemma {:induction false} AllDigitsConcat(a: string, b: string)
    requires AllDigits(a) && AllDigits(b)
    ensures AllDigits(a + b)
  {
    forall i | 0 <= i < |a + b| ensures IsDigit((a + b)[i]) {
      if i < |a| { assert (a + b)[i] == a[i]; } else { assert (a + b)[i] == b[i - |a|]; }
    }
  }

  lemma {:induction false} ShiftStep(x: int, p: int, y: int, d: int)
    ensures (x * p + y) * 10 + d == x * (10 * p) + (y * 10 + d)
  {
  }

  lemma {:induction false} DigitsValueConcat(a: string, b: string)
    requires AllDigits(a) && AllDigits(b)
    ensures AllDigits(a + b)
    ensures DigitsValue(a + b) == DigitsValue(a) * Pow10(|b|) + DigitsValue(b)
  {
    AllDigitsConcat(a, b);
    if b == [] {
      assert a + b == a;
    } else {
      var b' := b[..|b| - 1];
      AllDigitsConcat(a, b');
      assert (a + b)[..|a + b| - 1] == a + b';
      assert (a + b)[|a + b| - 1] == b[|b| - 1];
      DigitsValueConcat(a, b');
      ShiftStep(DigitsValue(a), Pow10(|b'|), DigitsValue(b'), DigitValue(b[|b| - 1]));
    }
  }

  lemma {:induction false} ZerosValue(k: nat)
    ensures DigitsValue(Zeros(k)) == 0
  {
    if k > 0 {
      assert Zeros(k)[..k - 1] == Zeros(k - 1);
      ZerosValue(k - 1);
    }
  }

  lemma LeadingZeros(z: string, s: string)
    requires AllDigits(z) && AllDigits(s) && DigitsValue(z) == 0
    ensures AllDigits(z + s) && DigitsValue(z + s) == DigitsValue(s)
  {
    DigitsValueConcat(z, s);
    var p := Pow10(|s|);
    assert DigitsValue(z) * p == 0;
  }

  /** Zero padding does not change the value and yields exactly `width`
      digits when the number fits. */
  lemma {:induction false} ZeroPadValue(n: nat, width: nat)
    requires n < Pow10(width)
    ensures DigitsValue(ZeroPad(n, width)) == n
    ensures width > 0 ==> |ZeroPad(n, width)| == width
  {
    var s := ShowNat(n);
    ShowNatValue(n);
    ShowNatLength(n, width);
    if |s| < width {
      var z := Zeros(width - |s|);
      assert ZeroPad(n, width) == z + s;
      ZerosValue(width - |s|);
      LeadingZeros(z, s);
    } else {
      assert ZeroPad(n, width) == s;
    }
  }

  // ---------------------------------------------------------------------
  // Stripping

  /** How many leading characters `drop` accepts. */
  function LeadingRun(s: string, drop: char -> bool): (n: nat)
    ensures n <= |s|
    ensures n == |s| || !drop(s[n])
  {
    if s != [] && drop(s[0]) then 1 + LeadingRun(s[1..], drop) else 0
  }

  lemma {:induction false} LeadingRunDropped(s: string, drop: char -> bool)
    ensures forall k :: 0 <= k < LeadingRun(s, drop) ==> drop(s[k])
  {
    if s != [] && drop(s[0]) {
      LeadingRunDropped(s[1..], drop);
      assert forall k :: 1 <= k < |s| ==> s[k] == s[1..][k - 1];
    }
  }

  lemma {:induction false} LeadingRunConcat(a: string, b: string, drop: char -> bool)
    requires forall k :: 0 <= k < |a| ==> drop(a[k])
    requires b == [] || !drop(b[0])
    ensures LeadingRun(a + b, drop) == |a|
  {
    if a == [] {
      assert a + b == b;
    } else {
      assert (a + b)[1..] == a[1..] + b;
      assert (a + b)[0] == a[0];
      LeadingRunConcat(a[1..], b, drop);
    }
  }

  /** How many trailing characters `drop` accepts. */
  function TrailingRun(s: string, drop: char -> bool): (n: nat)
    ensures n <= |s|
    ensures n == |s| || !drop(s[|s| - n - 1])
  {
    if s != [] && drop(s[|s| - 1]) then 1 + TrailingRun(s[..|s| - 1], drop) else 0
  }

  lemma {:induction false} TrailingRunDropped(s: string, drop: char -> bool)
    ensures forall k :: |s| - TrailingRun(s, drop) <= k < |s| ==> drop(s[k])
  {
    if s != [] && drop(s[|s| - 1]) {
      TrailingRunDropped(s[..|s| - 1], drop);
    }
  }

  function TrimLeft(s: string, drop: char -> bool): (r: string)
  {
    s[LeadingRun(s, drop)..]
  }

  function TrimRight(s: string, drop: char -> bool): (r: string)
  {
    s[..|s| - TrailingRun(s, drop)]
  }

  /** `s.strip(c)`: every leading and trailing `c` removed, nothing else. */
  function Strip(s: string, c: char): (r: string)
    ensures exists i, j :: 0 <= i <= j <= |s| && r == s[i..j]
                          && (forall k :: 0 <= k < i ==> s[k] == c)
                          && (forall k :: j <= k < |s| ==> s[k] == c)
    ensures r == [] || (r[0] != c && r[|r| - 1] != c)
  {
    var j := |s| - TrailingRun(s, x => x == c);
    var t := s[..j];
    var i := LeadingRun(t, x => x == c);
    TrailingRunDropped(s, x => x == c);
    LeadingRunDropped(t, x => x == c);
    assert forall k :: 0 <= k < i ==> s[k] == t[k];
    assert t[i..] == s[i..j];
    s[i..j]
  }

  /** `s.strip()`: leading and trailing whitespace removed. */
  function StripSpace(s: string): (r: string)
    ensures r == [] || (!IsSpace(r[0]) && !IsSpace(r[|r| - 1]))
  {
    var t := TrimRight(s, IsSpace);
    var r := TrimLeft(t, IsSpace);
    assert r != [] ==> r[|r| - 1] == t[|t| - 1];
    r
  }

  lemma {:induction false} StripSpaceNoop(s: string)
    requires s != [] && !IsSpace(s[0]) && !IsSpace(s[|s| - 1])
    ensures StripSpace(s) == s
  {
  }

  /** Python's `sub in s` for strings. */
  predicate Contains(s: string, sub: string) {
    exists i :: 0 <= i <= |s| - |sub| && OccursAt(s, sub, i)
  }

  predicate OccursAt(s: string, sub: string, i: nat)
    requires i <= |s| - |sub|
  {
    s[i..i + |sub|] == sub
  }

  // ---------------------------------------------------------------------
  // int() and float()

  /** An optional leading sign: whether it is '-', and the rest. */
  function SplitSign(t: string): (bool, string) {
    if |t| > 0 && (t[0] == '-' || t[0] == '+') then (t[0] == '-', t[1..]) else (false, t)
  }

  /** `int(s)` in base 10: optional whitespace, an optional sign, at least one
      digit, optional whitespace; anything else raises ValueError. Python
      also accepts underscores between digits and non-ASCII digits and
      whitespace, which this model refuses. */
  function ParseInt(s: string): (r: Result<int>)
  {
    var (negative, body) := SplitSign(StripSpace(s));
    if |body| > 0 && AllDigits(body) then
      var v: int := DigitsValue(body);
      Ok(if negative then -v else v)
    else
      Err(ValueError)
  }

  /** A finite decimal: (-1 if negative) * mantissa / 10^scale. */
  datatype Decimal = Decimal(negative: bool, mantissa: nat, scale: nat)

  function IndexOf(s: string, c: char): (i: nat)
    requires c in s
    ensures i < |s| && s[i] == c && c !in s[..i]
  {
    if s[0] == c then 0 else 1 + IndexOf(s[1..], c)
  }

  lemma {:induction false} IndexOfFirst(a: string, c: char, b: string)
    requires c !in a
    ensures IndexOf(a + [c] + b, c) == |a|
  {
    if a != [] {
      assert (a + [c] + b)[1..] == a[1..] + [c] + b;
      IndexOfFirst(a[1..], c, b);
    }
  }

  /** Digits with at most one '.', at least one digit. */
  function ParseUnsignedDecimal(body: string): Result<(nat, nat)> {
    if |body| > 0 && AllDigits(body) then
      Ok((DigitsValue(body), 0))
    else if '.' in body then
      var i := IndexOf(body, '.');
      var whole, fraction := body[..i], body[i + 1..];
      if AllDigits(whole) && AllDigits(fraction) && |whole| + |fraction| > 0 then
        DigitsValueConcat(whole, fraction);
        Ok((DigitsValue(whole + fraction), |fraction|))
      else
        Err(ValueError)
    else
      Err(ValueError)
  }

  /** `float(s)` restricted to plain decimal notation. */
  function ParseDecimal(s: string): (r: Result<Decimal>)
  {
    var (negative, body) := SplitSign(StripSpace(s));
    match ParseUnsignedDecimal(body)
    case Ok((m, k)) => Ok(Decimal(negative, m, k))
    case Err(e) => Err(e)
  }

  /** `int(float_value * multiplier)`: the exact product truncated toward zero. */
  function TruncTimes(d: Decimal, multiplier: nat): int {
    var q := d.mantissa * multiplier / Pow10(d.scale);
    if d.negative then -q else q
  }

  /** The digits of a number, possibly signed, read back by int(). */
  lemma {:induction false} ParseIntSigned(negative: bool, m: nat)
    ensures ParseInt((if negative then "-" else "") + ShowNat(m))
         == Ok(if negative then -(m as int) else m)
  {
    var s := ShowNat(m);
    var t := (if negative then "-" else "") + s;
    assert t[|t| - 1] == s[|s| - 1];
    assert t[0] == if negative then '-' else s[0];
    StripSpaceNoop(t);
    if negative {
      assert t[1..] == s;
    } else {
      assert t == s;
    }
    assert SplitSign(t) == (negative, s);
    ShowNatValue(m);
  }

  lemma {:induction false} TrailingRunConcat(a: string, b: string, drop: char -> bool)
    requires forall k :: 0 <= k < |b| ==> drop(b[k])
    requires a == [] || !drop(a[|a| - 1])
    ensures TrailingRun(a + b, drop) == |b|
  {
    if b == [] {
      assert a + b == a;
    } else {
      assert (a + b)[..|a + b| - 1] == a + b[..|b| - 1];
      assert (a + b)[|a + b| - 1] == b[|b| - 1];
      TrailingRunConcat(a, b[..|b| - 1], drop);
    }
  }

  /** `strip()` removes exactly the surrounding whitespace of a text that
      neither starts nor ends with whitespace. */
  lemma StripSpaceAround(left: string, t: string, right: string)
    requires forall k :: 0 <= k < |left| ==> IsSpace(left[k])
    requires forall k :: 0 <= k < |right| ==> IsSpace(right[k])
    requires t != [] && !IsSpace(t[0]) && !IsSpace(t[|t| - 1])
    ensures StripSpace(left + t + right) == t
  {
    var s := left + t + right;
    TrailingRunConcat(left + t, right, IsSpace);
    assert TrimRight(s, IsSpace) == left + t;
    LeadingRunConcat(left, t, IsSpace);
    assert (left + t)[|left|..] == t;
  }

  /** A sign, if any, then digits: the sign is split off. */
  lemma SplitSignDigits(sign: string, digits: string)
    requires sign == "" || sign == "+" || sign == "-"
    requires digits != [] && AllDigits(digits)
    ensures var t := sign + digits;
      !IsSpace(t[0]) && !IsSpace(t[|t| - 1]) && SplitSign(t) == (sign == "-", digits)
  {
    var t := sign + digits;
    assert t[|t| - 1] == digits[|digits| - 1];
    if sign == "" {
      assert t == digits;
    } else {
      assert t[0] == sign[0];
      assert t[1..] == digits;
    }
  }

  /** `int()` of a text whose stripped form splits into a sign and digits. */
  lemma ParseIntSplit(s: string, negative: bool, digits: string)
    requires SplitSign(StripSpace(s)) == (negative, digits)
    requires digits != [] && AllDigits(digits)
    ensures ParseInt(s) == Ok(if negative then -(DigitsValue(digits) as int) else DigitsValue(digits))
  {
  }

  /** `int()` of any text made of whitespace, an optional sign, one or more
      digits and whitespace gives the signed value of the digits. */
  lemma ParseIntText(left: string, sign: string, digits: string, right: string)
    requires forall k :: 0 <= k < |left| ==> IsSpace(left[k])
    requires forall k :: 0 <= k < |right| ==> IsSpace(right[k])
    requires sign == "" || sign == "+" || sign == "-"
    requires digits != [] && AllDigits(digits)
    ensures ParseInt(left + sign + digits + right)
         == Ok(if sign == "-" then -(DigitsValue(digits) as int) else DigitsValue(digits))
  {
    var t := sign + digits;
    var s := left + sign + digits + right;
    assert s == left + t + right;
    SplitSignDigits(sign, digits);
    StripSpaceAround(left, t, right);
    assert StripSpace(s) == t;
    ParseIntSplit(s, sign == "-", digits);
  }

  lemma ShowIntLastDigit(n: int)
    ensures ShowInt(n) != [] && IsDigit(ShowInt(n)[|ShowInt(n)| - 1])
  {
    if n < 0 {
      var d := ShowNat(-n);
      assert ShowInt(n)[|ShowInt(n)| - 1] == d[|d| - 1];
    }
  }

  lemma {:induction false} ParseIntShowInt(n: int)
    ensures ParseInt(ShowInt(n)) == Ok(n)
  {
    var t := ShowInt(n);
    if n < 0 {
      assert t == "-" + ShowNat(-n);
      ParseIntSigned(true, -n);
    } else {
      assert t == "" + ShowNat(n);
      ParseIntSigned(false, n);
    }
  }

  lemma {:induction false} ParseDecimalShowNat(n: nat)
    ensures ParseDecimal(ShowNat(n)) == Ok(Decimal(false, n, 0))
  {
    ShowNatValue(n);
    StripSpaceNoop(ShowNat(n));
  }

  /** Digits, a '.', and digits: the whole and fractional digits together
      over the number of fractional digits. */
  lemma {:induction false} ParseUnsignedPoint(w: string, fraction: string)
    requires w != [] && AllDigits(w) && AllDigits(fraction)
    ensures AllDigits(w + fraction)
    ensures ParseUnsignedDecimal(w + "." + fraction) == Ok((DigitsValue(w + fraction), |fraction|))
  {
    var s := w + "." + fraction;
    assert s == w + ['.'] + fraction;
    assert s[|w|] == '.';
    assert !AllDigits(s) by { assert !IsDigit(s[|w|]); }
    assert '.' !in w by {
      forall k | 0 <= k < |w| ensures w[k] != '.' { assert IsDigit(w[k]); }
    }
    IndexOfFirst(w, '.', fraction);
    assert s[..|w|] == w;
    assert s[|w| + 1..] == fraction;
    AllDigitsConcat(w, fraction);
  }

  /** float() of text without a sign or surrounding whitespace. */
  lemma {:induction false} ParseDecimalBare(s: string, m: nat, k: nat)
    requires s != [] && !IsSpace(s[0]) && !IsSpace(s[|s| - 1]) && s[0] != '-' && s[0] != '+'
    requires ParseUnsignedDecimal(s) == Ok((m, k))
    ensures ParseDecimal(s) == Ok(Decimal(false, m, k))
  {
    StripSpaceNoop(s);
    assert SplitSign(s) == (false, s);
  }

  /** float() of "<whole>.<fraction>" is the exact decimal. */
  lemma {:induction false} ParseDecimalPoint(whole: nat, fraction: string)
    requires AllDigits(fraction)
    ensures ParseDecimal(ShowNat(whole) + "." + fraction)
         == Ok(Decimal(false, whole * Pow10(|fraction|) + DigitsValue(fraction), |fraction|))
  {
    var w := ShowNat(whole);
    var s := w + "." + fraction;
    ParseUnsignedPoint(w, fraction);
    PointTextEnds(w, fraction);
    ParseDecimalBare(s, DigitsValue(w + fraction), |fraction|);
    ShowNatValue(whole);
    PointValue(w, fraction);
  }

  /** "<digits>.<digits>" starts with a digit and ends with a digit or '.'. */
  lemma PointTextEnds(w: string, fraction: string)
    requires w != [] && AllDigits(w) && AllDigits(fraction)
    ensures var s := w + "." + fraction;
      s != [] && IsDigit(s[0]) && (IsDigit(s[|s| - 1]) || s[|s| - 1] == '.')
  {
    var s := w + "." + fraction;
    assert s[0] == w[0];
    if fraction == [] { assert s[|s| - 1] == '.'; } else { assert s[|s| - 1] == fraction[|fraction| - 1]; }
  }

  lemma PointValue(w: string, fraction: string)
    requires AllDigits(w) && AllDigits(fraction)
    ensures AllDigits(w + fraction)
    ensures DigitsValue(w + fraction) == DigitsValue(w) * Pow10(|fraction|) + DigitsValue(fraction)
  {
    DigitsValueConcat(w, fraction);
  }

  /** Whatever float() accepts ends in a digit, a '.' or whitespace. */
  lemma {:induction false} ParseDecimalLastChar(s: string)
    requires ParseDecimal(s).Ok?
    ensures s != [] && (IsDigit(s[|s| - 1]) || s[|s| - 1] == '.' || IsSpace(s[|s| - 1]))
  {
    var t := StripSpace(s);
    var (negative, body) := SplitSign(t);
    UnsignedLastChar(body);
    assert body == t[|t| - |body|..];
    assert t[|t| - 1] == body[|body| - 1];
    StripSpaceLastChar(s);
  }

  /** A number float() accepts ends in a digit or a point. */
  lemma UnsignedLastChar(body: string)
    requires ParseUnsignedDecimal(body).Ok?
    ensures body != [] && (IsDigit(body[|body| - 1]) || body[|body| - 1] == '.')
  {
    if !AllDigits(body) {
      var i := IndexOf(body, '.');
      if i < |body| - 1 {
        assert body[|body| - 1] == body[i + 1..][|body| - i - 2];
      }
    }
  }

  /** What strip() keeps ends where the text ends, or before whitespace. */
  lemma StripSpaceLastChar(s: string)
    requires StripSpace(s) != []
    ensures s != [] && (IsSpace(s[|s| - 1]) || s[|s| - 1] == StripSpace(s)[|StripSpace(s)| - 1])
  {
    var r := TrimRight(s, IsSpace);
    var t := TrimLeft(r, IsSpace);
    assert t[|t| - 1] == r[|r| - 1];
    if |r| == |s| {
      assert s == r;
    }
  }

  /** A character float() can accept somewhere in its input. */
  predicate DecimalChar(c: char) {
    IsDigit(c) || c == '.' || c == '+' || c == '-' || IsSpace(c)
  }

  /** What the unsigned part of float() accepts is digits and '.'. */
  lemma ParseUnsignedChars(body: string)
    requires ParseUnsignedDecimal(body).Ok?
    ensures forall q :: 0 <= q < |body| ==> IsDigit(body[q]) || body[q] == '.'
  {
    if !AllDigits(body) {
      var i := IndexOf(body, '.');
      forall q | 0 <= q < |body| ensures IsDigit(body[q]) || body[q] == '.' {
        if q < i {
          assert body[q] == body[..i][q];
        } else if q > i {
          assert body[q] == body[i + 1..][q - i - 1];
        }
      }
    }
  }

  /** float() rejects any input holding another character. */
  lemma {:induction false} ParseDecimalChars(s: string)
    requires ParseDecimal(s).Ok?
    ensures forall p :: 0 <= p < |s| ==> DecimalChar(s[p])
  {
    var tr := TrailingRun(s, IsSpace);
    var r := TrimRight(s, IsSpace);
    var lr := LeadingRun(r, IsSpace);
    var t := StripSpace(s);
    assert t == r[lr..];
    TrailingRunDropped(s, IsSpace);
    LeadingRunDropped(r, IsSpace);
    var (negative, body) := SplitSign(t);
    var off := |t| - |body|;
    assert off == 0 || off == 1;
    assert body == t[off..];
    assert ParseUnsignedDecimal(body).Ok?;
    ParseUnsignedChars(body);
    forall p | 0 <= p < |s| ensures DecimalChar(s[p]) {
      if p >= |r| {
        assert IsSpace(s[p]);
      } else if p < lr {
        assert s[p] == r[p];
      } else if p - lr < off {
        assert s[p] == t[0];
      } else {
        assert s[p] == r[p] == t[p - lr] == body[p - lr - off];
      }
    }
  }

  /** `s.strip(c)` keeps every character other than `c`. */
  lemma StripKeeps(s: string, c: char, p: nat)
    requires p < |s| && s[p] != c
    ensures s[p] in Strip(s, c)
  {
    var i, j :| 0 <= i <= j <= |s| && Strip(s, c) == s[i..j]
      && (forall k :: 0 <= k < i ==> s[k] == c)
      && (forall k :: j <= k < |s| ==> s[k] == c);
    assert s[p] == s[i..j][p - i];
  }
}
