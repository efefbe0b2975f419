/** The Python built-ins the integration applies to decoded hub values:
    `str.strip()`, `int(...)`, `float(...)` and `str(...)`.  Conversions
    that raise `TypeError` or `ValueError` give `None`. */
module PyText {
  import opened Wrappers
  import opened Json

  /** `c.isspace()`: what `str.strip()` removes and what the regular
      expression class `\s` matches. */
  predicate IsSpace(c: char) {
    || c == ' ' || '\t' <= c <= '\r' || '\U{1c}' <= c <= '\U{1f}'
    || c == '\U{85}' || c == '\U{a0}' || c == '\U{1680}'
    || '\U{2000}' <= c <= '\U{200a}' || c == '\U{2028}' || c == '\U{2029}'
    || c == '\U{202f}' || c == '\U{205f}' || c == '\U{3000}'
  }

  function TrimStart(s: string): (t: string)
    ensures |t| <= |s| && t == s[|s| - |t|..]
    ensures t == [] || !IsSpace(t[0])
    ensures forall i :: 0 <= i < |s| - |t| ==> IsSpace(s[i])
  {
    if s != [] && IsSpace(s[0]) then TrimStart(s[1..]) else s
  }

  function TrimEnd(s: string): (t: string)
    ensures |t| <= |s| && t == s[..|t|]
    ensures t == [] || !IsSpace(t[|t| - 1])
    ensures forall i :: |t| <= i < |s| ==> IsSpace(s[i])
  {
    if s != [] && IsSpace(s[|s| - 1]) then TrimEnd(s[..|s| - 1]) else s
  }

  /** `s.strip()` */
  function Strip(s: string): (t: string)
    ensures t == [] || (!IsSpace(t[0]) && !IsSpace(t[|t| - 1]))
    ensures t == [] <==> forall i :: 0 <= i < |s| ==> IsSpace(s[i])
    ensures s == [] || (!IsSpace(s[0]) && !IsSpace(s[|s| - 1])) ==> t == s
  {
    var u := TrimStart(s);
    var t := TrimEnd(u);
    assert t == [] ==> forall i :: 0 <= i < |s| ==> IsSpace(s[i]) by {
      if t == [] {
        assert u == [];
      }
    }
    t
  }

  /** Leading whitespace is skipped whatever follows it. */
  lemma {:induction false} TrimStartSkips(p: string, r: string)
    requires forall i :: 0 <= i < |p| ==> IsSpace(p[i])
    ensures TrimStart(p + r) == TrimStart(r)
  {
    if p != [] {
      var s := p + r;
      var rest := p[1..];
      assert s[1..] == rest + r;
      assert IsSpace(p[0]);
      assert TrimStart(s) == TrimStart(rest + r);
      TrimStartSkips(rest, r);
    } else {
      assert p + r == r;
    }
  }

  /** Trailing whitespace is dropped whatever comes before it. */
  lemma {:induction false} TrimEndSkips(r: string, q: string)
    requires forall i :: 0 <= i < |q| ==> IsSpace(q[i])
    ensures TrimEnd(r + q) == TrimEnd(r)
  {
    if q != [] {
      var s := r + q;
      var front := q[..|q| - 1];
      assert s[..|s| - 1] == r + front;
      assert IsSpace(q[|q| - 1]);
      assert TrimEnd(s) == TrimEnd(r + front);
      TrimEndSkips(r, front);
    } else {
      assert r + q == r;
    }
  }

  /** `strip` removes the whitespace at the two ends and nothing else: a
      text with no whitespace at its ends, padded on either side with
      whitespace, strips back to itself. */
  lemma StripRemovesEnds(p: string, m: string, q: string)
    requires forall i :: 0 <= i < |p| ==> IsSpace(p[i])
    requires forall i :: 0 <= i < |q| ==> IsSpace(q[i])
    requires m == [] || (!IsSpace(m[0]) && !IsSpace(m[|m| - 1]))
    ensures Strip(p + m + q) == m
  {
    var s := p + m + q;
    if m == [] {
      assert forall i :: 0 <= i < |s| ==> IsSpace(s[i]) by {
        assert s == p + q;
      }
    } else {
      assert s == p + (m + q);
      TrimStartSkips(p, m + q);
      assert TrimStart(m + q) == m + q;
      TrimEndSkips(m, q);
    }
  }

  /** `strip` removes only whitespace: every other character of the text
      is still in its strip. */
  lemma StripHolds(s: string, i: nat)
    requires i < |s| && !IsSpace(s[i])
    ensures s[i] in Strip(s)
  {
    var u := TrimStart(s);
    var off := |s| - |u|;
    assert i >= off;
    var t := TrimEnd(u);
    assert u[i - off] == s[i];
    assert i - off < |t|;
    assert Strip(s)[i - off] == s[i];
  }

  predicate IsDigit(c: char) {
    '0' <= c <= '9'
  }

  function DigitChar(d: nat): (c: char)
    requires d < 10
    ensures IsDigit(c) && c as int - '0' as int == d
  {
    (d + '0' as int) as char
  }

  /** The value of a run of ASCII digits, `_` separators skipped. */
  function DigitsValue(s: string): nat {
    if s == [] then 0
    else
      var rest := DigitsValue(s[..|s| - 1]);
      if IsDigit(s[|s| - 1]) then rest * 10 + (s[|s| - 1] as int - '0' as int) else rest
  }

  /** The number of digits in a run, separators not counted. */
  function DigitCount(s: string): nat {
    if s == [] then 0
    else DigitCount(s[..|s| - 1]) + (if IsDigit(s[|s| - 1]) then 1 else 0)
  }

  /** A digit run as `int()` and `float()` accept it: ASCII digits, with
      single underscores allowed between two digits. */
  predicate IsDigitRun(s: string) {
    && |s| > 0 && IsDigit(s[0]) && IsDigit(s[|s| - 1])
    && (forall i :: 0 <= i < |s| ==> IsDigit(s[i]) || s[i] == '_')
    && (forall i :: 0 <= i < |s| - 1 ==> s[i] == '_' ==> s[i + 1] != '_')
  }

  /** `str(n)` for a natural number. */
  function DecText(n: nat): (s: string)
    ensures |s| > 0 && forall i :: 0 <= i < |s| ==> IsDigit(s[i])
  {
    if n < 10 then [DigitChar(n)] else DecText(n / 10) + [DigitChar(n % 10)]
  }

  /** `str(n)` for an integer. */
  function IntText(n: int): (s: string)
    ensures |s| > 0
  {
    if n < 0 then "-" + DecText(-n) else DecText(n)
  }

  lemma {:induction false} DecTextValue(n: nat)
    ensures IsDigitRun(DecText(n))
    ensures DigitsValue(DecText(n)) == n
  {
    var s := DecText(n);
    if n >= 10 {
      DecTextValue(n / 10);
      var p := DecText(n / 10);
      assert s[..|s| - 1] == p;
    }
  }

  /** `int(s)` for a string: surrounding whitespace, an optional sign and
      a digit run; `None` where Python raises `ValueError`. */
  function ParseIntText(s: string): (r: Option<int>)
    ensures Strip(s) == [] ==> r.None?
  {
    IntOfStripped(Strip(s))
  }

  /** `int()` once surrounding whitespace is gone: an optional sign, then
      a digit run. The exponent of a float literal is read the same way. */
  function IntOfStripped(t: string): (r: Option<int>)
    ensures t == [] ==> r.None?
  {
    if |t| > 0 && (t[0] == '+' || t[0] == '-') then
      if IsDigitRun(t[1..]) then
        var v: int := DigitsValue(t[1..]);
        Some(if t[0] == '-' then -v else v)
      else None
    else if IsDigitRun(t) then Some(DigitsValue(t))
    else None
  }

  /** A run of plain digits, signed or not, reads as its value. */
  lemma ParseDigits(d: string, neg: bool)
    requires IsDigitRun(d) && forall i :: 0 <= i < |d| ==> IsDigit(d[i])
    ensures ParseIntText(if neg then "-" + d else d) == Some(if neg then -(DigitsValue(d) as int) else DigitsValue(d))
  {
    if neg {
      var s := "-" + d;
      assert s[0] == '-' && s[1..] == d;
      ParseMinusDigits(d, s);
    } else {
      ParsePlainDigits(d);
    }
  }

  lemma ParsePlainDigits(d: string)
    requires IsDigitRun(d) && forall i :: 0 <= i < |d| ==> IsDigit(d[i])
    ensures ParseIntText(d) == Some(DigitsValue(d))
  {
    assert IntOfStripped(d) == Some(DigitsValue(d)) by {
      assert !(d[0] == '+' || d[0] == '-');
    }
    StripKeeps(d);
  }

  lemma ParseMinusDigits(d: string, t: string)
    requires IsDigitRun(d) && forall i :: 0 <= i < |d| ==> IsDigit(d[i])
    requires |t| == |d| + 1 && t[0] == '-' && t[1..] == d
    ensures ParseIntText(t) == Some(-(DigitsValue(d) as int))
  {
    assert t[|t| - 1] == d[|d| - 1];
    StripKeeps(t);
  }

  /** A text that starts with a sign or a digit and ends with a digit is
      its own `strip()`. */
  lemma StripKeeps(s: string)
    requires |s| > 0 && (s[0] == '-' || IsDigit(s[0])) && IsDigit(s[|s| - 1])
    ensures Strip(s) == s
  {
    assert !IsSpace(s[0]) && !IsSpace(s[|s| - 1]);
  }

  /** `int(str(n)) == n` */
  lemma IntTextRoundTrip(n: int)
    ensures ParseIntText(IntText(n)) == Some(n)
  {
    var m := if n < 0 then -n else n;
    DecTextValue(m);
    ParseDigits(DecText(m), n < 0);
  }

  /** The characters `int()` accepts besides surrounding whitespace. */
  predicate IntChar(c: char) {
    IsDigit(c) || c == '_' || c == '+' || c == '-'
  }

  /** An integer literal `int()` accepts is made of digits, separators
      and a sign only. */
  lemma IntOfStrippedChars(t: string)
    ensures IntOfStripped(t).Some? ==> forall i :: 0 <= i < |t| ==> IntChar(t[i])
  {
    if IntOfStripped(t).Some? && |t| > 0 && (t[0] == '+' || t[0] == '-') {
      forall i | 1 <= i < |t| ensures IntChar(t[i]) {
        assert t[i] == t[1..][i - 1];
      }
    }
  }

  /** `int(s)` raises `ValueError` on text holding any character other
      than whitespace, digits, `_` and a sign: `int("12a")` fails. */
  lemma ParseIntRefuses(s: string, i: nat)
    requires i < |s| && !IsSpace(s[i]) && !IntChar(s[i])
    ensures ParseIntText(s).None?
  {
    StripHolds(s, i);
    IntOfStrippedChars(Strip(s));
  }

  /** What `float(...)` produces: a finite value, or an infinity or NaN.
      The value is kept exact; binary rounding is not modelled. */
  datatype PyFloat = Finite(value: real) | NotFinite

  function Pow10(e: nat): (p: nat)
    ensures p >= 1
  {
    if e == 0 then 1 else 10 * Pow10(e - 1)
  }

  /** 10 raised to an integer power. */
  function Scale(e: int): (r: real)
    ensures r > 0.0
  {
    if e >= 0 then Pow10(e) as real else 1.0 / Pow10(-e) as real
  }

  /** `c.lower()` on ASCII letters; other characters are kept. */
  function Lower(c: char): char {
    if 'A' <= c <= 'Z' then (c as int + 32) as char else c
  }

  function ToLowerAscii(s: string): (t: string)
    ensures |t| == |s|
    ensures forall i :: 0 <= i < |s| ==> t[i] == Lower(s[i])
  {
    if s == [] then []
    else [Lower(s[0])] + ToLowerAscii(s[1..])
  }

  /** The first index holding `a` or `b`. */
  function FirstIndex(s: string, a: char, b: char): (r: Option<nat>)
    ensures r.Some? ==> r.value < |s| && (s[r.value] == a || s[r.value] == b)
    ensures r.Some? ==> forall i :: 0 <= i < r.value ==> s[i] != a && s[i] != b
    ensures r.None? ==> forall i :: 0 <= i < |s| ==> s[i] != a && s[i] != b
  {
    if s == [] then None
    else if s[0] == a || s[0] == b then Some(0)
    else match FirstIndex(s[1..], a, b)
      case None => None
      case Some(k) => Some(k + 1)
  }

  /** `digits`, `digits.`, `digits.digits` or `.digits` */
  function ParseMantissa(m: string): Option<real> {
    match FirstIndex(m, '.', '.')
    case None => if IsDigitRun(m) then Some(DigitsValue(m) as real) else None
    case Some(d) =>
      var ip, fp := m[..d], m[d + 1..];
      if (ip == [] && fp == []) || (ip != [] && !IsDigitRun(ip)) || (fp != [] && !IsDigitRun(fp)) then None
      else Some(DigitsValue(ip) as real + DigitsValue(fp) as real / Pow10(DigitCount(fp)) as real)
  }

  function ParseUnsignedFloat(b: string): Option<PyFloat> {
    if ToLowerAscii(b) in {"inf", "infinity", "nan"} then Some(NotFinite)
    else match FirstIndex(b, 'e', 'E')
      case None =>
        (match ParseMantissa(b)
         case Some(v) => Some(Finite(v))
         case None => None)
      case Some(k) =>
        (match (ParseMantissa(b[..k]), IntOfStripped(b[k + 1..]))
         case (Some(v), Some(e)) => Some(Finite(v * Scale(e)))
         case _ => None)
  }

  /** `float(s)` for a string; `None` where Python raises `ValueError`. */
  function ParseFloatText(s: string): (r: Option<PyFloat>)
    ensures Strip(s) == [] ==> r.None?
  {
    FloatOfStripped(Strip(s))
  }

  /** `float()` once surrounding whitespace is gone: an optional sign,
      then an unsigned literal; the empty text is refused. */
  function FloatOfStripped(t: string): (r: Option<PyFloat>)
    ensures t == [] ==> r.None?
  {
    if |t| > 0 && (t[0] == '+' || t[0] == '-') then
      match ParseUnsignedFloat(t[1..])
      case Some(Finite(v)) => Some(Finite(if t[0] == '-' then -v else v))
      case other => other
    else ParseUnsignedFloat(t)
  }

  /** A plain run of digits reads as its value under `float()`. */
  lemma DigitsFloat(d: string)
    requires IsDigitRun(d) && forall i :: 0 <= i < |d| ==> IsDigit(d[i])
    ensures ParseUnsignedFloat(d) == Some(Finite(DigitsValue(d) as real))
  {
    assert ToLowerAscii(d) !in {"inf", "infinity", "nan"} by {
      assert ToLowerAscii(d)[0] == d[0];
    }
    assert FirstIndex(d, 'e', 'E').None?;
    assert FirstIndex(d, '.', '.').None?;
  }

  /** A run of plain digits reads under `float()` as its value. */
  lemma ParseFloatDigits(d: string)
    requires IsDigitRun(d) && forall i :: 0 <= i < |d| ==> IsDigit(d[i])
    ensures ParseFloatText(d) == Some(Finite(DigitsValue(d) as real))
  {
    assert !IsSpace(d[0]) && !IsSpace(d[|d| - 1]);
    assert Strip(d) == d;
    DigitsFloat(d);
    assert !(d[0] == '+' || d[0] == '-');
  }

  /** `float(str(n)) == n` for a natural number. */
  lemma DecTextFloatRoundTrip(n: nat)
    ensures ParseFloatText(DecText(n)) == Some(Finite(n as real))
  {
    DecTextValue(n);
    ParseFloatDigits(DecText(n));
  }

  /** A letter of `inf`, `infinity` or `nan`, in either case. */
  predicate InfNanLetter(c: char) {
    var l := Lower(c);
    l == 'i' || l == 'n' || l == 'f' || l == 't' || l == 'y' || l == 'a'
  }

  /** The characters `float()` accepts besides surrounding whitespace. */
  predicate FloatChar(c: char) {
    IntChar(c) || c == '.' || c == 'e' || c == 'E' || InfNanLetter(c)
  }

  lemma ParseMantissaChars(m: string)
    ensures ParseMantissa(m).Some? ==> forall i :: 0 <= i < |m| ==> IsDigit(m[i]) || m[i] == '_' || m[i] == '.'
  {
    if ParseMantissa(m).Some? && FirstIndex(m, '.', '.').Some? {
      var d := FirstIndex(m, '.', '.').value;
      var ip, fp := m[..d], m[d + 1..];
      forall i | 0 <= i < |m| ensures IsDigit(m[i]) || m[i] == '_' || m[i] == '.' {
        if i < d {
          assert m[i] == ip[i];
        } else if i > d {
          assert m[i] == fp[i - d - 1];
        }
      }
    }
  }

  lemma ParseUnsignedFloatChars(b: string)
    ensures ParseUnsignedFloat(b).Some? ==> forall i :: 0 <= i < |b| ==> FloatChar(b[i])
  {
    if ParseUnsignedFloat(b).Some? {
      if ToLowerAscii(b) in {"inf", "infinity", "nan"} {
        forall i | 0 <= i < |b| ensures InfNanLetter(b[i]) {
          assert Lower(b[i]) == ToLowerAscii(b)[i];
        }
      } else if FirstIndex(b, 'e', 'E').None? {
        ParseMantissaChars(b);
      } else {
        var k := FirstIndex(b, 'e', 'E').value;
        var m, x := b[..k], b[k + 1..];
        ParseMantissaChars(m);
        IntOfStrippedChars(x);
        forall i | 0 <= i < |b| ensures FloatChar(b[i]) {
          if i < k {
            assert b[i] == m[i];
          } else if i > k {
            assert b[i] == x[i - k - 1];
          }
        }
      }
    }
  }

  lemma FloatOfStrippedChars(t: string)
    ensures FloatOfStripped(t).Some? ==> forall i :: 0 <= i < |t| ==> FloatChar(t[i])
  {
    if |t| > 0 && (t[0] == '+' || t[0] == '-') {
      var b := t[1..];
      ParseUnsignedFloatChars(b);
      if FloatOfStripped(t).Some? {
        forall i | 1 <= i < |t| ensures FloatChar(t[i]) {
          assert t[i] == b[i - 1];
        }
      }
    } else {
      ParseUnsignedFloatChars(t);
    }
  }

  /** `float(s)` raises `ValueError` on text holding any character other
      than whitespace, digits, `_`, a sign, a point, an exponent mark or
      a letter of `inf` and `nan`: `float("abc")` fails. */
  lemma ParseFloatRefuses(s: string, i: nat)
    requires i < |s| && !IsSpace(s[i]) && !FloatChar(s[i])
    ensures ParseFloatText(s).None?
  {
    StripHolds(s, i);
    FloatOfStrippedChars(Strip(s));
  }

  /** `int("12a")` fails. */
  lemma IntTextRefused()
    ensures ParseIntText("12a").None?
  {
    var s := "12a";
    ParseIntRefuses(s, 2);
  }

  /** `float("abc")` fails. */
  lemma FloatTextRefused()
    ensures ParseFloatText("abc").None?
  {
    var t := "abc";
    assert Lower(t[1]) == 'b';
    ParseFloatRefuses(t, 1);
  }

  /** `int(x)` applied to a float truncates toward zero. */
  function Trunc(r: real): (n: int)
    ensures r >= 0.0 ==> n as real <= r < n as real + 1.0
    ensures r < 0.0 ==> n as real - 1.0 < r <= n as real
  {
    if r >= 0.0 then r.Floor else -((-r).Floor)
  }

  /** `int(v)` for a decoded value. */
  function PyInt(j: Json): (r: Option<int>)
    ensures j.JNull? || j.JArr? || j.JObj? ==> r.None?
    ensures j.JStr? && Strip(j.s) == [] ==> r.None?
    ensures j.JBool? || j.JInt? || j.JFloat? ==> r.Some?
  {
    match j
    case JNull => None
    case JBool(b) => Some(if b then 1 else 0)
    case JInt(n) => Some(n)
    case JFloat(r) => Some(Trunc(r))
    case JStr(s) => ParseIntText(s)
    case JArr(_) => None
    case JObj(_) => None
  }

  /** `float(v)` for a decoded value. */
  function PyFloatOf(j: Json): (r: Option<PyFloat>)
    ensures j.JNull? || j.JArr? || j.JObj? ==> r.None?
    ensures j.JStr? && Strip(j.s) == [] ==> r.None?
    ensures j.JBool? || j.JInt? || j.JFloat? ==> r.Some? && r.value.Finite?
  {
    match j
    case JNull => None
    case JBool(b) => Some(Finite(if b then 1.0 else 0.0))
    case JInt(n) => Some(Finite(n as real))
    case JFloat(r) => Some(Finite(r))
    case JStr(s) => ParseFloatText(s)
    case JArr(_) => None
    case JObj(_) => None
  }

  /** What `int(v)` and `float(v)` give for each kind of number: an int
      is itself, a float is truncated toward zero by `int()`, a boolean
      counts as 0 or 1, and the text `str(n)` reads back as `n`. */
  lemma PyIntValues(n: int, x: real, b: bool)
    ensures PyInt(JInt(n)) == Some(n)
    ensures PyInt(JFloat(x)) == Some(Trunc(x))
    ensures PyInt(JBool(b)) == Some(if b then 1 else 0)
    ensures PyInt(JStr(IntText(n))) == Some(n)
    ensures PyFloatOf(JInt(n)) == Some(Finite(n as real))
    ensures PyFloatOf(JFloat(x)) == Some(Finite(x))
    ensures PyFloatOf(JBool(b)) == Some(Finite(if b then 1.0 else 0.0))
    ensures n >= 0 ==> PyFloatOf(JStr(DecText(n))) == Some(Finite(n as real))
  {
    IntTextRoundTrip(n);
    if n >= 0 {
      DecTextFloatRoundTrip(n);
    }
  }

  /** `str(v)` for a decoded value: exact for None, booleans, integers and
      strings; a float, list or dict is rendered by a fixed tag. */
  function PyStr(j: Json): (s: string)
    ensures s == [] <==> j == JStr([])
  {
    match j
    case JNull => "None"
    case JBool(b) => if b then "True" else "False"
    case JInt(n) => IntText(n)
    case JFloat(_) => "<float>"
    case JStr(s) => s
    case JArr(_) => "<list>"
    case JObj(_) => "<dict>"
  }
}
