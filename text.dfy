/**
 * String operations the job service relies on: query-text normalisation, the two
 * numeric recognisers (applied with whole-string `matches`), ASCII case folding,
 * Java's `Integer.toString` / `Integer.parseInt` and blank tests.
 */
module Text {
  import opened Base

  // ---------------------------------------------------------------------------
  // Removing characters (String.replace(x, "") with a one-character x)
  // ---------------------------------------------------------------------------

  /** `s` with every occurrence of `c` deleted, the other characters kept in order. */
  function Remove(s: string, c: char): (r: string)
    ensures c !in r
    ensures |r| <= |s|
    ensures forall x :: x != c ==> (x in r <==> x in s)
  {
    if s == [] then [] else (if s[0] == c then [] else [s[0]]) + Remove(s[1..], c)
  }

  lemma {:induction false} RemoveAbsent(s: string, c: char)
    requires c !in s
    ensures Remove(s, c) == s
  {
    if s != [] {
      assert c !in s[1..];
      RemoveAbsent(s[1..], c);
    }
  }

  /**
   * The query-text normalisation used for duplicate detection: every space,
   * line feed and semicolon removed (SysJobServiceImpl.java, lines 866-873).
   */
  function Normalize(s: string): (r: string)
    ensures ' ' !in r && '\n' !in r && ';' !in r
  {
    Remove(Remove(Remove(s, ' '), '\n'), ';')
  }

  /** Normalising keeps every other character: a character survives iff it is not stripped. */
  lemma NormalizeKeeps(s: string, x: char)
    requires x != ' ' && x != '\n' && x != ';'
    ensures x in Normalize(s) <==> x in s
  {
  }

  /** A text is left alone by normalisation exactly when it holds none of the stripped characters. */
  lemma NormalizeFixpoint(s: string)
    ensures Normalize(s) == s <==> (' ' !in s && '\n' !in s && ';' !in s)
  {
    if ' ' !in s && '\n' !in s && ';' !in s {
      RemoveAbsent(s, ' ');
      RemoveAbsent(s, '\n');
      RemoveAbsent(s, ';');
    }
  }

  /** Normalising twice is normalising once. */
  lemma NormalizeIdempotent(s: string)
    ensures Normalize(Normalize(s)) == Normalize(s)
  {
    NormalizeFixpoint(Normalize(s));
  }

  // ---------------------------------------------------------------------------
  // Character classes, case folding, prefixes, blanks
  // ---------------------------------------------------------------------------

  predicate IsDigit(c: char) {
    '0' <= c <= '9'
  }

  predicate AllDigits(s: string) {
    forall i :: 0 <= i < |s| ==> IsDigit(s[i])
  }

  function Lower(c: char): char {
    if 'A' <= c <= 'Z' then (c as int + 32) as char else c
  }

  /** `String.equalsIgnoreCase`, restricted to ASCII case folding. */
  predicate EqualsIgnoreCase(a: string, b: string) {
    |a| == |b| && forall i :: 0 <= i < |a| ==> Lower(a[i]) == Lower(b[i])
  }

  predicate StartsWith(s: string, p: string) {
    |p| <= |s| && s[..|p|] == p
  }

  /** Characters that make a string blank for `StrUtil.isBlank` (the common ones). */
  predicate IsBlankChar(c: char) {
    c == ' ' || c == '\t' || c == '\n' || c == '\r' || c == '\U{000B}' || c == '\U{000C}'
    || c == '\U{00A0}' || c == '\U{3000}' || c == '\U{FEFF}' || c == '\0'
  }

  predicate IsBlank(s: string) {
    forall i :: 0 <= i < |s| ==> IsBlankChar(s[i])
  }

  // ---------------------------------------------------------------------------
  // The two metric-value recognisers
  // ---------------------------------------------------------------------------

  /** Length of the maximal run of digits starting at `i`. */
  function DigitRun(s: string, i: nat): (n: nat)
    requires i <= |s|
    ensures i + n <= |s|
    ensures forall k :: i <= k < i + n ==> IsDigit(s[k])
    ensures i + n == |s| || !IsDigit(s[i + n])
    decreases |s| - i
  {
    if i < |s| && IsDigit(s[i]) then 1 + DigitRun(s, i + 1) else 0
  }

  /** Length (0 or 1) of an optional `+`/`-` sign at `i`. */
  function SignLen(s: string, i: nat): (n: nat)
    ensures n <= 1
    ensures n == 1 <==> i < |s| && (s[i] == '+' || s[i] == '-')
  {
    if i < |s| && (s[i] == '+' || s[i] == '-') then 1 else 0
  }

  /** End of the optional sign and the integer digits at the start of `s`. */
  function IntegerEnd(s: string): (b: nat)
    ensures b <= |s|
  {
    SignLen(s, 0) + DigitRun(s, SignLen(s, 0))
  }

  /**
   * Whole-string match of `^(\-|\+)?\d+(\.\d+)?$` (the ISNUM pattern,
   * SysJobServiceImpl.java line 77): optional sign, digits, optionally a dot and digits.
   */
  predicate IsNumber(s: string)
    ensures IsNumber(s) ==> |s| > 0 && IsDigit(s[|s| - 1])
  {
    var b := IntegerEnd(s);
    b > SignLen(s, 0) && (b == |s| || (s[b] == '.' && b + 1 + DigitRun(s, b + 1) == |s| && DigitRun(s, b + 1) > 0))
  }

  /** End of the mantissa `[+-]?\d+\.?\d*` at the start of `s`. */
  function MantissaEnd(s: string): (c: nat)
    ensures c <= |s|
  {
    var b := IntegerEnd(s);
    if b < |s| && s[b] == '.' then b + 1 + DigitRun(s, b + 1) else b
  }

  /** From `i` on, `s` is an optionally signed, non-empty run of digits. */
  predicate ExponentFrom(s: string, i: nat)
    requires i <= |s|
  {
    var d := i + SignLen(s, i);
    d <= |s| && DigitRun(s, d) > 0 && d + DigitRun(s, d) == |s|
  }

  /**
   * Whole-string match of `^[+-]?\d+\.?\d*[Ee][+-]?\d+$` (the KEXUE pattern,
   * line 84): mantissa with optional sign and fraction, `E` or `e`, signed exponent digits.
   */
  predicate IsScientific(s: string)
    ensures IsScientific(s) ==> |s| > 0 && IsDigit(s[|s| - 1])
  {
    var c := MantissaEnd(s);
    IntegerEnd(s) > SignLen(s, 0) && c < |s| && (s[c] == 'E' || s[c] == 'e') && ExponentFrom(s, c + 1)
  }

  /** A cell value that counts as a metric: it matches ISNUM or KEXUE. */
  predicate IsMetricText(s: string) {
    IsNumber(s) || IsScientific(s)
  }

  /** Well-formed optional sign: empty, "+" or "-". */
  predicate IsSign(sign: string) {
    |sign| <= 1 && (|sign| == 1 ==> sign[0] == '+' || sign[0] == '-')
  }

  /** A maximal digit run is recognised by its length. */
  lemma {:induction false} DigitRunIs(s: string, i: nat, j: nat)
    requires i <= j <= |s|
    requires forall k :: i <= k < j ==> IsDigit(s[k])
    requires j == |s| || !IsDigit(s[j])
    ensures DigitRun(s, i) == j - i
    decreases j - i
  {
    if i < j {
      DigitRunIs(s, i + 1, j);
    }
  }

  /** The digit run after a prefix `p` is exactly the digits `d`, when `q` does not continue them. */
  lemma DigitRunAt(p: string, d: string, q: string)
    requires AllDigits(d)
    requires q == [] || !IsDigit(q[0])
    ensures DigitRun(p + d + q, |p|) == |d|
  {
    var s := p + d + q;
    forall k | |p| <= k < |p| + |d|
      ensures IsDigit(s[k])
    {
      assert s[k] == d[k - |p|];
    }
    if q != [] {
      assert s[|p| + |d|] == q[0];
    }
    DigitRunIs(s, |p|, |p| + |d|);
  }

  /** The sign length after a prefix `p` is the length of the sign `g`, when `q` does not start with one. */
  lemma SignLenAt(p: string, g: string, q: string)
    requires IsSign(g)
    requires q == [] || (q[0] != '+' && q[0] != '-')
    ensures SignLen(p + g + q, |p|) == |g|
  {
    var s := p + g + q;
    if g == [] && q != [] {
      assert s[|p|] == q[0];
    }
    if g != [] {
      assert s[|p|] == g[0];
    }
  }

  /** A sign and digits at the start, not continued by a digit, end where the digits end. */
  lemma IntegerEndAt(sign: string, whole: string, rest: string)
    requires IsSign(sign) && |whole| > 0 && AllDigits(whole)
    requires rest == [] || !IsDigit(rest[0])
    ensures IntegerEnd(sign + whole + rest) == |sign| + |whole|
    ensures SignLen(sign + whole + rest, 0) == |sign|
  {
    var s := sign + whole + rest;
    SignLenAt([], sign, whole + rest);
    assert [] + sign + (whole + rest) == s;
    DigitRunAt(sign, whole, rest);
  }

  /** A signed, non-empty digit run after `p` is a valid exponent. */
  lemma ExponentAt(p: string, esign: string, exp: string)
    requires IsSign(esign) && |exp| > 0 && AllDigits(exp)
    ensures ExponentFrom(p + esign + exp, |p|)
  {
    var s := p + esign + exp;
    SignLenAt(p, esign, exp);
    DigitRunAt(p + esign, exp, []);
    assert s + [] == s;
  }

  /** Every text of the ISNUM grammar is recognised (sign, integer digits, optional dot and digits). */
  lemma NumberComplete(sign: string, whole: string, frac: string)
    requires IsSign(sign)
    requires |whole| > 0 && AllDigits(whole)
    requires AllDigits(frac)
    ensures IsNumber(sign + whole)
    ensures |frac| > 0 ==> IsNumber(sign + whole + "." + frac)
  {
    IntegerEndAt(sign, whole, []);
    assert sign + whole + [] == sign + whole;
    if |frac| > 0 {
      var t := sign + whole + "." + frac;
      IntegerEndAt(sign, whole, "." + frac);
      assert sign + whole + ("." + frac) == t;
      DigitRunAt(sign + whole + ".", frac, []);
      assert t + [] == t;
    }
  }

  /** Every text of the KEXUE grammar without a fraction part is recognised. */
  lemma ScientificComplete(sign: string, whole: string, e: char, esign: string, exp: string)
    requires IsSign(sign) && IsSign(esign)
    requires |whole| > 0 && AllDigits(whole)
    requires e == 'E' || e == 'e'
    requires |exp| > 0 && AllDigits(exp)
    ensures IsScientific(sign + whole + [e] + esign + exp)
  {
    var s := sign + whole + [e] + esign + exp;
    var b := |sign| + |whole|;
    IntegerEndAt(sign, whole, [e] + esign + exp);
    assert sign + whole + ([e] + esign + exp) == s;
    assert s[b] == e;
    assert MantissaEnd(s) == b;
    ExponentAt(sign + whole + [e], esign, exp);
  }

  /** A mantissa with a dot ends after the fraction digits, when `rest` does not continue them. */
  lemma MantissaEndAt(sign: string, whole: string, frac: string, rest: string)
    requires IsSign(sign) && |whole| > 0 && AllDigits(whole) && AllDigits(frac)
    requires rest == [] || !IsDigit(rest[0])
    ensures MantissaEnd(sign + whole + "." + frac + rest) == |sign| + |whole| + 1 + |frac|
    ensures IntegerEnd(sign + whole + "." + frac + rest) > SignLen(sign + whole + "." + frac + rest, 0)
  {
    var t := sign + whole + "." + frac + rest;
    var b := |sign| + |whole|;
    IntegerEndAt(sign, whole, "." + frac + rest);
    assert sign + whole + ("." + frac + rest) == t;
    assert t[b] == '.';
    DigitRunAt(sign + whole + ".", frac, rest);
  }

  /** Every text of the KEXUE grammar with a dot after the integer digits is recognised. */
  lemma ScientificFractionComplete(sign: string, whole: string, frac: string, e: char, esign: string, exp: string)
    requires IsSign(sign) && IsSign(esign)
    requires |whole| > 0 && AllDigits(whole)
    requires AllDigits(frac)
    requires e == 'E' || e == 'e'
    requires |exp| > 0 && AllDigits(exp)
    ensures IsScientific(sign + whole + "." + frac + [e] + esign + exp)
  {
    var t := sign + whole + "." + frac + [e] + esign + exp;
    var c := |sign| + |whole| + 1 + |frac|;
    MantissaEndAt(sign, whole, frac, [e] + esign + exp);
    assert sign + whole + "." + frac + ([e] + esign + exp) == t;
    assert t[c] == e;
    ExponentAt(sign + whole + "." + frac + [e], esign, exp);
  }

  /** The digits a run spans are digits. */
  lemma RunDigits(s: string, i: nat)
    requires i <= |s|
    ensures AllDigits(s[i..i + DigitRun(s, i)])
  {
    var t := s[i..i + DigitRun(s, i)];
    forall k | 0 <= k < |t|
      ensures IsDigit(t[k])
    {
      assert t[k] == s[i + k];
    }
  }

  /** The characters a sign length spans form a sign. */
  lemma RunSign(s: string, i: nat)
    requires i <= |s|
    ensures i + SignLen(s, i) <= |s| && IsSign(s[i..i + SignLen(s, i)])
  {
  }

  /** `s` splits into a sign, digits and, optionally, a dot and digits. */
  predicate NumberParts(s: string, sign: string, whole: string, frac: string) {
    IsSign(sign) && |whole| > 0 && AllDigits(whole) && AllDigits(frac) &&
    (s == sign + whole || (|frac| > 0 && s == sign + whole + "." + frac))
  }

  /** The ISNUM grammar `(\-|\+)?\d+(\.\d+)?`. */
  ghost predicate InNumberGrammar(s: string) {
    exists sign, whole, frac :: NumberParts(s, sign, whole, frac)
  }

  /** A recognised number splits as the ISNUM grammar says. */
  lemma NumberSound(s: string) returns (sign: string, whole: string, frac: string)
    requires IsNumber(s)
    ensures NumberParts(s, sign, whole, frac)
  {
    var a := SignLen(s, 0);
    var b := IntegerEnd(s);
    RunSign(s, 0);
    RunDigits(s, a);
    sign, whole := s[0..a], s[a..b];
    if b == |s| {
      frac := [];
      assert s == sign + whole;
    } else {
      RunDigits(s, b + 1);
      frac := s[b + 1..];
      assert s == sign + whole + "." + frac;
    }
  }

  /** ISNUM recognition is exactly membership in its grammar. */
  lemma NumberGrammar(s: string)
    ensures IsNumber(s) <==> InNumberGrammar(s)
  {
    if IsNumber(s) {
      var sign, whole, frac := NumberSound(s);
    }
    if InNumberGrammar(s) {
      var sign, whole, frac :| NumberParts(s, sign, whole, frac);
      NumberComplete(sign, whole, frac);
    }
  }

  /**
   * `s` splits into a sign, digits, an optional dot followed by optional
   * digits (`frac` is empty without the dot), `E` or `e`, a sign and digits.
   */
  predicate ScientificParts(s: string, sign: string, whole: string, point: string, frac: string,
                            e: char, esign: string, exp: string) {
    IsSign(sign) && |whole| > 0 && AllDigits(whole) &&
    (point == "." || (point == [] && frac == [])) && AllDigits(frac) &&
    (e == 'E' || e == 'e') && IsSign(esign) && |exp| > 0 && AllDigits(exp) &&
    s == sign + whole + point + frac + [e] + esign + exp
  }

  /** The KEXUE grammar `[+-]?\d+\.?\d*[Ee][+-]?\d+`. */
  ghost predicate InScientificGrammar(s: string) {
    exists sign, whole, point, frac, e, esign, exp :: ScientificParts(s, sign, whole, point, frac, e, esign, exp)
  }

  /** The mantissa of a text with digits after its sign splits into sign, digits, optional dot and digits. */
  lemma MantissaSound(s: string) returns (sign: string, whole: string, point: string, frac: string)
    requires IntegerEnd(s) > SignLen(s, 0)
    ensures IsSign(sign) && |whole| > 0 && AllDigits(whole)
    ensures (point == "." || (point == [] && frac == [])) && AllDigits(frac)
    ensures s[..MantissaEnd(s)] == sign + whole + point + frac
  {
    var a := SignLen(s, 0);
    var b := IntegerEnd(s);
    var c := MantissaEnd(s);
    RunSign(s, 0);
    RunDigits(s, a);
    sign, whole := s[0..a], s[a..b];
    if b < |s| && s[b] == '.' {
      RunDigits(s, b + 1);
      point, frac := ".", s[b + 1..c];
      assert s[b..c] == point + frac;
    } else {
      point, frac := [], [];
      assert c == b;
    }
    assert s[..c] == s[0..a] + s[a..b] + s[b..c];
  }

  /** An exponent from `i` on splits into a sign and a non-empty run of digits. */
  lemma ExponentSound(s: string, i: nat) returns (esign: string, exp: string)
    requires i <= |s| && ExponentFrom(s, i)
    ensures IsSign(esign) && |exp| > 0 && AllDigits(exp)
    ensures s[i..] == esign + exp
  {
    var d := i + SignLen(s, i);
    RunSign(s, i);
    RunDigits(s, d);
    esign, exp := s[i..d], s[d..];
    assert s[i..] == s[i..d] + s[d..];
  }

  /** A recognised scientific number splits as the KEXUE grammar says. */
  lemma ScientificSound(s: string) returns (sign: string, whole: string, point: string, frac: string,
                                            e: char, esign: string, exp: string)
    requires IsScientific(s)
    ensures ScientificParts(s, sign, whole, point, frac, e, esign, exp)
  {
    var c := MantissaEnd(s);
    sign, whole, point, frac := MantissaSound(s);
    e := s[c];
    esign, exp := ExponentSound(s, c + 1);
    assert s == s[..c] + [s[c]] + s[c + 1..];
  }

  /** KEXUE recognition is exactly membership in its grammar. */
  lemma ScientificGrammar(s: string)
    ensures IsScientific(s) <==> InScientificGrammar(s)
  {
    if IsScientific(s) {
      var sign, whole, point, frac, e, esign, exp := ScientificSound(s);
    }
    if InScientificGrammar(s) {
      var sign, whole, point, frac, e, esign, exp :| ScientificParts(s, sign, whole, point, frac, e, esign, exp);
      if point == [] {
        assert s == sign + whole + [e] + esign + exp;
        ScientificComplete(sign, whole, e, esign, exp);
      } else {
        ScientificFractionComplete(sign, whole, frac, e, esign, exp);
      }
    }
  }

  /** A metric text starts with a digit or a sign. */
  lemma MetricTextStart(s: string)
    requires IsMetricText(s)
    ensures |s| > 0 && (IsDigit(s[0]) || s[0] == '+' || s[0] == '-')
  {
  }

  // ---------------------------------------------------------------------------
  // Integer.toString and Integer.parseInt
  // ---------------------------------------------------------------------------

  function DigitChar(d: nat): char
    requires d < 10
  {
    ('0' as int + d) as char
  }

  /** Decimal digits of a natural number, most significant first, no leading zeros. */
  function NatToString(n: nat): (s: string)
    ensures |s| > 0 && AllDigits(s)
    ensures n > 0 ==> s[0] != '0'
    decreases n
  {
    if n < 10 then [DigitChar(n)] else NatToString(n / 10) + [DigitChar(n % 10)]
  }

  /** `Integer.toString` / `Long.toString` / string concatenation of a number. */
  function IntToString(n: int): (s: string)
    ensures |s| > 0 && (s[0] == '-' <==> n < 0)
  {
    if n < 0 then "-" + NatToString(-n) else NatToString(n)
  }

  /** Value of a string of decimal digits. */
  function DigitsValue(s: string): nat
    requires AllDigits(s)
  {
    if s == [] then 0 else DigitsValue(s[..|s| - 1]) * 10 + (s[|s| - 1] as int - '0' as int)
  }

  /**
   * `Integer.parseInt`: an optional sign followed by at least one digit, whose
   * value fits a Java `int`; `None` where Java throws NumberFormatException.
   */
  function ParseInt(s: string): (r: Option<int>)
    ensures r.Some? ==> InInt(r.value)
  {
    var a := SignLen(s, 0);
    if |s| == a || !AllDigits(s[a..]) then None
    else
      var m: int := DigitsValue(s[a..]);
      var v := if a == 1 && s[0] == '-' then -m else m;
      if InInt(v) then Some(v) else None
  }

  lemma {:induction false} NatToStringValue(n: nat)
    ensures DigitsValue(NatToString(n)) == n
    decreases n
  {
    if n >= 10 {
      var s := NatToString(n);
      NatToStringValue(n / 10);
      assert s[..|s| - 1] == NatToString(n / 10);
    }
  }

  /** Parsing what `Integer.toString` printed gives the number back. */
  lemma ParseIntToString(n: int)
    requires InInt(n)
    ensures ParseInt(IntToString(n)) == Some(n)
  {
    var s := IntToString(n);
    if n < 0 {
      var t := NatToString(-n);
      NatToStringValue(-n);
      assert s == "-" + t;
      assert s[0] == '-' && s[1..] == t;
      assert SignLen(s, 0) == 1;
      var m: int := DigitsValue(t);
      assert ParseInt(s) == Some(-m);
    } else {
      var t := NatToString(n);
      NatToStringValue(n);
      assert s == t;
      assert IsDigit(s[0]);
      assert SignLen(s, 0) == 0;
      assert s[0..] == s;
      assert ParseInt(s) == Some(DigitsValue(t));
    }
  }

  /** `"node" + i` (the synthesised instance label) is never a metric value. */
  lemma NodeLabelNotMetric(i: int)
    ensures !IsMetricText("node" + IntToString(i))
  {
    var s := "node" + IntToString(i);
    assert s[0] == 'n';
    if IsMetricText(s) {
      MetricTextStart(s);
    }
  }
}
