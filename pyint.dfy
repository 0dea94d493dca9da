/**
 * Python's int(s) on the text of a form field, as the create and update
 * handlers call it on `age`: surrounding whitespace is ignored, one optional
 * sign, then decimal digits with single underscores allowed between digits.
 * Anything else raises ValueError, which the handlers do not catch, and so
 * does a literal with more digits than the interpreter's conversion limit.
 */
module PyInt {
  import opened Wrappers

  /**
   * The ASCII characters int() skips around a literal: space, tab, line feed,
   * vertical tab, form feed and carriage return. The separators 0x1C-0x1F,
   * which str.isspace() accepts, are not among them.
   */
  predicate IsSpace(c: char)
  {
    c == ' ' || 9 <= c as int <= 13
  }

  predicate IsDigit(c: char)
  {
    '0' <= c <= '9'
  }

  function StripLeft(s: string): string
  {
    if |s| > 0 && IsSpace(s[0]) then StripLeft(s[1..]) else s
  }

  function StripRight(s: string): string
  {
    if |s| > 0 && IsSpace(s[|s| - 1]) then StripRight(s[..|s| - 1]) else s
  }

  predicate DigitsOrUnderscores(t: string)
  {
    forall i :: 0 <= i < |t| ==> IsDigit(t[i]) || t[i] == '_'
  }

  /** Digits, with each '_' standing between two digits. */
  predicate IsDigitRun(t: string)
  {
    && |t| > 0
    && DigitsOrUnderscores(t)
    && IsDigit(t[0])
    && IsDigit(t[|t| - 1])
    && forall i :: 0 < i < |t| - 1 && t[i] == '_' ==> IsDigit(t[i - 1]) && IsDigit(t[i + 1])
  }

  /** The decimal value of a run of digits and underscores (underscores skipped). */
  function DigitsValue(t: string): nat
    requires DigitsOrUnderscores(t)
  {
    if |t| == 0 then 0
    else
      var c := t[|t| - 1];
      if c == '_' then DigitsValue(t[..|t| - 1])
      else
        assert IsDigit(c);
        DigitsValue(t[..|t| - 1]) * 10 + (c as int - '0' as int)
  }

  /**
   * The default of sys.get_int_max_str_digits(): int() refuses to convert a
   * literal with more decimal digits, and str() to write one.
   */
  const MaxStrDigits := 4300

  /** The number of decimal digits in s; signs, underscores and whitespace do not count. */
  function CountDigits(s: string): nat
  {
    if |s| == 0 then 0 else (if IsDigit(s[0]) then 1 else 0) + CountDigits(s[1..])
  }

  /**
   * int(s): Some(value), or None where Python raises ValueError. A literal
   * is accepted only with at least one digit and no more than the limit.
   */
  function ParseInt(s: string): (r: Option<int>)
    ensures r.Some? ==> 0 < CountDigits(StripRight(StripLeft(s))) <= MaxStrDigits
  {
    var t := StripRight(StripLeft(s));
    if CountDigits(t) > MaxStrDigits then None
    else if |t| > 0 && (t[0] == '+' || t[0] == '-') then
      if IsDigitRun(t[1..]) then
        Some(if t[0] == '-' then 0 - DigitsValue(t[1..]) else DigitsValue(t[1..]))
      else None
    else if IsDigitRun(t) then Some(DigitsValue(t))
    else None
  }

  /** The digits of a natural number, most significant first, as str(n) writes them. */
  function NatDigits(n: nat): (r: string)
    ensures |r| > 0 && forall i :: 0 <= i < |r| ==> IsDigit(r[i])
    decreases n
  {
    var d := ['0' + (n % 10) as char];
    if n < 10 then d else NatDigits(n / 10) + d
  }

  /** str(n). */
  function Decimal(n: int): string
  {
    if n < 0 then "-" + NatDigits(-n) else NatDigits(n)
  }

  lemma {:induction false} DigitsValueOfNatDigits(n: nat)
    ensures DigitsValue(NatDigits(n)) == n
    decreases n
  {
    var t := NatDigits(n);
    if n >= 10 {
      assert t[..|t| - 1] == NatDigits(n / 10);
      DigitsValueOfNatDigits(n / 10);
    }
  }

  lemma StripOfSpaceFree(s: string)
    requires forall i :: 0 <= i < |s| ==> !IsSpace(s[i])
    ensures StripRight(StripLeft(s)) == s
  {
  }

  /** int(str(n)) == n: whatever str() writes for an age, int() reads back. */
  lemma ParseIntOfDecimal(n: int)
    requires CountDigits(Decimal(n)) <= MaxStrDigits
    ensures ParseInt(Decimal(n)) == Some(n)
  {
    var m: nat := if n < 0 then -n else n;
    DigitsValueOfNatDigits(m);
    if n < 0 {
      ParseIntOfNegative(NatDigits(m));
    } else {
      ParseIntOfDigitRun(NatDigits(m));
    }
  }

  lemma ParseIntOfDigitRun(t: string)
    requires IsDigitRun(t) && CountDigits(t) <= MaxStrDigits
    ensures ParseInt(t) == Some(DigitsValue(t))
  {
    StripOfSpaceFree(t);
  }

  /** A well-formed literal with more digits than the limit still raises. */
  lemma ParseIntOfLongRun(t: string)
    requires IsDigitRun(t) && CountDigits(t) > MaxStrDigits
    ensures ParseInt(t) == None
  {
    StripOfSpaceFree(t);
  }

  /** A literal led by one of the separators 0x1C-0x1F is not stripped, so int() raises on it. */
  lemma ParseIntOfSeparatorPadded(c: char, d: string)
    requires 28 <= c as int <= 31 && IsDigitRun(d)
    ensures ParseInt([c] + d) == None
  {
    var t := [c] + d;
    assert t[|t| - 1] == d[|d| - 1];
    assert StripRight(StripLeft(t)) == t;
  }

  lemma ParseIntOfNegative(d: string)
    requires IsDigitRun(d) && CountDigits(d) <= MaxStrDigits
    ensures ParseInt("-" + d) == Some(0 - DigitsValue(d))
  {
    var t := "-" + d;
    forall i | 0 <= i < |t| ensures !IsSpace(t[i]) {
      if i > 0 { assert t[i] == d[i - 1]; }
    }
    StripOfSpaceFree(t);
    assert t[1..] == d;
    assert CountDigits(t) == CountDigits(d);
  }

  /** An empty or all-blank field never parses, so int() raises on it. */
  lemma ParseIntOfBlank(s: string)
    requires forall i :: 0 <= i < |s| ==> IsSpace(s[i])
    ensures ParseInt(s) == None
  {
    StripLeftOfBlank(s);
  }

  lemma {:induction false} StripLeftOfBlank(s: string)
    requires forall i :: 0 <= i < |s| ==> IsSpace(s[i])
    ensures StripLeft(s) == []
  {
    if |s| > 0 {
      StripLeftOfBlank(s[1..]);
    }
  }

  /** A string int() accepts is not empty, so it also passes the handlers' `if age:` test. */
  lemma ParsedIsNotEmpty(s: string)
    requires ParseInt(s).Some?
    ensures s != []
  {
    if s == [] {
      ParseIntOfBlank(s);
    }
  }
}
