/** Python's `int()` on ASCII digits: conversion of a string (surrounding
    whitespace, an optional sign, decimal digits with single underscores between
    them) and of the other values the helpers pass to `int()`; and `str()` of an
    integer, the rendering that parsing undoes. */
module PyInt {
  import opened Wrappers
  import opened PyValues
  import Text

  /** The characters `int()` skips around a literal: the C-locale spaces, tab
      to carriage return and space, and the non-ASCII characters for which
      `str.isspace()` holds, which `int()` first turns into spaces. The ASCII
      separators U+001C to U+001F pass `str.isspace()` but are left as they
      are, so `int()` rejects them. */
  predicate IsSpace(c: char)
  {
    || '\t' <= c <= '\r' || c == ' '
    || c == '\U{85}' || c == '\U{A0}' || c == '\U{1680}'
    || '\U{2000}' <= c <= '\U{200A}'
    || c == '\U{2028}' || c == '\U{2029}' || c == '\U{202F}' || c == '\U{205F}' || c == '\U{3000}'
  }

  const Whitespace: set<char> := set c: char | '\t' <= c <= '\U{3000}' && IsSpace(c)

  predicate IsDigit(c: char)
  {
    '0' <= c <= '9'
  }

  function DigitValue(c: char): (d: nat)
    requires IsDigit(c)
    ensures d < 10
  {
    (c as int) - ('0' as int)
  }

  function DigitChar(d: nat): (c: char)
    requires d < 10
    ensures IsDigit(c) && DigitValue(c) == d
  {
    ('0' as int + d) as char
  }

  /** Digits with underscores allowed only singly and only between digits. */
  predicate IsDigitRun(body: string)
  {
    && |body| > 0
    && IsDigit(body[0])
    && IsDigit(body[|body| - 1])
    && (forall i :: 0 <= i < |body| ==> IsDigit(body[i]) || body[i] == '_')
    && (forall i :: 0 <= i < |body| - 1 ==> body[i] == '_' ==> body[i + 1] != '_')
  }

  /** The number a run of digits denotes, underscores skipped. */
  function DigitsValue(body: string): nat
    requires forall i :: 0 <= i < |body| ==> IsDigit(body[i]) || body[i] == '_'
  {
    if body == [] then 0
    else
      var init := body[..|body| - 1];
      var last := body[|body| - 1];
      if last == '_' then DigitsValue(init) else DigitsValue(init) * 10 + DigitValue(last)
  }

  /** `int(s)` for a string s: None where Python raises ValueError. */
  function ParseInt(s: string): (r: Option<int>)
  {
    ParseStripped(Text.Strip(s, Whitespace))
  }

  /** `int()` of a string already stripped of surrounding whitespace. */
  function ParseStripped(t: string): Option<int>
  {
    if t == [] then None
    else
      var negative := t[0] == '-';
      var body := if t[0] == '-' || t[0] == '+' then t[1..] else t;
      if IsDigitRun(body) then
        Some(if negative then -(DigitsValue(body) as int) else DigitsValue(body))
      else None
  }

  /** A string starting with a character that is neither whitespace, a sign
      nor a digit is not an integer literal. */
  lemma NonNumericStart(s: string)
    requires |s| > 0 && s[0] !in Whitespace && !IsDigit(s[0]) && s[0] != '-' && s[0] != '+'
    ensures ParseInt(s) == None
  {
    var r := Text.RStrip(s, Whitespace);
    assert |r| > 0 && r[0] == s[0];
    assert Text.Strip(s, Whitespace) == r;
  }

  /** Decimal digits of a non-negative integer, without leading zeros. */
  function RenderNat(n: nat): (s: string)
    ensures |s| > 0 && forall i :: 0 <= i < |s| ==> IsDigit(s[i])
  {
    if n < 10 then [DigitChar(n)] else RenderNat(n / 10) + [DigitChar(n % 10)]
  }

  /** `str(n)`. */
  function Render(n: int): string
  {
    if n < 0 then "-" + RenderNat(-n) else RenderNat(n)
  }

  lemma {:induction false} DigitsValueRenderNat(n: nat)
    ensures DigitsValue(RenderNat(n)) == n
  {
    var s := RenderNat(n);
    if n >= 10 {
      DigitsValueRenderNat(n / 10);
      assert s[..|s| - 1] == RenderNat(n / 10);
    }
  }

  /** Parsing the rendering of an integer gives the integer back. */
  lemma ParseRender(n: int)
    ensures ParseInt(Render(n)) == Some(n)
  {
    ParseRenderAt(n, Render(n));
  }

  lemma ParseRenderAt(n: int, s: string)
    requires s == Render(n)
    ensures ParseInt(s) == Some(n)
  {
    if n < 0 {
      ParseNegative(-n, s);
    } else {
      ParseNatural(n, s);
    }
  }

  /** The digits of a natural number parse to it. */
  lemma ParseNatural(m: nat, s: string)
    requires s == RenderNat(m)
    ensures ParseInt(s) == Some(m)
  {
    assert s[0] !in Whitespace && s[|s| - 1] !in Whitespace;
    Text.StripUntouched(s, Whitespace);
    DigitsValueRenderNat(m);
    assert IsDigitRun(s);
  }

  /** A minus sign before the digits of a natural number negates it. */
  lemma ParseNegative(m: nat, s: string)
    requires s == "-" + RenderNat(m)
    ensures ParseInt(s) == Some(-(m as int))
  {
    var digits := RenderNat(m);
    assert s[0] !in Whitespace && s[|s| - 1] !in Whitespace;
    Text.StripUntouched(s, Whitespace);
    DigitsValueRenderNat(m);
    assert IsDigitRun(digits);
    assert s[0] == '-' && s[1..] == digits;
  }

  /** `int(v)` for the values the helpers pass to it. */
  function ToInt(v: Value): (r: Result<int, PyError>)
    ensures v.Int? ==> r == Success(v.i)
    ensures v.Bool? ==> r == Success(if v.b then 1 else 0)
    ensures v.Str? ==> (r.Success? <==> ParseInt(v.s).Some?)
    ensures v.Str? && r.Success? ==> Some(r.value) == ParseInt(v.s)
    ensures (v.Null? || v.List? || v.Dict? || v.Obj?) ==> r == Failure(TypeError)
  {
    match v
    case Int(i) => Success(i)
    case Bool(b) => Success(if b then 1 else 0)
    case Str(s) =>
      (match ParseInt(s)
       case Some(i) => Success(i)
       case None => Failure(ValueError(InvalidLiteral)))
    case _ => Failure(TypeError)
  }

  const InvalidLiteral := "invalid literal for int() with base 10"

  /** An ASCII separator is not whitespace to `int()`: `int('\x1c1')` raises
      ValueError. */
  lemma SeparatorPaddedRejected(s: string)
    requires s == "\U{1C}1"
    ensures ParseInt(s) == None
  {
    assert s[0] !in Whitespace;
    NonNumericStart(s);
  }
}
