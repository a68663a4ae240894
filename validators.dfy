/** The string validators of hutils/validators.py. */
module Validators {
  import opened Wrappers
  import opened PyValues
  import PyInt
  import Text

  // ---- is_uuid ----

  predicate IsHexDigit(c: char)
  {
    '0' <= c <= '9' || 'a' <= c <= 'f' || 'A' <= c <= 'F'
  }

  predicate IsLowerHexDigit(c: char)
  {
    '0' <= c <= '9' || 'a' <= c <= 'f'
  }

  function Lower(c: char): (l: char)
    ensures IsHexDigit(c) ==> IsLowerHexDigit(l)
    ensures IsLowerHexDigit(c) ==> l == c
  {
    if 'A' <= c <= 'F' then (c as int - 'A' as int + 'a' as int) as char else c
  }

  /** `uuid.UUID(s).hex` where what is left after the clean-up is 32 hex
      digits: the prefixes `urn:` and `uuid:` removed, braces stripped from
      the ends, hyphens removed, the digits rendered back in lower case. The
      other 32-character strings `int(..., 16)` accepts (a `0x` prefix, a
      sign, underscores, surrounding whitespace) are None here; their hex is
      32 lower-case digits all the same, so `is_uuid` gives them the same
      verdict (`IsUuidExact`). */
  function UuidHex(s: string): (r: Option<string>)
    ensures r.Some? ==> |r.value| == 32 && forall i :: 0 <= i < 32 ==> IsLowerHexDigit(r.value[i])
  {
    HexDigits(Cleaned(s))
  }

  /** The clean-up before parsing: prefixes, braces and hyphens removed. */
  function Cleaned(s: string): string
  {
    var t := Text.ReplaceAll(Text.ReplaceAll(s, "urn:", ""), "uuid:", "");
    Text.ReplaceAll(Text.Strip(t, {'{', '}'}), "-", "")
  }

  /** 32 hex digits, in lower case. */
  function HexDigits(u: string): (r: Option<string>)
    ensures r.Some? ==> |r.value| == 32 && forall i :: 0 <= i < 32 ==> IsLowerHexDigit(r.value[i])
  {
    if |u| == 32 && forall i :: 0 <= i < 32 ==> IsHexDigit(u[i]) then
      Some(seq(32, i requires 0 <= i < 32 => Lower(u[i])))
    else None
  }

  /** The canonical form `is_uuid` accepts: 32 lower-case hex digits. */
  predicate IsCanonicalUuid(s: string)
  {
    |s| == 32 && forall i :: 0 <= i < 32 ==> IsLowerHexDigit(s[i])
  }

  /** `is_uuid(v)`: false for a falsy value; for a string, whether it is its own
      `UUID(...).hex`; any other value reaches `str.replace` and raises. */
  function IsUuid(v: Value): (r: Result<bool, PyError>)
    ensures !Truthy(v) ==> r == Success(false)
    ensures Truthy(v) && !v.Str? ==> r == Failure(AttributeError)
    ensures v.Str? ==> r.Success?
  {
    if !Truthy(v) then Success(false)
    else if v.Str? then Success(UuidHex(v.s) == Some(v.s))
    else Failure(AttributeError)
  }

  /** A string passes `is_uuid` exactly when it is 32 lower-case hex digits:
      hyphenated, braced, prefixed or upper-case forms do not. */
  lemma IsUuidExact(s: string)
    ensures IsUuid(Str(s)) == Success(IsCanonicalUuid(s))
  {
    var h := UuidHex(s);
    if IsCanonicalUuid(s) {
      CanonicalUuidIsOwnHex(s);
      assert Truthy(Str(s));
    }
  }

  lemma CanonicalUuidIsOwnHex(s: string)
    requires IsCanonicalUuid(s)
    ensures UuidHex(s) == Some(s)
  {
    CanonicalUuidUntouched(s);
    CanonicalHexDigits(s);
  }

  lemma CanonicalHexDigits(s: string)
    requires IsCanonicalUuid(s)
    ensures HexDigits(s) == Some(s)
  {
    assert forall i :: 0 <= i < 32 ==> IsHexDigit(s[i]) && Lower(s[i]) == s[i];
    assert seq(32, i requires 0 <= i < 32 => Lower(s[i])) == s;
  }

  /** The clean-up `UUID` does before parsing leaves a canonical string alone. */
  lemma CanonicalUuidUntouched(s: string)
    requires IsCanonicalUuid(s)
    ensures Cleaned(s) == s
  {
    forall j | 0 <= j < |s| ensures s[j] != ':' && s[j] != '-' && s[j] != '{' && s[j] != '}' {
      assert IsLowerHexDigit(s[j]);
    }
    assert "urn:"[3] == ':' && "uuid:"[4] == ':';
    Text.MissingCharNotSubstring("urn:", s, 3);
    Text.ReplaceAllAbsent(s, "urn:", "");
    Text.MissingCharNotSubstring("uuid:", s, 4);
    Text.ReplaceAllAbsent(s, "uuid:", "");
    Text.StripUntouched(s, {'{', '}'});
    Text.MissingCharNotSubstring("-", s, 0);
    Text.ReplaceAllAbsent(s, "-", "");
  }

  /** The test's counterexample. */
  lemma IsUuidRejectsProse()
    ensures IsUuid(Str("php is the best...")) == Success(false)
  {
    IsUuidExact("php is the best...");
  }

  // ---- is_int ----

  /** `is_int(v)`: whether `int(v)` succeeds; only ValueError is turned into
      False, so a value `int()` rejects with TypeError raises. */
  function IsInt(v: Value): (r: Result<bool, PyError>)
    ensures v.Str? ==> r == Success(PyInt.ParseInt(v.s).Some?)
    ensures v.Int? || v.Bool? ==> r == Success(true)
    ensures (v.Null? || v.List? || v.Dict? || v.Obj?) ==> r == Failure(TypeError)
  {
    match PyInt.ToInt(v)
    case Success(_) => Success(true)
    case Failure(e) => if e.ValueError? then Success(false) else Failure(e)
  }

  /** Every rendered integer passes `is_int`. */
  lemma IsIntRendered(n: int)
    ensures IsInt(Str(PyInt.Render(n))) == Success(true)
  {
    PyInt.ParseRender(n);
  }

  /** A number padded with an ASCII separator is not an int: `int()` does not
      strip it. */
  lemma IsIntSeparatorPadded(s: string)
    requires s == "\U{1C}1"
    ensures IsInt(Str(s)) == Success(false)
  {
    PyInt.SeparatorPaddedRejected(s);
  }

  /** The test's examples: a letter is not an integer, `None` raises. */
  lemma IsIntExamples(letter: string)
    requires letter == "a"
    ensures IsInt(Str(letter)) == Success(false)
    ensures IsInt(Null) == Failure(TypeError)
  {
    PyInt.NonNumericStart(letter);
  }

  // ---- is_chinese_phone ----

  /** A regular expression `^c1 c2 ... cn$` whose items are character ranges. */
  type Pattern = seq<(char, char)>

  /** `re.match(pattern, s)` succeeds: each range takes one character, then
      `$` matches at the end of the string or before a final newline. */
  predicate Matches(p: Pattern, s: string)
  {
    if p == [] then s == "" || s == "\n"
    else |s| > 0 && p[0].0 <= s[0] <= p[0].1 && Matches(p[1..], s[1..])
  }

  /** A fixed-width pattern matches the strings of its width, character by
      character, optionally followed by one newline. */
  lemma {:induction false} MatchesFixedWidth(p: Pattern, s: string)
    ensures Matches(p, s) <==>
      && (|s| == |p| || (|s| == |p| + 1 && s[|p|] == '\n'))
      && forall i :: 0 <= i < |p| ==> p[i].0 <= s[i] <= p[i].1
  {
    if p != [] && |s| > 0 {
      MatchesFixedWidth(p[1..], s[1..]);
      assert forall i :: 1 <= i < |p| ==> p[i] == p[1..][i - 1];
      assert forall i :: 1 <= i < |s| ==> s[i] == s[1..][i - 1];
    }
  }

  /** `^1[3-9][0-9]{9}$`. */
  function PhonePattern(): (p: Pattern)
    ensures |p| == 11
  {
    [('1', '1'), ('3', '9')] + seq(9, _ => ('0', '9'))
  }

  /** `is_chinese_phone(v)`; `re.match` rejects a value that is not a string. */
  function IsChinesePhone(v: Value): (r: Result<bool, PyError>)
    ensures v.Str? <==> r.Success?
    ensures r.Failure? ==> r.error == TypeError
  {
    if v.Str? then Success(Matches(PhonePattern(), v.s)) else Failure(TypeError)
  }

  /** The accepted numbers: '1', a digit from 3 to 9, nine digits, and
      possibly one trailing newline. */
  lemma ChinesePhoneShape(s: string)
    ensures IsChinesePhone(Str(s)) == Success(
      && (|s| == 11 || (|s| == 12 && s[11] == '\n'))
      && s[0] == '1' && '3' <= s[1] <= '9'
      && forall i :: 2 <= i < 11 ==> '0' <= s[i] <= '9')
  {
    MatchesFixedWidth(PhonePattern(), s);
  }

  /** The test's examples. */
  lemma ChinesePhoneExamples(phone: string, withNewline: string, short: string)
    requires phone == "17600001234" && withNewline == "17600001234\n" && short == "91234567"
    ensures IsChinesePhone(Str(phone)) == Success(true)
    ensures IsChinesePhone(Str(withNewline)) == Success(true)
    ensures IsChinesePhone(Str(short)) == Success(false)
  {
    ChinesePhoneShape(phone);
    ChinesePhoneShape(withNewline);
    ChinesePhoneShape(short);
  }
}
